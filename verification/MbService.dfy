/**
 The MB execution sub-service: request queue, the in-flight computation with
 its promise channel, and the database rows it writes one by one.
 */
module MbService {
  import opened Base
  import opened Chain
  import opened MbExecution

  type Promise = nat
  datatype PromisePolicy = Enabled | Disabled
  datatype EmissionMode = ConsensusDriven | AlwaysEmit

  /** What the service is parameterised by: the processor (a pure function of
      its input that may also fail), the emission mode and the seeded zero MB. */
  datatype Env = Env(process: Executable -> Finalized, mode: EmissionMode, seed: Finalized)

  // ---------------------------------------------------------------------
  // Database rows written by the execution

  datatype Rows = Rows(
    states: map<Hash, ProgramStates>,
    schedule: map<Hash, Schedule>,
    outcome: map<Hash, Outcome>,
    committedIds: map<Hash, set<nat>>,
    programCode: map<nat, CodeId>,
    computed: set<Hash>)

  datatype Db = Db(chain: AcyclicDb, rows: Rows)

  datatype Write =
    | SetProgramCode(program: nat, code: CodeId)
    | SetOutcome(mb: Hash, outcome: Outcome)
    | SetCommittedIds(mb: Hash, ids: set<nat>)
    | SetStates(mb: Hash, states: ProgramStates)
    | SetSchedule(mb: Hash, schedule: Schedule)
    | SetComputed(mb: Hash)

  function Apply(rows: Rows, w: Write): Rows {
    match w
    case SetProgramCode(program, code) => rows.(programCode := rows.programCode[program := code])
    case SetOutcome(mb, outcome) => rows.(outcome := rows.outcome[mb := outcome])
    case SetCommittedIds(mb, ids) => rows.(committedIds := rows.committedIds[mb := ids])
    case SetStates(mb, states) => rows.(states := rows.states[mb := states])
    case SetSchedule(mb, schedule) => rows.(schedule := rows.schedule[mb := schedule])
    case SetComputed(mb) => rows.(computed := rows.computed + {mb})
  }

  function CreationWrites(creations: seq<(nat, CodeId)>): (r: seq<Write>)
    ensures |r| == |creations|
  {
    if creations == [] then []
    else [SetProgramCode(creations[0].0, creations[0].1)] + CreationWrites(creations[1..])
  }

  /** The writes of `compute_one`, in order; the computed flag comes last. */
  function Writes(mb: Hash, fin: Finalized): (r: seq<Write>)
    ensures |r| == |fin.programCreations| + 5 && r[|r| - 1] == SetComputed(mb)
  {
    CreationWrites(fin.programCreations) + [
      SetOutcome(mb, fin.transitions),
      SetCommittedIds(mb, fin.committedIds),
      SetStates(mb, fin.states),
      SetSchedule(mb, fin.schedule),
      SetComputed(mb)
    ]
  }

  /** `prepare_executable_for_mb`: payload and the stored rows of the parent. */
  function PrepareExecutable(db: Db, mb: Hash, compact: CompactMb): Result<Executable, ComputeError> {
    if compact.operationsHash !in db.chain.operations then Err(MbPayloadNotFound(mb, compact.operationsHash))
    else if compact.parent !in db.rows.states then Err(ParentMbStatesMissing(compact.parent))
    else if compact.parent !in db.rows.schedule then Err(ParentMbScheduleMissing(compact.parent))
    else
      Build(db.chain, db.chain.operations[compact.operationsHash], db.rows.states[compact.parent],
            db.rows.schedule[compact.parent], db.chain.Advanced(compact.parent))
  }

  method PrepareExecutableForMb(db: Db, mb: Hash, compact: CompactMb) returns (r: Result<Executable, ComputeError>)
    ensures r == PrepareExecutable(db, mb, compact)
  {
    if compact.operationsHash !in db.chain.operations {
      return Err(MbPayloadNotFound(mb, compact.operationsHash));
    }
    if compact.parent !in db.rows.states {
      return Err(ParentMbStatesMissing(compact.parent));
    }
    if compact.parent !in db.rows.schedule {
      return Err(ParentMbScheduleMissing(compact.parent));
    }
    r := BuildExecutableData(db.chain, db.chain.operations[compact.operationsHash], db.rows.states[compact.parent],
                             db.rows.schedule[compact.parent], db.chain.Advanced(compact.parent));
  }

  type Link = (Hash, CompactMb)

  /** Uncomputed MBs from the first one above a computed ancestor up to `head`. */
  function UncomputedChain(db: Db, head: Hash): Result<seq<Link>, ComputeError>
    decreases db.chain.MbRank(head)
  {
    if head == ZERO || head in db.rows.computed then Ok([])
    else if head !in db.chain.compact then Err(MbCompactNotFound(head))
    else
      var older :- UncomputedChain(db, db.chain.compact[head].parent);
      Ok(older + [(head, db.chain.compact[head])])
  }

  /** The walk of `collect_uncomputed_chain`, pushing each MB to the front. */
  method CollectUncomputedChain(db: Db, head: Hash) returns (r: Result<seq<Link>, ComputeError>)
    ensures r == UncomputedChain(db, head)
  {
    var chain: seq<Link> := [];
    var mb := head;
    while mb != ZERO && mb !in db.rows.computed
      invariant UncomputedChain(db, head) == Join(UncomputedChain(db, mb), chain)
      decreases db.chain.MbRank(mb)
    {
      if mb !in db.chain.compact {
        return Err(MbCompactNotFound(mb));
      }
      var compact := db.chain.compact[mb];
      JoinJoin(UncomputedChain(db, compact.parent), [(mb, compact)], chain);
      chain := [(mb, compact)] + chain;
      mb := compact.parent;
    }
    assert [] + chain == chain;
    r := Ok(chain);
  }

  // ---------------------------------------------------------------------
  // The computation future, one step at a time

  datatype Stage =
    | Loading
    | Executing(exe: Executable)
    | Storing(todo: seq<Write>)

  datatype Task =
    | Fresh
    | Running(chain: seq<Link>, stage: Stage)
    | Finished(result: Result<Hash, ComputeError>)

  datatype Computation = Computation(head: Hash, policy: PromisePolicy, task: Task)

  /** Stages that a computation can be in: there is an MB to run and something left to store. */
  predicate InStage(c: Computation) {
    c.task.Running? ==> c.task.chain != [] && (c.task.stage.Storing? ==> c.task.stage.todo != [])
  }

  /** What the executor does next: send a promise, return, or fail. */
  datatype Choice = Send(promise: Promise) | Return | Fail

  /** Whether executing `mb` is given a promise sink. */
  predicate Emits(mode: EmissionMode, policy: PromisePolicy, mb: Hash, head: Hash) {
    mode.AlwaysEmit? || (policy.Enabled? && mb == head)
  }

  type Sent = (Hash, Promise)

  datatype Worked = Worked(rows: Rows, computation: Computation, sent: seq<Sent>)

  /** One step of `compute`: a database read, one executor action, or one database write. */
  function TaskStep(env: Env, db: Db, c: Computation, choice: Choice): Worked
    requires InStage(c)
  {
    match c.task
    case Fresh =>
      var task :=
        if c.head in db.rows.computed then Finished(Ok(c.head))
        else match UncomputedChain(db, c.head)
          case Err(e) => Finished(Err(e))
          case Ok(chain) => if chain == [] then Finished(Ok(c.head)) else Running(chain, Loading);
      Worked(db.rows, c.(task := task), [])
    case Running(chain, Loading) =>
      var task := match PrepareExecutable(db, chain[0].0, chain[0].1)
        case Err(e) => Finished(Err(e))
        case Ok(exe) => Running(chain, Executing(exe));
      Worked(db.rows, c.(task := task), [])
    case Running(chain, Executing(exe)) =>
      (match choice
       case Send(promise) =>
         var sent := if Emits(env.mode, c.policy, chain[0].0, c.head) then [(chain[0].0, promise)] else [];
         Worked(db.rows, c, sent)
       case Return => Worked(db.rows, c.(task := Running(chain, Storing(Writes(chain[0].0, env.process(exe))))), [])
       case Fail => Worked(db.rows, c.(task := Finished(Err(ProcessorFailed))), []))
    case Running(chain, Storing(todo)) =>
      var task :=
        if |todo| > 1 then Running(chain, Storing(todo[1..]))
        else if |chain| > 1 then Running(chain[1..], Loading)
        else Finished(Ok(c.head));
      Worked(Apply(db.rows, todo[0]), c.(task := task), [])
    case Finished(_) => Worked(db.rows, c, [])
  }

  // ---------------------------------------------------------------------
  // The service

  datatype Request = Request(head: Hash, policy: PromisePolicy)

  /** Items of the output stream.  The two failures are both plain errors to
      the caller; the model keeps where they come from. */
  datatype Out =
    | Promised(mb: Hash, promise: Promise)
    | MbComputed(head: Hash)
    | Failed(error: ComputeError)
    | VersionChanged(finalized: Hash, version: nat)
    | FinalizedEventsFailed(finalized: Hash, error: ComputeError)

  datatype Machine = Machine(
    db: Db,
    input: seq<Request>,
    finalizedInput: seq<Hash>,
    finalizedOutput: seq<Out>,
    inFlight: Option<Hash>,
    computation: Option<Computation>,
    stream: Option<seq<Sent>>,
    pending: Option<Out>)

  predicate Idle(m: Machine) {
    m.computation.None? && m.stream.None? && m.pending.None?
  }

  predicate Wf(m: Machine) {
    m.computation.Some? ==> InStage(m.computation.value)
  }

  predicate Queued(m: Machine, mb: Hash) {
    exists i :: 0 <= i < |m.input| && m.input[i].head == mb
  }

  function ReceiveMb(m: Machine, mb: Hash, policy: PromisePolicy): Machine {
    if mb in m.db.rows.computed || m.inFlight == Some(mb) || Queued(m, mb) then m
    else m.(input := m.input + [Request(mb, policy)])
  }

  function ReceiveFinalizedMbEvents(m: Machine, mb: Hash): Machine {
    if mb in m.finalizedInput then m else m.(finalizedInput := m.finalizedInput + [mb])
  }

  /** The protocol version changes among the events of a finalized MB. */
  function VersionChanges(mb: Hash, events: seq<BlockEvent>): (r: seq<Out>)
    ensures forall i :: 0 <= i < |r| ==> r[i].VersionChanged? && r[i].finalized == mb
  {
    if events == [] then []
    else if events[0].ProtocolVersionChanged? then
      [VersionChanged(mb, events[0].version)] + VersionChanges(mb, events[1..])
    else VersionChanges(mb, events[1..])
  }

  function FinalizedEvents(db: Db, mb: Hash): Result<seq<Out>, ComputeError> {
    if mb !in db.chain.compact then Err(MbCompactNotFound(mb))
    else
      var exe :- PrepareExecutable(db, mb, db.chain.compact[mb]);
      Ok(VersionChanges(mb, exe.events))
  }

  /** `collect_finalized_events`: one pass over the events the MB was executed on. */
  method CollectFinalizedEvents(db: Db, mb: Hash) returns (r: Result<seq<Out>, ComputeError>)
    ensures r == FinalizedEvents(db, mb)
  {
    if mb !in db.chain.compact {
      return Err(MbCompactNotFound(mb));
    }
    var exe := PrepareExecutableForMb(db, mb, db.chain.compact[mb]);
    if exe.Err? {
      return Err(exe.error);
    }
    var events := exe.value.events;
    var found: seq<Out> := [];
    for i := 0 to |events|
      invariant VersionChanges(mb, events) == found + VersionChanges(mb, events[i..])
    {
      assert events[i..][1..] == events[i + 1..];
      if events[i].ProtocolVersionChanged? {
        found := found + [VersionChanged(mb, events[i].version)];
      }
    }
    assert events[|events|..] == [];
    assert found + [] == found;
    r := Ok(found);
  }

  /** Step (1) of a poll: collect events of finalized MBs that are computed, and forward one. */
  function ForwardFinalized(m: Machine): (r: (Machine, Option<Out>))
    ensures r.0 == m.(finalizedInput := r.0.finalizedInput, finalizedOutput := r.0.finalizedOutput)
    decreases |m.finalizedInput|
  {
    if m.finalizedOutput != [] then
      (m.(finalizedOutput := m.finalizedOutput[1..]), Some(m.finalizedOutput[0]))
    else if m.finalizedInput == [] || m.finalizedInput[0] !in m.db.rows.computed then (m, None)
    else
      var mb, rest := m.finalizedInput[0], m.finalizedInput[1..];
      match FinalizedEvents(m.db, mb)
      case Err(e) => (m.(finalizedInput := rest), Some(FinalizedEventsFailed(mb, e)))
      case Ok(events) => ForwardFinalized(m.(finalizedInput := rest, finalizedOutput := events))
  }

  /** Step (2): start the next request. */
  function StartNext(m: Machine): Machine {
    if m.input == [] then m
    else
      m.(input := m.input[1..],
         inFlight := Some(m.input[0].head),
         stream := Some([]),
         computation := Some(Computation(m.input[0].head, m.input[0].policy, Fresh)))
  }

  /** No sender is left: the computation is over. */
  predicate ChannelClosed(m: Machine) {
    m.computation.Some? ==> m.computation.value.task.Finished?
  }

  /** Executor progress.  What is sent reaches the channel if the receiver is still there. */
  function Work(env: Env, m: Machine, choice: Choice): (Machine, seq<Sent>)
    requires Wf(m)
  {
    if m.computation.None? then (m, [])
    else
      var w := TaskStep(env, m.db, m.computation.value, choice);
      var stream := if m.stream.Some? then Some(m.stream.value + w.sent) else None;
      (m.(db := m.db.(rows := w.rows), computation := Some(w.computation), stream := stream), w.sent)
  }

  function WorkAll(env: Env, m: Machine, work: seq<Choice>): (r: (Machine, seq<Sent>))
    requires Wf(m)
    ensures Wf(r.0) && r.0.computation.Some? == m.computation.Some? && r.0.stream.Some? == m.stream.Some?
    ensures r.0.pending == m.pending && r.0.finalizedInput == m.finalizedInput && r.0.finalizedOutput == m.finalizedOutput
    ensures r.0.input == m.input && r.0.inFlight == m.inFlight
    decreases |work|
  {
    if work == [] then (m, [])
    else
      var (first, sent) := Work(env, m, work[0]);
      var (last, more) := WorkAll(env, first, work[1..]);
      (last, sent + more)
  }

  datatype Polled = Polled(next: Machine, out: Option<Out>, sent: seq<Sent>)

  function Answer(result: Result<Hash, ComputeError>): Out {
    match result case Ok(mb) => MbComputed(mb) case Err(e) => Failed(e)
  }

  /** Step (5): poll the future, which does `work` before it returns. */
  function Drive(env: Env, m: Machine, work: seq<Choice>): Polled
    requires Wf(m)
  {
    if m.computation.None? then Polled(m, None, [])
    else
      var (worked, sent) := WorkAll(env, m, work);
      match worked.computation.value.task
      case Finished(result) =>
        var done := worked.(computation := None, inFlight := None);
        if done.stream.Some? then Polled(done.(pending := Some(Answer(result))), None, sent)
        else Polled(done, Some(Answer(result)), sent)
      case _ => Polled(worked, None, sent)
  }

  /** Steps (3) to (5): forward a promise, release a held answer, or drive the computation. */
  function Advance(env: Env, m: Machine, work: seq<Choice>): Polled
    requires Wf(m)
  {
    if m.stream.Some? && m.stream.value != [] then
      var (mb, promise) := m.stream.value[0];
      Polled(m.(stream := Some(m.stream.value[1..])), Some(Promised(mb, promise)), [])
    else
      var drained := if m.stream.Some? && ChannelClosed(m) then m.(stream := None) else m;
      if drained.pending.Some? then Polled(drained.(pending := None), drained.pending, [])
      else Drive(env, drained, work)
  }

  function Poll(env: Env, m: Machine, work: seq<Choice>): Polled
    requires Wf(m)
  {
    if Idle(m) then
      var (forwarded, out) := ForwardFinalized(m);
      if out.Some? then Polled(forwarded, out, [])
      else Advance(env, StartNext(forwarded), work)
    else Advance(env, m, work)
  }

  // ---------------------------------------------------------------------
  // The service as an object

  class ComputeSubService {
    const env: Env
    var db: Db
    var input: seq<Request>
    var finalizedInput: seq<Hash>
    var finalizedOutput: seq<Out>
    var inFlight: Option<Hash>
    var computation: Option<Computation>
    var stream: Option<seq<Sent>>
    var pending: Option<Out>

    function View(): Machine
      reads this
    {
      Machine(db, input, finalizedInput, finalizedOutput, inFlight, computation, stream, pending)
    }

    constructor (env: Env, db: Db)
      ensures this.env == env
      ensures View() == Machine(db, [], [], [], None, None, None, None)
    {
      this.env := env;
      this.db := db;
      input := [];
      finalizedInput := [];
      finalizedOutput := [];
      inFlight := None;
      computation := None;
      stream := None;
      pending := None;
    }

    method Receive(mb: Hash, policy: PromisePolicy)
      modifies this
      ensures View() == ReceiveMb(old(View()), mb, policy)
    {
      var queued := false;
      for i := 0 to |input|
        invariant queued <==> exists j :: 0 <= j < i && input[j].head == mb
        invariant View() == old(View())
      {
        queued := queued || input[i].head == mb;
      }
      if mb in db.rows.computed || inFlight == Some(mb) || queued {
        return;
      }
      input := input + [Request(mb, policy)];
    }

    method ReceiveFinalized(mb: Hash)
      modifies this
      ensures View() == ReceiveFinalizedMbEvents(old(View()), mb)
    {
      if mb !in finalizedInput {
        finalizedInput := finalizedInput + [mb];
      }
    }

    /** One step of the executor, with its database write and its promise. */
    method Progress(choice: Choice) returns (sent: seq<Sent>)
      requires Wf(View())
      modifies this
      ensures (View(), sent) == Work(env, old(View()), choice)
    {
      sent := [];
      if computation.None? {
        return;
      }
      var c := computation.value;
      var task := c.task;
      match c.task {
        case Fresh =>
          if c.head in db.rows.computed {
            task := Finished(Ok(c.head));
          } else {
            var chain := CollectUncomputedChain(db, c.head);
            if chain.Err? {
              task := Finished(Err(chain.error));
            } else {
              task := if chain.value == [] then Finished(Ok(c.head)) else Running(chain.value, Loading);
            }
          }
        case Running(chain, Loading) =>
          var exe := PrepareExecutableForMb(db, chain[0].0, chain[0].1);
          task := if exe.Err? then Finished(Err(exe.error)) else Running(chain, Executing(exe.value));
        case Running(chain, Executing(exe)) =>
          match choice {
            case Send(promise) =>
              if Emits(env.mode, c.policy, chain[0].0, c.head) {
                sent := [(chain[0].0, promise)];
              }
            case Return =>
              task := Running(chain, Storing(Writes(chain[0].0, env.process(exe))));
            case Fail =>
              task := Finished(Err(ProcessorFailed));
          }
        case Running(chain, Storing(todo)) =>
          db := db.(rows := Apply(db.rows, todo[0]));
          if |todo| > 1 {
            task := Running(chain, Storing(todo[1..]));
          } else if |chain| > 1 {
            task := Running(chain[1..], Loading);
          } else {
            task := Finished(Ok(c.head));
          }
        case Finished(_) =>
      }
      computation := Some(c.(task := task));
      if stream.Some? {
        stream := Some(stream.value + sent);
      }
    }

    /** Forwards what is left of the finalized MBs' events; only called while idle. */
    method PollFinalized() returns (out: Option<Out>)
      modifies this
      ensures (View(), out) == ForwardFinalized(old(View()))
    {
      ghost var start := View();
      while finalizedOutput == [] && finalizedInput != []
        invariant ForwardFinalized(View()) == ForwardFinalized(start)
        decreases |finalizedInput|
      {
        var mb := finalizedInput[0];
        if mb !in db.rows.computed {
          break;
        }
        var events := CollectFinalizedEvents(db, mb);
        finalizedInput := finalizedInput[1..];
        if events.Err? {
          return Some(FinalizedEventsFailed(mb, events.error));
        }
        finalizedOutput := events.value;
      }
      if finalizedOutput != [] {
        out := Some(finalizedOutput[0]);
        finalizedOutput := finalizedOutput[1..];
      } else {
        out := None;
      }
    }

    /** `poll_next`: the five steps in order. */
    method PollNext(work: seq<Choice>) returns (out: Option<Out>, sent: seq<Sent>)
      requires Wf(View())
      modifies this
      ensures Polled(View(), out, sent) == Poll(env, old(View()), work)
      ensures Wf(View())
    {
      sent := [];
      if computation.None? && stream.None? && pending.None? {
        out := PollFinalized();
        if out.Some? {
          return;
        }
        if input != [] {
          var request := input[0];
          input := input[1..];
          inFlight := Some(request.head);
          stream := Some([]);
          computation := Some(Computation(request.head, request.policy, Fresh));
        }
      }
      out, sent := PollBusy(work);
    }

    /** Steps (3) to (5) of `poll_next`. */
    method PollBusy(work: seq<Choice>) returns (out: Option<Out>, sent: seq<Sent>)
      requires Wf(View())
      modifies this
      ensures Polled(View(), out, sent) == Advance(env, old(View()), work)
      ensures Wf(View())
    {
      sent := [];
      if stream.Some? {
        if stream.value != [] {
          var (mb, promise) := stream.value[0];
          stream := Some(stream.value[1..]);
          return Some(Promised(mb, promise)), [];
        }
        if ChannelClosed(View()) {
          stream := None;
        }
      }
      if pending.Some? {
        out := pending;
        pending := None;
        return;
      }
      out := None;
      if computation.Some? {
        sent := Run(work);
        var task := computation.value.task;
        if task.Finished? {
          computation := None;
          inFlight := None;
          if stream.Some? {
            pending := Some(Answer(task.result));
          } else {
            out := Some(Answer(task.result));
          }
        }
      }
    }

    method Run(work: seq<Choice>) returns (sent: seq<Sent>)
      requires Wf(View())
      modifies this
      ensures (View(), sent) == WorkAll(env, old(View()), work)
      decreases |work|
    {
      sent := [];
      if work != [] {
        var first := Progress(work[0]);
        var more := Run(work[1..]);
        sent := first + more;
      }
    }
  }
}
