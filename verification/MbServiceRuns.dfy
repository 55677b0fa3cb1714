/**
 Safety of the MB execution sub-service over every run: any interleaving of
 requests, executor progress, processor failures, polls and new chain data.
 */
module MbServiceRuns {
  import opened Base
  import opened Chain
  import opened MbExecution
  import opened MbService
  import EventDelivery

  // ---------------------------------------------------------------------
  // Runs, with a record of what happened

  /** The request being served, the promises that the processor has produced for it and whether it has failed, the promises
      that were sent on, and how many of these were delivered. */
  datatype Open = Open(request: Request, produced: seq<Sent>, failed: bool, sends: seq<Sent>, delivered: nat)

  /** A finished part of the output: one whole request, or one item between requests. */
  datatype Segment =
    | Served(request: Request, produced: seq<Sent>, failed: bool, sends: seq<Sent>, answer: Out)
    | Notice(out: Out)

  /** `returned` are the MBs that the processor has executed, with its results. */
  datatype History = History(
    accepted: seq<Request>,
    segments: seq<Segment>,
    open: Option<Open>,
    outs: seq<Out>,
    returned: seq<(Hash, Finalized)>)

  datatype World = World(m: Machine, h: History)

  datatype Step =
    | Receive(mb: Hash, policy: PromisePolicy)
    | ReceiveFinalized(finalized: Hash)
    | NewChainData(chain: AcyclicDb)
    | ExecutorStep(choice: Choice)
    | PollStep(work: seq<Choice>)

  /** What the processor does, with the MB it is executing: promises it produces, results it returns, or a failure. */
  datatype Done = Done(produced: seq<Sent>, returned: seq<(Hash, Finalized)>, failed: bool)

  const NOTHING := Done([], [], false)

  function Then(first: Done, next: Done): Done {
    Done(first.produced + next.produced, first.returned + next.returned, first.failed || next.failed)
  }

  function DoneBy(env: Env, c: Computation, choice: Choice): Done
    requires InStage(c)
  {
    match c.task
    case Running(chain, Executing(exe)) =>
      (match choice
       case Send(promise) => Done([(chain[0].0, promise)], [], false)
       case Return => Done([], [(chain[0].0, env.process(exe))], false)
       case Fail => Done([], [], true))
    case _ => NOTHING
  }

  /** A computation driven by a list of choices: the database and the computation after it. */
  function TaskSteps(env: Env, db: Db, c: Computation, work: seq<Choice>): (r: (Db, Computation))
    requires InStage(c)
    ensures InStage(r.1)
    decreases |work|
  {
    if work == [] then (db, c)
    else
      var w := TaskStep(env, db, c, work[0]);
      TaskSteps(env, db.(rows := w.rows), w.computation, work[1..])
  }

  function DoneAll(env: Env, db: Db, c: Computation, work: seq<Choice>): Done
    requires InStage(c)
    decreases |work|
  {
    if work == [] then NOTHING
    else
      var w := TaskStep(env, db, c, work[0]);
      Then(DoneBy(env, c, work[0]), DoneAll(env, db.(rows := w.rows), w.computation, work[1..]))
  }

  /** The computation that a poll drives, if it comes to that: of a request that it takes while idle, or of the one being
      served once no promise and no answer is to be forwarded. */
  function Driven(m: Machine): Option<Computation> {
    if Takes(m) then Some(Computation(m.input[0].head, m.input[0].policy, Fresh))
    else if Idle(m) || (m.stream.Some? && m.stream.value != []) || m.pending.Some? then None
    else m.computation
  }

  function DoneIn(env: Env, db: Db, c: Option<Computation>, work: seq<Choice>): Done
    requires c.Some? ==> InStage(c.value)
  {
    if c.Some? then DoneAll(env, db, c.value, work) else NOTHING
  }

  /** Keeps account of what the processor did and of what was sent on. */
  function Recording(h: History, sent: seq<Sent>, done: Done): History {
    h.(returned := h.returned + done.returned,
       open := if h.open.None? then None else
         Some(h.open.value.(produced := h.open.value.produced + done.produced,
                            failed := h.open.value.failed || done.failed,
                            sends := h.open.value.sends + sent)))
  }

  lemma RecordingNothing(h: History)
    ensures Recording(h, [], NOTHING) == h
  {
    assert h.returned + [] == h.returned;
    if h.open.Some? {
      assert h.open.value.sends + [] == h.open.value.sends && h.open.value.produced + [] == h.open.value.produced;
    }
  }

  lemma RecordingTwice(h: History, sent: seq<Sent>, done: Done, more: seq<Sent>, next: Done)
    ensures Recording(Recording(h, sent, done), more, next) == Recording(h, sent + more, Then(done, next))
  {
    assert h.returned + done.returned + next.returned == h.returned + (done.returned + next.returned);
    if h.open.Some? {
      var open := h.open.value;
      assert open.sends + sent + more == open.sends + (sent + more);
      assert open.produced + done.produced + next.produced == open.produced + (done.produced + next.produced);
    }
  }

  /** Files one output item under the request it belongs to. */
  function Emitting(h: History, out: Option<Out>): History {
    if out.None? then h
    else
      var h' := h.(outs := h.outs + [out.value]);
      match out.value
      case Promised(_, _) =>
        if h.open.Some? then h'.(open := Some(h.open.value.(delivered := h.open.value.delivered + 1))) else h'
      case MbComputed(_) => Answering(h', out.value)
      case Failed(_) => Answering(h', out.value)
      case VersionChanged(_, _) => h'.(segments := h.segments + [Notice(out.value)])
      case FinalizedEventsFailed(_, _) => h'.(segments := h.segments + [Notice(out.value)])
  }

  function ServedNow(open: Open, answer: Out): Segment {
    Served(open.request, open.produced, open.failed, open.sends, answer)
  }

  function Answering(h: History, answer: Out): History {
    if h.open.Some? then
      h.(segments := h.segments + [ServedNow(h.open.value, answer)],
         open := None)
    else h
  }

  /** Whether this poll takes the next request from the queue. */
  predicate Takes(m: Machine) {
    Idle(m) && ForwardFinalized(m).1.None? && m.input != []
  }

  /** A request is accepted unless its MB is computed, being computed or queued. */
  predicate Accepts(m: Machine, mb: Hash) {
    mb !in m.db.rows.computed && m.inFlight != Some(mb) && mb !in Heads(m.input)
  }

  function Heads(input: seq<Request>): seq<Hash> {
    seq(|input|, i requires 0 <= i < |input| => input[i].head)
  }

  /** The history while the first request of the queue is being taken. */
  function Opening(h: History, input: seq<Request>): History
    requires input != []
  {
    h.(open := Some(Open(input[0], [], false, [], 0)))
  }

  function Next(env: Env, w: World, step: Step): World
    requires Wf(w.m)
  {
    match step
    case Receive(mb, policy) =>
      World(ReceiveMb(w.m, mb, policy),
            if Accepts(w.m, mb) then w.h.(accepted := w.h.accepted + [Request(mb, policy)]) else w.h)
    case ReceiveFinalized(mb) => World(ReceiveFinalizedMbEvents(w.m, mb), w.h)
    case NewChainData(chain) => World(w.m.(db := w.m.db.(chain := chain)), w.h)
    case ExecutorStep(choice) =>
      var (m, sent) := Work(env, w.m, choice);
      World(m, Recording(w.h, sent, DoneIn(env, w.m.db, w.m.computation, [choice])))
    case PollStep(work) =>
      var h := if Takes(w.m) then Opening(w.h, w.m.input) else w.h;
      var p := Poll(env, w.m, work);
      World(p.next, Emitting(Recording(h, p.sent, DoneIn(env, w.m.db, Driven(w.m), work)), p.out))
  }

  /** Chain data only ever grows. */
  ghost predicate Allowed(w: World, step: Step) {
    step.NewChainData? ==> w.m.db.chain.Grows(step.chain)
  }

  /** `worlds` is a run: it starts in an initial state and every next state is one allowed step further. */
  ghost predicate IsRun(env: Env, worlds: seq<World>, steps: seq<Step>) {
    && |worlds| == |steps| + 1
    && Initial(env, worlds[0])
    && forall i :: 0 <= i < |steps| ==> Follows(env, worlds[i], steps[i], worlds[i + 1])
  }

  ghost predicate Follows(env: Env, w: World, step: Step, w': World) {
    Wf(w.m) ==> Allowed(w, step) && w' == Next(env, w, step)
  }

  /** A fresh service over a database in which what is computed was computed correctly. */
  ghost predicate Initial(env: Env, w: World) {
    && w.m == Machine(w.m.db, [], [], [], None, None, None, None)
    && w.h == History([], [], None, [], [])
    && Consistent(env, w.m.db)
  }

  // ---------------------------------------------------------------------
  // What the database holds

  /** The rows of `mb` are the ones that plain execution from the zero MB yields. */
  ghost predicate StoredRight(env: Env, db: Db, mb: Hash) {
    var r := Replay(db.chain, env.seed, env.process, mb);
    && r.Ok?
    && Lookup(db.rows.outcome, mb) == Some(r.value.transitions)
    && Lookup(db.rows.committedIds, mb) == Some(r.value.committedIds)
    && Lookup(db.rows.states, mb) == Some(r.value.states)
    && Lookup(db.rows.schedule, mb) == Some(r.value.schedule)
  }

  /** Every MB flagged as computed has all its rows, they are right, and its parent is computed too. */
  ghost predicate Consistent(env: Env, db: Db) {
    && ZERO in db.rows.computed
    && Lookup(db.rows.states, ZERO) == Some(env.seed.states)
    && Lookup(db.rows.schedule, ZERO) == Some(env.seed.schedule)
    && forall mb :: mb in db.rows.computed && mb != ZERO ==>
      && mb in db.chain.compact && db.chain.compact[mb].parent in db.rows.computed
      && StoredRight(env, db, mb)
  }

  ghost predicate LinkedChain(db: Db, head: Hash, chain: seq<Link>) {
    && chain != [] && chain[|chain| - 1].0 == head
    && (forall i :: 0 <= i < |chain| ==>
          chain[i].0 != ZERO && Lookup(db.chain.compact, chain[i].0) == Some(chain[i].1))
    && (forall i :: 0 < i < |chain| ==> chain[i].1.parent == chain[i - 1].0)
    && chain[0].1.parent in db.rows.computed
  }

  /** The code that the pairs give to a program: that of its last pair. */
  function LastCode(pairs: seq<(nat, CodeId)>, program: nat): Option<CodeId> {
    if pairs == [] then None
    else if pairs[|pairs| - 1].0 == program then Some(pairs[|pairs| - 1].1)
    else LastCode(pairs[..|pairs| - 1], program)
  }

  lemma LastCodeNext(pairs: seq<(nat, CodeId)>, k: nat, program: nat)
    requires k < |pairs|
    ensures LastCode(pairs[..k + 1], program) ==
            if pairs[k].0 == program then Some(pairs[k].1) else LastCode(pairs[..k], program)
  {
    assert pairs[..k + 1][..k] == pairs[..k];
  }

  /** How many program codes are still to be written when `todo` is left: all but the last five writes. */
  function CodesLeft(todo: seq<Write>): nat {
    if |todo| > 5 then |todo| - 5 else 0
  }

  /** Every program among the pairs has the code of its last pair. */
  ghost predicate CodesStored(rows: Rows, pairs: seq<(nat, CodeId)>) {
    forall p :: LastCode(pairs, p).Some? ==> Lookup(rows.programCode, p) == LastCode(pairs, p)
  }

  /** `todo` is what is left of storing `mb`; the rows that come before it have been written. */
  ghost predicate StoringRight(env: Env, db: Db, mb: Hash, todo: seq<Write>) {
    var r := Replay(db.chain, env.seed, env.process, mb);
    && r.Ok?
    && todo != [] && IsSuffix(todo, Writes(mb, r.value))
    && CodesStored(db.rows, r.value.programCreations[..|r.value.programCreations| - CodesLeft(todo)])
    && (|todo| < 5 ==> Lookup(db.rows.outcome, mb) == Some(r.value.transitions))
    && (|todo| < 4 ==> Lookup(db.rows.committedIds, mb) == Some(r.value.committedIds))
    && (|todo| < 3 ==> Lookup(db.rows.states, mb) == Some(r.value.states))
    && (|todo| < 2 ==> Lookup(db.rows.schedule, mb) == Some(r.value.schedule))
  }

  predicate IsSuffix<T(==)>(s: seq<T>, all: seq<T>) {
    |s| <= |all| && s == all[|all| - |s|..]
  }

  /** The next write by how many are left. */
  lemma NextWrite(mb: Hash, fin: Finalized, todo: seq<Write>)
    requires todo != [] && IsSuffix(todo, Writes(mb, fin))
    ensures |todo| == 1 ==> todo[0] == SetComputed(mb)
    ensures |todo| == 2 ==> todo[0] == SetSchedule(mb, fin.schedule)
    ensures |todo| == 3 ==> todo[0] == SetStates(mb, fin.states)
    ensures |todo| == 4 ==> todo[0] == SetCommittedIds(mb, fin.committedIds)
    ensures |todo| == 5 ==> todo[0] == SetOutcome(mb, fin.transitions)
    ensures CodesLeft(todo) <= |fin.programCreations|
    ensures |todo| > 5 ==>
              var (program, code) := fin.programCreations[|fin.programCreations| - CodesLeft(todo)];
              todo[0] == SetProgramCode(program, code)
    ensures IsSuffix(todo[1..], Writes(mb, fin))
  {
    var creations := CreationWrites(fin.programCreations);
    var all := Writes(mb, fin);
    if |todo| > 5 {
      var k := |all| - |todo|;
      assert all[k] == creations[k];
      CreationWrite(fin.programCreations, k);
    }
  }

  lemma {:induction false} CreationWrite(creations: seq<(nat, CodeId)>, k: nat)
    requires k < |creations|
    ensures CreationWrites(creations)[k] == SetProgramCode(creations[k].0, creations[k].1)
  {
    if k > 0 {
      CreationWrite(creations[1..], k - 1);
    }
  }

  /** Writing the next program code. */
  lemma CodeStored(rows: Rows, creations: seq<(nat, CodeId)>, k: nat)
    requires k < |creations| && CodesStored(rows, creations[..k])
    ensures CodesStored(Apply(rows, SetProgramCode(creations[k].0, creations[k].1)), creations[..k + 1])
  {
    hide LastCode;
    var after := Apply(rows, SetProgramCode(creations[k].0, creations[k].1));
    forall p | LastCode(creations[..k + 1], p).Some?
      ensures Lookup(after.programCode, p) == LastCode(creations[..k + 1], p)
    {
      LastCodeNext(creations, k, p);
    }
  }

  ghost predicate TaskRight(env: Env, db: Db, c: Computation) {
    match c.task
    case Fresh => true
    case Finished(result) => result.Ok? ==> result.value == c.head && c.head in db.rows.computed
    case Running(chain, stage) =>
      && LinkedChain(db, c.head, chain)
      && match stage
         case Loading => true
         case Executing(exe) => Replay(db.chain, env.seed, env.process, chain[0].0) == Ok(env.process(exe))
         case Storing(todo) => StoringRight(env, db, chain[0].0, todo)
  }

  ghost predicate DataRight(env: Env, m: Machine) {
    Consistent(env, m.db) && (m.computation.Some? ==> TaskRight(env, m.db, m.computation.value))
  }

  lemma {:induction false} UncomputedChainLinks(env: Env, db: Db, head: Hash)
    requires Consistent(env, db) && UncomputedChain(db, head).Ok?
    ensures var chain := UncomputedChain(db, head).value;
      && (chain != [] ==> LinkedChain(db, head, chain))
      && (forall i :: 0 <= i < |chain| ==> chain[i].0 !in db.rows.computed)
    ensures UncomputedChain(db, head).value == [] ==> head in db.rows.computed
    decreases db.chain.MbRank(head)
  {
    if head != ZERO && head !in db.rows.computed {
      UncomputedChainLinks(env, db, db.chain.compact[head].parent);
    }
  }

  /** Loading an MB whose parent is computed gives the input of plain execution. */
  lemma LoadedRight(env: Env, db: Db, mb: Hash)
    requires Consistent(env, db) && mb != ZERO && mb in db.chain.compact
    requires db.chain.compact[mb].parent in db.rows.computed
    requires PrepareExecutable(db, mb, db.chain.compact[mb]).Ok?
    ensures Replay(db.chain, env.seed, env.process, mb) ==
            Ok(env.process(PrepareExecutable(db, mb, db.chain.compact[mb]).value))
  {
    var parent := db.chain.compact[mb].parent;
    assert parent != ZERO ==> StoredRight(env, db, parent);
  }

  /** Writing a right row, or the flag once all rows are right, keeps every computed MB right. */
  lemma StoreKeepsRight(env: Env, db: Db, mb: Hash, todo: seq<Write>, other: Hash)
    requires StoringRight(env, db, mb, todo)
    requires StoredRight(env, db, other) || (other == mb && |todo| == 1)
    ensures StoredRight(env, db.(rows := Apply(db.rows, todo[0])), other)
  {
    hide Replay;
    hide Writes;
    hide IsSuffix;
    NextWrite(mb, Replay(db.chain, env.seed, env.process, mb).value, todo);
  }

  lemma StoreProgresses(env: Env, db: Db, mb: Hash, todo: seq<Write>)
    requires StoringRight(env, db, mb, todo)
    ensures var db' := db.(rows := Apply(db.rows, todo[0]));
      if |todo| > 1 then StoringRight(env, db', mb, todo[1..]) && db'.rows.computed == db.rows.computed
      else db'.rows.computed == db.rows.computed + {mb}
  {
    hide Replay;
    hide Writes;
    hide IsSuffix;
    hide LastCode;
    var fin := Replay(db.chain, env.seed, env.process, mb).value;
    NextWrite(mb, fin, todo);
    if |todo| > 5 {
      CodeStored(db.rows, fin.programCreations, |fin.programCreations| - CodesLeft(todo));
    }
  }

  /** Storing one row keeps the database consistent, at every point of the sequence. */
  lemma StoreOne(env: Env, db: Db, mb: Hash, todo: seq<Write>)
    requires Consistent(env, db) && StoringRight(env, db, mb, todo)
    requires mb != ZERO && mb in db.chain.compact && db.chain.compact[mb].parent in db.rows.computed
    ensures Consistent(env, db.(rows := Apply(db.rows, todo[0])))
  {
    hide Replay;
    hide Writes;
    hide IsSuffix;
    StoreProgresses(env, db, mb, todo);
    NextWrite(mb, Replay(db.chain, env.seed, env.process, mb).value, todo);
    var db' := db.(rows := Apply(db.rows, todo[0]));
    forall other | other in db'.rows.computed && other != ZERO
      ensures other in db.chain.compact && db.chain.compact[other].parent in db'.rows.computed
      ensures StoredRight(env, db', other)
    {
      StoreKeepsRight(env, db, mb, todo, other);
    }
  }

  lemma StoreStepKeeps(env: Env, db: Db, c: Computation, choice: Choice)
    requires Consistent(env, db) && TaskRight(env, db, c) && c.task.Running? && c.task.stage.Storing?
    ensures c.task.chain != [] && c.task.stage.todo != []
    ensures var w := TaskStep(env, db, c, choice);
      && Consistent(env, db.(rows := w.rows))
      && TaskRight(env, db.(rows := w.rows), w.computation)
      && db.rows.computed <= w.rows.computed
  {
    var chain, todo := c.task.chain, c.task.stage.todo;
    StoreOne(env, db, chain[0].0, todo);
    StoreProgresses(env, db, chain[0].0, todo);
    var db' := db.(rows := Apply(db.rows, todo[0]));
    if |todo| > 1 {
      assert LinkedChain(db', c.head, chain);
    } else if |chain| > 1 {
      assert LinkedChain(db', c.head, chain[1..]);
    }
  }

  /** Every single step of the computation keeps the data right. */
  lemma TaskStepKeeps(env: Env, db: Db, c: Computation, choice: Choice)
    requires Consistent(env, db) && TaskRight(env, db, c)
    ensures InStage(c)
    ensures var w := TaskStep(env, db, c, choice);
      && Consistent(env, db.(rows := w.rows))
      && TaskRight(env, db.(rows := w.rows), w.computation)
      && w.computation.head == c.head && w.computation.policy == c.policy
      && db.rows.computed <= w.rows.computed
      && InStage(w.computation)
  {
    match c.task {
      case Fresh =>
        if c.head !in db.rows.computed && UncomputedChain(db, c.head).Ok? {
          UncomputedChainLinks(env, db, c.head);
        }
      case Running(chain, Loading) =>
        if PrepareExecutable(db, chain[0].0, chain[0].1).Ok? {
          LoadedRight(env, db, chain[0].0);
        }
      case Running(chain, Executing(exe)) =>
        if choice.Return? {
          assert Writes(chain[0].0, env.process(exe))[0..] == Writes(chain[0].0, env.process(exe));
        }
      case Running(chain, Storing(todo)) =>
        StoreStepKeeps(env, db, c, choice);
      case Finished(_) =>
    }
  }

  /** New chain data does not disturb anything that is stored or under way. */
  lemma GrowthKeeps(env: Env, m: Machine, chain: AcyclicDb)
    requires DataRight(env, m) && m.db.chain.Grows(chain)
    ensures DataRight(env, m.(db := m.db.(chain := chain)))
  {
    var db' := m.db.(chain := chain);
    forall mb | mb in m.db.rows.computed && mb != ZERO
      ensures mb in chain.compact && chain.compact[mb].parent in m.db.rows.computed && StoredRight(env, db', mb)
    {
      assert StoredRight(env, m.db, mb);
      ReplayStable(m.db.chain, chain, env.seed, env.process, mb);
    }
    if m.computation.Some? && m.computation.value.task.Running? {
      var links := m.computation.value.task.chain;
      if !m.computation.value.task.stage.Loading? {
        ReplayStable(m.db.chain, chain, env.seed, env.process, links[0].0);
      }
    }
  }

  // ---------------------------------------------------------------------
  // What the stream has yielded

  function Promises(sends: seq<Sent>): seq<Out> {
    seq(|sends|, i requires 0 <= i < |sends| => Promised(sends[i].0, sends[i].1))
  }

  function RenderOne(s: Segment): seq<Out> {
    match s
    case Served(_, _, _, sends, answer) => Promises(sends) + [answer]
    case Notice(out) => [out]
  }

  function Render(segments: seq<Segment>): seq<Out> {
    if segments == [] then []
    else Render(segments[..|segments| - 1]) + RenderOne(segments[|segments| - 1])
  }

  function ServedRequests(segments: seq<Segment>): seq<Request> {
    if segments == [] then []
    else
      var last := segments[|segments| - 1];
      ServedRequests(segments[..|segments| - 1]) + (if last.Served? then [last.request] else [])
  }

  function OpenOuts(open: Option<Open>): seq<Out>
    requires open.Some? ==> open.value.delivered <= |open.value.sends|
  {
    if open.Some? then Promises(open.value.sends[..open.value.delivered]) else []
  }

  function OpenRequest(open: Option<Open>): seq<Request> {
    if open.Some? then [open.value.request] else []
  }

  /** A request that was answered with success. */
  predicate Succeeded(s: Segment) {
    s.Served? && s.answer.MbComputed?
  }

  /** The answer to a request names its head and comes after the rows are stored. */
  predicate AnswerRight(computed: set<Hash>, head: Hash, answer: Out) {
    answer.Failed? || (answer == MbComputed(head) && head in computed)
  }

  predicate NoticeRight(computed: set<Hash>, out: Out) {
    out.FinalizedEventsFailed? || (out.VersionChanged? && out.finalized in computed)
  }

  predicate SegmentRight(env: Env, computed: set<Hash>, s: Segment) {
    match s
    case Served(request, produced, failed, sends, answer) =>
      && AnswerRight(computed, request.head, answer) && SendsRight(env, request, produced, sends)
      && (failed <==> answer == Failed(ProcessorFailed))
    case Notice(out) => NoticeRight(computed, out)
  }

  /** The promises of one MB, in order. */
  function OfMb(produced: seq<Sent>, mb: Hash): seq<Sent> {
    if produced == [] then []
    else
      var last := produced[|produced| - 1];
      OfMb(produced[..|produced| - 1], mb) + (if last.0 == mb then [last] else [])
  }

  /** Which of the promises that the processor produced for a request are sent on: all of them under `AlwaysEmit`, and
      otherwise those of the requested MB itself, if the request enables them. */
  function SentOn(mode: EmissionMode, request: Request, produced: seq<Sent>): seq<Sent> {
    match mode
    case AlwaysEmit => produced
    case ConsensusDriven => if request.policy.Enabled? then OfMb(produced, request.head) else []
  }

  lemma OfMbNext(produced: seq<Sent>, mb: Hash, more: seq<Sent>)
    requires |more| <= 1
    ensures OfMb(produced + more, mb) == OfMb(produced, mb) + OfMb(more, mb)
  {
    if more == [] {
      assert produced + more == produced && OfMb(produced, mb) + [] == OfMb(produced, mb);
    } else {
      assert (produced + more)[..|produced|] == produced;
      assert more[..0] == [] && OfMb([], mb) == [];
    }
  }

  predicate SendsRight(env: Env, request: Request, produced: seq<Sent>, sends: seq<Sent>) {
    sends == SentOn(env.mode, request, produced)
  }

  /** The output so far: request by request in queue order, all promises of a
      request in send order and then its answer; notices only in between. */
  ghost predicate OutputRight(env: Env, w: World) {
    var computed := w.m.db.rows.computed;
    && (w.h.open.Some? ==> w.h.open.value.delivered <= |w.h.open.value.sends|)
    && w.h.outs == Render(w.h.segments) + OpenOuts(w.h.open)
    && w.h.accepted == ServedRequests(w.h.segments) + OpenRequest(w.h.open) + w.m.input
    && (forall i :: 0 <= i < |w.h.segments| ==> SegmentRight(env, computed, w.h.segments[i]))
    && (forall i, j :: 0 <= i < j < |w.h.segments| && Succeeded(w.h.segments[i]) && Succeeded(w.h.segments[j]) ==>
          w.h.segments[i].request.head != w.h.segments[j].request.head)
  }

  /** The request being served, against the fields of the service. */
  ghost predicate FieldsRight(env: Env, w: World) {
    var m, open := w.m, w.h.open;
    && (open.None? <==> Idle(m))
    && (m.computation.None? ==> m.inFlight.None?)
    && (open.Some? ==>
          && open.value.delivered <= |open.value.sends|
          && SendsRight(env, open.value.request, open.value.produced, open.value.sends)
          && (m.stream.Some? ==> m.stream.value == open.value.sends[open.value.delivered..])
          && (m.stream.None? ==> open.value.delivered == |open.value.sends| && ChannelClosed(m))
          && (m.computation.Some? ==>
                && m.pending.None? && m.inFlight == Some(open.value.request.head)
                && m.computation.value.head == open.value.request.head
                && m.computation.value.policy == open.value.request.policy
                && (open.value.failed <==> m.computation.value.task == Finished(Err(ProcessorFailed))))
          && (m.computation.None? ==>
                && m.pending.Some? && m.stream.Some? && (open.value.failed <==> m.pending.value == Failed(ProcessorFailed))
                && AnswerRight(m.db.rows.computed, open.value.request.head, m.pending.value)))
    && (forall i :: 0 <= i < |m.finalizedOutput| ==> NoticeRight(m.db.rows.computed, m.finalizedOutput[i]))
  }

  /** Requests that may still be answered with success. */
  function Live(w: World): seq<Hash> {
    (if w.h.open.Some? && !(w.m.pending.Some? && w.m.pending.value.Failed?) then [w.h.open.value.request.head] else []) +
    Heads(w.m.input)
  }

  /** Such a request is there only once, and has not been answered with success before. */
  ghost predicate NoRepeats(w: World) {
    && Distinct(Live(w))
    && forall i :: 0 <= i < |w.h.segments| && Succeeded(w.h.segments[i]) ==> w.h.segments[i].request.head !in Live(w)
  }

  ghost predicate Safe(env: Env, w: World) {
    DataRight(env, w.m) && OutputRight(env, w) && FieldsRight(env, w) && NoRepeats(w)
  }

  // ---------------------------------------------------------------------
  // Every step keeps it

  /** The computed set only grows, and what was said about it stays true. */
  lemma ComputedGrows(env: Env, w: World, rows: Rows)
    requires w.m.db.rows.computed <= rows.computed
    ensures OutputRight(env, w) ==> OutputRight(env, w.(m := w.m.(db := w.m.db.(rows := rows))))
    ensures FieldsRight(env, w) ==> FieldsRight(env, w.(m := w.m.(db := w.m.db.(rows := rows))))
    ensures NoRepeats(w) ==> NoRepeats(w.(m := w.m.(db := w.m.db.(rows := rows))))
  {
    if OutputRight(env, w) {
      forall i | 0 <= i < |w.h.segments|
        ensures SegmentRight(env, rows.computed, w.h.segments[i])
      {
        assert SegmentRight(env, w.m.db.rows.computed, w.h.segments[i]);
      }
    }
  }

  /** One step sends on exactly what is due of what the processor produces in it. */
  lemma TaskStepSends(env: Env, db: Db, c: Computation, choice: Choice)
    requires InStage(c)
    ensures TaskStep(env, db, c, choice).sent == SentOn(env.mode, Request(c.head, c.policy), DoneBy(env, c, choice).produced)
    ensures |DoneBy(env, c, choice).produced| <= 1
    ensures c.task.Finished? ==> TaskStep(env, db, c, choice) == Worked(db.rows, c, [])
  {
    var produced := DoneBy(env, c, choice).produced;
    if produced != [] {
      assert produced[..0] == [] && OfMb([], c.head) == [];
    }
  }

  lemma {:induction false} AncestorsErrors(s: ChainDb, current: Eb, depth: nat, expected: Hash)
    requires depth > 0
    ensures Ancestors(s, current, depth, expected) != Err(ProcessorFailed)
    decreases depth
  {
    var parent := current.header.parent;
    if depth > 1 && parent in s.headers {
      AncestorsErrors(s, Eb(parent, s.headers[parent]), depth - 1, expected);
    }
  }

  lemma {:induction false} RequestsErrors(s: ChainDb, blocks: seq<Hash>)
    ensures BlockRequests(s, blocks) != Err(ProcessorFailed)
  {
    if blocks != [] {
      RequestsErrors(s, blocks[1..]);
    }
  }

  lemma OperationErrors(s: ChainDb, op: Operation, plan: Plan)
    ensures ApplyOperation(s, op, plan) != Err(ProcessorFailed)
  {
    hide BlockRequests, Ancestors;
    if op.AdvanceTillEthereumBlock? && op.block in s.headers {
      var target := Eb(op.block, s.headers[op.block]);
      var base := AdvanceBase(s, plan.anchor);
      if base.Ok? && target.header.height > base.value.1 {
        AncestorsErrors(s, target, target.header.height - base.value.1, base.value.0);
      }
      if AdvanceChain(s, target, plan.anchor).Ok? {
        RequestsErrors(s, AdvanceChain(s, target, plan.anchor).value);
      }
    }
  }

  lemma {:induction false} OperationsErrors(s: ChainDb, ops: seq<Operation>, plan: Plan)
    ensures ApplyOperations(s, ops, plan) != Err(ProcessorFailed)
    decreases |ops|
  {
    hide ApplyOperation;
    if ops != [] {
      OperationErrors(s, ops[0], plan);
      if ApplyOperation(s, ops[0], plan).Ok? {
        OperationsErrors(s, ops[1..], ApplyOperation(s, ops[0], plan).value);
      }
    }
  }

  /** Only the processor gives the processor's error. */
  lemma LoadErrors(db: Db, mb: Hash, compact: CompactMb)
    ensures PrepareExecutable(db, mb, compact) != Err(ProcessorFailed)
  {
    hide ApplyOperations;
    if compact.operationsHash in db.chain.operations {
      var anchor := InitialAnchor(db.chain, db.chain.Advanced(compact.parent));
      if anchor.Ok? {
        OperationsErrors(db.chain, db.chain.operations[compact.operationsHash], EmptyPlan(anchor.value));
      }
    }
  }

  lemma {:induction false} ChainErrors(db: Db, head: Hash)
    ensures UncomputedChain(db, head) != Err(ProcessorFailed)
    decreases db.chain.MbRank(head)
  {
    if head != ZERO && head !in db.rows.computed && head in db.chain.compact {
      ChainErrors(db, db.chain.compact[head].parent);
    }
  }

  /** A computation ends with the processor's error exactly when the processor fails. */
  lemma TaskStepFails(env: Env, db: Db, c: Computation, choice: Choice)
    requires InStage(c)
    ensures TaskStep(env, db, c, choice).computation.task == Finished(Err(ProcessorFailed)) <==>
            c.task == Finished(Err(ProcessorFailed)) || DoneBy(env, c, choice).failed
  {
    hide UncomputedChain, PrepareExecutable;
    ChainErrors(db, c.head);
    if c.task.Running? {
      LoadErrors(db, c.task.chain[0].0, c.task.chain[0].1);
    }
  }

  lemma SentOnNext(mode: EmissionMode, request: Request, produced: seq<Sent>, more: seq<Sent>)
    requires |more| <= 1
    ensures SentOn(mode, request, produced + more) == SentOn(mode, request, produced) + SentOn(mode, request, more)
  {
    OfMbNext(produced, request.head, more);
  }

  lemma DoneOnce(env: Env, db: Db, c: Computation, choice: Choice)
    requires InStage(c)
    ensures DoneAll(env, db, c, [choice]) == DoneBy(env, c, choice)
  {
    hide TaskStep;
    assert [choice][1..] == [];
    var done := DoneBy(env, c, choice);
    assert done.produced + [] == done.produced && done.returned + [] == done.returned;
  }

  lemma ExecutorStepKeeps(env: Env, w: World, choice: Choice)
    requires Safe(env, w) && Wf(w.m)
    ensures var r := Work(env, w.m, choice);
      Safe(env, World(r.0, Recording(w.h, r.1, DoneIn(env, w.m.db, w.m.computation, [choice])))) && Wf(r.0)
  {
    hide TaskStep, Consistent, TaskRight, Render, ServedRequests, DoneAll, DoneBy, SentOn;
    if w.m.computation.Some? {
      var c := w.m.computation.value;
      TaskStepKeeps(env, w.m.db, c, choice);
      TaskStepSends(env, w.m.db, c, choice);
      TaskStepFails(env, w.m.db, c, choice);
      DoneOnce(env, w.m.db, c, choice);
      var worked, done := TaskStep(env, w.m.db, c, choice), DoneBy(env, c, choice);
      var open := w.h.open.value;
      ComputedGrows(env, w, worked.rows);
      var w1 := w.(m := w.m.(db := w.m.db.(rows := worked.rows)));
      assert open.request == Request(c.head, c.policy);
      SentOnNext(env.mode, open.request, open.produced, done.produced);
      var sends' := open.sends + worked.sent;
      assert sends'[..open.delivered] == open.sends[..open.delivered];
      assert sends'[open.delivered..] == open.sends[open.delivered..] + worked.sent;
      if w.m.stream.None? {
        FinishedDoesNothing(env, w.m.db, c, choice);
        assert sends' == open.sends;
      }
    } else {
      RecordingNothing(w.h);
    }
  }

  lemma FinishedDoesNothing(env: Env, db: Db, c: Computation, choice: Choice)
    requires c.task.Finished?
    ensures TaskStep(env, db, c, choice).sent == [] && DoneBy(env, c, choice) == NOTHING
  {
  }

  lemma {:induction false} WorkAllKeeps(env: Env, w: World, work: seq<Choice>)
    requires Safe(env, w) && Wf(w.m)
    ensures var r := WorkAll(env, w.m, work);
      Safe(env, World(r.0, Recording(w.h, r.1, DoneIn(env, w.m.db, w.m.computation, work))))
    decreases |work|
  {
    hide Safe, TaskStep, Recording;
    RecordingNothing(w.h);
    if work != [] {
      var (m, sent) := Work(env, w.m, work[0]);
      ExecutorStepKeeps(env, w, work[0]);
      var done := DoneIn(env, w.m.db, w.m.computation, [work[0]]);
      var w1 := World(m, Recording(w.h, sent, done));
      WorkAllKeeps(env, w1, work[1..]);
      var next := DoneIn(env, m.db, m.computation, work[1..]);
      RecordingTwice(w.h, sent, done, WorkAll(env, m, work[1..]).1, next);
      if w.m.computation.Some? {
        DoneOnce(env, w.m.db, w.m.computation.value, work[0]);
        assert DoneIn(env, w.m.db, w.m.computation, work) == Then(done, next);
      } else {
        assert Then(done, next) == NOTHING;
      }
    }
  }

  lemma ReceiveKeeps(env: Env, w: World, mb: Hash, policy: PromisePolicy)
    requires Safe(env, w) && Wf(w.m)
    ensures Safe(env, Next(env, w, Receive(mb, policy)))
  {
    hide Consistent;
    hide TaskRight;
    hide Render;
    hide ServedRequests;
    var w' := Next(env, w, Receive(mb, policy));
    QueuedHeads(w.m, mb);
    if Accepts(w.m, mb) {
      assert Heads(w'.m.input) == Heads(w.m.input) + [mb];
      assert Live(w') == Live(w) + [mb];
      assert w'.h.accepted == ServedRequests(w.h.segments) + OpenRequest(w.h.open) + w'.m.input;
      forall i | 0 <= i < |w.h.segments| && Succeeded(w.h.segments[i])
        ensures w.h.segments[i].request.head != mb
      {
        assert SegmentRight(env, w.m.db.rows.computed, w.h.segments[i]);
      }
    }
  }

  lemma QueuedHeads(m: Machine, mb: Hash)
    ensures Queued(m, mb) <==> mb in Heads(m.input)
  {
    if i :| 0 <= i < |m.input| && m.input[i].head == mb {
      assert Heads(m.input)[i] == mb;
    }
  }

  lemma {:induction false} ForwardKeeps(env: Env, w: World)
    requires Safe(env, w) && Wf(w.m) && Idle(w.m)
    ensures var r := ForwardFinalized(w.m); Safe(env, World(r.0, Emitting(w.h, r.1)))
    decreases |w.m.finalizedInput|
  {
    hide Consistent;
    hide Render;
    hide ServedRequests;
    var m := w.m;
    if m.finalizedOutput != [] {
      NoticeKeeps(env, w.(m := m.(finalizedOutput := m.finalizedOutput[1..])), m.finalizedOutput[0]);
    } else if m.finalizedInput != [] && m.finalizedInput[0] in m.db.rows.computed {
      var mb, rest := m.finalizedInput[0], m.finalizedInput[1..];
      match FinalizedEvents(m.db, mb) {
        case Err(e) =>
          NoticeKeeps(env, w.(m := m.(finalizedInput := rest)), FinalizedEventsFailed(mb, e));
        case Ok(events) =>
          ForwardKeeps(env, w.(m := m.(finalizedInput := rest, finalizedOutput := events)));
      }
    }
  }

  lemma NoticeKeeps(env: Env, w: World, out: Out)
    requires Safe(env, w) && Idle(w.m) && NoticeRight(w.m.db.rows.computed, out)
    ensures Safe(env, w.(h := Emitting(w.h, Some(out))))
  {
    var segments := w.h.segments + [Notice(out)];
    assert segments[..|segments| - 1] == w.h.segments;
  }

  lemma StartKeeps(env: Env, w: World)
    requires Safe(env, w) && Idle(w.m) && w.m.input != []
    ensures Safe(env, World(StartNext(w.m), Opening(w.h, w.m.input)))
  {
    hide Render;
    hide ServedRequests;
    var w' := World(StartNext(w.m), Opening(w.h, w.m.input));
    assert Heads(w.m.input) == [w.m.input[0].head] + Heads(w.m.input[1..]);
    assert Live(w') == Live(w);
    assert w'.h.accepted == ServedRequests(w.h.segments) + OpenRequest(w'.h.open) + w'.m.input;
    assert OpenOuts(w'.h.open) == [] && SentOn(env.mode, w.m.input[0], []) == [];
  }

  /** The service after an answer has left it. */
  function Answered(w: World, answer: Out): World {
    World(w.m.(computation := None, inFlight := None, stream := None, pending := None), Emitting(w.h, Some(answer)))
  }

  /** The request being served may be answered now. */
  ghost predicate MayAnswer(env: Env, w: World, answer: Out) {
    && Safe(env, w) && w.h.open.Some?
    && AnswerRight(w.m.db.rows.computed, w.h.open.value.request.head, answer)
    && w.h.open.value.delivered == |w.h.open.value.sends|
    && (answer.MbComputed? ==> !(w.m.pending.Some? && w.m.pending.value.Failed?))
    && (w.h.open.value.failed <==> answer == Failed(ProcessorFailed))
  }

  lemma AnswerOutput(env: Env, w: World, answer: Out)
    requires MayAnswer(env, w, answer)
    ensures var w' := Answered(w, answer);
      w'.h.outs == Render(w'.h.segments) &&
      w'.h.accepted == ServedRequests(w'.h.segments) + w'.m.input
  {
    var open := w.h.open.value;
    var w' := Answered(w, answer);
    assert w'.h.segments[..|w'.h.segments| - 1] == w.h.segments;
    assert open.sends[..open.delivered] == open.sends;
    assert w'.h.outs == Render(w.h.segments) + (Promises(open.sends) + [answer]);
  }

  lemma AnswerOnce(env: Env, w: World, answer: Out)
    requires MayAnswer(env, w, answer)
    ensures var w' := Answered(w, answer);
      NoRepeats(w') &&
      forall i :: 0 <= i < |w.h.segments| && Succeeded(w.h.segments[i]) && answer.MbComputed? ==>
        w.h.segments[i].request.head != w.h.open.value.request.head
  {
    var head, heads := w.h.open.value.request.head, Heads(w.m.input);
    assert Live(Answered(w, answer)) == heads;
    assert Live(w) == [head] + heads || (answer.Failed? && Live(w) == heads);
    if Live(w) == [head] + heads {
      DistinctTail(head, heads);
    }
  }

  lemma DistinctTail<T>(x: T, s: seq<T>)
    requires Distinct([x] + s)
    ensures Distinct(s) && x !in s
  {
    assert ([x] + s)[0] == x;
    assert forall i :: 0 <= i < |s| ==> s[i] == ([x] + s)[i + 1];
  }

  /** Answering a fully delivered request closes its segment. */
  lemma AnswerKeeps(env: Env, w: World, answer: Out)
    requires MayAnswer(env, w, answer)
    ensures Safe(env, Answered(w, answer))
  {
    AnswerOutput(env, w, answer);
    AnswerOnce(env, w, answer);
    var w' := Answered(w, answer);
    var open := w.h.open.value;
    assert w'.h.segments == w.h.segments + [ServedNow(open, answer)];
    assert w'.h.outs + [] == w'.h.outs;
    assert w'.h.accepted == ServedRequests(w'.h.segments) + OpenRequest(w'.h.open) + w'.m.input;
  }

  /** Forwarding the oldest buffered promise. */
  lemma PromiseKeeps(env: Env, w: World)
    requires Safe(env, w) && w.m.stream.Some? && w.m.stream.value != []
    ensures var (mb, promise) := w.m.stream.value[0];
      Safe(env, World(w.m.(stream := Some(w.m.stream.value[1..])), Emitting(w.h, Some(Promised(mb, promise)))))
  {
    var open := w.h.open.value;
    var (mb, promise) := w.m.stream.value[0];
    assert open.sends[open.delivered] == (mb, promise);
    assert open.sends[..open.delivered + 1] == open.sends[..open.delivered] + [(mb, promise)];
    assert Promises(open.sends[..open.delivered + 1]) ==
           Promises(open.sends[..open.delivered]) + [Promised(mb, promise)];
    assert open.sends[open.delivered..][1..] == open.sends[open.delivered + 1..];
    var w' := World(w.m.(stream := Some(w.m.stream.value[1..])), Emitting(w.h, Some(Promised(mb, promise))));
    assert Live(w') == Live(w);
    assert w'.h.outs == Render(w.h.segments) + OpenOuts(w'.h.open);
  }

  /** Holding an answer back while promises are still buffered. */
  lemma HoldKeeps(env: Env, w: World, answer: Out)
    requires Safe(env, w) && w.m.computation.Some? && w.m.stream.Some?
    requires AnswerRight(w.m.db.rows.computed, w.h.open.value.request.head, answer)
    requires w.h.open.value.failed <==> answer == Failed(ProcessorFailed)
    ensures Safe(env, w.(m := w.m.(computation := None, inFlight := None, pending := Some(answer))))
  {
    var w' := w.(m := w.m.(computation := None, inFlight := None, pending := Some(answer)));
    assert Live(w) == [w.h.open.value.request.head] + Heads(w.m.input);
    DistinctTail(w.h.open.value.request.head, Heads(w.m.input));
    assert Live(w') == (if answer.Failed? then Heads(w.m.input) else Live(w));
  }

  lemma DriveKeeps(env: Env, w: World, work: seq<Choice>)
    requires Safe(env, w) && Wf(w.m) && w.m.pending.None?
    requires w.m.stream.Some? ==> !ChannelClosed(w.m)
    ensures var p := Drive(env, w.m, work);
      Safe(env, World(p.next, Emitting(Recording(w.h, p.sent, DoneIn(env, w.m.db, w.m.computation, work)), p.out))) && Wf(p.next)
  {
    hide DoneAll;
    if w.m.computation.None? {
      RecordingNothing(w.h);
      return;
    }
    WorkAllKeeps(env, w, work);
    var (m, sent) := WorkAll(env, w.m, work);
    var w1 := World(m, Recording(w.h, sent, DoneIn(env, w.m.db, w.m.computation, work)));
    var task := m.computation.value.task;
    if task.Finished? {
      var answer := Answer(task.result);
      if m.stream.Some? {
        HoldKeeps(env, w1, answer);
      } else {
        AnswerKeeps(env, w1, answer);
        assert Answered(w1, answer).m == m.(computation := None, inFlight := None);
      }
    }
  }

  /** The computation that a poll drives once it has taken a request or has one. */
  function DrivenNow(m: Machine): Option<Computation> {
    if (m.stream.Some? && m.stream.value != []) || m.pending.Some? then None else m.computation
  }

  lemma AdvanceKeeps(env: Env, w: World, work: seq<Choice>)
    requires Safe(env, w) && Wf(w.m)
    ensures var p := Advance(env, w.m, work);
      Safe(env, World(p.next, Emitting(Recording(w.h, p.sent, DoneIn(env, w.m.db, DrivenNow(w.m), work)), p.out))) && Wf(p.next)
  {
    hide DoneAll, Drive;
    RecordingNothing(w.h);
    if w.m.stream.Some? && w.m.stream.value != [] {
      PromiseKeeps(env, w);
    } else if w.m.pending.Some? {
      AnswerKeeps(env, w, w.m.pending.value);
      assert Answered(w, w.m.pending.value).m == w.m.(stream := None, pending := None);
    } else if w.m.stream.Some? && ChannelClosed(w.m) {
      var w1 := w.(m := w.m.(stream := None));
      assert Live(w1) == Live(w);
      DriveKeeps(env, w1, work);
    } else {
      DriveKeeps(env, w, work);
    }
  }

  lemma PollKeeps(env: Env, w: World, work: seq<Choice>)
    requires Safe(env, w) && Wf(w.m)
    ensures Safe(env, Next(env, w, PollStep(work))) && Wf(Next(env, w, PollStep(work)).m)
  {
    hide Safe;
    hide Advance;
    hide ForwardFinalized;
    hide DoneAll;
    RecordingNothing(w.h);
    if Idle(w.m) {
      ForwardKeeps(env, w);
      var (m, out) := ForwardFinalized(w.m);
      if out.None? && m.input != [] {
        StartKeeps(env, World(m, w.h));
        AdvanceKeeps(env, World(StartNext(m), Opening(w.h, m.input)), work);
      } else if out.None? {
        AdvanceKeeps(env, World(m, w.h), work);
      }
    } else {
      AdvanceKeeps(env, w, work);
    }
  }

  lemma NextKeeps(env: Env, w: World, step: Step)
    requires Safe(env, w) && Wf(w.m) && Allowed(w, step)
    ensures Safe(env, Next(env, w, step)) && Wf(Next(env, w, step).m)
  {
    hide Consistent;
    hide TaskRight;
    hide Poll;
    hide Work;
    match step {
      case Receive(mb, policy) => ReceiveKeeps(env, w, mb, policy);
      case ReceiveFinalized(mb) => assert Live(Next(env, w, step)) == Live(w);
      case NewChainData(chain) => GrowthKeeps(env, w.m, chain); assert Live(Next(env, w, step)) == Live(w);
      case ExecutorStep(choice) => ExecutorStepKeeps(env, w, choice);
      case PollStep(work) => PollKeeps(env, w, work);
    }
  }

  /** Main result: every state of every run is safe. */
  lemma {:induction false} EveryRunIsSafe(env: Env, worlds: seq<World>, steps: seq<Step>, n: nat)
    requires IsRun(env, worlds, steps) && n < |worlds|
    ensures Safe(env, worlds[n]) && Wf(worlds[n].m)
  {
    if n == 0 {
      var w := worlds[0];
      assert Heads(w.m.input) == [] && Live(w) == [];
    } else {
      EveryRunIsSafe(env, worlds, steps, n - 1);
      var i := n - 1;
      assert Follows(env, worlds[i], steps[i], worlds[i + 1]);
      NextKeeps(env, worlds[n - 1], steps[n - 1]);
    }
  }

  // ---------------------------------------------------------------------
  // What a caller can rely on

  /** After every single database write, inside a poll or not, the database is consistent. */
  lemma EveryWriteIsSafe(env: Env, worlds: seq<World>, steps: seq<Step>, n: nat, work: seq<Choice>)
    requires IsRun(env, worlds, steps) && n < |worlds|
    ensures Wf(worlds[n].m) && Consistent(env, WorkAll(env, worlds[n].m, work).0.db)
    ensures Idle(worlds[n].m) ==>
              Wf(StartNext(worlds[n].m)) && Consistent(env, WorkAll(env, StartNext(worlds[n].m), work).0.db)
  {
    EveryRunIsSafe(env, worlds, steps, n);
    WorkAllKeeps(env, worlds[n], work);
    var m := worlds[n].m;
    if Idle(m) && m.input != [] {
      StartKeeps(env, worlds[n]);
      WorkAllKeeps(env, World(StartNext(m), Opening(worlds[n].h, m.input)), work);
    }
  }

  lemma PromisesAreNoAnswers(sends: seq<Sent>, mb: Hash)
    ensures multiset(Promises(sends))[MbComputed(mb)] == 0
  {
    assert forall out :: out in Promises(sends) ==> out.Promised?;
    assert MbComputed(mb) !in multiset(Promises(sends));
  }

  /** How often a hash was answered with success. */
  function Successes(segments: seq<Segment>, mb: Hash): nat {
    if segments == [] then 0
    else
      var last := segments[|segments| - 1];
      Successes(segments[..|segments| - 1], mb) + if Succeeded(last) && last.request.head == mb then 1 else 0
  }

  lemma {:induction false} SuccessesInOutput(env: Env, computed: set<Hash>, segments: seq<Segment>, mb: Hash)
    requires forall i :: 0 <= i < |segments| ==> SegmentRight(env, computed, segments[i])
    ensures multiset(Render(segments))[MbComputed(mb)] == Successes(segments, mb)
  {
    if segments != [] {
      var last := segments[|segments| - 1];
      SuccessesInOutput(env, computed, segments[..|segments| - 1], mb);
      assert SegmentRight(env, computed, last);
      if last.Served? {
        PromisesAreNoAnswers(last.sends, mb);
      }
    }
  }

  lemma {:induction false} SuccessesOnce(segments: seq<Segment>, mb: Hash)
    requires forall i, j :: 0 <= i < j < |segments| && Succeeded(segments[i]) && Succeeded(segments[j]) ==>
               segments[i].request.head != segments[j].request.head
    ensures Successes(segments, mb) <= 1
    ensures Successes(segments, mb) == 1 ==>
              exists i :: 0 <= i < |segments| && Succeeded(segments[i]) && segments[i].request.head == mb
  {
    if segments != [] {
      var front, n := segments[..|segments| - 1], |segments| - 1;
      SuccessesOnce(front, mb);
      if Successes(front, mb) == 1 {
        var i :| 0 <= i < |front| && Succeeded(front[i]) && front[i].request.head == mb;
        assert front[i] == segments[i];
      } else if Successes(segments, mb) == 1 {
        assert Succeeded(segments[n]) && segments[n].request.head == mb;
      }
    }
  }

  /** No MB hash is ever reported as computed twice. */
  lemma NeverComputedTwice(env: Env, worlds: seq<World>, steps: seq<Step>, n: nat, mb: Hash)
    requires IsRun(env, worlds, steps) && n < |worlds|
    ensures multiset(worlds[n].h.outs)[MbComputed(mb)] <= 1
    ensures MbComputed(mb) in worlds[n].h.outs ==> mb in worlds[n].m.db.rows.computed
  {
    EveryRunIsSafe(env, worlds, steps, n);
    var w := worlds[n];
    SuccessesInOutput(env, w.m.db.rows.computed, w.h.segments, mb);
    SuccessesOnce(w.h.segments, mb);
    if w.h.open.Some? {
      PromisesAreNoAnswers(w.h.open.value.sends[..w.h.open.value.delivered], mb);
    }
    assert multiset(w.h.outs) == multiset(Render(w.h.segments)) + multiset(OpenOuts(w.h.open));
    if MbComputed(mb) in w.h.outs {
      assert MbComputed(mb) in multiset(w.h.outs);
      var i :| 0 <= i < |w.h.segments| && Succeeded(w.h.segments[i]) && w.h.segments[i].request.head == mb;
      assert SegmentRight(env, w.m.db.rows.computed, w.h.segments[i]);
    }
  }

  // ---------------------------------------------------------------------
  // What a poll does to the computation

  lemma StaysInStage(env: Env, db: Db, c: Computation, choice: Choice)
    requires InStage(c)
    ensures InStage(TaskStep(env, db, c, choice).computation)
  {
    hide UncomputedChain, PrepareExecutable;
  }

  lemma {:induction false} WorkAllSteps(env: Env, m: Machine, work: seq<Choice>)
    requires Wf(m) && m.computation.Some?
    ensures var (db, c) := TaskSteps(env, m.db, m.computation.value, work);
      var after := WorkAll(env, m, work).0;
      after.db == db && after.computation == Some(c)
    decreases |work|
  {
    hide TaskStep;
    if work != [] {
      StaysInStage(env, m.db, m.computation.value, work[0]);
      WorkAllSteps(env, Work(env, m, work[0]).0, work[1..]);
    }
  }

  /** The answer that a finished computation gives, if it is finished. */
  function AnswerOf(c: Computation): Option<Out> {
    if c.task.Finished? then Some(Answer(c.task.result)) else None
  }

  lemma AdvanceSteps(env: Env, m: Machine, work: seq<Choice>)
    requires Wf(m)
    ensures var p := Advance(env, m, work);
      var c := DrivenNow(m);
      if c.None? then
        && p.next.db == m.db && p.next.computation == m.computation
        && (p.out.Some? && !p.out.value.Promised? ==> p.out == m.pending)
        && (p.next.pending == m.pending || p.next.pending == None)
      else
        var (db, after) := TaskSteps(env, m.db, c.value, work);
        && p.next.db == db && p.next.computation == (if after.task.Finished? then None else Some(after))
        && (p.out.None? || p.out == AnswerOf(after)) && (p.next.pending.None? || p.next.pending == AnswerOf(after))
  {
    hide WorkAll, TaskSteps;
    if m.computation.Some? {
      WorkAllSteps(env, m, work);
      WorkAllSteps(env, m.(stream := None), work);
    }
  }

  /** A poll changes the database and the computation only by driving, and what it answers or holds back is the answer of
      the computation it drives, or the one held back before. */
  lemma PollSteps(env: Env, m: Machine, work: seq<Choice>)
    requires Wf(m)
    ensures var p := Poll(env, m, work);
      var c := Driven(m);
      if c.None? then
        && p.next.db == m.db && p.next.computation == m.computation
        && (p.out.Some? && (p.out.value.MbComputed? || p.out.value.Failed?) ==> p.out == m.pending || Idle(m))
        && (p.next.pending == m.pending || p.next.pending == None)
      else
        var (db, after) := TaskSteps(env, m.db, c.value, work);
        && p.next.db == db && p.next.computation == (if after.task.Finished? then None else Some(after))
        && (p.out.None? || p.out == AnswerOf(after)) && (p.next.pending.None? || p.next.pending == AnswerOf(after))
  {
    hide Advance, ForwardFinalized, TaskSteps;
    if Idle(m) {
      AdvanceSteps(env, StartNext(ForwardFinalized(m).0), work);
    } else {
      AdvanceSteps(env, m, work);
    }
  }
}
