/**
 When a request is answered with a failure, and that a request whose MB can be
 executed can always be answered with success.
 */
module MbAnswers {
  import opened Base
  import opened Chain
  import opened MbExecution
  import opened MbService
  import opened MbServiceRuns
  import MbNotices
  import MbPrograms

  // ---------------------------------------------------------------------
  // Why a computation fails

  /** Without a compact row on the way down, plain execution fails with the same error. */
  lemma {:induction false} UncomputedFails(env: Env, db: Db, head: Hash)
    requires Consistent(env, db) && UncomputedChain(db, head).Err?
    ensures Replay(db.chain, env.seed, env.process, head) == Err(UncomputedChain(db, head).error)
    decreases db.chain.MbRank(head)
  {
    if head in db.chain.compact {
      UncomputedFails(env, db, db.chain.compact[head].parent);
    }
  }

  /** Loading an MB whose parent is computed fails exactly as plain execution does. */
  lemma LoadFails(env: Env, db: Db, mb: Hash)
    requires Consistent(env, db) && mb != ZERO && mb in db.chain.compact
    requires db.chain.compact[mb].parent in db.rows.computed
    requires PrepareExecutable(db, mb, db.chain.compact[mb]).Err?
    ensures Replay(db.chain, env.seed, env.process, mb) == Err(PrepareExecutable(db, mb, db.chain.compact[mb]).error)
  {
    var parent := db.chain.compact[mb].parent;
    assert parent != ZERO ==> StoredRight(env, db, parent);
  }

  lemma {:induction false} ChainFails(env: Env, db: Db, head: Hash, chain: seq<Link>, k: nat, e: ComputeError)
    requires LinkedChain(db, head, chain) && k < |chain| && Replay(db.chain, env.seed, env.process, chain[0].0) == Err(e)
    ensures Replay(db.chain, env.seed, env.process, chain[k].0) == Err(e)
  {
    if k > 0 {
      ChainFails(env, db, head, chain, k - 1, e);
      assert Lookup(db.chain.compact, chain[k].0) == Some(chain[k].1);
    }
  }

  /** The step ends a computation with this error: the processor fails, or plain execution of the head does. */
  ghost predicate Reason(env: Env, chain: AcyclicDb, head: Hash, failing: bool, e: ComputeError) {
    (failing && e == ProcessorFailed) || Replay(chain, env.seed, env.process, head) == Err(e)
  }

  lemma StepFails(env: Env, db: Db, c: Computation, choice: Choice)
    requires Consistent(env, db) && TaskRight(env, db, c) && InStage(c) && !c.task.Finished?
    ensures var after := TaskStep(env, db, c, choice).computation;
      after.task.Finished? && after.task.result.Err? ==>
        Reason(env, db.chain, c.head, choice.Fail?, after.task.result.error)
  {
    hide Consistent, Replay;
    match c.task {
      case Fresh =>
        if UncomputedChain(db, c.head).Err? {
          UncomputedFails(env, db, c.head);
        }
      case Running(chain, Loading) =>
        var exe := PrepareExecutable(db, chain[0].0, chain[0].1);
        if exe.Err? {
          LoadFails(env, db, chain[0].0);
          ChainFails(env, db, c.head, chain, |chain| - 1, exe.error);
        }
      case _ =>
    }
  }

  /** The computation has not failed, or for a reason. */
  ghost predicate FailsRight(env: Env, chain: AcyclicDb, failing: bool, c: Computation) {
    c.task.Finished? && c.task.result.Err? ==> Reason(env, chain, c.head, failing, c.task.result.error)
  }

  lemma {:induction false} StepsFail(env: Env, db: Db, c: Computation, work: seq<Choice>)
    requires Consistent(env, db) && TaskRight(env, db, c) && InStage(c) && !c.task.Finished?
    ensures var (db', after) := TaskSteps(env, db, c, work);
      db'.chain == db.chain && after.head == c.head && FailsRight(env, db.chain, Fail in work, after)
    decreases |work|
  {
    hide Consistent, TaskRight, TaskStep, Reason;
    if work != [] {
      TaskStepKeeps(env, db, c, work[0]);
      StepFails(env, db, c, work[0]);
      MoreWork(env, db.chain, c.head, work);
      var w := TaskStep(env, db, c, work[0]);
      if w.computation.task.Finished? {
        FinishedStays(env, db.(rows := w.rows), w.computation, work[1..]);
      } else {
        StepsFail(env, db.(rows := w.rows), w.computation, work[1..]);
      }
    }
  }

  lemma MoreWork(env: Env, chain: AcyclicDb, head: Hash, work: seq<Choice>)
    requires work != []
    ensures forall e :: Reason(env, chain, head, work[0].Fail?, e) || Reason(env, chain, head, Fail in work[1..], e) ==>
      Reason(env, chain, head, Fail in work, e)
  {
    hide Replay;
    assert work == [work[0]] + work[1..];
  }

  lemma {:induction false} FinishedStays(env: Env, db: Db, c: Computation, work: seq<Choice>)
    requires c.task.Finished?
    ensures InStage(c) && TaskSteps(env, db, c, work) == (db, c)
    decreases |work|
  {
    if work != [] {
      FinishedStays(env, db, c, work[1..]);
    }
  }

  // ---------------------------------------------------------------------
  // Why a request is answered with a failure

  /** A step in which the processor fails. */
  predicate Failing(step: Step) {
    (step.ExecutorStep? && step.choice.Fail?) || (step.PollStep? && Fail in step.work)
  }

  /** Before state `n` the processor failed, or plain execution of the MB had failed with this error. */
  ghost predicate Explained(env: Env, worlds: seq<World>, steps: seq<Step>, n: nat, head: Hash, e: ComputeError)
    requires n <= |steps| < |worlds|
  {
    exists k :: 0 <= k < n && Reason(env, worlds[k].m.db.chain, head, Failing(steps[k]), e)
  }

  /** Every failure that a computation has ended in, that is held back or that was answered is explained. */
  ghost predicate FailuresExplained(env: Env, worlds: seq<World>, steps: seq<Step>, n: nat)
    requires n <= |steps| < |worlds|
  {
    var w := worlds[n];
    && (w.m.computation.Some? && w.m.computation.value.task.Finished? && w.m.computation.value.task.result.Err? ==>
          Explained(env, worlds, steps, n, w.m.computation.value.head, w.m.computation.value.task.result.error))
    && (w.m.pending.Some? && w.m.pending.value.Failed? ==>
          w.h.open.Some? && Explained(env, worlds, steps, n, w.h.open.value.request.head, w.m.pending.value.error))
    && (forall i :: 0 <= i < |w.h.segments| && w.h.segments[i].Served? && w.h.segments[i].answer.Failed? ==>
          Explained(env, worlds, steps, n, w.h.segments[i].request.head, w.h.segments[i].answer.error))
  }

  lemma ExplainedStays(env: Env, worlds: seq<World>, steps: seq<Step>, n: nat, head: Hash, e: ComputeError)
    requires n < |steps| < |worlds|
    ensures Explained(env, worlds, steps, n, head, e) ==> Explained(env, worlds, steps, n + 1, head, e)
    ensures Reason(env, worlds[n].m.db.chain, head, Failing(steps[n]), e) ==> Explained(env, worlds, steps, n + 1, head, e)
  {
    hide Reason;
  }

  /** What a step does to a failure that a computation ends in. */
  lemma ComputationFails(env: Env, w: World, step: Step)
    requires Safe(env, w) && Wf(w.m) && Allowed(w, step)
    ensures var c := Next(env, w, step).m.computation;
      c.Some? && c.value.task.Finished? && c.value.task.result.Err? ==>
        || (w.m.computation == c)
        || Reason(env, w.m.db.chain, c.value.head, Failing(step), c.value.task.result.error)
  {
    hide Safe, Poll, TaskSteps, TaskStep, Driven, Reason, Consistent, TaskRight;
    match step {
      case ExecutorStep(choice) =>
        if w.m.computation.Some? {
          var c := w.m.computation.value;
          MbPrograms.RunningRight(env, w);
          TaskStepKeeps(env, w.m.db, c, choice);
          if c.task.Finished? {
            TaskStepSends(env, w.m.db, c, choice);
          } else {
            StepFails(env, w.m.db, c, choice);
          }
        }
      case PollStep(work) => PollSteps(env, w.m, work);
      case _ =>
    }
  }

  /** The answer of the computation that a poll drives has a reason, or the computation had failed before. */
  lemma DrivenFails(env: Env, w: World, work: seq<Choice>)
    requires Safe(env, w) && Wf(w.m) && Driven(w.m).Some?
    ensures var c := Driven(w.m).value;
      InStage(c) &&
      var answer := AnswerOf(TaskSteps(env, w.m.db, c, work).1);
      answer.Some? && answer.value.Failed? ==>
        || (w.m.computation == Some(c) && c.task == Finished(Err(answer.value.error)))
        || Reason(env, w.m.db.chain, c.head, Failing(PollStep(work)), answer.value.error)
  {
    hide Safe, TaskSteps, Reason, Consistent, TaskRight;
    MbPrograms.DrivenRight(env, w);
    var c := Driven(w.m).value;
    if c.task.Finished? {
      FinishedStays(env, w.m.db, c, work);
    } else {
      StepsFail(env, w.m.db, c, work);
    }
  }

  /** The request that a poll works on: the open one, or the one it takes. */
  function Current(w: World): Option<Request> {
    if Takes(w.m) then Some(w.m.input[0]) else if w.h.open.Some? then Some(w.h.open.value.request) else None
  }

  lemma DrivenIsCurrent(env: Env, w: World)
    requires Safe(env, w) && Wf(w.m) && Driven(w.m).Some?
    ensures Current(w) == Some(Request(Driven(w.m).value.head, Driven(w.m).value.policy))
  {
    hide DataRight, OutputRight, NoRepeats, ForwardFinalized;
  }

  /** Where answers come from: a poll adds at most one segment, for the current request, with the answer it yields. */
  lemma PollAnswers(env: Env, w: World, work: seq<Choice>)
    requires Safe(env, w) && Wf(w.m)
    ensures var w', p := Next(env, w, PollStep(work)), Poll(env, w.m, work);
      && |w.h.segments| <= |w'.h.segments| <= |w.h.segments| + 1
      && w'.h.segments[..|w.h.segments|] == w.h.segments
      && (|w'.h.segments| > |w.h.segments| && w'.h.segments[|w.h.segments|].Served? ==>
            && p.out.Some? && w'.h.segments[|w.h.segments|].answer == p.out.value
            && Current(w) == Some(w'.h.segments[|w.h.segments|].request))
      && (w'.m.pending.Some? ==> w'.h.open.Some? && Current(w) == Some(w'.h.open.value.request))
  {
    hide Safe, Poll, ForwardFinalized, DoneIn;
    var p, w' := Poll(env, w.m, work), Next(env, w, PollStep(work));
    PollKeeps(env, w, work);
    PendingIsOpen(env, w');
  }

  lemma PendingIsOpen(env: Env, w: World)
    requires Safe(env, w)
    ensures w.m.pending.Some? ==> w.h.open.Some?
    ensures Idle(w.m) <==> w.h.open.None?
  {
    hide DataRight, OutputRight, NoRepeats;
  }

  /** What one poll yields or holds back. */
  lemma PollFails(env: Env, worlds: seq<World>, steps: seq<Step>, n: nat, work: seq<Choice>, answer: Out)
    requires IsRun(env, worlds, steps) && n < |steps| && steps[n] == PollStep(work)
    requires Safe(env, worlds[n]) && Wf(worlds[n].m) && FailuresExplained(env, worlds, steps, n) && answer.Failed?
    requires var p := Poll(env, worlds[n].m, work); p.out == Some(answer) || p.next.pending == Some(answer)
    ensures Current(worlds[n]).Some? && Explained(env, worlds, steps, n + 1, Current(worlds[n]).value.head, answer.error)
  {
    hide Follows, Initial, Safe, Poll, TaskSteps, Driven, Explained, Reason, Takes;
    var w := worlds[n];
    PollSteps(env, w.m, work);
    PendingIsOpen(env, w);
    if Driven(w.m).Some? {
      DrivenIsCurrent(env, w);
      DrivenFails(env, w, work);
      var head := Driven(w.m).value.head;
      ExplainedStays(env, worlds, steps, n, head, answer.error);
    } else if Idle(w.m) {
      NoticesAreNoFailures(env, w, work);
    } else {
      ExplainedStays(env, worlds, steps, n, w.h.open.value.request.head, answer.error);
      TakesWhenIdle(w.m);
    }
  }

  lemma TakesWhenIdle(m: Machine)
    ensures Takes(m) ==> Idle(m)
  {
  }

  /** An idle poll that takes no request yields no failure of a request. */
  lemma NoticesAreNoFailures(env: Env, w: World, work: seq<Choice>)
    requires Safe(env, w) && Wf(w.m) && Driven(w.m).None? && Idle(w.m)
    ensures Poll(env, w.m, work).out.Some? ==> !Poll(env, w.m, work).out.value.Failed?
    ensures Poll(env, w.m, work).next.pending.None?
  {
    hide Safe, ForwardFinalized;
    MbNotices.OnlyNotices(env, w);
    MbNotices.ForwardNotice(w.m);
  }

  lemma OtherStepsAnswerNothing(env: Env, w: World, step: Step)
    requires Wf(w.m) && !step.PollStep?
    ensures var w' := Next(env, w, step);
      && w'.m.pending == w.m.pending && w'.h.segments == w.h.segments && w'.h.open.Some? == w.h.open.Some?
      && (w.h.open.Some? ==> w'.h.open.value.request == w.h.open.value.request)
  {
    hide TaskStep, DoneIn;
  }

  lemma StepExplains(env: Env, worlds: seq<World>, steps: seq<Step>, n: nat)
    requires IsRun(env, worlds, steps) && n < |steps|
    requires Safe(env, worlds[n]) && Wf(worlds[n].m) && FailuresExplained(env, worlds, steps, n)
    ensures FailuresExplained(env, worlds, steps, n + 1)
  {
    hide Safe, Next, Explained, Poll, Reason;
    var w, w' := worlds[n], worlds[n + 1];
    assert Follows(env, worlds[n], steps[n], worlds[n + 1]);
    forall head, e
      ensures Explained(env, worlds, steps, n, head, e) ==> Explained(env, worlds, steps, n + 1, head, e)
      ensures Reason(env, w.m.db.chain, head, Failing(steps[n]), e) ==> Explained(env, worlds, steps, n + 1, head, e)
    {
      ExplainedStays(env, worlds, steps, n, head, e);
    }
    ComputationFails(env, w, steps[n]);
    if steps[n].PollStep? {
      var work := steps[n].work;
      PollAnswers(env, w, work);
      PolledPending(env, w, work);
      var p, m := Poll(env, w.m, work), |w.h.segments|;
      if w'.m.pending.Some? && w'.m.pending.value.Failed? {
        PollFails(env, worlds, steps, n, work, w'.m.pending.value);
      }
      forall i | 0 <= i < |w'.h.segments| && w'.h.segments[i].Served? && w'.h.segments[i].answer.Failed?
        ensures Explained(env, worlds, steps, n + 1, w'.h.segments[i].request.head, w'.h.segments[i].answer.error)
      {
        if i < m {
          assert w'.h.segments[i] == w.h.segments[i];
        } else {
          PollFails(env, worlds, steps, n, work, w'.h.segments[i].answer);
        }
      }
    } else {
      OtherStepsAnswerNothing(env, w, steps[n]);
    }
  }

  lemma PolledPending(env: Env, w: World, work: seq<Choice>)
    requires Wf(w.m)
    ensures Next(env, w, PollStep(work)).m == Poll(env, w.m, work).next
  {
    hide Poll, DoneIn, Takes;
  }

  lemma {:induction false} EveryFailureExplained(env: Env, worlds: seq<World>, steps: seq<Step>, n: nat)
    requires IsRun(env, worlds, steps) && n < |worlds|
    ensures FailuresExplained(env, worlds, steps, n)
  {
    hide FailuresExplained, Safe, Follows;
    if n == 0 {
      NothingToExplain(env, worlds, steps);
    } else {
      EveryFailureExplained(env, worlds, steps, n - 1);
      EveryRunIsSafe(env, worlds, steps, n - 1);
      StepExplains(env, worlds, steps, n - 1);
    }
  }

  lemma NothingToExplain(env: Env, worlds: seq<World>, steps: seq<Step>)
    requires IsRun(env, worlds, steps)
    ensures FailuresExplained(env, worlds, steps, 0)
  {
  }

  /** Main result on failures: in every run a request is answered with the processor's error exactly if the processor failed
      for it, and with another error only if plain execution of its MB, on the chain data of some state before the
      answer, fails with this very error. */
  lemma FailedOnlyForReason(env: Env, worlds: seq<World>, steps: seq<Step>, n: nat, i: nat)
    requires IsRun(env, worlds, steps) && n < |worlds| && i < |worlds[n].h.segments|
    requires worlds[n].h.segments[i].Served? && worlds[n].h.segments[i].answer.Failed?
    ensures |worlds| == |steps| + 1 &&
            Explained(env, worlds, steps, n, worlds[n].h.segments[i].request.head, worlds[n].h.segments[i].answer.error)
    ensures worlds[n].h.segments[i].failed <==> worlds[n].h.segments[i].answer.error == ProcessorFailed
  {
    EveryFailureExplained(env, worlds, steps, n);
    EveryRunIsSafe(env, worlds, steps, n);
    assert SegmentRight(env, worlds[n].m.db.rows.computed, worlds[n].h.segments[i]);
  }

  // ---------------------------------------------------------------------
  // A request can always be answered

  /** A processor that returns from everything at once. */
  function Returns(n: nat): seq<Choice> {
    seq(n, _ => Return)
  }

  /** Which part of an MB is under way. */
  function StageRank(c: Computation): nat {
    match c.task
    case Fresh => 4
    case Running(_, Loading) => 3
    case Running(_, Executing(_)) => 2
    case Running(_, Storing(_)) => 1
    case Finished(_) => 0
  }

  function ChainLeft(c: Computation): nat {
    if c.task.Running? then |c.task.chain| else 0
  }

  function RowsLeft(c: Computation): nat {
    if c.task.Running? && c.task.stage.Storing? then |c.task.stage.todo| else 0
  }

  /** A step on which the processor returns: it is not a failure, and brings the end nearer. */
  lemma ReturnProgresses(env: Env, db: Db, c: Computation)
    requires Consistent(env, db) && TaskRight(env, db, c) && InStage(c) && !c.task.Finished?
    requires Replay(db.chain, env.seed, env.process, c.head).Ok?
    ensures var after := TaskStep(env, db, c, Return).computation;
      && (after.task.Finished? ==> after.task == Finished(Ok(c.head)))
      && (c.task.Fresh? ==> !after.task.Fresh?)
      && (!c.task.Fresh? ==> !after.task.Fresh? && ChainLeft(after) <= ChainLeft(c))
      && (!c.task.Fresh? && ChainLeft(after) == ChainLeft(c) ==> StageRank(after) <= StageRank(c))
      && (!c.task.Fresh? && ChainLeft(after) == ChainLeft(c) && StageRank(after) == StageRank(c) ==>
            RowsLeft(after) < RowsLeft(c))
  {
    hide Consistent, Replay, UncomputedChain, PrepareExecutable, LinkedChain, StoringRight;
    StepFails(env, db, c, Return);
    TaskStepKeeps(env, db, c, Return);
  }

  /** Once the processor only returns, a computation whose MB can be executed ends with success. */
  lemma {:induction false} Completes(env: Env, db: Db, c: Computation) returns (n: nat)
    requires Consistent(env, db) && TaskRight(env, db, c) && InStage(c)
    requires Replay(db.chain, env.seed, env.process, c.head).Ok? && (c.task.Finished? ==> c.task.result.Ok?)
    ensures TaskSteps(env, db, c, Returns(n)).1.task == Finished(Ok(c.head))
    ensures DoneAll(env, db, c, Returns(n)).produced == []
    decreases c.task.Fresh?, ChainLeft(c), StageRank(c), RowsLeft(c)
  {
    hide Consistent, Replay, TaskStep;
    if c.task.Finished? {
      n := 0;
    } else {
      ReturnProgresses(env, db, c);
      TaskStepKeeps(env, db, c, Return);
      var w := TaskStep(env, db, c, Return);
      var rest := Completes(env, db.(rows := w.rows), w.computation);
      n := rest + 1;
      assert Returns(n)[0] == Return && Returns(n)[1..] == Returns(rest);
    }
  }

  /** A request is served that has not failed and whose MB can be executed. */
  ghost predicate CanSucceed(env: Env, w: World) {
    && w.h.open.Some? && Replay(w.m.db.chain, env.seed, env.process, w.h.open.value.request.head).Ok?
    && !(w.m.pending.Some? && w.m.pending.value.Failed?)
    && !(w.m.computation.Some? && w.m.computation.value.task.Finished? && w.m.computation.value.task.result.Err?)
  }

  /** The last segment is this request, answered with success. */
  predicate AnsweredLast(w: World, request: Request) {
    && w.h.segments != []
    && var last := w.h.segments[|w.h.segments| - 1];
      last.Served? && last.request == request && last.answer == MbComputed(request.head)
  }

  function StreamLeft(m: Machine): nat {
    if m.stream.Some? then |m.stream.value| else 0
  }

  /** `longer` continues the run with polls only. */
  ghost predicate Continues(
    env: Env, worlds: seq<World>, steps: seq<Step>, longer: seq<World>, more: seq<Step>)
  {
    && IsRun(env, longer, more) && worlds <= longer && steps <= more
    && forall i :: |steps| <= i < |more| ==> more[i].PollStep?
  }

  lemma ContinuesTwice(
    env: Env, worlds: seq<World>, steps: seq<Step>, middle: seq<World>, between: seq<Step>, longer: seq<World>, more: seq<Step>)
    requires Continues(env, worlds, steps, middle, between) && Continues(env, middle, between, longer, more)
    ensures Continues(env, worlds, steps, longer, more)
  {
    hide IsRun;
  }

  lemma IsLonger(env: Env, worlds: seq<World>, steps: seq<Step>, longer: seq<World>, more: seq<Step>)
    requires Continues(env, worlds, steps, longer, more)
    ensures IsRun(env, longer, more) && |longer| == |more| + 1
  {
  }

  lemma OnePoll(env: Env, worlds: seq<World>, steps: seq<Step>, work: seq<Choice>)
    requires IsRun(env, worlds, steps)
    ensures var w := worlds[|worlds| - 1];
      && Safe(env, w) && Wf(w.m)
      && Continues(env, worlds, steps, worlds + [Next(env, w, PollStep(work))], steps + [PollStep(work)])
      && Safe(env, Next(env, w, PollStep(work))) && Wf(Next(env, w, PollStep(work)).m)
  {
    hide Safe, Next, Initial;
    var n := |worlds| - 1;
    EveryRunIsSafe(env, worlds, steps, n);
    var longer, more := worlds + [Next(env, worlds[n], PollStep(work))], steps + [PollStep(work)];
    forall i | 0 <= i < |more|
      ensures Follows(env, longer[i], more[i], longer[i + 1])
    {
      if i < |steps| {
        assert Follows(env, worlds[i], steps[i], worlds[i + 1]);
      }
    }
    EveryRunIsSafe(env, longer, more, n + 1);
  }

  /** Forwarding a promise. */
  lemma PromisePoll(env: Env, w: World)
    requires Safe(env, w) && Wf(w.m) && CanSucceed(env, w) && StreamLeft(w.m) > 0
    ensures var w' := Next(env, w, PollStep([]));
      && CanSucceed(env, w') && w'.h.open.value.request == w.h.open.value.request
      && w'.m.computation == w.m.computation && StreamLeft(w'.m) == StreamLeft(w.m) - 1
  {
    hide Replay, Safe, ForwardFinalized, DoneIn;
    PendingIsOpen(env, w);
  }

  /** Answering what was held back. */
  lemma HeldPoll(env: Env, w: World)
    requires Safe(env, w) && Wf(w.m) && CanSucceed(env, w) && StreamLeft(w.m) == 0 && w.m.computation.None?
    ensures AnsweredLast(Next(env, w, PollStep([])), w.h.open.value.request)
  {
    hide Replay, DataRight, OutputRight, NoRepeats, ForwardFinalized, DoneIn;
  }

  /** Driving the computation to its end. */
  lemma DrivingPoll(env: Env, w: World) returns (n: nat)
    requires Safe(env, w) && Wf(w.m) && CanSucceed(env, w) && StreamLeft(w.m) == 0 && w.m.computation.Some?
    ensures var w' := Next(env, w, PollStep(Returns(n)));
      var request := w.h.open.value.request;
      || AnsweredLast(w', request)
      || (CanSucceed(env, w') && w'.h.open.value.request == request && StreamLeft(w'.m) == 0 && w'.m.computation.None?)
  {
    hide Replay, DataRight, OutputRight, NoRepeats, ForwardFinalized, DoneAll, TaskSteps, WorkAll, Safe;
    PendingIsOpen(env, w);
    OpenFields(env, w);
    MbPrograms.RunningRight(env, w);
    var c := w.m.computation.value;
    n := Completes(env, w.m.db, c);
    WorkAllSteps(env, w.m, Returns(n));
    WorkAllSteps(env, w.m.(stream := None), Returns(n));
    ReturnsSendNothing(env, w.m, n);
    StepsKeepChain(env, w.m.db, c, Returns(n));
  }

  lemma OpenFields(env: Env, w: World)
    requires Safe(env, w) && w.h.open.Some? && w.m.computation.Some?
    ensures w.m.pending.None? && w.m.computation.value.head == w.h.open.value.request.head && !Idle(w.m)
  {
    hide DataRight, OutputRight, NoRepeats;
  }

  lemma {:induction false} StepsKeepChain(env: Env, db: Db, c: Computation, work: seq<Choice>)
    requires InStage(c)
    ensures TaskSteps(env, db, c, work).0.chain == db.chain
    decreases |work|
  {
    hide TaskStep;
    if work != [] {
      StaysInStage(env, db, c, work[0]);
      var w := TaskStep(env, db, c, work[0]);
      StepsKeepChain(env, db.(rows := w.rows), w.computation, work[1..]);
    }
  }

  lemma {:induction false} ReturnsSendNothing(env: Env, m: Machine, n: nat)
    requires Wf(m)
    ensures WorkAll(env, m, Returns(n)).0.stream == m.stream
    decreases n
  {
    hide TaskStep;
    if n > 0 {
      assert Returns(n)[0] == Return && Returns(n)[1..] == Returns(n - 1);
      var next := Work(env, m, Return).0;
      ReturnSendsNothing(env, m);
      ReturnsSendNothing(env, next, n - 1);
    }
  }

  lemma ReturnSendsNothing(env: Env, m: Machine)
    requires Wf(m)
    ensures Wf(Work(env, m, Return).0) && Work(env, m, Return).0.stream == m.stream
  {
    hide UncomputedChain, PrepareExecutable;
    if m.stream.Some? {
      assert m.stream.value + [] == m.stream.value;
    }
  }

  /** One poll nearer to the answer. */
  ghost predicate Nearer(env: Env, w: World, w': World) {
    && w.h.open.Some? && w'.h.open.Some? && CanSucceed(env, w') && w'.h.open.value.request == w.h.open.value.request
    && (w'.m.computation.Some? ==> w.m.computation.Some? && StreamLeft(w'.m) < StreamLeft(w.m))
    && (w'.m.computation.None? ==> w.m.computation.Some? || StreamLeft(w'.m) < StreamLeft(w.m))
  }

  lemma PollNears(env: Env, w: World) returns (work: seq<Choice>)
    requires Safe(env, w) && Wf(w.m) && w.h.open.Some? && CanSucceed(env, w)
    ensures var w' := Next(env, w, PollStep(work)); AnsweredLast(w', w.h.open.value.request) || Nearer(env, w, w')
  {
    hide Safe, Next, AnsweredLast, Replay;
    work := [];
    if StreamLeft(w.m) > 0 {
      PromisePoll(env, w);
    } else if w.m.computation.None? {
      HeldPoll(env, w);
    } else {
      var n := DrivingPoll(env, w);
      work := Returns(n);
    }
  }

  /** From every state of a run in which a request is served that has not failed and whose MB can be executed, polling
      leads to its answer with success. */
  lemma {:induction false} ServedIsAnswered(env: Env, worlds: seq<World>, steps: seq<Step>, w: World)
    returns (longer: seq<World>, more: seq<Step>)
    requires IsRun(env, worlds, steps) && w == worlds[|worlds| - 1] && w.h.open.Some? && CanSucceed(env, w)
    ensures Continues(env, worlds, steps, longer, more)
    ensures longer != [] && AnsweredLast(longer[|longer| - 1], w.h.open.value.request)
    decreases w.m.computation.Some?, StreamLeft(w.m)
  {
    hide Safe, Next, CanSucceed, IsRun, AnsweredLast, Continues, StreamLeft;
    NonEmpty(env, worlds, steps);
    EveryRunIsSafe(env, worlds, steps, |worlds| - 1);
    var work := PollNears(env, w);
    OnePoll(env, worlds, steps, work);
    var w' := Next(env, w, PollStep(work));
    longer, more := worlds + [w'], steps + [PollStep(work)];
    if !AnsweredLast(w', w.h.open.value.request) {
      var middle, between := longer, more;
      IsLonger(env, worlds, steps, middle, between);
      longer, more := ServedIsAnswered(env, middle, between, w');
      ContinuesTwice(env, worlds, steps, middle, between, longer, more);
    }
  }

  lemma NonEmpty(env: Env, worlds: seq<World>, steps: seq<Step>)
    requires IsRun(env, worlds, steps)
    ensures |worlds| == |steps| + 1
  {
  }

  /** A poll of an idle service with a request in the queue: it forwards a notice, or takes the request. */
  lemma IdlePoll(env: Env, w: World)
    requires Safe(env, w) && Wf(w.m) && Idle(w.m) && w.m.input != []
    requires Replay(w.m.db.chain, env.seed, env.process, w.m.input[0].head).Ok?
    ensures var w' := Next(env, w, PollStep([]));
      || (w'.h.open.Some? && CanSucceed(env, w') && w'.h.open.value.request == w.m.input[0])
      || (&& Idle(w'.m) && w'.m.input == w.m.input && w'.m.db == w.m.db && |w'.m.finalizedInput| <= |w.m.finalizedInput|
          && (|w'.m.finalizedInput| == |w.m.finalizedInput| ==> |w'.m.finalizedOutput| < |w.m.finalizedOutput|))
  {
    hide Replay, Safe, FinalizedEvents;
    ForwardShrinks(w.m);
    var m := ForwardFinalized(w.m).0;
    if ForwardFinalized(w.m).1.None? {
      hide ForwardFinalized;
      assert WorkAll(env, StartNext(m), []).0 == StartNext(m);
    }
  }

  lemma {:induction false} ForwardShrinks(m: Machine)
    ensures var (after, out) := ForwardFinalized(m);
      && |after.finalizedInput| <= |m.finalizedInput|
      && (out.Some? && |after.finalizedInput| == |m.finalizedInput| ==> |after.finalizedOutput| < |m.finalizedOutput|)
    decreases |m.finalizedInput|
  {
    hide FinalizedEvents;
    if m.finalizedOutput == [] && m.finalizedInput != [] && m.finalizedInput[0] in m.db.rows.computed {
      match FinalizedEvents(m.db, m.finalizedInput[0]) {
        case Err(_) =>
        case Ok(events) => ForwardShrinks(m.(finalizedInput := m.finalizedInput[1..], finalizedOutput := events));
      }
    }
  }

  /** The same for a request that is first in the queue of an idle service. */
  lemma {:induction false} QueuedIsAnswered(env: Env, worlds: seq<World>, steps: seq<Step>, w: World)
    returns (longer: seq<World>, more: seq<Step>)
    requires IsRun(env, worlds, steps) && w == worlds[|worlds| - 1]
    requires Idle(w.m) && w.m.input != [] && Replay(w.m.db.chain, env.seed, env.process, w.m.input[0].head).Ok?
    ensures Continues(env, worlds, steps, longer, more)
    ensures longer != [] && AnsweredLast(longer[|longer| - 1], w.m.input[0])
    decreases |w.m.finalizedInput|, |w.m.finalizedOutput|
  {
    hide Safe, Next, CanSucceed, IsRun, AnsweredLast, Replay, Continues;
    NonEmpty(env, worlds, steps);
    EveryRunIsSafe(env, worlds, steps, |worlds| - 1);
    IdlePoll(env, w);
    OnePoll(env, worlds, steps, []);
    var w' := Next(env, w, PollStep([]));
    var middle, between := worlds + [w'], steps + [PollStep([])];
    PendingIsOpen(env, w');
    IsLonger(env, worlds, steps, middle, between);
    if Idle(w'.m) {
      longer, more := QueuedIsAnswered(env, middle, between, w');
    } else {
      longer, more := ServedIsAnswered(env, middle, between, w');
    }
    IsLonger(env, middle, between, longer, more);
    ContinuesTwice(env, worlds, steps, middle, between, longer, more);
  }

  /** The request that is next to be answered: the one being served, or else the first one of the queue. */
  function NextInLine(w: World): Option<Request> {
    if w.h.open.Some? then Some(w.h.open.value.request) else if w.m.input != [] then Some(w.m.input[0]) else None
  }

  /** Main result on progress: every run can be continued by polls until the request that is next in line is answered with
      success, if its MB can be executed and it has not failed. */
  lemma NextIsAnswered(env: Env, worlds: seq<World>, steps: seq<Step>) returns (longer: seq<World>, more: seq<Step>)
    requires IsRun(env, worlds, steps)
    requires var w := worlds[|worlds| - 1];
      && NextInLine(w).Some? && Replay(w.m.db.chain, env.seed, env.process, NextInLine(w).value.head).Ok?
      && (w.h.open.Some? ==> CanSucceed(env, w))
    ensures Continues(env, worlds, steps, longer, more)
    ensures AnsweredLast(longer[|longer| - 1], NextInLine(worlds[|worlds| - 1]).value)
  {
    var w := worlds[|worlds| - 1];
    EveryRunIsSafe(env, worlds, steps, |worlds| - 1);
    hide Safe, Next, CanSucceed, IsRun, AnsweredLast, Replay, Continues;
    PendingIsOpen(env, w);
    if w.h.open.Some? {
      longer, more := ServedIsAnswered(env, worlds, steps, w);
    } else {
      longer, more := QueuedIsAnswered(env, worlds, steps, w);
    }
  }
}
