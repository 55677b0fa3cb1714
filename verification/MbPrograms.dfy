/**
 Which code every program has, in every run of the MB sub-service: the code of
 the last pair among the program creations of the MBs executed so far.
 */
module MbPrograms {
  import opened Base
  import opened Chain
  import opened MbExecution
  import opened MbService
  import opened MbServiceRuns

  /** All program creations of the executed MBs, in order of execution. */
  function Created(returned: seq<(Hash, Finalized)>): seq<(nat, CodeId)> {
    if returned == [] then []
    else Created(returned[..|returned| - 1]) + returned[|returned| - 1].1.programCreations
  }

  /** The code of a program: that of its last pair, or else the one it had before. */
  function CodeOf(before: map<nat, CodeId>, pairs: seq<(nat, CodeId)>, program: nat): Option<CodeId> {
    if LastCode(pairs, program).Some? then LastCode(pairs, program) else Lookup(before, program)
  }

  /** How many pairs of the last executed MB are not yet written. */
  function Unwritten(c: Option<Computation>): nat {
    if c.Some? && c.value.task.Running? && c.value.task.stage.Storing? then CodesLeft(c.value.task.stage.todo) else 0
  }

  /** The rows that are being written are those of the MB executed last. */
  predicate StoresLast(c: Option<Computation>, returned: seq<(Hash, Finalized)>) {
    c.Some? && c.value.task.Running? && c.value.task.stage.Storing? ==>
      && c.value.task.chain != [] && returned != [] && returned[|returned| - 1].0 == c.value.task.chain[0].0
      && IsSuffix(c.value.task.stage.todo, Writes(returned[|returned| - 1].0, returned[|returned| - 1].1))
  }

  /** The pairs that are written. */
  function Written(c: Option<Computation>, returned: seq<(Hash, Finalized)>): seq<(nat, CodeId)>
    requires Unwritten(c) <= |Created(returned)|
  {
    Created(returned)[..|Created(returned)| - Unwritten(c)]
  }

  ghost predicate CodesRight(before: map<nat, CodeId>, rows: Rows, c: Option<Computation>, returned: seq<(Hash, Finalized)>) {
    && Unwritten(c) <= |Created(returned)| && StoresLast(c, returned)
    && forall p :: Lookup(rows.programCode, p) == CodeOf(before, Written(c, returned), p)
  }

  lemma CreatedNext(returned: seq<(Hash, Finalized)>, mb: Hash, fin: Finalized)
    ensures Created(returned + [(mb, fin)]) == Created(returned) + fin.programCreations
  {
    assert (returned + [(mb, fin)])[..|returned|] == returned;
  }

  /** The next pair to be written, among all pairs. */
  lemma NextPair(returned: seq<(Hash, Finalized)>, todo: seq<Write>)
    requires returned != [] && |todo| > 5 && IsSuffix(todo, Writes(returned[|returned| - 1].0, returned[|returned| - 1].1))
    ensures CodesLeft(todo) <= |Created(returned)|
    ensures var (program, code) := Created(returned)[|Created(returned)| - CodesLeft(todo)];
      todo[0] == SetProgramCode(program, code)
  {
    hide Writes;
    var (mb, fin) := returned[|returned| - 1];
    NextWrite(mb, fin, todo);
    assert Created(returned) == Created(returned[..|returned| - 1]) + fin.programCreations;
  }

  lemma StoreKeepsCodes(
    before: map<nat, CodeId>, db: Db, env: Env, c: Computation, choice: Choice, returned: seq<(Hash, Finalized)>)
    requires InStage(c) && c.task.Running? && c.task.stage.Storing? && CodesRight(before, db.rows, Some(c), returned)
    ensures var w := TaskStep(env, db, c, choice); CodesRight(before, w.rows, Some(w.computation), returned)
  {
    hide Writes, Created, LastCode, IsSuffix;
    var todo := c.task.stage.todo;
    var (mb, fin) := returned[|returned| - 1];
    var pairs := Created(returned);
    NextWrite(mb, fin, todo);
    if |todo| > 5 {
      NextPair(returned, todo);
      var k := |pairs| - CodesLeft(todo);
      var w := TaskStep(env, db, c, choice);
      assert Written(Some(c), returned) == pairs[..k] && Written(Some(w.computation), returned) == pairs[..k + 1];
      forall p
        ensures Lookup(w.rows.programCode, p) == CodeOf(before, pairs[..k + 1], p)
      {
        LastCodeNext(pairs, k, p);
        assert Lookup(db.rows.programCode, p) == CodeOf(before, pairs[..k], p);
      }
    }
  }

  lemma ReturnKeepsCodes(before: map<nat, CodeId>, db: Db, env: Env, c: Computation, returned: seq<(Hash, Finalized)>)
    requires InStage(c) && c.task.Running? && c.task.stage.Executing? && CodesRight(before, db.rows, Some(c), returned)
    ensures var w := TaskStep(env, db, c, Return);
      CodesRight(before, w.rows, Some(w.computation), returned + DoneBy(env, c, Return).returned)
  {
    hide CodeOf;
    var mb, fin := c.task.chain[0].0, env.process(c.task.stage.exe);
    var all := returned + [(mb, fin)];
    CreatedNext(returned, mb, fin);
    assert Created(all)[..|Created(returned)|] == Created(returned);
    assert Created(returned)[..|Created(returned)|] == Created(returned);
    assert Writes(mb, fin)[0..] == Writes(mb, fin);
    assert all[|all| - 1] == (mb, fin);
  }

  lemma StepKeepsCodes(
    before: map<nat, CodeId>, env: Env, db: Db, c: Computation, choice: Choice, returned: seq<(Hash, Finalized)>)
    requires InStage(c) && CodesRight(before, db.rows, Some(c), returned)
    ensures var w := TaskStep(env, db, c, choice);
      CodesRight(before, w.rows, Some(w.computation), returned + DoneBy(env, c, choice).returned)
  {
    hide Created, CodeOf, Writes;
    if c.task.Running? && c.task.stage.Storing? {
      StoreKeepsCodes(before, db, env, c, choice, returned);
      assert returned + [] == returned;
    } else if c.task.Running? && c.task.stage.Executing? && choice.Return? {
      ReturnKeepsCodes(before, db, env, c, returned);
    } else {
      assert returned + [] == returned;
    }
  }

  lemma {:induction false} StepsKeepCodes(
    before: map<nat, CodeId>, env: Env, db: Db, c: Computation, work: seq<Choice>, returned: seq<(Hash, Finalized)>)
    requires InStage(c) && CodesRight(before, db.rows, Some(c), returned)
    ensures var (db', c') := TaskSteps(env, db, c, work);
      CodesRight(before, db'.rows, Some(c'), returned + DoneAll(env, db, c, work).returned)
    decreases |work|
  {
    hide CodesRight, TaskStep, DoneBy;
    if work == [] {
      assert returned + [] == returned;
    } else {
      var w := TaskStep(env, db, c, work[0]);
      StaysInStage(env, db, c, work[0]);
      StepKeepsCodes(before, env, db, c, work[0], returned);
      var first := DoneBy(env, c, work[0]).returned;
      var db1 := db.(rows := w.rows);
      StepsKeepCodes(before, env, db1, w.computation, work[1..], returned + first);
      var rest := DoneAll(env, db1, w.computation, work[1..]).returned;
      assert returned + first + rest == returned + (first + rest);
    }
  }

  /** A computation that is not storing has written everything. */
  lemma SameWritten(
    before: map<nat, CodeId>, rows: Rows, c: Option<Computation>, c': Option<Computation>, returned: seq<(Hash, Finalized)>)
    requires CodesRight(before, rows, c, returned) && Unwritten(c) == 0
    requires c'.None? || c'.value.task.Fresh? || c'.value.task.Finished?
    ensures CodesRight(before, rows, c', returned)
  {
  }

  lemma NextReturned(env: Env, w: World, step: Step)
    requires Wf(w.m)
    ensures Next(env, w, step).h.returned ==
            match step
            case ExecutorStep(choice) => w.h.returned + DoneIn(env, w.m.db, w.m.computation, [choice]).returned
            case PollStep(work) => w.h.returned + DoneIn(env, w.m.db, Driven(w.m), work).returned
            case _ => w.h.returned
  {
    hide Poll, Work, DoneIn, Takes, Driven;
  }

  lemma NextKeepsCodes(before: map<nat, CodeId>, env: Env, w: World, step: Step)
    requires Wf(w.m) && CodesRight(before, w.m.db.rows, w.m.computation, w.h.returned)
    ensures var w' := Next(env, w, step); CodesRight(before, w'.m.db.rows, w'.m.computation, w'.h.returned)
  {
    hide CodesRight, TaskSteps, DoneAll, Poll, Driven, TaskStep;
    NextReturned(env, w, step);
    var returned := w.h.returned;
    assert returned + [] == returned;
    match step {
      case ExecutorStep(choice) =>
        if w.m.computation.Some? {
          var c := w.m.computation.value;
          StepKeepsCodes(before, env, w.m.db, c, choice, returned);
          DoneOnce(env, w.m.db, c, choice);
        }
      case PollStep(work) =>
        PollSteps(env, w.m, work);
        var driven := Driven(w.m);
        if driven.Some? {
          DrivenWritten(before, w.m, returned);
          StepsKeepCodes(before, env, w.m.db, driven.value, work, returned);
          var (db, c) := TaskSteps(env, w.m.db, driven.value, work);
          if c.task.Finished? {
            SameWritten(before, db.rows, Some(c), None, returned + DoneAll(env, w.m.db, driven.value, work).returned);
          }
        }
      case _ =>
    }
  }

  lemma DrivenWritten(before: map<nat, CodeId>, m: Machine, returned: seq<(Hash, Finalized)>)
    requires Wf(m) && Driven(m).Some? && CodesRight(before, m.db.rows, m.computation, returned)
    ensures InStage(Driven(m).value) && CodesRight(before, m.db.rows, Driven(m), returned)
  {
    hide CodesRight;
    if Takes(m) {
      SameWritten(before, m.db.rows, m.computation, Driven(m), returned);
    }
  }

  /** Main result on program codes: in every state of every run the code of every program is that of its last pair among
      the creations of the executed MBs, as far as they are written, or else the one it had at the start. */
  lemma {:induction false} ProgramCodesExact(env: Env, worlds: seq<World>, steps: seq<Step>, n: nat)
    requires IsRun(env, worlds, steps) && n < |worlds|
    ensures CodesRight(worlds[0].m.db.rows.programCode, worlds[n].m.db.rows, worlds[n].m.computation, worlds[n].h.returned)
  {
    hide Next, Safe;
    if n > 0 {
      var k := n - 1;
      ProgramCodesExact(env, worlds, steps, k);
      EveryRunIsSafe(env, worlds, steps, k);
      assert Follows(env, worlds[k], steps[k], worlds[k + 1]);
      NextKeepsCodes(worlds[0].m.db.rows.programCode, env, worlds[k], steps[k]);
    }
  }

  // ---------------------------------------------------------------------
  // What was executed

  /** The processor's results are those of plain execution, and every MB computed since the start was executed. */
  ghost predicate ReturnedRight(before: set<Hash>, env: Env, db: Db, returned: seq<(Hash, Finalized)>) {
    && (forall i :: 0 <= i < |returned| ==> Replay(db.chain, env.seed, env.process, returned[i].0) == Ok(returned[i].1))
    && (forall mb :: mb in db.rows.computed ==> mb in before || WasReturned(returned, mb))
  }

  predicate WasReturned(returned: seq<(Hash, Finalized)>, mb: Hash) {
    exists i :: 0 <= i < |returned| && returned[i].0 == mb
  }

  lemma WasReturnedNext(returned: seq<(Hash, Finalized)>, more: seq<(Hash, Finalized)>, mb: Hash)
    ensures WasReturned(returned, mb) ==> WasReturned(returned + more, mb)
  {
    if i :| 0 <= i < |returned| && returned[i].0 == mb {
      assert (returned + more)[i].0 == mb;
    }
  }

  lemma StepKeepsReturned(before: set<Hash>, env: Env, db: Db, c: Computation, choice: Choice, returned: seq<(Hash, Finalized)>)
    requires InStage(c) && TaskRight(env, db, c) && ReturnedRight(before, env, db, returned) && StoresLast(Some(c), returned)
    ensures var w := TaskStep(env, db, c, choice);
      ReturnedRight(before, env, db.(rows := w.rows), returned + DoneBy(env, c, choice).returned)
  {
    hide Replay, LinkedChain, StoringRight, WasReturned, UncomputedChain, PrepareExecutable;
    var w, more := TaskStep(env, db, c, choice), DoneBy(env, c, choice).returned;
    forall mb | mb in w.rows.computed
      ensures mb in before || WasReturned(returned + more, mb)
    {
      WasReturnedNext(returned, more, mb);
      if mb !in db.rows.computed {
        NewlyComputed(env, db, c, choice, returned, mb);
      }
    }
  }

  lemma NewlyComputed(env: Env, db: Db, c: Computation, choice: Choice, returned: seq<(Hash, Finalized)>, mb: Hash)
    requires InStage(c) && StoresLast(Some(c), returned)
    requires mb in TaskStep(env, db, c, choice).rows.computed && mb !in db.rows.computed
    ensures WasReturned(returned, mb)
  {
    hide Writes, IsSuffix, UncomputedChain, PrepareExecutable;
    var (last, fin) := returned[|returned| - 1];
    NextWrite(last, fin, c.task.stage.todo);
  }

  lemma {:induction false} StepsKeepReturned(
    before: set<Hash>, codes: map<nat, CodeId>, env: Env, db: Db, c: Computation, work: seq<Choice>,
    returned: seq<(Hash, Finalized)>)
    requires InStage(c) && Consistent(env, db) && TaskRight(env, db, c)
    requires ReturnedRight(before, env, db, returned) && CodesRight(codes, db.rows, Some(c), returned)
    ensures ReturnedRight(before, env, TaskSteps(env, db, c, work).0, returned + DoneAll(env, db, c, work).returned)
    decreases |work|
  {
    hide ReturnedRight, CodesRight, TaskStep, DoneBy, Consistent, TaskRight;
    if work == [] {
      assert returned + [] == returned;
    } else {
      var w := TaskStep(env, db, c, work[0]);
      StoringLast(codes, db.rows, Some(c), returned);
      TaskStepKeeps(env, db, c, work[0]);
      StepKeepsReturned(before, env, db, c, work[0], returned);
      StepKeepsCodes(codes, env, db, c, work[0], returned);
      var first := DoneBy(env, c, work[0]).returned;
      var db1 := db.(rows := w.rows);
      StepsKeepReturned(before, codes, env, db1, w.computation, work[1..], returned + first);
      var rest := DoneAll(env, db1, w.computation, work[1..]).returned;
      assert returned + first + rest == returned + (first + rest);
    }
  }

  lemma StoringLast(codes: map<nat, CodeId>, rows: Rows, c: Option<Computation>, returned: seq<(Hash, Finalized)>)
    requires CodesRight(codes, rows, c, returned)
    ensures StoresLast(c, returned)
  {
  }

  lemma GrowthKeepsReturned(before: set<Hash>, env: Env, db: Db, chain: AcyclicDb, returned: seq<(Hash, Finalized)>)
    requires ReturnedRight(before, env, db, returned) && db.chain.Grows(chain)
    ensures ReturnedRight(before, env, db.(chain := chain), returned)
  {
    hide WasReturned;
    forall i | 0 <= i < |returned|
      ensures Replay(chain, env.seed, env.process, returned[i].0) == Ok(returned[i].1)
    {
      ReplayStable(db.chain, chain, env.seed, env.process, returned[i].0);
    }
  }

  /** The computation that a poll drives is a right one. */
  lemma DrivenRight(env: Env, w: World)
    requires Safe(env, w) && Wf(w.m) && Driven(w.m).Some?
    ensures Consistent(env, w.m.db) && TaskRight(env, w.m.db, Driven(w.m).value) && InStage(Driven(w.m).value)
  {
    hide Consistent, OutputRight, FieldsRight, NoRepeats;
  }

  lemma NextKeepsReturned(before: set<Hash>, codes: map<nat, CodeId>, env: Env, w: World, step: Step)
    requires Safe(env, w) && Wf(w.m) && Allowed(w, step)
    requires ReturnedRight(before, env, w.m.db, w.h.returned)
    requires CodesRight(codes, w.m.db.rows, w.m.computation, w.h.returned)
    ensures var w' := Next(env, w, step); ReturnedRight(before, env, w'.m.db, w'.h.returned)
  {
    hide Safe, ReturnedRight, CodesRight, TaskSteps, DoneAll, Poll, Driven, TaskStep, Consistent, TaskRight;
    NextReturned(env, w, step);
    var returned := w.h.returned;
    assert returned + [] == returned;
    match step {
      case NewChainData(chain) => GrowthKeepsReturned(before, env, w.m.db, chain, returned);
      case ExecutorStep(choice) =>
        if w.m.computation.Some? {
          var c := w.m.computation.value;
          RunningRight(env, w);
          StoringLast(codes, w.m.db.rows, w.m.computation, returned);
          StepKeepsReturned(before, env, w.m.db, c, choice, returned);
          DoneOnce(env, w.m.db, c, choice);
        }
      case PollStep(work) =>
        PollSteps(env, w.m, work);
        if Driven(w.m).Some? {
          DrivenRight(env, w);
          DrivenWritten(codes, w.m, returned);
          StepsKeepReturned(before, codes, env, w.m.db, Driven(w.m).value, work, returned);
        }
      case _ =>
    }
  }

  lemma RunningRight(env: Env, w: World)
    requires Safe(env, w) && w.m.computation.Some?
    ensures Consistent(env, w.m.db) && TaskRight(env, w.m.db, w.m.computation.value)
  {
  }

  /** In every state of every run, what the processor returned is what plain execution yields for the MB, and every MB
      that was computed since the start was executed. */
  lemma {:induction false} ExecutedExact(env: Env, worlds: seq<World>, steps: seq<Step>, n: nat)
    requires IsRun(env, worlds, steps) && n < |worlds|
    ensures ReturnedRight(worlds[0].m.db.rows.computed, env, worlds[n].m.db, worlds[n].h.returned)
  {
    hide Next, Safe, CodesRight;
    if n > 0 {
      var k := n - 1;
      ExecutedExact(env, worlds, steps, k);
      EveryRunIsSafe(env, worlds, steps, k);
      ProgramCodesExact(env, worlds, steps, k);
      assert Follows(env, worlds[k], steps[k], worlds[k + 1]);
      NextKeepsReturned(worlds[0].m.db.rows.computed, worlds[0].m.db.rows.programCode, env, worlds[k], steps[k]);
    }
  }
}
