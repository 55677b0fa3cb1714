/**
 Which notices about finalized MBs a run of the MB sub-service yields: for every
 accepted MB, in queue order, its version changes, each once.
 */
module MbNotices {
  import opened Base
  import opened Chain
  import opened MbExecution
  import opened EventDelivery
  import opened MbService
  import opened MbServiceRuns

  predicate IsNotice(out: Out) {
    out.VersionChanged? || out.FinalizedEventsFailed?
  }

  /** The notices among the outputs. */
  function NoticesIn(outs: seq<Out>): seq<Out> {
    if outs == [] then []
    else NoticesIn(outs[..|outs| - 1]) + if IsNotice(outs[|outs| - 1]) then [outs[|outs| - 1]] else []
  }

  /** What is due for one finalized MB. */
  function NoticesFor(db: Db, mb: Hash): seq<Out> {
    match FinalizedEvents(db, mb) case Ok(events) => events case Err(e) => [FinalizedEventsFailed(mb, e)]
  }

  function NoticesForAll(db: Db, mbs: seq<Hash>): seq<Out> {
    if mbs == [] then [] else NoticesFor(db, mbs[0]) + NoticesForAll(db, mbs[1..])
  }

  /** The finalized MBs that a step takes from the queue. */
  function TakenBy(m: Machine, step: Step): seq<Hash> {
    if step.PollStep? && Idle(m) then
      var left := |ForwardFinalized(m).0.finalizedInput|;
      if left <= |m.finalizedInput| then m.finalizedInput[..|m.finalizedInput| - left] else []
    else []
  }

  function AcceptedBy(m: Machine, step: Step): seq<Hash> {
    if step.ReceiveFinalized? && step.finalized !in m.finalizedInput then [step.finalized] else []
  }

  /** The finalized MBs taken from the queue in the first `n` steps. */
  function Taken(worlds: seq<World>, steps: seq<Step>, n: nat): seq<Hash>
    requires n <= |steps| < |worlds|
  {
    if n == 0 then [] else Taken(worlds, steps, n - 1) + TakenBy(worlds[n - 1].m, steps[n - 1])
  }

  function Accepted(worlds: seq<World>, steps: seq<Step>, n: nat): seq<Hash>
    requires n <= |steps| < |worlds|
  {
    if n == 0 then [] else Accepted(worlds, steps, n - 1) + AcceptedBy(worlds[n - 1].m, steps[n - 1])
  }

  /** What is due for the MBs taken in the first `n` steps, each looked up when it is taken. */
  function Due(worlds: seq<World>, steps: seq<Step>, n: nat): seq<Out>
    requires n <= |steps| < |worlds|
  {
    if n == 0 then []
    else Due(worlds, steps, n - 1) + NoticesForAll(worlds[n - 1].m.db, TakenBy(worlds[n - 1].m, steps[n - 1]))
  }

  /** Forwarding takes a prefix of the queue, of computed MBs, and yields or keeps exactly what is due for it.  It goes on
      until something is due, and stops without a notice only when none is held and the next MB is not computed. */
  lemma {:induction false} ForwardTakes(m: Machine)
    ensures var (after, out) := ForwardFinalized(m);
      var k := |m.finalizedInput| - |after.finalizedInput|;
      && 0 <= k && after.finalizedInput == m.finalizedInput[k..]
      && (forall i :: 0 <= i < k ==> m.finalizedInput[i] in m.db.rows.computed)
      && AsSeq(out) + after.finalizedOutput == m.finalizedOutput + NoticesForAll(m.db, m.finalizedInput[..k])
      && (out.None? ==>
            && after.finalizedOutput == []
            && (after.finalizedInput == [] || after.finalizedInput[0] !in m.db.rows.computed))
      && (forall i :: 0 <= i < k - 1 ==> NoticesFor(m.db, m.finalizedInput[i]) == [])
    decreases |m.finalizedInput|
  {
    hide FinalizedEvents;
    var (after, out) := ForwardFinalized(m);
    var k := |m.finalizedInput| - |after.finalizedInput|;
    if m.finalizedOutput != [] || m.finalizedInput == [] || m.finalizedInput[0] !in m.db.rows.computed {
      assert m.finalizedInput[..0] == [];
      assert m.finalizedOutput + [] == m.finalizedOutput;
    } else {
      var mb, rest := m.finalizedInput[0], m.finalizedInput[1..];
      assert rest == m.finalizedInput[1..];
      match FinalizedEvents(m.db, mb) {
        case Err(e) =>
          assert m.finalizedInput[..1] == [mb] && [mb][1..] == [];
        case Ok(events) =>
          ForwardTakes(m.(finalizedInput := rest, finalizedOutput := events));
          assert m.finalizedInput[..k] == [mb] + rest[..k - 1];
          assert m.finalizedInput[..k][1..] == rest[..k - 1];
      }
    }
  }

  /** What is forwarded is a notice. */
  lemma {:induction false} ForwardNotice(m: Machine)
    requires forall i :: 0 <= i < |m.finalizedOutput| ==> IsNotice(m.finalizedOutput[i])
    ensures ForwardFinalized(m).1.Some? ==> IsNotice(ForwardFinalized(m).1.value)
    decreases |m.finalizedInput|
  {
    if m.finalizedOutput == [] && m.finalizedInput != [] && m.finalizedInput[0] in m.db.rows.computed {
      var rest := m.finalizedInput[1..];
      match FinalizedEvents(m.db, m.finalizedInput[0]) {
        case Err(_) =>
        case Ok(events) => ForwardNotice(m.(finalizedInput := rest, finalizedOutput := events));
      }
    }
  }

  /** Serving a request touches no notice. */
  lemma AdvanceYieldsNoNotice(env: Env, m: Machine, work: seq<Choice>)
    requires Wf(m) && (m.pending.Some? ==> !IsNotice(m.pending.value))
    ensures var p := Advance(env, m, work);
      && (p.out.Some? ==> !IsNotice(p.out.value))
      && p.next.finalizedInput == m.finalizedInput && p.next.finalizedOutput == m.finalizedOutput
  {
  }

  lemma StepKeepsNotices(env: Env, w: World, step: Step)
    requires Safe(env, w) && Wf(w.m) && !step.PollStep?
    ensures var w' := Next(env, w, step);
      && w'.h.outs == w.h.outs && w'.m.finalizedOutput == w.m.finalizedOutput
      && w'.m.finalizedInput == w.m.finalizedInput + AcceptedBy(w.m, step)
      && NoticesForAll(w.m.db, TakenBy(w.m, step)) == []
  {
    hide TaskStep;
    assert w.m.finalizedInput + [] == w.m.finalizedInput;
  }

  lemma NoticesSnoc(outs: seq<Out>, out: Out)
    ensures NoticesIn(outs + [out]) == NoticesIn(outs) + if IsNotice(out) then [out] else []
  {
    assert (outs + [out])[..|outs|] == outs;
  }

  /** The notice among what a poll yields. */
  function NoticeOf(out: Option<Out>): seq<Out> {
    if out.Some? && IsNotice(out.value) then [out.value] else []
  }

  lemma IdlePollNotices(env: Env, m: Machine, work: seq<Choice>)
    requires Wf(m) && Idle(m) && forall i :: 0 <= i < |m.finalizedOutput| ==> IsNotice(m.finalizedOutput[i])
    ensures var p := Poll(env, m, work);
      var taken := TakenBy(m, PollStep(work));
      && taken + p.next.finalizedInput == m.finalizedInput
      && NoticeOf(p.out) + p.next.finalizedOutput == m.finalizedOutput + NoticesForAll(m.db, taken)
      && forall i :: 0 <= i < |taken| ==> taken[i] in m.db.rows.computed
  {
    hide ForwardFinalized, Advance, NoticesForAll;
    ForwardTakes(m);
    ForwardNotice(m);
    var (forwarded, out) := ForwardFinalized(m);
    if out.None? {
      AdvanceYieldsNoNotice(env, StartNext(forwarded), work);
    }
  }

  lemma BusyPollNotices(env: Env, m: Machine, work: seq<Choice>)
    requires Wf(m) && !Idle(m) && (m.pending.Some? ==> !IsNotice(m.pending.value))
    ensures var p := Poll(env, m, work);
      && TakenBy(m, PollStep(work)) == []
      && p.next.finalizedInput == m.finalizedInput && p.next.finalizedOutput == m.finalizedOutput
      && NoticeOf(p.out) == []
  {
    hide ForwardFinalized, Advance;
    AdvanceYieldsNoNotice(env, m, work);
  }

  /** An idle poll that yields no notice leaves none behind. */
  lemma IdlePollForwards(env: Env, m: Machine, work: seq<Choice>)
    requires Wf(m) && Idle(m) && forall i :: 0 <= i < |m.finalizedOutput| ==> IsNotice(m.finalizedOutput[i])
    requires NoticeOf(Poll(env, m, work).out) == []
    ensures var next := Poll(env, m, work).next;
      next.finalizedOutput == [] && (next.finalizedInput == [] || next.finalizedInput[0] !in m.db.rows.computed)
  {
    hide ForwardFinalized, Advance, NoticesForAll;
    ForwardTakes(m);
    ForwardNotice(m);
    var (forwarded, out) := ForwardFinalized(m);
    if out.None? {
      AdvanceYieldsNoNotice(env, StartNext(forwarded), work);
    }
  }

  lemma PollOuts(env: Env, w: World, work: seq<Choice>)
    requires Wf(w.m)
    ensures var p := Poll(env, w.m, work);
      var w' := Next(env, w, PollStep(work));
      w'.m == p.next && NoticesIn(w'.h.outs) == NoticesIn(w.h.outs) + NoticeOf(p.out)
  {
    hide Poll, NoticesIn, Takes;
    var out := Poll(env, w.m, work).out;
    if out.Some? {
      NoticesSnoc(w.h.outs, out.value);
    } else {
      assert NoticesIn(w.h.outs) + [] == NoticesIn(w.h.outs);
    }
  }

  lemma PollMovesNotices(env: Env, w: World, work: seq<Choice>)
    requires Safe(env, w) && Wf(w.m)
    ensures var w' := Next(env, w, PollStep(work));
      var taken := TakenBy(w.m, PollStep(work));
      && taken + w'.m.finalizedInput == w.m.finalizedInput
      && NoticesIn(w'.h.outs) + w'.m.finalizedOutput ==
         NoticesIn(w.h.outs) + w.m.finalizedOutput + NoticesForAll(w.m.db, taken)
      && forall i :: 0 <= i < |taken| ==> taken[i] in w.m.db.rows.computed
  {
    hide Safe, Next, Poll, TakenBy, NoticesForAll, NoticesIn, NoticeOf;
    PollOuts(env, w, work);
    OnlyNotices(env, w);
    var p := Poll(env, w.m, work);
    var outs, due := NoticesIn(w.h.outs), NoticesForAll(w.m.db, TakenBy(w.m, PollStep(work)));
    if Idle(w.m) {
      IdlePollNotices(env, w.m, work);
    } else {
      BusyPollNotices(env, w.m, work);
      NothingDue(w.m.db);
      assert [] + p.next.finalizedInput == w.m.finalizedInput;
      assert [] + w.m.finalizedOutput == w.m.finalizedOutput + [];
    }
    assert outs + NoticeOf(p.out) + p.next.finalizedOutput == outs + (NoticeOf(p.out) + p.next.finalizedOutput);
    assert outs + w.m.finalizedOutput + due == outs + (w.m.finalizedOutput + due);
  }

  /** Held back are only notices, and the held answer is none. */
  lemma OnlyNotices(env: Env, w: World)
    requires Safe(env, w)
    ensures forall i :: 0 <= i < |w.m.finalizedOutput| ==> IsNotice(w.m.finalizedOutput[i])
    ensures w.m.pending.Some? ==> !IsNotice(w.m.pending.value)
  {
  }

  lemma NothingDue(db: Db)
    ensures NoticesForAll(db, []) == []
  {
  }

  /** Main result on notices: in every run, the accepted finalized MBs are those taken, in queue order, followed by
      those still queued; the notices yielded so far and those still held back are exactly what is due for
      the MBs taken, in that order, each once; and every taken MB is computed. */
  lemma {:induction false} NoticesExact(env: Env, worlds: seq<World>, steps: seq<Step>, n: nat)
    requires IsRun(env, worlds, steps) && n < |worlds|
    ensures Accepted(worlds, steps, n) == Taken(worlds, steps, n) + worlds[n].m.finalizedInput
    ensures NoticesIn(worlds[n].h.outs) + worlds[n].m.finalizedOutput == Due(worlds, steps, n)
    ensures forall i :: 0 <= i < |Taken(worlds, steps, n)| ==> Taken(worlds, steps, n)[i] in worlds[n].m.db.rows.computed
  {
    hide Safe, Next, NoticesForAll, TakenBy, AcceptedBy, NoticesIn;
    if n == 0 {
      EmptyNotices();
    } else {
      var k := n - 1;
      NoticesExact(env, worlds, steps, k);
      EveryRunIsSafe(env, worlds, steps, k);
      assert Follows(env, worlds[k], steps[k], worlds[k + 1]);
      StepMovesNotices(env, worlds[k], steps[k]);
      ComputedStays(env, worlds[k], steps[k]);
      var taken, due := TakenBy(worlds[k].m, steps[k]), NoticesForAll(worlds[k].m.db, TakenBy(worlds[k].m, steps[k]));
      var before := Taken(worlds, steps, k);
      assert before + worlds[k].m.finalizedInput + AcceptedBy(worlds[k].m, steps[k]) ==
             before + (worlds[k].m.finalizedInput + AcceptedBy(worlds[k].m, steps[k]));
      assert before + (taken + worlds[n].m.finalizedInput) == before + taken + worlds[n].m.finalizedInput;
    }
  }

  /** In every run an idle poll yields a notice as long as one is due: when it yields none, so that a request may be taken,
      nothing is held back and the next finalized MB is not computed. */
  lemma NoticesBeforeRequests(env: Env, worlds: seq<World>, steps: seq<Step>, n: nat)
    requires IsRun(env, worlds, steps) && n < |steps| && steps[n].PollStep? && Idle(worlds[n].m)
    requires NoticesIn(worlds[n + 1].h.outs) == NoticesIn(worlds[n].h.outs)
    ensures var next := worlds[n + 1].m;
      next.finalizedOutput == [] && (next.finalizedInput == [] || next.finalizedInput[0] !in worlds[n].m.db.rows.computed)
  {
    hide Safe, Next, Poll, NoticesIn, NoticeOf;
    EveryRunIsSafe(env, worlds, steps, n);
    assert Follows(env, worlds[n], steps[n], worlds[n + 1]);
    var work := steps[n].work;
    PollOuts(env, worlds[n], work);
    OnlyNotices(env, worlds[n]);
    NothingAdded(NoticesIn(worlds[n].h.outs), NoticeOf(Poll(env, worlds[n].m, work).out));
    IdlePollForwards(env, worlds[n].m, work);
  }

  lemma NothingAdded<T>(s: seq<T>, t: seq<T>)
    requires s + t == s
    ensures t == []
  {
    assert |s + t| == |s| + |t|;
  }

  lemma EmptyNotices()
    ensures NoticesIn([]) == []
  {
  }

  lemma ComputedStays(env: Env, w: World, step: Step)
    requires Wf(w.m) && Allowed(w, step)
    ensures w.m.db.rows.computed <= Next(env, w, step).m.db.rows.computed
  {
    hide Poll, Work;
    match step {
      case ExecutorStep(choice) => OneStepComputes(env, w.m, choice);
      case PollStep(work) => PollComputes(env, w.m, work);
      case _ =>
    }
  }

  lemma OneStepComputes(env: Env, m: Machine, choice: Choice)
    requires Wf(m)
    ensures m.db.rows.computed <= Work(env, m, choice).0.db.rows.computed && Wf(Work(env, m, choice).0)
  {
  }

  /** The executor only adds to the computed MBs. */
  lemma {:induction false} WorkComputes(env: Env, m: Machine, work: seq<Choice>)
    requires Wf(m)
    ensures m.db.rows.computed <= WorkAll(env, m, work).0.db.rows.computed
    decreases |work|
  {
    hide Work;
    if work != [] {
      OneStepComputes(env, m, work[0]);
      WorkComputes(env, Work(env, m, work[0]).0, work[1..]);
    }
  }

  lemma PollComputes(env: Env, m: Machine, work: seq<Choice>)
    requires Wf(m)
    ensures m.db.rows.computed <= Poll(env, m, work).next.db.rows.computed
  {
    hide ForwardFinalized, Advance;
    AdvanceComputes(env, m, work);
    AdvanceComputes(env, StartNext(ForwardFinalized(m).0), work);
  }

  lemma AdvanceComputes(env: Env, m: Machine, work: seq<Choice>)
    requires Wf(m)
    ensures m.db.rows.computed <= Advance(env, m, work).next.db.rows.computed
  {
    hide WorkAll;
    WorkComputes(env, m, work);
    WorkComputes(env, m.(stream := None), work);
  }

  lemma StepMovesNotices(env: Env, w: World, step: Step)
    requires Safe(env, w) && Wf(w.m)
    ensures var w' := Next(env, w, step);
      var taken := TakenBy(w.m, step);
      && taken + w'.m.finalizedInput == w.m.finalizedInput + AcceptedBy(w.m, step)
      && NoticesIn(w'.h.outs) + w'.m.finalizedOutput ==
         NoticesIn(w.h.outs) + w.m.finalizedOutput + NoticesForAll(w.m.db, taken)
      && forall i :: 0 <= i < |taken| ==> taken[i] in w.m.db.rows.computed
  {
    hide Safe, Next, NoticesIn, NoticesForAll;
    if step.PollStep? {
      PollMovesNotices(env, w, step.work);
      assert w.m.finalizedInput + [] == w.m.finalizedInput;
    } else {
      StepKeepsNotices(env, w, step);
      assert NoticesIn(w.h.outs) + w.m.finalizedOutput + [] == NoticesIn(w.h.outs) + w.m.finalizedOutput;
      assert [] + Next(env, w, step).m.finalizedInput == Next(env, w, step).m.finalizedInput;
    }
  }

  predicate IsVersionChange(e: BlockEvent) {
    e.ProtocolVersionChanged?
  }

  /** One notice for every version change among the events: as many as there are, each at its own position. */
  ghost predicate AnnouncesVersions(notices: seq<Out>, mb: Hash, events: seq<BlockEvent>) {
    && |notices| == Count(IsVersionChange, events)
    && forall j :: 0 <= j < |events| && IsVersionChange(events[j]) ==>
      && Count(IsVersionChange, events[..j]) < |notices|
      && notices[Count(IsVersionChange, events[..j])] == VersionChanged(mb, events[j].version)
  }

  lemma {:induction false} VersionChangesExact(mb: Hash, events: seq<BlockEvent>)
    ensures AnnouncesVersions(VersionChanges(mb, events), mb, events)
  {
    if events != [] {
      var rest := events[1..];
      VersionChangesExact(mb, rest);
      CountFirst(IsVersionChange, events);
      forall j | 0 <= j < |events| && IsVersionChange(events[j])
        ensures Count(IsVersionChange, events[..j]) < |VersionChanges(mb, events)|
        ensures VersionChanges(mb, events)[Count(IsVersionChange, events[..j])] == VersionChanged(mb, events[j].version)
      {
        if j > 0 {
          CountFirst(IsVersionChange, events[..j]);
          assert events[..j][1..] == rest[..j - 1] && rest[j - 1] == events[j];
        }
      }
    }
  }

  /** What is due for a computed MB, in every run: one notice for each version change among the events it was executed on,
      in order. */
  lemma DueForComputed(env: Env, worlds: seq<World>, steps: seq<Step>, n: nat, mb: Hash)
    requires IsRun(env, worlds, steps) && n < |worlds| && mb in worlds[n].m.db.rows.computed && mb != ZERO
    ensures var s := worlds[n].m.db.chain;
      && Replay(s, env.seed, env.process, mb).Ok? && FinalizedEvents(worlds[n].m.db, mb).Ok?
      && AnnouncesVersions(NoticesFor(worlds[n].m.db, mb), mb, ExecutableOf(s, env.seed, env.process, mb).events)
  {
    hide AnnouncesVersions, VersionChanges;
    EveryRunIsSafe(env, worlds, steps, n);
    var db := worlds[n].m.db;
    assert StoredRight(env, db, mb);
    var parent := db.chain.compact[mb].parent;
    assert parent != ZERO ==> StoredRight(env, db, parent);
    VersionChangesExact(mb, ExecutableOf(db.chain, env.seed, env.process, mb).events);
  }

  // ---------------------------------------------------------------------
  // Failures

  predicate FailsForZeroOnly(outs: seq<Out>) {
    forall i :: 0 <= i < |outs| && outs[i].FinalizedEventsFailed? ==> outs[i].finalized == ZERO
  }

  lemma {:induction false} DueForAllFine(env: Env, worlds: seq<World>, steps: seq<Step>, n: nat, mbs: seq<Hash>)
    requires IsRun(env, worlds, steps) && n < |worlds|
    requires forall i :: 0 <= i < |mbs| ==> mbs[i] in worlds[n].m.db.rows.computed
    ensures FailsForZeroOnly(NoticesForAll(worlds[n].m.db, mbs))
    decreases |mbs|
  {
    hide IsRun, FinalizedEvents, VersionChanges;
    if mbs != [] {
      if mbs[0] != ZERO {
        DueForComputed(env, worlds, steps, n, mbs[0]);
      }
      DueForAllFine(env, worlds, steps, n, mbs[1..]);
      DueFine(worlds[n].m.db, mbs[0]);
    }
  }

  lemma DueFine(db: Db, mb: Hash)
    requires mb == ZERO || FinalizedEvents(db, mb).Ok?
    ensures FailsForZeroOnly(NoticesFor(db, mb))
  {
  }

  lemma {:induction false} AllDueFine(env: Env, worlds: seq<World>, steps: seq<Step>, n: nat)
    requires IsRun(env, worlds, steps) && n <= |steps| < |worlds|
    ensures FailsForZeroOnly(Due(worlds, steps, n))
  {
    hide Safe, Next, NoticesForAll, TakenBy;
    if n > 0 {
      var k := n - 1;
      AllDueFine(env, worlds, steps, k);
      EveryRunIsSafe(env, worlds, steps, k);
      StepMovesNotices(env, worlds[k], steps[k]);
      DueForAllFine(env, worlds, steps, k, TakenBy(worlds[k].m, steps[k]));
    }
  }

  lemma {:induction false} NoticeIsIn(outs: seq<Out>, i: nat)
    requires i < |outs| && IsNotice(outs[i])
    ensures outs[i] in NoticesIn(outs)
    decreases |outs|
  {
    if i < |outs| - 1 {
      NoticeIsIn(outs[..|outs| - 1], i);
    }
  }

  /** In every run a failure to collect the events of a finalized MB is reported for the zero MB only. */
  lemma FailuresOnlyForZero(env: Env, worlds: seq<World>, steps: seq<Step>, n: nat, i: nat)
    requires IsRun(env, worlds, steps) && n < |worlds|
    requires i < |worlds[n].h.outs| && worlds[n].h.outs[i].FinalizedEventsFailed?
    ensures worlds[n].h.outs[i].finalized == ZERO
  {
    hide IsRun, NoticesIn, Due;
    RunLength(env, worlds, steps);
    NoticesExact(env, worlds, steps, n);
    AllDueFine(env, worlds, steps, n);
    NoticeIsIn(worlds[n].h.outs, i);
    var notices := NoticesIn(worlds[n].h.outs);
    var j :| 0 <= j < |notices| && notices[j] == worlds[n].h.outs[i];
    assert Due(worlds, steps, n)[j] == notices[j];
  }

  lemma RunLength(env: Env, worlds: seq<World>, steps: seq<Step>)
    requires IsRun(env, worlds, steps)
    ensures |worlds| == |steps| + 1
  {
  }
}
