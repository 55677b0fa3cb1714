/**
 What the peer scores guarantee over every sequence of reports and polls.
 */
module PeerScoreRuns {
  import opened Base
  import opened PeerScore

  /** `emitted` are the events delivered so far. */
  datatype World = World(s: State, clock: nat, emitted: seq<Event>)

  datatype Step = Report(peer: Peer, reason: Reason) | Polled(choice: PollChoice)

  ghost predicate Follows(cfg: Config, w: World, step: Step, w': World) {
    && w.clock <= w'.clock
    && match step
       case Report(p, reason) => w'.s == w.s.(reports := w.s.reports + [(p, reason)]) && w'.emitted == w.emitted
       case Polled(c) =>
         && Fits(w.s, c)
         && var (s, event) := Poll(w.s, cfg, w'.clock, c);
           w'.s == s && w'.emitted == w.emitted + AsSeq(event)
  }

  ghost predicate IsRun(cfg: Config, worlds: seq<World>, steps: seq<Step>) {
    && cfg.Valid() && |worlds| == |steps| + 1
    && worlds[0].s == State([], {}, [], map[]) && worlds[0].emitted == []
    && forall i :: 0 <= i < |steps| ==> Follows(cfg, worlds[i], steps[i], worlds[i + 1])
  }

  // ---------------------------------------------------------------------
  // Events alternate

  /** Whether the last event about the peer says that it is blocked. */
  predicate SaidBlocked(log: seq<Event>, p: Peer) {
    if log == [] then false
    else if log[|log| - 1].peer == p then log[|log| - 1].PeerBlocked?
    else SaidBlocked(log[..|log| - 1], p)
  }

  /** For every peer, blocked and unblocked events take turns, blocked first. */
  predicate Alternates(log: seq<Event>) {
    log != [] ==>
      var front, last := log[..|log| - 1], log[|log| - 1];
      Alternates(front) && (last.PeerBlocked? <==> !SaidBlocked(front, last.peer))
  }

  lemma LogSnoc(log: seq<Event>, e: Event, p: Peer)
    ensures SaidBlocked(log + [e], p) == if e.peer == p then e.PeerBlocked? else SaidBlocked(log, p)
    ensures Alternates(log + [e]) <==> Alternates(log) && (e.PeerBlocked? <==> !SaidBlocked(log, e.peer))
  {
    assert (log + [e])[..|log|] == log;
  }

  lemma {:induction false} AlternatesPrefix(log: seq<Event>, rest: seq<Event>)
    requires Alternates(log + rest)
    ensures Alternates(log)
    decreases |rest|
  {
    if rest == [] {
      assert log + rest == log;
    } else {
      assert (log + rest)[..|log + rest| - 1] == log + rest[..|rest| - 1];
      AlternatesPrefix(log, rest[..|rest| - 1]);
    }
  }

  /** The block list is what the scores say, and what the log of events, delivered and not, says. */
  ghost predicate Right(cfg: Config, s: State, log: seq<Event>) {
    && (forall p :: p in s.peers ==> I8_MIN <= s.peers[p].score <= 0)
    && (forall p :: p in s.blockList <==> p in s.peers && IsBlocked(cfg, s.peers[p].score))
    && (forall p :: p in s.blockList <==> SaidBlocked(log, p))
    && Alternates(log)
  }

  /** In every state: delivered events followed by pending ones form the log. */
  ghost predicate Safe(cfg: Config, w: World) {
    Right(cfg, w.s, w.emitted + w.s.pendingEvents)
  }

  lemma TickOneKeeps(cfg: Config, s: State, log: seq<Event>, now: nat, p: Peer)
    requires cfg.Valid() && Right(cfg, s, log + s.pendingEvents) && p in s.peers
    ensures Right(cfg, TickOne(s, cfg, now, p), log + TickOne(s, cfg, now, p).pendingEvents)
    ensures forall q :: q != p ==> (q in TickOne(s, cfg, now, p).peers <==> q in s.peers)
  {
    var e := PeerUnblocked(p);
    var all := log + s.pendingEvents;
    assert log + (s.pendingEvents + [e]) == all + [e];
    forall q
      ensures SaidBlocked(all + [e], q) == if q == p then false else SaidBlocked(all, q)
    {
      LogSnoc(all, e, q);
    }
    LogSnoc(all, e, p);
  }

  lemma {:induction false} TickAllKeeps(cfg: Config, s: State, log: seq<Event>, now: nat, order: seq<Peer>)
    requires cfg.Valid() && Right(cfg, s, log + s.pendingEvents)
    requires Distinct(order) && forall i :: 0 <= i < |order| ==> order[i] in s.peers
    ensures Right(cfg, TickAll(s, cfg, now, order), log + TickAll(s, cfg, now, order).pendingEvents)
    decreases |order|
  {
    hide Right;
    if order != [] {
      TickOneKeeps(cfg, s, log, now, order[0]);
      TickAllKeeps(cfg, TickOne(s, cfg, now, order[0]), log, now, order[1..]);
    }
  }

  lemma ReportKeeps(cfg: Config, s: State, log: seq<Event>, now: nat, p: Peer, reason: Reason)
    requires cfg.Valid() && Right(cfg, s, log)
    ensures var (after, event) := OnScoreDecrease(s, cfg, now, p, reason); Right(cfg, after, log + AsSeq(event))
  {
    var e := PeerBlocked(p, reason);
    assert log + [] == log;
    forall q
      ensures SaidBlocked(log + [e], q) == if q == p then true else SaidBlocked(log, q)
    {
      LogSnoc(log, e, q);
    }
    LogSnoc(log, e, p);
  }

  lemma PollKeeps(cfg: Config, w: World, now: nat, c: PollChoice)
    requires cfg.Valid() && Safe(cfg, w) && Fits(w.s, c)
    ensures var (s, event) := Poll(w.s, cfg, now, c); Safe(cfg, World(s, now, w.emitted + AsSeq(event)))
  {
    hide Right;
    var (s, event) := Poll(w.s, cfg, now, c);
    if w.s.pendingEvents != [] {
      assert w.emitted + [event.value] + s.pendingEvents == w.emitted + w.s.pendingEvents;
      SameScores(cfg, w.s, s, w.emitted + w.s.pendingEvents);
    } else {
      OrderInPeers(w.s, c);
      var ticked := if c.due then TickAll(w.s, cfg, now, c.order) else w.s;
      TickAllKeeps(cfg, w.s, w.emitted, now, c.order);
      if ticked.pendingEvents != [] {
        assert w.emitted + [event.value] + s.pendingEvents == w.emitted + ticked.pendingEvents;
        SameScores(cfg, ticked, s, w.emitted + ticked.pendingEvents);
      } else {
        assert w.emitted + [] == w.emitted;
        var log := w.emitted + AsSeq(event);
        assert log + [] == log;
        if !c.blockListReady && ticked.reports != [] {
          var rest := ticked.(reports := ticked.reports[1..]);
          SameScores(cfg, ticked, rest, w.emitted);
          ReportKeeps(cfg, rest, w.emitted, now, ticked.reports[0].0, ticked.reports[0].1);
        }
      }
    }
  }

  lemma SameScores(cfg: Config, s: State, s': State, log: seq<Event>)
    requires Right(cfg, s, log) && s.peers == s'.peers && s.blockList == s'.blockList
    ensures Right(cfg, s', log)
  {
  }

  /** Main result: in every state of every run the block list is the set of peers with a score at or below the
      threshold, scores are in [-128, 0], a peer without an entry is not blocked, and the delivered events
      alternate for every peer. */
  lemma {:induction false} EveryRunIsSafe(cfg: Config, worlds: seq<World>, steps: seq<Step>, n: nat)
    requires IsRun(cfg, worlds, steps) && n < |worlds|
    ensures Safe(cfg, worlds[n]) && Alternates(worlds[n].emitted)
  {
    if n > 0 {
      var i := n - 1;
      EveryRunIsSafe(cfg, worlds, steps, i);
      assert Follows(cfg, worlds[i], steps[i], worlds[i + 1]);
      match steps[i] {
        case Report(_, _) =>
        case Polled(c) => PollKeeps(cfg, worlds[i], worlds[n].clock, c);
      }
    }
    AlternatesPrefix(worlds[n].emitted, worlds[n].s.pendingEvents);
  }

  // ---------------------------------------------------------------------
  // A blocked peer that behaves is unblocked

  /** A poll on which the driver ticks. */
  predicate Ticks(w: World, step: Step) {
    step.Polled? && step.choice.due && w.s.pendingEvents == []
  }

  function TickCount(worlds: seq<World>, steps: seq<Step>, i: nat, j: nat): nat
    requires i <= j <= |steps| < |worlds|
    decreases j - i
  {
    if i == j then 0 else TickCount(worlds, steps, i, j - 1) + if Ticks(worlds[j - 1], steps[j - 1]) then 1 else 0
  }

  /** No report about the peer is waiting. */
  predicate Quiet(s: State, p: Peer) {
    forall i :: 0 <= i < |s.reports| ==> s.reports[i].0 != p
  }

  /** The score of a peer; zero when it has no entry. */
  function ScoreOf(s: State, p: Peer): int {
    if p in s.peers then s.peers[p].score else 0
  }

  /** One decay moves a score toward zero by the decay, and never past it, on either side. */
  lemma DecayExact(score: int, decay: int)
    requires I8_MIN <= score <= I8_MAX && 0 < decay <= I8_MAX
    ensures Decayed(score, decay) ==
            if -decay <= score <= decay then 0 else if score > 0 then score - decay else score + decay
  {
  }

  lemma {:induction false} TickAllDecays(cfg: Config, s: State, now: nat, order: seq<Peer>, p: Peer)
    requires cfg.Valid() && ScoreOf(s, p) <= 0 && I8_MIN <= ScoreOf(s, p)
    requires Distinct(order) && forall i :: 0 <= i < |order| ==> order[i] in s.peers
    ensures var after := TickAll(s, cfg, now, order);
      && after.reports == s.reports
      && ScoreOf(after, p) == if p in order then Clamp(ScoreOf(s, p) + cfg.decay, I8_MIN, 0) else ScoreOf(s, p)
    decreases |order|
  {
    if order != [] {
      TickAllDecays(cfg, TickOne(s, cfg, now, order[0]), now, order[1..], p);
      assert order == [order[0]] + order[1..];
    }
  }

  lemma QuietPoll(cfg: Config, w: World, now: nat, c: PollChoice, p: Peer)
    requires cfg.Valid() && Safe(cfg, w) && Fits(w.s, c) && Quiet(w.s, p)
    ensures var after := Poll(w.s, cfg, now, c).0;
      && Quiet(after, p)
      && ScoreOf(after, p) == Clamp(ScoreOf(w.s, p) + (if Ticks(w, Polled(c)) then cfg.decay else 0), I8_MIN, 0)
  {
    OrderInPeers(w.s, c);
    assert p in c.order <==> p in Elements(c.order);
    if Ticks(w, Polled(c)) {
      TickAllDecays(cfg, w.s, now, c.order, p);
    }
  }

  lemma ScoreRange(cfg: Config, w: World, p: Peer)
    requires Safe(cfg, w)
    ensures I8_MIN <= ScoreOf(w.s, p) <= 0
  {
  }

  lemma QuietStep(cfg: Config, worlds: seq<World>, steps: seq<Step>, k: nat, p: Peer)
    requires IsRun(cfg, worlds, steps) && k < |steps| && Safe(cfg, worlds[k])
    requires Quiet(worlds[k].s, p) && !(steps[k].Report? && steps[k].peer == p)
    ensures cfg.Valid() && Quiet(worlds[k + 1].s, p)
    ensures ScoreOf(worlds[k + 1].s, p) ==
            Clamp(ScoreOf(worlds[k].s, p) + (if Ticks(worlds[k], steps[k]) then cfg.decay else 0), I8_MIN, 0)
  {
    hide Poll, Fits, Safe;
    ScoreRange(cfg, worlds[k], p);
    assert Follows(cfg, worlds[k], steps[k], worlds[k + 1]);
    match steps[k] {
      case Report(_, _) =>
      case Polled(c) => QuietPoll(cfg, worlds[k], worlds[k + 1].clock, c, p);
    }
  }

  lemma ClampTwice(x: int, d: nat, n: nat)
    requires I8_MIN <= x <= 0
    ensures Clamp(Clamp(x + d * n, I8_MIN, 0) + d, I8_MIN, 0) == Clamp(x + d * (n + 1), I8_MIN, 0)
    ensures Clamp(Clamp(x + d * n, I8_MIN, 0), I8_MIN, 0) == Clamp(x + d * n, I8_MIN, 0)
  {
    assert d * (n + 1) == d * n + d;
  }

  /** Without new reports the score rises by one decay per tick, up to zero. */
  lemma {:induction false} ScoreRecovers(cfg: Config, worlds: seq<World>, steps: seq<Step>, i: nat, j: nat, p: Peer)
    requires IsRun(cfg, worlds, steps) && i <= j <= |steps| < |worlds|
    requires Quiet(worlds[i].s, p) && forall k :: i <= k < j ==> !(steps[k].Report? && steps[k].peer == p)
    ensures Quiet(worlds[j].s, p)
    ensures ScoreOf(worlds[j].s, p) == Clamp(ScoreOf(worlds[i].s, p) + cfg.decay * TickCount(worlds, steps, i, j), I8_MIN, 0)
    decreases j - i
  {
    hide IsRun, Safe, Poll, Quiet;
    EveryRunIsSafe(cfg, worlds, steps, i);
    ScoreRange(cfg, worlds[i], p);
    if i < j {
      var k := j - 1;
      ScoreRecovers(cfg, worlds, steps, i, k, p);
      EveryRunIsSafe(cfg, worlds, steps, k);
      QuietStep(cfg, worlds, steps, k, p);
      var n := TickCount(worlds, steps, i, k);
      ClampTwice(ScoreOf(worlds[i].s, p), cfg.decay, n);
    }
  }

  /** With the default configuration a blocked peer with no new reports is unblocked within 13 ticks. */
  lemma UnblockedWithin13Ticks(worlds: seq<World>, steps: seq<Step>, i: nat, j: nat, p: Peer)
    requires IsRun(DEFAULT_CONFIG, worlds, steps) && i <= j <= |steps| < |worlds|
    requires Quiet(worlds[i].s, p) && forall k :: i <= k < j ==> !(steps[k].Report? && steps[k].peer == p)
    requires TickCount(worlds, steps, i, j) >= 13
    ensures p !in worlds[j].s.blockList
  {
    hide IsRun;
    EveryRunIsSafe(DEFAULT_CONFIG, worlds, steps, i);
    EveryRunIsSafe(DEFAULT_CONFIG, worlds, steps, j);
    ScoreRecovers(DEFAULT_CONFIG, worlds, steps, i, j, p);
  }

  // ---------------------------------------------------------------------
  // A peer that misbehaves is blocked

  /** The report that a poll processes, after the tick that it may make first. */
  function Processed(cfg: Config, w: World, now: nat, c: PollChoice): Option<(Peer, Reason)>
    requires Fits(w.s, c)
  {
    if w.s.pendingEvents != [] then None
    else
      OrderInPeers(w.s, c);
      var ticked := if c.due then TickAll(w.s, cfg, now, c.order) else w.s;
      if ticked.pendingEvents != [] || c.blockListReady || ticked.reports == [] then None else Some(ticked.reports[0])
  }

  /** Step `k` of the run processes this report. */
  ghost predicate Processes(cfg: Config, worlds: seq<World>, steps: seq<Step>, k: nat, p: Peer, reason: Reason) {
    && k < |steps| < |worlds| && k + 1 < |worlds| && steps[k].Polled? && Fits(worlds[k].s, steps[k].choice)
    && Processed(cfg, worlds[k], worlds[k + 1].clock, steps[k].choice) == Some((p, reason))
  }

  /** A poll: the score decays if it ticks, and then drops by the penalty of a processed report. */
  lemma PollScore(cfg: Config, w: World, now: nat, c: PollChoice, p: Peer)
    requires cfg.Valid() && Safe(cfg, w) && Fits(w.s, c)
    ensures var decayed := Clamp(ScoreOf(w.s, p) + (if Ticks(w, Polled(c)) then cfg.decay else 0), I8_MIN, 0);
      var report := Processed(cfg, w, now, c);
      ScoreOf(Poll(w.s, cfg, now, c).0, p) ==
      if report.Some? && report.value.0 == p then SaturatingAdd(decayed, cfg.Penalty(report.value.1)) else decayed
  {
    OrderInPeers(w.s, c);
    assert p in c.order <==> p in Elements(c.order);
    if Ticks(w, Polled(c)) {
      TickAllDecays(cfg, w.s, now, c.order, p);
    }
  }

  /** Reports only lower scores: a score never rises faster than one decay per tick. */
  lemma {:induction false} ScoreCeiling(cfg: Config, worlds: seq<World>, steps: seq<Step>, i: nat, j: nat, p: Peer)
    requires IsRun(cfg, worlds, steps) && i <= j <= |steps| < |worlds|
    ensures ScoreOf(worlds[j].s, p) <= ScoreOf(worlds[i].s, p) + cfg.decay * TickCount(worlds, steps, i, j)
    decreases j - i
  {
    hide IsRun;
    if i < j {
      var k := j - 1;
      ScoreCeiling(cfg, worlds, steps, i, k, p);
      CeilingStep(cfg, worlds, steps, k, p);
      var n := TickCount(worlds, steps, i, k);
      assert cfg.decay * (n + 1) == cfg.decay * n + cfg.decay;
    }
  }

  lemma CeilingStep(cfg: Config, worlds: seq<World>, steps: seq<Step>, k: nat, p: Peer)
    requires IsRun(cfg, worlds, steps) && k < |steps| < |worlds|
    ensures ScoreOf(worlds[k + 1].s, p) <= ScoreOf(worlds[k].s, p) + if Ticks(worlds[k], steps[k]) then cfg.decay else 0
  {
    hide Poll, Safe, Processed;
    EveryRunIsSafe(cfg, worlds, steps, k);
    ScoreRange(cfg, worlds[k], p);
    assert Follows(cfg, worlds[k], steps[k], worlds[k + 1]);
    if steps[k].Polled? {
      PollScore(cfg, worlds[k], worlds[k + 1].clock, steps[k].choice, p);
    }
  }

  /** After a processed report the score is at most the penalty, and lower by it than after the tick. */
  lemma ProcessedScore(cfg: Config, worlds: seq<World>, steps: seq<Step>, k: nat, p: Peer, reason: Reason)
    requires IsRun(cfg, worlds, steps) && Processes(cfg, worlds, steps, k, p, reason)
    ensures ScoreOf(worlds[k + 1].s, p) <= cfg.Penalty(reason)
    ensures var decayed := ScoreOf(worlds[k].s, p) + cfg.decay * TickCount(worlds, steps, k, k + 1);
      ScoreOf(worlds[k + 1].s, p) <= I8_MIN || ScoreOf(worlds[k + 1].s, p) <= decayed + cfg.Penalty(reason)
  {
    hide Poll, Safe, Processed;
    EveryRunIsSafe(cfg, worlds, steps, k);
    ScoreRange(cfg, worlds[k], p);
    assert Follows(cfg, worlds[k], steps[k], worlds[k + 1]);
    PollScore(cfg, worlds[k], worlds[k + 1].clock, steps[k].choice, p);
    assert TickCount(worlds, steps, k, k + 1) == if Ticks(worlds[k], steps[k]) then 1 else 0;
  }

  lemma {:induction false} TicksAdd(worlds: seq<World>, steps: seq<Step>, i: nat, j: nat, m: nat)
    requires i <= j <= m <= |steps| < |worlds|
    ensures TickCount(worlds, steps, i, m) == TickCount(worlds, steps, i, j) + TickCount(worlds, steps, j, m)
    decreases m - j
  {
    if j < m {
      TicksAdd(worlds, steps, i, j, m - 1);
    }
  }

  /** In every run with the default configuration a processed report of invalid data leaves the peer blocked; and so does
      a second one of excessive data, with at most one tick since the first. */
  lemma ReportsBlock(worlds: seq<World>, steps: seq<Step>, p: Peer, k: nat, m: nat)
    requires IsRun(DEFAULT_CONFIG, worlds, steps)
    ensures Processes(DEFAULT_CONFIG, worlds, steps, k, p, InvalidData) ==> p in worlds[k + 1].s.blockList
    ensures Processes(DEFAULT_CONFIG, worlds, steps, k, p, ExcessiveData) && k < m ==>
              Processes(DEFAULT_CONFIG, worlds, steps, m, p, ExcessiveData) ==>
                TickCount(worlds, steps, k + 1, m + 1) <= 1 ==> p in worlds[m + 1].s.blockList
  {
    hide IsRun, Processes, Safe;
    InRange(worlds, steps, k, p);
    InRange(worlds, steps, m, p);
    if Processes(DEFAULT_CONFIG, worlds, steps, k, p, InvalidData) {
      ProcessedScore(DEFAULT_CONFIG, worlds, steps, k, p, InvalidData);
      LowIsBlocked(worlds, steps, k + 1, p);
    }
    if && Processes(DEFAULT_CONFIG, worlds, steps, k, p, ExcessiveData) && k < m
       && Processes(DEFAULT_CONFIG, worlds, steps, m, p, ExcessiveData) && TickCount(worlds, steps, k + 1, m + 1) <= 1 {
      ProcessedScore(DEFAULT_CONFIG, worlds, steps, k, p, ExcessiveData);
      ScoreCeiling(DEFAULT_CONFIG, worlds, steps, k + 1, m, p);
      ProcessedScore(DEFAULT_CONFIG, worlds, steps, m, p, ExcessiveData);
      TicksAdd(worlds, steps, k + 1, m, m + 1);
      LowIsBlocked(worlds, steps, m + 1, p);
    }
  }

  lemma InRange(worlds: seq<World>, steps: seq<Step>, k: nat, p: Peer)
    ensures forall reason :: Processes(DEFAULT_CONFIG, worlds, steps, k, p, reason) ==> k < |steps| < |worlds|
  {
  }

  lemma LowIsBlocked(worlds: seq<World>, steps: seq<Step>, n: nat, p: Peer)
    requires IsRun(DEFAULT_CONFIG, worlds, steps) && n < |worlds| && ScoreOf(worlds[n].s, p) <= -42
    ensures p in worlds[n].s.blockList
  {
    EveryRunIsSafe(DEFAULT_CONFIG, worlds, steps, n);
  }
}
