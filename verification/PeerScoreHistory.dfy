/**
 What the score entries say about the past, in every run: which reports were
 processed, when an entry was last updated, when it is forgotten, and why a
 peer was blocked.
 */
module PeerScoreHistory {
  import opened Base
  import opened PeerScore
  import opened PeerScoreRuns

  type ReportOf = (Peer, Reason)

  // ---------------------------------------------------------------------
  // Reports

  /** The report that a step processes. */
  function ProcessedBy(cfg: Config, w: World, now: nat, step: Step): seq<ReportOf> {
    if step.Polled? && Fits(w.s, step.choice) then AsSeq(Processed(cfg, w, now, step.choice)) else []
  }

  function AllProcessed(cfg: Config, worlds: seq<World>, steps: seq<Step>, n: nat): seq<ReportOf>
    requires n <= |steps| < |worlds|
  {
    if n == 0 then []
    else AllProcessed(cfg, worlds, steps, n - 1) + ProcessedBy(cfg, worlds[n - 1], worlds[n].clock, steps[n - 1])
  }

  function AllReported(steps: seq<Step>, n: nat): seq<ReportOf>
    requires n <= |steps|
  {
    if n == 0 then []
    else AllReported(steps, n - 1) + if steps[n - 1].Report? then [(steps[n - 1].peer, steps[n - 1].reason)] else []
  }

  lemma {:induction false} TickAllKeepsReports(cfg: Config, s: State, now: nat, order: seq<Peer>)
    requires Distinct(order) && forall i :: 0 <= i < |order| ==> order[i] in s.peers
    ensures TickAll(s, cfg, now, order).reports == s.reports
    decreases |order|
  {
    if order != [] {
      TickAllKeepsReports(cfg, TickOne(s, cfg, now, order[0]), now, order[1..]);
    }
  }

  lemma PollTakesReport(cfg: Config, w: World, now: nat, c: PollChoice)
    requires Fits(w.s, c)
    ensures AsSeq(Processed(cfg, w, now, c)) + Poll(w.s, cfg, now, c).0.reports == w.s.reports
  {
    hide TickAll;
    OrderInPeers(w.s, c);
    TickAllKeepsReports(cfg, w.s, now, c.order);
    assert [] + w.s.reports == w.s.reports;
  }

  /** In every run the reports received are those processed, in order, followed by those still waiting. */
  lemma {:induction false} ReportsAccounted(cfg: Config, worlds: seq<World>, steps: seq<Step>, n: nat)
    requires IsRun(cfg, worlds, steps) && n <= |steps| < |worlds|
    ensures AllReported(steps, n) == AllProcessed(cfg, worlds, steps, n) + worlds[n].s.reports
  {
    hide Processed, Poll;
    if n > 0 {
      var k := n - 1;
      ReportsAccounted(cfg, worlds, steps, k);
      assert Follows(cfg, worlds[k], steps[k], worlds[k + 1]);
      var before := AllProcessed(cfg, worlds, steps, k);
      match steps[k] {
        case Report(p, reason) =>
          assert before + worlds[k].s.reports + [(p, reason)] == before + [] + worlds[n].s.reports;
        case Polled(c) =>
          PollTakesReport(cfg, worlds[k], worlds[n].clock, c);
          var taken := AsSeq(Processed(cfg, worlds[k], worlds[n].clock, c));
          assert before + (taken + worlds[n].s.reports) == before + taken + worlds[n].s.reports;
          assert before + worlds[k].s.reports + [] == before + worlds[k].s.reports;
      }
    }
  }

  // ---------------------------------------------------------------------
  // Entries

  /** The score decays to zero, and the last update is at least the forget time ago. */
  predicate Fades(cfg: Config, e: Entry, now: nat) {
    e.score + cfg.decay >= 0 && e.updatedAt + cfg.forgetTime <= now
  }

  /** A tick forgets exactly the entries that fade. */
  predicate Forgets(cfg: Config, w: World, now: nat, step: Step, p: Peer) {
    Ticks(w, step) && p in w.s.peers && Fades(cfg, w.s.peers[p], now)
  }

  lemma {:induction false} TickAllEntry(cfg: Config, s: State, now: nat, order: seq<Peer>, p: Peer)
    requires cfg.Valid() && (p in s.peers ==> I8_MIN <= s.peers[p].score <= 0)
    requires Distinct(order) && forall i :: 0 <= i < |order| ==> order[i] in s.peers
    ensures var after := TickAll(s, cfg, now, order);
      && (p in after.peers <==> p in s.peers && !(p in order && Fades(cfg, s.peers[p], now)))
      && (p in after.peers ==> after.peers[p].updatedAt == s.peers[p].updatedAt)
    decreases |order|
  {
    if order != [] {
      TickAllEntry(cfg, TickOne(s, cfg, now, order[0]), now, order[1..], p);
      assert order == [order[0]] + order[1..];
    }
  }

  /** A poll: an entry is there after it if its peer had a report processed, or had one and it is not forgotten. */
  lemma PollEntry(cfg: Config, w: World, now: nat, c: PollChoice, p: Peer)
    requires cfg.Valid() && Safe(cfg, w) && Fits(w.s, c)
    ensures var after := Poll(w.s, cfg, now, c).0;
      var report := Processed(cfg, w, now, c);
      var reported := report.Some? && report.value.0 == p;
      && (p in after.peers <==> reported || (p in w.s.peers && !Forgets(cfg, w, now, Polled(c), p)))
      && (p in after.peers ==> after.peers[p].updatedAt == if reported then now else w.s.peers[p].updatedAt)
  {
    hide TickAll, SaidBlocked, Alternates;
    OrderInPeers(w.s, c);
    assert p in c.order <==> p in Elements(c.order);
    if Ticks(w, Polled(c)) {
      TickAllEntry(cfg, w.s, now, c.order, p);
    }
  }

  /** The report processed at step `k` is the last about the peer before state `n`, and its entry was not forgotten. */
  ghost predicate UpdatedLast(cfg: Config, worlds: seq<World>, steps: seq<Step>, k: nat, n: nat, p: Peer)
    requires n <= |steps| < |worlds|
  {
    && k < n && Concerns(cfg, worlds, steps, k, p)
    && forall j :: k < j < n ==>
      !Concerns(cfg, worlds, steps, j, p) && !Forgets(cfg, worlds[j], worlds[j + 1].clock, steps[j], p)
  }

  /** Step `k` processes a report about the peer. */
  ghost predicate Concerns(cfg: Config, worlds: seq<World>, steps: seq<Step>, k: nat, p: Peer)
    requires k < |steps| < |worlds|
  {
    var done := ProcessedBy(cfg, worlds[k], worlds[k + 1].clock, steps[k]);
    done != [] && done[0].0 == p
  }

  lemma EntryStep(cfg: Config, worlds: seq<World>, steps: seq<Step>, k: nat, p: Peer)
    requires IsRun(cfg, worlds, steps) && k < |steps|
    ensures var s, s' := worlds[k].s, worlds[k + 1].s;
      && (p in s'.peers <==>
            Concerns(cfg, worlds, steps, k, p) || (p in s.peers && !Forgets(cfg, worlds[k], worlds[k + 1].clock, steps[k], p)))
      && (p in s'.peers ==>
            s'.peers[p].updatedAt == if Concerns(cfg, worlds, steps, k, p) then worlds[k + 1].clock else s.peers[p].updatedAt)
  {
    hide Poll, Safe, Processed, Forgets;
    EveryRunIsSafe(cfg, worlds, steps, k);
    assert Follows(cfg, worlds[k], steps[k], worlds[k + 1]);
    match steps[k] {
      case Report(_, _) => NoTick(cfg, worlds[k], worlds[k + 1].clock, steps[k], p);
      case Polled(c) => PollEntry(cfg, worlds[k], worlds[k + 1].clock, c, p);
    }
  }

  lemma NoTick(cfg: Config, w: World, now: nat, step: Step, p: Peer)
    requires step.Report?
    ensures !Forgets(cfg, w, now, step, p)
  {
  }

  /** Main result on entries: in every run a peer has an entry exactly when a report about it was processed and the entry
      was not forgotten since; and the entry was last updated at the last such report. */
  lemma {:induction false} EntriesExact(cfg: Config, worlds: seq<World>, steps: seq<Step>, n: nat, p: Peer)
    requires IsRun(cfg, worlds, steps) && n <= |steps| < |worlds|
    ensures p in worlds[n].s.peers <==> exists k :: UpdatedLast(cfg, worlds, steps, k, n, p)
    ensures p in worlds[n].s.peers ==>
              exists k :: UpdatedLast(cfg, worlds, steps, k, n, p) && worlds[n].s.peers[p].updatedAt == worlds[k + 1].clock
  {
    hide Follows, Concerns, Forgets;
    if n > 0 {
      var m := n - 1;
      EntriesExact(cfg, worlds, steps, m, p);
      EntryStep(cfg, worlds, steps, m, p);
      if k: nat :| UpdatedLast(cfg, worlds, steps, k, n, p) {
        assert k < m ==> UpdatedLast(cfg, worlds, steps, k, m, p);
      }
      if p in worlds[n].s.peers {
        if Concerns(cfg, worlds, steps, m, p) {
          assert UpdatedLast(cfg, worlds, steps, m, n, p);
        } else {
          var k :| UpdatedLast(cfg, worlds, steps, k, m, p) && worlds[m].s.peers[p].updatedAt == worlds[k + 1].clock;
          assert UpdatedLast(cfg, worlds, steps, k, n, p);
        }
      }
    }
  }

  // ---------------------------------------------------------------------
  // Why a peer was blocked

  /** Blocking is reported at once, so that only unblocking is ever pending. */
  predicate OnlyUnblocks(events: seq<Event>) {
    forall i :: 0 <= i < |events| ==> events[i].PeerUnblocked?
  }

  lemma {:induction false} TickAllUnblocks(cfg: Config, s: State, now: nat, order: seq<Peer>)
    requires OnlyUnblocks(s.pendingEvents)
    requires Distinct(order) && forall i :: 0 <= i < |order| ==> order[i] in s.peers
    ensures OnlyUnblocks(TickAll(s, cfg, now, order).pendingEvents)
    decreases |order|
  {
    if order != [] {
      TickAllUnblocks(cfg, TickOne(s, cfg, now, order[0]), now, order[1..]);
    }
  }

  lemma PollUnblocks(cfg: Config, w: World, now: nat, c: PollChoice)
    requires Fits(w.s, c) && OnlyUnblocks(w.s.pendingEvents)
    ensures OnlyUnblocks(Poll(w.s, cfg, now, c).0.pendingEvents)
  {
    hide TickAll;
    OrderInPeers(w.s, c);
    TickAllUnblocks(cfg, w.s, now, c.order);
  }

  lemma {:induction false} PendingUnblocks(cfg: Config, worlds: seq<World>, steps: seq<Step>, n: nat)
    requires IsRun(cfg, worlds, steps) && n < |worlds|
    ensures OnlyUnblocks(worlds[n].s.pendingEvents)
  {
    hide Poll;
    if n > 0 {
      var k := n - 1;
      PendingUnblocks(cfg, worlds, steps, k);
      assert Follows(cfg, worlds[k], steps[k], worlds[k + 1]);
      if steps[k].Polled? {
        PollUnblocks(cfg, worlds[k], worlds[n].clock, steps[k].choice);
      }
    }
  }

  /** The score of the peer before a report is applied: decayed if the poll ticks. */
  function ScoreBefore(cfg: Config, w: World, c: PollChoice, p: Peer): int {
    Clamp(ScoreOf(w.s, p) + (if Ticks(w, Polled(c)) then cfg.decay else 0), I8_MIN, 0)
  }

  /** The report takes the peer below the threshold. */
  predicate Blocks(cfg: Config, w: World, c: PollChoice, p: Peer, reason: Reason) {
    ScoreBefore(cfg, w, c, p) > cfg.blockedThreshold >= SaturatingAdd(ScoreBefore(cfg, w, c, p), cfg.Penalty(reason))
  }

  lemma PollBlocks(cfg: Config, w: World, now: nat, c: PollChoice, p: Peer, reason: Reason)
    requires cfg.Valid() && Safe(cfg, w) && Fits(w.s, c) && OnlyUnblocks(w.s.pendingEvents)
    ensures Poll(w.s, cfg, now, c).1 == Some(PeerBlocked(p, reason)) <==>
            Processed(cfg, w, now, c) == Some((p, reason)) && Blocks(cfg, w, c, p, reason)
  {
    hide TickAll, SaidBlocked, Alternates;
    OrderInPeers(w.s, c);
    TickAllUnblocks(cfg, w.s, now, c.order);
    assert p in c.order <==> p in Elements(c.order);
    ScoreRange(cfg, w, p);
    if Ticks(w, Polled(c)) {
      TickAllDecays(cfg, w.s, now, c.order, p);
    }
  }

  /** Main result on blocking: in every run a step reports that a peer is blocked, with a reason, if and only if it
      processes a report about that peer for that reason, and the report takes its score to the threshold. */
  lemma BlockedForReason(cfg: Config, worlds: seq<World>, steps: seq<Step>, k: nat, p: Peer, reason: Reason)
    requires IsRun(cfg, worlds, steps) && k < |steps|
    ensures worlds[k + 1].emitted == worlds[k].emitted + [PeerBlocked(p, reason)] <==>
            && steps[k].Polled? && Fits(worlds[k].s, steps[k].choice)
            && Processed(cfg, worlds[k], worlds[k + 1].clock, steps[k].choice) == Some((p, reason))
            && Blocks(cfg, worlds[k], steps[k].choice, p, reason)
  {
    hide Poll, Safe, Processed, Blocks;
    EveryRunIsSafe(cfg, worlds, steps, k);
    PendingUnblocks(cfg, worlds, steps, k);
    assert Follows(cfg, worlds[k], steps[k], worlds[k + 1]);
    var log := worlds[k].emitted;
    assert |log + [PeerBlocked(p, reason)]| == |log| + 1 && (log + [PeerBlocked(p, reason)])[|log|] == PeerBlocked(p, reason);
    match steps[k] {
      case Report(_, _) =>
      case Polled(c) =>
        PollBlocks(cfg, worlds[k], worlds[k + 1].clock, c, p, reason);
        var event := Poll(worlds[k].s, cfg, worlds[k + 1].clock, c).1;
        assert event.Some? ==> (log + [event.value])[|log|] == event.value;
    }
  }
}
