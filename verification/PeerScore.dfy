/**
 Peer scores: saturating 8-bit arithmetic, a block list, and the events that
 report blocking and unblocking.
 */
module PeerScore {
  import opened Base

  type Peer = nat

  const I8_MIN: int := -128
  const I8_MAX: int := 127

  datatype Reason = ExcessiveData | InvalidData

  datatype Config = Config(excessiveData: int, invalidData: int, decay: int, blockedThreshold: int, forgetTime: nat) {
    /** Reports lower the score, decay raises it, and a score of zero is not blocked. */
    predicate Valid() {
      && I8_MIN <= excessiveData <= 0 && I8_MIN <= invalidData <= 0
      && 0 < decay <= I8_MAX && I8_MIN <= blockedThreshold < 0
    }

    function Penalty(reason: Reason): int {
      match reason case ExcessiveData => excessiveData case InvalidData => invalidData
    }
  }

  /** The default: -128 / 5, -128 / 3, 127 / 17 and -128 / 3, truncated toward zero, and one hour. */
  const DEFAULT_CONFIG := Config(-25, -42, 7, -42, 3600)

  datatype Entry = Entry(score: int, updatedAt: nat)

  datatype Event = PeerBlocked(peer: Peer, lastReason: Reason) | PeerUnblocked(peer: Peer)

  datatype State = State(
    pendingEvents: seq<Event>,
    blockList: set<Peer>,
    reports: seq<(Peer, Reason)>,
    peers: map<Peer, Entry>)

  function Clamp(x: int, low: int, high: int): int {
    if x < low then low else if x > high then high else x
  }

  function SaturatingAdd(a: int, b: int): int {
    Clamp(a + b, I8_MIN, I8_MAX)
  }

  /** Decay moves the score toward zero and stops there. */
  function Decayed(score: int, decay: int): int {
    if score > 0 then Clamp(SaturatingAdd(score, -decay), 0, I8_MAX)
    else Clamp(SaturatingAdd(score, decay), I8_MIN, 0)
  }

  predicate IsBlocked(cfg: Config, score: int) {
    score <= cfg.blockedThreshold
  }

  predicate IsExpired(cfg: Config, e: Entry, now: nat) {
    e.score == 0 && e.updatedAt + cfg.forgetTime <= now
  }

  /** The closure of `on_driver_tick` for one peer. */
  function TickOne(s: State, cfg: Config, now: nat, p: Peer): (r: State)
    requires p in s.peers
    ensures forall q :: q != p ==> (q in r.peers <==> q in s.peers)
  {
    var decayed := s.peers[p].(score := Decayed(s.peers[p].score, cfg.decay));
    var unblocks := IsBlocked(cfg, s.peers[p].score) && !IsBlocked(cfg, decayed.score);
    s.(blockList := if unblocks then s.blockList - {p} else s.blockList,
       pendingEvents := if unblocks then s.pendingEvents + [PeerUnblocked(p)] else s.pendingEvents,
       peers := if IsExpired(cfg, decayed, now) then s.peers - {p} else s.peers[p := decayed])
  }

  function TickAll(s: State, cfg: Config, now: nat, order: seq<Peer>): State
    requires Distinct(order) && forall i :: 0 <= i < |order| ==> order[i] in s.peers
    decreases |order|
  {
    if order == [] then s else TickAll(TickOne(s, cfg, now, order[0]), cfg, now, order[1..])
  }

  function OnScoreDecrease(s: State, cfg: Config, now: nat, p: Peer, reason: Reason): (State, Option<Event>) {
    var before := if p in s.peers then s.peers[p].score else 0;
    var after := SaturatingAdd(before, cfg.Penalty(reason));
    var blocks := !IsBlocked(cfg, before) && IsBlocked(cfg, after);
    (s.(peers := s.peers[p := Entry(after, now)],
        blockList := if blocks then s.blockList + {p} else s.blockList),
     if blocks then Some(PeerBlocked(p, reason)) else None)
  }

  function Pop(s: State): (State, Option<Event>)
    requires s.pendingEvents != []
  {
    (s.(pendingEvents := s.pendingEvents[1..]), Some(s.pendingEvents[0]))
  }

  /** What the environment decides about a poll: whether the driver is due, in which order the map is walked,
      and whether the block list has something of its own to tell the swarm. */
  datatype PollChoice = PollChoice(due: bool, order: seq<Peer>, blockListReady: bool)

  predicate Fits(s: State, c: PollChoice) {
    IsOrderOf(c.order, s.peers.Keys)
  }

  /** The last part of `poll`: the block list, then one report. */
  function PollReports(s: State, cfg: Config, now: nat, blockListReady: bool): (State, Option<Event>) {
    if blockListReady || s.reports == [] then (s, None)
    else OnScoreDecrease(s.(reports := s.reports[1..]), cfg, now, s.reports[0].0, s.reports[0].1)
  }

  lemma OrderInPeers(s: State, c: PollChoice)
    requires Fits(s, c)
    ensures forall i :: 0 <= i < |c.order| ==> c.order[i] in s.peers
  {
    forall i | 0 <= i < |c.order|
      ensures c.order[i] in s.peers
    {
      assert c.order[i] in Elements(c.order);
    }
  }

  function Poll(s: State, cfg: Config, now: nat, c: PollChoice): (State, Option<Event>)
    requires Fits(s, c)
  {
    if s.pendingEvents != [] then Pop(s)
    else
      OrderInPeers(s, c);
      var ticked := if c.due then TickAll(s, cfg, now, c.order) else s;
      if ticked.pendingEvents != [] then Pop(ticked) else PollReports(ticked, cfg, now, c.blockListReady)
  }

  class Behaviour {
    const cfg: Config
    var pendingEvents: seq<Event>
    var blockList: set<Peer>
    var reports: seq<(Peer, Reason)>
    var peers: map<Peer, Entry>

    function View(): State
      reads this
    {
      State(pendingEvents, blockList, reports, peers)
    }

    constructor (cfg: Config)
      ensures this.cfg == cfg && View() == State([], {}, [], map[])
    {
      this.cfg := cfg;
      pendingEvents := [];
      blockList := {};
      reports := [];
      peers := map[];
    }

    /** The closure for one peer. */
    method TickPeer(now: nat, p: Peer)
      requires p in peers
      modifies this
      ensures View() == TickOne(old(View()), cfg, now, p)
    {
      var wasBlocked := IsBlocked(cfg, peers[p].score);
      var entry := peers[p].(score := Decayed(peers[p].score, cfg.decay));
      if wasBlocked && !IsBlocked(cfg, entry.score) {
        blockList := blockList - {p};
        pendingEvents := pendingEvents + [PeerUnblocked(p)];
      }
      if IsExpired(cfg, entry, now) {
        peers := peers - {p};
      } else {
        peers := peers[p := entry];
      }
    }

    method OnDriverTick(now: nat, order: seq<Peer>)
      requires Distinct(order) && forall i :: 0 <= i < |order| ==> order[i] in peers
      modifies this
      ensures View() == TickAll(old(View()), cfg, now, order)
    {
      hide TickOne;
      ghost var start := View();
      assert order[0..] == order;
      for i := 0 to |order|
        invariant forall k :: i <= k < |order| ==> order[k] in peers
        invariant Distinct(order[i..])
        invariant TickAll(start, cfg, now, order) == TickAll(View(), cfg, now, order[i..])
      {
        assert order[i..][1..] == order[i + 1..];
        TickPeer(now, order[i]);
      }
      assert order[|order|..] == [];
    }

    method ScoreDecrease(now: nat, p: Peer, reason: Reason) returns (event: Option<Event>)
      modifies this
      ensures (View(), event) == OnScoreDecrease(old(View()), cfg, now, p, reason)
    {
      if p !in peers {
        peers := peers[p := Entry(0, now)];
      }
      var wasBlocked := IsBlocked(cfg, peers[p].score);
      peers := peers[p := Entry(SaturatingAdd(peers[p].score, cfg.Penalty(reason)), now)];
      assert peers == old(peers)[p := peers[p]];
      if !wasBlocked && IsBlocked(cfg, peers[p].score) {
        blockList := blockList + {p};
        return Some(PeerBlocked(p, reason));
      }
      event := None;
    }

    method PollNext(now: nat, c: PollChoice) returns (event: Option<Event>)
      requires Fits(View(), c)
      modifies this
      ensures (View(), event) == Poll(old(View()), cfg, now, c)
    {
      if pendingEvents == [] && c.due {
        OrderInPeers(View(), c);
        OnDriverTick(now, c.order);
      }
      if pendingEvents != [] {
        event := Some(pendingEvents[0]);
        pendingEvents := pendingEvents[1..];
        return;
      }
      if c.blockListReady || reports == [] {
        return None;
      }
      var (p, reason) := reports[0];
      reports := reports[1..];
      event := ScoreDecrease(now, p, reason);
    }
  }
}
