/**
 The peer slot manager: capacity, backoff, eviction and dialling.  Time is a
 nondecreasing number; hash-map iteration and shuffling become explicit orders.
 */
module Slots {
  import opened Base

  type Peer = nat
  type Connection = nat

  datatype Config = Config(
    inboundMax: nat,
    inboundOverflowing: nat,
    overflowingActionTimeout: nat,
    outboundMin: nat,
    outboundMax: nat,
    backoff: nat)

  datatype InboundKind = Normal | Overflowing(latestAction: nat)
  datatype Direction = Inbound(kind: InboundKind) | Outbound

  datatype PeerState =
    | Connected(connections: set<Connection>, direction: Direction)
    | JustDisconnected(at: nat, direction: Direction)

  datatype SlotError = LimitExceeded(limit: nat, direction: Direction) | ActiveBackoffPeriod

  datatype ToSwarm = CloseAll(peer: Peer) | Dial(peer: Peer)

  datatype Gauges = Gauges(inbound: int, overflowing: int, outbound: int)

  type Peers = map<Peer, PeerState>
  type Connections = map<Peer, set<Connection>>

  datatype Slots = Slots(
    pending: Connections,
    peers: Peers,
    events: seq<ToSwarm>,
    known: set<Peer>,
    gauges: Gauges)

  // ---------------------------------------------------------------------
  // Counting

  function InboundPeers(peers: Peers): set<Peer> {
    set p | p in peers && peers[p].Connected? && peers[p].direction.Inbound?
  }

  function OverflowingPeers(peers: Peers): set<Peer> {
    set p | p in InboundPeers(peers) && peers[p].direction.kind.Overflowing?
  }

  function OutboundPeers(peers: Peers): set<Peer> {
    set p | p in peers && peers[p].Connected? && peers[p].direction.Outbound?
  }

  function Increment(g: Gauges, d: Direction): Gauges {
    match d
    case Inbound(kind) => g.(inbound := g.inbound + 1, overflowing := g.overflowing + if kind.Overflowing? then 1 else 0)
    case Outbound => g.(outbound := g.outbound + 1)
  }

  function Decrement(g: Gauges, d: Direction): Gauges {
    match d
    case Inbound(kind) => g.(inbound := g.inbound - 1, overflowing := g.overflowing - if kind.Overflowing? then 1 else 0)
    case Outbound => g.(outbound := g.outbound - 1)
  }

  // ---------------------------------------------------------------------
  // Pending dials (`ConnectionMap`)

  function WithConnection(m: Connections, peer: Peer, c: Connection): Connections {
    m[peer := (if peer in m then m[peer] else {}) + {c}]
  }

  /** The peer's entry goes away with its last connection. */
  function WithoutConnection(m: Connections, peer: Peer, c: Connection): Connections {
    if peer !in m then m
    else if m[peer] - {c} == {} then m - {peer}
    else m[peer := m[peer] - {c}]
  }

  class ConnectionMap {
    var inner: Connections

    constructor ()
      ensures inner == map[]
    {
      inner := map[];
    }

    method AddConnection(peer: Peer, c: Connection) returns (isNew: bool)
      modifies this
      ensures inner == WithConnection(old(inner), peer, c)
      ensures isNew <==> !(peer in old(inner) && c in old(inner)[peer])
    {
      if peer !in inner {
        inner := inner[peer := {}];
      }
      isNew := c !in inner[peer];
      inner := inner[peer := inner[peer] + {c}];
    }

    method RemoveConnection(peer: Peer, c: Connection)
      modifies this
      ensures inner == WithoutConnection(old(inner), peer, c)
    {
      if peer in inner {
        inner := inner[peer := inner[peer] - {c}];
        if inner[peer] == {} {
          inner := inner - {peer};
        }
      }
    }
  }

  // ---------------------------------------------------------------------
  // Connections

  /** Whether a peer without an entry gets a slot in this direction, and with which class. */
  function Admission(cfg: Config, peers: Peers, now: nat, direction: Direction): Result<Direction, SlotError> {
    match direction
    case Inbound(kind) =>
      var inbound := |InboundPeers(peers)|;
      if inbound < cfg.inboundMax then Ok(direction)
      else if inbound < cfg.inboundMax + cfg.inboundOverflowing then Ok(Inbound(Overflowing(now)))
      else Err(LimitExceeded(cfg.inboundMax, direction))
    case Outbound =>
      if |OutboundPeers(peers)| < cfg.outboundMax then Ok(Outbound) else Err(LimitExceeded(cfg.outboundMax, Outbound))
  }

  /** Gives a peer without an entry a slot, or refuses it. */
  function Admit(s: Slots, cfg: Config, now: nat, peer: Peer, c: Connection, direction: Direction): (Slots, Option<SlotError>) {
    match Admission(cfg, s.peers, now, direction)
    case Err(e) => (s, Some(e))
    case Ok(admitted) =>
      (s.(peers := s.peers[peer := Connected({c}, admitted)], gauges := Increment(s.gauges, admitted)), None)
  }

  /** `add_connection`: known peers keep their class; a disconnected outbound peer competes for an outbound slot again. */
  function AddConnection(s: Slots, cfg: Config, now: nat, peer: Peer, c: Connection, direction: Direction): (Slots, Option<SlotError>) {
    if peer !in s.peers then Admit(s, cfg, now, peer, c, direction)
    else match s.peers[peer]
      case Connected(connections, d) => (s.(peers := s.peers[peer := Connected(connections + {c}, d)]), None)
      case JustDisconnected(_, Inbound(_)) => (s, Some(ActiveBackoffPeriod))
      case JustDisconnected(_, Outbound) => Admit(s.(peers := s.peers - {peer}), cfg, now, peer, c, Outbound)
  }

  /** `remove_connection`: the last connection turns the entry into a backoff entry of the same class. */
  function RemoveConnection(s: Slots, now: nat, peer: Peer, c: Connection): Slots {
    if peer !in s.peers || s.peers[peer].JustDisconnected? then s
    else
      var Connected(connections, d) := s.peers[peer];
      if connections - {c} != {} then s.(peers := s.peers[peer := Connected(connections - {c}, d)])
      else s.(peers := s.peers[peer := JustDisconnected(now, d)], gauges := Decrement(s.gauges, d))
  }

  function AddPendingOutbound(s: Slots, cfg: Config, peer: Peer, c: Connection): (Slots, Option<SlotError>) {
    if peer in s.peers then
      (s, if s.peers[peer].JustDisconnected? then Some(ActiveBackoffPeriod) else None)
    else if |OutboundPeers(s.peers)| >= cfg.outboundMax then (s, Some(LimitExceeded(cfg.outboundMax, Outbound)))
    else (s.(pending := WithConnection(s.pending, peer, c)), None)
  }

  function EstablishOutbound(s: Slots, cfg: Config, now: nat, peer: Peer, c: Connection): (Slots, Option<SlotError>) {
    AddConnection(s.(pending := WithoutConnection(s.pending, peer, c)), cfg, now, peer, c, Outbound)
  }

  function ReportAction(s: Slots, now: nat, peer: Peer): Slots
    requires peer in s.peers
  {
    match s.peers[peer]
    case Connected(connections, Inbound(Overflowing(_))) =>
      s.(peers := s.peers[peer := Connected(connections, Inbound(Overflowing(now)))])
    case _ => s
  }

  // ---------------------------------------------------------------------
  // The driver tick

  /** Backoff entries strictly older than the backoff period go away. */
  function UpdateOnPeriods(s: Slots, cfg: Config, now: nat): Slots {
    s.(peers := map p | p in s.peers && (s.peers[p].Connected? || now <= s.peers[p].at + cfg.backoff) :: s.peers[p])
  }

  /** Overflowing inbound peers idle strictly longer than the timeout. */
  function Evictable(s: Slots, cfg: Config, now: nat): set<Peer> {
    set p | p in OverflowingPeers(s.peers) && now > s.peers[p].direction.kind.latestAction + cfg.overflowingActionTimeout
  }

  function Closes(order: seq<Peer>): seq<ToSwarm> {
    seq(|order|, i requires 0 <= i < |order| => CloseAll(order[i]))
  }

  function Dials(order: seq<Peer>): seq<ToSwarm> {
    seq(|order|, i requires 0 <= i < |order| => Dial(order[i]))
  }

  function SaturatingSub(a: nat, b: nat): nat {
    if a <= b then 0 else a - b
  }

  /** Outbound peers still missing to the minimum, pending dials included. */
  function NeededOutbound(s: Slots, cfg: Config): nat {
    SaturatingSub(SaturatingSub(cfg.outboundMin, |OutboundPeers(s.peers)|), |s.pending|)
  }

  function Candidates(s: Slots): set<Peer> {
    set p | p in s.known && p !in s.pending && p !in s.peers
  }

  function Prefix<T>(s: seq<T>, n: nat): seq<T> {
    if n < |s| then s[..n] else s
  }

  /** `on_driver_tick`; `evictOrder` is the map's iteration order and `dialOrder` the shuffled candidates. */
  function Tick(s: Slots, cfg: Config, now: nat, evictOrder: seq<Peer>, dialOrder: seq<Peer>): Slots {
    var s1 := UpdateOnPeriods(s, cfg, now);
    s1.(events := s1.events + Closes(evictOrder) + Dials(Prefix(dialOrder, NeededOutbound(s1, cfg))))
  }

  /** The orders are orders of what the tick looks at. */
  ghost predicate OrdersFit(s: Slots, cfg: Config, now: nat, evictOrder: seq<Peer>, dialOrder: seq<Peer>) {
    var s1 := UpdateOnPeriods(s, cfg, now);
    IsOrderOf(evictOrder, Evictable(s1, cfg, now)) && IsOrderOf(dialOrder, Candidates(s1))
  }

  function Pop(s: Slots): (Slots, Option<ToSwarm>) {
    if s.events == [] then (s, None) else (s.(events := s.events[1..]), Some(s.events[0]))
  }

  /** `poll`: undelivered events first; only then may the driver tick. */
  function Poll(s: Slots, cfg: Config, now: nat, due: bool, evictOrder: seq<Peer>, dialOrder: seq<Peer>): (Slots, Option<ToSwarm>) {
    if s.events != [] || !due then Pop(s) else Pop(Tick(s, cfg, now, evictOrder, dialOrder))
  }

  class Behaviour {
    const cfg: Config
    const pending: ConnectionMap
    var peers: Peers
    var events: seq<ToSwarm>
    var known: set<Peer>
    var gauges: Gauges

    function View(): Slots
      reads this, pending
    {
      Slots(pending.inner, peers, events, known, gauges)
    }

    constructor (cfg: Config)
      ensures this.cfg == cfg && fresh(pending) && View() == Slots(map[], map[], [], {}, Gauges(0, 0, 0))
    {
      this.cfg := cfg;
      var connections := new ConnectionMap();
      pending := connections;
      peers := map[];
      events := [];
      known := {};
      gauges := Gauges(0, 0, 0);
    }

    method Add(now: nat, peer: Peer, c: Connection, transport: Direction) returns (error: Option<SlotError>)
      modifies this
      ensures (View(), error) == AddConnection(old(View()), cfg, now, peer, c, transport)
    {
      var direction := transport;
      if peer in peers {
        match peers[peer] {
          case Connected(connections, d) =>
            peers := peers[peer := Connected(connections + {c}, d)];
            return None;
          case JustDisconnected(_, Inbound(_)) =>
            return Some(ActiveBackoffPeriod);
          case JustDisconnected(_, Outbound) =>
            direction := Outbound;
            peers := peers - {peer};
        }
      }
      var limit, count := cfg.outboundMax, |OutboundPeers(peers)|;
      if direction.Inbound? {
        limit, count := cfg.inboundMax, |InboundPeers(peers)|;
      }
      var overflowing :=
        direction.Inbound? && count >= limit && SaturatingSub(cfg.inboundMax + cfg.inboundOverflowing, count) > 0;
      if count >= limit && !overflowing {
        return Some(LimitExceeded(limit, direction));
      }
      if overflowing {
        direction := Inbound(Overflowing(now));
      }
      gauges := Increment(gauges, direction);
      peers := peers[peer := Connected({c}, direction)];
      error := None;
    }

    /** `tracked` says whether the peer had an entry. */
    method Remove(now: nat, peer: Peer, c: Connection) returns (tracked: bool)
      modifies this
      ensures View() == RemoveConnection(old(View()), now, peer, c)
      ensures tracked <==> peer in old(peers)
    {
      if peer !in peers {
        return false;
      }
      if peers[peer].Connected? {
        var d := peers[peer].direction;
        peers := peers[peer := Connected(peers[peer].connections - {c}, d)];
        if peers[peer].connections != {} {
          return true;
        }
        gauges := Decrement(gauges, d);
        peers := peers[peer := JustDisconnected(now, d)];
      }
      tracked := true;
    }

    /** `report_peer_action`; a peer without an entry is a panic, which changes nothing. */
    method ReportPeerAction(now: nat, peer: Peer) returns (panicked: bool)
      modifies this
      ensures panicked <==> peer !in old(peers)
      ensures View() == if panicked then old(View()) else ReportAction(old(View()), now, peer)
    {
      if peer !in peers {
        return true;
      }
      match peers[peer] {
        case Connected(connections, Inbound(Overflowing(_))) =>
          peers := peers[peer := Connected(connections, Inbound(Overflowing(now)))];
        case _ =>
      }
      panicked := false;
    }

    method AddPending(peer: Peer, c: Connection) returns (error: Option<SlotError>)
      modifies pending
      ensures (View(), error) == AddPendingOutbound(old(View()), cfg, peer, c)
    {
      if peer in peers {
        if peers[peer].JustDisconnected? {
          return Some(ActiveBackoffPeriod);
        }
        return None;
      }
      if |OutboundPeers(peers)| >= cfg.outboundMax {
        return Some(LimitExceeded(cfg.outboundMax, Outbound));
      }
      var _ := pending.AddConnection(peer, c);
      error := None;
    }

    method HandleEstablishedOutbound(now: nat, peer: Peer, c: Connection) returns (error: Option<SlotError>)
      modifies this, pending
      ensures (View(), error) == EstablishOutbound(old(View()), cfg, now, peer, c)
    {
      pending.RemoveConnection(peer, c);
      error := Add(now, peer, c, Outbound);
    }

    method OnDriverTick(now: nat, evictOrder: seq<Peer>, dialOrder: seq<Peer>)
      requires OrdersFit(View(), cfg, now, evictOrder, dialOrder)
      modifies this
      ensures View() == Tick(old(View()), cfg, now, evictOrder, dialOrder)
    {
      peers := map p | p in peers && (peers[p].Connected? || now <= peers[p].at + cfg.backoff) :: peers[p];
      for i := 0 to |evictOrder|
        invariant peers == UpdateOnPeriods(old(View()), cfg, now).peers && known == old(known) && gauges == old(gauges)
        invariant events == old(events) + Closes(evictOrder[..i])
      {
        events := events + [CloseAll(evictOrder[i])];
      }
      assert evictOrder[..|evictOrder|] == evictOrder;
      var needed := SaturatingSub(SaturatingSub(cfg.outboundMin, |OutboundPeers(peers)|), |pending.inner|);
      var dialled := Prefix(dialOrder, needed);
      ghost var closed := events;
      for i := 0 to |dialled|
        invariant peers == UpdateOnPeriods(old(View()), cfg, now).peers && known == old(known) && gauges == old(gauges)
        invariant events == closed + Dials(dialled[..i])
      {
        events := events + [Dial(dialled[i])];
      }
      assert dialled[..|dialled|] == dialled;
    }

    method PollNext(now: nat, due: bool, evictOrder: seq<Peer>, dialOrder: seq<Peer>) returns (out: Option<ToSwarm>)
      requires OrdersFit(View(), cfg, now, evictOrder, dialOrder)
      modifies this
      ensures (View(), out) == Poll(old(View()), cfg, now, due, evictOrder, dialOrder)
    {
      if events == [] && due {
        OnDriverTick(now, evictOrder, dialOrder);
      }
      if events == [] {
        return None;
      }
      out := Some(events[0]);
      events := events[1..];
    }
  }
}
