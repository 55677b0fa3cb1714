/**
 Capacity, class and scheduling guarantees of the slot manager over every
 sequence of connection, close, dial, failure and tick events.
 */
module SlotsRuns {
  import opened Base
  import opened Slots

  datatype World = World(s: Slots, clock: nat)

  datatype Event =
    | EstablishedInbound(peer: Peer, connection: Connection)
    | PendingOutbound(peer: Peer, connection: Connection)
    | EstablishedOutbound(peer: Peer, connection: Connection)
    | ConnectionClosed(peer: Peer, connection: Connection)
    | DialFailure(peer: Peer, connection: Connection)
    | PeerAction(peer: Peer)
    | AddressesChanged(known: set<Peer>)
    | Polled(due: bool, evictOrder: seq<Peer>, dialOrder: seq<Peer>)

  /** Reporting an action of a peer without an entry is a panic. */
  predicate Panics(s: Slots, e: Event) {
    e.PeerAction? && e.peer !in s.peers
  }

  function Next(cfg: Config, s: Slots, now: nat, e: Event): Slots
    requires !Panics(s, e)
  {
    match e
    case EstablishedInbound(peer, c) => AddConnection(s, cfg, now, peer, c, Inbound(Normal)).0
    case PendingOutbound(peer, c) => AddPendingOutbound(s, cfg, peer, c).0
    case EstablishedOutbound(peer, c) => EstablishOutbound(s, cfg, now, peer, c).0
    case ConnectionClosed(peer, c) => RemoveConnection(s, now, peer, c)
    case DialFailure(peer, c) => s.(pending := WithoutConnection(s.pending, peer, c))
    case PeerAction(peer) => ReportAction(s, now, peer)
    case AddressesChanged(known) => s.(known := known)
    case Polled(due, evictOrder, dialOrder) => Poll(s, cfg, now, due, evictOrder, dialOrder).0
  }

  /** Time does not go back, a poll iterates over what is there, and a panic ends the run. */
  ghost predicate Allowed(cfg: Config, w: World, now: nat, e: Event) {
    w.clock <= now && !Panics(w.s, e) && (e.Polled? ==> OrdersFit(w.s, cfg, now, e.evictOrder, e.dialOrder))
  }

  ghost predicate Follows(cfg: Config, w: World, e: Event, w': World) {
    Allowed(cfg, w, w'.clock, e) && w'.s == Next(cfg, w.s, w'.clock, e)
  }

  ghost predicate IsRun(cfg: Config, worlds: seq<World>, events: seq<Event>) {
    && |worlds| == |events| + 1
    && worlds[0].s == Slots(map[], map[], [], worlds[0].s.known, Gauges(0, 0, 0))
    && forall i :: 0 <= i < |events| ==> Follows(cfg, worlds[i], events[i], worlds[i + 1])
  }

  // ---------------------------------------------------------------------
  // Capacity

  /** The peers counted against the normal inbound limit. */
  function NormalPeers(peers: Peers): set<Peer> {
    set p | p in InboundPeers(peers) && peers[p].direction.kind.Normal?
  }

  predicate Stamped(state: PeerState, clock: nat) {
    match state
    case Connected(connections, direction) =>
      connections != {} && (direction.Inbound? && direction.kind.Overflowing? ==> direction.kind.latestAction <= clock)
    case JustDisconnected(at, _) => at <= clock
  }

  ghost predicate Safe(cfg: Config, w: World) {
    var peers := w.s.peers;
    && |InboundPeers(peers)| <= cfg.inboundMax + cfg.inboundOverflowing
    && |NormalPeers(peers)| <= cfg.inboundMax
    && |OutboundPeers(peers)| <= cfg.outboundMax
    && w.s.gauges == Gauges(|InboundPeers(peers)|, |OverflowingPeers(peers)|, |OutboundPeers(peers)|)
    && (forall p :: p in peers ==> Stamped(peers[p], w.clock))
    && (forall p :: p in w.s.pending ==> w.s.pending[p] != {})
  }

  /** A peer that counts nowhere: no entry, or a backoff entry. */
  predicate Uncounted(peers: Peers, p: Peer) {
    p in peers ==> peers[p].JustDisconnected?
  }

  /** Connecting an uncounted peer adds it to its class, and to no other. */
  lemma ClassConnected(peers: Peers, p: Peer, c: set<Connection>, d: Direction)
    requires Uncounted(peers, p)
    ensures var after := peers[p := Connected(c, d)];
      && InboundPeers(after) == InboundPeers(peers) + (if d.Inbound? then {p} else {})
      && OverflowingPeers(after) == OverflowingPeers(peers) + (if d.Inbound? && d.kind.Overflowing? then {p} else {})
      && OutboundPeers(after) == OutboundPeers(peers) + (if d.Outbound? then {p} else {})
      && NormalPeers(after) == NormalPeers(peers) + (if d == Inbound(Normal) then {p} else {})
      && p !in InboundPeers(peers) && p !in OutboundPeers(peers) && p !in OverflowingPeers(peers) && p !in NormalPeers(peers)
  {
  }

  /** The same in numbers. */
  lemma CountConnected(peers: Peers, p: Peer, c: set<Connection>, d: Direction)
    requires Uncounted(peers, p)
    ensures var after := peers[p := Connected(c, d)];
      && |InboundPeers(after)| == |InboundPeers(peers)| + (if d.Inbound? then 1 else 0)
      && |OverflowingPeers(after)| == |OverflowingPeers(peers)| + (if d.Inbound? && d.kind.Overflowing? then 1 else 0)
      && |NormalPeers(after)| == |NormalPeers(peers)| + (if d == Inbound(Normal) then 1 else 0)
      && |OutboundPeers(after)| == |OutboundPeers(peers)| + (if d.Outbound? then 1 else 0)
  {
    hide InboundPeers;
    hide OverflowingPeers;
    hide OutboundPeers;
    hide NormalPeers;
    ClassConnected(peers, p, c, d);
    SizeWith(InboundPeers(peers), p, d.Inbound?);
    SizeWith(OverflowingPeers(peers), p, d.Inbound? && d.kind.Overflowing?);
    SizeWith(NormalPeers(peers), p, d == Inbound(Normal));
    SizeWith(OutboundPeers(peers), p, d.Outbound?);
  }

  lemma SizeWith<T>(s: set<T>, x: T, included: bool)
    requires x !in s
    ensures |s + (if included then {x} else {})| == |s| + (if included then 1 else 0)
  {
    assert s + {} == s;
  }

  /** An entry of the same class, or a change between uncounted entries, changes no count. */
  lemma CountKept(peers: Peers, after: Peers)
    requires forall p :: (p in peers && peers[p].Connected?) <==> (p in after && after[p].Connected?)
    requires forall p :: p in peers && peers[p].Connected? ==> SameClass(peers[p].direction, after[p].direction)
    ensures InboundPeers(after) == InboundPeers(peers) && OverflowingPeers(after) == OverflowingPeers(peers)
    ensures OutboundPeers(after) == OutboundPeers(peers) && NormalPeers(after) == NormalPeers(peers)
  {
  }

  /** Same logical direction, and same kind of inbound slot. */
  predicate SameClass(d: Direction, e: Direction) {
    d.Inbound? == e.Inbound? && (d.Inbound? ==> d.kind.Overflowing? == e.kind.Overflowing?)
  }

  lemma AdmitKeeps(cfg: Config, w: World, now: nat, peer: Peer, c: Connection, d: Direction)
    requires Safe(cfg, w) && w.clock <= now && Uncounted(w.s.peers, peer) && (d.Inbound? ==> d.kind.Normal?)
    ensures Safe(cfg, World(Admit(w.s, cfg, now, peer, c, d).0, now))
  {
    hide InboundPeers;
    hide OverflowingPeers;
    hide OutboundPeers;
    NormalAreInbound(w.s.peers);
    match Admission(cfg, w.s.peers, now, d) {
      case Err(_) =>
      case Ok(admitted) => CountConnected(w.s.peers, peer, {c}, admitted);
    }
  }

  lemma NormalAreInbound(peers: Peers)
    ensures |NormalPeers(peers)| <= |InboundPeers(peers)|
  {
    SubsetSize(NormalPeers(peers), InboundPeers(peers));
  }

  lemma DropKeeps(cfg: Config, w: World, peer: Peer)
    requires Safe(cfg, w) && Uncounted(w.s.peers, peer)
    ensures Safe(cfg, w.(s := w.s.(peers := w.s.peers - {peer})))
  {
    CountKept(w.s.peers, w.s.peers - {peer});
  }

  lemma AddConnectionKeeps(cfg: Config, w: World, now: nat, peer: Peer, c: Connection, d: Direction)
    requires Safe(cfg, w) && w.clock <= now && (d.Inbound? ==> d.kind.Normal?)
    ensures Safe(cfg, World(AddConnection(w.s, cfg, now, peer, c, d).0, now))
  {
    if peer !in w.s.peers {
      AdmitKeeps(cfg, w, now, peer, c, d);
    } else {
      match w.s.peers[peer] {
        case Connected(connections, direction) =>
          CountKept(w.s.peers, w.s.peers[peer := Connected(connections + {c}, direction)]);
        case JustDisconnected(_, Inbound(_)) =>
        case JustDisconnected(_, Outbound) =>
          DropKeeps(cfg, w, peer);
          AdmitKeeps(cfg, w.(s := w.s.(peers := w.s.peers - {peer})), now, peer, c, Outbound);
      }
    }
  }

  lemma RemoveConnectionKeeps(cfg: Config, w: World, now: nat, peer: Peer, c: Connection)
    requires Safe(cfg, w) && w.clock <= now
    ensures Safe(cfg, World(RemoveConnection(w.s, now, peer, c), now))
  {
    hide InboundPeers;
    hide OverflowingPeers;
    hide OutboundPeers;
    hide NormalPeers;
    if peer in w.s.peers && w.s.peers[peer].Connected? {
      var Connected(connections, d) := w.s.peers[peer];
      if connections - {c} != {} {
        CountKept(w.s.peers, w.s.peers[peer := Connected(connections - {c}, d)]);
      } else {
        var after := w.s.peers[peer := JustDisconnected(now, d)];
        CountConnected(after, peer, connections, d);
        assert after[peer := Connected(connections, d)] == w.s.peers;
      }
    }
  }

  lemma SubsetSize<T>(a: set<T>, b: set<T>)
    requires a <= b
    ensures |a| <= |b|
  {
    assert b == a + (b - a);
  }

  lemma PollKeeps(cfg: Config, w: World, now: nat, due: bool, evictOrder: seq<Peer>, dialOrder: seq<Peer>)
    requires Safe(cfg, w) && w.clock <= now
    ensures Safe(cfg, World(Poll(w.s, cfg, now, due, evictOrder, dialOrder).0, now))
  {
    hide InboundPeers;
    hide OverflowingPeers;
    hide OutboundPeers;
    hide NormalPeers;
    CountKept(w.s.peers, UpdateOnPeriods(w.s, cfg, now).peers);
  }

  lemma ActionKeeps(cfg: Config, w: World, now: nat, peer: Peer)
    requires Safe(cfg, w) && w.clock <= now && peer in w.s.peers
    ensures Safe(cfg, World(ReportAction(w.s, now, peer), now))
  {
    hide InboundPeers;
    hide OverflowingPeers;
    hide OutboundPeers;
    hide NormalPeers;
    CountKept(w.s.peers, ReportAction(w.s, now, peer).peers);
  }

  /** Pending dials and known addresses count nowhere. */
  lemma PendingKeeps(cfg: Config, w: World, now: nat, pending: Connections, known: set<Peer>)
    requires Safe(cfg, w) && w.clock <= now && forall p :: p in pending ==> pending[p] != {}
    ensures Safe(cfg, World(w.s.(pending := pending, known := known), now))
  {
  }

  lemma NextKeeps(cfg: Config, w: World, now: nat, e: Event)
    requires Safe(cfg, w) && w.clock <= now && !Panics(w.s, e)
    ensures Safe(cfg, World(Next(cfg, w.s, now, e), now))
  {
    hide InboundPeers;
    hide OverflowingPeers;
    hide OutboundPeers;
    hide NormalPeers;
    hide AddConnection;
    hide RemoveConnection;
    hide ReportAction;
    hide Poll;
    match e {
      case EstablishedInbound(peer, c) => AddConnectionKeeps(cfg, w, now, peer, c, Inbound(Normal));
      case PendingOutbound(peer, c) =>
        PendingKeeps(cfg, w, now, w.s.pending, w.s.known);
        PendingKeeps(cfg, w, now, WithConnection(w.s.pending, peer, c), w.s.known);
      case EstablishedOutbound(peer, c) =>
        PendingKeeps(cfg, w, w.clock, WithoutConnection(w.s.pending, peer, c), w.s.known);
        AddConnectionKeeps(cfg, w.(s := w.s.(pending := WithoutConnection(w.s.pending, peer, c))), now, peer, c, Outbound);
      case ConnectionClosed(peer, c) => RemoveConnectionKeeps(cfg, w, now, peer, c);
      case DialFailure(peer, c) => PendingKeeps(cfg, w, now, WithoutConnection(w.s.pending, peer, c), w.s.known);
      case PeerAction(peer) => ActionKeeps(cfg, w, now, peer);
      case AddressesChanged(known) => PendingKeeps(cfg, w, now, w.s.pending, known);
      case Polled(due, evictOrder, dialOrder) => PollKeeps(cfg, w, now, due, evictOrder, dialOrder);
    }
  }

  /** Main result on capacity: in every state of every run the limits hold, every connected peer has a
      connection, and the gauges are the true counts. */
  lemma {:induction false} EveryRunIsSafe(cfg: Config, worlds: seq<World>, events: seq<Event>, n: nat)
    requires IsRun(cfg, worlds, events) && n < |worlds|
    ensures Safe(cfg, worlds[n])
  {
    if n > 0 {
      var i := n - 1;
      EveryRunIsSafe(cfg, worlds, events, i);
      assert Follows(cfg, worlds[i], events[i], worlds[i + 1]);
      NextKeeps(cfg, worlds[i], worlds[i + 1].clock, events[i]);
    }
  }

  // ---------------------------------------------------------------------
  // The class of a peer

  function ClassOf(state: PeerState): bool {
    state.direction.Inbound?
  }

  /** The two ways an entry goes away: a tick strictly past the backoff, or an outbound-class peer whose
      reconnect finds all outbound slots taken. */
  predicate Forgets(cfg: Config, s: Slots, now: nat, e: Event, p: Peer)
    requires p in s.peers
  {
    && s.peers[p].JustDisconnected?
    && (|| (e.Polled? && e.due && s.events == [] && now > s.peers[p].at + cfg.backoff)
        || ((e.EstablishedInbound? || e.EstablishedOutbound?) && e.peer == p && s.peers[p].direction.Outbound? &&
            |OutboundPeers(s.peers)| >= cfg.outboundMax))
  }

  lemma DroppingBackoff(peers: Peers, p: Peer)
    requires p in peers && peers[p].JustDisconnected?
    ensures OutboundPeers(peers - {p}) == OutboundPeers(peers)
  {
  }

  lemma ConnectFate(cfg: Config, s: Slots, now: nat, q: Peer, c: Connection, d: Direction, p: Peer)
    requires p in s.peers
    ensures var after := AddConnection(s, cfg, now, q, c, d).0.peers;
      && (p !in after <==>
          (q == p && s.peers[p].JustDisconnected? && s.peers[p].direction.Outbound? &&
           |OutboundPeers(s.peers)| >= cfg.outboundMax))
      && (p in after ==> ClassOf(after[p]) == ClassOf(s.peers[p]))
  {
    hide InboundPeers, OutboundPeers;
    if s.peers[p].JustDisconnected? {
      DroppingBackoff(s.peers, p);
    }
  }

  lemma PollFate(cfg: Config, s: Slots, now: nat, due: bool, evictOrder: seq<Peer>, dialOrder: seq<Peer>, p: Peer)
    requires p in s.peers
    ensures var after := Poll(s, cfg, now, due, evictOrder, dialOrder).0.peers;
      && (p !in after <==> due && s.events == [] && s.peers[p].JustDisconnected? && now > s.peers[p].at + cfg.backoff)
      && (p in after ==> after[p] == s.peers[p])
  {
  }

  /** One event: an entry keeps its class, whatever the transport direction of a reconnect, and goes away exactly
      when one of the two ways applies. */
  lemma EntryFate(cfg: Config, s: Slots, now: nat, e: Event, p: Peer)
    requires p in s.peers && !Panics(s, e)
    ensures var after := Next(cfg, s, now, e).peers;
      && (p !in after <==> Forgets(cfg, s, now, e, p))
      && (p in after ==> ClassOf(after[p]) == ClassOf(s.peers[p]))
  {
    hide OutboundPeers, AddConnection, Poll;
    match e {
      case EstablishedInbound(q, c) => ConnectFate(cfg, s, now, q, c, Inbound(Normal), p);
      case EstablishedOutbound(q, c) =>
        ConnectFate(cfg, s.(pending := WithoutConnection(s.pending, q, c)), now, q, c, Outbound, p);
      case Polled(due, evictOrder, dialOrder) => PollFate(cfg, s, now, due, evictOrder, dialOrder, p);
      case _ =>
    }
  }

  /** While a peer has an entry its class never changes. */
  lemma {:induction false} ClassNeverChanges(cfg: Config, worlds: seq<World>, events: seq<Event>, p: Peer, i: nat, j: nat)
    requires IsRun(cfg, worlds, events) && i <= j < |worlds|
    requires forall k :: i <= k <= j ==> p in worlds[k].s.peers
    ensures ClassOf(worlds[j].s.peers[p]) == ClassOf(worlds[i].s.peers[p])
    decreases j - i
  {
    if i < j {
      var k := j - 1;
      assert Follows(cfg, worlds[k], events[k], worlds[k + 1]);
      EntryFate(cfg, worlds[k].s, worlds[j].clock, events[k], p);
      ClassNeverChanges(cfg, worlds, events, p, i, k);
    }
  }

  /** The peer is in backoff since `at`, with this class. */
  predicate InBackoff(s: Slots, p: Peer, at: nat, d: Direction) {
    p in s.peers && s.peers[p] == JustDisconnected(at, d)
  }

  lemma BackoffStays(cfg: Config, s: Slots, now: nat, e: Event, p: Peer, at: nat, d: Direction)
    requires InBackoff(s, p, at, d) && !Panics(s, e) && !Forgets(cfg, s, now, e, p)
    requires d.Inbound? || !((e.EstablishedInbound? || e.EstablishedOutbound?) && e.peer == p)
    ensures InBackoff(Next(cfg, s, now, e), p, at, d)
  {
    hide InboundPeers, OutboundPeers, OverflowingPeers;
  }

  /** In every run: an inbound-class peer in backoff stays in it, whatever happens, until a tick strictly past the backoff
      period; and until then every connection and every dial is refused and changes nothing. */
  lemma {:induction false} BackoffRefuses(
    cfg: Config, worlds: seq<World>, events: seq<Event>, i: nat, n: nat, p: Peer, at: nat, d: Direction)
    requires IsRun(cfg, worlds, events) && i <= n < |worlds| && InBackoff(worlds[i].s, p, at, d) && d.Inbound?
    requires forall k :: i <= k < n ==> !(events[k].Polled? && events[k].due && worlds[k + 1].clock > at + cfg.backoff)
    ensures InBackoff(worlds[n].s, p, at, d)
    ensures forall now, c, transport ::
      AddConnection(worlds[n].s, cfg, now, p, c, transport) == (worlds[n].s, Some(ActiveBackoffPeriod))
    ensures forall c :: AddPendingOutbound(worlds[n].s, cfg, p, c) == (worlds[n].s, Some(ActiveBackoffPeriod))
    decreases n - i
  {
    hide Next, Forgets, AddConnection, AddPendingOutbound, Panics;
    if i < n {
      var k := n - 1;
      BackoffRefuses(cfg, worlds, events, i, k, p, at, d);
      assert Follows(cfg, worlds[k], events[k], worlds[k + 1]);
      NotForgotten(cfg, worlds[k].s, worlds[n].clock, events[k], p, at, d);
      BackoffStays(cfg, worlds[k].s, worlds[n].clock, events[k], p, at, d);
    }
    BackoffAnswers(cfg, worlds[n].s, p, at, d);
  }

  lemma NotForgotten(cfg: Config, s: Slots, now: nat, e: Event, p: Peer, at: nat, d: Direction)
    requires InBackoff(s, p, at, d) && d.Inbound? && !(e.Polled? && e.due && now > at + cfg.backoff)
    ensures !Forgets(cfg, s, now, e, p)
  {
  }

  lemma BackoffAnswers(cfg: Config, s: Slots, p: Peer, at: nat, d: Direction)
    requires InBackoff(s, p, at, d) && d.Inbound?
    ensures forall now, c, transport :: AddConnection(s, cfg, now, p, c, transport) == (s, Some(ActiveBackoffPeriod))
    ensures forall c :: AddPendingOutbound(s, cfg, p, c) == (s, Some(ActiveBackoffPeriod))
  {
  }

  /** The class that a connection of the peer has: that of its entry, or else the transport direction. */
  function ClassWith(s: Slots, p: Peer, d: Direction): bool {
    if p in s.peers then ClassOf(s.peers[p]) else d.Inbound?
  }

  /** No slot for a peer that is not connected: an inbound-class peer in backoff, or the gauges at the limit. */
  predicate NoSlot(cfg: Config, s: Slots, p: Peer, d: Direction) {
    if ClassWith(s, p, d) then p in s.peers || s.gauges.inbound >= cfg.inboundMax + cfg.inboundOverflowing
    else s.gauges.outbound >= cfg.outboundMax
  }

  /** Why a peer that is not connected is refused: its backoff, or the limit of its class. */
  function Refusal(cfg: Config, s: Slots, p: Peer, d: Direction): SlotError {
    if !ClassWith(s, p, d) then LimitExceeded(cfg.outboundMax, Outbound)
    else if p in s.peers then ActiveBackoffPeriod
    else LimitExceeded(cfg.inboundMax, Inbound(Normal))
  }

  /** A connection is refused if and only if the peer is not connected and there is no slot for its class, and for that
      reason; otherwise the peer is connected with it, in that class, normal inbound exactly below the normal limit; no
      other peer is affected, and nothing but peers and gauges. */
  ghost predicate AnswersRight(cfg: Config, s: Slots, now: nat, p: Peer, c: Connection, d: Direction) {
    var (after, error) := AddConnection(s, cfg, now, p, c, d);
    && error == (if !(p in s.peers && s.peers[p].Connected?) && NoSlot(cfg, s, p, d) then Some(Refusal(cfg, s, p, d)) else None)
    && (error.None? ==>
          && p in after.peers && after.peers[p].Connected? && c in after.peers[p].connections
          && ClassOf(after.peers[p]) == ClassWith(s, p, d)
          && (p !in s.peers && d.Inbound? ==>
                (after.peers[p].direction.kind.Normal? <==> s.gauges.inbound < cfg.inboundMax)))
    && (error.Some? && p !in s.peers ==> p !in after.peers)
    && (forall q :: q != p ==> Lookup(after.peers, q) == Lookup(s.peers, q))
    && after == s.(peers := after.peers, gauges := after.gauges)
  }

  lemma SafeAnswersRight(cfg: Config, w: World, now: nat, p: Peer, c: Connection, d: Direction)
    requires Safe(cfg, w) && (d == Inbound(Normal) || d == Outbound)
    ensures AnswersRight(cfg, w.s, now, p, c, d)
  {
    hide InboundPeers, OutboundPeers, OverflowingPeers, NormalPeers;
    if p in w.s.peers && w.s.peers[p].JustDisconnected? {
      DroppingBackoff(w.s.peers, p);
    }
  }

  /** In every state of every run, every connection of either direction is answered right. */
  lemma ConnectionFate(
    cfg: Config, worlds: seq<World>, events: seq<Event>, n: nat, now: nat, p: Peer, c: Connection, d: Direction)
    requires IsRun(cfg, worlds, events) && n < |worlds| && (d == Inbound(Normal) || d == Outbound)
    ensures AnswersRight(cfg, worlds[n].s, now, p, c, d)
  {
    EveryRunIsSafe(cfg, worlds, events, n);
    SafeAnswersRight(cfg, worlds[n], now, p, c, d);
  }

  // ---------------------------------------------------------------------
  // What a tick schedules

  /** What a step schedules: a tick happens only with nothing undelivered. */
  function Schedules(cfg: Config, s: Slots, now: nat, e: Event): seq<ToSwarm> {
    if e.Polled? && e.due && s.events == [] then Tick(s, cfg, now, e.evictOrder, e.dialOrder).events else []
  }

  /** What a step delivers to the swarm. */
  function Delivers(cfg: Config, s: Slots, now: nat, e: Event): seq<ToSwarm> {
    if e.Polled? then AsSeq(Poll(s, cfg, now, e.due, e.evictOrder, e.dialOrder).1) else []
  }

  function Scheduled(cfg: Config, worlds: seq<World>, events: seq<Event>, n: nat): seq<ToSwarm>
    requires n <= |events| < |worlds|
  {
    if n == 0 then []
    else Scheduled(cfg, worlds, events, n - 1) + Schedules(cfg, worlds[n - 1].s, worlds[n].clock, events[n - 1])
  }

  function Delivered(cfg: Config, worlds: seq<World>, events: seq<Event>, n: nat): seq<ToSwarm>
    requires n <= |events| < |worlds|
  {
    if n == 0 then []
    else Delivered(cfg, worlds, events, n - 1) + Delivers(cfg, worlds[n - 1].s, worlds[n].clock, events[n - 1])
  }

  lemma PollDelivers(cfg: Config, s: Slots, now: nat, due: bool, evictOrder: seq<Peer>, dialOrder: seq<Peer>)
    ensures var (after, out) := Poll(s, cfg, now, due, evictOrder, dialOrder);
      AsSeq(out) + after.events ==
      s.events + if due && s.events == [] then Tick(s, cfg, now, evictOrder, dialOrder).events else []
  {
    hide Tick;
    assert s.events + [] == s.events && [] + s.events == s.events;
  }

  lemma AddKeepsEvents(cfg: Config, s: Slots, now: nat, p: Peer, c: Connection, d: Direction)
    ensures AddConnection(s, cfg, now, p, c, d).0.events == s.events
  {
    hide InboundPeers, OutboundPeers;
  }

  lemma StepDelivers(cfg: Config, s: Slots, now: nat, e: Event)
    requires !Panics(s, e)
    ensures Delivers(cfg, s, now, e) + Next(cfg, s, now, e).events == s.events + Schedules(cfg, s, now, e)
  {
    hide OutboundPeers, Tick, Poll, AddConnection;
    assert s.events + [] == s.events && [] + s.events == s.events;
    match e {
      case Polled(due, evictOrder, dialOrder) => PollDelivers(cfg, s, now, due, evictOrder, dialOrder);
      case EstablishedInbound(p, c) => AddKeepsEvents(cfg, s, now, p, c, Inbound(Normal));
      case EstablishedOutbound(p, c) =>
        AddKeepsEvents(cfg, s.(pending := WithoutConnection(s.pending, p, c)), now, p, c, Outbound);
      case _ =>
    }
  }

  /** In every run, closes and dials reach the swarm in the order in which ticks scheduled them, each once; what is still
      undelivered is the rest; and no tick happens before everything was delivered. */
  lemma {:induction false} DeliveryExact(cfg: Config, worlds: seq<World>, events: seq<Event>, n: nat)
    requires IsRun(cfg, worlds, events) && n < |worlds|
    ensures Delivered(cfg, worlds, events, n) + worlds[n].s.events == Scheduled(cfg, worlds, events, n)
    ensures n < |events| && Schedules(cfg, worlds[n].s, worlds[n + 1].clock, events[n]) != [] ==>
              Delivered(cfg, worlds, events, n) == Scheduled(cfg, worlds, events, n)
  {
    hide Schedules, Delivers, Next;
    if n > 0 {
      var k := n - 1;
      DeliveryExact(cfg, worlds, events, k);
      assert Follows(cfg, worlds[k], events[k], worlds[k + 1]);
      StepDelivers(cfg, worlds[k].s, worlds[n].clock, events[k]);
      var before, now := Delivered(cfg, worlds, events, k), worlds[n].clock;
      assert before + Delivers(cfg, worlds[k].s, now, events[k]) + worlds[n].s.events ==
             before + (Delivers(cfg, worlds[k].s, now, events[k]) + worlds[n].s.events);
      assert before + (worlds[k].s.events + Schedules(cfg, worlds[k].s, now, events[k])) ==
             before + worlds[k].s.events + Schedules(cfg, worlds[k].s, now, events[k]);
    }
    if n < |events| {
      OnlyWhenDelivered(cfg, worlds[n].s, worlds[n + 1].clock, events[n]);
      assert Delivered(cfg, worlds, events, n) + [] == Delivered(cfg, worlds, events, n);
    }
  }

  lemma OnlyWhenDelivered(cfg: Config, s: Slots, now: nat, e: Event)
    ensures Schedules(cfg, s, now, e) != [] ==> s.events == []
  {
  }

  lemma PrefixOfOrder(order: seq<Peer>, peers: set<Peer>, n: nat)
    requires IsOrderOf(order, peers)
    ensures var d := Prefix(order, n);
      Distinct(d) && Elements(d) <= peers && |d| == (if n < |peers| then n else |peers|)
  {
    DistinctSize(order);
  }

  lemma {:induction false} DistinctSize<T>(s: seq<T>)
    requires Distinct(s)
    ensures |Elements(s)| == |s|
  {
    if s != [] {
      var front, last := s[..|s| - 1], s[|s| - 1];
      DistinctSize(front);
      assert Elements(s) == Elements(front) + {last};
    }
  }

  /** Exactly the overflowing inbound peers idle strictly longer than the timeout, each once. */
  ghost predicate EvictsRight(cfg: Config, s: Slots, now: nat, evicted: seq<Peer>) {
    && Distinct(evicted)
    && forall p :: p in evicted <==>
      && p in s.peers && s.peers[p].Connected? && s.peers[p].direction.Inbound? && s.peers[p].direction.kind.Overflowing?
      && now > s.peers[p].direction.kind.latestAction + cfg.overflowingActionTimeout
  }

  /** Distinct peers that are known, not pending, not connected and not in backoff; as many as the outbound minimum still
      lacks, pending dials included, or as many as there are. */
  ghost predicate DialsRight(cfg: Config, s: Slots, after: Slots, dialled: seq<Peer>) {
    var candidates := set p | p in s.known && p !in s.pending && p !in after.peers;
    var active := |OutboundPeers(s.peers)| + |s.pending|;
    && Distinct(dialled) && Elements(dialled) <= candidates
    && |dialled| ==
       if active >= cfg.outboundMin then 0
       else if cfg.outboundMin - active < |candidates| then cfg.outboundMin - active else |candidates|
  }

  /** The events close the first peers and dial the second ones, in this order. */
  predicate ClosesAndDials(events: seq<ToSwarm>, closed: seq<Peer>, dialled: seq<Peer>) {
    && |events| == |closed| + |dialled|
    && (forall i :: 0 <= i < |closed| ==> events[i] == CloseAll(closed[i]))
    && (forall i :: 0 <= i < |dialled| ==> events[|closed| + i] == Dial(dialled[i]))
  }

  lemma EvictionsRight(cfg: Config, s: Slots, now: nat, evictOrder: seq<Peer>, dialOrder: seq<Peer>)
    requires OrdersFit(s, cfg, now, evictOrder, dialOrder)
    ensures EvictsRight(cfg, s, now, evictOrder)
  {
    var s1 := UpdateOnPeriods(s, cfg, now);
    forall p
      ensures p in evictOrder <==> p in Evictable(s1, cfg, now)
    {
      assert p in evictOrder <==> p in Elements(evictOrder);
    }
  }

  lemma DiallingRight(cfg: Config, s: Slots, now: nat, evictOrder: seq<Peer>, dialOrder: seq<Peer>)
    requires s.events == [] && OrdersFit(s, cfg, now, evictOrder, dialOrder)
    ensures var s1 := UpdateOnPeriods(s, cfg, now);
      DialsRight(cfg, s, Poll(s, cfg, now, true, evictOrder, dialOrder).0, Prefix(dialOrder, NeededOutbound(s1, cfg)))
  {
    var s1 := UpdateOnPeriods(s, cfg, now);
    CountKept(s.peers, s1.peers);
    hide InboundPeers, OutboundPeers, OverflowingPeers, NormalPeers, Evictable;
    PrefixOfOrder(dialOrder, Candidates(s1), NeededOutbound(s1, cfg));
    var after := Poll(s, cfg, now, true, evictOrder, dialOrder).0;
    assert after.peers == s1.peers;
    assert Candidates(s1) == set p | p in s.known && p !in s.pending && p !in after.peers;
  }

  /** A due tick: it closes exactly the overflowing inbound peers idle strictly longer than the timeout, each once;
      and it dials as many distinct peers as the outbound minimum still lacks (or as many as there are), all of
      them known, not pending, not connected and not in backoff. */
  lemma TickSchedules(cfg: Config, s: Slots, now: nat, evictOrder: seq<Peer>, dialOrder: seq<Peer>)
    requires s.events == [] && OrdersFit(s, cfg, now, evictOrder, dialOrder)
    ensures var (after, out) := Poll(s, cfg, now, true, evictOrder, dialOrder);
      exists dialled ::
        && ClosesAndDials(AsSeq(out) + after.events, evictOrder, dialled)
        && EvictsRight(cfg, s, now, evictOrder) && DialsRight(cfg, s, after, dialled)
  {
    var s1 := UpdateOnPeriods(s, cfg, now);
    assert s1.events == [];
    var dialled := Prefix(dialOrder, NeededOutbound(s1, cfg));
    EvictionsRight(cfg, s, now, evictOrder, dialOrder);
    DiallingRight(cfg, s, now, evictOrder, dialOrder);
    hide EvictsRight, DialsRight, UpdateOnPeriods, NeededOutbound, OrdersFit;
    var (after, out) := Poll(s, cfg, now, true, evictOrder, dialOrder);
    var all := Closes(evictOrder) + Dials(dialled);
    assert s1.events + Closes(evictOrder) + Dials(dialled) == all;
    assert AsSeq(out) + after.events == all;
    assert ClosesAndDials(all, evictOrder, dialled);
  }

  // ---------------------------------------------------------------------
  // Open connections are tracked

  /** One normal inbound slot and one in reserve. */
  const ONE_AND_ONE := Config(1, 1, 10, 0, 0, 5)

  predicate HasConnection(s: Slots, p: Peer, c: Connection) {
    p in s.peers && s.peers[p].Connected? && c in s.peers[p].connections
  }

  lemma ConnectionStays(cfg: Config, s: Slots, now: nat, e: Event, p: Peer, c: Connection)
    requires HasConnection(s, p, c) && !Panics(s, e) && e != ConnectionClosed(p, c)
    ensures HasConnection(Next(cfg, s, now, e), p, c)
  {
    hide InboundPeers, OutboundPeers, OverflowingPeers;
    if e.ConnectionClosed? && e.peer == p {
      assert c in s.peers[p].connections - {e.connection};
    }
  }

  /** In every run a connection that was accepted and not closed since is tracked; so reporting an action of a peer with
      such a connection does not panic. */
  lemma {:induction false} OpenConnectionTracked(
    cfg: Config, worlds: seq<World>, events: seq<Event>, i: nat, n: nat, p: Peer, c: Connection)
    requires IsRun(cfg, worlds, events) && i <= n < |worlds| && HasConnection(worlds[i].s, p, c)
    requires forall k :: i <= k < n ==> events[k] != ConnectionClosed(p, c)
    ensures HasConnection(worlds[n].s, p, c) && !Panics(worlds[n].s, PeerAction(p))
    decreases n - i
  {
    if i < n {
      var k := n - 1;
      OpenConnectionTracked(cfg, worlds, events, i, k, p, c);
      assert Follows(cfg, worlds[k], events[k], worlds[k + 1]);
      ConnectionStays(cfg, worlds[k].s, worlds[n].clock, events[k], p, c);
    }
  }

  /** A step gives a peer without an entry one: it connects, and there is a slot. */
  predicate Enters(cfg: Config, s: Slots, e: Event, p: Peer) {
    && p !in s.peers && (e.EstablishedInbound? || e.EstablishedOutbound?) && e.peer == p
    && !NoSlot(cfg, s, p, if e.EstablishedInbound? then Inbound(Normal) else Outbound)
  }

  lemma EntryStep(cfg: Config, w: World, now: nat, e: Event, p: Peer)
    requires Safe(cfg, w) && !Panics(w.s, e)
    ensures p in Next(cfg, w.s, now, e).peers <==>
            if p in w.s.peers then !Forgets(cfg, w.s, now, e, p) else Enters(cfg, w.s, e, p)
  {
    hide Safe, NoSlot, InboundPeers, OutboundPeers, OverflowingPeers, AddConnection;
    if p in w.s.peers {
      EntryFate(cfg, w.s, now, e, p);
    } else if e.EstablishedInbound? {
      SafeAnswersRight(cfg, w, now, e.peer, e.connection, Inbound(Normal));
      assert e.peer != p ==> Lookup(Next(cfg, w.s, now, e).peers, p) == Lookup(w.s.peers, p);
    } else if e.EstablishedOutbound? {
      var pending := WithoutConnection(w.s.pending, e.peer, e.connection);
      PendingOnly(cfg, w, e.peer, e.connection, e.peer);
      SafeAnswersRight(cfg, w.(s := w.s.(pending := pending)), now, e.peer, e.connection, Outbound);
      assert e.peer != p ==> Lookup(Next(cfg, w.s, now, e).peers, p) == Lookup(w.s.peers, p);
    }
  }

  lemma PendingOnly(cfg: Config, w: World, q: Peer, c: Connection, p: Peer)
    requires Safe(cfg, w)
    ensures var s := w.s.(pending := WithoutConnection(w.s.pending, q, c));
      Safe(cfg, w.(s := s)) && NoSlot(cfg, s, p, Outbound) == NoSlot(cfg, w.s, p, Outbound)
  {
  }

  /** The peer entered at some step before `n` and was not forgotten since. */
  ghost predicate EnteredBefore(cfg: Config, worlds: seq<World>, events: seq<Event>, n: nat, p: Peer)
    requires n <= |events| < |worlds|
  {
    exists k :: 0 <= k < n && Enters(cfg, worlds[k].s, events[k], p) &&
      forall j :: k < j < n && p in worlds[j].s.peers ==> !Forgets(cfg, worlds[j].s, worlds[j + 1].clock, events[j], p)
  }

  /** In every run a report of an action of a peer panics if and only if the peer never got an entry, or was forgotten
      since it last did. */
  lemma {:induction false} PanicsExactly(cfg: Config, worlds: seq<World>, events: seq<Event>, n: nat, p: Peer)
    requires IsRun(cfg, worlds, events) && n <= |events| < |worlds|
    ensures Panics(worlds[n].s, PeerAction(p)) <==> !EnteredBefore(cfg, worlds, events, n, p)
  {
    hide Enters, Forgets, Next, Safe;
    if n > 0 {
      var k := n - 1;
      PanicsExactly(cfg, worlds, events, k, p);
      EveryRunIsSafe(cfg, worlds, events, k);
      assert Follows(cfg, worlds[k], events[k], worlds[k + 1]);
      EntryStep(cfg, worlds[k], worlds[n].clock, events[k], p);
      EntersOnce(cfg, worlds[k].s, events[k], p);
      if EnteredBefore(cfg, worlds, events, k, p) && p in worlds[n].s.peers {
        var i :| 0 <= i < k && Enters(cfg, worlds[i].s, events[i], p) &&
          forall j :: i < j < k && p in worlds[j].s.peers ==> !Forgets(cfg, worlds[j].s, worlds[j + 1].clock, events[j], p);
        assert EnteredBefore(cfg, worlds, events, n, p);
      }
    }
  }

  lemma EntersOnce(cfg: Config, s: Slots, e: Event, p: Peer)
    ensures Enters(cfg, s, e, p) ==> p !in s.peers
  {
  }

  /** A peer connects, leaves and is forgotten by a tick past the backoff; then a report of its action panics. */
  lemma ForgottenPeerPanics()
    ensures var connected := Slots(map[], map[1 := Connected({1}, Inbound(Normal))], [], {}, Gauges(1, 0, 0));
      var left := Slots(map[], map[1 := JustDisconnected(0, Inbound(Normal))], [], {}, Gauges(0, 0, 0));
      var empty := Slots(map[], map[], [], {}, Gauges(0, 0, 0));
      var worlds := [World(empty, 0), World(connected, 0), World(left, 0), World(empty, 6)];
      var events := [EstablishedInbound(1, 1), ConnectionClosed(1, 1), Polled(true, [], [])];
      IsRun(ONE_AND_ONE, worlds, events) && Panics(worlds[3].s, PeerAction(1))
  {
    var connected := Slots(map[], map[1 := Connected({1}, Inbound(Normal))], [], {}, Gauges(1, 0, 0));
    var left := Slots(map[], map[1 := JustDisconnected(0, Inbound(Normal))], [], {}, Gauges(0, 0, 0));
    var empty := Slots(map[], map[], [], {}, Gauges(0, 0, 0));
    var worlds := [World(empty, 0), World(connected, 0), World(left, 0), World(empty, 6)];
    var events := [EstablishedInbound(1, 1), ConnectionClosed(1, 1), Polled(true, [], [])];
    assert InboundPeers(map[]) == {} && {1} - {1} == {};
    assert Follows(ONE_AND_ONE, worlds[0], events[0], worlds[1]);
    assert Follows(ONE_AND_ONE, worlds[1], events[1], worlds[2]) by {
      assert connected.peers[1 := JustDisconnected(0, Inbound(Normal))] == left.peers;
    }
    NothingToSchedule(left, 6);
    assert Follows(ONE_AND_ONE, worlds[2], events[2], worlds[3]);
  }

  lemma NothingToSchedule(s: Slots, now: nat)
    requires s.peers == map[1 := JustDisconnected(0, Inbound(Normal))] && s.known == {} && s.events == [] && now == 6
    ensures OrdersFit(s, ONE_AND_ONE, now, [], [])
    ensures Poll(s, ONE_AND_ONE, now, true, [], []) == (s.(peers := map[]), None)
  {
    assert UpdateOnPeriods(s, ONE_AND_ONE, now).peers == map[];
    assert Elements<Peer>([]) == {};
    assert Closes([]) == [] && Dials([]) == [];
  }

  // ---------------------------------------------------------------------
  // The overflow reserve

  predicate WithinReserve(cfg: Config, s: Slots) {
    |OverflowingPeers(s.peers)| <= cfg.inboundOverflowing
  }

  /** A new inbound peer gets an overflow slot while the reserve is used up, because a normal slot is free again. */
  predicate TakesExtraSlot(cfg: Config, s: Slots, e: Event) {
    && e.EstablishedInbound? && e.peer !in s.peers
    && s.gauges.overflowing == cfg.inboundOverflowing
    && cfg.inboundMax <= s.gauges.inbound < cfg.inboundMax + cfg.inboundOverflowing
  }

  /** Admitting a peer that counts nowhere. */
  lemma AdmitReserve(cfg: Config, w: World, now: nat, p: Peer, c: Connection, d: Direction)
    requires Safe(cfg, w) && p !in w.s.peers && (d == Inbound(Normal) || d == Outbound)
    ensures var after := Admit(w.s, cfg, now, p, c, d).0;
      |OverflowingPeers(after.peers)| == |OverflowingPeers(w.s.peers)| +
        if d.Inbound? && cfg.inboundMax <= w.s.gauges.inbound < cfg.inboundMax + cfg.inboundOverflowing then 1 else 0
  {
    hide InboundPeers, OutboundPeers, OverflowingPeers, NormalPeers;
    match Admission(cfg, w.s.peers, now, d) {
      case Err(_) =>
      case Ok(admitted) => CountConnected(w.s.peers, p, {c}, admitted);
    }
  }

  lemma ConnectReserve(cfg: Config, w: World, now: nat, p: Peer, c: Connection, d: Direction)
    requires Safe(cfg, w) && (d == Inbound(Normal) || d == Outbound)
    ensures var after := AddConnection(w.s, cfg, now, p, c, d).0;
      |OverflowingPeers(after.peers)| == |OverflowingPeers(w.s.peers)| +
        if p !in w.s.peers && d.Inbound? && cfg.inboundMax <= w.s.gauges.inbound < cfg.inboundMax + cfg.inboundOverflowing
        then 1 else 0
  {
    hide InboundPeers, OutboundPeers, OverflowingPeers, NormalPeers, Admit;
    if p !in w.s.peers {
      AdmitReserve(cfg, w, now, p, c, d);
    } else {
      match w.s.peers[p] {
        case Connected(connections, direction) =>
          CountKept(w.s.peers, w.s.peers[p := Connected(connections + {c}, direction)]);
        case JustDisconnected(_, Inbound(_)) =>
        case JustDisconnected(_, Outbound) =>
          CountKept(w.s.peers, w.s.peers - {p});
          DropKeeps(cfg, w, p);
          AdmitReserve(cfg, w.(s := w.s.(peers := w.s.peers - {p})), now, p, c, Outbound);
      }
    }
  }

  /** Every other event takes no overflow slot. */
  lemma OthersKeepReserve(cfg: Config, s: Slots, now: nat, e: Event)
    requires !Panics(s, e) && !e.EstablishedInbound? && !e.EstablishedOutbound?
    ensures OverflowingPeers(Next(cfg, s, now, e).peers) <= OverflowingPeers(s.peers)
  {
    hide OutboundPeers;
  }

  lemma SafeReserve(cfg: Config, w: World, now: nat, e: Event)
    requires Safe(cfg, w) && WithinReserve(cfg, w.s) && !Panics(w.s, e)
    ensures !WithinReserve(cfg, Next(cfg, w.s, now, e)) <==> TakesExtraSlot(cfg, w.s, e)
  {
    hide InboundPeers, OutboundPeers, OverflowingPeers, NormalPeers, AddConnection, RemoveConnection, Poll;
    if e.EstablishedInbound? {
      ConnectReserve(cfg, w, now, e.peer, e.connection, Inbound(Normal));
    } else if e.EstablishedOutbound? {
      var pending := WithoutConnection(w.s.pending, e.peer, e.connection);
      PendingKeeps(cfg, w, w.clock, pending, w.s.known);
      ConnectReserve(cfg, w.(s := w.s.(pending := pending)), now, e.peer, e.connection, Outbound);
    } else {
      OthersKeepReserve(cfg, w.s, now, e);
      SubsetSize(OverflowingPeers(Next(cfg, w.s, now, e).peers), OverflowingPeers(w.s.peers));
    }
  }

  /** In every run, from a state within the reserve, an event leads beyond it if and only if a new inbound peer takes an
      extra slot. */
  lemma ReserveExact(cfg: Config, worlds: seq<World>, events: seq<Event>, n: nat, now: nat, e: Event)
    requires IsRun(cfg, worlds, events) && n < |worlds| && Allowed(cfg, worlds[n], now, e)
    requires WithinReserve(cfg, worlds[n].s)
    ensures !WithinReserve(cfg, Next(cfg, worlds[n].s, now, e)) <==> TakesExtraSlot(cfg, worlds[n].s, e)
  {
    EveryRunIsSafe(cfg, worlds, events, n);
    SafeReserve(cfg, worlds[n], now, e);
  }

  /** Over a whole run: the reserve is never exceeded if and only if no event takes an extra slot. */
  lemma ReserveHolds(cfg: Config, worlds: seq<World>, events: seq<Event>)
    requires IsRun(cfg, worlds, events)
    ensures (forall n :: 0 <= n < |worlds| ==> WithinReserve(cfg, worlds[n].s)) <==>
            (forall i :: 0 <= i < |events| ==> !TakesExtraSlot(cfg, worlds[i].s, events[i]))
  {
    hide WithinReserve, TakesExtraSlot;
    if forall i :: 0 <= i < |events| ==> !TakesExtraSlot(cfg, worlds[i].s, events[i]) {
      forall n | 0 <= n < |worlds|
        ensures WithinReserve(cfg, worlds[n].s)
      {
        ReserveUpTo(cfg, worlds, events, n);
      }
    }
    if forall n :: 0 <= n < |worlds| ==> WithinReserve(cfg, worlds[n].s) {
      forall i | 0 <= i < |events|
        ensures !TakesExtraSlot(cfg, worlds[i].s, events[i])
      {
        assert Follows(cfg, worlds[i], events[i], worlds[i + 1]);
        ReserveExact(cfg, worlds, events, i, worlds[i + 1].clock, events[i]);
      }
    }
  }

  lemma {:induction false} ReserveUpTo(cfg: Config, worlds: seq<World>, events: seq<Event>, n: nat)
    requires IsRun(cfg, worlds, events) && n < |worlds|
    requires forall i :: 0 <= i < |events| ==> !TakesExtraSlot(cfg, worlds[i].s, events[i])
    ensures WithinReserve(cfg, worlds[n].s)
  {
    if n == 0 {
      assert OverflowingPeers(map[]) == {};
    } else {
      var i := n - 1;
      ReserveUpTo(cfg, worlds, events, i);
      assert Follows(cfg, worlds[i], events[i], worlds[i + 1]);
      ReserveExact(cfg, worlds, events, i, worlds[n].clock, events[i]);
    }
  }

  const TAKEOVER: seq<Event> :=
    [EstablishedInbound(1, 1), EstablishedInbound(2, 2), ConnectionClosed(1, 1), EstablishedInbound(3, 3)]

  /** The states of that run: two inbound peers, the first leaves, a third one comes. */
  const TAKEOVER_PEERS: seq<Peers> :=
    [map[],
     map[1 := Connected({1}, Inbound(Normal))],
     map[1 := Connected({1}, Inbound(Normal)), 2 := Connected({2}, Inbound(Overflowing(0)))],
     map[1 := JustDisconnected(0, Inbound(Normal)), 2 := Connected({2}, Inbound(Overflowing(0)))],
     map[1 := JustDisconnected(0, Inbound(Normal)), 2 := Connected({2}, Inbound(Overflowing(0))),
         3 := Connected({3}, Inbound(Overflowing(0)))]]

  const TAKEOVER_GAUGES := [Gauges(0, 0, 0), Gauges(1, 0, 0), Gauges(2, 1, 0), Gauges(1, 1, 0), Gauges(2, 2, 0)]

  function TakeoverWorld(i: nat): World
    requires i < 5
  {
    World(Slots(map[], TAKEOVER_PEERS[i], [], {}, TAKEOVER_GAUGES[i]), 0)
  }

  lemma TakeoverCounts()
    ensures InboundPeers(TAKEOVER_PEERS[0]) == {} && InboundPeers(TAKEOVER_PEERS[1]) == {1}
    ensures InboundPeers(TAKEOVER_PEERS[3]) == {2} && OverflowingPeers(TAKEOVER_PEERS[4]) == {2, 3}
  {
  }

  lemma TakeoverSteps(i: nat)
    requires i < 4
    ensures Follows(ONE_AND_ONE, TakeoverWorld(i), TAKEOVER[i], TakeoverWorld(i + 1))
  {
    hide InboundPeers, OutboundPeers, OverflowingPeers;
    TakeoverCounts();
    assert {1} - {1} == {};
    if i == 3 {
      assert TAKEOVER_PEERS[3][3 := Connected({3}, Inbound(Overflowing(0)))] == TAKEOVER_PEERS[4];
    } else if i == 2 {
      assert TAKEOVER_PEERS[2][1 := JustDisconnected(0, Inbound(Normal))] == TAKEOVER_PEERS[3];
    } else if i == 1 {
      assert TAKEOVER_PEERS[1][2 := Connected({2}, Inbound(Overflowing(0)))] == TAKEOVER_PEERS[2];
    } else {
      assert TAKEOVER_PEERS[0][1 := Connected({1}, Inbound(Normal))] == TAKEOVER_PEERS[1];
    }
  }

  /** A run of four events with one normal and one reserve slot: a normal peer that leaves is replaced by a second
      overflowing one. */
  lemma OverflowingMayExceedReserve()
    ensures var worlds := seq(5, i requires 0 <= i < 5 => TakeoverWorld(i));
      && IsRun(ONE_AND_ONE, worlds, TAKEOVER)
      && OverflowingPeers(worlds[4].s.peers) == {2, 3} && !WithinReserve(ONE_AND_ONE, worlds[4].s)
  {
    hide InboundPeers, OutboundPeers, OverflowingPeers, Next;
    var worlds := seq(5, i requires 0 <= i < 5 => TakeoverWorld(i));
    forall i | 0 <= i < 4
      ensures Follows(ONE_AND_ONE, worlds[i], TAKEOVER[i], worlds[i + 1])
    {
      TakeoverSteps(i);
    }
    TakeoverCounts();
  }
}
