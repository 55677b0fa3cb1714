/**
 What the entries of the slot manager say about the past, in every run: when a
 backoff began, when a peer was last active, which connections are open and
 which dials are under way.
 */
module SlotsHistory {
  import opened Base
  import opened Slots
  import opened SlotsRuns

  // ---------------------------------------------------------------------
  // Backoff

  /** Step `k` closes the last connection of the peer, which had this class. */
  ghost predicate Leaves(worlds: seq<World>, events: seq<Event>, k: nat, p: Peer, d: Direction) {
    && k < |events| && k + 1 < |worlds| && events[k].ConnectionClosed? && events[k].peer == p
    && p in worlds[k].s.peers && worlds[k].s.peers[p] == Connected({events[k].connection}, d)
  }

  lemma LastClose(cfg: Config, s: Slots, now: nat, p: Peer, c: Connection, d: Direction)
    requires p in s.peers && s.peers[p] == Connected({c}, d)
    ensures InBackoff(Next(cfg, s, now, ConnectionClosed(p, c)), p, now, d)
  {
    assert {c} - {c} == {};
  }

  /** In every run a peer whose last connection closes is in backoff from that moment on, with its class. */
  lemma BackoffBegins(cfg: Config, worlds: seq<World>, events: seq<Event>, k: nat, p: Peer, d: Direction)
    requires IsRun(cfg, worlds, events) && Leaves(worlds, events, k, p, d)
    ensures InBackoff(worlds[k + 1].s, p, worlds[k + 1].clock, d)
  {
    hide Next;
    assert Follows(cfg, worlds[k], events[k], worlds[k + 1]);
    LastClose(cfg, worlds[k].s, worlds[k + 1].clock, p, events[k].connection, d);
  }

  /** Where a backoff entry comes from in one step: it was there, or the last connection closes now. */
  lemma BackoffStep(cfg: Config, w: World, now: nat, e: Event, p: Peer, at: nat, d: Direction)
    requires Safe(cfg, w) && !Panics(w.s, e) && InBackoff(Next(cfg, w.s, now, e), p, at, d)
    ensures InBackoff(w.s, p, at, d) ||
            (at == now && e.ConnectionClosed? && e.peer == p && p in w.s.peers && w.s.peers[p] == Connected({e.connection}, d))
  {
    hide InboundPeers, OutboundPeers, OverflowingPeers, NormalPeers;
    if e.ConnectionClosed? && e.peer == p && p in w.s.peers && w.s.peers[p].Connected? {
      assert Stamped(w.s.peers[p], w.clock);
      OnlyOne(w.s.peers[p].connections, e.connection);
    }
  }

  lemma OnlyOne<T>(s: set<T>, x: T)
    requires s != {}
    ensures s - {x} == {} ==> s == {x}
  {
    if s - {x} == {} {
      assert forall y :: y in s ==> y == x || y in s - {x};
    }
  }

  /** The backoff began when the last connection closed at step `k`, and has lasted since. */
  ghost predicate BackoffSince(worlds: seq<World>, events: seq<Event>, k: nat, n: nat, p: Peer, at: nat, d: Direction)
    requires n < |worlds|
  {
    && k < n && Leaves(worlds, events, k, p, d) && worlds[k + 1].clock == at
    && forall j :: k < j <= n ==> InBackoff(worlds[j].s, p, at, d)
  }

  /** Main result on backoff: in every run an entry is in backoff since a time exactly when the last connection of the peer
      was closed at that time and the entry has stayed since. */
  lemma {:induction false} BackoffExact(cfg: Config, worlds: seq<World>, events: seq<Event>, n: nat, p: Peer, at: nat, d: Direction)
    requires IsRun(cfg, worlds, events) && n < |worlds|
    ensures InBackoff(worlds[n].s, p, at, d) <==> exists k :: BackoffSince(worlds, events, k, n, p, at, d)
  {
    hide Next, Safe, Leaves, InBackoff;
    if n > 0 && InBackoff(worlds[n].s, p, at, d) {
      var m := n - 1;
      BackoffExact(cfg, worlds, events, m, p, at, d);
      EveryRunIsSafe(cfg, worlds, events, m);
      assert Follows(cfg, worlds[m], events[m], worlds[m + 1]);
      BackoffStep(cfg, worlds[m], worlds[n].clock, events[m], p, at, d);
      if InBackoff(worlds[m].s, p, at, d) {
        var k :| BackoffSince(worlds, events, k, m, p, at, d);
        assert BackoffSince(worlds, events, k, n, p, at, d);
      } else {
        LeavesNow(worlds, events, m, p, d);
        assert BackoffSince(worlds, events, m, n, p, at, d);
      }
    } else if n == 0 {
      NoBackoffAtFirst(cfg, worlds, events, p, at, d);
    }
  }

  lemma LeavesNow(worlds: seq<World>, events: seq<Event>, m: nat, p: Peer, d: Direction)
    requires m < |events| && m + 1 < |worlds| && events[m].ConnectionClosed? && events[m].peer == p
    requires p in worlds[m].s.peers && worlds[m].s.peers[p] == Connected({events[m].connection}, d)
    ensures Leaves(worlds, events, m, p, d)
  {
  }

  lemma NoBackoffAtFirst(cfg: Config, worlds: seq<World>, events: seq<Event>, p: Peer, at: nat, d: Direction)
    requires IsRun(cfg, worlds, events)
    ensures !InBackoff(worlds[0].s, p, at, d)
  {
  }

  /** No tick forgets a peer before more than the backoff period has passed since its last connection closed. */
  lemma NotForgottenEarly(cfg: Config, worlds: seq<World>, events: seq<Event>, k: nat, n: nat, p: Peer, d: Direction)
    requires IsRun(cfg, worlds, events) && k < n < |events|
    requires BackoffSince(worlds, events, k, n, p, worlds[k + 1].clock, d)
    requires events[n].Polled? && p !in worlds[n + 1].s.peers
    ensures worlds[n + 1].clock > worlds[k + 1].clock + cfg.backoff
  {
    hide Next;
    assert InBackoff(worlds[n].s, p, worlds[k + 1].clock, d);
    assert Follows(cfg, worlds[n], events[n], worlds[n + 1]);
    EntryFate(cfg, worlds[n].s, worlds[n + 1].clock, events[n], p);
  }

  // ---------------------------------------------------------------------
  // Open connections

  /** The event opens this connection: it is established, and not refused. */
  predicate Opens(cfg: Config, s: Slots, e: Event, p: Peer, c: Connection) {
    && (e == EstablishedInbound(p, c) || e == EstablishedOutbound(p, c))
    && ((p in s.peers && s.peers[p].Connected?) || !NoSlot(cfg, s, p, if e.EstablishedInbound? then Inbound(Normal) else Outbound))
  }

  lemma AddStep(cfg: Config, s: Slots, now: nat, q: Peer, d: Connection, transport: Direction, p: Peer, c: Connection)
    requires AnswersRight(cfg, s, now, q, d, transport)
    ensures var after := AddConnection(s, cfg, now, q, d, transport);
      HasConnection(after.0, p, c) <==> HasConnection(s, p, c) || (p == q && c == d && after.1.None?)
  {
    hide InboundPeers, OutboundPeers, OverflowingPeers;
    if p != q {
      assert Lookup(AddConnection(s, cfg, now, q, d, transport).0.peers, p) == Lookup(s.peers, p);
    }
  }

  lemma ConnectionStep(cfg: Config, w: World, now: nat, e: Event, p: Peer, c: Connection)
    requires Safe(cfg, w) && !Panics(w.s, e)
    ensures HasConnection(Next(cfg, w.s, now, e), p, c) <==>
            (HasConnection(w.s, p, c) && e != ConnectionClosed(p, c)) || Opens(cfg, w.s, e, p, c)
  {
    hide Safe, NoSlot, InboundPeers, OutboundPeers, OverflowingPeers, AddConnection, AnswersRight;
    if e.EstablishedInbound? {
      SafeAnswersRight(cfg, w, now, e.peer, e.connection, Inbound(Normal));
      AddStep(cfg, w.s, now, e.peer, e.connection, Inbound(Normal), p, c);
      Refused(cfg, w.s, now, e.peer, e.connection, Inbound(Normal));
    } else if e.EstablishedOutbound? {
      var s := w.s.(pending := WithoutConnection(w.s.pending, e.peer, e.connection));
      PendingOnly(cfg, w, e.peer, e.connection, e.peer);
      SafeAnswersRight(cfg, w.(s := s), now, e.peer, e.connection, Outbound);
      AddStep(cfg, s, now, e.peer, e.connection, Outbound, p, c);
      Refused(cfg, s, now, e.peer, e.connection, Outbound);
    } else if e.ConnectionClosed? && e.peer == p && HasConnection(w.s, p, c) {
      assert c != e.connection ==> c in w.s.peers[p].connections - {e.connection};
    }
  }

  lemma Refused(cfg: Config, s: Slots, now: nat, p: Peer, c: Connection, d: Direction)
    requires AnswersRight(cfg, s, now, p, c, d)
    ensures AddConnection(s, cfg, now, p, c, d).1.None? <==>
            (p in s.peers && s.peers[p].Connected?) || !NoSlot(cfg, s, p, d)
  {
  }

  /** The connection was opened at step `k` and has not been closed since. */
  ghost predicate OpenSince(cfg: Config, worlds: seq<World>, events: seq<Event>, k: nat, n: nat, p: Peer, c: Connection)
    requires n <= |events| < |worlds|
  {
    k < n && Opens(cfg, worlds[k].s, events[k], p, c) && forall j :: k < j < n ==> events[j] != ConnectionClosed(p, c)
  }

  /** Main result on connections: in every run the connections of a peer are exactly those that were opened and not closed
      since. */
  lemma {:induction false} ConnectionsExact(cfg: Config, worlds: seq<World>, events: seq<Event>, n: nat, p: Peer, c: Connection)
    requires IsRun(cfg, worlds, events) && n <= |events| < |worlds|
    ensures HasConnection(worlds[n].s, p, c) <==> exists k :: OpenSince(cfg, worlds, events, k, n, p, c)
  {
    hide Next, Safe, Opens, HasConnection;
    if n == 0 {
      NothingOpen(cfg, worlds, events, p, c);
    } else {
      var m := n - 1;
      ConnectionsExact(cfg, worlds, events, m, p, c);
      EveryRunIsSafe(cfg, worlds, events, m);
      assert Follows(cfg, worlds[m], events[m], worlds[m + 1]);
      ConnectionStep(cfg, worlds[m], worlds[n].clock, events[m], p, c);
      if k: nat :| OpenSince(cfg, worlds, events, k, m, p, c) && events[m] != ConnectionClosed(p, c) {
        assert OpenSince(cfg, worlds, events, k, n, p, c);
      }
      if Opens(cfg, worlds[m].s, events[m], p, c) {
        assert OpenSince(cfg, worlds, events, m, n, p, c);
      }
      if k: nat :| OpenSince(cfg, worlds, events, k, n, p, c) {
        assert k < m ==> OpenSince(cfg, worlds, events, k, m, p, c) && events[m] != ConnectionClosed(p, c);
      }
    }
  }

  lemma NothingOpen(cfg: Config, worlds: seq<World>, events: seq<Event>, p: Peer, c: Connection)
    requires IsRun(cfg, worlds, events)
    ensures !HasConnection(worlds[0].s, p, c)
  {
  }

  // ---------------------------------------------------------------------
  // Activity

  /** An overflowing peer was last active then. */
  predicate ActiveAt(s: Slots, p: Peer, t: nat) {
    p in s.peers && s.peers[p].Connected? && s.peers[p].direction == Inbound(Overflowing(t))
  }

  /** The peer gets its entry, or reports an action. */
  predicate Acts(cfg: Config, s: Slots, e: Event, p: Peer) {
    e == PeerAction(p) || Enters(cfg, s, e, p)
  }

  lemma ActivityStep(cfg: Config, w: World, now: nat, e: Event, p: Peer, t: nat)
    requires Safe(cfg, w) && !Panics(w.s, e) && ActiveAt(Next(cfg, w.s, now, e), p, t)
    ensures if Acts(cfg, w.s, e, p) then t == now else ActiveAt(w.s, p, t)
  {
    hide InboundPeers, OutboundPeers, OverflowingPeers, NormalPeers, Safe, NoSlot;
    EntryStep(cfg, w, now, e, p);
  }

  /** The last sign of life of the peer was at step `k`. */
  ghost predicate ActedLast(cfg: Config, worlds: seq<World>, events: seq<Event>, k: nat, n: nat, p: Peer)
    requires n <= |events| < |worlds|
  {
    k < n && Acts(cfg, worlds[k].s, events[k], p) && forall j :: k < j < n ==> !Acts(cfg, worlds[j].s, events[j], p)
  }

  /** Main result on activity: in every run the latest action of an overflowing peer is the time at which it got its slot
      or last reported an action. */
  lemma {:induction false} LatestActionExact(cfg: Config, worlds: seq<World>, events: seq<Event>, n: nat, p: Peer, t: nat)
    requires IsRun(cfg, worlds, events) && n <= |events| < |worlds| && ActiveAt(worlds[n].s, p, t)
    ensures exists k :: ActedLast(cfg, worlds, events, k, n, p) && worlds[k + 1].clock == t
  {
    hide Next, Safe, Acts, ActiveAt;
    if n == 0 {
      NobodyActive(cfg, worlds, events, p, t);
    } else {
      var m := n - 1;
      EveryRunIsSafe(cfg, worlds, events, m);
      assert Follows(cfg, worlds[m], events[m], worlds[m + 1]);
      ActivityStep(cfg, worlds[m], worlds[n].clock, events[m], p, t);
      if Acts(cfg, worlds[m].s, events[m], p) {
        assert ActedLast(cfg, worlds, events, m, n, p);
      } else {
        LatestActionExact(cfg, worlds, events, m, p, t);
        var k :| ActedLast(cfg, worlds, events, k, m, p) && worlds[k + 1].clock == t;
        assert ActedLast(cfg, worlds, events, k, n, p);
      }
    }
  }

  lemma NobodyActive(cfg: Config, worlds: seq<World>, events: seq<Event>, p: Peer, t: nat)
    requires IsRun(cfg, worlds, events)
    ensures !ActiveAt(worlds[0].s, p, t)
  {
  }

  // ---------------------------------------------------------------------
  // Dials under way

  predicate Dialling(s: Slots, p: Peer, c: Connection) {
    p in s.pending && c in s.pending[p]
  }

  /** A dial is recorded: to a peer without an entry, while there are outbound slots. */
  predicate StartsDial(cfg: Config, s: Slots, e: Event, p: Peer, c: Connection) {
    e == PendingOutbound(p, c) && p !in s.peers && s.gauges.outbound < cfg.outboundMax
  }

  /** A dial is over: it failed or led to a connection. */
  predicate EndsDial(e: Event, p: Peer, c: Connection) {
    e == EstablishedOutbound(p, c) || e == DialFailure(p, c)
  }

  lemma RemoveStep(m: Connections, q: Peer, d: Connection, p: Peer, c: Connection)
    ensures var after := WithoutConnection(m, q, d);
      (p in after && c in after[p]) <==> (p in m && c in m[p] && !(p == q && c == d))
  {
    if p == q && p in m && c in m[p] && c != d {
      assert c in m[p] - {d};
    }
  }

  lemma AddKeepsPending(cfg: Config, s: Slots, now: nat, p: Peer, c: Connection, d: Direction)
    ensures AddConnection(s, cfg, now, p, c, d).0.pending == s.pending
  {
    hide InboundPeers, OutboundPeers;
  }

  lemma DialStep(cfg: Config, w: World, now: nat, e: Event, p: Peer, c: Connection)
    requires Safe(cfg, w) && !Panics(w.s, e)
    ensures Dialling(Next(cfg, w.s, now, e), p, c) <==>
            (Dialling(w.s, p, c) && !EndsDial(e, p, c)) || StartsDial(cfg, w.s, e, p, c)
  {
    hide InboundPeers, OutboundPeers, OverflowingPeers, NormalPeers, AddConnection, WithoutConnection;
    match e {
      case EstablishedInbound(q, d) => AddKeepsPending(cfg, w.s, now, q, d, Inbound(Normal));
      case EstablishedOutbound(q, d) =>
        RemoveStep(w.s.pending, q, d, p, c);
        AddKeepsPending(cfg, w.s.(pending := WithoutConnection(w.s.pending, q, d)), now, q, d, Outbound);
      case DialFailure(q, d) => RemoveStep(w.s.pending, q, d, p, c);
      case _ =>
    }
  }

  ghost predicate DiallingSince(cfg: Config, worlds: seq<World>, events: seq<Event>, k: nat, n: nat, p: Peer, c: Connection)
    requires n <= |events| < |worlds|
  {
    k < n && StartsDial(cfg, worlds[k].s, events[k], p, c) && forall j :: k < j < n ==> !EndsDial(events[j], p, c)
  }

  /** Main result on dials: in every run the dials under way are exactly those that were recorded and have neither failed
      nor led to a connection since. */
  lemma {:induction false} DialsExact(cfg: Config, worlds: seq<World>, events: seq<Event>, n: nat, p: Peer, c: Connection)
    requires IsRun(cfg, worlds, events) && n <= |events| < |worlds|
    ensures Dialling(worlds[n].s, p, c) <==> exists k :: DiallingSince(cfg, worlds, events, k, n, p, c)
  {
    hide Next, Safe, StartsDial, Dialling;
    if n == 0 {
      NothingDialled(cfg, worlds, events, p, c);
    } else {
      var m := n - 1;
      DialsExact(cfg, worlds, events, m, p, c);
      EveryRunIsSafe(cfg, worlds, events, m);
      assert Follows(cfg, worlds[m], events[m], worlds[m + 1]);
      DialStep(cfg, worlds[m], worlds[n].clock, events[m], p, c);
      if k: nat :| DiallingSince(cfg, worlds, events, k, m, p, c) && !EndsDial(events[m], p, c) {
        assert DiallingSince(cfg, worlds, events, k, n, p, c);
      }
      if StartsDial(cfg, worlds[m].s, events[m], p, c) {
        assert DiallingSince(cfg, worlds, events, m, n, p, c);
      }
      if k: nat :| DiallingSince(cfg, worlds, events, k, n, p, c) {
        assert k < m ==> DiallingSince(cfg, worlds, events, k, m, p, c) && !EndsDial(events[m], p, c);
      }
    }
  }

  lemma NothingDialled(cfg: Config, worlds: seq<World>, events: seq<Event>, p: Peer, c: Connection)
    requires IsRun(cfg, worlds, events)
    ensures !Dialling(worlds[0].s, p, c)
  {
  }

  /** In every state of every run a dial is answered right: refused in backoff or without an outbound slot, and for that
      reason; and an accepted one changes nothing but the dials under way. */
  lemma DialFate(cfg: Config, worlds: seq<World>, events: seq<Event>, n: nat, p: Peer, c: Connection)
    requires IsRun(cfg, worlds, events) && n < |worlds|
    ensures var s := worlds[n].s;
      var (after, error) := AddPendingOutbound(s, cfg, p, c);
      && after == s.(pending := after.pending)
      && error ==
         (if p in s.peers then if s.peers[p].Connected? then None else Some(ActiveBackoffPeriod)
          else if s.gauges.outbound >= cfg.outboundMax then Some(LimitExceeded(cfg.outboundMax, Outbound)) else None)
  {
    EveryRunIsSafe(cfg, worlds, events, n);
  }
}
