/**
 What the metadata of a prepared block says about the chain below it, stated
 over all events of the chain at once instead of block by block.
 */
module PrepareMeta {
  import opened Base
  import opened Chain
  import opened Prepare

  // ---------------------------------------------------------------------
  // The latest event of a kind

  function BatchOf(e: BlockEvent): Option<nat> {
    if e.BatchCommitted? then Some(e.digest) else None
  }

  function MbOf(e: BlockEvent): Option<nat> {
    if e.MbCommitted? then Some(e.mb) else None
  }

  function EbOf(e: BlockEvent): Option<nat> {
    if e.EbCommitted? then Some(e.eb) else None
  }

  function EraOf(e: BlockEvent): Option<nat> {
    if e.ValidatorsCommittedForEra? then Some(e.era) else None
  }

  /** The value carried by the last event of the kind that `pick` selects. */
  function Latest(pick: BlockEvent -> Option<nat>, events: seq<BlockEvent>): Option<nat> {
    if events == [] then None
    else if pick(events[|events| - 1]).Some? then pick(events[|events| - 1])
    else Latest(pick, events[..|events| - 1])
  }

  function OrElse(first: Option<nat>, second: Option<nat>): Option<nat> {
    if first.Some? then first else second
  }

  lemma {:induction false} LatestConcat(pick: BlockEvent -> Option<nat>, older: seq<BlockEvent>, newer: seq<BlockEvent>)
    ensures Latest(pick, older + newer) == OrElse(Latest(pick, newer), Latest(pick, older))
  {
    if newer == [] {
      assert older + newer == older;
    } else {
      var all := older + newer;
      assert all[..|all| - 1] == older + newer[..|newer| - 1];
      LatestConcat(pick, older, newer[..|newer| - 1]);
    }
  }

  /** Committed eras never go back: not below `era`, and not among the events. */
  ghost predicate ErasNondecreasing(era: nat, events: seq<BlockEvent>) {
    && (forall i :: 0 <= i < |events| && events[i].ValidatorsCommittedForEra? ==> era <= events[i].era)
    && (forall i, j :: 0 <= i < j < |events| && events[i].ValidatorsCommittedForEra? && events[j].ValidatorsCommittedForEra? ==>
          events[i].era <= events[j].era)
  }

  function EraAfter(era: nat, events: seq<BlockEvent>): nat {
    OrElse(Latest(EraOf, events), Some(era)).value
  }

  lemma {:induction false} EraAfterBounds(era: nat, events: seq<BlockEvent>)
    requires ErasNondecreasing(era, events)
    ensures era <= EraAfter(era, events)
    ensures forall i :: 0 <= i < |events| && events[i].ValidatorsCommittedForEra? ==> events[i].era <= EraAfter(era, events)
  {
    if events != [] && !events[|events| - 1].ValidatorsCommittedForEra? {
      EraAfterBounds(era, events[..|events| - 1]);
    }
  }

  lemma {:induction false} EraAfterIsOneOf(era: nat, events: seq<BlockEvent>)
    ensures EraAfter(era, events) == era ||
            exists i :: 0 <= i < |events| && events[i] == ValidatorsCommittedForEra(EraAfter(era, events))
  {
    if events != [] {
      if events[|events| - 1].ValidatorsCommittedForEra? {
        assert events[|events| - 1] == ValidatorsCommittedForEra(EraAfter(era, events));
      } else {
        var front := events[..|events| - 1];
        EraAfterIsOneOf(era, front);
        if EraAfter(era, front) != era {
          var i :| 0 <= i < |front| && front[i] == ValidatorsCommittedForEra(EraAfter(era, front));
          assert events[i] == front[i];
        }
      }
    }
  }

  lemma ErasNondecreasingConcat(era: nat, older: seq<BlockEvent>, newer: seq<BlockEvent>)
    ensures ErasNondecreasing(era, older + newer) <==>
            ErasNondecreasing(era, older) && ErasNondecreasing(EraAfter(era, older), newer)
  {
    var all := older + newer;
    assert forall i :: 0 <= i < |older| ==> all[i] == older[i];
    assert forall i :: 0 <= i < |newer| ==> all[|older| + i] == newer[i];
    if ErasNondecreasing(era, all) {
      EraAfterIsOneOf(era, older);
    } else if ErasNondecreasing(era, older) {
      EraAfterBounds(era, older);
    }
  }

  // ---------------------------------------------------------------------
  // The loop over one block's events

  lemma RequestedConcat(older: seq<BlockEvent>, newer: seq<BlockEvent>)
    ensures Requested(older + newer) == Requested(older) + Requested(newer)
    ensures Validated(older + newer) == Validated(older) + Validated(newer)
  {
    var all := older + newer;
    assert forall i :: 0 <= i < |older| ==> all[i] == older[i];
    assert forall i :: 0 <= i < |newer| ==> all[|older| + i] == newer[i];
  }

  lemma RequestedOne(e: BlockEvent)
    ensures Requested([e]) == if e.CodeValidationRequested? then {e.requested} else {}
    ensures Validated([e]) == if e.CodeGotValidated? then {e.validated} else {}
  {
    assert [e][0] == e;
  }

  /** The result of the event loop, with every component read off the whole event list. */
  function FoldResult(f: Fold, events: seq<BlockEvent>): Fold {
    Fold(OrElse(Latest(BatchOf, events), Some(f.batch)).value,
         EraAfter(f.era, events),
         OrElse(Latest(MbOf, events), f.mb),
         OrElse(Latest(EbOf, events), f.eb),
         f.requested + Requested(events),
         f.validated + Validated(events))
  }

  lemma FoldOne(f: Fold, e: BlockEvent)
    ensures FoldEvent(f, e).Ok? <==> ErasNondecreasing(f.era, [e])
    ensures FoldEvent(f, e).Ok? ==> FoldEvent(f, e).value == FoldResult(f, [e])
  {
    RequestedOne(e);
    assert [e][0] == e;
    assert forall pick: BlockEvent -> Option<nat> :: Latest(pick, [e]) == pick(e);
  }

  lemma FoldResultConcat(f: Fold, older: seq<BlockEvent>, newer: seq<BlockEvent>)
    ensures FoldResult(FoldResult(f, older), newer) == FoldResult(f, older + newer)
  {
    LatestConcat(BatchOf, older, newer);
    LatestConcat(EraOf, older, newer);
    LatestConcat(MbOf, older, newer);
    LatestConcat(EbOf, older, newer);
    RequestedConcat(older, newer);
  }

  /** The event loop fails exactly when a committed era goes back. */
  lemma {:induction false} FoldEventsExact(f: Fold, events: seq<BlockEvent>)
    ensures FoldEvents(f, events).Ok? <==> ErasNondecreasing(f.era, events)
    ensures FoldEvents(f, events).Ok? ==> FoldEvents(f, events).value == FoldResult(f, events)
    decreases |events|
  {
    if events == [] {
      assert Requested([]) == {} && Validated([]) == {};
    } else {
      var first, rest := events[..1], events[1..];
      assert first == [events[0]] && events == first + rest;
      FoldOne(f, events[0]);
      ErasNondecreasingConcat(f.era, first, rest);
      if FoldEvent(f, events[0]).Ok? {
        FoldEventsExact(FoldResult(f, first), rest);
        FoldResultConcat(f, first, rest);
      }
    }
  }

  // ---------------------------------------------------------------------
  // A chain of prepared blocks

  /** `meta` was obtained from the parent's metadata and the events, whatever the append order. */
  ghost predicate FollowsMeta(parent: BlockMeta, events: seq<BlockEvent>, meta: BlockMeta) {
    && parent.codesQueue.Some? && meta.codesQueue.Some?
    && var kept := |Retain(parent.codesQueue.value, Validated(events))|;
      && kept <= |meta.codesQueue.value|
      && IsOrderOf(meta.codesQueue.value[kept..], Requested(events))
      && NextMeta(ZERO, parent, events, meta.codesQueue.value[kept..]) == Ok(meta)
  }

  lemma NextMetaFollows(hash: Hash, parent: BlockMeta, events: seq<BlockEvent>, order: seq<CodeId>)
    requires NextMeta(hash, parent, events, order).Ok? && IsOrderOf(order, Requested(events))
    ensures FollowsMeta(parent, events, NextMeta(hash, parent, events, order).value)
  {
    var f := Fold(parent.lastCommittedBatch.value, parent.latestEra.value, None, None, {}, {});
    FoldEventsExact(f, events);
    var kept := Retain(parent.codesQueue.value, Validated(events));
    assert {} + Validated(events) == Validated(events);
    assert (kept + order)[|kept|..] == order;
  }

  /** Metadata along a chain: `events[i]` are the events of the block between `metas[i]` and `metas[i + 1]`. */
  ghost predicate Lineage(metas: seq<BlockMeta>, events: seq<seq<BlockEvent>>) {
    |metas| == |events| + 1 && forall i :: 0 <= i < |events| ==> FollowsMeta(metas[i], events[i], metas[i + 1])
  }

  function Concat(events: seq<seq<BlockEvent>>): seq<BlockEvent> {
    if events == [] then [] else Concat(events[..|events| - 1]) + events[|events| - 1]
  }

  /** Blocks that requested the code and have no validation of it in any strictly later block. */
  function OpenRequests(events: seq<seq<BlockEvent>>, code: CodeId): set<nat> {
    set i: nat | i < |events| && IsOpen(events, i, code)
  }

  predicate IsOpen(events: seq<seq<BlockEvent>>, i: nat, code: CodeId)
    requires i < |events|
  {
    code in Requested(events[i]) && forall j :: i < j < |events| ==> code !in Validated(events[j])
  }

  predicate EverValidated(events: seq<seq<BlockEvent>>, code: CodeId) {
    exists j :: 0 <= j < |events| && code in Validated(events[j])
  }

  /** Dropping validated codes keeps the others, in order. */
  lemma {:induction false} RetainExact(queue: seq<CodeId>, dropped: set<CodeId>)
    ensures Keeps(Retain(queue, dropped), queue, (c: CodeId) => c !in dropped)
  {
    var kept := (c: CodeId) => c !in dropped;
    if queue != [] {
      RetainExact(queue[1..], dropped);
      KeepsFirst(Retain(queue[1..], dropped), queue, kept);
    }
  }

  /** The queue of a block is that of its parent without the codes it reports as validated, in the same order, and then the
      codes it requests, each once. */
  ghost predicate QueueFollows(parent: seq<CodeId>, events: seq<BlockEvent>, queue: seq<CodeId>) {
    exists kept, added ::
      && queue == kept + added && IsOrderOf(added, Requested(events))
      && Keeps(kept, parent, (c: CodeId) => c !in Validated(events))
  }

  lemma QueueOrder(parent: BlockMeta, events: seq<BlockEvent>, meta: BlockMeta)
    requires FollowsMeta(parent, events, meta)
    ensures parent.codesQueue.Some? && meta.codesQueue.Some?
    ensures QueueFollows(parent.codesQueue.value, events, meta.codesQueue.value)
  {
    hide Keeps;
    var f := Fold(parent.lastCommittedBatch.value, parent.latestEra.value, None, None, {}, {});
    FoldEventsExact(f, events);
    assert {} + Validated(events) == Validated(events);
    var kept := Retain(parent.codesQueue.value, Validated(events));
    var added := meta.codesQueue.value[|kept|..];
    RetainExact(parent.codesQueue.value, Validated(events));
    assert meta.codesQueue.value == kept + added;
  }

  lemma {:induction false} RetainCount(queue: seq<CodeId>, dropped: set<CodeId>, code: CodeId)
    ensures multiset(Retain(queue, dropped))[code] == if code in dropped then 0 else multiset(queue)[code]
  {
    if queue != [] {
      RetainCount(queue[1..], dropped, code);
      assert queue == [queue[0]] + queue[1..];
    }
  }

  lemma {:induction false} DistinctCount<T>(s: seq<T>, x: T)
    requires Distinct(s)
    ensures multiset(s)[x] == if x in s then 1 else 0
  {
    if s != [] {
      assert s == [s[0]] + s[1..];
      DistinctCount(s[1..], x);
    }
  }

  lemma IsOpenNext(events: seq<seq<BlockEvent>>, last: seq<BlockEvent>, i: nat, code: CodeId)
    requires i < |events|
    ensures IsOpen(events + [last], i, code) <==> IsOpen(events, i, code) && code !in Validated(last)
  {
    hide Requested;
    hide Validated;
    var all, n := events + [last], |events|;
    assert all[n] == last && all[i] == events[i];
    if IsOpen(all, i, code) {
      assert forall j :: i < j < n ==> events[j] == all[j];
    }
  }

  lemma EverValidatedNext(events: seq<seq<BlockEvent>>, last: seq<BlockEvent>, code: CodeId)
    ensures EverValidated(events + [last], code) <==> EverValidated(events, code) || code in Validated(last)
  {
    hide Validated;
    var all := events + [last];
    assert all[|events|] == last;
    if EverValidated(events, code) {
      var j :| 0 <= j < |events| && code in Validated(events[j]);
      assert all[j] == events[j];
    }
  }

  lemma OpenRequestsNext(events: seq<seq<BlockEvent>>, last: seq<BlockEvent>, code: CodeId)
    ensures |OpenRequests(events + [last], code)| ==
            (if code in Validated(last) then 0 else |OpenRequests(events, code)|) +
            (if code in Requested(last) then 1 else 0)
  {
    var all, n := events + [last], |events|;
    var before := if code in Validated(last) then {} else OpenRequests(events, code);
    var here: set<nat> := if code in Requested(last) then {n} else {};
    assert IsOpen(all, n, code) <==> code in Requested(last);
    hide IsOpen;
    forall i: nat | i < n
      ensures IsOpen(all, i, code) <==> i in before
    {
      IsOpenNext(events, last, i, code);
    }
    assert OpenRequests(all, code) == before + here;
  }

  /** One block further: how often each code is queued. */
  lemma QueueStep(parent: BlockMeta, events: seq<BlockEvent>, meta: BlockMeta, code: CodeId)
    requires FollowsMeta(parent, events, meta)
    ensures parent.codesQueue.Some? && meta.codesQueue.Some?
    ensures multiset(meta.codesQueue.value)[code] ==
            (if code in Validated(events) then 0 else multiset(parent.codesQueue.value)[code]) +
            (if code in Requested(events) then 1 else 0)
  {
    var f := Fold(parent.lastCommittedBatch.value, parent.latestEra.value, None, None, {}, {});
    FoldEventsExact(f, events);
    assert {} + Validated(events) == Validated(events);
    var kept := Retain(parent.codesQueue.value, Validated(events));
    var order := meta.codesQueue.value[|kept|..];
    assert meta.codesQueue.value == kept + order;
    RetainCount(parent.codesQueue.value, Validated(events), code);
    DistinctCount(order, code);
  }

  lemma NothingOpen(code: CodeId)
    ensures OpenRequests([], code) == {} && !EverValidated([], code)
  {
  }

  /** Main result on the codes queue: a code is queued once for every block of the chain that
      requested it and was not followed by a validation, plus its copies in the base queue
      if no block of the chain validated it. */
  lemma {:induction false} QueueCounts(metas: seq<BlockMeta>, events: seq<seq<BlockEvent>>, code: CodeId)
    requires Lineage(metas, events) && metas[0].codesQueue.Some?
    ensures metas[|events|].codesQueue.Some?
    ensures multiset(metas[|events|].codesQueue.value)[code] ==
            |OpenRequests(events, code)| +
            (if EverValidated(events, code) then 0 else multiset(metas[0].codesQueue.value)[code])
    decreases |events|
  {
    hide FollowsMeta;
    hide OpenRequests;
    hide EverValidated;
    if events == [] {
      NothingOpen(code);
    } else {
      var n := |events| - 1;
      QueueCounts(metas[..n + 1], events[..n], code);
      assert FollowsMeta(metas[n], events[n], metas[n + 1]);
      QueueStep(metas[n], events[n], metas[n + 1], code);
      assert events == events[..n] + [events[n]];
      OpenRequestsNext(events[..n], events[n], code);
      EverValidatedNext(events[..n], events[n], code);
    }
  }

  lemma CommittedStep(parent: BlockMeta, events: seq<BlockEvent>, meta: BlockMeta)
    requires FollowsMeta(parent, events, meta)
    ensures parent.lastCommittedBatch.Some? && parent.latestEra.Some?
    ensures ErasNondecreasing(parent.latestEra.value, events)
    ensures meta.lastCommittedBatch == OrElse(Latest(BatchOf, events), parent.lastCommittedBatch)
    ensures meta.lastCommittedMb == OrElse(Latest(MbOf, events), parent.lastCommittedMb)
    ensures meta.lastCommittedEb == OrElse(Latest(EbOf, events), parent.lastCommittedEb)
    ensures meta.latestEra == Some(EraAfter(parent.latestEra.value, events))
  {
    FoldEventsExact(Fold(parent.lastCommittedBatch.value, parent.latestEra.value, None, None, {}, {}), events);
  }

  /** Main result on the commitments: batch, MB and EB are those of the latest such event on the
      chain, or the base's; the era is too, and never decreases. */
  lemma {:induction false} CommittedLatest(metas: seq<BlockMeta>, events: seq<seq<BlockEvent>>)
    requires Lineage(metas, events) && metas[0].latestEra.Some?
    ensures var last, all := metas[|events|], Concat(events);
      && last.lastCommittedBatch == OrElse(Latest(BatchOf, all), metas[0].lastCommittedBatch)
      && last.lastCommittedMb == OrElse(Latest(MbOf, all), metas[0].lastCommittedMb)
      && last.lastCommittedEb == OrElse(Latest(EbOf, all), metas[0].lastCommittedEb)
      && last.latestEra == Some(EraAfter(metas[0].latestEra.value, all))
      && ErasNondecreasing(metas[0].latestEra.value, all)
      && metas[0].latestEra.value <= last.latestEra.value
    decreases |events|
  {
    if events != [] {
      var n := |events| - 1;
      var older := Concat(events[..n]);
      CommittedLatest(metas[..n + 1], events[..n]);
      assert FollowsMeta(metas[n], events[n], metas[n + 1]);
      CommittedStep(metas[n], events[n], metas[n + 1]);
      LatestConcat(BatchOf, older, events[n]);
      LatestConcat(MbOf, older, events[n]);
      LatestConcat(EbOf, older, events[n]);
      LatestConcat(EraOf, older, events[n]);
      ErasNondecreasingConcat(metas[0].latestEra.value, older, events[n]);
      EraAfterBounds(metas[0].latestEra.value, older + events[n]);
    }
  }

  // ---------------------------------------------------------------------
  // When preparing a chain succeeds

  function EventsOf(chain: seq<BlockData>): seq<BlockEvent> {
    if chain == [] then [] else chain[0].events + EventsOf(chain[1..])
  }

  predicate Linked(chain: seq<BlockData>) {
    forall i :: 0 < i < |chain| ==> chain[i].header.parent == chain[i - 1].hash
  }

  /** A parent block has what its child is computed from. */
  predicate Complete(meta: BlockMeta) {
    meta.lastCommittedBatch.Some? && meta.codesQueue.Some? && meta.latestEra.Some?
  }

  lemma PrepareOneSucceeds(db: Db, block: BlockData, orders: Orders)
    ensures var base := db.Meta(block.header.parent);
      && (PrepareOne(db, block, orders).Ok? <==> Complete(base) && ErasNondecreasing(base.latestEra.value, block.events))
      && (PrepareOne(db, block, orders).Ok? ==>
            var next := PrepareOne(db, block, orders).value.Meta(block.hash);
            Complete(next) && next.latestEra.value == EraAfter(base.latestEra.value, block.events))
  {
    var base := db.Meta(block.header.parent);
    if Complete(base) {
      FoldEventsExact(Fold(base.lastCommittedBatch.value, base.latestEra.value, None, None, {}, {}), block.events);
    }
  }

  /** Preparing a chain succeeds exactly when the base metadata is complete and no committed era goes back. */
  lemma {:induction false} PrepareAllSucceeds(db: Db, chain: seq<BlockData>, orders: Orders)
    requires chain != [] && Linked(chain)
    ensures PrepareAll(db, chain, orders).1.None? <==>
            var base := db.Meta(chain[0].header.parent);
            Complete(base) && ErasNondecreasing(base.latestEra.value, EventsOf(chain))
    decreases |chain|
  {
    hide PrepareOne;
    hide ErasNondecreasing;
    hide EraAfter;
    var base := db.Meta(chain[0].header.parent);
    PrepareOneSucceeds(db, chain[0], orders);
    if Complete(base) {
      ErasNondecreasingConcat(base.latestEra.value, chain[0].events, EventsOf(chain[1..]));
      if |chain| == 1 {
        assert ErasNondecreasing(EraAfter(base.latestEra.value, chain[0].events), []) by {
          NoEras(EraAfter(base.latestEra.value, chain[0].events));
        }
      } else if PrepareOne(db, chain[0], orders).Ok? {
        PrepareAllSucceeds(PrepareOne(db, chain[0], orders).value, chain[1..], orders);
      }
    }
  }

  lemma NoEras(era: nat)
    ensures ErasNondecreasing(era, [])
  {
  }
}
