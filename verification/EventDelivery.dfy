/**
 Along an MB chain every Ethereum block hands its request events to the
 executor exactly once, in chain order and without a gap.
 */
module EventDelivery {
  import opened Base
  import opened Chain
  import opened MbExecution

  /** The EBs from the oldest known ancestor up to `eb`, by parent links. */
  function PathTo(s: ChainDb, eb: Hash): seq<Hash>
    requires s.EbAcyclic()
    decreases s.EbRank(eb)
  {
    if eb !in s.headers then [] else PathTo(s, s.headers[eb].parent) + [eb]
  }

  /** Every ancestor of `eb` is known, down to a block whose parent is the zero hash. */
  predicate Rooted(s: ChainDb, eb: Hash)
    requires s.EbAcyclic()
    decreases s.EbRank(eb)
  {
    eb == ZERO || (eb in s.headers && Rooted(s, s.headers[eb].parent))
  }

  /** Protocol invariant of `initialize_empty_db`: only the genesis EB has the zero hash as parent. */
  ghost predicate OnlyGenesisIsRoot(s: ChainDb) {
    forall h :: h in s.headers && s.headers[h].parent == ZERO ==> h == s.genesis
  }

  /** Shape of a rooted path: it starts at genesis, follows parent links, repeats nothing and ends in `eb`. */
  lemma {:induction false} PathShape(s: ChainDb, eb: Hash)
    requires s.EbAcyclic() && OnlyGenesisIsRoot(s) && Rooted(s, eb)
    ensures var p := PathTo(s, eb);
      && (eb == ZERO ==> p == [])
      && (eb != ZERO ==> p != [] && p[0] == s.genesis && p[|p| - 1] == eb)
      && (forall i :: 0 <= i < |p| ==> p[i] in s.headers && s.EbRank(p[i]) <= s.EbRank(eb))
      && (forall i :: 0 < i < |p| ==> s.headers[p[i]].parent == p[i - 1])
      && Distinct(p)
    decreases s.EbRank(eb)
  {
    if eb != ZERO {
      PathShape(s, s.headers[eb].parent);
    }
  }

  lemma {:induction false} AncestorsExtendPath(s: ChainDb, current: Eb, depth: nat, expected: Hash)
    requires s.EbAcyclic() && Recorded(s, Some(current)) && depth > 0
    requires Ancestors(s, current, depth, expected).Ok?
    ensures PathTo(s, current.hash) == PathTo(s, expected) + Ancestors(s, current, depth, expected).value
    ensures Rooted(s, expected) ==> Rooted(s, current.hash)
    decreases depth
  {
    if depth > 1 {
      var parent := current.header.parent;
      AncestorsExtendPath(s, Eb(parent, s.headers[parent]), depth - 1, expected);
    }
  }

  /** A successful advance yields exactly the blocks that the target's path has beyond the anchor's. */
  lemma AdvanceChainSound(s: ChainDb, target: Eb, anchor: Option<Eb>)
    requires s.EbAcyclic() && Recorded(s, Some(target)) && Recorded(s, anchor)
    requires AdvanceChain(s, target, anchor).Ok?
    ensures PathTo(s, target.hash) == PathTo(s, AnchorHash(anchor)) + AdvanceChain(s, target, anchor).value
    ensures AdvanceChain(s, target, anchor).value != []
    ensures Rooted(s, AnchorHash(anchor)) ==> Rooted(s, target.hash)
  {
    var (hash, height) := AdvanceBase(s, anchor).value;
    AncestorsExtendPath(s, target, target.header.height - height, hash);
  }

  /** Heights go up by exactly one along parent links, and the genesis EB is not at height zero. */
  ghost predicate HeightsConsecutive(s: ChainDb) {
    && (forall h :: h in s.headers && s.headers[h].parent in s.headers ==>
          s.headers[s.headers[h].parent].height + 1 == s.headers[h].height)
    && s.genesis in s.headers && s.headers[s.genesis].height > 0 && s.headers[s.genesis].parent == ZERO
  }

  lemma PathHeight(s: ChainDb, eb: Hash)
    requires s.EbAcyclic() && OnlyGenesisIsRoot(s) && HeightsConsecutive(s) && Rooted(s, eb) && eb != ZERO
    ensures s.headers[eb].height == s.headers[s.genesis].height - 1 + |PathTo(s, eb)|
    decreases s.EbRank(eb)
  {
    if s.headers[eb].parent != ZERO {
      PathHeight(s, s.headers[eb].parent);
    } else {
      assert PathTo(s, ZERO) == [];
    }
  }

  /** A known path ends in its block, and only an unknown block has the empty path. */
  lemma PathEnd(s: ChainDb, eb: Hash)
    requires s.EbAcyclic()
    ensures PathTo(s, eb) == [] <==> eb !in s.headers
    ensures eb in s.headers ==> PathTo(s, eb)[|PathTo(s, eb)| - 1] == eb
  {
  }

  lemma {:induction false} AncestorsComplete(s: ChainDb, eb: Hash, expected: Hash, blocks: seq<Hash>)
    requires s.EbAcyclic() && (expected in s.headers || (expected == ZERO && Rooted(s, eb)))
    requires blocks != [] && PathTo(s, eb) == PathTo(s, expected) + blocks
    ensures eb in s.headers && Ancestors(s, Eb(eb, s.headers[eb]), |blocks|, expected) == Ok(blocks)
    decreases |blocks|
  {
    PathEnd(s, eb);
    PathEnd(s, expected);
    var parent := s.headers[eb].parent;
    PathEnd(s, parent);
    SplitLast(PathTo(s, parent), eb, PathTo(s, expected), blocks);
    hide PathTo;
    var older := blocks[..|blocks| - 1];
    if older == [] {
      assert PathTo(s, expected) + [] == PathTo(s, expected);
    } else {
      AncestorsComplete(s, parent, expected, older);
    }
  }

  lemma {:induction false} AncestorsCount(s: ChainDb, current: Eb, depth: nat, expected: Hash)
    requires depth > 0 && Ancestors(s, current, depth, expected).Ok?
    ensures |Ancestors(s, current, depth, expected).value| == depth
    decreases depth
  {
    if depth > 1 {
      var parent := current.header.parent;
      AncestorsCount(s, Eb(parent, s.headers[parent]), depth - 1, expected);
    }
  }

  lemma SplitLast<T>(front: seq<T>, last: T, left: seq<T>, right: seq<T>)
    requires front + [last] == left + right && right != []
    ensures front == left + right[..|right| - 1] && right == right[..|right| - 1] + [last]
  {
    assert right == right[..|right| - 1] + [right[|right| - 1]];
    assert (front + [last])[|front|] == (left + right)[|front|];
    assert (front + [last])[..|front|] == (left + right)[..|front|];
  }

  /** The height that an advance is measured from: that of the anchor, or else the one below the start block, which has to
      be genesis and above height zero. */
  function BaseHeight(s: ChainDb, anchor: Option<Eb>): Option<nat> {
    if anchor.Some? then Some(anchor.value.header.height)
    else if s.start == s.genesis && s.start in s.headers && s.headers[s.start].height > 0 then
      Some(s.headers[s.start].height - 1)
    else None
  }

  /** The target lies above the anchor by as many blocks as the heights say; without an anchor, above genesis. */
  predicate Reaches(s: ChainDb, target: Eb, anchor: Option<Eb>)
    requires s.EbAcyclic()
  {
    && BaseHeight(s, anchor).Some?
    && (anchor.None? ==> Rooted(s, target.hash))
    && PathTo(s, AnchorHash(anchor)) < PathTo(s, target.hash)
    && |PathTo(s, target.hash)| - |PathTo(s, AnchorHash(anchor))| == target.header.height - BaseHeight(s, anchor).value
  }

  /** An advance succeeds if and only if the anchor is a proper ancestor of the target, as many blocks below it as
      their heights differ; and then it yields exactly the blocks in between.  Heights may be anything. */
  lemma AdvanceChainExact(s: ChainDb, target: Eb, anchor: Option<Eb>)
    requires s.EbAcyclic() && Recorded(s, Some(target)) && Recorded(s, anchor)
    ensures AdvanceChain(s, target, anchor).Ok? <==> Reaches(s, target, anchor)
    ensures AdvanceChain(s, target, anchor).Ok? ==>
              PathTo(s, target.hash) == PathTo(s, AnchorHash(anchor)) + AdvanceChain(s, target, anchor).value
  {
    var from := AnchorHash(anchor);
    if AdvanceChain(s, target, anchor).Ok? {
      AdvanceChainSound(s, target, anchor);
      var (hash, height) := AdvanceBase(s, anchor).value;
      AncestorsCount(s, target, target.header.height - height, hash);
    }
    if Reaches(s, target, anchor) {
      var blocks := PathTo(s, target.hash)[|PathTo(s, from)|..];
      assert PathTo(s, target.hash) == PathTo(s, from) + blocks;
      AncestorsComplete(s, target.hash, from, blocks);
    }
  }

  /** The block `n` parent links below. */
  function Below(s: ChainDb, eb: Hash, n: nat): Option<Hash>
    decreases n
  {
    if n == 0 then Some(eb) else if eb in s.headers then Below(s, s.headers[eb].parent, n - 1) else None
  }

  /** What an error of an advance says about the rows. */
  predicate Explains(s: ChainDb, target: Eb, anchor: Option<Eb>, e: ComputeError) {
    var base := BaseHeight(s, anchor);
    match e
    case StartBlockNotGenesis(start, genesis) => anchor.None? && start == s.start && genesis == s.genesis && start != genesis
    case BlockNotSynced(eb) => anchor.None? && eb == s.start == s.genesis && eb !in s.headers
    case StartBlockHeightZero => anchor.None? && s.start == s.genesis && s.start in s.headers && s.headers[s.start].height == 0
    case TargetEbOlderThanLastAdvanced(height, last) => height == target.header.height && base == Some(last) && height < last
    case TargetEbSameHeightAsLastAdvanced => base == Some(target.header.height)
    case AdvanceChainDisconnected(expected, actual) =>
      && base.Some? && base.value < target.header.height && expected == AnchorHash(anchor)
      && Below(s, target.hash, target.header.height - base.value) == Some(actual) && actual != expected
    case AdvanceChainHeaderMissing(eb) =>
      && base.Some? && eb !in s.headers
      && exists n: nat :: 0 < n < target.header.height - base.value && Below(s, target.hash, n) == Some(eb)
    case _ => false
  }

  /** The walk ends at the block `depth` links below, or at the first unknown block on the way. */
  lemma {:induction false} AncestorsAnswer(s: ChainDb, current: Eb, depth: nat, expected: Hash)
    requires Recorded(s, Some(current)) && depth > 0
    ensures match Ancestors(s, current, depth, expected)
      case Ok(_) => Below(s, current.hash, depth) == Some(expected)
      case Err(AdvanceChainDisconnected(e, actual)) =>
        e == expected && Below(s, current.hash, depth) == Some(actual) && actual != expected
      case Err(AdvanceChainHeaderMissing(eb)) =>
        eb !in s.headers && exists n: nat :: 0 < n < depth && Below(s, current.hash, n) == Some(eb)
      case Err(_) => false
    decreases depth
  {
    var parent := current.header.parent;
    assert Below(s, current.hash, 1) == Below(s, parent, 0) == Some(parent);
    if depth > 1 && parent in s.headers {
      var r := Ancestors(s, Eb(parent, s.headers[parent]), depth - 1, expected);
      AncestorsAnswer(s, Eb(parent, s.headers[parent]), depth - 1, expected);
      if r.Err? && r.error.AdvanceChainHeaderMissing? {
        var n: nat :| 0 < n < depth - 1 && Below(s, parent, n) == Some(r.error.eb);
        assert Below(s, current.hash, n + 1) == Some(r.error.eb);
      }
    }
  }

  /** Every error of an advance is a true statement about the rows. */
  lemma AdvanceChainErrors(s: ChainDb, target: Eb, anchor: Option<Eb>)
    requires Recorded(s, Some(target)) && AdvanceChain(s, target, anchor).Err?
    ensures Explains(s, target, anchor, AdvanceChain(s, target, anchor).error)
  {
    hide Below;
    var base := AdvanceBase(s, anchor);
    if base.Ok? && target.header.height > base.value.1 {
      AncestorsAnswer(s, target, target.header.height - base.value.1, base.value.0);
    }
  }

  /** With heights that go up by one and the start block at genesis, being a proper ancestor is enough. */
  lemma AdvanceChainConsecutive(s: ChainDb, target: Eb, anchor: Option<Eb>)
    requires s.EbAcyclic() && OnlyGenesisIsRoot(s) && HeightsConsecutive(s) && s.start == s.genesis
    requires Recorded(s, Some(target)) && Recorded(s, anchor)
    requires Rooted(s, target.hash) && Rooted(s, AnchorHash(anchor))
    ensures AdvanceChain(s, target, anchor).Ok? <==> PathTo(s, AnchorHash(anchor)) < PathTo(s, target.hash)
  {
    hide AdvanceChain;
    AdvanceChainExact(s, target, anchor);
    PathHeight(s, target.hash);
    if anchor.Some? {
      PathHeight(s, anchor.value.hash);
    } else {
      PathEnd(s, ZERO);
    }
  }

  // ---------------------------------------------------------------------
  // From one operation to a whole MB chain

  lemma {:induction false} LastAdvanceHead(ops: seq<Operation>, before: Hash)
    requires ops != []
    ensures LastAdvance(ops, before) ==
            LastAdvance(ops[1..], if ops[0].AdvanceTillEthereumBlock? then ops[0].block else before)
  {
    if |ops| > 1 && !ops[|ops| - 1].AdvanceTillEthereumBlock? {
      var front := ops[..|ops| - 1];
      LastAdvanceHead(front, before);
      assert front[1..] == ops[1..][..|ops| - 2];
    }
  }

  /** Every persisted MB carries the EB it is advanced to (`process_mb_proposal`); the zero MB carries none. */
  ghost predicate AdvancedRecorded(s: ChainDb) {
    && s.Advanced(ZERO) == ZERO
    && forall mb :: mb in s.compact && mb != ZERO && s.compact[mb].operationsHash in s.operations ==>
      s.Advanced(mb) == LastAdvance(s.operations[s.compact[mb].operationsHash], s.Advanced(s.compact[mb].parent))
  }

  lemma {:induction false} BlockRequestsConcat(s: ChainDb, older: seq<Hash>, newer: seq<Hash>)
    requires BlockRequests(s, older).Ok? && BlockRequests(s, newer).Ok?
    ensures BlockRequests(s, older + newer) == Ok(BlockRequests(s, older).value + BlockRequests(s, newer).value)
  {
    if older == [] {
      assert older + newer == newer;
      assert [] + BlockRequests(s, newer).value == BlockRequests(s, newer).value;
    } else {
      BlockRequestsConcat(s, older[1..], newer);
      assert (older + newer)[1..] == older[1..] + newer;
      var first := Requests(s.events[older[0]]);
      var rest, last := BlockRequests(s, older[1..]).value, BlockRequests(s, newer).value;
      assert first + (rest + last) == first + rest + last;
    }
  }

  predicate HaveEvents(s: ChainDb, blocks: seq<Hash>) {
    forall i :: 0 <= i < |blocks| ==> blocks[i] in s.events
  }

  /** How many request events the logs of the blocks hold. */
  function RequestCount(s: ChainDb, blocks: seq<Hash>): nat
    requires HaveEvents(s, blocks)
  {
    if blocks == [] then 0
    else RequestCount(s, blocks[..|blocks| - 1]) + Count(IsRequest, s.events[blocks[|blocks| - 1]])
  }

  /** The position, among all request events of the blocks, of the j-th event of the i-th block. */
  function PositionOf(s: ChainDb, blocks: seq<Hash>, i: nat, j: nat): nat
    requires HaveEvents(s, blocks) && i < |blocks| && j < |s.events[blocks[i]]|
  {
    RequestCount(s, blocks[..i]) + Count(IsRequest, s.events[blocks[i]][..j])
  }

  /** `delivered` are the request events in the logs of the blocks, block by block and in log order: as many as there are,
      and each at its own position. */
  ghost predicate DeliversLogs(s: ChainDb, blocks: seq<Hash>, delivered: seq<BlockEvent>) {
    && HaveEvents(s, blocks) && |delivered| == RequestCount(s, blocks)
    && forall i, j :: 0 <= i < |blocks| && 0 <= j < |s.events[blocks[i]]| && IsRequest(s.events[blocks[i]][j]) ==>
      PositionOf(s, blocks, i, j) < |delivered| && delivered[PositionOf(s, blocks, i, j)] == s.events[blocks[i]][j]
  }

  /** One block more. */
  lemma DeliversNext(s: ChainDb, blocks: seq<Hash>, delivered: seq<BlockEvent>, eb: Hash)
    requires DeliversLogs(s, blocks, delivered) && eb in s.events
    ensures DeliversLogs(s, blocks + [eb], delivered + Requests(s.events[eb]))
  {
    hide RequestCount, Requests;
    var all, more := blocks + [eb], delivered + Requests(s.events[eb]);
    RequestsExact(s.events[eb]);
    RequestCountNext(s, blocks, eb);
    assert all[..|blocks|] == blocks;
    forall i, j | 0 <= i < |all| && 0 <= j < |s.events[all[i]]| && IsRequest(s.events[all[i]][j])
      ensures PositionOf(s, all, i, j) < |more| && more[PositionOf(s, all, i, j)] == s.events[all[i]][j]
    {
      if i < |blocks| {
        assert all[..i] == blocks[..i] && all[i] == blocks[i];
        assert PositionOf(s, all, i, j) == PositionOf(s, blocks, i, j);
      } else {
        assert PositionOf(s, all, i, j) == |delivered| + Count(IsRequest, s.events[eb][..j]);
      }
    }
  }

  lemma RequestCountNext(s: ChainDb, blocks: seq<Hash>, eb: Hash)
    requires HaveEvents(s, blocks) && eb in s.events
    ensures HaveEvents(s, blocks + [eb])
    ensures RequestCount(s, blocks + [eb]) == RequestCount(s, blocks) + Count(IsRequest, s.events[eb])
  {
    assert (blocks + [eb])[..|blocks|] == blocks;
  }

  predicate FirstWithout(s: ChainDb, blocks: seq<Hash>, i: int) {
    0 <= i < |blocks| && HaveEvents(s, blocks[..i]) && blocks[i] !in s.events
  }

  /** Collecting fails exactly when a block has no events row, and names the first such block. */
  lemma {:induction false} BlockRequestsSucceed(s: ChainDb, blocks: seq<Hash>)
    ensures BlockRequests(s, blocks).Ok? <==> HaveEvents(s, blocks)
    ensures BlockRequests(s, blocks).Err? ==>
              exists i :: FirstWithout(s, blocks, i) && BlockRequests(s, blocks) == Err(AdvanceBlockEventsMissing(blocks[i]))
  {
    if blocks != [] {
      var rest := blocks[1..];
      BlockRequestsSucceed(s, rest);
      assert blocks == [blocks[0]] + rest;
      if blocks[0] !in s.events {
        assert FirstWithout(s, blocks, 0);
      } else if BlockRequests(s, rest).Err? {
        var i :| FirstWithout(s, rest, i) && BlockRequests(s, rest) == Err(AdvanceBlockEventsMissing(rest[i]));
        assert blocks[..i + 1] == [blocks[0]] + rest[..i] && blocks[i + 1] == rest[i];
        assert FirstWithout(s, blocks, i + 1);
      }
    }
  }

  /** What is collected from the blocks, by positions in their own logs. */
  lemma {:induction false} BlockRequestsExact(s: ChainDb, blocks: seq<Hash>)
    requires BlockRequests(s, blocks).Ok?
    ensures DeliversLogs(s, blocks, BlockRequests(s, blocks).value)
  {
    hide Requests;
    if blocks != [] {
      var front, last := blocks[..|blocks| - 1], blocks[|blocks| - 1];
      assert blocks == front + [last] && [last][0] == last;
      BlockRequestsSucceed(s, blocks);
      assert last in s.events;
      BlockRequestsSucceed(s, front);
      BlockRequestsExact(s, front);
      OneBlock(s, last);
      BlockRequestsConcat(s, front, [last]);
      hide BlockRequests;
      DeliversNext(s, front, BlockRequests(s, front).value, last);
    }
  }

  lemma OneBlock(s: ChainDb, eb: Hash)
    requires eb in s.events
    ensures BlockRequests(s, [eb]) == Ok(Requests(s.events[eb]))
  {
    assert [eb][1..] == [];
    assert Requests(s.events[eb]) + [] == Requests(s.events[eb]);
  }

  /** `delivered` are the request events of all EBs up to the anchor. */
  ghost predicate Delivers(s: ChainDb, anchor: Hash, delivered: seq<BlockEvent>)
    requires s.EbAcyclic()
  {
    Rooted(s, anchor) && BlockRequests(s, PathTo(s, anchor)) == Ok(delivered)
  }

  lemma {:induction false} OperationsDeliver(s: ChainDb, ops: seq<Operation>, plan: Plan, before: seq<BlockEvent>)
    requires s.EbAcyclic() && Recorded(s, plan.anchor)
    requires Delivers(s, AnchorHash(plan.anchor), before + plan.events)
    requires ApplyOperations(s, ops, plan).Ok?
    ensures var after := ApplyOperations(s, ops, plan).value;
      && AnchorHash(after.anchor) == LastAdvance(ops, AnchorHash(plan.anchor))
      && Recorded(s, after.anchor)
      && Delivers(s, AnchorHash(after.anchor), before + after.events)
    decreases |ops|
  {
    if ops != [] {
      LastAdvanceHead(ops, AnchorHash(plan.anchor));
      var next := ApplyOperation(s, ops[0], plan).value;
      if ops[0].AdvanceTillEthereumBlock? {
        var target := Eb(ops[0].block, s.headers[ops[0].block]);
        AdvanceChainSound(s, target, plan.anchor);
        var blocks := AdvanceChain(s, target, plan.anchor).value;
        BlockRequestsConcat(s, PathTo(s, AnchorHash(plan.anchor)), blocks);
        assert before + plan.events + BlockRequests(s, blocks).value == before + next.events;
      }
      OperationsDeliver(s, ops[1..], next, before);
    }
  }

  /** All events handed to the executor by the MBs from the zero MB up to `mb`. */
  function DeliveredUpTo(s: ChainDb, seed: Finalized, process: Executable -> Finalized, mb: Hash): seq<BlockEvent>
    requires s.MbAcyclic() && Replay(s, seed, process, mb).Ok?
    decreases s.MbRank(mb)
  {
    if mb == ZERO then []
    else DeliveredUpTo(s, seed, process, s.compact[mb].parent) + ExecutableOf(s, seed, process, mb).events
  }

  /** The input on which an executable MB is executed. */
  function ExecutableOf(s: ChainDb, seed: Finalized, process: Executable -> Finalized, mb: Hash): Executable
    requires s.MbAcyclic() && mb != ZERO && Replay(s, seed, process, mb).Ok?
  {
    var CompactMb(parent, _, payload) := s.compact[mb];
    var before := Replay(s, seed, process, parent).value;
    Build(s, s.operations[payload], before.states, before.schedule, s.Advanced(parent)).value
  }

  /** Main result: the events of an executable MB chain are exactly the request
      events in the logs of the EBs on the path from genesis to the final anchor,
      each block once, in parent-link order and in log order; and execution is
      dated by that anchor. */
  lemma {:induction false} EventsDeliveredExactlyOnce(s: ChainDb, seed: Finalized, process: Executable -> Finalized, mb: Hash)
    requires s.MbAcyclic() && s.EbAcyclic() && OnlyGenesisIsRoot(s) && AdvancedRecorded(s)
    requires Replay(s, seed, process, mb).Ok?
    ensures var anchor := s.Advanced(mb);
      && Rooted(s, anchor)
      && BlockRequests(s, PathTo(s, anchor)) == Ok(DeliveredUpTo(s, seed, process, mb))
      && DeliversLogs(s, PathTo(s, anchor), DeliveredUpTo(s, seed, process, mb))
      && Distinct(PathTo(s, anchor))
      && (mb != ZERO && anchor != ZERO ==>
            PathTo(s, anchor)[0] == s.genesis && ExecutableOf(s, seed, process, mb).height == s.headers[anchor].height)
    decreases s.MbRank(mb)
  {
    hide DeliversLogs;
    if mb != ZERO {
      var CompactMb(parent, _, payload) := s.compact[mb];
      EventsDeliveredExactlyOnce(s, seed, process, parent);
      var ops := s.operations[payload];
      var anchor := InitialAnchor(s, s.Advanced(parent)).value;
      var before := DeliveredUpTo(s, seed, process, parent);
      assert before + [] == before;
      OperationsDeliver(s, ops, EmptyPlan(anchor), before);
    }
    PathShape(s, s.Advanced(mb));
    BlockRequestsExact(s, PathTo(s, s.Advanced(mb)));
  }

  // ---------------------------------------------------------------------
  // When an executable can be built

  /** The anchor as it is stored; the zero hash stands for none. */
  function AnchorOf(s: ChainDb, eb: Hash): Option<Eb> {
    if eb in s.headers then Some(Eb(eb, s.headers[eb])) else None
  }

  /** Operation `i`, if it advances, reaches a known block from where the operations before it stand, over blocks whose
      events are known. */
  predicate CanAdvance(s: ChainDb, ops: seq<Operation>, advanced: Hash, i: nat)
    requires s.EbAcyclic() && i < |ops|
  {
    ops[i].AdvanceTillEthereumBlock? ==>
      var from, to := LastAdvance(ops[..i], advanced), ops[i].block;
      && to in s.headers && Reaches(s, Eb(to, s.headers[to]), AnchorOf(s, from))
      && HaveEvents(s, PathTo(s, to)[|PathTo(s, from)|..])
  }

  lemma AdvanceSucceeds(s: ChainDb, block: Hash, plan: Plan)
    requires s.EbAcyclic() && Recorded(s, plan.anchor)
    ensures ApplyOperation(s, AdvanceTillEthereumBlock(block), plan).Ok? <==>
            && block in s.headers && Reaches(s, Eb(block, s.headers[block]), plan.anchor)
            && HaveEvents(s, PathTo(s, block)[|PathTo(s, AnchorHash(plan.anchor))|..])
  {
    hide AdvanceChain, Reaches, PathTo, BlockRequests;
    if block in s.headers {
      var target := Eb(block, s.headers[block]);
      AdvanceChainExact(s, target, plan.anchor);
      if AdvanceChain(s, target, plan.anchor).Ok? {
        var blocks, from := AdvanceChain(s, target, plan.anchor).value, PathTo(s, AnchorHash(plan.anchor));
        assert PathTo(s, block)[|from|..] == blocks;
        BlockRequestsSucceed(s, blocks);
      } else {
        assert !Reaches(s, target, plan.anchor);
      }
    }
  }

  /** The operations before `n` succeed exactly when each of their advances can be made. */
  lemma {:induction false} OperationsSucceed(s: ChainDb, ops: seq<Operation>, anchor: Option<Eb>, n: nat)
    requires s.EbAcyclic() && Recorded(s, anchor) && n <= |ops|
    ensures ApplyOperations(s, ops[..n], EmptyPlan(anchor)).Ok? <==>
            forall i :: 0 <= i < n ==> CanAdvance(s, ops, AnchorHash(anchor), i)
  {
    hide ApplyOperations, Reaches, PathTo, HaveEvents, LastAdvance;
    if n == 0 {
      assert ops[..0] == [];
      NoOperations(s, EmptyPlan(anchor));
    } else {
      var k := n - 1;
      OperationsSucceed(s, ops, anchor, k);
      assert ops[..n][..k] == ops[..k];
      ApplyLast(s, ops[..n], EmptyPlan(anchor));
      var before := ApplyOperations(s, ops[..k], EmptyPlan(anchor));
      if before.Ok? {
        OperationsMeaning(s, ops[..k], anchor);
        assert ops[..n][k] == ops[k];
        if ops[k].AdvanceTillEthereumBlock? {
          assert ops[k] == AdvanceTillEthereumBlock(ops[k].block);
          AdvanceSucceeds(s, ops[k].block, before.value);
          AnchorIsStored(s, before.value.anchor);
          assert CanAdvance(s, ops, AnchorHash(anchor), k) <==> ApplyOperation(s, ops[k], before.value).Ok?;
        }
      }
    }
  }

  lemma AnchorIsStored(s: ChainDb, anchor: Option<Eb>)
    requires s.EbAcyclic() && Recorded(s, anchor)
    ensures AnchorOf(s, AnchorHash(anchor)) == anchor
  {
  }

  /** An executable can be built if and only if the parent's anchor is known or zero, every advance can be made, and, when
      nothing was ever advanced to, the header of genesis is known. */
  lemma BuildSucceeds(s: ChainDb, ops: seq<Operation>, states: ProgramStates, schedule: Schedule, advanced: Hash)
    requires s.EbAcyclic()
    ensures Build(s, ops, states, schedule, advanced).Ok? <==>
            && (advanced == ZERO || advanced in s.headers)
            && (forall i :: 0 <= i < |ops| ==> CanAdvance(s, ops, advanced, i))
            && (LastAdvance(ops, advanced) == ZERO ==> s.genesis in s.headers)
  {
    hide ApplyOperations, CanAdvance, LastAdvance;
    if advanced == ZERO || advanced in s.headers {
      var anchor := InitialAnchor(s, advanced).value;
      OperationsSucceed(s, ops, anchor, |ops|);
      assert ops[..|ops|] == ops;
      var plan := ApplyOperations(s, ops, EmptyPlan(anchor));
      if plan.Ok? {
        OperationsMeaning(s, ops, anchor);
        AnchorIsStored(s, plan.value.anchor);
      }
    }
  }

  // ---------------------------------------------------------------------
  // Persisting a proposal establishes the recorded anchor

  datatype ProposalWrite =
    | SetOperations(hash: Hash, operations: seq<Operation>)
    | SetCompact(mb: Hash, compact: CompactMb)
    | SetAdvanced(mb: Hash, eb: Hash)

  function ApplyProposalWrite(s: ChainDb, w: ProposalWrite): ChainDb {
    match w
    case SetOperations(hash, ops) => s.(operations := s.operations[hash := ops])
    case SetCompact(mb, compact) => s.(compact := s.compact[mb := compact])
    case SetAdvanced(mb, eb) => s.(advanced := s.advanced[mb := eb])
  }

  /** The anchor of a new MB: its last advance target, or its parent's anchor. */
  function PropagatedAnchor(s: ChainDb, compact: CompactMb, ops: seq<Operation>): Hash {
    LastAdvance(ops, if compact.parent == ZERO then ZERO else s.Advanced(compact.parent))
  }

  /** `process_mb_proposal`: payload, identity and the propagated anchor of a new MB, in this order. */
  function ProposalWrites(s: ChainDb, mb: Hash, compact: CompactMb, ops: seq<Operation>): seq<ProposalWrite> {
    [SetOperations(compact.operationsHash, ops), SetCompact(mb, compact), SetAdvanced(mb, PropagatedAnchor(s, compact, ops))]
  }

  /** The database after the first `n` writes. */
  function PersistSteps(s: ChainDb, mb: Hash, compact: CompactMb, ops: seq<Operation>, n: nat): ChainDb
    requires n <= 3
  {
    if n == 0 then s
    else ApplyProposalWrite(PersistSteps(s, mb, compact, ops, n - 1), ProposalWrites(s, mb, compact, ops)[n - 1])
  }

  /** A proposal that has not been seen, above a persisted parent. */
  ghost predicate IsNewProposal(s: ChainDb, mb: Hash, compact: CompactMb, ops: seq<Operation>) {
    && mb != ZERO && mb !in s.compact && mb != compact.parent && mb !in s.advanced
    && (forall other :: other in s.compact && other != ZERO ==>
          s.compact[other].parent != mb && s.compact[other].operationsHash in s.operations)
    && (compact.parent == ZERO || (compact.parent in s.compact && s.compact[compact.parent].height < compact.height))
    && (compact.operationsHash in s.operations ==> s.operations[compact.operationsHash] == ops)
  }

  lemma PersistedSoFar(s: ChainDb, mb: Hash, compact: CompactMb, ops: seq<Operation>, n: nat)
    requires n <= 3
    ensures PersistSteps(s, mb, compact, ops, n) ==
            s.(operations := if n >= 1 then s.operations[compact.operationsHash := ops] else s.operations,
               compact := if n >= 2 then s.compact[mb := compact] else s.compact,
               advanced := if n >= 3 then s.advanced[mb := PropagatedAnchor(s, compact, ops)] else s.advanced)
  {
    if n > 0 {
      PersistedSoFar(s, mb, compact, ops, n - 1);
    }
  }

  /** Each write of a new proposal leaves MB heights decreasing and changes no persisted row but, once, the anchor of the
      new MB; every persisted MB carries its anchor after the last write, and in between exactly when that of the new one
      is zero or its row is not there yet. */
  lemma EveryPersistStep(s: ChainDb, mb: Hash, compact: CompactMb, ops: seq<Operation>, n: nat)
    requires s.MbAcyclic() && AdvancedRecorded(s) && IsNewProposal(s, mb, compact, ops) && n <= 3
    ensures var s' := PersistSteps(s, mb, compact, ops, n);
      && s.Grows(s') && s'.MbAcyclic()
      && (AdvancedRecorded(s') <==> n != 2 || PropagatedAnchor(s, compact, ops) == ZERO)
  {
    hide PersistSteps, AdvancedRecorded;
    PersistedSoFar(s, mb, compact, ops, n);
    PersistedAnchors(s, mb, compact, ops, n);
  }

  lemma PersistedAnchors(s: ChainDb, mb: Hash, compact: CompactMb, ops: seq<Operation>, n: nat)
    requires AdvancedRecorded(s) && IsNewProposal(s, mb, compact, ops) && n <= 3
    ensures AdvancedRecorded(PersistSteps(s, mb, compact, ops, n)) <==>
            n != 2 || PropagatedAnchor(s, compact, ops) == ZERO
  {
    hide PersistSteps, LastAdvance;
    PersistedSoFar(s, mb, compact, ops, n);
    var s' := PersistSteps(s, mb, compact, ops, n);
    if n >= 2 {
      assert s'.compact[mb] == compact && s'.operations[compact.operationsHash] == ops;
      assert AdvancedRecorded(s') ==> s'.Advanced(mb) == LastAdvance(ops, s'.Advanced(compact.parent));
    }
  }

  // ---------------------------------------------------------------------
  // Chain data that is written proposal by proposal

  /** Every persisted MB has its operations, a persisted parent and its anchor; and only persisted MBs have an anchor. */
  ghost predicate Persisted(s: ChainDb) {
    && AdvancedRecorded(s)
    && (forall mb :: mb in s.advanced ==> mb in s.compact)
    && forall mb :: mb in s.compact && mb != ZERO ==>
      && mb in s.advanced && s.compact[mb].operationsHash in s.operations
      && (s.compact[mb].parent == ZERO || s.compact[mb].parent in s.compact)
  }

  /** A proposal above a persisted parent.  Hashes stand for their content, also when a proposal is seen again. */
  ghost predicate IsProposal(s: ChainDb, mb: Hash, compact: CompactMb, ops: seq<Operation>) {
    && mb != ZERO
    && (compact.parent == ZERO || (compact.parent in s.compact && s.compact[compact.parent].height < compact.height))
    && (compact.operationsHash in s.operations ==> s.operations[compact.operationsHash] == ops)
    && (mb in s.compact ==> s.compact[mb] == compact)
  }

  lemma SeenAgain(s: ChainDb, mb: Hash, compact: CompactMb, ops: seq<Operation>)
    requires Persisted(s) && IsProposal(s, mb, compact, ops) && mb in s.compact
    ensures PersistSteps(s, mb, compact, ops, 3) == s
  {
    hide PersistSteps, LastAdvance;
    PersistedSoFar(s, mb, compact, ops, 3);
    assert s.operations[compact.operationsHash := ops] == s.operations && s.compact[mb := compact] == s.compact;
    assert s.advanced[mb] == PropagatedAnchor(s, compact, ops);
    assert s.advanced[mb := s.advanced[mb]] == s.advanced;
  }

  /** Processing a whole proposal, new or seen before, keeps every MB persisted with its anchor, and only adds rows. */
  lemma ProposalKeeps(s: ChainDb, mb: Hash, compact: CompactMb, ops: seq<Operation>)
    requires s.MbAcyclic() && Persisted(s) && IsProposal(s, mb, compact, ops)
    ensures var s' := PersistSteps(s, mb, compact, ops, 3);
      && Persisted(s') && s'.MbAcyclic() && s.Grows(s') && s'.headers == s.headers && s'.events == s.events
  {
    hide PersistSteps, LastAdvance;
    if mb in s.compact {
      SeenAgain(s, mb, compact, ops);
    } else {
      assert IsNewProposal(s, mb, compact, ops);
      EveryPersistStep(s, mb, compact, ops, 3);
      PersistedSoFar(s, mb, compact, ops, 3);
      hide AdvancedRecorded;
    }
  }
}
