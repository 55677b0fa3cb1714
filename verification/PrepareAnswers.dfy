/**
 What every poll of the prepare sub-service answers, read off the stored rows:
 which blocks are prepared, which codes are asked for, and what an error says.
 */
module PrepareAnswers {
  import opened Base
  import opened Chain
  import opened Prepare
  import opened PrepareMeta
  import opened PrepareRuns

  // ---------------------------------------------------------------------
  // The way down from a block

  /** Unprepared blocks with header and events, each the parent of the next, from the child of `below` up to `head`;
      there are none when `below` is the head itself. */
  ghost predicate WayDown(db: Db, path: seq<Hash>, head: Hash, below: Hash) {
    && (forall i :: 0 <= i < |path| ==>
          path[i] in db.blocks.headers && path[i] in db.blocks.events && !db.Meta(path[i]).prepared)
    && (forall i :: 0 < i < |path| ==> db.blocks.headers[path[i]].parent == path[i - 1])
    && (if path == [] then below == head else path[|path| - 1] == head && db.blocks.headers[path[0]].parent == below)
  }

  /** The way ends above a prepared block. */
  ghost predicate WayToPrepared(db: Db, path: seq<Hash>, head: Hash, below: Hash) {
    WayDown(db, path, head, below) && db.Meta(below).prepared
  }

  function Hashes(chain: seq<BlockData>): seq<Hash> {
    seq(|chain|, i requires 0 <= i < |chain| => chain[i].hash)
  }

  function BelowOf(chain: seq<BlockData>, head: Hash): Hash {
    if chain == [] then head else chain[0].header.parent
  }

  /** The chain holds what is stored. */
  predicate StoredChain(db: Db, chain: seq<BlockData>) {
    forall i :: 0 <= i < |chain| ==>
      && Lookup(db.blocks.headers, chain[i].hash) == Some(chain[i].header)
      && Lookup(db.blocks.events, chain[i].hash) == Some(chain[i].events)
  }

  lemma CollectedWay(db: Db, head: Hash)
    requires UnpreparedChain(db, head).Ok?
    ensures var chain := UnpreparedChain(db, head).value;
      StoredChain(db, chain) && WayToPrepared(db, Hashes(chain), head, BelowOf(chain, head)) && Linked(chain)
  {
    hide UnpreparedChain;
    CollectedChainRight(db, head);
  }

  /** A chain that is waiting for codes is such a way. */
  lemma WaitingWay(db: Db, codes: set<CodeId>, chain: seq<BlockData>)
    requires ChainRight(db, codes, chain) && chain != []
    ensures var head := chain[|chain| - 1].hash;
      StoredChain(db, chain) && WayToPrepared(db, Hashes(chain), head, BelowOf(chain, head)) && Linked(chain)
  {
    forall i | 0 <= i < |chain|
      ensures BlockRight(db, codes, chain[i])
    {
    }
    hide BlockRight;
    forall i | 0 <= i < |chain|
      ensures Lookup(db.blocks.headers, chain[i].hash) == Some(chain[i].header)
      ensures Lookup(db.blocks.events, chain[i].hash) == Some(chain[i].events) && !db.Meta(chain[i].hash).prepared
    {
      StoredBlock(db, codes, chain[i]);
    }
  }

  lemma StoredBlock(db: Db, codes: set<CodeId>, block: BlockData)
    requires BlockRight(db, codes, block)
    ensures Lookup(db.blocks.headers, block.hash) == Some(block.header)
    ensures Lookup(db.blocks.events, block.hash) == Some(block.events) && !db.Meta(block.hash).prepared
  {
  }

  /** Collecting a chain fails at the first unprepared block below the head that has no header or no events. */
  lemma {:induction false} CollectingFails(db: Db, head: Hash) returns (path: seq<Hash>, below: Hash)
    requires UnpreparedChain(db, head).Err?
    ensures WayDown(db, path, head, below) && !db.Meta(below).prepared
    ensures if below in db.blocks.headers then
              below !in db.blocks.events && UnpreparedChain(db, head) == Err(BlockEventsNotFound(below))
            else UnpreparedChain(db, head) == Err(BlockHeaderNotFound(below))
    decreases db.blocks.Rank(head)
  {
    path, below := [], head;
    if head in db.blocks.headers && head in db.blocks.events {
      var older;
      older, below := CollectingFails(db, db.blocks.headers[head].parent);
      path := older + [head];
    }
  }

  // ---------------------------------------------------------------------
  // What preparing a chain does

  /** Preparing stops before block `k` of the chain: the blocks before it are prepared, no other metadata has changed, and
      the last of them is the latest prepared one. */
  ghost predicate PreparesUpTo(db: Db, chain: seq<BlockData>, k: nat, after: Db) {
    && k <= |chain|
    && (forall i :: 0 <= i < k ==> after.Meta(chain[i].hash).prepared)
    && (forall b :: (forall i :: 0 <= i < k ==> chain[i].hash != b) ==> after.Meta(b) == db.Meta(b))
    && after.latestPrepared == if k == 0 then db.latestPrepared else chain[k - 1].hash
  }

  lemma {:induction false} PrepareAllEffect(db: Db, chain: seq<BlockData>, orders: Orders) returns (k: nat)
    ensures PreparesUpTo(db, chain, k, PrepareAll(db, chain, orders).0)
    ensures PrepareAll(db, chain, orders).1.None? <==> k == |chain|
    decreases |chain|
  {
    k := 0;
    if chain != [] && PrepareOne(db, chain[0], orders).Ok? {
      var next := PrepareOne(db, chain[0], orders).value;
      OnePrepared(db, chain[0], orders);
      var rest := PrepareAllEffect(next, chain[1..], orders);
      k := rest + 1;
      PreparesOneMore(db, chain, next, rest, PrepareAll(db, chain, orders).0);
    }
  }

  lemma OnePrepared(db: Db, block: BlockData, orders: Orders)
    requires PrepareOne(db, block, orders).Ok?
    ensures PreparesUpTo(db, [block], 1, PrepareOne(db, block, orders).value)
  {
  }

  lemma PreparesOneMore(db: Db, chain: seq<BlockData>, next: Db, k: nat, after: Db)
    requires chain != [] && PreparesUpTo(db, [chain[0]], 1, next) && PreparesUpTo(next, chain[1..], k, after)
    ensures PreparesUpTo(db, chain, k + 1, after)
  {
    var rest := chain[1..];
    forall i | 0 <= i < k + 1
      ensures after.Meta(chain[i].hash).prepared
    {
      if i > 0 {
        assert chain[i] == rest[i - 1];
      } else {
        assert next.Meta([chain[0]][0].hash).prepared;
      }
    }
    forall b | forall i :: 0 <= i < k + 1 ==> chain[i].hash != b
      ensures after.Meta(b) == db.Meta(b)
    {
      assert chain[0].hash != b;
      assert forall i :: 0 <= i < k ==> rest[i] == chain[i + 1];
    }
  }

  /** What an error of preparing a chain says about the base it starts from and the events of the chain. */
  ghost predicate PreparingError(base: BlockMeta, below: Hash, events: seq<BlockEvent>, e: PrepareError) {
    match e
    case LastCommittedBatchNotFound(x) => x == below && base.lastCommittedBatch.None?
    case CodesQueueNotFound(x) => x == below && base.lastCommittedBatch.Some? && base.codesQueue.None?
    case CommittedEraNotFound(x) =>
      x == below && base.lastCommittedBatch.Some? && base.codesQueue.Some? && base.latestEra.None?
    case ValidatorsCommittedForEarlierEra(previous, committed) =>
      Complete(base) && exists j :: EraGoesBack(base.latestEra.value, events, j, previous, committed)
    case _ => false
  }

  /** Event `j` is the first that commits an earlier era than the one before it. */
  ghost predicate EraGoesBack(era: nat, events: seq<BlockEvent>, j: int, previous: nat, committed: nat) {
    && 0 <= j < |events| && events[j] == ValidatorsCommittedForEra(committed)
    && ErasNondecreasing(era, events[..j]) && previous == EraAfter(era, events[..j]) && committed < previous
  }

  lemma EraAfterConcat(era: nat, older: seq<BlockEvent>, newer: seq<BlockEvent>)
    ensures EraAfter(era, older + newer) == EraAfter(EraAfter(era, older), newer)
  {
    LatestConcat(EraOf, older, newer);
  }

  /** Events before do not change where an era goes back. */
  lemma GoesBackLater(era: nat, older: seq<BlockEvent>, newer: seq<BlockEvent>, j: nat, previous: nat, committed: nat)
    requires ErasNondecreasing(era, older) && EraGoesBack(EraAfter(era, older), newer, j, previous, committed)
    ensures EraGoesBack(era, older + newer, |older| + j, previous, committed)
  {
    hide ErasNondecreasing, EraAfter;
    assert (older + newer)[..|older| + j] == older + newer[..j];
    ErasNondecreasingConcat(era, older, newer[..j]);
    EraAfterConcat(era, older, newer[..j]);
  }

  lemma {:induction false} FoldingFails(f: Fold, events: seq<BlockEvent>) returns (j: nat)
    requires FoldEvents(f, events).Err?
    ensures FoldEvents(f, events).error.ValidatorsCommittedForEarlierEra?
    ensures var e := FoldEvents(f, events).error; EraGoesBack(f.era, events, j, e.previous, e.committed)
    decreases |events|
  {
    if FoldEvent(f, events[0]).Err? {
      j := 0;
      assert events[..0] == [];
    } else {
      var first, rest := [events[0]], events[1..];
      assert events == first + rest;
      FoldOne(f, events[0]);
      var k := FoldingFails(FoldEvent(f, events[0]).value, rest);
      var e := FoldEvents(f, events).error;
      GoesBackLater(f.era, first, rest, k, e.previous, e.committed);
      j := k + 1;
    }
  }

  lemma OneFails(db: Db, block: BlockData, orders: Orders)
    requires PrepareOne(db, block, orders).Err?
    ensures PreparingError(db.Meta(block.header.parent), block.header.parent, block.events, PrepareOne(db, block, orders).error)
  {
    hide EraGoesBack;
    var base := db.Meta(block.header.parent);
    if Complete(base) {
      var j := FoldingFails(Fold(base.lastCommittedBatch.value, base.latestEra.value, None, None, {}, {}), block.events);
    }
  }

  /** Why preparing a chain fails. */
  lemma {:induction false} AllFails(db: Db, chain: seq<BlockData>, orders: Orders)
    requires chain != [] && Linked(chain) && PrepareAll(db, chain, orders).1.Some?
    ensures var below := chain[0].header.parent;
      PreparingError(db.Meta(below), below, EventsOf(chain), PrepareAll(db, chain, orders).1.value)
    decreases |chain|
  {
    hide PrepareOne, EraGoesBack, ErasNondecreasing, EraAfter;
    var first, rest := chain[0], chain[1..];
    PrepareOneSucceeds(db, first, orders);
    var base := db.Meta(first.header.parent);
    if PrepareOne(db, first, orders).Err? {
      OneFails(db, first, orders);
      var e := PrepareOne(db, first, orders).error;
      if e.ValidatorsCommittedForEarlierEra? {
        var j :| EraGoesBack(base.latestEra.value, first.events, j, e.previous, e.committed);
        GoesBackSooner(base.latestEra.value, first.events, EventsOf(rest), j, e.previous, e.committed);
      }
    } else {
      var next := PrepareOne(db, first, orders).value;
      assert Linked(rest) && rest != [] && rest[0].header.parent == first.hash;
      AllFails(next, rest, orders);
      var e := PrepareAll(db, chain, orders).1.value;
      var era := base.latestEra.value;
      var j :| EraGoesBack(EraAfter(era, first.events), EventsOf(rest), j, e.previous, e.committed);
      InEvents(EraAfter(era, first.events), EventsOf(rest), j, e.previous, e.committed);
      GoesBackLater(era, first.events, EventsOf(rest), j, e.previous, e.committed);
    }
  }

  lemma InEvents(era: nat, events: seq<BlockEvent>, j: int, previous: nat, committed: nat)
    requires EraGoesBack(era, events, j, previous, committed)
    ensures 0 <= j < |events|
  {
  }

  lemma GoesBackSooner(era: nat, older: seq<BlockEvent>, newer: seq<BlockEvent>, j: int, previous: nat, committed: nat)
    requires EraGoesBack(era, older, j, previous, committed)
    ensures EraGoesBack(era, older + newer, j, previous, committed)
  {
    assert (older + newer)[..j] == older[..j];
  }

  // ---------------------------------------------------------------------
  // Awaited codes

  /** Some block of the chain reports the code as validated. */
  predicate ReportsValidated(chain: seq<BlockData>, c: CodeId) {
    exists i :: 0 <= i < |chain| && c in Validated(chain[i].events)
  }

  /** Waited for are exactly the codes of unknown validity that the chain reports as validated. */
  ghost predicate AwaitsExactly(db: Db, state: State) {
    state.WaitingForCodes? ==> forall c :: c in state.codes <==> c !in db.codeValid && ReportsValidated(state.chain, c)
  }

  lemma CollectedAwaits(db: Db, chain: seq<BlockData>, isStart: bool)
    requires Missing(db, chain, isStart).Ok?
    ensures AwaitsExactly(db, WaitingForCodes(Missing(db, chain, isStart).value.validatedCodes, chain))
  {
  }

  lemma PreparedAwaits(s: System, orders: Orders)
    requires AwaitsExactly(s.db, s.state)
    ensures var after := PrepareCollected(s, orders).0; AwaitsExactly(after.db, after.state)
  {
    hide PrepareAll;
  }

  lemma PollAwaits(s: System, codes: CodesPoll, orders: Orders)
    requires AwaitsExactly(s.db, s.state)
    requires forall i :: 0 <= i < |s.processions| && s.processions[i].Ready? ==> s.processions[i].code in s.db.codeValid
    ensures var after := Poll(s, codes, orders).0; AwaitsExactly(after.db, after.state)
  {
    hide UnpreparedChain, Missing, PrepareCollected, ReportsValidated;
    if !CodeYielded(s, codes) {
      if s.state.WaitingForCodes? {
        PreparedAwaits(s, orders);
      } else if s.input != [] && s.input[|s.input| - 1] in s.db.blocks.synced {
        match UnpreparedChain(s.db, s.input[|s.input| - 1]) {
          case Err(_) =>
          case Ok(chain) =>
            var missing := Missing(s.db, chain, s.state.Start?);
            if missing.Ok? {
              CollectedAwaits(s.db, chain, s.state.Start?);
              var waiting := WaitingForCodes(missing.value.validatedCodes, chain);
              PreparedAwaits(s.(input := s.input[..|s.input| - 1], state := waiting), orders);
            }
        }
      }
    }
  }

  /** In every state of every run the codes waited for are exactly those of unknown validity that the collected chain
      reports as validated. */
  lemma {:induction false} AwaitedExact(roots: set<Hash>, worlds: seq<World>, steps: seq<Step>, n: nat)
    requires IsRun(roots, worlds, steps) && n < |worlds|
    ensures AwaitsExactly(worlds[n].s.db, worlds[n].s.state)
  {
    hide AwaitsExactly, Poll, Safe, PreparingFails, NewlyPrepared;
    if n == 0 {
      NothingAwaited(worlds[0].s.db);
    } else {
      var k := n - 1;
      AwaitedExact(roots, worlds, steps, k);
      EveryRunIsSafe(roots, worlds, steps, k);
      assert Follows(worlds[k], steps[k], worlds[k + 1]);
      match steps[k] {
        case PollStep(codes, orders) =>
          ReadyAreKnown(roots, worlds[k]);
          PollAwaits(worlds[k].s, codes, orders);
        case NewBlocks(blocks) => SameCodes(worlds[k].s.db, worlds[n].s.db, worlds[k].s.state);
        case _ =>
      }
    }
  }

  lemma NothingAwaited(db: Db)
    ensures AwaitsExactly(db, Start)
  {
  }

  lemma SameCodes(db: Db, db': Db, state: State)
    requires AwaitsExactly(db, state) && db'.codeValid == db.codeValid
    ensures AwaitsExactly(db', state)
  {
  }

  lemma ReadyAreKnown(roots: set<Hash>, w: World)
    requires Safe(roots, w)
    ensures forall i :: 0 <= i < |w.s.processions| && w.s.processions[i].Ready? ==> w.s.processions[i].code in w.s.db.codeValid
  {
  }

  // ---------------------------------------------------------------------
  // The answer to a poll

  /** The events of the blocks of a path, in order. */
  function EventsOn(db: Db, path: seq<Hash>): seq<BlockEvent> {
    if path == [] then []
    else (if path[0] in db.blocks.events then db.blocks.events[path[0]] else []) + EventsOn(db, path[1..])
  }

  lemma {:induction false} EventsOnChain(db: Db, chain: seq<BlockData>)
    requires StoredChain(db, chain)
    ensures EventsOn(db, Hashes(chain)) == EventsOf(chain)
  {
    if chain != [] {
      assert Hashes(chain)[1..] == Hashes(chain[1..]);
      EventsOnChain(db, chain[1..]);
    }
  }

  /** The events request the code or report it as validated. */
  predicate Names(events: seq<BlockEvent>, c: CodeId) {
    c in Requested(events) || c in Validated(events)
  }

  /** The code is needed for the way: its validity is unknown, and a block on it requests it or reports it as validated,
      or, at the very start, the block below still has it queued. */
  predicate NeedsCode(s: System, path: seq<Hash>, below: Hash, c: CodeId) {
    && c !in s.db.codeValid
    && (|| (exists i :: 0 <= i < |path| && path[i] in s.db.blocks.events && Names(s.db.blocks.events[path[i]], c))
        || (s.state.Start? && s.db.Meta(below).codesQueue.Some? && c in s.db.Meta(below).codesQueue.value))
  }

  /** The codes are exactly those needed for the way down from the block. */
  ghost predicate AsksRight(s: System, block: Hash, codes: set<CodeId>) {
    exists path, below ::
      && path != [] && WayToPrepared(s.db, path, block, below)
      && forall c :: c in codes <==> NeedsCode(s, path, below, c)
  }

  /** The whole way down from the block has become prepared, and nothing else has changed its metadata; the block is the
      latest prepared one, if it was not prepared before. */
  ghost predicate PreparesWay(db: Db, block: Hash, after: Db) {
    exists path, below ::
      && WayToPrepared(db, path, block, below)
      && (forall i :: 0 <= i < |path| ==> after.Meta(path[i]).prepared)
      && (forall b :: b !in path ==> after.Meta(b) == db.Meta(b))
      && after.latestPrepared == if path == [] then db.latestPrepared else block
  }

  /** Preparing the way down from the block gives this error. */
  ghost predicate FailsPreparing(db: Db, block: Hash, e: PrepareError) {
    exists path, below ::
      && path != [] && WayToPrepared(db, path, block, below)
      && PreparingError(db.Meta(below), below, EventsOn(db, path), e)
  }

  /** What an error says about the rows. */
  ghost predicate ErrorRight(s: System, block: Hash, e: PrepareError) {
    match e
    case BlockNotSynced(x) => !s.state.WaitingForCodes? && x == block && block !in s.db.blocks.synced
    case BlockHeaderNotFound(x) =>
      && !s.state.WaitingForCodes? && !s.db.Meta(x).prepared && x !in s.db.blocks.headers
      && exists path :: WayDown(s.db, path, block, x)
    case BlockEventsNotFound(x) =>
      && !s.state.WaitingForCodes? && !s.db.Meta(x).prepared && x in s.db.blocks.headers && x !in s.db.blocks.events
      && exists path :: WayDown(s.db, path, block, x)
    case BlockNotPrepared(x) =>
      s.state.Start? && s.db.Meta(x).codesQueue.None? && exists path :: path != [] && WayToPrepared(s.db, path, block, x)
    case _ => FailsPreparing(s.db, block, e)
  }

  /** The block that a poll works on: the head of the chain waiting for codes, or else the newest submitted one. */
  function Subject(s: System): Option<Hash> {
    if s.state.WaitingForCodes? then
      if s.state.codes == {} && s.state.chain != [] then Some(s.state.chain[|s.state.chain| - 1].hash) else None
    else if s.input != [] then Some(s.input[|s.input| - 1])
    else None
  }

  /** What a poll of the prepare sub-service answers. */
  ghost predicate AnswersRight(s: System, out: Option<Out>, after: System) {
    match out
    case None => after == s && if s.state.WaitingForCodes? then s.state.codes != {} else s.input == []
    case Some(RequestLoadCodes(codes)) =>
      && !s.state.WaitingForCodes? && Subject(s).Some? && AsksRight(s, Subject(s).value, codes) && codes != {}
      && after.db == s.db && after.state.WaitingForCodes?
    case Some(BlockPrepared(block)) => Subject(s) == Some(block) && PreparesWay(s.db, block, after.db)
    case Some(PrepareFailed(block, e)) => Subject(s) == Some(block) && ErrorRight(s, block, e)
    case Some(Panicked) => s.state == WaitingForCodes({}, [])
    case Some(_) => false
  }

  lemma InHashes(chain: seq<BlockData>, b: Hash)
    ensures b in Hashes(chain) <==> exists i :: 0 <= i < |chain| && chain[i].hash == b
  {
    if i :| 0 <= i < |chain| && chain[i].hash == b {
      assert Hashes(chain)[i] == b;
    }
  }

  /** Preparing a collected chain. */
  lemma PreparingRight(db: Db, chain: seq<BlockData>, orders: Orders, head: Hash)
    requires chain != [] && head == chain[|chain| - 1].hash && StoredChain(db, chain) && Linked(chain)
    requires WayToPrepared(db, Hashes(chain), head, BelowOf(chain, head))
    ensures var (after, failure) := PrepareAll(db, chain, orders);
      if failure.None? then PreparesWay(db, head, after) else FailsPreparing(db, head, failure.value)
  {
    hide PrepareAll, WayToPrepared, PreparingError;
    var path, below := Hashes(chain), BelowOf(chain, head);
    var (after, failure) := PrepareAll(db, chain, orders);
    if failure.None? {
      var k := PrepareAllEffect(db, chain, orders);
      forall b | b !in path
        ensures after.Meta(b) == db.Meta(b)
      {
        InHashes(chain, b);
      }
      assert forall i :: 0 <= i < |path| ==> after.Meta(path[i]).prepared;
    } else {
      AllFails(db, chain, orders);
      EventsOnChain(db, chain);
    }
  }

  /** Answers of the second half of a poll. */
  lemma CollectedAnswers(s: System, orders: Orders)
    requires s.state.WaitingForCodes? && s.state.codes == {} && s.state.chain != []
    requires var chain := s.state.chain;
      var head := chain[|chain| - 1].hash;
      StoredChain(s.db, chain) && Linked(chain) && WayToPrepared(s.db, Hashes(chain), head, BelowOf(chain, head))
    ensures var (after, out) := PrepareCollected(s, orders);
      var head := s.state.chain[|s.state.chain| - 1].hash;
      || (out == Some(BlockPrepared(head)) && PreparesWay(s.db, head, after.db))
      || (out.Some? && out.value.PrepareFailed? && out.value.submitted == head && DuringPreparing(s.db, head, out.value.error))
  {
    hide PrepareAll, PreparesWay, PreparingError, WayToPrepared;
    PreparingRight(s.db, s.state.chain, orders, s.state.chain[|s.state.chain| - 1].hash);
    if PrepareAll(s.db, s.state.chain, orders).1.Some? {
      PreparingKind(s.db, s.state.chain, orders);
    }
  }

  ghost predicate DuringPreparing(db: Db, block: Hash, e: PrepareError) {
    && !e.BlockNotSynced? && !e.BlockHeaderNotFound? && !e.BlockEventsNotFound? && !e.BlockNotPrepared?
    && FailsPreparing(db, block, e)
  }

  lemma PreparingKind(db: Db, chain: seq<BlockData>, orders: Orders)
    requires chain != [] && Linked(chain) && PrepareAll(db, chain, orders).1.Some?
    ensures var e := PrepareAll(db, chain, orders).1.value;
      !e.BlockNotSynced? && !e.BlockHeaderNotFound? && !e.BlockEventsNotFound? && !e.BlockNotPrepared?
  {
    hide PrepareAll;
    AllFails(db, chain, orders);
  }

  /** Which codes are asked for. */
  lemma MissingRight(s: System, chain: seq<BlockData>, head: Hash)
    requires chain != [] && StoredChain(s.db, chain) && Missing(s.db, chain, s.state.Start?).Ok?
    ensures forall c :: c in Missing(s.db, chain, s.state.Start?).value.codes <==>
                        NeedsCode(s, Hashes(chain), BelowOf(chain, head), c)
  {
    hide Requested, Validated;
    var path, below := Hashes(chain), BelowOf(chain, head);
    forall c
      ensures c in Missing(s.db, chain, s.state.Start?).value.codes <==> NeedsCode(s, path, below, c)
    {
      if i :| 0 <= i < |chain| && Names(chain[i].events, c) {
        assert path[i] == chain[i].hash && s.db.blocks.events[path[i]] == chain[i].events;
      }
      if i :| 0 <= i < |path| && path[i] in s.db.blocks.events && Names(s.db.blocks.events[path[i]], c) {
        assert path[i] == chain[i].hash && s.db.blocks.events[path[i]] == chain[i].events;
      }
    }
  }

  lemma CollectErrorRight(s: System, block: Hash)
    requires !s.state.WaitingForCodes? && UnpreparedChain(s.db, block).Err?
    ensures ErrorRight(s, block, UnpreparedChain(s.db, block).error)
  {
    hide WayDown;
    var path, below := CollectingFails(s.db, block);
  }

  /** A poll that takes a block from the queue and collects its chain. */
  lemma TakenAnswers(s: System, orders: Orders)
    requires !s.state.WaitingForCodes? && s.input != []
    ensures AnswersRight(s, PollPrepare(s, orders).1, PollPrepare(s, orders).0)
  {
    hide UnpreparedChain, Missing, PrepareCollected, ErrorRight, PreparesWay, NeedsCode, WayToPrepared, PreparingError;
    var block := s.input[|s.input| - 1];
    if block !in s.db.blocks.synced {
      NotSynced(s, block);
    } else if UnpreparedChain(s.db, block).Err? {
      CollectErrorRight(s, block);
    } else {
      var chain := UnpreparedChain(s.db, block).value;
      CollectedWay(s.db, block);
      if chain == [] {
        AlreadyPrepared(s, block);
      } else if Missing(s.db, chain, s.state.Start?).Err? {
        MissingFails(s, chain, block);
      } else {
        var missing := Missing(s.db, chain, s.state.Start?).value;
        CollectedCodesWaitedFor(s.db, block, s.state.Start?);
        if missing.codes != {} {
          MissingRight(s, chain, block);
        } else {
          var waiting := s.(input := s.input[..|s.input| - 1], state := WaitingForCodes(missing.validatedCodes, chain));
          CollectedAnswers(waiting, orders);
          PreparingIsRight(s, block, PrepareCollected(waiting, orders).1);
        }
      }
    }
  }

  lemma NotSynced(s: System, block: Hash)
    requires !s.state.WaitingForCodes? && block !in s.db.blocks.synced
    ensures ErrorRight(s, block, BlockNotSynced(block))
  {
  }

  lemma AlreadyPrepared(s: System, block: Hash)
    requires WayToPrepared(s.db, Hashes([]), block, block)
    ensures PreparesWay(s.db, block, s.db)
  {
    assert Hashes([]) == [];
  }

  lemma MissingFails(s: System, chain: seq<BlockData>, block: Hash)
    requires chain != [] && WayToPrepared(s.db, Hashes(chain), block, BelowOf(chain, block))
    requires Missing(s.db, chain, s.state.Start?).Err?
    ensures ErrorRight(s, block, Missing(s.db, chain, s.state.Start?).error)
  {
    hide WayToPrepared;
    assert Hashes(chain) != [];
  }

  lemma PreparingIsRight(s: System, block: Hash, out: Option<Out>)
    ensures out.Some? && out.value.PrepareFailed? && DuringPreparing(s.db, block, out.value.error) ==>
              ErrorRight(s, block, out.value.error)
  {
  }

  /** Main result on answers: in every state of every run, a poll that reaches the prepare sub-service yields nothing only
      when it has no block or still waits for codes; it asks for exactly the codes of unknown validity on the way down
      to a prepared block; a block it answers as prepared is prepared, with all blocks on that way and no other; and an
      error is a true statement about the rows. */
  lemma EveryAnswerRight(roots: set<Hash>, worlds: seq<World>, steps: seq<Step>, n: nat, orders: Orders)
    requires IsRun(roots, worlds, steps) && n < |worlds|
    ensures AnswersRight(worlds[n].s, PollPrepare(worlds[n].s, orders).1, PollPrepare(worlds[n].s, orders).0)
  {
    EveryRunIsSafe(roots, worlds, steps, n);
    hide Safe, PollPrepare, AnswersRight;
    var s := worlds[n].s;
    if s.state.WaitingForCodes? {
      WaitingChain(roots, worlds[n]);
      WaitingAnswers(s, orders);
    } else if s.input == [] {
      NothingToAnswer(s, orders);
    } else {
      TakenAnswers(s, orders);
    }
  }

  lemma WaitingChain(roots: set<Hash>, w: World)
    requires Safe(roots, w) && w.s.state.WaitingForCodes?
    ensures ChainRight(w.s.db, w.s.state.codes, w.s.state.chain)
  {
  }

  lemma NothingToAnswer(s: System, orders: Orders)
    requires !s.state.WaitingForCodes? && s.input == []
    ensures AnswersRight(s, PollPrepare(s, orders).1, PollPrepare(s, orders).0)
  {
  }

  lemma WaitingAnswers(s: System, orders: Orders)
    requires s.state.WaitingForCodes? && ChainRight(s.db, s.state.codes, s.state.chain)
    ensures AnswersRight(s, PollPrepare(s, orders).1, PollPrepare(s, orders).0)
  {
    hide PrepareAll, ChainRight, ErrorRight, PreparesWay, WayToPrepared, PreparingError;
    if s.state.codes == {} && s.state.chain != [] {
      WaitingWay(s.db, s.state.codes, s.state.chain);
      CollectedAnswers(s, orders);
      PreparingIsRight(s, s.state.chain[|s.state.chain| - 1].hash, PrepareCollected(s, orders).1);
    }
  }

  // ---------------------------------------------------------------------
  // Newest first

  /** A step takes a block from the queue. */
  predicate TakesBlock(s: System, step: Step) {
    step.PollStep? && !CodeYielded(s, step.codes) && !s.state.WaitingForCodes? && s.input != []
  }

  /** The submitted blocks that no step has taken yet, in the order of submission, if every step takes the newest. */
  function Untaken(worlds: seq<World>, steps: seq<Step>, n: nat): seq<Hash>
    requires n <= |steps| < |worlds|
  {
    if n == 0 then []
    else
      var before := Untaken(worlds, steps, n - 1);
      if steps[n - 1].SubmitBlock? then before + [steps[n - 1].block]
      else if TakesBlock(worlds[n - 1].s, steps[n - 1]) && before != [] then before[..|before| - 1]
      else before
  }

  /** In every run the queue holds the submitted blocks that were not taken, in order, and each poll takes the newest. */
  lemma {:induction false} NewestFirst(roots: set<Hash>, worlds: seq<World>, steps: seq<Step>, n: nat)
    requires IsRun(roots, worlds, steps) && n <= |steps| < |worlds|
    ensures worlds[n].s.input == Untaken(worlds, steps, n)
  {
    hide Poll, PreparingFails, NewlyPrepared, Initial;
    if n == 0 {
      EmptyAtFirst(roots, worlds[0]);
    } else {
      var k := n - 1;
      NewestFirst(roots, worlds, steps, k);
      assert Follows(worlds[k], steps[k], worlds[k + 1]);
      if steps[k].PollStep? {
        PollInput(worlds[k].s, steps[k].codes, steps[k].orders);
      }
    }
  }

  lemma EmptyAtFirst(roots: set<Hash>, w: World)
    requires Initial(roots, w)
    ensures w.s.input == []
  {
  }

  lemma PollInput(s: System, codes: CodesPoll, orders: Orders)
    ensures Poll(s, codes, orders).0.input ==
            if TakesBlock(s, PollStep(codes, orders)) then s.input[..|s.input| - 1] else s.input
  {
    hide UnpreparedChain, Missing, PrepareAll, CompleteCode;
  }

  // ---------------------------------------------------------------------
  // The latest prepared block

  /** The latest prepared block is the uppermost of those that have just become prepared, if there are any. */
  ghost predicate LatestRight(db: Db, after: Db) {
    var added := NewlyPrepared(db, after);
    if added == {} then after.latestPrepared == db.latestPrepared
    else
      && after.latestPrepared in added
      && forall b :: b in added ==> b in db.blocks.headers && db.blocks.headers[b].parent != after.latestPrepared
  }

  lemma SameMetasLatest(db: Db, after: Db)
    requires after.metas == db.metas && after.latestPrepared == db.latestPrepared
    ensures LatestRight(db, after)
  {
    assert NewlyPrepared(db, after) == {};
  }

  lemma PreparedLatest(db: Db, chain: seq<BlockData>, k: nat, after: Db)
    requires ChainRight(db, {}, chain) && PreparesUpTo(db, chain, k, after)
    ensures LatestRight(db, after)
  {
    forall i | 0 <= i < |chain|
      ensures Lookup(db.blocks.headers, chain[i].hash) == Some(chain[i].header) && !db.Meta(chain[i].hash).prepared
    {
      assert BlockRight(db, {}, chain[i]);
    }
    hide BlockRight;
    var added := NewlyPrepared(db, after);
    forall b
      ensures b in added <==> exists i :: 0 <= i < k && chain[i].hash == b
    {
      if i :| 0 <= i < k && chain[i].hash == b {
        assert after.Meta(b).prepared;
      } else {
        assert after.Meta(b) == db.Meta(b);
      }
    }
    if k > 0 {
      assert chain[k - 1].hash in added;
      forall b | b in added
        ensures b in db.blocks.headers && db.blocks.headers[b].parent != after.latestPrepared
      {
        var i :| 0 <= i < k && chain[i].hash == b;
        if i > 0 {
          assert chain[i].header.parent == chain[i - 1].hash;
        }
      }
    }
  }

  lemma PrepareLatest(s: System, orders: Orders)
    requires s.state.WaitingForCodes? && ChainRight(s.db, s.state.codes, s.state.chain)
    ensures LatestRight(s.db, PrepareCollected(s, orders).0.db)
  {
    hide PrepareAll, ChainRight, LatestRight;
    if s.state.codes == {} {
      var k := PrepareAllEffect(s.db, s.state.chain, orders);
      PreparedLatest(s.db, s.state.chain, k, PrepareAll(s.db, s.state.chain, orders).0);
    }
    SameMetasLatest(s.db, s.db);
  }

  lemma PollLatest(roots: set<Hash>, w: World, codes: CodesPoll, orders: Orders)
    requires Safe(roots, w)
    ensures LatestRight(w.s.db, Poll(w.s, codes, orders).0.db)
  {
    hide LatestRight, PrepareCollected, UnpreparedChain, Missing, ChainRight, DbRight;
    var s := w.s;
    SameMetasLatest(s.db, s.db);
    if CodeYielded(s, codes) {
      SameMetasLatest(s.db, Poll(s, codes, orders).0.db);
    } else if s.state.WaitingForCodes? {
      PrepareLatest(s, orders);
    } else if s.input != [] && s.input[|s.input| - 1] in s.db.blocks.synced {
      var block := s.input[|s.input| - 1];
      match UnpreparedChain(s.db, block) {
        case Err(_) =>
        case Ok(chain) =>
          if Missing(s.db, chain, s.state.Start?).Ok? {
            CollectedCodesWaitedFor(s.db, block, s.state.Start?);
            var codes := Missing(s.db, chain, s.state.Start?).value.validatedCodes;
            PrepareLatest(s.(input := s.input[..|s.input| - 1], state := WaitingForCodes(codes, chain)), orders);
          }
      }
    }
  }

  /** In every run the latest prepared block changes only by preparing, and is then the uppermost of the blocks that the
      step has prepared. */
  lemma LatestPreparedExact(roots: set<Hash>, worlds: seq<World>, steps: seq<Step>, n: nat)
    requires IsRun(roots, worlds, steps) && n < |steps|
    ensures LatestRight(worlds[n].s.db, worlds[n + 1].s.db)
  {
    hide LatestRight, Poll, PreparingFails, NewlyPrepared, Safe;
    EveryRunIsSafe(roots, worlds, steps, n);
    assert Follows(worlds[n], steps[n], worlds[n + 1]);
    match steps[n] {
      case PollStep(codes, orders) => PollLatest(roots, worlds[n], codes, orders);
      case _ => SameMetasLatest(worlds[n].s.db, worlds[n + 1].s.db);
    }
  }
}
