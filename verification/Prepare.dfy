/**
 Code validation and Ethereum-block preparation: the codes and prepare
 sub-services over one shared database.
 */
module Prepare {
  import opened Base
  import opened Chain

  datatype PrepareError =
    | BlockNotSynced(block: Hash)
    | BlockHeaderNotFound(block: Hash)
    | BlockEventsNotFound(block: Hash)
    | BlockNotPrepared(block: Hash)
    | LastCommittedBatchNotFound(block: Hash)
    | CodesQueueNotFound(block: Hash)
    | CommittedEraNotFound(block: Hash)
    | ValidatorsCommittedForEarlierEra(previous: nat, committed: nat)
    | CodeProcessingFailed

  datatype BlockMeta = BlockMeta(
    prepared: bool,
    codesQueue: Option<seq<CodeId>>,
    lastCommittedBatch: Option<nat>,
    lastCommittedMb: Option<Hash>,
    lastCommittedEb: Option<Hash>,
    latestEra: Option<nat>)

  const DEFAULT_META := BlockMeta(false, None, None, None, None, None)

  /** What has been observed of Ethereum. */
  datatype Blocks = Blocks(headers: map<Hash, Header>, events: map<Hash, seq<BlockEvent>>, synced: set<Hash>) {
    ghost predicate Acyclic() {
      && ZERO !in headers
      && forall h :: h in headers && headers[h].parent in headers ==>
        headers[headers[h].parent].height < headers[h].height
    }

    function Rank(h: Hash): nat {
      if h in headers then headers[h].height + 1 else 0
    }

    /** Blocks are added, never changed. */
    ghost predicate Grows(next: Blocks) {
      Extends(headers, next.headers) && Extends(events, next.events) && synced <= next.synced
    }
  }

  type AcyclicBlocks = b: Blocks | b.Acyclic() witness Blocks(map[], map[], {})

  /** The codes whose original bytes, instrumented form and metadata are stored. */
  datatype CodeRows = CodeRows(originals: set<CodeId>, instrumented: set<CodeId>, metadata: set<CodeId>)

  datatype Db = Db(
    blocks: AcyclicBlocks,
    metas: map<Hash, BlockMeta>,
    codeValid: map<CodeId, bool>,
    codeRows: CodeRows,
    latestPrepared: Hash)
  {
    /** `block_meta`: the default when there is no row. */
    function Meta(h: Hash): BlockMeta {
      if h in metas then metas[h] else DEFAULT_META
    }
  }

  datatype BlockData = BlockData(hash: Hash, header: Header, events: seq<BlockEvent>)

  // ---------------------------------------------------------------------
  // Collecting the chain and the codes it needs

  /** Blocks from the oldest unprepared ancestor up to `head`. */
  function UnpreparedChain(db: Db, head: Hash): Result<seq<BlockData>, PrepareError>
    decreases db.blocks.Rank(head)
  {
    if db.Meta(head).prepared then Ok([])
    else if head !in db.blocks.headers then Err(BlockHeaderNotFound(head))
    else if head !in db.blocks.events then Err(BlockEventsNotFound(head))
    else
      var older :- UnpreparedChain(db, db.blocks.headers[head].parent);
      Ok(older + [BlockData(head, db.blocks.headers[head], db.blocks.events[head])])
  }

  method CollectNotPreparedBlocksChain(db: Db, head: Hash) returns (r: Result<seq<BlockData>, PrepareError>)
    ensures r == UnpreparedChain(db, head)
  {
    var chain: seq<BlockData> := [];
    var block := head;
    while !db.Meta(block).prepared
      invariant UnpreparedChain(db, head) == Join(UnpreparedChain(db, block), chain)
      decreases db.blocks.Rank(block)
    {
      if block !in db.blocks.headers {
        return Err(BlockHeaderNotFound(block));
      }
      if block !in db.blocks.events {
        return Err(BlockEventsNotFound(block));
      }
      var data := BlockData(block, db.blocks.headers[block], db.blocks.events[block]);
      JoinJoin(UnpreparedChain(db, data.header.parent), [data], chain);
      chain := [data] + chain;
      block := data.header.parent;
    }
    assert [] + chain == chain;
    r := Ok(chain);
  }

  function Requested(events: seq<BlockEvent>): set<CodeId> {
    set i | 0 <= i < |events| && events[i].CodeValidationRequested? :: events[i].requested
  }

  function Validated(events: seq<BlockEvent>): set<CodeId> {
    set i | 0 <= i < |events| && events[i].CodeGotValidated? :: events[i].validated
  }

  datatype MissingData = MissingData(codes: set<CodeId>, validatedCodes: set<CodeId>)

  /** Codes of the chain without a known validity; at the very start also those the parent still waits for. */
  function Missing(db: Db, chain: seq<BlockData>, isStart: bool): Result<MissingData, PrepareError> {
    if isStart && chain != [] && db.Meta(chain[0].header.parent).codesQueue.None? then
      Err(BlockNotPrepared(chain[0].header.parent))
    else
      var queued :=
        if isStart && chain != [] then Elements(db.Meta(chain[0].header.parent).codesQueue.value) else {};
      var (requested, validated) := MissingIn(db, chain);
      Ok(MissingData(Unknown(db, queued) + requested + validated, validated))
  }

  function Unknown(db: Db, codes: set<CodeId>): (r: set<CodeId>)
    ensures codes == {} ==> r == {}
  {
    set c | c in codes && c !in db.codeValid
  }

  /** Codes of unknown validity that the chain requests, and those it reports validated. */
  function MissingIn(db: Db, chain: seq<BlockData>): (set<CodeId>, set<CodeId>) {
    (set i, c | 0 <= i < |chain| && c in Requested(chain[i].events) && c !in db.codeValid :: c,
     set i, c | 0 <= i < |chain| && c in Validated(chain[i].events) && c !in db.codeValid :: c)
  }

  /** `missing_data`: one pass over all events of the chain. */
  method CollectMissingData(db: Db, chain: seq<BlockData>, isStart: bool) returns (r: Result<MissingData, PrepareError>)
    ensures r == Missing(db, chain, isStart)
  {
    hide MissingIn;
    var codes: set<CodeId> := {};
    var validated: set<CodeId> := {};
    NoneMissing(db);
    if isStart {
      if chain == [] {
        return Ok(MissingData(codes, validated));
      }
      var queue := db.Meta(chain[0].header.parent).codesQueue;
      if queue.None? {
        return Err(BlockNotPrepared(chain[0].header.parent));
      }
      codes := Unknown(db, Elements(queue.value));
    }
    ghost var queued := codes;
    assert chain[..0] == [];
    for i := 0 to |chain|
      invariant validated == MissingIn(db, chain[..i]).1
      invariant codes == queued + MissingIn(db, chain[..i]).0 + MissingIn(db, chain[..i]).1
    {
      var requestedHere, validatedHere := CollectUnknownCodes(db, chain[i].events);
      MissingInNext(db, chain, i);
      codes := codes + requestedHere + validatedHere;
      validated := validated + validatedHere;
    }
    assert chain[..|chain|] == chain;
    r := Ok(MissingData(codes, validated));
  }

  lemma NoneMissing(db: Db)
    ensures MissingIn(db, []) == ({}, {})
  {
    assert MissingIn(db, []).0 == {} && MissingIn(db, []).1 == {};
  }

  lemma MissingInNext(db: Db, chain: seq<BlockData>, i: nat)
    requires i < |chain|
    ensures MissingIn(db, chain[..i + 1]).0 == MissingIn(db, chain[..i]).0 + (set c | c in Requested(chain[i].events) && c !in db.codeValid)
    ensures MissingIn(db, chain[..i + 1]).1 == MissingIn(db, chain[..i]).1 + (set c | c in Validated(chain[i].events) && c !in db.codeValid)
  {
    var older, all := chain[..i], chain[..i + 1];
    assert all[i] == chain[i] && forall k :: 0 <= k < i ==> all[k] == older[k];
  }

  /** Codes of unknown validity that one block requests or reports validated. */
  method CollectUnknownCodes(db: Db, events: seq<BlockEvent>) returns (requested: set<CodeId>, validated: set<CodeId>)
    ensures requested == set c | c in Requested(events) && c !in db.codeValid
    ensures validated == set c | c in Validated(events) && c !in db.codeValid
  {
    requested, validated := {}, {};
    for i := 0 to |events|
      invariant forall c :: c in requested <==>
        c !in db.codeValid && exists k :: 0 <= k < i && events[k].CodeValidationRequested? && events[k].requested == c
      invariant forall c :: c in validated <==>
        c !in db.codeValid && exists k :: 0 <= k < i && events[k].CodeGotValidated? && events[k].validated == c
    {
      match events[i] {
        case CodeValidationRequested(code) =>
          if code !in db.codeValid {
            requested := requested + {code};
          }
        case CodeGotValidated(code, _) =>
          if code !in db.codeValid {
            validated := validated + {code};
          }
        case _ =>
      }
    }
  }

  // ---------------------------------------------------------------------
  // Preparing one block

  /** What the event loop of `prepare_one_block` accumulates. */
  datatype Fold = Fold(batch: nat, era: nat, mb: Option<Hash>, eb: Option<Hash>, requested: set<CodeId>, validated: set<CodeId>)

  function FoldEvent(f: Fold, e: BlockEvent): Result<Fold, PrepareError> {
    match e
    case BatchCommitted(digest) => Ok(f.(batch := digest))
    case CodeValidationRequested(code) => Ok(f.(requested := f.requested + {code}))
    case CodeGotValidated(code, _) => Ok(f.(validated := f.validated + {code}))
    case MbCommitted(mb) => Ok(f.(mb := Some(mb)))
    case EbCommitted(eb) => Ok(f.(eb := Some(eb)))
    case ValidatorsCommittedForEra(era) =>
      if era < f.era then Err(ValidatorsCommittedForEarlierEra(f.era, era)) else Ok(f.(era := era))
    case ProtocolVersionChanged(_) => Ok(f)
    case OtherRequest(_) => Ok(f)
    case OtherNotice(_) => Ok(f)
  }

  function FoldEvents(f: Fold, events: seq<BlockEvent>): Result<Fold, PrepareError>
    decreases |events|
  {
    if events == [] then Ok(f)
    else
      var next :- FoldEvent(f, events[0]);
      FoldEvents(next, events[1..])
  }

  function Retain(queue: seq<CodeId>, dropped: set<CodeId>): seq<CodeId> {
    if queue == [] then []
    else if queue[0] in dropped then Retain(queue[1..], dropped)
    else [queue[0]] + Retain(queue[1..], dropped)
  }

  /** The metadata of a block from its parent's; `order` is the order in which
      the requested codes, collected in a hash set, are appended. */
  function NextMeta(parentHash: Hash, parent: BlockMeta, events: seq<BlockEvent>, order: seq<CodeId>)
    : Result<BlockMeta, PrepareError>
  {
    if parent.lastCommittedBatch.None? then Err(LastCommittedBatchNotFound(parentHash))
    else if parent.codesQueue.None? then Err(CodesQueueNotFound(parentHash))
    else if parent.latestEra.None? then Err(CommittedEraNotFound(parentHash))
    else
      var f :- FoldEvents(Fold(parent.lastCommittedBatch.value, parent.latestEra.value, None, None, {}, {}), events);
      Ok(BlockMeta(true,
                   Some(Retain(parent.codesQueue.value, f.validated) + order),
                   Some(f.batch),
                   if f.mb.Some? then f.mb else parent.lastCommittedMb,
                   if f.eb.Some? then f.eb else parent.lastCommittedEb,
                   Some(f.era)))
  }

  /** For every known block, an iteration order of the set of codes it requests. */
  type Orders = map<Hash, seq<CodeId>>

  ghost predicate OrdersFit(blocks: Blocks, orders: Orders) {
    forall h :: h in blocks.events ==> h in orders && IsOrderOf(orders[h], Requested(blocks.events[h]))
  }

  function PrepareOne(db: Db, block: BlockData, orders: Orders): Result<Db, PrepareError> {
    var order := if block.hash in orders then orders[block.hash] else [];
    var meta :- NextMeta(block.header.parent, db.Meta(block.header.parent), block.events, order);
    Ok(db.(metas := db.metas[block.hash := meta], latestPrepared := block.hash))
  }

  /** Prepares the blocks in turn and stops at the first failure; what was prepared before it stays. */
  function PrepareAll(db: Db, chain: seq<BlockData>, orders: Orders): (Db, Option<PrepareError>)
    decreases |chain|
  {
    if chain == [] then (db, None)
    else match PrepareOne(db, chain[0], orders)
      case Err(e) => (db, Some(e))
      case Ok(next) => PrepareAll(next, chain[1..], orders)
  }

  method PrepareOneBlock(db: Db, block: BlockData, orders: Orders) returns (r: Result<Db, PrepareError>)
    requires block.hash in orders
    ensures r == PrepareOne(db, block, orders)
  {
    var parent := db.Meta(block.header.parent);
    if parent.lastCommittedBatch.None? {
      return Err(LastCommittedBatchNotFound(block.header.parent));
    }
    if parent.codesQueue.None? {
      return Err(CodesQueueNotFound(block.header.parent));
    }
    if parent.latestEra.None? {
      return Err(CommittedEraNotFound(block.header.parent));
    }
    var batch, era := parent.lastCommittedBatch.value, parent.latestEra.value;
    var mb: Option<Hash> := None;
    var eb: Option<Hash> := None;
    var requested: set<CodeId> := {};
    var validated: set<CodeId> := {};
    var i := 0;
    ghost var start := Fold(batch, era, None, None, {}, {});
    assert block.events[0..] == block.events;
    while i < |block.events|
      invariant 0 <= i <= |block.events|
      invariant FoldEvents(start, block.events) ==
                FoldEvents(Fold(batch, era, mb, eb, requested, validated), block.events[i..])
    {
      assert block.events[i..][1..] == block.events[i + 1..];
      match block.events[i] {
        case BatchCommitted(digest) => batch := digest;
        case CodeValidationRequested(code) => requested := requested + {code};
        case CodeGotValidated(code, _) => validated := validated + {code};
        case MbCommitted(head) => mb := Some(head);
        case EbCommitted(block) => eb := Some(block);
        case ValidatorsCommittedForEra(index) =>
          if index < era {
            return Err(ValidatorsCommittedForEarlierEra(era, index));
          }
          era := index;
        case _ =>
      }
      i := i + 1;
    }
    var queue := Retain(parent.codesQueue.value, validated) + orders[block.hash];
    var meta := BlockMeta(true, Some(queue), Some(batch), if mb.Some? then mb else parent.lastCommittedMb,
                          if eb.Some? then eb else parent.lastCommittedEb, Some(era));
    r := Ok(db.(metas := db.metas[block.hash := meta], latestPrepared := block.hash));
  }

  // ---------------------------------------------------------------------
  // The services

  /** A code future: ready at once, or running the processor. */
  datatype Procession = Ready(code: CodeId) | Validating(code: CodeId)

  /** What the processor answers for a code. */
  datatype CodeAnswer = ProcessorFails | Processed(code: CodeId, valid: bool)

  datatype CodesPoll = NothingReady | Completes(index: nat, answer: CodeAnswer)

  datatype State = Start | WaitingForBlock | WaitingForCodes(codes: set<CodeId>, chain: seq<BlockData>)

  datatype System = System(db: Db, processions: seq<Procession>, input: seq<Hash>, state: State)

  /** Items of the output stream.  An error carries the submitted block it answers, if any. */
  datatype Out =
    | CodeProcessed(code: CodeId)
    | CodeFailed
    | RequestLoadCodes(codes: set<CodeId>)
    | BlockPrepared(head: Hash)
    | PrepareFailed(submitted: Hash, error: PrepareError)
    | Panicked

  function WithCode(s: System, code: CodeId): System {
    s.(processions := s.processions + [if code in s.db.codeValid then Ready(code) else Validating(code)])
  }

  function WithBlock(s: System, block: Hash): System {
    s.(input := s.input + [block])
  }

  function ReceiveProcessedCode(state: State, code: CodeId): State {
    if state.WaitingForCodes? then state.(codes := state.codes - {code}) else state
  }

  function Without<T>(s: seq<T>, i: nat): seq<T>
    requires i < |s|
  {
    s[..i] + s[i + 1..]
  }

  datatype CodeWrite =
    | Original(code: CodeId)
    | Instrumented(code: CodeId)
    | Metadata(code: CodeId)
    | Status(code: CodeId, valid: bool)

  function ApplyCodeWrite(db: Db, w: CodeWrite): Db {
    match w
    case Original(c) => db.(codeRows := db.codeRows.(originals := db.codeRows.originals + {c}))
    case Instrumented(c) => db.(codeRows := db.codeRows.(instrumented := db.codeRows.instrumented + {c}))
    case Metadata(c) => db.(codeRows := db.codeRows.(metadata := db.codeRows.metadata + {c}))
    case Status(c, valid) => db.(codeValid := db.codeValid[c := valid])
  }

  /** A finished validation writes the code rows, the status last. */
  function CodeWrites(code: CodeId, valid: bool): seq<CodeWrite> {
    (if valid then [Original(code), Instrumented(code), Metadata(code)] else []) + [Status(code, valid)]
  }

  /** The database after the first `n` writes of a finished validation. */
  function AfterCodeWrites(db: Db, code: CodeId, valid: bool, n: nat): Db
    requires n <= |CodeWrites(code, valid)|
  {
    if n == 0 then db else ApplyCodeWrite(AfterCodeWrites(db, code, valid, n - 1), CodeWrites(code, valid)[n - 1])
  }

  /** What each single write adds. */
  lemma {:induction false} CodeWritesSoFar(db: Db, code: CodeId, valid: bool, n: nat)
    requires n <= |CodeWrites(code, valid)|
    ensures var after := AfterCodeWrites(db, code, valid, n);
      && after == db.(codeValid := after.codeValid, codeRows := after.codeRows)
      && after.codeValid == (if n == |CodeWrites(code, valid)| then db.codeValid[code := valid] else db.codeValid)
      && after.codeRows.originals == db.codeRows.originals + (if valid && n >= 1 then {code} else {})
      && after.codeRows.instrumented == db.codeRows.instrumented + (if valid && n >= 2 then {code} else {})
      && after.codeRows.metadata == db.codeRows.metadata + (if valid && n >= 3 then {code} else {})
    decreases n
  {
    if n > 0 {
      CodeWritesSoFar(db, code, valid, n - 1);
    }
  }

  function StoreCode(db: Db, code: CodeId, valid: bool): (after: Db)
    ensures after == db.(codeValid := db.codeValid[code := valid], codeRows := after.codeRows)
  {
    CodeWritesSoFar(db, code, valid, |CodeWrites(code, valid)|);
    AfterCodeWrites(db, code, valid, |CodeWrites(code, valid)|)
  }

  /** The outcome of one code future that completes: the database and the id it yields. */
  function CompleteCode(db: Db, p: Procession, answer: CodeAnswer): (Db, Option<CodeId>) {
    match p
    case Ready(code) => (db, Some(code))
    case Validating(_) =>
      match answer
      case ProcessorFails => (db, None)
      case Processed(code, valid) => (StoreCode(db, code, valid), Some(code))
  }

  /** The second half of a prepare poll: all codes are there, so prepare the chain. */
  function PrepareCollected(s: System, orders: Orders): (System, Option<Out>) {
    if s.state.WaitingForCodes? && s.state.codes == {} then
      var chain := s.state.chain;
      if chain == [] then (s, Some(Panicked))
      else
        var head := chain[|chain| - 1].hash;
        var (db, failure) := PrepareAll(s.db, chain, orders);
        match failure
        case Some(e) => (s.(db := db, state := WaitingForCodes({}, [])), Some(PrepareFailed(head, e)))
        case None => (s.(db := db, state := WaitingForBlock), Some(BlockPrepared(head)))
    else (s, None)
  }

  /** `PrepareSubService::poll_next`. */
  function PollPrepare(s: System, orders: Orders): (System, Option<Out>) {
    if s.state.WaitingForCodes? then PrepareCollected(s, orders)
    else if s.input == [] then (s, None)
    else
      var block := s.input[|s.input| - 1];
      var popped := s.(input := s.input[..|s.input| - 1]);
      if block !in s.db.blocks.synced then (popped, Some(PrepareFailed(block, BlockNotSynced(block))))
      else match UnpreparedChain(s.db, block)
        case Err(e) => (popped, Some(PrepareFailed(block, e)))
        case Ok(chain) =>
          if chain == [] then (popped, Some(BlockPrepared(block)))
          else match Missing(s.db, chain, s.state.Start?)
            case Err(e) => (popped, Some(PrepareFailed(block, e)))
            case Ok(missing) =>
              var waiting := popped.(state := WaitingForCodes(missing.validatedCodes, chain));
              if missing.codes != {} then (waiting, Some(RequestLoadCodes(missing.codes)))
              else PrepareCollected(waiting, orders)
  }

  /** `ComputeService::poll_next` up to the MB sub-service: codes first, then prepare. */
  function Poll(s: System, codes: CodesPoll, orders: Orders): (System, Option<Out>) {
    if codes.Completes? && codes.index < |s.processions| then
      var (db, yielded) := CompleteCode(s.db, s.processions[codes.index], codes.answer);
      var polled := s.(db := db, processions := Without(s.processions, codes.index));
      match yielded
      case None => (polled, Some(CodeFailed))
      case Some(code) => (polled.(state := ReceiveProcessedCode(s.state, code)), Some(CodeProcessed(code)))
    else PollPrepare(s, orders)
  }

  // ---------------------------------------------------------------------
  // The services as objects sharing one database

  class Store {
    var db: Db

    constructor (db: Db)
      ensures this.db == db
    {
      this.db := db;
    }
  }

  class CodesSubService {
    const store: Store
    var processions: seq<Procession>

    constructor (store: Store)
      ensures this.store == store && processions == []
    {
      this.store := store;
      processions := [];
    }

    method ReceiveCodeToProcess(code: CodeId)
      modifies this
      ensures processions == old(processions) + [if code in store.db.codeValid then Ready(code) else Validating(code)]
    {
      if code in store.db.codeValid {
        processions := processions + [Ready(code)];
      } else {
        processions := processions + [Validating(code)];
      }
    }

    /** Polls the code futures; the status is written before the id is yielded. */
    method PollNext(poll: CodesPoll) returns (r: Option<Result<CodeId, PrepareError>>)
      modifies this, store
      ensures poll.Completes? && poll.index < |old(processions)| ==>
                var completed := CompleteCode(old(store.db), old(processions)[poll.index], poll.answer);
                && store.db == completed.0
                && r == Some(if completed.1.Some? then Ok(completed.1.value) else Err(CodeProcessingFailed))
                && processions == Without(old(processions), poll.index)
      ensures !(poll.Completes? && poll.index < |old(processions)|) ==>
                store.db == old(store.db) && processions == old(processions) && r.None?
    {
      if poll.NothingReady? || poll.index >= |processions| {
        return None;
      }
      var future := processions[poll.index];
      processions := processions[..poll.index] + processions[poll.index + 1..];
      if future.Ready? {
        return Some(Ok(future.code));
      }
      if poll.answer.ProcessorFails? {
        return Some(Err(CodeProcessingFailed));
      }
      var code := poll.answer.code;
      if poll.answer.valid {
        store.db := ApplyCodeWrite(store.db, Original(code));
        assert store.db == AfterCodeWrites(old(store.db), code, true, 1);
        store.db := ApplyCodeWrite(store.db, Instrumented(code));
        assert store.db == AfterCodeWrites(old(store.db), code, true, 2);
        store.db := ApplyCodeWrite(store.db, Metadata(code));
      }
      assert store.db == AfterCodeWrites(old(store.db), code, poll.answer.valid, if poll.answer.valid then 3 else 0);
      store.db := ApplyCodeWrite(store.db, Status(code, poll.answer.valid));
      return Some(Ok(code));
    }
  }

  class PrepareSubService {
    const store: Store
    var state: State
    var input: seq<Hash>

    constructor (store: Store)
      ensures this.store == store && state == Start && input == []
    {
      this.store := store;
      state := Start;
      input := [];
    }

    /** The blocks being waited for are known ones. */
    ghost predicate Valid()
      reads this, store
    {
      state.WaitingForCodes? ==> forall i :: 0 <= i < |state.chain| ==> state.chain[i].hash in store.db.blocks.events
    }

    function View(processions: seq<Procession>): System
      reads this, store
    {
      System(store.db, processions, input, state)
    }

    method ReceiveBlockToPrepare(block: Hash)
      modifies this
      ensures input == old(input) + [block] && state == old(state)
    {
      input := input + [block];
    }

    method ReceiveProcessed(code: CodeId)
      modifies this
      ensures state == ReceiveProcessedCode(old(state), code) && input == old(input)
    {
      if state.WaitingForCodes? && code in state.codes {
        state := state.(codes := state.codes - {code});
      }
    }

    /** `poll_next`; `orders` is the hash sets' iteration order. */
    method PollNext(orders: Orders, ghost processions: seq<Procession>) returns (out: Option<Out>)
      requires OrdersFit(store.db.blocks, orders) && Valid()
      modifies this, store
      ensures Valid()
      ensures (View(processions), out) == PollPrepare(old(View(processions)), orders)
    {
      if state.Start? || state.WaitingForBlock? {
        if input == [] {
          return None;
        }
        var block := input[|input| - 1];
        input := input[..|input| - 1];
        if block !in store.db.blocks.synced {
          return Some(PrepareFailed(block, BlockNotSynced(block)));
        }
        var chain := CollectNotPreparedBlocksChain(store.db, block);
        if chain.Err? {
          return Some(PrepareFailed(block, chain.error));
        }
        if chain.value == [] {
          return Some(BlockPrepared(block));
        }
        var missing := CollectMissingData(store.db, chain.value, state.Start?);
        if missing.Err? {
          return Some(PrepareFailed(block, missing.error));
        }
        ChainHasEvents(store.db, block);
        state := WaitingForCodes(missing.value.validatedCodes, chain.value);
        if missing.value.codes != {} {
          return Some(RequestLoadCodes(missing.value.codes));
        }
      }
      out := PollCollected(orders, processions);
    }

    method PollCollected(orders: Orders, ghost processions: seq<Procession>) returns (out: Option<Out>)
      requires OrdersFit(store.db.blocks, orders) && Valid()
      modifies this, store
      ensures Valid()
      ensures (View(processions), out) == PrepareCollected(old(View(processions)), orders)
    {
      if !state.WaitingForCodes? || state.codes != {} {
        return None;
      }
      var chain := state.chain;
      if chain == [] {
        return Some(Panicked);
      }
      var head := chain[|chain| - 1].hash;
      state := WaitingForCodes({}, []);
      ghost var start := store.db;
      var i := 0;
      assert chain[0..] == chain;
      while i < |chain|
        invariant 0 <= i <= |chain|
        invariant PrepareAll(start, chain, orders) == PrepareAll(store.db, chain[i..], orders)
        invariant state == WaitingForCodes({}, []) && input == old(input)
      {
        assert chain[i..][1..] == chain[i + 1..];
        var next := PrepareOneBlock(store.db, chain[i], orders);
        if next.Err? {
          return Some(PrepareFailed(head, next.error));
        }
        store.db := next.value;
        i := i + 1;
      }
      state := WaitingForBlock;
      out := Some(BlockPrepared(head));
    }
  }

  lemma {:induction false} ChainHasEvents(db: Db, head: Hash)
    requires UnpreparedChain(db, head).Ok?
    ensures var chain := UnpreparedChain(db, head).value;
      forall i :: 0 <= i < |chain| ==> chain[i].hash in db.blocks.events
    decreases db.blocks.Rank(head)
  {
    if !db.Meta(head).prepared {
      ChainHasEvents(db, db.blocks.headers[head].parent);
    }
  }
}
