/**
 The append-only chain data that the compute pipeline reads: Ethereum blocks
 (EBs), Malachite blocks (MBs) and their payloads.  Hashes are numbers, and
 `ZERO` is the zero hash.
 */
module Chain {
  import opened Base

  type Hash = nat
  type CodeId = nat

  const ZERO: Hash := 0

  datatype Header = Header(height: nat, timestamp: nat, parent: Hash)

  /** A block hash together with its header (`SimpleBlockData`). */
  datatype Eb = Eb(hash: Hash, header: Header)

  /** The events the pipeline looks at; every other event is kept only as an
      opaque identifier, split by whether it has a request form. */
  datatype BlockEvent =
    | BatchCommitted(digest: nat)
    | CodeValidationRequested(requested: CodeId)
    | CodeGotValidated(validated: CodeId, valid: bool)
    | MbCommitted(mb: Hash)
    | EbCommitted(eb: Hash)
    | ValidatorsCommittedForEra(era: nat)
    | ProtocolVersionChanged(version: nat)
    | OtherRequest(request: nat)
    | OtherNotice(notice: nat)

  /** `BlockEvent::to_request` yields a request for exactly these events. */
  predicate IsRequest(e: BlockEvent) {
    e.CodeValidationRequested? || e.ValidatorsCommittedForEra? || e.ProtocolVersionChanged? || e.OtherRequest?
  }

  /** The request events of a block, in log order. */
  function Requests(es: seq<BlockEvent>): seq<BlockEvent> {
    if es == [] then []
    else if IsRequest(es[0]) then [es[0]] + Requests(es[1..])
    else Requests(es[1..])
  }

  /** Filtering a block's log drops, repeats and reorders no request event. */
  lemma {:induction false} RequestsExact(es: seq<BlockEvent>)
    ensures Keeps(Requests(es), es, IsRequest)
  {
    if es != [] {
      RequestsExact(es[1..]);
      KeepsFirst(Requests(es[1..]), es, IsRequest);
    }
  }

  datatype Operation =
    | AdvanceTillEthereumBlock(block: Hash)
    | ProgressTasks
    | ProcessQueues(gas: nat)
    | Injected(transaction: nat)
    | ProcessQueuesV2(gasV2: nat)
    | ProcessQueuesV3(gasV3: nat)

  datatype CompactMb = CompactMb(parent: Hash, height: nat, operationsHash: Hash)

  /** Rows that are written once by other services and never change afterwards. */
  datatype ChainDb = ChainDb(
    compact: map<Hash, CompactMb>,
    operations: map<Hash, seq<Operation>>,
    advanced: map<Hash, Hash>,
    headers: map<Hash, Header>,
    events: map<Hash, seq<BlockEvent>>,
    genesis: Hash,
    start: Hash)
  {
    /** `mb_meta(mb).last_advanced_eb`, zero when the row is absent. */
    function Advanced(mb: Hash): Hash {
      if mb in advanced then advanced[mb] else ZERO
    }

    /** MB heights decrease along parent links; the zero MB ends every chain. */
    ghost predicate MbAcyclic() {
      forall h :: h in compact && h != ZERO && compact[h].parent != ZERO && compact[h].parent in compact ==>
        compact[compact[h].parent].height < compact[h].height
    }

    /** EB heights decrease along parent links; the zero hash is not a block. */
    ghost predicate EbAcyclic() {
      && ZERO !in headers
      && forall h :: h in headers && headers[h].parent in headers ==>
        headers[headers[h].parent].height < headers[h].height
    }

    function MbRank(mb: Hash): nat {
      if mb == ZERO || mb !in compact then 0 else compact[mb].height + 1
    }

    function EbRank(eb: Hash): nat {
      if eb in headers then headers[eb].height + 1 else 0
    }

    /** Other services may add rows but never change one. */
    ghost predicate Grows(next: ChainDb) {
      && Extends(compact, next.compact)
      && Extends(operations, next.operations)
      && Extends(headers, next.headers)
      && Extends(events, next.events)
      && (forall mb :: mb == ZERO || mb in compact ==> next.Advanced(mb) == Advanced(mb))
      && next.genesis == genesis
      && next.start == start
    }
  }

  const EMPTY_CHAIN := ChainDb(map[], map[], map[], map[], map[], ZERO, ZERO)

  /** Chain data whose MB heights decrease along parent links. */
  type AcyclicDb = s: ChainDb | s.MbAcyclic() witness EMPTY_CHAIN
}
