/**
 Building the input of one MB execution, and the plain recursive execution of
 an MB chain that the cached execution has to agree with.
 */
module MbExecution {
  import opened Base
  import opened Chain

  const MAILBOX_VALIDITY_VERSION_1: nat := 54_000
  const MAILBOX_VALIDITY_VERSION_2: nat := 75

  datatype ComputeError =
    | MbCompactNotFound(mb: Hash)
    | MbPayloadNotFound(mb: Hash, payload: Hash)
    | ParentMbStatesMissing(mb: Hash)
    | ParentMbScheduleMissing(mb: Hash)
    | AnchorBlockHeaderMissing(eb: Hash)
    | AdvanceBlockEventsMissing(eb: Hash)
    | GenesisBlockMissing
    | StartBlockNotGenesis(start: Hash, genesis: Hash)
    | BlockNotSynced(eb: Hash)
    | StartBlockHeightZero
    | TargetEbOlderThanLastAdvanced(target: nat, last: nat)
    | TargetEbSameHeightAsLastAdvanced
    | AdvanceChainDisconnected(expected: Hash, actual: Hash)
    | AdvanceChainHeaderMissing(eb: Hash)
    | ProcessorFailed

  // Program states, schedules and outcomes are opaque to the pipeline: it only stores and forwards them.
  type ProgramStates = seq<nat>
  type Schedule = seq<nat>
  type Outcome = seq<nat>

  datatype Executable = Executable(
    height: nat,
    timestamp: nat,
    states: ProgramStates,
    schedule: Schedule,
    injected: seq<nat>,
    gas: Option<nat>,
    events: seq<BlockEvent>,
    mailboxValidity: nat,
    autoreply: bool)

  datatype Finalized = Finalized(
    transitions: Outcome,
    states: ProgramStates,
    schedule: Schedule,
    programCreations: seq<(nat, CodeId)>,
    committedIds: set<nat>)

  // ---------------------------------------------------------------------
  // Advancing over Ethereum blocks

  /** Hash and height that an advance has to connect to. */
  function AdvanceBase(s: ChainDb, anchor: Option<Eb>): Result<(Hash, nat), ComputeError> {
    match anchor
    case Some(eb) => Ok((eb.hash, eb.header.height))
    case None =>
      if s.start != s.genesis then Err(StartBlockNotGenesis(s.start, s.genesis))
      else if s.start !in s.headers then Err(BlockNotSynced(s.start))
      else if s.headers[s.start].height == 0 then Err(StartBlockHeightZero)
      else Ok((ZERO, s.headers[s.start].height - 1))
  }

  /** The `depth` blocks ending in `current`, oldest first, provided that the
      parent of the oldest one is `expected`. */
  function Ancestors(s: ChainDb, current: Eb, depth: nat, expected: Hash): Result<seq<Hash>, ComputeError>
    requires depth > 0
    decreases depth
  {
    var parent := current.header.parent;
    if depth == 1 then
      if parent != expected then Err(AdvanceChainDisconnected(expected, parent)) else Ok([current.hash])
    else if parent !in s.headers then Err(AdvanceChainHeaderMissing(parent))
    else
      var older :- Ancestors(s, Eb(parent, s.headers[parent]), depth - 1, expected);
      Ok(older + [current.hash])
  }

  /** EBs in `(anchor, target]`, oldest first. */
  function AdvanceChain(s: ChainDb, target: Eb, anchor: Option<Eb>): Result<seq<Hash>, ComputeError> {
    var (hash, height) :- AdvanceBase(s, anchor);
    if target.header.height < height then Err(TargetEbOlderThanLastAdvanced(target.header.height, height))
    else if target.header.height == height then Err(TargetEbSameHeightAsLastAdvanced)
    else Ancestors(s, target, target.header.height - height, hash)
  }

  function Reversed<T>(s: seq<T>): seq<T> {
    if s == [] then [] else Reversed(s[1..]) + [s[0]]
  }

  lemma ReversedSnoc<T>(s: seq<T>, x: T)
    ensures Reversed(s + [x]) == [x] + Reversed(s)
  {
    if s != [] {
      assert (s + [x])[1..] == s[1..] + [x];
    }
  }

  /** `older` followed by `newer`, unless `newer` fails. */
  function Prepend<T>(older: seq<T>, newer: Result<seq<T>, ComputeError>): (r: Result<seq<T>, ComputeError>)
    ensures older == [] ==> r == newer
  {
    match newer
    case Ok(items) => assert older == [] ==> older + items == items; Ok(older + items)
    case Err(e) => Err(e)
  }

  /** The walk of `collect_advance_chain`: newest first, then reversed. */
  method CollectAdvanceChain(s: ChainDb, target: Eb, anchor: Option<Eb>)
    returns (r: Result<seq<Hash>, ComputeError>)
    ensures r == AdvanceChain(s, target, anchor)
  {
    var base := AdvanceBase(s, anchor);
    if base.Err? {
      return Err(base.error);
    }
    var (lastHash, lastHeight) := base.value;
    if target.header.height < lastHeight {
      return Err(TargetEbOlderThanLastAdvanced(target.header.height, lastHeight));
    }
    var depth := target.header.height - lastHeight;
    if depth == 0 {
      return Err(TargetEbSameHeightAsLastAdvanced);
    }
    var chain: seq<Hash> := [];
    var current := target;
    var step := 0;
    while true
      invariant 0 <= step < depth
      invariant Ancestors(s, target, depth, lastHash) ==
                Join(Ancestors(s, current, depth - step, lastHash), Reversed(chain))
      decreases depth - step
    {
      ghost var collected := chain;
      chain := chain + [current.hash];
      ReversedSnoc(collected, current.hash);
      var parent := current.header.parent;
      if step + 1 == depth {
        if parent != lastHash {
          return Err(AdvanceChainDisconnected(lastHash, parent));
        }
        break;
      }
      if parent !in s.headers {
        return Err(AdvanceChainHeaderMissing(parent));
      }
      JoinJoin(Ancestors(s, Eb(parent, s.headers[parent]), depth - step - 1, lastHash), [current.hash],
               Reversed(collected));
      current := Eb(parent, s.headers[parent]);
      step := step + 1;
    }
    r := Ok(Reversed(chain));
  }

  // ---------------------------------------------------------------------
  // Running the operations of one MB

  /** What `build_executable_data` accumulates while it walks the operations. */
  datatype Plan = Plan(
    events: seq<BlockEvent>,
    injected: seq<nat>,
    gas: Option<nat>,
    anchor: Option<Eb>,
    mailboxValidity: nat,
    autoreply: bool)

  /** Request events of the given blocks, block by block. */
  function BlockRequests(s: ChainDb, blocks: seq<Hash>): Result<seq<BlockEvent>, ComputeError> {
    if blocks == [] then Ok([])
    else if blocks[0] !in s.events then Err(AdvanceBlockEventsMissing(blocks[0]))
    else
      var rest :- BlockRequests(s, blocks[1..]);
      Ok(Requests(s.events[blocks[0]]) + rest)
  }

  function ApplyOperation(s: ChainDb, op: Operation, plan: Plan): Result<Plan, ComputeError> {
    match op
    case AdvanceTillEthereumBlock(block) =>
      if block !in s.headers then Err(AnchorBlockHeaderMissing(block))
      else
        var target := Eb(block, s.headers[block]);
        var blocks :- AdvanceChain(s, target, plan.anchor);
        var events :- BlockRequests(s, blocks);
        Ok(plan.(events := plan.events + events, anchor := Some(target)))
    case Injected(transaction) => Ok(plan.(injected := plan.injected + [transaction]))
    case ProgressTasks => Ok(plan)
    case ProcessQueues(gas) =>
      Ok(plan.(mailboxValidity := MAILBOX_VALIDITY_VERSION_1, autoreply := false, gas := Some(gas)))
    case ProcessQueuesV2(gas) => Ok(plan.(autoreply := false, gas := Some(gas)))
    case ProcessQueuesV3(gas) => Ok(plan.(autoreply := true, gas := Some(gas)))
  }

  function ApplyOperations(s: ChainDb, ops: seq<Operation>, plan: Plan): Result<Plan, ComputeError> {
    if ops == [] then Ok(plan)
    else
      var next :- ApplyOperation(s, ops[0], plan);
      ApplyOperations(s, ops[1..], next)
  }

  /** The anchor an MB starts from: the EB its parent was advanced to. */
  function InitialAnchor(s: ChainDb, advanced: Hash): Result<Option<Eb>, ComputeError> {
    if advanced == ZERO then Ok(None)
    else if advanced !in s.headers then Err(AnchorBlockHeaderMissing(advanced))
    else Ok(Some(Eb(advanced, s.headers[advanced])))
  }

  function EmptyPlan(anchor: Option<Eb>): Plan {
    Plan([], [], None, anchor, MAILBOX_VALIDITY_VERSION_2, false)
  }

  function Seal(s: ChainDb, plan: Plan, states: ProgramStates, schedule: Schedule): Result<Executable, ComputeError> {
    match plan.anchor
    case Some(eb) =>
      Ok(Executable(eb.header.height, eb.header.timestamp, states, schedule, plan.injected, plan.gas, plan.events,
                    plan.mailboxValidity, plan.autoreply))
    case None =>
      if s.genesis !in s.headers then Err(GenesisBlockMissing)
      else
        Ok(Executable(s.headers[s.genesis].height, s.headers[s.genesis].timestamp, states, schedule, plan.injected,
                      plan.gas, plan.events, plan.mailboxValidity, plan.autoreply))
  }

  function Build(s: ChainDb, ops: seq<Operation>, states: ProgramStates, schedule: Schedule, advanced: Hash)
    : Result<Executable, ComputeError>
  {
    var anchor :- InitialAnchor(s, advanced);
    var plan :- ApplyOperations(s, ops, EmptyPlan(anchor));
    Seal(s, plan, states, schedule)
  }

  // ---------------------------------------------------------------------
  // What an executable says about its operations

  /** The gas that an operation grants to queue processing, if it is such an operation. */
  function QueueGas(op: Operation): Option<nat> {
    match op
    case ProcessQueues(gas) => Some(gas)
    case ProcessQueuesV2(gas) => Some(gas)
    case ProcessQueuesV3(gas) => Some(gas)
    case _ => None
  }

  /** The last operation that processes queues. */
  function LastQueueOp(ops: seq<Operation>): Option<Operation> {
    if ops == [] then None
    else if QueueGas(ops[|ops| - 1]).Some? then Some(ops[|ops| - 1])
    else LastQueueOp(ops[..|ops| - 1])
  }

  function InjectedBy(ops: seq<Operation>): seq<nat> {
    if ops == [] then []
    else
      var last := ops[|ops| - 1];
      InjectedBy(ops[..|ops| - 1]) + if last.Injected? then [last.transaction] else []
  }

  /** The EB an MB is advanced to: its last advance target, or else where its parent stood. */
  function LastAdvance(ops: seq<Operation>, before: Hash): Hash {
    if ops == [] then before
    else if ops[|ops| - 1].AdvanceTillEthereumBlock? then ops[|ops| - 1].block
    else LastAdvance(ops[..|ops| - 1], before)
  }

  predicate Advances(ops: seq<Operation>) {
    exists i :: 0 <= i < |ops| && ops[i].AdvanceTillEthereumBlock?
  }

  /** Some operation processes queues in the first version. */
  predicate UsesFirstVersion(ops: seq<Operation>) {
    exists i :: 0 <= i < |ops| && ops[i].ProcessQueues?
  }

  lemma UsesLast(ops: seq<Operation>)
    requires ops != []
    ensures UsesFirstVersion(ops) <==> UsesFirstVersion(ops[..|ops| - 1]) || ops[|ops| - 1].ProcessQueues?
    ensures Advances(ops) <==> Advances(ops[..|ops| - 1]) || ops[|ops| - 1].AdvanceTillEthereumBlock?
  {
    var front := ops[..|ops| - 1];
    assert forall i :: 0 <= i < |front| ==> front[i] == ops[i];
  }

  /** The block an advance is measured from, as a hash. */
  function AnchorHash(anchor: Option<Eb>): Hash {
    match anchor case Some(eb) => eb.hash case None => ZERO
  }

  predicate Recorded(s: ChainDb, anchor: Option<Eb>) {
    anchor.Some? ==> anchor.value.hash in s.headers && s.headers[anchor.value.hash] == anchor.value.header
  }

  lemma {:induction false} ApplyLast(s: ChainDb, ops: seq<Operation>, plan: Plan)
    requires ops != []
    ensures var before := ApplyOperations(s, ops[..|ops| - 1], plan);
      ApplyOperations(s, ops, plan) == if before.Ok? then ApplyOperation(s, ops[|ops| - 1], before.value) else before
    decreases |ops|
  {
    hide ApplyOperation;
    if |ops| > 1 {
      var front := ops[..|ops| - 1];
      assert front[0] == ops[0] && front[1..] == ops[1..][..|ops| - 2];
      var first := ApplyOperation(s, ops[0], plan);
      if first.Ok? {
        ApplyLast(s, ops[1..], first.value);
      }
    } else {
      assert ops[..0] == [];
      assert ops[1..] == [];
    }
  }

  lemma NoOperations(s: ChainDb, plan: Plan)
    ensures ApplyOperations(s, [], plan) == Ok(plan) && !UsesFirstVersion([]) && !Advances([])
  {
  }

  lemma {:induction false} OperationsMeaning(s: ChainDb, ops: seq<Operation>, anchor: Option<Eb>)
    requires ApplyOperations(s, ops, EmptyPlan(anchor)).Ok? && Recorded(s, anchor)
    ensures var plan := ApplyOperations(s, ops, EmptyPlan(anchor)).value;
      && plan.injected == InjectedBy(ops)
      && plan.gas == (if LastQueueOp(ops).Some? then QueueGas(LastQueueOp(ops).value) else None)
      && (plan.autoreply <==> LastQueueOp(ops).Some? && LastQueueOp(ops).value.ProcessQueuesV3?)
      && plan.mailboxValidity ==
        (if UsesFirstVersion(ops) then MAILBOX_VALIDITY_VERSION_1 else MAILBOX_VALIDITY_VERSION_2)
      && (plan.anchor.None? <==> anchor.None? && !Advances(ops))
      && AnchorHash(plan.anchor) == LastAdvance(ops, AnchorHash(anchor)) && Recorded(s, plan.anchor)
    decreases |ops|
  {
    hide UsesFirstVersion, Advances, AdvanceChain, BlockRequests, ApplyOperations;
    if ops == [] {
      NoOperations(s, EmptyPlan(anchor));
    } else {
      UsesLast(ops);
      ApplyLast(s, ops, EmptyPlan(anchor));
      OperationsMeaning(s, ops[..|ops| - 1], anchor);
    }
  }

  /** What an executable says about its operations: all injected transactions in order, the gas and the reply mode
      of the last queue operation, the old mailbox validity as soon as one operation is of the first version, and
      height and time of the EB it is dated by, or of genesis. */
  lemma BuildMeaning(s: ChainDb, ops: seq<Operation>, states: ProgramStates, schedule: Schedule, advanced: Hash)
    requires Build(s, ops, states, schedule, advanced).Ok?
    ensures var exe := Build(s, ops, states, schedule, advanced).value;
      var eb := if advanced == ZERO && !Advances(ops) then s.genesis else LastAdvance(ops, advanced);
      && exe.states == states && exe.schedule == schedule
      && exe.injected == InjectedBy(ops)
      && exe.gas == (if LastQueueOp(ops).Some? then QueueGas(LastQueueOp(ops).value) else None)
      && (exe.autoreply <==> LastQueueOp(ops).Some? && LastQueueOp(ops).value.ProcessQueuesV3?)
      && exe.mailboxValidity ==
        (if UsesFirstVersion(ops) then MAILBOX_VALIDITY_VERSION_1 else MAILBOX_VALIDITY_VERSION_2)
      && eb in s.headers && exe.height == s.headers[eb].height && exe.timestamp == s.headers[eb].timestamp
  {
    hide ApplyOperations;
    OperationsMeaning(s, ops, InitialAnchor(s, advanced).value);
  }

  /** `build_executable_data`: one pass over the operations with mutable accumulators. */
  method BuildExecutableData(s: ChainDb, ops: seq<Operation>, states: ProgramStates, schedule: Schedule, advanced: Hash)
    returns (r: Result<Executable, ComputeError>)
    ensures r == Build(s, ops, states, schedule, advanced)
  {
    var events: seq<BlockEvent> := [];
    var injected: seq<nat> := [];
    var gas: Option<nat> := None;
    var anchor: Option<Eb> := None;
    if advanced != ZERO {
      if advanced !in s.headers {
        return Err(AnchorBlockHeaderMissing(advanced));
      }
      anchor := Some(Eb(advanced, s.headers[advanced]));
    }
    ghost var start := EmptyPlan(anchor);
    var mailboxValidity := MAILBOX_VALIDITY_VERSION_2;
    var autoreply := false;
    var i := 0;
    while i < |ops|
      invariant 0 <= i <= |ops|
      invariant ApplyOperations(s, ops, start) ==
                ApplyOperations(s, ops[i..], Plan(events, injected, gas, anchor, mailboxValidity, autoreply))
    {
      assert ops[i..][1..] == ops[i + 1..];
      match ops[i] {
        case AdvanceTillEthereumBlock(block) =>
          if block !in s.headers {
            return Err(AnchorBlockHeaderMissing(block));
          }
          var target := Eb(block, s.headers[block]);
          var chain := CollectAdvanceChain(s, target, anchor);
          if chain.Err? {
            return Err(chain.error);
          }
          var added := CollectRequests(s, chain.value);
          if added.Err? {
            return Err(added.error);
          }
          events := events + added.value;
          anchor := Some(target);
        case Injected(transaction) =>
          injected := injected + [transaction];
        case ProgressTasks =>
        case ProcessQueues(opGas) =>
          mailboxValidity := MAILBOX_VALIDITY_VERSION_1;
          autoreply := false;
          gas := Some(opGas);
        case ProcessQueuesV2(opGas) =>
          autoreply := false;
          gas := Some(opGas);
        case ProcessQueuesV3(opGas) =>
          autoreply := true;
          gas := Some(opGas);
      }
      i := i + 1;
    }
    assert ops[i..] == [];
    r := Seal(s, Plan(events, injected, gas, anchor, mailboxValidity, autoreply), states, schedule);
  }

  method CollectRequests(s: ChainDb, blocks: seq<Hash>) returns (r: Result<seq<BlockEvent>, ComputeError>)
    ensures r == BlockRequests(s, blocks)
  {
    var events: seq<BlockEvent> := [];
    var i := 0;
    assert blocks[0..] == blocks;
    while i < |blocks|
      invariant 0 <= i <= |blocks|
      invariant BlockRequests(s, blocks) == Prepend(events, BlockRequests(s, blocks[i..]))
    {
      assert blocks[i..][1..] == blocks[i + 1..];
      if blocks[i] !in s.events {
        return Err(AdvanceBlockEventsMissing(blocks[i]));
      }
      var requests := Requests(s.events[blocks[i]]);
      if BlockRequests(s, blocks[i + 1..]).Ok? {
        assert events + (requests + BlockRequests(s, blocks[i + 1..]).value) ==
               events + requests + BlockRequests(s, blocks[i + 1..]).value;
      }
      events := events + requests;
      i := i + 1;
    }
    assert blocks[i..] == [];
    assert events + [] == events;
    r := Ok(events);
  }

  // ---------------------------------------------------------------------
  // Reference semantics: execute every MB from the zero MB, without any cache

  function Replay(s: ChainDb, seed: Finalized, process: Executable -> Finalized, mb: Hash)
    : Result<Finalized, ComputeError>
    requires s.MbAcyclic()
    decreases s.MbRank(mb)
  {
    if mb == ZERO then Ok(seed)
    else if mb !in s.compact then Err(MbCompactNotFound(mb))
    else
      var CompactMb(parent, _, payload) := s.compact[mb];
      var before :- Replay(s, seed, process, parent);
      if payload !in s.operations then Err(MbPayloadNotFound(mb, payload))
      else
        var exe :- Build(s, s.operations[payload], before.states, before.schedule, s.Advanced(parent));
        Ok(process(exe))
  }

  // ---------------------------------------------------------------------
  // Added rows never change a result that was already obtained

  lemma {:induction false} AncestorsStable(s: ChainDb, s': ChainDb, current: Eb, depth: nat, expected: Hash)
    requires s.Grows(s') && depth > 0
    requires Ancestors(s, current, depth, expected).Ok?
    ensures Ancestors(s', current, depth, expected) == Ancestors(s, current, depth, expected)
    decreases depth
  {
    if depth > 1 {
      var parent := current.header.parent;
      AncestorsStable(s, s', Eb(parent, s.headers[parent]), depth - 1, expected);
    }
  }

  lemma {:induction false} BlockRequestsStable(s: ChainDb, s': ChainDb, blocks: seq<Hash>)
    requires s.Grows(s') && BlockRequests(s, blocks).Ok?
    ensures BlockRequests(s', blocks) == BlockRequests(s, blocks)
  {
    if blocks != [] {
      BlockRequestsStable(s, s', blocks[1..]);
    }
  }

  lemma ApplyOperationStable(s: ChainDb, s': ChainDb, op: Operation, plan: Plan)
    requires s.Grows(s') && ApplyOperation(s, op, plan).Ok?
    ensures ApplyOperation(s', op, plan) == ApplyOperation(s, op, plan)
  {
    if op.AdvanceTillEthereumBlock? {
      var target := Eb(op.block, s.headers[op.block]);
      var (hash, height) := AdvanceBase(s, plan.anchor).value;
      AncestorsStable(s, s', target, target.header.height - height, hash);
      BlockRequestsStable(s, s', AdvanceChain(s, target, plan.anchor).value);
    }
  }

  lemma {:induction false} ApplyOperationsStable(s: ChainDb, s': ChainDb, ops: seq<Operation>, plan: Plan)
    requires s.Grows(s') && ApplyOperations(s, ops, plan).Ok?
    ensures ApplyOperations(s', ops, plan) == ApplyOperations(s, ops, plan)
  {
    if ops != [] {
      ApplyOperationStable(s, s', ops[0], plan);
      ApplyOperationsStable(s, s', ops[1..], ApplyOperation(s, ops[0], plan).value);
    }
  }

  lemma BuildStable(s: ChainDb, s': ChainDb, ops: seq<Operation>, states: ProgramStates, schedule: Schedule, advanced: Hash)
    requires s.Grows(s') && Build(s, ops, states, schedule, advanced).Ok?
    ensures Build(s', ops, states, schedule, advanced) == Build(s, ops, states, schedule, advanced)
  {
    ApplyOperationsStable(s, s', ops, EmptyPlan(InitialAnchor(s, advanced).value));
  }

  /** An MB that can be executed keeps its result however much data is added. */
  lemma {:induction false} ReplayStable(s: ChainDb, s': ChainDb, seed: Finalized, process: Executable -> Finalized, mb: Hash)
    requires s.MbAcyclic() && s'.MbAcyclic() && s.Grows(s')
    requires Replay(s, seed, process, mb).Ok?
    ensures Replay(s', seed, process, mb) == Replay(s, seed, process, mb)
    decreases s.MbRank(mb)
  {
    if mb != ZERO {
      var CompactMb(parent, _, payload) := s.compact[mb];
      ReplayStable(s, s', seed, process, parent);
      var before := Replay(s, seed, process, parent).value;
      BuildStable(s, s', s.operations[payload], before.states, before.schedule, s.Advanced(parent));
    }
  }
}
