/**
 The database graph walk: a first-in-first-out worklist over typed nodes with a
 set of visited nodes.  `node_hash` is taken to be collision-free, so the
 visited set holds the nodes themselves.
 */
module Iterator {
  import opened Base
  import opened Chain

  type Actor = nat
  type Bytes = seq<nat>

  datatype BlockMeta = BlockMeta(
    prepared: bool,
    codesQueue: Option<seq<CodeId>>,
    lastCommittedBatch: Option<nat>,
    lastCommittedMb: Option<Hash>,
    latestEra: Option<nat>)

  datatype PayloadLookup = Direct(payload: Bytes) | Stored(payloadHash: Hash)

  /** A queued or waiting message; only its payload is walked. */
  datatype Dispatch = Dispatch(id: nat, payload: PayloadLookup)

  type Queue = seq<Dispatch>

  datatype QueueHashWithSize = QueueHashWithSize(hash: Option<Hash>, cachedSize: nat)

  datatype Program = Active(allocations: Option<Hash>, pages: Option<Hash>) | Inactive

  datatype ProgramState = ProgramState(
    program: Program,
    canonicalQueue: QueueHashWithSize,
    injectedQueue: QueueHashWithSize,
    waitlist: Option<Hash>,
    stash: Option<Hash>,
    mailbox: Option<Hash>,
    balances: nat)

  const ZERO_STATE :=
    ProgramState(Active(None, None), QueueHashWithSize(None, 0), QueueHashWithSize(None, 0), None, None, None, 0)

  datatype Task = Task(program: Actor, id: nat)
  datatype Transition = Transition(actor: Actor, newState: Hash, rest: nat)

  datatype IteratorError =
    | NoBlockHeader(block: Hash) | NoBlockEvents(block: Hash) | NoBlockCodesQueue(block: Hash)
    | NoMb(mb: Hash) | NoMbProgramStates(mb: Hash) | NoMbOutcome(mb: Hash)
    | NoMemoryPages(hash: Hash) | NoMemoryPagesRegion(hash: Hash) | NoPageData(hash: Hash)
    | NoCodeValid(code: CodeId) | NoOriginalCode(code: CodeId) | NoInstrumentedCode(code: CodeId) | NoCodeMetadata(code: CodeId)
    | NoMessageQueue(hash: Hash) | NoWaitlist(hash: Hash) | NoDispatchStash(hash: Hash) | NoMailbox(hash: Hash)
    | NoUserMailbox(hash: Hash) | NoAllocations(hash: Hash) | NoProgramState(hash: Hash) | NoPayload(hash: Hash)
    | NoProgramCodeId(actor: Actor)

  datatype Node =
    | ErrorNode(error: IteratorError)
    | ChainNode(head: Hash, bottom: Hash)
    | BlockNode(block: Hash)
    | BlockMetaNode(block: Hash, meta: BlockMeta)
    | BlockHeaderNode(block: Hash, header: Header)
    | BlockEventsNode(block: Hash, events: seq<BlockEvent>)
    | BlockSyncedNode(block: Hash, synced: bool)
    | MbNode(mb: Hash, compact: CompactMb)
    | MbMetaNode(mb: Hash, computed: bool, advanced: Hash)
    | CodeIdNode(code: CodeId)
    | CodeValidNode(code: CodeId, valid: bool)
    | OriginalCodeNode(original: Bytes)
    | InstrumentedCodeNode(code: CodeId, instrumented: nat)
    | CodeMetadataNode(code: CodeId, originalLen: nat)
    | ProgramIdNode(actor: Actor)
    | MbProgramStatesNode(mb: Hash, states: seq<Hash>)
    | ProgramStateNode(state: ProgramState)
    | MbScheduleNode(mb: Hash, schedule: seq<(nat, seq<Task>)>)
    | MbScheduleTasksNode(mb: Hash, height: nat, tasks: seq<Task>)
    | ScheduledTaskNode(task: Task)
    | MbOutcomeNode(mb: Hash, outcome: seq<Transition>)
    | MbCommittedMessageIdsNode(mb: Hash, ids: set<nat>)
    | StateTransitionNode(transition: Transition)
    | AllocationsNode(allocations: nat)
    | MemoryPagesNode(regions: seq<Option<Hash>>)
    | MemoryPagesRegionNode(pages: seq<Hash>)
    | PageDataNode(page: Bytes)
    | PayloadLookupNode(lookup: PayloadLookup)
    | PayloadNode(payload: Bytes)
    | QueueHashWithSizeNode(queueRef: QueueHashWithSize)
    | MessageQueueNode(queue: Queue)
    | WaitlistNode(waitlist: seq<Dispatch>)
    | MailboxNode(users: seq<Hash>)
    | UserMailboxNode(messages: seq<Dispatch>)
    | DispatchStashNode(stash: seq<Dispatch>)

  /** The rows that the walk reads.  Ordered collections are sequences in iteration order. */
  datatype Db = Db(
    metas: map<Hash, BlockMeta>,
    headers: map<Hash, Header>,
    events: map<Hash, seq<BlockEvent>>,
    synced: set<Hash>,
    mbs: map<Hash, CompactMb>,
    mbMetas: map<Hash, (bool, Hash)>,
    mbStates: map<Hash, seq<Hash>>,
    mbSchedules: map<Hash, seq<(nat, seq<Task>)>>,
    mbOutcomes: map<Hash, seq<Transition>>,
    mbCommittedIds: map<Hash, set<nat>>,
    codeValid: map<CodeId, bool>,
    originals: map<CodeId, Bytes>,
    instrumented: map<CodeId, nat>,
    codeMetadata: map<CodeId, nat>,
    programCode: map<Actor, CodeId>,
    states: map<Hash, ProgramState>,
    queues: map<Hash, Queue>,
    waitlists: map<Hash, seq<Dispatch>>,
    stashes: map<Hash, seq<Dispatch>>,
    mailboxes: map<Hash, seq<Hash>>,
    userMailboxes: map<Hash, seq<Dispatch>>,
    allocations: map<Hash, nat>,
    memoryPages: map<Hash, seq<Option<Hash>>>,
    regions: map<Hash, seq<Hash>>,
    pages: map<Hash, Bytes>,
    payloads: map<Hash, Bytes>)
  {
    ghost predicate Acyclic() {
      forall h :: h in headers && headers[h].parent in headers ==> headers[headers[h].parent].height < headers[h].height
    }

    function BlockRank(h: Hash): nat {
      if h in headers then headers[h].height + 1 else 0
    }

    function Meta(h: Hash): BlockMeta {
      if h in metas then metas[h] else BlockMeta(false, None, None, None, None)
    }

    function MbMeta(h: Hash): (bool, Hash) {
      if h in mbMetas then mbMetas[h] else (false, ZERO)
    }

    function StateAt(h: Hash): Option<ProgramState> {
      if h == ZERO then Some(ZERO_STATE) else Lookup(states, h)
    }
  }

  const EMPTY_DB := Db(map[], map[], map[], {}, map[], map[], map[], map[], map[], map[], map[], map[], map[], map[],
                       map[], map[], map[], map[], map[], map[], map[], map[], map[], map[], map[], map[])

  type GraphDb = db: Db | db.Acyclic() witness EMPTY_DB

  // ---------------------------------------------------------------------
  // What each node references

  /** References only lead to kinds of smaller rank. */
  function Rank(node: Node): nat {
    match node
    case ChainNode(_, _) => 10
    case BlockNode(_) => 9
    case BlockMetaNode(_, _) => 8
    case MbNode(_, _) => 7
    case MbOutcomeNode(_, _) => 6
    case MbScheduleNode(_, _) => 5
    case MbProgramStatesNode(_, _) => 5
    case StateTransitionNode(_) => 5
    case MbScheduleTasksNode(_, _, _) => 4
    case ProgramStateNode(_) => 4
    case ScheduledTaskNode(_) => 3
    case QueueHashWithSizeNode(_) => 3
    case MailboxNode(_) => 3
    case ProgramIdNode(_) => 2
    case MessageQueueNode(_) => 2
    case WaitlistNode(_) => 2
    case UserMailboxNode(_) => 2
    case DispatchStashNode(_) => 2
    case MemoryPagesNode(_) => 2
    case CodeIdNode(_) => 1
    case MemoryPagesRegionNode(_) => 1
    case PayloadLookupNode(_) => 1
    case _ => 0
  }

  predicate Below(nodes: seq<Node>, rank: nat) {
    forall i :: 0 <= i < |nodes| ==> Rank(nodes[i]) < rank
  }

  /** Kinds that are referenced in one place only: by a queue reference or by a code id. */
  predicate SingleSource(n: Node) {
    n.MessageQueueNode? || n.OriginalCodeNode? || n.CodeMetadataNode?
  }

  /** Below a rank, and of kinds that may be referenced from several places. */
  predicate Shared(nodes: seq<Node>, rank: nat) {
    Below(nodes, rank) && forall i :: 0 <= i < |nodes| ==> !SingleSource(nodes[i])
  }

  lemma SharedConcat(a: seq<Node>, b: seq<Node>, rank: nat)
    ensures Shared(a, rank) && Shared(b, rank) ==> Shared(a + b, rank)
  {
  }

  /** Nodes of a chain: every block from `block` down to `bottom`, or down to a missing header. */
  function ChainBlocks(db: GraphDb, block: Hash, bottom: Hash): (r: seq<Node>)
    ensures Shared(r, 10)
    decreases db.BlockRank(block)
  {
    if block == bottom then [BlockNode(block)]
    else if block !in db.headers then [BlockNode(block), ErrorNode(NoBlockHeader(block))]
    else [BlockNode(block)] + ChainBlocks(db, db.headers[block].parent, bottom)
  }

  function BlockChildren(db: Db, block: Hash): (r: seq<Node>)
    ensures Shared(r, 9)
  {
    [BlockMetaNode(block, db.Meta(block)),
     if block in db.headers then BlockHeaderNode(block, db.headers[block]) else ErrorNode(NoBlockHeader(block)),
     if block in db.events then BlockEventsNode(block, db.events[block]) else ErrorNode(NoBlockEvents(block)),
     BlockSyncedNode(block, block in db.synced)]
  }

  function CodeIds(codes: seq<CodeId>): (r: seq<Node>)
    ensures Shared(r, 2)
  {
    seq(|codes|, i requires 0 <= i < |codes| => CodeIdNode(codes[i]))
  }

  function BlockMetaChildren(db: Db, block: Hash, meta: BlockMeta): (r: seq<Node>)
    ensures Shared(r, 8)
  {
    (if meta.lastCommittedMb.Some? && meta.lastCommittedMb.value != ZERO then
       var mb := meta.lastCommittedMb.value;
       [if mb in db.mbs then MbNode(mb, db.mbs[mb]) else ErrorNode(NoMb(mb))]
     else []) +
    (if meta.codesQueue.Some? then CodeIds(meta.codesQueue.value) else [ErrorNode(NoBlockCodesQueue(block))])
  }

  /** Rows of a computed MB; schedule and committed ids may be absent. */
  function MbRows(db: Db, mb: Hash): (r: seq<Node>)
    ensures Shared(r, 7)
  {
    (if mb in db.mbSchedules then [MbScheduleNode(mb, db.mbSchedules[mb])] else []) +
    [if mb in db.mbOutcomes then MbOutcomeNode(mb, db.mbOutcomes[mb]) else ErrorNode(NoMbOutcome(mb))] +
    (if mb in db.mbCommittedIds then [MbCommittedMessageIdsNode(mb, db.mbCommittedIds[mb])] else []) +
    [if mb in db.mbStates then MbProgramStatesNode(mb, db.mbStates[mb]) else ErrorNode(NoMbProgramStates(mb))]
  }

  /** Post-execution rows are only walked for computed MBs. */
  function MbChildren(db: Db, mb: Hash): seq<Node> {
    var (computed, advanced) := db.MbMeta(mb);
    [MbMetaNode(mb, computed, advanced)] + if computed then MbRows(db, mb) else []
  }

  lemma MbChildrenShared(db: Db, mb: Hash)
    ensures Shared(MbChildren(db, mb), 7)
  {
    hide MbRows;
    var (computed, advanced) := db.MbMeta(mb);
    SharedConcat([MbMetaNode(mb, computed, advanced)], if computed then MbRows(db, mb) else [], 7);
  }

  function StateRow(db: Db, hash: Hash): (r: Node)
    ensures Rank(r) < 5 && !SingleSource(r)
  {
    var state := db.StateAt(hash);
    if state.Some? then ProgramStateNode(state.value) else ErrorNode(NoProgramState(hash))
  }

  function MbProgramStatesChildren(db: Db, states: seq<Hash>): (r: seq<Node>)
    ensures Shared(r, 5)
  {
    seq(|states|, i requires 0 <= i < |states| => StateRow(db, states[i]))
  }

  function MbScheduleChildren(mb: Hash, schedule: seq<(nat, seq<Task>)>): (r: seq<Node>)
    ensures Shared(r, 5)
  {
    seq(|schedule|, i requires 0 <= i < |schedule| => MbScheduleTasksNode(mb, schedule[i].0, schedule[i].1))
  }

  function MbScheduleTasksChildren(tasks: seq<Task>): (r: seq<Node>)
    ensures Shared(r, 4)
  {
    seq(|tasks|, i requires 0 <= i < |tasks| => ScheduledTaskNode(tasks[i]))
  }

  function MbOutcomeChildren(outcome: seq<Transition>): (r: seq<Node>)
    ensures Shared(r, 6)
  {
    seq(|outcome|, i requires 0 <= i < |outcome| => StateTransitionNode(outcome[i]))
  }

  function TransitionChildren(db: Db, t: Transition): (r: seq<Node>)
    ensures Shared(r, 5)
  {
    [ProgramIdNode(t.actor)] + if t.newState != ZERO then [StateRow(db, t.newState)] else []
  }

  function ProgramIdChildren(db: Db, actor: Actor): (r: seq<Node>)
    ensures Shared(r, 2)
  {
    [if actor in db.programCode then CodeIdNode(db.programCode[actor]) else ErrorNode(NoProgramCodeId(actor))]
  }

  function PayloadChildren(db: Db, lookup: PayloadLookup): (r: seq<Node>)
    ensures Shared(r, 1)
  {
    [if lookup.Direct? then PayloadNode(lookup.payload)
     else if lookup.payloadHash in db.payloads then PayloadNode(db.payloads[lookup.payloadHash])
     else ErrorNode(NoPayload(lookup.payloadHash))]
  }

  function CodeChildren(db: Db, code: CodeId): (r: seq<Node>)
    ensures Below(r, 1)
  {
    [if code in db.codeValid then CodeValidNode(code, db.codeValid[code]) else ErrorNode(NoCodeValid(code)),
     if code in db.originals then OriginalCodeNode(db.originals[code]) else ErrorNode(NoOriginalCode(code)),
     if code in db.instrumented then InstrumentedCodeNode(code, db.instrumented[code]) else ErrorNode(NoInstrumentedCode(code)),
     if code in db.codeMetadata then CodeMetadataNode(code, db.codeMetadata[code]) else ErrorNode(NoCodeMetadata(code))]
  }

  /** Memory of an active program. */
  function ProgramChildren(db: Db, program: Program): (r: seq<Node>)
    ensures Shared(r, 4)
  {
    if program.Inactive? then []
    else
      (if program.allocations.None? then []
       else
         var h := program.allocations.value;
         [if h in db.allocations then AllocationsNode(db.allocations[h]) else ErrorNode(NoAllocations(h))]) +
      (if program.pages.None? then []
       else
         var h := program.pages.value;
         [if h in db.memoryPages then MemoryPagesNode(db.memoryPages[h]) else ErrorNode(NoMemoryPages(h))])
  }

  function WaitlistRow(db: Db, waitlist: Option<Hash>): (r: seq<Node>)
    ensures Shared(r, 4)
  {
    if waitlist.None? then []
    else
      var h := waitlist.value;
      [if h in db.waitlists then WaitlistNode(db.waitlists[h]) else ErrorNode(NoWaitlist(h))]
  }

  function StashRow(db: Db, stash: Option<Hash>): (r: seq<Node>)
    ensures Shared(r, 4)
  {
    if stash.None? then []
    else
      var h := stash.value;
      [if h in db.stashes then DispatchStashNode(db.stashes[h]) else ErrorNode(NoDispatchStash(h))]
  }

  function MailboxRow(db: Db, mailbox: Option<Hash>): (r: seq<Node>)
    ensures Shared(r, 4)
  {
    if mailbox.None? then []
    else
      var h := mailbox.value;
      [if h in db.mailboxes then MailboxNode(db.mailboxes[h]) else ErrorNode(NoMailbox(h))]
  }

  /** Messages that are not in a queue. */
  function StoredMessagesChildren(db: Db, state: ProgramState): seq<Node> {
    WaitlistRow(db, state.waitlist) + StashRow(db, state.stash) + MailboxRow(db, state.mailbox)
  }

  lemma StoredMessagesShared(db: Db, state: ProgramState)
    ensures Shared(StoredMessagesChildren(db, state), 4)
  {
    hide WaitlistRow, StashRow, MailboxRow, Shared;
    SharedConcat(WaitlistRow(db, state.waitlist), StashRow(db, state.stash), 4);
    SharedConcat(WaitlistRow(db, state.waitlist) + StashRow(db, state.stash), MailboxRow(db, state.mailbox), 4);
  }

  function QueueRefs(state: ProgramState): (r: seq<Node>)
    ensures Shared(r, 4)
  {
    [QueueHashWithSizeNode(state.canonicalQueue), QueueHashWithSizeNode(state.injectedQueue)]
  }

  function StateChildren(db: Db, state: ProgramState): seq<Node> {
    ProgramChildren(db, state.program) + QueueRefs(state) + StoredMessagesChildren(db, state)
  }

  lemma StateChildrenShared(db: Db, state: ProgramState)
    ensures Shared(StateChildren(db, state), 4)
  {
    hide ProgramChildren, QueueRefs, StoredMessagesChildren, Shared;
    StoredMessagesShared(db, state);
    SharedConcat(ProgramChildren(db, state.program), QueueRefs(state), 4);
    SharedConcat(ProgramChildren(db, state.program) + QueueRefs(state), StoredMessagesChildren(db, state), 4);
  }

  function RegionHashes(regions: seq<Option<Hash>>): seq<Hash> {
    if regions == [] then []
    else (if regions[0].Some? then [regions[0].value] else []) + RegionHashes(regions[1..])
  }

  function RegionsChildren(db: Db, hashes: seq<Hash>): (r: seq<Node>)
    ensures Shared(r, 2)
  {
    seq(|hashes|, i requires 0 <= i < |hashes| =>
      if hashes[i] in db.regions then MemoryPagesRegionNode(db.regions[hashes[i]]) else ErrorNode(NoMemoryPagesRegion(hashes[i])))
  }

  function PagesChildren(db: Db, hashes: seq<Hash>): (r: seq<Node>)
    ensures Shared(r, 1)
  {
    seq(|hashes|, i requires 0 <= i < |hashes| =>
      if hashes[i] in db.pages then PageDataNode(db.pages[hashes[i]]) else ErrorNode(NoPageData(hashes[i])))
  }

  function QueueChildren(db: Db, q: QueueHashWithSize): (r: seq<Node>)
    ensures Below(r, 3)
  {
    if q.hash.None? then []
    else [if q.hash.value in db.queues then MessageQueueNode(db.queues[q.hash.value]) else ErrorNode(NoMessageQueue(q.hash.value))]
  }

  function MailboxChildren(db: Db, users: seq<Hash>): (r: seq<Node>)
    ensures Shared(r, 3)
  {
    seq(|users|, i requires 0 <= i < |users| =>
      if users[i] in db.userMailboxes then UserMailboxNode(db.userMailboxes[users[i]]) else ErrorNode(NoUserMailbox(users[i])))
  }

  function Payloads(dispatches: seq<Dispatch>): (r: seq<Node>)
    ensures Shared(r, 2)
  {
    seq(|dispatches|, i requires 0 <= i < |dispatches| => PayloadLookupNode(dispatches[i].payload))
  }

  /** The nodes that `iter_node` pushes, in order. */
  function Children(db: GraphDb, node: Node): seq<Node> {
    match node
    case ChainNode(head, bottom) => ChainBlocks(db, head, bottom)
    case BlockNode(block) => BlockChildren(db, block)
    case BlockMetaNode(block, meta) => BlockMetaChildren(db, block, meta)
    case MbNode(mb, _) => MbChildren(db, mb)
    case MbProgramStatesNode(_, states) => MbProgramStatesChildren(db, states)
    case MbScheduleNode(mb, schedule) => MbScheduleChildren(mb, schedule)
    case MbScheduleTasksNode(_, _, tasks) => MbScheduleTasksChildren(tasks)
    case MbOutcomeNode(_, outcome) => MbOutcomeChildren(outcome)
    case ScheduledTaskNode(task) => [ProgramIdNode(task.program)]
    case StateTransitionNode(transition) => TransitionChildren(db, transition)
    case ProgramIdNode(actor) => ProgramIdChildren(db, actor)
    case CodeIdNode(code) => CodeChildren(db, code)
    case ProgramStateNode(state) => StateChildren(db, state)
    case MemoryPagesNode(regions) => RegionsChildren(db, RegionHashes(regions))
    case MemoryPagesRegionNode(pages) => PagesChildren(db, pages)
    case QueueHashWithSizeNode(q) => QueueChildren(db, q)
    case MessageQueueNode(queue) => Payloads(queue)
    case WaitlistNode(waitlist) => Payloads(waitlist)
    case MailboxNode(users) => MailboxChildren(db, users)
    case UserMailboxNode(messages) => Payloads(messages)
    case DispatchStashNode(stash) => Payloads(stash)
    case PayloadLookupNode(lookup) => PayloadChildren(db, lookup)
    case _ => []
  }

  lemma ChildrenRank(db: GraphDb, node: Node)
    ensures Below(Children(db, node), Rank(node))
    ensures !node.CodeIdNode? && !node.QueueHashWithSizeNode? ==> Shared(Children(db, node), Rank(node))
  {
    hide ChainBlocks;
    hide BlockChildren;
    hide BlockMetaChildren;
    hide MbChildren;
    hide MbProgramStatesChildren;
    hide MbScheduleChildren;
    hide MbScheduleTasksChildren;
    hide MbOutcomeChildren;
    hide TransitionChildren;
    hide ProgramIdChildren;
    hide CodeChildren;
    hide StateChildren;
    hide RegionsChildren;
    hide RegionHashes;
    hide PagesChildren;
    hide QueueChildren;
    hide Payloads;
    hide MailboxChildren;
    hide PayloadChildren;
    if node.MbNode? {
      MbChildrenShared(db, node.mb);
    } else if node.ProgramStateNode? {
      StateChildrenShared(db, node.state);
    }
  }

  // ---------------------------------------------------------------------
  // The walk

  /** Size of the unfolding below a node: bounds what the walk still has to do. */
  ghost function Weight(db: GraphDb, node: Node): nat
    decreases Rank(node)
  {
    ChildrenRank(db, node);
    1 + Weights(db, Children(db, node), Rank(node))
  }

  ghost function Weights(db: GraphDb, nodes: seq<Node>, bound: nat): nat
    requires Below(nodes, bound)
    decreases bound, |nodes|
  {
    if nodes == [] then 0 else Weight(db, nodes[0]) + Weights(db, nodes[1..], bound)
  }

  ghost function Work(db: GraphDb, stack: seq<Node>): nat {
    if stack == [] then 0 else Weight(db, stack[0]) + Work(db, stack[1..])
  }

  lemma {:induction false} WorkConcat(db: GraphDb, a: seq<Node>, b: seq<Node>)
    ensures Work(db, a + b) == Work(db, a) + Work(db, b)
  {
    hide Weight;
    if a == [] {
      assert a + b == b;
    } else {
      WorkConcat(db, a[1..], b);
      assert (a + b)[1..] == a[1..] + b;
    }
  }

  lemma {:induction false} WeightsAreWork(db: GraphDb, nodes: seq<Node>, bound: nat)
    requires Below(nodes, bound)
    ensures Weights(db, nodes, bound) == Work(db, nodes)
  {
    if nodes != [] {
      WeightsAreWork(db, nodes[1..], bound);
    }
  }

  /** Every pop makes the remaining work smaller, whether the node is expanded or skipped. */
  lemma PopShrinks(db: GraphDb, stack: seq<Node>)
    requires stack != []
    ensures Work(db, stack[1..]) < Work(db, stack)
    ensures Work(db, stack[1..] + Children(db, stack[0])) < Work(db, stack)
  {
    hide Children;
    ChildrenRank(db, stack[0]);
    WeightsAreWork(db, Children(db, stack[0]), Rank(stack[0]));
    WorkConcat(db, stack[1..], Children(db, stack[0]));
  }

  /** The nodes emitted from here on, in order. */
  function Walk(db: GraphDb, stack: seq<Node>, visited: set<Node>): seq<Node>
    decreases Work(db, stack)
  {
    if stack == [] then []
    else
      PopShrinks(db, stack);
      if stack[0] in visited then Walk(db, stack[1..], visited)
      else [stack[0]] + Walk(db, stack[1..] + Children(db, stack[0]), visited + {stack[0]})
  }

  predicate IsChainData(n: Node) {
    n.ChainNode? || n.BlockNode? || n.BlockMetaNode? || n.MbNode?
  }

  predicate IsExecutionData(n: Node) {
    || n.MbProgramStatesNode? || n.MbScheduleNode? || n.MbScheduleTasksNode? || n.MbOutcomeNode?
    || n.StateTransitionNode? || n.ProgramStateNode?
  }

  lemma RegionsFirst(db: Db, h: Hash, rest: seq<Hash>)
    ensures RegionsChildren(db, [h] + rest) == RegionsChildren(db, [h]) + RegionsChildren(db, rest)
  {
    var all := RegionsChildren(db, [h] + rest);
    assert forall i :: 0 <= i < |rest| ==> all[i + 1] == RegionsChildren(db, rest)[i];
  }

  class DatabaseIterator {
    const db: GraphDb
    var stack: seq<Node>
    var visited: set<Node>

    constructor WithSkipNodes(db: GraphDb, node: Node, skip: set<Node>)
      ensures this.db == db && stack == [node] && visited == skip
    {
      this.db := db;
      stack := [node];
      visited := skip;
    }

    method PushNode(node: Node)
      modifies this`stack
      ensures stack == old(stack) + [node]
    {
      stack := stack + [node];
    }

    method IterChain(head: Hash, bottom: Hash)
      modifies this`stack
      ensures stack == old(stack) + ChainBlocks(db, head, bottom)
    {
      var block := head;
      while true
        invariant stack + ChainBlocks(db, block, bottom) == old(stack) + ChainBlocks(db, head, bottom)
        decreases db.BlockRank(block)
      {
        ghost var before := stack;
        PushNode(BlockNode(block));
        if block == bottom {
          return;
        }
        if block !in db.headers {
          PushNode(ErrorNode(NoBlockHeader(block)));
          assert stack == before + [BlockNode(block), ErrorNode(NoBlockHeader(block))];
          return;
        }
        block := db.headers[block].parent;
        assert stack + ChainBlocks(db, block, bottom) == before + ([stack[|before|]] + ChainBlocks(db, block, bottom));
      }
    }

    /** `try_push_node!`: the row if it is there, an error node if not. */
    method TryPush(row: Option<Node>, missing: IteratorError)
      modifies this`stack
      ensures stack == old(stack) + [if row.Some? then row.value else ErrorNode(missing)]
    {
      if row.Some? {
        PushNode(row.value);
      } else {
        PushNode(ErrorNode(missing));
      }
    }

    method IterBlock(block: Hash)
      modifies this`stack
      ensures stack == old(stack) + BlockChildren(db, block)
    {
      PushNode(BlockMetaNode(block, db.Meta(block)));
      TryPush(if block in db.headers then Some(BlockHeaderNode(block, db.headers[block])) else None, NoBlockHeader(block));
      TryPush(if block in db.events then Some(BlockEventsNode(block, db.events[block])) else None, NoBlockEvents(block));
      PushNode(BlockSyncedNode(block, block in db.synced));
    }

    method IterBlockMeta(block: Hash, meta: BlockMeta)
      modifies this`stack
      ensures stack == old(stack) + BlockMetaChildren(db, block, meta)
    {
      if meta.lastCommittedMb.Some? && meta.lastCommittedMb.value != ZERO {
        var mb := meta.lastCommittedMb.value;
        TryPush(if mb in db.mbs then Some(MbNode(mb, db.mbs[mb])) else None, NoMb(mb));
      }
      ghost var before := stack;
      if meta.codesQueue.Some? {
        var codes := meta.codesQueue.value;
        for i := 0 to |codes|
          invariant stack == before + CodeIds(codes)[..i]
        {
          PushNode(CodeIdNode(codes[i]));
        }
      } else {
        PushNode(ErrorNode(NoBlockCodesQueue(block)));
      }
    }

    method IterMb(mb: Hash)
      modifies this`stack
      ensures stack == old(stack) + MbChildren(db, mb)
    {
      hide MbRows;
      var (computed, advanced) := db.MbMeta(mb);
      PushNode(MbMetaNode(mb, computed, advanced));
      if computed {
        IterMbRows(mb);
      }
    }

    method IterMbRows(mb: Hash)
      modifies this`stack
      ensures stack == old(stack) + MbRows(db, mb)
    {
      if mb in db.mbSchedules {
        PushNode(MbScheduleNode(mb, db.mbSchedules[mb]));
      }
      TryPush(if mb in db.mbOutcomes then Some(MbOutcomeNode(mb, db.mbOutcomes[mb])) else None, NoMbOutcome(mb));
      if mb in db.mbCommittedIds {
        PushNode(MbCommittedMessageIdsNode(mb, db.mbCommittedIds[mb]));
      }
      TryPush(if mb in db.mbStates then Some(MbProgramStatesNode(mb, db.mbStates[mb])) else None, NoMbProgramStates(mb));
    }

    method PushState(hash: Hash)
      modifies this`stack
      ensures stack == old(stack) + [StateRow(db, hash)]
    {
      var state := db.StateAt(hash);
      TryPush(if state.Some? then Some(ProgramStateNode(state.value)) else None, NoProgramState(hash));
    }

    method IterMbProgramStates(states: seq<Hash>)
      modifies this`stack
      ensures stack == old(stack) + MbProgramStatesChildren(db, states)
    {
      for i := 0 to |states|
        invariant stack == old(stack) + MbProgramStatesChildren(db, states)[..i]
      {
        PushState(states[i]);
      }
    }

    method IterMbSchedule(mb: Hash, schedule: seq<(nat, seq<Task>)>)
      modifies this`stack
      ensures stack == old(stack) + MbScheduleChildren(mb, schedule)
    {
      for i := 0 to |schedule|
        invariant stack == old(stack) + MbScheduleChildren(mb, schedule)[..i]
      {
        PushNode(MbScheduleTasksNode(mb, schedule[i].0, schedule[i].1));
      }
    }

    method IterMbScheduleTasks(tasks: seq<Task>)
      modifies this`stack
      ensures stack == old(stack) + MbScheduleTasksChildren(tasks)
    {
      for i := 0 to |tasks|
        invariant stack == old(stack) + MbScheduleTasksChildren(tasks)[..i]
      {
        PushNode(ScheduledTaskNode(tasks[i]));
      }
    }

    method IterMbOutcome(outcome: seq<Transition>)
      modifies this`stack
      ensures stack == old(stack) + MbOutcomeChildren(outcome)
    {
      for i := 0 to |outcome|
        invariant stack == old(stack) + MbOutcomeChildren(outcome)[..i]
      {
        PushNode(StateTransitionNode(outcome[i]));
      }
    }

    method IterStateTransition(t: Transition)
      modifies this`stack
      ensures stack == old(stack) + TransitionChildren(db, t)
    {
      PushNode(ProgramIdNode(t.actor));
      if t.newState != ZERO {
        PushState(t.newState);
      }
    }

    method IterProgramId(actor: Actor)
      modifies this`stack
      ensures stack == old(stack) + ProgramIdChildren(db, actor)
    {
      TryPush(if actor in db.programCode then Some(CodeIdNode(db.programCode[actor])) else None, NoProgramCodeId(actor));
    }

    method IterCodeId(code: CodeId)
      modifies this`stack
      ensures stack == old(stack) + CodeChildren(db, code)
    {
      TryPush(if code in db.codeValid then Some(CodeValidNode(code, db.codeValid[code])) else None, NoCodeValid(code));
      TryPush(if code in db.originals then Some(OriginalCodeNode(db.originals[code])) else None, NoOriginalCode(code));
      TryPush(if code in db.instrumented then Some(InstrumentedCodeNode(code, db.instrumented[code])) else None,
              NoInstrumentedCode(code));
      TryPush(if code in db.codeMetadata then Some(CodeMetadataNode(code, db.codeMetadata[code])) else None,
              NoCodeMetadata(code));
    }

    method IterProgram(program: Program)
      modifies this`stack
      ensures stack == old(stack) + ProgramChildren(db, program)
    {
      if program.Active? {
        if program.allocations.Some? {
          var h := program.allocations.value;
          TryPush(if h in db.allocations then Some(AllocationsNode(db.allocations[h])) else None, NoAllocations(h));
        }
        if program.pages.Some? {
          var h := program.pages.value;
          TryPush(if h in db.memoryPages then Some(MemoryPagesNode(db.memoryPages[h])) else None, NoMemoryPages(h));
        }
      }
    }

    method IterWaitlistHash(waitlist: Option<Hash>)
      modifies this`stack
      ensures stack == old(stack) + WaitlistRow(db, waitlist)
    {
      if waitlist.Some? {
        var h := waitlist.value;
        TryPush(if h in db.waitlists then Some(WaitlistNode(db.waitlists[h])) else None, NoWaitlist(h));
      }
    }

    method IterStashHash(stash: Option<Hash>)
      modifies this`stack
      ensures stack == old(stack) + StashRow(db, stash)
    {
      if stash.Some? {
        var h := stash.value;
        TryPush(if h in db.stashes then Some(DispatchStashNode(db.stashes[h])) else None, NoDispatchStash(h));
      }
    }

    method IterMailboxHash(mailbox: Option<Hash>)
      modifies this`stack
      ensures stack == old(stack) + MailboxRow(db, mailbox)
    {
      if mailbox.Some? {
        var h := mailbox.value;
        TryPush(if h in db.mailboxes then Some(MailboxNode(db.mailboxes[h])) else None, NoMailbox(h));
      }
    }

    method IterStoredMessages(state: ProgramState)
      modifies this`stack
      ensures stack == old(stack) + StoredMessagesChildren(db, state)
    {
      hide WaitlistRow, StashRow, MailboxRow;
      IterWaitlistHash(state.waitlist);
      IterStashHash(state.stash);
      IterMailboxHash(state.mailbox);
    }

    method IterProgramState(state: ProgramState)
      modifies this`stack
      ensures stack == old(stack) + StateChildren(db, state)
    {
      hide ProgramChildren, StoredMessagesChildren;
      IterProgram(state.program);
      PushNode(QueueHashWithSizeNode(state.canonicalQueue));
      PushNode(QueueHashWithSizeNode(state.injectedQueue));
      IterStoredMessages(state);
      assert stack == old(stack) + ProgramChildren(db, state.program) + QueueRefs(state) + StoredMessagesChildren(db, state);
    }

    method IterMemoryPages(regions: seq<Option<Hash>>)
      modifies this`stack
      ensures stack == old(stack) + RegionsChildren(db, RegionHashes(regions))
    {
      assert regions[0..] == regions;
      for i := 0 to |regions|
        invariant stack + RegionsChildren(db, RegionHashes(regions[i..])) ==
                  old(stack) + RegionsChildren(db, RegionHashes(regions))
      {
        assert regions[i..][1..] == regions[i + 1..];
        if regions[i].Some? {
          var h := regions[i].value;
          ghost var before, rest := stack, RegionHashes(regions[i + 1..]);
          TryPush(if h in db.regions then Some(MemoryPagesRegionNode(db.regions[h])) else None, NoMemoryPagesRegion(h));
          RegionsFirst(db, h, rest);
          assert stack + RegionsChildren(db, rest) == before + RegionsChildren(db, [h] + rest);
        } else {
          assert [] + RegionHashes(regions[i + 1..]) == RegionHashes(regions[i + 1..]);
        }
      }
      assert regions[|regions|..] == [];
      assert RegionsChildren(db, []) == [];
    }

    method IterMemoryPagesRegion(hashes: seq<Hash>)
      modifies this`stack
      ensures stack == old(stack) + PagesChildren(db, hashes)
    {
      for i := 0 to |hashes|
        invariant stack == old(stack) + PagesChildren(db, hashes)[..i]
      {
        var h := hashes[i];
        TryPush(if h in db.pages then Some(PageDataNode(db.pages[h])) else None, NoPageData(h));
      }
    }

    method IterQueueHashWithSize(q: QueueHashWithSize)
      modifies this`stack
      ensures stack == old(stack) + QueueChildren(db, q)
    {
      if q.hash.Some? {
        var h := q.hash.value;
        TryPush(if h in db.queues then Some(MessageQueueNode(db.queues[h])) else None, NoMessageQueue(h));
      }
    }

    /** Message queues, waitlists, user mailboxes and stashes all lead to the payloads of their messages. */
    method IterDispatches(dispatches: seq<Dispatch>)
      modifies this`stack
      ensures stack == old(stack) + Payloads(dispatches)
    {
      for i := 0 to |dispatches|
        invariant stack == old(stack) + Payloads(dispatches)[..i]
      {
        PushNode(PayloadLookupNode(dispatches[i].payload));
      }
    }

    method IterMailbox(users: seq<Hash>)
      modifies this`stack
      ensures stack == old(stack) + MailboxChildren(db, users)
    {
      for i := 0 to |users|
        invariant stack == old(stack) + MailboxChildren(db, users)[..i]
      {
        var h := users[i];
        TryPush(if h in db.userMailboxes then Some(UserMailboxNode(db.userMailboxes[h])) else None, NoUserMailbox(h));
      }
    }

    method IterPayloadLookup(lookup: PayloadLookup)
      modifies this`stack
      ensures stack == old(stack) + PayloadChildren(db, lookup)
    {
      match lookup {
        case Direct(payload) => PushNode(PayloadNode(payload));
        case Stored(h) => TryPush(if h in db.payloads then Some(PayloadNode(db.payloads[h])) else None, NoPayload(h));
      }
    }

    /** `iter_node`: one handler per kind pushes what the node references. */
    method IterNode(node: Node)
      modifies this`stack
      ensures stack == old(stack) + Children(db, node)
    {
      hide ChainBlocks, BlockChildren, BlockMetaChildren, MbChildren, MbProgramStatesChildren, MbScheduleChildren;
      hide MbScheduleTasksChildren, MbOutcomeChildren, TransitionChildren, ProgramIdChildren, CodeChildren;
      hide StateChildren, RegionsChildren, PagesChildren, QueueChildren, Payloads, MailboxChildren, PayloadChildren;
      if IsChainData(node) {
        IterChainNode(node);
      } else if IsExecutionData(node) {
        IterExecutionNode(node);
      } else {
        IterContentNode(node);
      }
    }

    /** Blocks and MBs. */
    method IterChainNode(node: Node)
      requires IsChainData(node)
      modifies this`stack
      ensures stack == old(stack) + Children(db, node)
    {
      hide ChainBlocks, BlockChildren, BlockMetaChildren, MbChildren, MbProgramStatesChildren, MbScheduleChildren;
      hide MbScheduleTasksChildren, MbOutcomeChildren, TransitionChildren, ProgramIdChildren, CodeChildren;
      hide StateChildren, RegionsChildren, PagesChildren, QueueChildren, Payloads, MailboxChildren, PayloadChildren;
      match node {
        case ChainNode(head, bottom) => IterChain(head, bottom);
        case BlockNode(block) => IterBlock(block);
        case BlockMetaNode(block, meta) => IterBlockMeta(block, meta);
        case MbNode(mb, _) => IterMb(mb);
      }
    }

    /** What executing an MB left, down to program states and tasks. */
    method IterExecutionNode(node: Node)
      requires IsExecutionData(node)
      modifies this`stack
      ensures stack == old(stack) + Children(db, node)
    {
      hide ChainBlocks, BlockChildren, BlockMetaChildren, MbChildren, MbProgramStatesChildren, MbScheduleChildren;
      hide MbScheduleTasksChildren, MbOutcomeChildren, TransitionChildren, ProgramIdChildren, CodeChildren;
      hide StateChildren, RegionsChildren, PagesChildren, QueueChildren, Payloads, MailboxChildren, PayloadChildren;
      match node {
        case MbProgramStatesNode(_, states) => IterMbProgramStates(states);
        case MbScheduleNode(mb, schedule) => IterMbSchedule(mb, schedule);
        case MbScheduleTasksNode(_, _, tasks) => IterMbScheduleTasks(tasks);
        case MbOutcomeNode(_, outcome) => IterMbOutcome(outcome);
        case StateTransitionNode(transition) => IterStateTransition(transition);
        case ProgramStateNode(state) => IterProgramState(state);
      }
    }

    /** Programs, codes, memory and messages. */
    method IterContentNode(node: Node)
      requires !IsChainData(node) && !IsExecutionData(node)
      modifies this`stack
      ensures stack == old(stack) + Children(db, node)
    {
      hide ChainBlocks, BlockChildren, BlockMetaChildren, MbChildren, MbProgramStatesChildren, MbScheduleChildren;
      hide MbScheduleTasksChildren, MbOutcomeChildren, TransitionChildren, ProgramIdChildren, CodeChildren;
      hide StateChildren, RegionsChildren, PagesChildren, QueueChildren, Payloads, MailboxChildren, PayloadChildren;
      match node {
        case ScheduledTaskNode(task) => PushNode(ProgramIdNode(task.program));
        case ProgramIdNode(actor) => IterProgramId(actor);
        case CodeIdNode(code) => IterCodeId(code);
        case MemoryPagesNode(regions) => IterMemoryPages(regions);
        case MemoryPagesRegionNode(pages) => IterMemoryPagesRegion(pages);
        case QueueHashWithSizeNode(q) => IterQueueHashWithSize(q);
        case MessageQueueNode(queue) => IterDispatches(queue);
        case WaitlistNode(waitlist) => IterDispatches(waitlist);
        case MailboxNode(users) => IterMailbox(users);
        case UserMailboxNode(messages) => IterDispatches(messages);
        case DispatchStashNode(stash) => IterDispatches(stash);
        case PayloadLookupNode(lookup) => IterPayloadLookup(lookup);
        case _ =>
      }
    }

    /** The next node that has not been visited, if any. */
    method Next() returns (r: Option<Node>)
      modifies this
      ensures r.None? ==> stack == [] && Walk(db, old(stack), old(visited)) == []
      ensures r.Some? ==>
                && r.value !in old(visited) && visited == old(visited) + {r.value}
                && Walk(db, old(stack), old(visited)) == [r.value] + Walk(db, stack, visited)
                && Work(db, stack) < Work(db, old(stack))
    {
      while stack != []
        invariant Walk(db, stack, visited) == Walk(db, old(stack), old(visited)) && visited == old(visited)
        invariant Work(db, stack) <= Work(db, old(stack))
        decreases |stack|
      {
        var node := stack[0];
        PopShrinks(db, stack);
        stack := stack[1..];
        if node in visited {
          continue;
        }
        visited := visited + {node};
        IterNode(node);
        return Some(node);
      }
      return None;
    }
  }

  // ---------------------------------------------------------------------
  // What the walk emits

  /** `path` follows references and avoids the skipped nodes. */
  ghost predicate IsPath(db: GraphDb, path: seq<Node>, skip: set<Node>) {
    && path != []
    && (forall i :: 0 <= i < |path| ==> path[i] !in skip)
    && (forall i :: 0 < i < |path| ==> path[i] in Children(db, path[i - 1]))
  }

  ghost predicate Reachable(db: GraphDb, root: Node, skip: set<Node>, node: Node) {
    exists path :: IsPath(db, path, skip) && path[0] == root && path[|path| - 1] == node
  }

  /** Emitted nodes are new and pairwise different. */
  lemma {:induction false} WalkDistinct(db: GraphDb, stack: seq<Node>, visited: set<Node>)
    ensures Distinct(Walk(db, stack, visited))
    ensures forall n :: n in Walk(db, stack, visited) ==> n !in visited
    decreases Work(db, stack)
  {
    hide Children;
    hide Work;
    if stack != [] {
      PopShrinks(db, stack);
      if stack[0] in visited {
        WalkDistinct(db, stack[1..], visited);
      } else {
        WalkDistinct(db, stack[1..] + Children(db, stack[0]), visited + {stack[0]});
      }
    }
  }

  /** Nothing is lost: what is on the stack, and what an emitted node references, is emitted or was visited. */
  lemma {:induction false} WalkCloses(db: GraphDb, stack: seq<Node>, visited: set<Node>)
    ensures forall n :: n in stack ==> n in Walk(db, stack, visited) || n in visited
    ensures forall n, c :: n in Walk(db, stack, visited) && c in Children(db, n) ==> c in Walk(db, stack, visited) || c in visited
    decreases Work(db, stack)
  {
    hide Children;
    hide Work;
    if stack != [] {
      PopShrinks(db, stack);
      assert stack == [stack[0]] + stack[1..];
      if stack[0] in visited {
        WalkCloses(db, stack[1..], visited);
      } else {
        WalkCloses(db, stack[1..] + Children(db, stack[0]), visited + {stack[0]});
      }
    }
  }

  /** A node is on the stack, or some node emitted before it references it. */
  ghost predicate Referenced(db: GraphDb, stack: seq<Node>, emitted: seq<Node>, k: nat)
    requires k < |emitted|
  {
    emitted[k] in stack || exists j :: 0 <= j < k && emitted[k] in Children(db, emitted[j])
  }

  lemma {:induction false} WalkReferenced(db: GraphDb, stack: seq<Node>, visited: set<Node>, k: nat)
    requires k < |Walk(db, stack, visited)|
    ensures Referenced(db, stack, Walk(db, stack, visited), k)
    decreases Work(db, stack)
  {
    hide Children;
    hide Work;
    PopShrinks(db, stack);
    var emitted := Walk(db, stack, visited);
    if stack[0] in visited {
      WalkReferenced(db, stack[1..], visited, k);
    } else if k > 0 {
      var rest := Walk(db, stack[1..] + Children(db, stack[0]), visited + {stack[0]});
      assert emitted == [stack[0]] + rest;
      WalkReferenced(db, stack[1..] + Children(db, stack[0]), visited + {stack[0]}, k - 1);
      if emitted[k] !in stack {
        if rest[k - 1] in Children(db, stack[0]) {
          assert emitted[0] == stack[0];
        } else {
          var j :| 0 <= j < k - 1 && rest[k - 1] in Children(db, rest[j]);
          assert emitted[j + 1] == rest[j];
        }
      }
    }
  }

  lemma {:induction false} EmittedAreReachable(db: GraphDb, root: Node, skip: set<Node>, k: nat)
    requires k < |Walk(db, [root], skip)|
    ensures Reachable(db, root, skip, Walk(db, [root], skip)[k])
    decreases k
  {
    hide Children;
    hide Walk;
    WalkDistinct(db, [root], skip);
    WalkReferenced(db, [root], skip, k);
    var emitted := Walk(db, [root], skip);
    if emitted[k] == root {
      assert IsPath(db, [root], skip) && [root][0] == root && [root][|[root]| - 1] == emitted[k];
    } else {
      var j :| 0 <= j < k && emitted[k] in Children(db, emitted[j]);
      EmittedAreReachable(db, root, skip, j);
      var path :| IsPath(db, path, skip) && path[0] == root && path[|path| - 1] == emitted[j];
      var longer := path + [emitted[k]];
      assert IsPath(db, longer, skip) && longer[0] == root && longer[|longer| - 1] == emitted[k];
    }
  }

  lemma {:induction false} PathIsEmitted(db: GraphDb, root: Node, skip: set<Node>, path: seq<Node>, k: nat)
    requires IsPath(db, path, skip) && path[0] == root && k < |path|
    ensures path[k] in Walk(db, [root], skip)
  {
    hide Children;
    hide Walk;
    WalkCloses(db, [root], skip);
    if k == 0 {
      assert root in [root];
    } else {
      PathIsEmitted(db, root, skip, path, k - 1);
    }
  }

  /** Main result: the walk ends, emits no node twice, every node other than the root after a node that
      references it, and exactly the nodes reachable from the root through nodes that are not skipped. */
  lemma WalkExact(db: GraphDb, root: Node, skip: set<Node>)
    ensures var emitted := Walk(db, [root], skip);
      && Distinct(emitted)
      && (forall k :: 0 <= k < |emitted| ==>
            emitted[k] == root || exists j :: 0 <= j < k && emitted[k] in Children(db, emitted[j]))
      && (forall n :: n in emitted <==> Reachable(db, root, skip, n))
  {
    hide Children;
    hide Walk;
    var emitted := Walk(db, [root], skip);
    WalkDistinct(db, [root], skip);
    forall k | 0 <= k < |emitted|
      ensures emitted[k] == root || exists j :: 0 <= j < k && emitted[k] in Children(db, emitted[j])
      ensures Reachable(db, root, skip, emitted[k])
    {
      WalkReferenced(db, [root], skip, k);
      EmittedAreReachable(db, root, skip, k);
    }
    forall n | Reachable(db, root, skip, n)
      ensures n in emitted
    {
      var path :| IsPath(db, path, skip) && path[0] == root && path[|path| - 1] == n;
      PathIsEmitted(db, root, skip, path, |path| - 1);
    }
  }
}
