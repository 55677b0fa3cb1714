/** Every error that the integrity verifier reports is a true statement about the rows of the database. */
module VerifierErrors {
  import opened Base
  import opened Chain
  import opened Iterator
  import opened Verifier
  import opened VerifierExact

  /** The row that the error names is not there. */
  predicate RowMissing(db: Db, e: IteratorError) {
    match e
    case NoBlockHeader(block) => block !in db.headers
    case NoBlockEvents(block) => block !in db.events
    case NoBlockCodesQueue(block) => db.Meta(block).codesQueue.None?
    case NoMb(mb) => mb !in db.mbs
    case NoMbProgramStates(mb) => mb !in db.mbStates && db.MbMeta(mb).0
    case NoMbOutcome(mb) => mb !in db.mbOutcomes && db.MbMeta(mb).0
    case NoMemoryPages(h) => h !in db.memoryPages
    case NoMemoryPagesRegion(h) => h !in db.regions
    case NoPageData(h) => h !in db.pages
    case NoCodeValid(code) => code !in db.codeValid
    case NoOriginalCode(code) => code !in db.originals
    case NoInstrumentedCode(code) => code !in db.instrumented
    case NoCodeMetadata(code) => code !in db.codeMetadata
    case NoMessageQueue(h) => h !in db.queues
    case NoWaitlist(h) => h !in db.waitlists
    case NoDispatchStash(h) => h !in db.stashes
    case NoMailbox(h) => h !in db.mailboxes
    case NoUserMailbox(h) => h !in db.userMailboxes
    case NoAllocations(h) => h !in db.allocations
    case NoProgramState(h) => h !in db.states && h != ZERO
    case NoPayload(h) => h !in db.payloads
    case NoProgramCodeId(actor) => actor !in db.programCode
  }

  /** The node carries what is stored. */
  ghost predicate FromRows(db: Db, node: Node) {
    match node
    case ErrorNode(e) => RowMissing(db, e)
    case BlockMetaNode(block, meta) => meta == db.Meta(block)
    case BlockHeaderNode(block, header) => Lookup(db.headers, block) == Some(header)
    case BlockSyncedNode(block, synced) => synced <==> block in db.synced
    case CodeValidNode(code, valid) => Lookup(db.codeValid, code) == Some(valid)
    case OriginalCodeNode(original) => exists code :: Lookup(db.originals, code) == Some(original)
    case CodeMetadataNode(code, len) => Lookup(db.codeMetadata, code) == Some(len)
    case MbScheduleNode(mb, schedule) => Lookup(db.mbSchedules, mb) == Some(schedule)
    case MbScheduleTasksNode(mb, height, tasks) => mb in db.mbSchedules && (height, tasks) in db.mbSchedules[mb]
    case MessageQueueNode(queue) => exists h :: Lookup(db.queues, h) == Some(queue)
    case _ => true
  }

  ghost predicate AllFromRows(db: Db, nodes: seq<Node>) {
    forall i :: 0 <= i < |nodes| ==> FromRows(db, nodes[i])
  }

  lemma {:induction false} ChainFromRows(db: GraphDb, head: Hash, bottom: Hash)
    ensures AllFromRows(db, ChainBlocks(db, head, bottom))
    decreases db.BlockRank(head)
  {
    if head != bottom && head in db.headers {
      ChainFromRows(db, db.headers[head].parent, bottom);
    }
  }

  lemma BlockFromRows(db: Db, block: Hash, meta: BlockMeta)
    ensures AllFromRows(db, BlockChildren(db, block))
    ensures meta == db.Meta(block) ==> AllFromRows(db, BlockMetaChildren(db, block, meta))
  {
  }

  lemma MbFromRows(db: Db, mb: Hash)
    ensures AllFromRows(db, MbChildren(db, mb))
  {
    if db.MbMeta(mb).0 {
      MbRowsFromRows(db, mb);
    }
  }

  lemma MbRowsFromRows(db: Db, mb: Hash)
    requires db.MbMeta(mb).0
    ensures AllFromRows(db, MbRows(db, mb))
  {
  }

  lemma ScheduleFromRows(db: Db, mb: Hash, schedule: seq<(nat, seq<Task>)>)
    requires Lookup(db.mbSchedules, mb) == Some(schedule)
    ensures AllFromRows(db, MbScheduleChildren(mb, schedule))
  {
    forall i | 0 <= i < |schedule|
      ensures FromRows(db, MbScheduleChildren(mb, schedule)[i])
    {
      assert schedule[i] == (schedule[i].0, schedule[i].1) && schedule[i] in schedule;
    }
  }

  lemma CodeFromRows(db: Db, code: CodeId)
    ensures AllFromRows(db, CodeChildren(db, code))
  {
    var rows := CodeChildren(db, code);
    assert FromRows(db, rows[0]) && FromRows(db, rows[2]) && FromRows(db, rows[3]);
    assert FromRows(db, rows[1]) by {
      if code in db.originals {
        assert Lookup(db.originals, code) == Some(db.originals[code]);
      }
    }
    hide FromRows, CodeChildren;
    assert |rows| == 4;
  }

  lemma QueueFromRows(db: Db, q: QueueHashWithSize)
    ensures AllFromRows(db, QueueChildren(db, q))
  {
    if q.hash.Some? && q.hash.value in db.queues {
      assert Lookup(db.queues, q.hash.value) == Some(db.queues[q.hash.value]);
    }
  }

  lemma MemoryFromRows(db: Db, program: Program)
    ensures AllFromRows(db, ProgramChildren(db, program))
  {
  }

  lemma StoredFromRows(db: Db, state: ProgramState)
    ensures AllFromRows(db, StoredMessagesChildren(db, state))
  {
    var w, s, m := WaitlistRow(db, state.waitlist), StashRow(db, state.stash), MailboxRow(db, state.mailbox);
    assert AllFromRows(db, w);
    assert AllFromRows(db, s);
    assert AllFromRows(db, m);
    hide FromRows, WaitlistRow, StashRow, MailboxRow;
  }

  lemma StateFromRows(db: Db, state: ProgramState)
    ensures AllFromRows(db, StateChildren(db, state))
  {
    hide ProgramChildren, StoredMessagesChildren;
    MemoryFromRows(db, state.program);
    StoredFromRows(db, state);
    assert AllFromRows(db, QueueRefs(state));
  }

  lemma ExecutionFromRows(db: Db, states: seq<Hash>, tasks: seq<Task>, outcome: seq<Transition>, t: Transition)
    ensures AllFromRows(db, MbProgramStatesChildren(db, states)) && AllFromRows(db, MbScheduleTasksChildren(tasks))
    ensures AllFromRows(db, MbOutcomeChildren(outcome)) && AllFromRows(db, TransitionChildren(db, t))
  {
  }

  lemma PagesFromRows(db: Db, hashes: seq<Hash>)
    ensures AllFromRows(db, RegionsChildren(db, hashes)) && AllFromRows(db, PagesChildren(db, hashes))
    ensures AllFromRows(db, MailboxChildren(db, hashes))
  {
  }

  lemma PayloadsFromRows(db: Db, messages: seq<Dispatch>, lookup: PayloadLookup, actor: Actor)
    ensures AllFromRows(db, Payloads(messages)) && AllFromRows(db, PayloadChildren(db, lookup))
    ensures AllFromRows(db, ProgramIdChildren(db, actor)) && AllFromRows(db, [ProgramIdNode(actor)])
  {
  }

  lemma ChainDataFromRows(db: GraphDb, node: Node)
    requires FromRows(db, node) && IsChainData(node)
    ensures AllFromRows(db, Children(db, node))
  {
    hide ChainBlocks, BlockChildren, BlockMetaChildren, MbChildren, MbProgramStatesChildren, MbScheduleChildren;
    hide MbScheduleTasksChildren, MbOutcomeChildren, TransitionChildren, ProgramIdChildren, CodeChildren, RegionHashes;
    hide StateChildren, RegionsChildren, PagesChildren, QueueChildren, Payloads, MailboxChildren, PayloadChildren, AllFromRows;
    match node {
      case ChainNode(head, bottom) => ChainFromRows(db, head, bottom);
      case BlockNode(block) => BlockFromRows(db, block, db.Meta(block));
      case BlockMetaNode(block, meta) => BlockFromRows(db, block, meta);
      case MbNode(mb, _) => MbFromRows(db, mb);
    }
  }

  lemma ExecutionDataFromRows(db: GraphDb, node: Node)
    requires IsExecutionData(node) && (node.MbScheduleNode? ==> Lookup(db.mbSchedules, node.mb) == Some(node.schedule))
    ensures AllFromRows(db, Children(db, node))
  {
    hide FromRows;
    hide ChainBlocks, BlockChildren, BlockMetaChildren, MbChildren, MbProgramStatesChildren, MbScheduleChildren;
    hide MbScheduleTasksChildren, MbOutcomeChildren, TransitionChildren, ProgramIdChildren, CodeChildren, RegionHashes;
    hide StateChildren, RegionsChildren, PagesChildren, QueueChildren, Payloads, MailboxChildren, PayloadChildren, AllFromRows;
    if node.MbScheduleNode? {
      ScheduleFromRows(db, node.mb, node.schedule);
    } else if node.ProgramStateNode? {
      StateFromRows(db, node.state);
    } else {
      var states := if node.MbProgramStatesNode? then node.states else [];
      var tasks := if node.MbScheduleTasksNode? then node.tasks else [];
      var outcome := if node.MbOutcomeNode? then node.outcome else [];
      var transition := if node.StateTransitionNode? then node.transition else Transition(0, ZERO, 0);
      ExecutionFromRows(db, states, tasks, outcome, transition);
    }
  }

  /** Queues, waitlists, stashes and mailboxes, and the payloads of their messages. */
  predicate IsMessageData(n: Node) {
    || n.MessageQueueNode? || n.WaitlistNode? || n.UserMailboxNode? || n.DispatchStashNode?
    || n.QueueHashWithSizeNode? || n.MailboxNode? || n.PayloadLookupNode?
  }

  lemma MessageDataFromRows(db: GraphDb, node: Node)
    requires IsMessageData(node)
    ensures AllFromRows(db, Children(db, node))
  {
    hide FromRows;
    hide ChainBlocks, BlockChildren, BlockMetaChildren, MbChildren, MbProgramStatesChildren, MbScheduleChildren;
    hide MbScheduleTasksChildren, MbOutcomeChildren, TransitionChildren, ProgramIdChildren, CodeChildren, RegionHashes;
    hide StateChildren, RegionsChildren, PagesChildren, QueueChildren, Payloads, MailboxChildren, PayloadChildren, AllFromRows;
    if node.QueueHashWithSizeNode? {
      QueueFromRows(db, node.queueRef);
    } else if node.MailboxNode? {
      PagesFromRows(db, node.users);
    } else if node.PayloadLookupNode? {
      PayloadsFromRows(db, [], node.lookup, 0);
    } else {
      var messages :=
        if node.MessageQueueNode? then node.queue else if node.WaitlistNode? then node.waitlist
        else if node.UserMailboxNode? then node.messages else node.stash;
      PayloadsFromRows(db, messages, Direct([]), 0);
    }
  }

  lemma ContentFromRows(db: GraphDb, node: Node)
    requires !IsChainData(node) && !IsExecutionData(node) && !IsMessageData(node)
    ensures AllFromRows(db, Children(db, node))
  {
    hide FromRows;
    hide ChainBlocks, BlockChildren, BlockMetaChildren, MbChildren, MbProgramStatesChildren, MbScheduleChildren;
    hide MbScheduleTasksChildren, MbOutcomeChildren, TransitionChildren, ProgramIdChildren, CodeChildren, RegionHashes;
    hide StateChildren, RegionsChildren, PagesChildren, QueueChildren, Payloads, MailboxChildren, PayloadChildren, AllFromRows;
    if node.ScheduledTaskNode? {
      PayloadsFromRows(db, [], Direct([]), node.task.program);
    } else if node.ProgramIdNode? {
      PayloadsFromRows(db, [], Direct([]), node.actor);
    } else if node.CodeIdNode? {
      CodeFromRows(db, node.code);
    } else if node.MemoryPagesNode? {
      PagesFromRows(db, RegionHashes(node.regions));
    } else if node.MemoryPagesRegionNode? {
      PagesFromRows(db, node.pages);
    } else {
      NothingFromRows(db);
    }
  }

  /** What a stored node references is stored or reported missing. */
  lemma ChildrenFromRows(db: GraphDb, node: Node)
    requires FromRows(db, node)
    ensures AllFromRows(db, Children(db, node))
  {
    hide Children;
    if IsChainData(node) {
      ChainDataFromRows(db, node);
    } else if IsExecutionData(node) {
      ExecutionDataFromRows(db, node);
    } else if IsMessageData(node) {
      MessageDataFromRows(db, node);
    } else {
      ContentFromRows(db, node);
    }
  }

  lemma NothingFromRows(db: Db)
    ensures AllFromRows(db, [])
  {
  }

  lemma {:induction false} EmittedFromRows(db: GraphDb, root: Node, k: nat)
    requires FromRows(db, root) && k < |Walk(db, [root], {})|
    ensures FromRows(db, Walk(db, [root], {})[k])
    decreases k
  {
    hide Walk, Children, FromRows;
    WalkReferenced(db, [root], {}, k);
    var emitted := Walk(db, [root], {});
    if emitted[k] != root {
      var j :| 0 <= j < k && emitted[k] in Children(db, emitted[j]);
      EmittedFromRows(db, root, j);
      ChildrenFromRows(db, emitted[j]);
    }
  }

  // ---------------------------------------------------------------------
  // What an error says

  /** A block and its parent, both known. */
  predicate IsParent(db: Db, block: Hash, parent: Hash) {
    block in db.headers && parent in db.headers && db.headers[block].parent == parent
  }

  ghost predicate TrueError(env: Env, e: VerifierError) {
    var db := env.db;
    match e
    case DatabaseIterator(missing) => RowMissing(db, missing)
    case BlockIsNotSynced(block) => block !in db.synced
    case BlockIsNotPrepared(block) => !db.Meta(block).prepared
    case NoBlockLastCommittedBatch(block) => db.Meta(block).lastCommittedBatch.None?
    case NoBlockLastCommittedMb(block) => db.Meta(block).lastCommittedMb.None?
    case NoBlockLatestEraValidatorsCommitted(block) => db.Meta(block).latestEra.None?
    case NoParentBlockHeader(parent) =>
      && parent !in db.headers
      && exists block :: block in db.headers && db.headers[block].parent == parent && env.bottom != Some(block)
    case InvalidBlockParentHeight(below, height) =>
      below + 1 != height &&
      exists block, parent ::
        IsParent(db, block, parent) && db.headers[block].height == height && db.headers[parent].height == below
    case InvalidParentTimestamp(before, time) =>
      before > time &&
      exists block, parent ::
        IsParent(db, block, parent) && db.headers[block].timestamp == time && db.headers[parent].timestamp == before
    case CodeIsNotValid => exists code :: Lookup(db.codeValid, code) == Some(false)
    case InvalidCodeLenInMetadata(code, len, originalLen) =>
      && Lookup(db.codeMetadata, code) == Some(len) && len != originalLen
      && exists c :: c in db.originals && |db.originals[c]| % U32 == originalLen
    case MbNotFound(mb) => mb !in db.mbs
    case MbScheduleHasExpiredTasks(mb, expiry, count) =>
      && mb in db.mbs && expiry <= db.mbs[mb].height && mb in db.mbSchedules
      && exists tasks :: (expiry, tasks) in db.mbSchedules[mb] && |tasks| == count
    case InvalidCachedMessageQueueSize(hash, cached, actual) =>
      hash in db.queues && actual == |db.queues[hash]| % U8 && cached != actual
  }

  ghost predicate TrueErrors(env: Env, errors: seq<VerifierError>) {
    forall i :: 0 <= i < |errors| ==> TrueError(env, errors[i])
  }

  /** All errors so far are true, and the bytes at hand are those of some code. */
  ghost predicate Honest(env: Env, v: State) {
    && TrueErrors(env, v.errors)
    && (v.originalCode.Some? ==> exists code :: Lookup(env.db.originals, code) == v.originalCode)
  }

  lemma HeaderErrorsTrue(env: Env, block: Hash, header: Header)
    requires Lookup(env.db.headers, block) == Some(header)
    ensures TrueErrors(env, BlockHeaderErrors(env, block, header))
  {
    if header.parent in env.db.headers {
      assert IsParent(env.db, block, header.parent);
    }
  }

  lemma ScheduleErrorsTrue(env: Env, mb: Hash, height: nat, tasks: seq<Task>)
    requires mb in env.db.mbSchedules && (height, tasks) in env.db.mbSchedules[mb]
    ensures TrueErrors(env, ScheduleErrors(env, mb, height, tasks))
  {
  }

  lemma MetadataErrorsTrue(env: Env, original: Option<Bytes>, code: CodeId, len: nat)
    requires Lookup(env.db.codeMetadata, code) == Some(len)
    requires original.Some? ==> exists c :: Lookup(env.db.originals, c) == original
    ensures TrueErrors(env, CodeMetadataErrors(original, code, len))
  {
    if original.Some? {
      var c :| Lookup(env.db.originals, c) == original;
      assert c in env.db.originals;
    }
  }

  lemma QueueErrorsTrue(env: Env, cached: nat, queue: Queue)
    requires HashConsistent(env) && exists h :: Lookup(env.db.queues, h) == Some(queue)
    ensures TrueErrors(env, QueueSizeErrors(env.queueHash(queue), cached, queue))
  {
    var h :| Lookup(env.db.queues, h) == Some(queue);
    assert env.queueHash(env.db.queues[h]) == h;
  }

  lemma MetaErrorsTrue(env: Env, block: Hash)
    ensures TrueErrors(env, BlockMetaErrors(block, env.db.Meta(block)))
  {
  }

  lemma ReportTrue(env: Env, v: State, errors: seq<VerifierError>)
    requires Honest(env, v) && TrueErrors(env, errors)
    ensures Honest(env, Report(v, errors))
  {
    hide TrueError;
  }

  lemma OneTrue(env: Env, e: VerifierError)
    requires TrueError(env, e)
    ensures TrueErrors(env, [e])
  {
    hide TrueError;
  }

  /** Nodes of blocks and MBs. */
  lemma VisitChainHonest(env: Env, v: State, node: Node)
    requires Honest(env, v) && FromRows(env.db, node)
    requires node.BlockMetaNode? || node.BlockSyncedNode? || node.BlockHeaderNode? || node.MbScheduleTasksNode?
    ensures Honest(env, Visit(env, v, node))
  {
    hide BlockMetaErrors, BlockHeaderErrors, ScheduleErrors, Report, TrueErrors, Honest;
    match node {
      case BlockMetaNode(block, meta) =>
        MetaErrorsTrue(env, block);
        ReportTrue(env, v, BlockMetaErrors(block, meta));
      case BlockSyncedNode(block, synced) =>
        if !synced {
          OneTrue(env, BlockIsNotSynced(block));
          ReportTrue(env, v, [BlockIsNotSynced(block)]);
        }
      case BlockHeaderNode(block, header) =>
        HeaderErrorsTrue(env, block, header);
        ReportTrue(env, v, BlockHeaderErrors(env, block, header));
      case MbScheduleTasksNode(mb, height, tasks) =>
        ScheduleErrorsTrue(env, mb, height, tasks);
        ReportTrue(env, v, ScheduleErrors(env, mb, height, tasks));
    }
  }

  lemma SameErrors(env: Env, v: State, v': State)
    requires Honest(env, v) && v'.errors == v.errors
    requires v'.originalCode.Some? ==> exists code :: Lookup(env.db.originals, code) == v'.originalCode
    ensures Honest(env, v')
  {
    hide TrueErrors;
  }

  lemma VisitMetadataHonest(env: Env, v: State, code: CodeId, len: nat)
    requires Honest(env, v) && Lookup(env.db.codeMetadata, code) == Some(len)
    ensures Honest(env, Visit(env, v, CodeMetadataNode(code, len)))
  {
    hide CodeMetadataErrors, TrueErrors;
    MetadataErrorsTrue(env, v.originalCode, code, len);
    var errors := CodeMetadataErrors(v.originalCode, code, len);
    ReportTrue(env, v, errors);
    SameErrors(env, Report(v, errors), Report(v, errors).(originalCode := None));
  }

  lemma VisitQueueHonest(env: Env, v: State, queue: Queue)
    requires HashConsistent(env) && Honest(env, v) && exists h :: Lookup(env.db.queues, h) == Some(queue)
    ensures Honest(env, Visit(env, v, MessageQueueNode(queue)))
  {
    hide QueueSizeErrors, TrueErrors, HashConsistent;
    var hash := env.queueHash(queue);
    if hash in v.cachedSizes {
      QueueErrorsTrue(env, v.cachedSizes[hash], queue);
      ReportTrue(env, v, QueueSizeErrors(hash, v.cachedSizes[hash], queue));
    }
  }

  lemma VisitHonest(env: Env, v: State, node: Node)
    requires HashConsistent(env) && Honest(env, v) && FromRows(env.db, node)
    ensures Honest(env, Visit(env, v, node))
  {
    hide BlockMetaErrors, BlockHeaderErrors, ScheduleErrors, CodeMetadataErrors, QueueSizeErrors, Report, HashConsistent;
    hide TrueErrors, Honest;
    match node {
      case ErrorNode(error) =>
        OneTrue(env, DatabaseIterator(error));
        ReportTrue(env, v, [DatabaseIterator(error)]);
      case CodeValidNode(_, valid) =>
        if !valid {
          OneTrue(env, CodeIsNotValid);
          ReportTrue(env, v, [CodeIsNotValid]);
        }
      case OriginalCodeNode(original) => SameErrors(env, v, v.(originalCode := Some(original)));
      case CodeMetadataNode(code, len) => VisitMetadataHonest(env, v, code, len);
      case QueueHashWithSizeNode(_) => SizesHonest(env, v, Visit(env, v, node));
      case MessageQueueNode(queue) => VisitQueueHonest(env, v, queue);
      case BlockMetaNode(_, _) => VisitChainHonest(env, v, node);
      case BlockSyncedNode(_, _) => VisitChainHonest(env, v, node);
      case BlockHeaderNode(_, _) => VisitChainHonest(env, v, node);
      case MbScheduleTasksNode(_, _, _) => VisitChainHonest(env, v, node);
      case _ =>
    }
  }

  lemma SizesHonest(env: Env, v: State, v': State)
    requires Honest(env, v) && v'.errors == v.errors && v'.originalCode == v.originalCode
    ensures Honest(env, v')
  {
    hide TrueErrors;
  }

  lemma {:induction false} VisitAllHonest(env: Env, v: State, nodes: seq<Node>)
    requires HashConsistent(env) && Honest(env, v) && AllFromRows(env.db, nodes)
    ensures Honest(env, VisitAll(env, v, nodes))
    decreases |nodes|
  {
    hide HashConsistent, Honest, FromRows, Visit;
    if nodes != [] {
      VisitHonest(env, v, nodes[0]);
      VisitAllHonest(env, Visit(env, v, nodes[0]), nodes[1..]);
    }
  }

  /** Main result on reports: over a hash-consistent database every error that `verify_chain` returns is true. */
  lemma EveryReportIsTrue(env: Env, head: Hash, bottom: Hash)
    requires HashConsistent(env)
    ensures TrueErrors(env, Verified(env, head, bottom).errors)
  {
    hide Walk, FromRows, HashConsistent, VisitAll;
    var root := ChainNode(head, bottom);
    assert FromRows(env.db, root) by {
      ChainNodeFromRows(env.db, head, bottom);
    }
    forall k | 0 <= k < |Walk(env.db, [root], {})|
      ensures FromRows(env.db, Walk(env.db, [root], {})[k])
    {
      EmittedFromRows(env.db, root, k);
    }
    VisitAllHonest(env, INITIAL, Walk(env.db, [root], {}));
  }

  lemma ChainNodeFromRows(db: Db, head: Hash, bottom: Hash)
    ensures FromRows(db, ChainNode(head, bottom))
  {
  }

  /** A missing row that the walk meets is reported, and no other. */
  lemma {:induction false} ReportsMissing(env: Env, v: State, nodes: seq<Node>, e: IteratorError)
    ensures DatabaseIterator(e) in VisitAll(env, v, nodes).errors <==> DatabaseIterator(e) in v.errors || ErrorNode(e) in nodes
    decreases |nodes|
  {
    if nodes != [] {
      hide VisitAll, Visit;
      VisitMissing(env, v, nodes[0], e);
      ReportsMissing(env, Visit(env, v, nodes[0]), nodes[1..], e);
      VisitAllFirst(env, v, nodes[0], nodes[1..]);
      assert nodes == [nodes[0]] + nodes[1..];
    }
  }

  lemma VisitMissing(env: Env, v: State, node: Node, e: IteratorError)
    ensures DatabaseIterator(e) in Visit(env, v, node).errors <==> DatabaseIterator(e) in v.errors || node == ErrorNode(e)
  {
  }

  /** `verify_chain` reports a missing row exactly when it is reachable from the head. */
  lemma MissingReportedExactly(env: Env, head: Hash, bottom: Hash, e: IteratorError)
    ensures DatabaseIterator(e) in Verified(env, head, bottom).errors <==>
            Reachable(env.db, ChainNode(head, bottom), {}, ErrorNode(e))
  {
    hide Walk, Reachable, VisitAll;
    WalkExact(env.db, ChainNode(head, bottom), {});
    ReportsMissing(env, INITIAL, Walk(env.db, [ChainNode(head, bottom)], {}), e);
  }
}
