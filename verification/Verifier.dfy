/**
 The integrity verifier: a visitor with memory, driven by the graph walk.
 */
module Verifier {
  import opened Base
  import opened Chain
  import opened Iterator

  datatype VerifierError =
    | DatabaseIterator(error: IteratorError)
    | BlockIsNotSynced(block: Hash)
    | BlockIsNotPrepared(block: Hash)
    | NoBlockLastCommittedBatch(block: Hash)
    | NoBlockLastCommittedMb(block: Hash)
    | NoBlockLatestEraValidatorsCommitted(block: Hash)
    | NoParentBlockHeader(parent: Hash)
    | InvalidBlockParentHeight(parentHeight: nat, height: nat)
    | InvalidParentTimestamp(parentTimestamp: nat, timestamp: nat)
    | CodeIsNotValid
    | InvalidCodeLenInMetadata(code: CodeId, metadataLen: nat, originalLen: nat)
    | MbNotFound(mb: Hash)
    | MbScheduleHasExpiredTasks(mb: Hash, expiry: nat, tasks: nat)
    | InvalidCachedMessageQueueSize(hash: Hash, cachedSize: nat, actualSize: nat)

  const U8 := 0x100
  const U32 := 0x1_0000_0000

  /** What the verifier is given: the database, the content hashes and the end of the chain. */
  datatype Env = Env(db: GraphDb, queueHash: Queue -> Hash, codeHash: Bytes -> Hash, bottom: Option<Hash>)

  /** Rows of the content-addressed store sit at the hash of their content. */
  ghost predicate HashConsistent(env: Env) {
    && (forall h :: h in env.db.queues ==> env.queueHash(env.db.queues[h]) == h)
    && (forall c :: c in env.db.originals ==> env.codeHash(env.db.originals[c]) == c)
  }

  /** The verifier's fields; `panicked` stands for a failed `expect`. */
  datatype State = State(errors: seq<VerifierError>, cachedSizes: map<Hash, nat>, originalCode: Option<Bytes>, panicked: bool)

  const INITIAL := State([], map[], None, false)

  function BlockMetaErrors(block: Hash, meta: BlockMeta): seq<VerifierError> {
    (if !meta.prepared then [BlockIsNotPrepared(block)] else []) +
    (if meta.lastCommittedBatch.None? then [NoBlockLastCommittedBatch(block)] else []) +
    (if meta.lastCommittedMb.None? then [NoBlockLastCommittedMb(block)] else []) +
    (if meta.latestEra.None? then [NoBlockLatestEraValidatorsCommitted(block)] else [])
  }

  function BlockHeaderErrors(env: Env, block: Hash, header: Header): seq<VerifierError> {
    if header.parent !in env.db.headers then
      if env.bottom == Some(block) then [] else [NoParentBlockHeader(header.parent)]
    else
      var parent := env.db.headers[header.parent];
      (if parent.height + 1 != header.height then [InvalidBlockParentHeight(parent.height, header.height)] else []) +
      (if parent.timestamp > header.timestamp then [InvalidParentTimestamp(parent.timestamp, header.timestamp)] else [])
  }

  function ScheduleErrors(env: Env, mb: Hash, height: nat, tasks: seq<Task>): seq<VerifierError> {
    if mb !in env.db.mbs then [MbNotFound(mb)]
    else if height <= env.db.mbs[mb].height then [MbScheduleHasExpiredTasks(mb, height, |tasks|)]
    else []
  }

  function Report(v: State, errors: seq<VerifierError>): State {
    v.(errors := v.errors + errors)
  }

  function CodeMetadataErrors(original: Option<Bytes>, code: CodeId, len: nat): seq<VerifierError> {
    if original.Some? && len != |original.value| % U32 then
      [InvalidCodeLenInMetadata(code, len, |original.value| % U32)]
    else []
  }

  function QueueSizeErrors(hash: Hash, cached: nat, queue: Queue): seq<VerifierError> {
    if cached != |queue| % U8 then [InvalidCachedMessageQueueSize(hash, cached, |queue| % U8)] else []
  }

  /** One visited node. */
  function Visit(env: Env, v: State, node: Node): State {
    match node
    case ErrorNode(error) => Report(v, [DatabaseIterator(error)])
    case BlockMetaNode(block, meta) => Report(v, BlockMetaErrors(block, meta))
    case BlockSyncedNode(block, synced) => if synced then v else Report(v, [BlockIsNotSynced(block)])
    case BlockHeaderNode(block, header) => Report(v, BlockHeaderErrors(env, block, header))
    case CodeValidNode(_, valid) => if valid then v else Report(v, [CodeIsNotValid])
    case OriginalCodeNode(original) => v.(originalCode := Some(original))
    case CodeMetadataNode(code, len) => Report(v, CodeMetadataErrors(v.originalCode, code, len)).(originalCode := None)
    case MbScheduleTasksNode(mb, height, tasks) => Report(v, ScheduleErrors(env, mb, height, tasks))
    case QueueHashWithSizeNode(q) =>
      if q.hash.Some? then v.(cachedSizes := v.cachedSizes[q.hash.value := q.cachedSize]) else v
    case MessageQueueNode(queue) =>
      var hash := env.queueHash(queue);
      if hash !in v.cachedSizes then v.(panicked := true)
      else Report(v, QueueSizeErrors(hash, v.cachedSizes[hash], queue)).(cachedSizes := v.cachedSizes - {hash})
    case _ => v
  }

  function VisitAll(env: Env, v: State, nodes: seq<Node>): State
    decreases |nodes|
  {
    if nodes == [] then v else VisitAll(env, Visit(env, v, nodes[0]), nodes[1..])
  }

  class IntegrityVerifier {
    const env: Env
    var errors: seq<VerifierError>
    var cachedSizes: map<Hash, nat>
    var originalCode: Option<Bytes>
    var panicked: bool

    function View(): State
      reads this
    {
      State(errors, cachedSizes, originalCode, panicked)
    }

    constructor (env: Env)
      ensures this.env == env && View() == INITIAL
    {
      this.env := env;
      errors := [];
      cachedSizes := map[];
      originalCode := None;
      panicked := false;
    }

    method VisitBlockMeta(block: Hash, meta: BlockMeta)
      modifies this`errors
      ensures errors == old(errors) + BlockMetaErrors(block, meta)
    {
      if !meta.prepared {
        errors := errors + [BlockIsNotPrepared(block)];
      }
      if meta.lastCommittedBatch.None? {
        errors := errors + [NoBlockLastCommittedBatch(block)];
      }
      if meta.lastCommittedMb.None? {
        errors := errors + [NoBlockLastCommittedMb(block)];
      }
      if meta.latestEra.None? {
        errors := errors + [NoBlockLatestEraValidatorsCommitted(block)];
      }
    }

    method VisitCodeMetadata(code: CodeId, len: nat)
      modifies this
      ensures View() == Visit(env, old(View()), CodeMetadataNode(code, len))
    {
      var original := originalCode;
      originalCode := None;
      if original.Some? && len != |original.value| % U32 {
        errors := errors + [InvalidCodeLenInMetadata(code, len, |original.value| % U32)];
      }
    }

    method VisitMessageQueue(queue: Queue)
      modifies this
      ensures View() == Visit(env, old(View()), MessageQueueNode(queue))
    {
      var hash := env.queueHash(queue);
      if hash !in cachedSizes {
        panicked := true;
        return;
      }
      var cached := cachedSizes[hash];
      cachedSizes := cachedSizes - {hash};
      if cached != |queue| % U8 {
        errors := errors + [InvalidCachedMessageQueueSize(hash, cached, |queue| % U8)];
      }
    }

    method VisitNode(node: Node)
      modifies this
      ensures View() == Visit(env, old(View()), node)
    {
      hide BlockMetaErrors;
      hide BlockHeaderErrors;
      hide ScheduleErrors;
      hide CodeMetadataErrors;
      hide QueueSizeErrors;
      if node.BlockMetaNode? || node.BlockSyncedNode? || node.BlockHeaderNode? || node.MbScheduleTasksNode? {
        VisitChainNode(node);
      } else {
        match node {
          case ErrorNode(error) => errors := errors + [DatabaseIterator(error)];
          case CodeValidNode(_, valid) =>
            if !valid {
              errors := errors + [CodeIsNotValid];
            }
          case OriginalCodeNode(original) => originalCode := Some(original);
          case CodeMetadataNode(code, len) => VisitCodeMetadata(code, len);
          case QueueHashWithSizeNode(q) =>
            if q.hash.Some? {
              cachedSizes := cachedSizes[q.hash.value := q.cachedSize];
            }
          case MessageQueueNode(queue) => VisitMessageQueue(queue);
          case _ =>
        }
      }
    }

    method VisitBlockHeader(block: Hash, header: Header)
      modifies this`errors
      ensures errors == old(errors) + BlockHeaderErrors(env, block, header)
    {
      if header.parent !in env.db.headers {
        if env.bottom != Some(block) {
          errors := errors + [NoParentBlockHeader(header.parent)];
        }
        return;
      }
      var parent := env.db.headers[header.parent];
      if parent.height + 1 != header.height {
        errors := errors + [InvalidBlockParentHeight(parent.height, header.height)];
      }
      if parent.timestamp > header.timestamp {
        errors := errors + [InvalidParentTimestamp(parent.timestamp, header.timestamp)];
      }
    }

    method VisitMbScheduleTasks(mb: Hash, height: nat, tasks: seq<Task>)
      modifies this`errors
      ensures errors == old(errors) + ScheduleErrors(env, mb, height, tasks)
    {
      if mb !in env.db.mbs {
        errors := errors + [MbNotFound(mb)];
        return;
      }
      if height <= env.db.mbs[mb].height {
        errors := errors + [MbScheduleHasExpiredTasks(mb, height, |tasks|)];
      }
    }

    method VisitChainNode(node: Node)
      requires node.BlockMetaNode? || node.BlockSyncedNode? || node.BlockHeaderNode? || node.MbScheduleTasksNode?
      modifies this
      ensures View() == Visit(env, old(View()), node)
    {
      hide BlockMetaErrors;
      hide BlockHeaderErrors;
      hide ScheduleErrors;
      match node {
        case BlockMetaNode(block, meta) => VisitBlockMeta(block, meta);
        case BlockSyncedNode(block, synced) =>
          if !synced {
            errors := errors + [BlockIsNotSynced(block)];
          }
        case BlockHeaderNode(block, header) => VisitBlockHeader(block, header);
        case MbScheduleTasksNode(mb, height, tasks) => VisitMbScheduleTasks(mb, height, tasks);
      }
    }

    /** `walk`: runs the iterator to exhaustion and visits every node. */
    method WalkFrom(root: Node)
      modifies this
      ensures View() == VisitAll(env, old(View()), Walk(env.db, [root], {}))
    {
      var nodes := new DatabaseIterator.WithSkipNodes(env.db, root, {});
      while true
        invariant nodes.db == env.db && fresh(nodes)
        invariant VisitAll(env, old(View()), Walk(env.db, [root], {})) ==
                  VisitAll(env, View(), Walk(env.db, nodes.stack, nodes.visited))
        decreases Work(env.db, nodes.stack)
      {
        var node := nodes.Next();
        if node.None? {
          return;
        }
        VisitNode(node.value);
      }
    }

    /** `verify_chain`: no errors, or the errors found. */
    method VerifyChain(head: Hash, bottom: Hash) returns (r: Result<(), seq<VerifierError>>)
      requires View() == INITIAL && env.bottom == Some(bottom)
      modifies this
      ensures var found := Verified(env, head, bottom).errors;
        r == if found == [] then Ok(()) else Err(found)
    {
      WalkFrom(ChainNode(head, bottom));
      if errors == [] {
        r := Ok(());
      } else {
        r := Err(errors);
      }
    }
  }

  /** The verifier after a whole chain. */
  function Verified(env: Env, head: Hash, bottom: Hash): State {
    VisitAll(env, INITIAL, Walk(env.db, [ChainNode(head, bottom)], {}))
  }

  // ---------------------------------------------------------------------
  // The message queue is announced before it is visited

  /** A queue node carries the row at its own hash. */
  ghost predicate QueueFromDb(env: Env, queue: Queue) {
    Lookup(env.db.queues, env.queueHash(queue)) == Some(queue)
  }

  ghost predicate QueuesAnnounced(env: Env, stack: seq<Node>, visited: set<Node>, v: State) {
    && !v.panicked
    && (forall i :: 0 <= i < |stack| && stack[i].MessageQueueNode? ==>
          QueueFromDb(env, stack[i].queue) && (stack[i] in visited || env.queueHash(stack[i].queue) in v.cachedSizes))
    && (forall n :: n in visited && n.MessageQueueNode? ==> QueueFromDb(env, n.queue))
  }

  /** Only queue references lead to queues. */
  lemma QueueChild(env: Env, node: Node, c: Node)
    requires HashConsistent(env) && c in Children(env.db, node) && c.MessageQueueNode?
    ensures node.QueueHashWithSizeNode? && node.queueRef.hash == Some(env.queueHash(c.queue)) && QueueFromDb(env, c.queue)
  {
    ChildrenRank(env.db, node);
  }

  lemma QueuesStayAnnounced(env: Env, stack: seq<Node>, visited: set<Node>, v: State)
    requires HashConsistent(env) && stack != [] && QueuesAnnounced(env, stack, visited, v)
    ensures stack[0] in visited ==> QueuesAnnounced(env, stack[1..], visited, v)
    ensures stack[0] !in visited ==>
              QueuesAnnounced(env, stack[1..] + Children(env.db, stack[0]), visited + {stack[0]}, Visit(env, v, stack[0]))
  {
    hide Children;
    var node := stack[0];
    if node !in visited {
      var v' := Visit(env, v, node);
      var rest, children := stack[1..], Children(env.db, node);
      var next := rest + children;
      forall i | 0 <= i < |next| && next[i].MessageQueueNode?
        ensures QueueFromDb(env, next[i].queue)
        ensures next[i] in visited + {node} || env.queueHash(next[i].queue) in v'.cachedSizes
      {
        if i < |rest| {
          assert next[i] == stack[i + 1];
        } else {
          assert next[i] in children;
          QueueChild(env, node, next[i]);
        }
      }
    }
  }

  /** The `expect` in `visit_message_queue` never fires. */
  lemma {:induction false} NeverPanics(env: Env, stack: seq<Node>, visited: set<Node>, v: State)
    requires HashConsistent(env) && QueuesAnnounced(env, stack, visited, v)
    ensures !VisitAll(env, v, Walk(env.db, stack, visited)).panicked
    decreases Work(env.db, stack)
  {
    hide Children;
    hide Work;
    hide Visit;
    hide QueuesAnnounced;
    if stack != [] {
      PopShrinks(env.db, stack);
      QueuesStayAnnounced(env, stack, visited, v);
      if stack[0] in visited {
        NeverPanics(env, stack[1..], visited, v);
      } else {
        NeverPanics(env, stack[1..] + Children(env.db, stack[0]), visited + {stack[0]}, Visit(env, v, stack[0]));
      }
    } else {
      NotPanicked(env, stack, visited, v);
    }
  }

  lemma NotPanicked(env: Env, stack: seq<Node>, visited: set<Node>, v: State)
    requires QueuesAnnounced(env, stack, visited, v)
    ensures !v.panicked
  {
  }

  /** In a walk from any chain node over a hash-consistent database. */
  lemma ChainWalkNeverPanics(env: Env, head: Hash, bottom: Hash)
    requires HashConsistent(env)
    ensures !Verified(env, head, bottom).panicked
  {
    NeverPanics(env, [ChainNode(head, bottom)], {}, INITIAL);
  }

  // ---------------------------------------------------------------------
  // The length check sees the code it is about

  /** Nodes between a code's original bytes and its metadata; visiting them does not touch the bytes. */
  predicate Between(n: Node) {
    n.InstrumentedCodeNode? || n.ErrorNode?
  }

  /** The metadata at position `i` will meet its own code's original bytes. */
  ghost predicate MeetsOriginal(env: Env, stack: seq<Node>, v: State, i: nat)
    requires i < |stack| && stack[i].CodeMetadataNode?
  {
    var code := stack[i].code;
    && code in env.db.originals
    && (i >= 2 ==> stack[i - 2] == OriginalCodeNode(env.db.originals[code]) && Between(stack[i - 1]))
    && (i == 1 ==> Between(stack[0]))
    && (i < 2 ==> v.originalCode == Some(env.db.originals[code]))
  }

  ghost predicate OriginalsInPlace(env: Env, stack: seq<Node>, visited: set<Node>, v: State) {
    && (forall i :: 0 <= i < |stack| && stack[i].OriginalCodeNode? ==>
          stack[i] !in visited && CodeIdNode(env.codeHash(stack[i].original)) in visited)
    && (forall n :: n in visited && n.OriginalCodeNode? ==> CodeIdNode(env.codeHash(n.original)) in visited)
    && (forall i, j :: 0 <= i < j < |stack| && stack[i].OriginalCodeNode? ==> stack[i] != stack[j])
    && (forall i :: 0 <= i < |stack| && stack[i].CodeMetadataNode? ==> MeetsOriginal(env, stack, v, i))
  }

  /** A code id with a metadata row also has its original bytes. */
  predicate MetadataHasOriginal(env: Env, node: Node) {
    node.CodeIdNode? && node.code in env.db.codeMetadata ==> node.code in env.db.originals
  }

  lemma PopVisitedOriginals(env: Env, stack: seq<Node>, visited: set<Node>, v: State)
    requires stack != [] && OriginalsInPlace(env, stack, visited, v) && stack[0] in visited
    ensures OriginalsInPlace(env, stack[1..], visited, v)
  {
    var rest := stack[1..];
    assert forall i :: 0 <= i < |rest| ==> rest[i] == stack[i + 1];
    forall i | 0 <= i < |rest| && rest[i].CodeMetadataNode?
      ensures MeetsOriginal(env, rest, v, i)
    {
      assert MeetsOriginal(env, stack, v, i + 1);
    }
  }

  /** Visiting the first node and dropping it. */
  lemma VisitFirstOriginals(env: Env, stack: seq<Node>, visited: set<Node>, v: State)
    requires stack != [] && OriginalsInPlace(env, stack, visited, v) && stack[0] !in visited
    ensures OriginalsInPlace(env, stack[1..], visited + {stack[0]}, Visit(env, v, stack[0]))
  {
    var rest, v' := stack[1..], Visit(env, v, stack[0]);
    assert forall i :: 0 <= i < |rest| ==> rest[i] == stack[i + 1];
    forall i | 0 <= i < |rest| && rest[i].CodeMetadataNode?
      ensures MeetsOriginal(env, rest, v', i)
    {
      assert MeetsOriginal(env, stack, v, i + 1);
    }
  }

  lemma PushPlainOriginals(env: Env, stack: seq<Node>, visited: set<Node>, v: State, children: seq<Node>)
    requires OriginalsInPlace(env, stack, visited, v)
    requires forall i :: 0 <= i < |children| ==> !children[i].OriginalCodeNode? && !children[i].CodeMetadataNode?
    ensures OriginalsInPlace(env, stack + children, visited, v)
  {
    var next := stack + children;
    assert forall i :: 0 <= i < |stack| ==> next[i] == stack[i];
    assert forall i :: 0 <= i < |children| ==> next[|stack| + i] == children[i];
    forall i | 0 <= i < |next| && next[i].CodeMetadataNode?
      ensures MeetsOriginal(env, next, v, i)
    {
      assert i < |stack|;
      assert MeetsOriginal(env, stack, v, i);
    }
  }

  lemma PushCodeOriginals(env: Env, stack: seq<Node>, visited: set<Node>, v: State, code: CodeId)
    requires HashConsistent(env) && OriginalsInPlace(env, stack, visited, v)
    requires CodeIdNode(code) !in visited && (code in env.db.codeMetadata ==> code in env.db.originals)
    ensures OriginalsInPlace(env, stack + CodeChildren(env.db, code), visited + {CodeIdNode(code)}, v)
  {
    var children, n := CodeChildren(env.db, code), |stack|;
    var next := stack + children;
    assert forall i :: 0 <= i < n ==> next[i] == stack[i];
    assert next[n] == children[0] && next[n + 1] == children[1] && next[n + 2] == children[2] && next[n + 3] == children[3];
    forall i | 0 <= i < |next| && next[i].CodeMetadataNode?
      ensures MeetsOriginal(env, next, v, i)
    {
      if i < n {
        assert MeetsOriginal(env, stack, v, i);
      } else {
        assert i == n + 3;
      }
    }
  }

  lemma OriginalsStayInPlace(env: Env, stack: seq<Node>, visited: set<Node>, v: State)
    requires HashConsistent(env) && stack != [] && OriginalsInPlace(env, stack, visited, v) && stack[0] !in visited
    requires MetadataHasOriginal(env, stack[0])
    ensures OriginalsInPlace(env, stack[1..] + Children(env.db, stack[0]), visited + {stack[0]}, Visit(env, v, stack[0]))
  {
    hide OriginalsInPlace;
    hide CodeChildren;
    var node := stack[0];
    VisitFirstOriginals(env, stack, visited, v);
    if node.CodeIdNode? {
      CodeVisitedLast(env, stack, visited, v);
    } else {
      ChildrenRank(env.db, node);
      NoCodeRows(env, node);
      PushPlainOriginals(env, stack[1..], visited + {node}, Visit(env, v, node), Children(env.db, node));
    }
  }

  lemma NoCodeRows(env: Env, node: Node)
    requires !node.CodeIdNode?
    ensures forall i :: 0 <= i < |Children(env.db, node)| ==>
      !Children(env.db, node)[i].OriginalCodeNode? && !Children(env.db, node)[i].CodeMetadataNode?
  {
    ChildrenRank(env.db, node);
    if node.QueueHashWithSizeNode? {
    } else {
      assert Shared(Children(env.db, node), Rank(node));
    }
  }

  /** A code id is visited before its rows are pushed. */
  lemma CodeVisitedLast(env: Env, stack: seq<Node>, visited: set<Node>, v: State)
    requires HashConsistent(env) && stack != [] && OriginalsInPlace(env, stack, visited, v) && stack[0] !in visited
    requires stack[0].CodeIdNode? && MetadataHasOriginal(env, stack[0])
    ensures OriginalsInPlace(env, stack[1..] + CodeChildren(env.db, stack[0].code), visited + {stack[0]}, v)
  {
    var rest := stack[1..];
    assert forall i :: 0 <= i < |rest| ==> rest[i] == stack[i + 1];
    forall i | 0 <= i < |rest| && rest[i].CodeMetadataNode?
      ensures MeetsOriginal(env, rest, v, i)
    {
      assert MeetsOriginal(env, stack, v, i + 1);
    }
    assert OriginalsInPlace(env, rest, visited, v);
    PushCodeOriginals(env, rest, visited, v, stack[0].code);
  }

  lemma VisitAllFirst(env: Env, v: State, node: Node, nodes: seq<Node>)
    ensures VisitAll(env, v, [node] + nodes) == VisitAll(env, Visit(env, v, node), nodes)
  {
    assert ([node] + nodes)[1..] == nodes;
  }

  /** If every emitted code id with metadata has its original bytes, each length check is made against
      the original bytes of that same code. */
  lemma {:induction false} MetadataMeetsOriginal(env: Env, stack: seq<Node>, visited: set<Node>, v: State, k: nat)
    requires HashConsistent(env) && OriginalsInPlace(env, stack, visited, v)
    requires forall n :: n in Walk(env.db, stack, visited) ==> MetadataHasOriginal(env, n)
    requires k < |Walk(env.db, stack, visited)| && Walk(env.db, stack, visited)[k].CodeMetadataNode?
    ensures var node := Walk(env.db, stack, visited)[k];
      && node.code in env.db.originals
      && VisitAll(env, v, Walk(env.db, stack, visited)[..k]).originalCode == Some(env.db.originals[node.code])
    decreases Work(env.db, stack)
  {
    hide Children;
    hide Work;
    hide Visit;
    hide MetadataHasOriginal;
    hide OriginalsInPlace;
    PopShrinks(env.db, stack);
    if stack[0] in visited {
      PopVisitedOriginals(env, stack, visited, v);
      MetadataMeetsOriginal(env, stack[1..], visited, v, k);
    } else {
      var next := stack[1..] + Children(env.db, stack[0]);
      var rest := Walk(env.db, next, visited + {stack[0]});
      if k == 0 {
        FirstMeetsOriginal(env, stack, visited, v);
      } else {
        assert stack[0] in Walk(env.db, stack, visited);
        OriginalsStayInPlace(env, stack, visited, v);
        MetadataMeetsOriginal(env, next, visited + {stack[0]}, Visit(env, v, stack[0]), k - 1);
        VisitAllFirst(env, v, stack[0], rest[..k - 1]);
        assert Walk(env.db, stack, visited)[..k] == [stack[0]] + rest[..k - 1];
      }
    }
  }

  lemma FirstMeetsOriginal(env: Env, stack: seq<Node>, visited: set<Node>, v: State)
    requires OriginalsInPlace(env, stack, visited, v) && stack != [] && stack[0].CodeMetadataNode?
    ensures stack[0].code in env.db.originals && v.originalCode == Some(env.db.originals[stack[0].code])
  {
    assert MeetsOriginal(env, stack, v, 0);
  }

  lemma StartsInPlace(env: Env, root: Node)
    requires !SingleSource(root)
    ensures OriginalsInPlace(env, [root], {}, INITIAL) && QueuesAnnounced(env, [root], {}, INITIAL)
  {
  }

  /** In a walk from any chain node, when code ids with metadata have their original bytes, the verifier holds the bytes
      of that same code whenever it visits metadata. */
  lemma ChainMetadataMeetsOriginal(env: Env, head: Hash, bottom: Hash, k: nat)
    requires HashConsistent(env)
    requires forall code :: Reachable(env.db, ChainNode(head, bottom), {}, CodeIdNode(code)) ==>
               MetadataHasOriginal(env, CodeIdNode(code))
    requires var emitted := Walk(env.db, [ChainNode(head, bottom)], {}); k < |emitted| && emitted[k].CodeMetadataNode?
    ensures var emitted := Walk(env.db, [ChainNode(head, bottom)], {});
      && emitted[k].code in env.db.originals
      && VisitAll(env, INITIAL, emitted[..k]).originalCode == Some(env.db.originals[emitted[k].code])
  {
    hide Walk, Reachable, OriginalsInPlace;
    var root := ChainNode(head, bottom);
    WalkExact(env.db, root, {});
    forall n | n in Walk(env.db, [root], {})
      ensures MetadataHasOriginal(env, n)
    {
      if n.CodeIdNode? {
        assert n == CodeIdNode(n.code);
      }
    }
    StartsInPlace(env, root);
    MetadataMeetsOriginal(env, [root], {}, INITIAL, k);
  }
}
