/** Exactly which chains the integrity verifier accepts. */
module VerifierExact {
  import opened Base
  import opened Chain
  import opened Iterator
  import opened Verifier

  /** What the verifier is meant to accept, node by node. */
  predicate Acceptable(env: Env, node: Node) {
    match node
    case ErrorNode(_) => false
    case BlockMetaNode(_, meta) =>
      meta.prepared && meta.lastCommittedBatch.Some? && meta.lastCommittedMb.Some? && meta.latestEra.Some?
    case BlockSyncedNode(_, synced) => synced
    case BlockHeaderNode(block, header) =>
      if header.parent in env.db.headers then
        && env.db.headers[header.parent].height + 1 == header.height
        && env.db.headers[header.parent].timestamp <= header.timestamp
      else env.bottom == Some(block)
    case CodeValidNode(_, valid) => valid
    case CodeMetadataNode(code, len) => code in env.db.originals && len == |env.db.originals[code]| % U32
    case MbScheduleTasksNode(mb, height, _) => mb in env.db.mbs && env.db.mbs[mb].height < height
    case QueueHashWithSizeNode(q) => RightSize(env, q)
    case _ => true
  }

  /** The cached size is the length of the referenced queue, as a byte. */
  predicate RightSize(env: Env, q: QueueHashWithSize) {
    q.hash.Some? && q.hash.value in env.db.queues ==> q.cachedSize == |env.db.queues[q.hash.value]| % U8
  }

  /** The size carried by the last of the nodes that refers to the queue at `hash`. */
  function LastSize(nodes: seq<Node>, hash: Hash): Option<nat> {
    if nodes == [] then None
    else
      var last := nodes[|nodes| - 1];
      if last.QueueHashWithSizeNode? && last.queueRef.hash == Some(hash) then Some(last.queueRef.cachedSize)
      else LastSize(nodes[..|nodes| - 1], hash)
  }

  /** The k-th visited node is as it should be: a queue has the size last announced for it, references are not looked
      at, and every other node is acceptable. */
  predicate NodeFine(env: Env, nodes: seq<Node>, k: nat)
    requires k < |nodes|
  {
    match nodes[k]
    case MessageQueueNode(queue) => LastSize(nodes[..k], env.queueHash(queue)) == Some(|queue| % U8)
    case QueueHashWithSizeNode(_) => true
    case _ => Acceptable(env, nodes[k])
  }

  // ---------------------------------------------------------------------
  // One visit

  lemma {:induction false} VisitAllLast(env: Env, v: State, nodes: seq<Node>, node: Node)
    ensures VisitAll(env, v, nodes + [node]) == Visit(env, VisitAll(env, v, nodes), node)
    decreases |nodes|
  {
    hide Visit;
    if nodes == [] {
      assert nodes + [node] == [node] && [node][1..] == [];
    } else {
      assert (nodes + [node])[0] == nodes[0] && (nodes + [node])[1..] == nodes[1..] + [node];
      VisitAllLast(env, Visit(env, v, nodes[0]), nodes[1..], node);
    }
  }

  lemma VisitKeepsSize(env: Env, v: State, node: Node, hash: Hash)
    requires node.MessageQueueNode? ==> env.queueHash(node.queue) != hash
    ensures Lookup(Visit(env, v, node).cachedSizes, hash) ==
            if node.QueueHashWithSizeNode? && node.queueRef.hash == Some(hash) then Some(node.queueRef.cachedSize)
            else Lookup(v.cachedSizes, hash)
  {
  }

  /** As long as the queue itself was not visited, its cached size is the one last announced. */
  lemma {:induction false} CachedIsLast(env: Env, nodes: seq<Node>, hash: Hash)
    requires forall i :: 0 <= i < |nodes| && nodes[i].MessageQueueNode? ==> env.queueHash(nodes[i].queue) != hash
    ensures Lookup(VisitAll(env, INITIAL, nodes).cachedSizes, hash) == LastSize(nodes, hash)
    decreases |nodes|
  {
    hide Visit;
    if nodes != [] {
      var front, last := nodes[..|nodes| - 1], nodes[|nodes| - 1];
      assert nodes == front + [last];
      CachedIsLast(env, front, hash);
      VisitAllLast(env, INITIAL, front, last);
      VisitKeepsSize(env, VisitAll(env, INITIAL, front), last, hash);
    }
  }

  lemma {:induction false} AnnouncedSize(nodes: seq<Node>, hash: Hash, j: nat)
    requires j < |nodes| && nodes[j].QueueHashWithSizeNode? && nodes[j].queueRef.hash == Some(hash)
    ensures LastSize(nodes, hash).Some?
    decreases |nodes|
  {
    if j < |nodes| - 1 {
      AnnouncedSize(nodes[..|nodes| - 1], hash, j);
    }
  }

  /** The last announced size comes from a reference with none to the same queue after it. */
  lemma {:induction false} LastSizeFrom(nodes: seq<Node>, hash: Hash) returns (j: nat)
    requires LastSize(nodes, hash).Some?
    ensures j < |nodes| && nodes[j] == QueueHashWithSizeNode(QueueHashWithSize(Some(hash), LastSize(nodes, hash).value))
    ensures forall i :: j < i < |nodes| && nodes[i].QueueHashWithSizeNode? ==> nodes[i].queueRef.hash != Some(hash)
    decreases |nodes|
  {
    var last := nodes[|nodes| - 1];
    j := |nodes| - 1;
    if !(last.QueueHashWithSizeNode? && last.queueRef.hash == Some(hash)) {
      j := LastSizeFrom(nodes[..|nodes| - 1], hash);
    }
  }

  /** A visited queue comes from the database, was announced, and was not visited before. */
  lemma QueueOnce(env: Env, root: Node, k: nat)
    requires HashConsistent(env) && !SingleSource(root)
    requires k < |Walk(env.db, [root], {})| && Walk(env.db, [root], {})[k].MessageQueueNode?
    ensures var emitted := Walk(env.db, [root], {});
      var hash := env.queueHash(emitted[k].queue);
      && QueueFromDb(env, emitted[k].queue)
      && LastSize(emitted[..k], hash).Some?
      && forall i :: 0 <= i < k && emitted[i].MessageQueueNode? ==> env.queueHash(emitted[i].queue) != hash
  {
    hide Walk, Children, HashConsistent;
    var emitted := Walk(env.db, [root], {});
    var hash := env.queueHash(emitted[k].queue);
    var j := QueueSource(env, root, k);
    AnnouncedSize(emitted[..k], hash, j);
    WalkDistinct(env.db, [root], {});
    forall i | 0 <= i < k && emitted[i].MessageQueueNode?
      ensures env.queueHash(emitted[i].queue) != hash
    {
      var _ := QueueSource(env, root, i);
      assert emitted[i] == MessageQueueNode(emitted[i].queue) && emitted[k] == MessageQueueNode(emitted[k].queue);
    }
  }

  lemma QueueSource(env: Env, root: Node, k: nat) returns (j: nat)
    requires HashConsistent(env) && !SingleSource(root)
    requires k < |Walk(env.db, [root], {})| && Walk(env.db, [root], {})[k].MessageQueueNode?
    ensures var emitted := Walk(env.db, [root], {});
      && QueueFromDb(env, emitted[k].queue)
      && j < k && emitted[j].QueueHashWithSizeNode? && emitted[j].queueRef.hash == Some(env.queueHash(emitted[k].queue))
  {
    hide Walk, Children, HashConsistent;
    var emitted := Walk(env.db, [root], {});
    WalkReferenced(env.db, [root], {}, k);
    j :| 0 <= j < k && emitted[k] in Children(env.db, emitted[j]);
    QueueChild(env, emitted[j], emitted[k]);
  }

  /** One visit reports something exactly when the node is not fine. */
  lemma VisitReports(env: Env, v: State, nodes: seq<Node>, k: nat)
    requires k < |nodes|
    requires nodes[k].CodeMetadataNode? ==>
               nodes[k].code in env.db.originals && v.originalCode == Some(env.db.originals[nodes[k].code])
    requires nodes[k].MessageQueueNode? ==>
               var hash := env.queueHash(nodes[k].queue);
               LastSize(nodes[..k], hash).Some? && Lookup(v.cachedSizes, hash) == LastSize(nodes[..k], hash)
    ensures Visit(env, v, nodes[k]).errors == [] <==> v.errors == [] && NodeFine(env, nodes, k)
  {
    hide LastSize;
  }

  /** Errors are only added. */
  lemma {:induction false} ErrorsStay(env: Env, v: State, nodes: seq<Node>)
    ensures |v.errors| <= |VisitAll(env, v, nodes).errors|
    decreases |nodes|
  {
    if nodes != [] {
      ErrorsStay(env, Visit(env, v, nodes[0]), nodes[1..]);
    }
  }

  lemma MissingOriginalIsChild(env: Env, code: CodeId)
    requires code !in env.db.originals
    ensures ErrorNode(NoOriginalCode(code)) in Children(env.db, CodeIdNode(code))
  {
    assert CodeChildren(env.db, code)[1] == ErrorNode(NoOriginalCode(code));
  }

  lemma ReferencedQueueIsChild(env: Env, q: QueueHashWithSize)
    requires q.hash.Some? && q.hash.value in env.db.queues
    ensures MessageQueueNode(env.db.queues[q.hash.value]) in Children(env.db, QueueHashWithSizeNode(q))
  {
    assert QueueChildren(env.db, q)[0] == MessageQueueNode(env.db.queues[q.hash.value]);
  }

  lemma MissingOriginalIsEmitted(env: Env, root: Node, code: CodeId)
    requires CodeIdNode(code) in Walk(env.db, [root], {}) && code !in env.db.originals
    ensures ErrorNode(NoOriginalCode(code)) in Walk(env.db, [root], {})
  {
    hide Walk;
    hide Children;
    MissingOriginalIsChild(env, code);
    WalkCloses(env.db, [root], {});
  }

  /** Without a reachable missing row, every code id that is met and has metadata has its original bytes. */
  lemma CodesHaveOriginals(env: Env, root: Node)
    requires forall n :: n in Walk(env.db, [root], {}) ==> !n.ErrorNode?
    ensures forall n :: n in Walk(env.db, [root], {}) ==> MetadataHasOriginal(env, n)
  {
    hide Walk;
    forall n | n in Walk(env.db, [root], {})
      ensures MetadataHasOriginal(env, n)
    {
      if n.CodeIdNode? && n.code !in env.db.originals {
        MissingOriginalIsEmitted(env, root, n.code);
      }
    }
  }

  lemma {:induction false} MissingRowReported(env: Env, v: State, nodes: seq<Node>, error: IteratorError)
    requires ErrorNode(error) in nodes
    ensures VisitAll(env, v, nodes).errors != []
    decreases |nodes|
  {
    if nodes[0] == ErrorNode(error) {
      ErrorsStay(env, Visit(env, v, nodes[0]), nodes[1..]);
    } else {
      MissingRowReported(env, Visit(env, v, nodes[0]), nodes[1..], error);
    }
  }

  // ---------------------------------------------------------------------
  // The whole walk

  lemma {:induction false} ErrorsExactly(env: Env, root: Node, n: nat)
    requires HashConsistent(env) && !SingleSource(root) && n <= |Walk(env.db, [root], {})|
    requires forall m :: m in Walk(env.db, [root], {}) ==> !m.ErrorNode?
    ensures var emitted := Walk(env.db, [root], {});
      VisitAll(env, INITIAL, emitted[..n]).errors == [] <==> forall k :: 0 <= k < n ==> NodeFine(env, emitted, k)
  {
    hide Walk, Visit, NodeFine, OriginalsInPlace, MetadataHasOriginal, LastSize, HashConsistent;
    if n > 0 {
      var emitted, k := Walk(env.db, [root], {}), n - 1;
      ErrorsExactly(env, root, k);
      assert emitted[..n] == emitted[..k] + [emitted[k]];
      VisitAllLast(env, INITIAL, emitted[..k], emitted[k]);
      if emitted[k].CodeMetadataNode? {
        CodesHaveOriginals(env, root);
        StartsInPlace(env, root);
        MetadataMeetsOriginal(env, [root], {}, INITIAL, k);
      }
      if emitted[k].MessageQueueNode? {
        QueueOnce(env, root, k);
        CachedIsLast(env, emitted[..k], env.queueHash(emitted[k].queue));
      }
      VisitReports(env, VisitAll(env, INITIAL, emitted[..k]), emitted, k);
    }
  }

  /** Main result, with no assumption on the sizes that references carry: over a hash-consistent database the verifier
      accepts a chain if and only if every node it meets other than queue references is acceptable, and every queue
      has the size that was last announced before it. */
  lemma VerifiesExactly(env: Env, head: Hash, bottom: Hash)
    requires HashConsistent(env)
    ensures var emitted := Walk(env.db, [ChainNode(head, bottom)], {});
      Verified(env, head, bottom).errors == [] <==> forall k :: 0 <= k < |emitted| ==> NodeFine(env, emitted, k)
  {
    WalkVerifiesExactly(env, ChainNode(head, bottom));
  }

  lemma WalkVerifiesExactly(env: Env, root: Node)
    requires HashConsistent(env) && !SingleSource(root)
    ensures var emitted := Walk(env.db, [root], {});
      VisitAll(env, INITIAL, emitted).errors == [] <==> forall k :: 0 <= k < |emitted| ==> NodeFine(env, emitted, k)
  {
    hide Walk, HashConsistent;
    var emitted := Walk(env.db, [root], {});
    if k :| 0 <= k < |emitted| && emitted[k].ErrorNode? {
      MissingRowReported(env, INITIAL, emitted, emitted[k].error);
      assert !NodeFine(env, emitted, k);
    } else {
      ErrorsExactly(env, root, |emitted|);
      assert emitted[..|emitted|] == emitted;
    }
  }

  /** Every reachable node is acceptable, queue references included. */
  ghost predicate AllAcceptable(env: Env, root: Node) {
    forall n :: Reachable(env.db, root, {}, n) ==> Acceptable(env, n)
  }

  /** All references that the walk meets agree on the size of each queue. */
  ghost predicate SizesAgree(env: Env, root: Node) {
    forall a: QueueHashWithSize, b: QueueHashWithSize ::
      Reachable(env.db, root, {}, QueueHashWithSizeNode(a)) && Reachable(env.db, root, {}, QueueHashWithSizeNode(b)) && a.hash == b.hash ==>
        a.cachedSize == b.cachedSize
  }

  /** A reference to a stored queue is followed or preceded by that queue. */
  lemma QueueOfReference(env: Env, root: Node, i: nat) returns (k: nat)
    requires HashConsistent(env)
    requires var emitted := Walk(env.db, [root], {});
      && i < |emitted| && emitted[i].QueueHashWithSizeNode?
      && emitted[i].queueRef.hash.Some? && emitted[i].queueRef.hash.value in env.db.queues
    ensures var emitted := Walk(env.db, [root], {});
      k < |emitted| && emitted[k] == MessageQueueNode(env.db.queues[emitted[i].queueRef.hash.value])
  {
    hide Walk, Children;
    var emitted := Walk(env.db, [root], {});
    assert emitted[i] == QueueHashWithSizeNode(emitted[i].queueRef);
    ReferencedQueueIsChild(env, emitted[i].queueRef);
    WalkCloses(env.db, [root], {});
    var queue := MessageQueueNode(env.db.queues[emitted[i].queueRef.hash.value]);
    assert queue in emitted;
    k :| 0 <= k < |emitted| && emitted[k] == queue;
  }

  /** A queue that is fine was last announced by a reference with the right size. */
  lemma FineAnnouncement(env: Env, root: Node, k: nat) returns (j: nat)
    requires HashConsistent(env) && !SingleSource(root)
    requires var emitted := Walk(env.db, [root], {}); k < |emitted| && emitted[k].MessageQueueNode?
    ensures var emitted := Walk(env.db, [root], {});
      var hash := env.queueHash(emitted[k].queue);
      && j < k && emitted[j].QueueHashWithSizeNode? && emitted[j].queueRef.hash == Some(hash)
      && (NodeFine(env, emitted, k) <==> RightSize(env, emitted[j].queueRef))
      && forall i :: j < i < k && emitted[i].QueueHashWithSizeNode? ==> emitted[i].queueRef.hash != Some(hash)
  {
    hide Walk, HashConsistent;
    var emitted := Walk(env.db, [root], {});
    QueueOnce(env, root, k);
    j := LastSizeFrom(emitted[..k], env.queueHash(emitted[k].queue));
  }

  /** When all references that are met agree on the size of each queue, a chain is accepted if and only if every
      reachable node is acceptable. */
  lemma VerifiesWhenSizesAgree(env: Env, head: Hash, bottom: Hash)
    requires HashConsistent(env) && SizesAgree(env, ChainNode(head, bottom))
    ensures Verified(env, head, bottom).errors == [] <==> AllAcceptable(env, ChainNode(head, bottom))
  {
    hide Walk, Reachable, HashConsistent, NodeFine, VisitAll;
    var root := ChainNode(head, bottom);
    var emitted := Walk(env.db, [root], {});
    VerifiesExactly(env, head, bottom);
    WalkExact(env.db, root, {});
    forall k | 0 <= k < |emitted|
      ensures AllAcceptable(env, root) ==> NodeFine(env, emitted, k)
    {
      if AllAcceptable(env, root) {
        AcceptableIsFine(env, root, k);
      }
    }
    forall i | 0 <= i < |emitted| && forall k :: 0 <= k < |emitted| ==> NodeFine(env, emitted, k)
      ensures Acceptable(env, emitted[i])
    {
      FineIsAcceptable(env, root, i);
    }
  }

  lemma ReferenceAcceptable(env: Env, q: QueueHashWithSize)
    ensures Acceptable(env, QueueHashWithSizeNode(q)) <==> RightSize(env, q)
  {
  }

  lemma PlainFine(env: Env, nodes: seq<Node>, k: nat)
    requires k < |nodes|
    ensures !nodes[k].MessageQueueNode? && !nodes[k].QueueHashWithSizeNode? ==>
              (NodeFine(env, nodes, k) <==> Acceptable(env, nodes[k]))
    ensures nodes[k].QueueHashWithSizeNode? ==> NodeFine(env, nodes, k)
    ensures nodes[k].MessageQueueNode? ==> Acceptable(env, nodes[k])
  {
    hide LastSize;
  }

  lemma AcceptableIsFine(env: Env, root: Node, k: nat)
    requires HashConsistent(env) && !SingleSource(root) && AllAcceptable(env, root) && k < |Walk(env.db, [root], {})|
    ensures NodeFine(env, Walk(env.db, [root], {}), k)
  {
    hide Walk, Reachable, HashConsistent, NodeFine, Acceptable, RightSize;
    var emitted := Walk(env.db, [root], {});
    WalkExact(env.db, root, {});
    PlainFine(env, emitted, k);
    assert emitted[k] in emitted;
    if emitted[k].MessageQueueNode? {
      var j := FineAnnouncement(env, root, k);
      assert emitted[j] in emitted && emitted[j] == QueueHashWithSizeNode(emitted[j].queueRef);
      ReferenceAcceptable(env, emitted[j].queueRef);
    }
  }

  lemma FineIsAcceptable(env: Env, root: Node, i: nat)
    requires HashConsistent(env) && !SingleSource(root) && SizesAgree(env, root)
    requires var emitted := Walk(env.db, [root], {});
      i < |emitted| && forall k :: 0 <= k < |emitted| ==> NodeFine(env, emitted, k)
    ensures Acceptable(env, Walk(env.db, [root], {})[i])
  {
    hide Walk, Reachable, LastSize, HashConsistent;
    var emitted := Walk(env.db, [root], {});
    var node := emitted[i];
    assert NodeFine(env, emitted, i);
    if node.QueueHashWithSizeNode? && node.queueRef.hash.Some? && node.queueRef.hash.value in env.db.queues {
      var k := QueueOfReference(env, root, i);
      var j := FineAnnouncement(env, root, k);
      HashOfQueue(env, node.queueRef.hash.value);
      WalkExact(env.db, root, {});
      assert emitted[j] == QueueHashWithSizeNode(emitted[j].queueRef) && node == QueueHashWithSizeNode(node.queueRef);
      assert NodeFine(env, emitted, k);
    }
  }

  lemma HashOfQueue(env: Env, hash: Hash)
    requires HashConsistent(env) && hash in env.db.queues
    ensures env.queueHash(env.db.queues[hash]) == hash
  {
  }

  /** The reference is not the last announcement before its queue: the queue was visited before it, or another reference
      to the same queue comes between the two. */
  predicate Overtaken(env: Env, nodes: seq<Node>, i: nat, k: nat) {
    && i < |nodes| && k < |nodes| && nodes[i].QueueHashWithSizeNode? && nodes[k].MessageQueueNode?
    && nodes[i].queueRef.hash == Some(env.queueHash(nodes[k].queue))
    && (k < i || exists j :: i < j < k && nodes[j].QueueHashWithSizeNode? && nodes[j].queueRef.hash == nodes[i].queueRef.hash)
  }

  /** Exactly when a wrong size is missed: an accepted chain has an unacceptable node if and only if it has a queue
      reference with a wrong size; and every such reference is overtaken. */
  lemma MissedExactly(env: Env, head: Hash, bottom: Hash)
    requires HashConsistent(env) && Verified(env, head, bottom).errors == []
    ensures var root := ChainNode(head, bottom);
      var emitted := Walk(env.db, [root], {});
      && (!AllAcceptable(env, root) <==>
          exists i :: 0 <= i < |emitted| && emitted[i].QueueHashWithSizeNode? && !RightSize(env, emitted[i].queueRef))
      && forall i :: 0 <= i < |emitted| && emitted[i].QueueHashWithSizeNode? && !RightSize(env, emitted[i].queueRef) ==>
        exists k :: Overtaken(env, emitted, i, k)
  {
    hide Walk, Reachable, HashConsistent, RightSize, NodeFine, Acceptable, VisitAll, Overtaken;
    var root := ChainNode(head, bottom);
    var emitted := Walk(env.db, [root], {});
    VerifiesExactly(env, head, bottom);
    WalkExact(env.db, root, {});
    forall i | 0 <= i < |emitted|
      ensures Acceptable(env, emitted[i]) <==>
        (emitted[i].QueueHashWithSizeNode? ==> RightSize(env, emitted[i].queueRef))
    {
      PlainFine(env, emitted, i);
      if emitted[i].QueueHashWithSizeNode? {
        assert emitted[i] == QueueHashWithSizeNode(emitted[i].queueRef);
        ReferenceAcceptable(env, emitted[i].queueRef);
      }
    }
    forall i | 0 <= i < |emitted| && emitted[i].QueueHashWithSizeNode? && !RightSize(env, emitted[i].queueRef)
      ensures exists k :: Overtaken(env, emitted, i, k)
    {
      WrongIsOvertaken(env, root, i);
    }
    EmittedAcceptable(env, root);
  }

  lemma EmittedAcceptable(env: Env, root: Node)
    ensures var emitted := Walk(env.db, [root], {});
      AllAcceptable(env, root) <==> forall i :: 0 <= i < |emitted| ==> Acceptable(env, emitted[i])
  {
    hide Walk, Reachable, Acceptable;
    WalkExact(env.db, root, {});
    var emitted := Walk(env.db, [root], {});
    assert forall i :: 0 <= i < |emitted| ==> emitted[i] in emitted;
  }

  lemma WrongIsOvertaken(env: Env, root: Node, i: nat)
    requires HashConsistent(env) && !SingleSource(root)
    requires var emitted := Walk(env.db, [root], {});
      && i < |emitted| && emitted[i].QueueHashWithSizeNode? && !RightSize(env, emitted[i].queueRef)
      && forall k :: 0 <= k < |emitted| ==> NodeFine(env, emitted, k)
    ensures exists k :: Overtaken(env, Walk(env.db, [root], {}), i, k)
  {
    hide Walk, HashConsistent, LastSize;
    var emitted := Walk(env.db, [root], {});
    var k := QueueOfReference(env, root, i);
    HashOfQueue(env, emitted[i].queueRef.hash.value);
    var j := FineAnnouncement(env, root, k);
    assert NodeFine(env, emitted, k);
    assert Overtaken(env, emitted, i, k);
  }

  // ---------------------------------------------------------------------
  // What an accepted chain guarantees

  /** A walk that reported nothing met only acceptable nodes, queue references aside. */
  lemma AcceptedNode(env: Env, root: Node, n: Node)
    requires HashConsistent(env) && !SingleSource(root) && n in Walk(env.db, [root], {}) && !n.QueueHashWithSizeNode?
    requires VisitAll(env, INITIAL, Walk(env.db, [root], {})).errors == []
    ensures Acceptable(env, n)
  {
    hide Walk, HashConsistent, LastSize;
    WalkVerifiesExactly(env, root);
    var emitted := Walk(env.db, [root], {});
    var k :| 0 <= k < |emitted| && emitted[k] == n;
    assert NodeFine(env, emitted, k);
  }

  /** A chain walk arrives at the bottom or at a missing header. */
  lemma {:induction false} ChainReachesBottom(db: GraphDb, head: Hash, bottom: Hash)
    ensures BlockNode(bottom) in ChainBlocks(db, head, bottom) ||
            exists h :: ErrorNode(NoBlockHeader(h)) in ChainBlocks(db, head, bottom)
    decreases db.BlockRank(head)
  {
    if head != bottom {
      if head !in db.headers {
        assert ChainBlocks(db, head, bottom)[1] == ErrorNode(NoBlockHeader(head));
      } else {
        var older := ChainBlocks(db, db.headers[head].parent, bottom);
        ChainReachesBottom(db, db.headers[head].parent, bottom);
        assert ChainBlocks(db, head, bottom) == [BlockNode(head)] + older;
        if BlockNode(bottom) !in older {
          var h :| ErrorNode(NoBlockHeader(h)) in older;
          assert ErrorNode(NoBlockHeader(h)) in ChainBlocks(db, head, bottom);
        }
      }
    }
  }

  /** In an accepted chain the walk from the head arrives at the bottom, and every block on the way is synced,
      prepared, has its rows, and stands directly above its parent. */
  lemma AcceptedChain(env: Env, head: Hash, bottom: Hash, block: Hash)
    requires HashConsistent(env) && env.bottom == Some(bottom) && Verified(env, head, bottom).errors == []
    requires BlockNode(block) in ChainBlocks(env.db, head, bottom)
    ensures BlockNode(bottom) in ChainBlocks(env.db, head, bottom)
    ensures block in env.db.headers && block in env.db.events && block in env.db.synced && env.db.Meta(block).prepared
    ensures block != bottom ==> env.db.headers[block].parent in env.db.headers
    ensures var header := env.db.headers[block];
      header.parent in env.db.headers ==>
        && env.db.headers[header.parent].height + 1 == header.height
        && env.db.headers[header.parent].timestamp <= header.timestamp
  {
    hide Walk;
    hide ChainBlocks;
    var root := ChainNode(head, bottom);
    var emitted := Walk(env.db, [root], {});
    WalkCloses(env.db, [root], {});
    assert root in [root];
    assert forall n :: n in ChainBlocks(env.db, head, bottom) ==> n in Children(env.db, root);
    forall n | n in ChainBlocks(env.db, head, bottom)
      ensures !n.ErrorNode?
    {
      if n.ErrorNode? {
        AcceptedNode(env, root, n);
      }
    }
    ChainReachesBottom(env.db, head, bottom);
    forall i | 0 <= i < 4
      ensures Acceptable(env, BlockChildren(env.db, block)[i])
    {
      assert BlockChildren(env.db, block)[i] in Children(env.db, BlockNode(block));
      AcceptedNode(env, root, BlockChildren(env.db, block)[i]);
    }
    assert Acceptable(env, BlockChildren(env.db, block)[0]) && Acceptable(env, BlockChildren(env.db, block)[1]);
    assert Acceptable(env, BlockChildren(env.db, block)[2]) && Acceptable(env, BlockChildren(env.db, block)[3]);
  }

  // ---------------------------------------------------------------------
  // A chain with a wrong size that is accepted

  /** One queue at hash 9, which is empty. */
  const WRONG := QueueHashWithSize(Some(9), 1)
  const RIGHT := QueueHashWithSize(Some(9), 0)

  /** A program state whose canonical queue has the wrong size and whose injected queue, the same, has the right one. */
  const TWICE := ProgramState(Inactive, WRONG, RIGHT, None, None, None, 0)

  const META := BlockMeta(true, Some([]), Some(0), Some(2), Some(0))
  const MB := CompactMb(ZERO, 1, 3)

  /** One block, with one computed MB, with one program. */
  const ONE_BLOCK: GraphDb :=
    EMPTY_DB.(metas := map[1 := META], headers := map[1 := Header(0, 0, ZERO)], events := map[1 := []], synced := {1},
              mbs := map[2 := MB], mbMetas := map[2 := (true, ZERO)], mbOutcomes := map[2 := []],
              mbStates := map[2 := [4]], states := map[4 := TWICE], queues := map[9 := []])

  /** What the walk meets, in order. */
  const MET: seq<Node> :=
    [ChainNode(1, 1), BlockNode(1), BlockMetaNode(1, META), BlockHeaderNode(1, Header(0, 0, ZERO)),
     BlockEventsNode(1, []), BlockSyncedNode(1, true), MbNode(2, MB), MbMetaNode(2, true, ZERO), MbOutcomeNode(2, []),
     MbProgramStatesNode(2, [4]), ProgramStateNode(TWICE), QueueHashWithSizeNode(WRONG), QueueHashWithSizeNode(RIGHT),
     MessageQueueNode([])]

  /** Where the references of each of the first twelve nodes start in that order. */
  const STARTS: seq<nat> := [1, 2, 6, 7, 7, 7, 7, 10, 10, 10, 11, 13, 14]

  /** The nodes are in breadth-first order: the references of node `i` are the nodes from `starts[i]` to `starts[i + 1]`. */
  ghost predicate BreadthFirst(db: GraphDb, nodes: seq<Node>, starts: seq<nat>, n: nat) {
    && n < |starts| && starts[0] == 1 && n <= |nodes|
    && (forall i :: 0 <= i <= n ==> i < starts[i] <= |nodes|)
    && (forall i :: 0 <= i < n ==> starts[i] <= starts[i + 1] && Children(db, nodes[i]) == nodes[starts[i]..starts[i + 1]])
  }

  lemma WalkStep(db: GraphDb, node: Node, rest: seq<Node>, visited: set<Node>, next: seq<Node>)
    requires next == rest + Children(db, node)
    ensures Walk(db, [node] + rest, visited) ==
            if node in visited then Walk(db, rest, visited) else [node] + Walk(db, next, visited + {node})
  {
    hide Children;
    hide Work;
    assert ([node] + rest)[1..] == rest;
  }

  /** Without repeated references a walk meets nodes in breadth-first order. */
  lemma {:induction false} BreadthFirstWalk(db: GraphDb, nodes: seq<Node>, starts: seq<nat>, n: nat)
    requires Distinct(nodes) && BreadthFirst(db, nodes, starts, n)
    ensures Walk(db, [nodes[0]], {}) == nodes[..n] + Walk(db, nodes[n..starts[n]], Elements(nodes[..n]))
  {
    hide Walk, Children;
    if n == 0 {
      assert nodes[0..1] == [nodes[0]] && nodes[..0] == [] && Elements<Node>([]) == {};
    } else {
      var k := n - 1;
      BreadthFirstWalk(db, nodes, starts, k);
      var rest, next := nodes[n..starts[k]], nodes[n..starts[n]];
      assert nodes[k..starts[k]] == [nodes[k]] + rest && next == rest + Children(db, nodes[k]);
      WalkStep(db, nodes[k], rest, Elements(nodes[..k]), next);
      assert nodes[k] !in nodes[..k];
      assert nodes[..n] == nodes[..k] + [nodes[k]];
      assert Elements(nodes[..n]) == Elements(nodes[..k]) + {nodes[k]};
    }
  }

  lemma BlockReferences()
    ensures Children(ONE_BLOCK, MET[0]) == [MET[1]]
    ensures Children(ONE_BLOCK, MET[1]) == [MET[2], MET[3], MET[4], MET[5]]
    ensures Children(ONE_BLOCK, MET[2]) == [MET[6]]
    ensures Children(ONE_BLOCK, MET[3]) == [] && Children(ONE_BLOCK, MET[4]) == [] && Children(ONE_BLOCK, MET[5]) == []
  {
    assert [MET[6]] + CodeIds([]) == [MET[6]];
  }

  lemma MbReferences()
    ensures Children(ONE_BLOCK, MET[6]) == [MET[7], MET[8], MET[9]]
    ensures Children(ONE_BLOCK, MET[7]) == [] && Children(ONE_BLOCK, MET[8]) == []
    ensures Children(ONE_BLOCK, MET[9]) == [MET[10]]
  {
    assert MbRows(ONE_BLOCK, 2) == [MET[8], MET[9]];
  }

  lemma StateReferences()
    ensures Children(ONE_BLOCK, MET[10]) == [MET[11], MET[12]]
  {
    assert ProgramChildren(ONE_BLOCK, TWICE.program) == [] && StoredMessagesChildren(ONE_BLOCK, TWICE) == [];
  }

  lemma QueueReferences()
    ensures Children(ONE_BLOCK, MET[11]) == [MET[13]] && Children(ONE_BLOCK, MET[12]) == [MET[13]]
    ensures Children(ONE_BLOCK, MET[13]) == []
  {
  }

  lemma MetDistinct()
    ensures Distinct(MET)
  {
  }

  lemma MetInOrder()
    ensures BreadthFirst(ONE_BLOCK, MET, STARTS, 12)
  {
    hide Children;
    BlockReferences();
    MbReferences();
    StateReferences();
    QueueReferences();
    assert forall i :: 0 <= i <= 12 ==> i < STARTS[i] <= |MET|;
    forall i | 0 <= i < 12
      ensures Children(ONE_BLOCK, MET[i]) == MET[STARTS[i]..STARTS[i + 1]]
    {
    }
  }

  lemma OneBlockWalk()
    ensures Walk(ONE_BLOCK, [MET[0]], {}) == MET
  {
    hide Walk, Children;
    MetDistinct();
    MetInOrder();
    QueueReferences();
    BreadthFirstWalk(ONE_BLOCK, MET, STARTS, 12);
    LastTwo(ONE_BLOCK, MET[12], MET[13], Elements(MET[..12]));
    assert MET[12..14] == [MET[12], MET[13]] && MET[..12] + [MET[12], MET[13]] == MET;
  }

  /** The queue is queued once more, and skipped. */
  lemma LastTwo(db: GraphDb, a: Node, b: Node, visited: set<Node>)
    requires a !in visited && b !in visited && a != b && Children(db, a) == [b] && Children(db, b) == []
    ensures Walk(db, [a, b], visited) == [a, b]
  {
    hide Walk, Children;
    WalkStep(db, a, [b], visited, [b, b]);
    WalkStep(db, b, [b], visited + {a}, [b]);
    WalkStep(db, b, [], visited + {a} + {b}, []);
    EmptyWalk(db, visited + {a} + {b});
    assert [a] + [b] == [a, b] && [b] + [b] == [b, b] && [b] + [] == [b];
  }

  lemma EmptyWalk(db: GraphDb, visited: set<Node>)
    ensures Walk(db, [], visited) == []
  {
  }

  /** For every hash function that puts the empty queue at 9: `verify_chain` accepts this chain, although the
      canonical queue of its program has a wrong size. */
  lemma WrongSizeMissed(queueHash: Queue -> Hash, codeHash: Bytes -> Hash)
    requires queueHash([]) == 9
    ensures var env := Env(ONE_BLOCK, queueHash, codeHash, Some(1));
      && HashConsistent(env) && Verified(env, 1, 1).errors == []
      && !AllAcceptable(env, ChainNode(1, 1)) && !RightSize(env, WRONG)
  {
    hide Walk, Reachable, VisitAll, NodeFine, Acceptable, Children;
    var env := Env(ONE_BLOCK, queueHash, codeHash, Some(1));
    OneBlockWalk();
    VerifiesExactly(env, 1, 1);
    forall k | 0 <= k < |MET|
      ensures NodeFine(env, MET, k)
    {
      OneBlockFine(env, k);
    }
    EmittedAcceptable(env, MET[0]);
    ReferenceAcceptable(env, WRONG);
    assert MET[11] == QueueHashWithSizeNode(WRONG);
  }

  lemma OneBlockFine(env: Env, k: nat)
    requires env.db == ONE_BLOCK && env.bottom == Some(1) && env.queueHash([]) == 9 && k < 14
    ensures NodeFine(env, MET, k)
  {
    hide Acceptable;
    if k == 13 {
      assert MET[..13][12] == QueueHashWithSizeNode(RIGHT);
    } else {
      PlainFine(env, MET, k);
      if k < 11 {
        OneBlockAcceptable(env, k);
      }
    }
  }

  lemma OneBlockAcceptable(env: Env, k: nat)
    requires env.db == ONE_BLOCK && env.bottom == Some(1) && k < 11
    ensures Acceptable(env, MET[k])
  {
  }
}
