/**
 Safety of code validation and block preparation over every run: any
 interleaving of submitted codes and blocks, code results, new blocks and polls.
 */
module PrepareRuns {
  import opened Base
  import opened Chain
  import opened Prepare
  import opened PrepareMeta

  // ---------------------------------------------------------------------
  // Runs, with a record of what happened

  /** Block hashes submitted and answered so far, blocks prepared by this run,
      and whether preparing a chain has failed. */
  datatype History = History(submitted: multiset<Hash>, answered: multiset<Hash>, prepared: set<Hash>, failed: bool)

  datatype World = World(s: System, h: History)

  datatype Step =
    | SubmitCode(code: CodeId)
    | SubmitBlock(block: Hash)
    | NewBlocks(blocks: AcyclicBlocks)
    | PollStep(codes: CodesPoll, orders: Orders)

  function NewlyPrepared(before: Db, after: Db): set<Hash> {
    set b | b in after.metas && after.metas[b].prepared && !before.Meta(b).prepared
  }

  function Answers(out: Option<Out>): multiset<Hash> {
    match out
    case Some(BlockPrepared(head)) => multiset{head}
    case Some(PrepareFailed(submitted, _)) => multiset{submitted}
    case _ => multiset{}
  }

  function Next(w: World, step: Step): World {
    match step
    case SubmitCode(code) => w.(s := WithCode(w.s, code))
    case SubmitBlock(block) => World(WithBlock(w.s, block), w.h.(submitted := w.h.submitted + multiset{block}))
    case NewBlocks(blocks) => w.(s := w.s.(db := w.s.db.(blocks := blocks)))
    case PollStep(codes, orders) =>
      Record(w, Poll(w.s, codes, orders), !CodeYielded(w.s, codes) && PreparingFails(w.s, orders))
  }

  /** The world after a poll; `fails` says that preparing a chain returned an error. */
  function Record(w: World, polled: (System, Option<Out>), fails: bool): World {
    var (s, out) := polled;
    World(s, w.h.(answered := w.h.answered + Answers(out),
                  prepared := w.h.prepared + NewlyPrepared(w.s.db, s.db),
                  failed := w.h.failed || fails))
  }

  /** A code future completes, so that the poll does not reach the prepare sub-service. */
  predicate CodeYielded(s: System, codes: CodesPoll) {
    codes.Completes? && codes.index < |s.processions|
  }

  /** The chain that a poll of the prepare sub-service prepares, empty if it prepares none: the one that was waiting
      for codes, or the one it collects for the newest block and that misses no code. */
  function ChainToPrepare(s: System): seq<BlockData> {
    match s.state
    case WaitingForCodes(codes, chain) => if codes == {} then chain else []
    case _ =>
      if s.input == [] || s.input[|s.input| - 1] !in s.db.blocks.synced then []
      else match UnpreparedChain(s.db, s.input[|s.input| - 1])
        case Err(_) => []
        case Ok(chain) =>
          var missing := Missing(s.db, chain, s.state.Start?);
          if missing.Ok? && missing.value.codes == {} then chain else []
  }

  predicate PreparingFails(s: System, orders: Orders) {
    ChainToPrepare(s) != [] && PrepareAll(s.db, ChainToPrepare(s), orders).1.Some?
  }

  ghost predicate Allowed(w: World, step: Step) {
    match step
    case NewBlocks(blocks) => w.s.db.blocks.Grows(blocks)
    case PollStep(_, orders) => OrdersFit(w.s.db.blocks, orders)
    case _ => true
  }

  ghost predicate IsRun(roots: set<Hash>, worlds: seq<World>, steps: seq<Step>) {
    && |worlds| == |steps| + 1
    && Initial(roots, worlds[0])
    && forall i :: 0 <= i < |steps| ==> Follows(worlds[i], steps[i], worlds[i + 1])
  }

  ghost predicate Follows(w: World, step: Step, w': World) {
    Allowed(w, step) && w' == Next(w, step)
  }

  /** A prepared service; all ancestors of a prepared block down to a root are prepared. */
  ghost predicate Initial(roots: set<Hash>, w: World) {
    && w.s == System(w.s.db, [], [], Start)
    && w.h == History(multiset{}, multiset{}, {}, false)
    && AncestorsPrepared(roots, w.s.db)
    && CodeRowsStored(w.s.db)
  }

  // ---------------------------------------------------------------------
  // What holds in every state

  ghost predicate AncestorsPrepared(roots: set<Hash>, db: Db) {
    forall b :: b in db.metas && db.metas[b].prepared && b !in roots ==>
      b in db.blocks.headers && db.Meta(db.blocks.headers[b].parent).prepared
  }

  /** A code is valid only if its original bytes, instrumented form and metadata are stored. */
  predicate CodeRowsStored(db: Db) {
    forall c :: c in db.codeValid && db.codeValid[c] ==>
      c in db.codeRows.originals && c in db.codeRows.instrumented && c in db.codeRows.metadata
  }

  /** The codes that a block reports as validated have a known validity. */
  predicate CodesKnown(db: Db, codes: set<CodeId>) {
    codes <= db.codeValid.Keys
  }

  /** A block prepared by this run: its metadata follows from its parent's, and its codes are known. */
  ghost predicate PreparedRight(db: Db, b: Hash) {
    && b in db.blocks.headers && b in db.blocks.events
    && db.Meta(b).prepared && db.Meta(db.blocks.headers[b].parent).prepared
    && FollowsMeta(db.Meta(db.blocks.headers[b].parent), db.blocks.events[b], db.Meta(b))
    && CodesKnown(db, Validated(db.blocks.events[b]))
  }

  ghost predicate DbRight(roots: set<Hash>, db: Db, prepared: set<Hash>) {
    && AncestorsPrepared(roots, db)
    && CodeRowsStored(db)
    && forall b :: b in prepared ==> PreparedRight(db, b)
  }

  /** A collected chain: stored blocks, linked, unprepared, above a prepared one, all their
      validated codes known or still waited for. */
  ghost predicate ChainRight(db: Db, codes: set<CodeId>, chain: seq<BlockData>) {
    && Linked(chain)
    && (forall i :: 0 <= i < |chain| ==> BlockRight(db, codes, chain[i]))
    && (forall i, j :: 0 <= i < j < |chain| ==> chain[i].hash != chain[j].hash)
    && (chain != [] ==> db.Meta(chain[0].header.parent).prepared)
  }

  ghost predicate BlockRight(db: Db, codes: set<CodeId>, block: BlockData) {
    && Lookup(db.blocks.headers, block.hash) == Some(block.header)
    && Lookup(db.blocks.events, block.hash) == Some(block.events)
    && !db.Meta(block.hash).prepared
    && CodesKnown(db, Validated(block.events) - codes)
  }

  /** The submitted block that is being worked on. */
  function Waiting(state: State): multiset<Hash> {
    if state.WaitingForCodes? && state.chain != [] then multiset{state.chain[|state.chain| - 1].hash} else multiset{}
  }

  /** Every submitted block is queued, being worked on, or answered exactly once. */
  predicate Accounted(w: World) {
    w.h.submitted == multiset(w.s.input) + Waiting(w.s.state) + w.h.answered
  }

  ghost predicate Safe(roots: set<Hash>, w: World) {
    && DbRight(roots, w.s.db, w.h.prepared)
    && (forall i :: 0 <= i < |w.s.processions| ==> w.s.processions[i].Ready? ==> w.s.processions[i].code in w.s.db.codeValid)
    && (w.s.state.WaitingForCodes? ==> ChainRight(w.s.db, w.s.state.codes, w.s.state.chain))
    && Accounted(w)
    && (w.h.failed <==> w.s.state.WaitingForCodes? && w.s.state.chain == [])
    && (w.h.failed ==> w.s.state.codes == {})
  }

  // ---------------------------------------------------------------------
  // Every step keeps it

  lemma {:induction false} CollectedChainRight(db: Db, head: Hash)
    requires UnpreparedChain(db, head).Ok?
    ensures var chain := UnpreparedChain(db, head).value;
      && Linked(chain)
      && (forall i :: 0 <= i < |chain| ==>
            && Lookup(db.blocks.headers, chain[i].hash) == Some(chain[i].header)
            && Lookup(db.blocks.events, chain[i].hash) == Some(chain[i].events)
            && !db.Meta(chain[i].hash).prepared
            && db.blocks.Rank(chain[i].hash) <= db.blocks.Rank(head))
      && (forall i, j :: 0 <= i < j < |chain| ==> chain[i].hash != chain[j].hash)
      && (chain != [] ==> db.Meta(chain[0].header.parent).prepared && chain[|chain| - 1].hash == head)
      && (chain == [] ==> db.Meta(head).prepared)
    decreases db.blocks.Rank(head)
  {
    if !db.Meta(head).prepared {
      var parent := db.blocks.headers[head].parent;
      CollectedChainRight(db, parent);
      var older := UnpreparedChain(db, parent).value;
      if older != [] {
        assert parent in db.blocks.headers;
      }
    }
  }

  lemma CollectedCodesWaitedFor(db: Db, head: Hash, isStart: bool)
    requires UnpreparedChain(db, head).Ok? && Missing(db, UnpreparedChain(db, head).value, isStart).Ok?
    ensures var chain := UnpreparedChain(db, head).value;
      && ChainRight(db, Missing(db, chain, isStart).value.validatedCodes, chain)
      && (Missing(db, chain, isStart).value.codes == {} ==> Missing(db, chain, isStart).value.validatedCodes == {})
      && (chain != [] ==> chain[|chain| - 1].hash == head)
  {
    CollectedChainRight(db, head);
    var chain := UnpreparedChain(db, head).value;
    var codes := Missing(db, chain, isStart).value.validatedCodes;
    forall i | 0 <= i < |chain|
      ensures BlockRight(db, codes, chain[i])
    {
      forall c | c in Validated(chain[i].events) && c !in db.codeValid
        ensures c in codes
      {
      }
    }
  }

  /** Preparing the first block of a right chain. */
  lemma PrepareOneKeeps(roots: set<Hash>, db: Db, prepared: set<Hash>, chain: seq<BlockData>, orders: Orders)
    requires DbRight(roots, db, prepared) && ChainRight(db, {}, chain) && chain != [] && OrdersFit(db.blocks, orders)
    requires PrepareOne(db, chain[0], orders).Ok?
    ensures var next := PrepareOne(db, chain[0], orders).value;
      && DbRight(roots, next, prepared + {chain[0].hash})
      && ChainRight(next, {}, chain[1..])
      && next.blocks == db.blocks && next.codeValid == db.codeValid
      && (forall b :: b != chain[0].hash ==> next.Meta(b) == db.Meta(b))
      && next.Meta(chain[0].hash).prepared
  {
    var block := chain[0];
    assert BlockRight(db, {}, block);
    var next := PrepareOne(db, block, orders).value;
    var parent := block.header.parent;
    NextMetaFollows(parent, db.Meta(parent), block.events, orders[block.hash]);
    assert Validated(block.events) - {} == Validated(block.events);
    hide FollowsMeta;
    hide NextMeta;
    forall b | b in prepared
      ensures PreparedRight(next, b)
    {
      assert PreparedRight(db, b);
    }
    forall i | 0 <= i < |chain| - 1
      ensures BlockRight(next, {}, chain[1..][i])
    {
      assert BlockRight(db, {}, chain[i + 1]);
    }
    assert PreparedRight(next, block.hash);
  }

  lemma {:induction false} PrepareAllKeeps(roots: set<Hash>, db: Db, prepared: set<Hash>, chain: seq<BlockData>, orders: Orders)
    requires DbRight(roots, db, prepared) && ChainRight(db, {}, chain) && OrdersFit(db.blocks, orders)
    ensures var after := PrepareAll(db, chain, orders).0;
      && DbRight(roots, after, prepared + NewlyPrepared(db, after))
      && after.blocks == db.blocks && after.codeValid == db.codeValid
      && (forall b :: db.Meta(b).prepared ==> after.Meta(b).prepared)
    decreases |chain|
  {
    hide DbRight;
    hide ChainRight;
    hide PrepareOne;
    var after := PrepareAll(db, chain, orders).0;
    if chain == [] || PrepareOne(db, chain[0], orders).Err? {
      assert NewlyPrepared(db, db) == {};
      assert prepared + {} == prepared;
    } else {
      var next := PrepareOne(db, chain[0], orders).value;
      PrepareOneKeeps(roots, db, prepared, chain, orders);
      PrepareAllKeeps(roots, next, prepared + {chain[0].hash}, chain[1..], orders);
      FirstUnprepared(db, chain);
      assert NewlyPrepared(db, after) == {chain[0].hash} + NewlyPrepared(next, after);
      assert prepared + NewlyPrepared(db, after) == prepared + {chain[0].hash} + NewlyPrepared(next, after);
    }
  }

  lemma FirstUnprepared(db: Db, chain: seq<BlockData>)
    requires ChainRight(db, {}, chain) && chain != []
    ensures !db.Meta(chain[0].hash).prepared
  {
    assert BlockRight(db, {}, chain[0]);
  }

  /** Known codes stay known, and rows of prepared blocks are not touched, when a code is stored. */
  lemma StoreCodeKeeps(roots: set<Hash>, db: Db, prepared: set<Hash>, code: CodeId, valid: bool)
    requires DbRight(roots, db, prepared)
    ensures DbRight(roots, StoreCode(db, code, valid), prepared)
    ensures forall codes, chain :: ChainRight(db, codes, chain) ==> ChainRight(StoreCode(db, code, valid), codes - {code}, chain)
    ensures NewlyPrepared(db, StoreCode(db, code, valid)) == {}
  {
    hide FollowsMeta;
    var after := StoreCode(db, code, valid);
    CodeWritesSoFar(db, code, valid, |CodeWrites(code, valid)|);
    forall b | b in prepared
      ensures PreparedRight(after, b)
    {
      assert PreparedRight(db, b);
    }
    forall codes, chain | ChainRight(db, codes, chain)
      ensures ChainRight(after, codes - {code}, chain)
    {
      forall i | 0 <= i < |chain|
        ensures BlockRight(after, codes - {code}, chain[i])
      {
        assert BlockRight(db, codes, chain[i]);
      }
    }
  }

  /** After every single write of a code, a positive status comes with all rows, and the status is written last. */
  lemma EveryCodeWriteKeeps(db: Db, code: CodeId, valid: bool, n: nat)
    requires CodeRowsStored(db) && n <= |CodeWrites(code, valid)|
    ensures CodeRowsStored(AfterCodeWrites(db, code, valid, n))
    ensures AfterCodeWrites(db, code, valid, n).codeValid ==
            if n == |CodeWrites(code, valid)| then db.codeValid[code := valid] else db.codeValid
  {
    CodeWritesSoFar(db, code, valid, n);
  }

  lemma ReadyCodeKeeps(db: Db, codes: set<CodeId>, chain: seq<BlockData>, code: CodeId)
    requires ChainRight(db, codes, chain) && code in db.codeValid
    ensures ChainRight(db, codes - {code}, chain)
  {
    forall i | 0 <= i < |chain|
      ensures BlockRight(db, codes - {code}, chain[i])
    {
      assert BlockRight(db, codes, chain[i]);
    }
  }

  lemma NothingPrepared(w: World, s: System, out: Option<Out>)
    requires s.db.metas == w.s.db.metas
    ensures Record(w, (s, out), false).h.prepared == w.h.prepared
  {
    assert NewlyPrepared(w.s.db, s.db) == {};
  }

  lemma CodesPollKeeps(roots: set<Hash>, w: World, codes: CodesPoll, orders: Orders)
    requires Safe(roots, w)
    requires codes.Completes? && codes.index < |w.s.processions|
    ensures Safe(roots, Record(w, Poll(w.s, codes, orders), false))
  {
    hide DbRight;
    hide ChainRight;
    hide NewlyPrepared;
    hide Accounted;
    var p := w.s.processions[codes.index];
    var (s, out) := Poll(w.s, codes, orders);
    NothingPrepared(w, s, out);
    CodesPollAccounted(w, codes, orders);
    if p.Ready? {
      if w.s.state.WaitingForCodes? {
        ReadyCodeKeeps(w.s.db, w.s.state.codes, w.s.state.chain, p.code);
      }
    } else if codes.answer.Processed? {
      StoreCodeKeeps(roots, w.s.db, w.h.prepared, codes.answer.code, codes.answer.valid);
    }
  }

  lemma CodesPollAccounted(w: World, codes: CodesPoll, orders: Orders)
    requires Accounted(w) && codes.Completes? && codes.index < |w.s.processions|
    ensures Accounted(Record(w, Poll(w.s, codes, orders), false))
  {
    hide NewlyPrepared;
    hide Answers;
    hide Waiting;
    var (s, out) := Poll(w.s, codes, orders);
    SameWaiting(w.s.state, s.state);
    NoAnswer(w.h.answered, out);
  }

  lemma SameWaiting(before: State, after: State)
    requires before.WaitingForCodes? == after.WaitingForCodes?
    requires before.WaitingForCodes? ==> before.chain == after.chain
    ensures Waiting(after) == Waiting(before)
  {
  }

  lemma NoAnswer(answered: multiset<Hash>, out: Option<Out>)
    requires out.None? || out.value.CodeProcessed? || out.value.CodeFailed? || out.value.Panicked?
    ensures answered + Answers(out) == answered
  {
  }

  lemma CollectedAccounted(w: World, orders: Orders)
    requires Accounted(w)
    ensures Accounted(Record(w, PrepareCollected(w.s, orders), PreparingFails(w.s, orders)))
  {
    hide NewlyPrepared;
    hide PrepareAll;
    hide Answers;
    hide Waiting;
    var (s, out) := PrepareCollected(w.s, orders);
    if out.None? || out.value.Panicked? {
      NoAnswer(w.h.answered, out);
    } else {
      MoveAnswer(multiset(w.s.input), w.h.answered, w.s.state, s.state, out.value);
    }
  }

  /** The block being worked on becomes an answered one. */
  lemma MoveAnswer(queued: multiset<Hash>, answered: multiset<Hash>, before: State, after: State, out: Out)
    requires before.WaitingForCodes? && before.chain != [] && (after.WaitingForCodes? ==> after.chain == [])
    requires var head := before.chain[|before.chain| - 1].hash;
      out == BlockPrepared(head) || (out.PrepareFailed? && out.submitted == head)
    ensures queued + Waiting(before) + answered == queued + Waiting(after) + (answered + Answers(Some(out)))
  {
    assert Waiting(before) == Answers(Some(out)) && Waiting(after) == multiset{};
  }

  lemma EmptyChainRight(db: Db)
    ensures ChainRight(db, {}, [])
  {
  }

  /** Preparing a fully collected chain answers its head; only a failure before can make it panic. */
  lemma CollectedKeeps(roots: set<Hash>, w: World, orders: Orders)
    requires Safe(roots, w) && OrdersFit(w.s.db.blocks, orders) && w.s.state.WaitingForCodes?
    ensures Safe(roots, Record(w, PrepareCollected(w.s, orders), PreparingFails(w.s, orders)))
    ensures PrepareCollected(w.s, orders).1 == Some(Panicked) <==> w.h.failed
  {
    hide DbRight;
    hide ChainRight;
    hide NewlyPrepared;
    hide PrepareAll;
    hide Accounted;
    var (s, out) := PrepareCollected(w.s, orders);
    CollectedAccounted(w, orders);
    if w.s.state.WaitingForCodes? && w.s.state.codes == {} && w.s.state.chain != [] {
      PrepareAllKeeps(roots, w.s.db, w.h.prepared, w.s.state.chain, orders);
      EmptyChainRight(s.db);
    } else {
      NothingPrepared(w, s, out);
    }
  }

  /** The block that is taken from the queue, once its chain is collected. */
  lemma CollectKeeps(roots: set<Hash>, w: World, block: Hash, chain: seq<BlockData>, missing: MissingData)
    requires Safe(roots, w) && !w.s.state.WaitingForCodes? && w.s.input != [] && block == w.s.input[|w.s.input| - 1]
    requires UnpreparedChain(w.s.db, block) == Ok(chain) && chain != []
    requires Missing(w.s.db, chain, w.s.state.Start?) == Ok(missing)
    ensures Safe(roots, w.(s := w.s.(input := w.s.input[..|w.s.input| - 1],
                                     state := WaitingForCodes(missing.validatedCodes, chain))))
  {
    hide DbRight;
    hide ChainRight;
    hide Missing;
    hide UnpreparedChain;
    CollectedCodesWaitedFor(w.s.db, block, w.s.state.Start?);
    var front := w.s.input[..|w.s.input| - 1];
    assert w.s.input == front + [block];
  }

  /** A block that is answered as soon as it is taken from the queue. */
  lemma DirectAnswerKeeps(roots: set<Hash>, w: World, out: Out)
    requires Safe(roots, w) && !w.s.state.WaitingForCodes? && w.s.input != []
    requires Answers(Some(out)) == multiset{w.s.input[|w.s.input| - 1]}
    ensures Safe(roots, Record(w, (w.s.(input := w.s.input[..|w.s.input| - 1]), Some(out)), false))
  {
    hide DbRight;
    hide NewlyPrepared;
    var front := w.s.input[..|w.s.input| - 1];
    assert w.s.input == front + [w.s.input[|w.s.input| - 1]];
    NothingPrepared(w, w.s.(input := front), Some(out));
  }

  lemma PreparePollKeeps(roots: set<Hash>, w: World, orders: Orders)
    requires Safe(roots, w) && OrdersFit(w.s.db.blocks, orders)
    ensures Safe(roots, Record(w, PollPrepare(w.s, orders), PreparingFails(w.s, orders)))
    ensures PollPrepare(w.s, orders).1 == Some(Panicked) <==> w.h.failed
  {
    hide DbRight;
    hide ChainRight;
    hide Missing;
    hide UnpreparedChain;
    hide NewlyPrepared;
    hide PrepareCollected;
    hide Accounted;
    var (s, out) := PollPrepare(w.s, orders);
    if w.s.state.WaitingForCodes? {
      CollectedKeeps(roots, w, orders);
    } else if w.s.input == [] {
      IdleKeeps(roots, w);
    } else {
      var block, front := w.s.input[|w.s.input| - 1], w.s.input[..|w.s.input| - 1];
      if block !in w.s.db.blocks.synced {
        DirectAnswerKeeps(roots, w, out.value);
      } else {
        match UnpreparedChain(w.s.db, block) {
          case Err(_) => DirectAnswerKeeps(roots, w, out.value);
          case Ok(chain) =>
            if chain == [] || Missing(w.s.db, chain, w.s.state.Start?).Err? {
              DirectAnswerKeeps(roots, w, out.value);
            } else {
              var missing := Missing(w.s.db, chain, w.s.state.Start?).value;
              CollectKeeps(roots, w, block, chain, missing);
              var waiting := w.(s := w.s.(input := front, state := WaitingForCodes(missing.validatedCodes, chain)));
              if missing.codes != {} {
                NothingPrepared(w, s, out);
                RequestKeeps(roots, waiting, missing.codes);
              } else {
                CollectedCodesWaitedFor(w.s.db, block, w.s.state.Start?);
                CollectedKeeps(roots, waiting, orders);
              }
            }
        }
      }
    }
  }

  lemma IdleKeeps(roots: set<Hash>, w: World)
    requires Safe(roots, w)
    ensures Safe(roots, Record(w, (w.s, None), false))
  {
    hide DbRight;
    hide ChainRight;
    hide NewlyPrepared;
    NothingPrepared(w, w.s, None);
  }

  lemma RequestKeeps(roots: set<Hash>, w: World, codes: set<CodeId>)
    requires Safe(roots, w)
    ensures Safe(roots, Record(w, (w.s, Some(RequestLoadCodes(codes))), false))
  {
    hide DbRight;
    hide ChainRight;
    hide NewlyPrepared;
    NothingPrepared(w, w.s, Some(RequestLoadCodes(codes)));
  }

  lemma NextKeeps(roots: set<Hash>, w: World, step: Step)
    requires Safe(roots, w) && Allowed(w, step)
    ensures Safe(roots, Next(w, step))
  {
    match step {
      case SubmitCode(code) =>
      case SubmitBlock(block) =>
      case NewBlocks(blocks) =>
        GrowthKeeps(roots, w, blocks);
      case PollStep(codes, orders) =>
        if codes.Completes? && codes.index < |w.s.processions| {
          CodesPollKeeps(roots, w, codes, orders);
        } else {
          PreparePollKeeps(roots, w, orders);
        }
    }
  }

  lemma GrowthKeeps(roots: set<Hash>, w: World, blocks: AcyclicBlocks)
    requires Safe(roots, w) && w.s.db.blocks.Grows(blocks)
    ensures Safe(roots, Next(w, NewBlocks(blocks)))
  {
    hide FollowsMeta;
    hide Validated;
    hide Waiting;
    var after := w.s.db.(blocks := blocks);
    forall b | b in w.h.prepared
      ensures PreparedRight(after, b)
    {
      assert PreparedRight(w.s.db, b);
    }
    if w.s.state.WaitingForCodes? {
      var chain := w.s.state.chain;
      forall i | 0 <= i < |chain|
        ensures BlockRight(after, w.s.state.codes, chain[i])
      {
        assert BlockRight(w.s.db, w.s.state.codes, chain[i]);
      }
    }
  }

  /** Main result: every state of every run is safe.  In particular, whenever a block has become
      prepared, every code it reports as validated has a known validity; the prepared blocks are closed
      under parents down to the roots; and submitted = queued + waiting + answered. */
  lemma {:induction false} EveryRunIsSafe(roots: set<Hash>, worlds: seq<World>, steps: seq<Step>, n: nat)
    requires IsRun(roots, worlds, steps) && n < |worlds|
    ensures Safe(roots, worlds[n])
  {
    if n > 0 {
      var i := n - 1;
      EveryRunIsSafe(roots, worlds, steps, i);
      assert Follows(worlds[i], steps[i], worlds[i + 1]);
      NextKeeps(roots, worlds[i], steps[i]);
    }
  }

  // ---------------------------------------------------------------------
  // What a caller can rely on

  /** Blocks prepared by the run, each the child of the one before; the first one may be any prepared block. */
  predicate PreparedPath(w: World, path: seq<Hash>) {
    && path != []
    && forall i :: 0 < i < |path| ==>
      path[i] in w.h.prepared && path[i] in w.s.db.blocks.headers && w.s.db.blocks.headers[path[i]].parent == path[i - 1]
  }

  function MetasOf(db: Db, path: seq<Hash>): seq<BlockMeta> {
    seq(|path|, i requires 0 <= i < |path| => db.Meta(path[i]))
  }

  /** The events of the blocks of the path above the first one. */
  function EventsAlong(db: Db, path: seq<Hash>): seq<seq<BlockEvent>>
    requires path != []
    requires forall i :: 0 < i < |path| ==> path[i] in db.blocks.events
  {
    seq(|path| - 1, i requires 0 <= i < |path| - 1 => db.blocks.events[path[i + 1]])
  }

  /** In every run, the metadata of a prepared block is determined by the events above any prepared ancestor:
      the codes queue counts open requests, and the commitments are the latest ones. */
  lemma PreparedChainMeta(roots: set<Hash>, worlds: seq<World>, steps: seq<Step>, n: nat, path: seq<Hash>, code: CodeId)
    requires IsRun(roots, worlds, steps) && n < |worlds| && PreparedPath(worlds[n], path) && |path| > 1
    ensures var db := worlds[n].s.db;
      && (forall i :: 0 < i < |path| ==> path[i] in db.blocks.events)
      && var base, meta, events := db.Meta(path[0]), db.Meta(path[|path| - 1]), EventsAlong(db, path);
        && Complete(base) && meta.codesQueue.Some?
        && multiset(meta.codesQueue.value)[code] ==
           |OpenRequests(events, code)| +
           (if EverValidated(events, code) then 0 else multiset(base.codesQueue.value)[code])
        && meta.lastCommittedBatch == OrElse(Latest(BatchOf, Concat(events)), base.lastCommittedBatch)
        && meta.lastCommittedMb == OrElse(Latest(MbOf, Concat(events)), base.lastCommittedMb)
        && meta.lastCommittedEb == OrElse(Latest(EbOf, Concat(events)), base.lastCommittedEb)
        && meta.latestEra == Some(EraAfter(base.latestEra.value, Concat(events)))
        && base.latestEra.value <= meta.latestEra.value
  {
    EveryRunIsSafe(roots, worlds, steps, n);
    var db := worlds[n].s.db;
    forall i | 0 < i < |path|
      ensures PreparedRight(db, path[i])
    {
    }
    var metas, events := MetasOf(db, path), EventsAlong(db, path);
    forall i | 0 <= i < |events|
      ensures FollowsMeta(metas[i], events[i], metas[i + 1])
    {
      assert PreparedRight(db, path[i + 1]);
    }
    assert FollowsMeta(metas[0], events[0], metas[1]);
    CommittedStep(metas[0], events[0], metas[1]);
    QueueCounts(metas, events, code);
    CommittedLatest(metas, events);
  }

  /** In every run the codes queue of a block that the run prepared follows its parent's in order. */
  lemma PreparedQueueOrder(roots: set<Hash>, worlds: seq<World>, steps: seq<Step>, n: nat, b: Hash)
    requires IsRun(roots, worlds, steps) && n < |worlds| && b in worlds[n].h.prepared
    ensures var db := worlds[n].s.db;
      && b in db.blocks.headers && b in db.blocks.events
      && var parent := db.Meta(db.blocks.headers[b].parent);
        && parent.codesQueue.Some? && db.Meta(b).codesQueue.Some?
        && QueueFollows(parent.codesQueue.value, db.blocks.events[b], db.Meta(b).codesQueue.value)
  {
    hide QueueFollows, IsRun, FollowsMeta;
    EveryRunIsSafe(roots, worlds, steps, n);
    var db := worlds[n].s.db;
    assert PreparedRight(db, b);
    QueueOrder(db.Meta(db.blocks.headers[b].parent), db.blocks.events[b], db.Meta(b));
  }

  /** A poll hits the `unreachable!` exactly when preparing a chain has failed before (and the codes
      sub-service has nothing to yield). */
  lemma PanicsOnlyAfterFailure(roots: set<Hash>, worlds: seq<World>, steps: seq<Step>, n: nat, codes: CodesPoll, orders: Orders)
    requires IsRun(roots, worlds, steps) && n < |worlds| && OrdersFit(worlds[n].s.db.blocks, orders)
    ensures Poll(worlds[n].s, codes, orders).1 == Some(Panicked) <==>
            worlds[n].h.failed && !CodeYielded(worlds[n].s, codes)
  {
    EveryRunIsSafe(roots, worlds, steps, n);
    PreparePollKeeps(roots, worlds[n], orders);
  }

  /** A step prepares a chain above incomplete metadata, or one in which a committed era goes back. */
  ghost predicate PreparesBadChain(w: World, step: Step) {
    && step.PollStep? && !CodeYielded(w.s, step.codes)
    && var chain := ChainToPrepare(w.s);
      && chain != []
      && var base := w.s.db.Meta(chain[0].header.parent);
        !(Complete(base) && ErasNondecreasing(base.latestEra.value, EventsOf(chain)))
  }

  /** What is prepared is a linked chain above a prepared block. */
  lemma ChainToPrepareRight(roots: set<Hash>, w: World)
    requires Safe(roots, w)
    ensures Linked(ChainToPrepare(w.s))
    ensures ChainToPrepare(w.s) != [] ==> w.s.db.Meta(ChainToPrepare(w.s)[0].header.parent).prepared
  {
    if !w.s.state.WaitingForCodes? && ChainToPrepare(w.s) != [] {
      CollectedChainRight(w.s.db, w.s.input[|w.s.input| - 1]);
    }
  }

  /** In every run, on both paths into preparation, a step makes preparing fail exactly when the base is incomplete
      or a committed era goes back. */
  lemma FailsExactlyOnEarlierEra(roots: set<Hash>, worlds: seq<World>, steps: seq<Step>, n: nat, step: Step)
    requires IsRun(roots, worlds, steps) && n < |worlds| && Allowed(worlds[n], step)
    ensures Next(worlds[n], step).h.failed <==> worlds[n].h.failed || PreparesBadChain(worlds[n], step)
  {
    hide ChainToPrepare;
    EveryRunIsSafe(roots, worlds, steps, n);
    var w := worlds[n];
    ChainToPrepareRight(roots, w);
    if step.PollStep? && ChainToPrepare(w.s) != [] {
      PrepareAllSucceeds(w.s.db, ChainToPrepare(w.s), step.orders);
    }
  }

  lemma {:induction false} FailedExactly(roots: set<Hash>, worlds: seq<World>, steps: seq<Step>, n: nat)
    requires IsRun(roots, worlds, steps) && n < |worlds|
    ensures worlds[n].h.failed <==> exists k :: 0 <= k < n && PreparesBadChain(worlds[k], steps[k])
  {
    hide PreparesBadChain, Next;
    if n > 0 {
      var i := n - 1;
      FailedExactly(roots, worlds, steps, i);
      assert Follows(worlds[i], steps[i], worlds[i + 1]);
      FailsExactlyOnEarlierEra(roots, worlds, steps, i, steps[i]);
    }
  }

  /** Main result on the `unreachable!`: in every run, a poll that reaches the prepare sub-service panics if and only if
      an earlier step prepared a chain above incomplete metadata or with a committed era that goes back. */
  lemma PanicsExactly(roots: set<Hash>, worlds: seq<World>, steps: seq<Step>, n: nat, codes: CodesPoll, orders: Orders)
    requires IsRun(roots, worlds, steps) && n < |worlds| && OrdersFit(worlds[n].s.db.blocks, orders)
    requires !CodeYielded(worlds[n].s, codes)
    ensures Poll(worlds[n].s, codes, orders).1 == Some(Panicked) <==>
            exists k :: 0 <= k < n && PreparesBadChain(worlds[k], steps[k])
  {
    PanicsOnlyAfterFailure(roots, worlds, steps, n, codes, orders);
    FailedExactly(roots, worlds, steps, n);
  }

  // ---------------------------------------------------------------------
  // A run that panics

  const BAD_EVENTS := [ValidatorsCommittedForEra(1)]

  /** One prepared block for era 2, and a synced child that commits validators for era 1. */
  const BAD_DB := Db(Blocks(map[7 := Header(5, 0, 6)], map[7 := BAD_EVENTS], {7}),
                     map[6 := BlockMeta(true, Some([]), Some(0), None, None, Some(2))], map[], CodeRows({}, {}, {}), 6)

  lemma BadChain(isStart: bool)
    ensures var block := BlockData(7, Header(5, 0, 6), BAD_EVENTS);
      && UnpreparedChain(BAD_DB, 7) == Ok([block])
      && Missing(BAD_DB, [block], isStart) == Ok(MissingData({}, {}))
      && PrepareAll(BAD_DB, [block], map[7 := []]) == (BAD_DB, Some(ValidatorsCommittedForEarlierEra(2, 1)))
  {
    var block := BlockData(7, Header(5, 0, 6), BAD_EVENTS);
    assert UnpreparedChain(BAD_DB, 6) == Ok([]);
    assert [] + [block] == [block];
    assert Requested(BAD_EVENTS) == {} && Validated(BAD_EVENTS) == {};
    assert MissingIn(BAD_DB, [block]).0 == {} && MissingIn(BAD_DB, [block]).1 == {};
    assert Elements<CodeId>([]) == {};
    assert FoldEvents(Fold(0, 2, None, None, {}, {}), BAD_EVENTS) == Err(ValidatorsCommittedForEarlierEra(2, 1));
  }

  const BAD_ORDERS: Orders := map[7 := []]
  const BAD_START := World(System(BAD_DB, [], [], Start), History(multiset{}, multiset{}, {}, false))

  /** The two polls: an error, which leaves an empty chain, and a panic. */
  lemma BadPolls()
    ensures Poll(System(BAD_DB, [], [7], Start), NothingReady, BAD_ORDERS) ==
            (System(BAD_DB, [], [], WaitingForCodes({}, [])), Some(PrepareFailed(7, ValidatorsCommittedForEarlierEra(2, 1))))
    ensures Poll(System(BAD_DB, [], [], WaitingForCodes({}, [])), NothingReady, BAD_ORDERS).1 == Some(Panicked)
  {
    hide UnpreparedChain, Missing, PrepareAll;
    BadChain(true);
    assert [7][..0] == [];
  }

  lemma BadInitial()
    ensures Initial({6}, BAD_START) && OrdersFit(BAD_DB.blocks, BAD_ORDERS)
  {
    assert Requested(BAD_EVENTS) == {} && Elements<CodeId>([]) == {};
  }

  /** The run of a fresh service: the block is submitted, the first poll reports the error, the next one panics. */
  lemma EarlierEraPanics()
    ensures var steps := [SubmitBlock(7), PollStep(NothingReady, BAD_ORDERS)];
      var w1 := Next(BAD_START, steps[0]);
      var w2 := Next(w1, steps[1]);
      && IsRun({6}, [BAD_START, w1, w2], steps)
      && Poll(w1.s, NothingReady, BAD_ORDERS).1 == Some(PrepareFailed(7, ValidatorsCommittedForEarlierEra(2, 1)))
      && Poll(w2.s, NothingReady, BAD_ORDERS).1 == Some(Panicked)
  {
    hide Poll, PreparingFails, NewlyPrepared, Initial, OrdersFit;
    var steps := [SubmitBlock(7), PollStep(NothingReady, BAD_ORDERS)];
    var w1 := Next(BAD_START, steps[0]);
    var w2 := Next(w1, steps[1]);
    BadPolls();
    BadInitial();
    assert w1.s == System(BAD_DB, [], [7], Start);
    var worlds := [BAD_START, w1, w2];
    assert Follows(worlds[0], steps[0], worlds[1]) && Follows(worlds[1], steps[1], worlds[2]);
  }
}
