/**
 The outer service: three sub-services polled in a fixed order, and what holds
 of all three in every run.
 */
module Service {
  import opened Base
  import opened Chain
  import opened Prepare
  import Mb = MbService
  import opened EventDelivery
  import MbExecution
  import PrepareRuns
  import MbServiceRuns
  import MbDelivery

  /** An item of the output stream. */
  datatype Item = FromPrepare(out: Out) | FromMb(event: Mb.Out)

  /** Headers and events of EBs are one set of rows, read by both sides. */
  predicate SameEbs(db: Db, mbs: Mb.Db) {
    db.blocks.headers == mbs.chain.headers && db.blocks.events == mbs.chain.events
  }

  lemma {:induction false} PrepareAllKeepsBlocks(db: Db, chain: seq<BlockData>, orders: Orders)
    ensures PrepareAll(db, chain, orders).0.blocks == db.blocks
    decreases |chain|
  {
    if chain != [] && PrepareOne(db, chain[0], orders).Ok? {
      PrepareAllKeepsBlocks(PrepareOne(db, chain[0], orders).value, chain[1..], orders);
    }
  }

  /** Polling codes and blocks writes no EB row. */
  lemma PollKeepsBlocks(s: System, codes: CodesPoll, orders: Orders)
    ensures Poll(s, codes, orders).0.db.blocks == s.db.blocks
  {
    hide PrepareAll, UnpreparedChain, Missing, StoreCode;
    if s.state.WaitingForCodes? {
      PrepareAllKeepsBlocks(s.db, s.state.chain, orders);
    } else if s.input != [] {
      match UnpreparedChain(s.db, s.input[|s.input| - 1]) {
        case Ok(chain) => PrepareAllKeepsBlocks(s.db, chain, orders);
        case Err(_) =>
      }
    }
  }

  class ComputeService {
    const codes: CodesSubService
    const prepare: PrepareSubService
    const mb: Mb.ComputeSubService

    ghost predicate Valid()
      reads this, codes, prepare, prepare.store, mb
    {
      codes.store == prepare.store && prepare.Valid() && Mb.Wf(mb.View()) && SameEbs(prepare.store.db, mb.db)
    }

    function View(): System
      reads this, codes, prepare, prepare.store
    {
      prepare.View(codes.processions)
    }

    constructor (store: Store, env: Mb.Env, db: Mb.Db)
      requires SameEbs(store.db, db)
      ensures Valid() && fresh(codes) && fresh(prepare) && fresh(mb) && prepare.store == store && mb.env == env
      ensures View() == System(store.db, [], [], Start)
      ensures mb.View() == Mb.Machine(db, [], [], [], None, None, None, None)
    {
      var c := new CodesSubService(store);
      var p := new PrepareSubService(store);
      var m := new Mb.ComputeSubService(env, db);
      codes := c;
      prepare := p;
      mb := m;
    }

    method ProcessCode(code: CodeId)
      requires Valid()
      modifies codes
      ensures Valid() && View() == WithCode(old(View()), code) && mb.View() == old(mb.View())
    {
      codes.ReceiveCodeToProcess(code);
    }

    method PrepareBlock(block: Hash)
      requires Valid()
      modifies prepare
      ensures Valid() && View() == WithBlock(old(View()), block) && mb.View() == old(mb.View())
    {
      prepare.ReceiveBlockToPrepare(block);
    }

    method ComputeMb(head: Hash, policy: Mb.PromisePolicy)
      requires Valid()
      modifies mb
      ensures Valid() && View() == old(View()) && mb.View() == Mb.ReceiveMb(old(mb.View()), head, policy)
    {
      mb.Receive(head, policy);
    }

    method ProcessFinalizedMbEvents(head: Hash)
      requires Valid()
      modifies mb
      ensures Valid() && View() == old(View()) && mb.View() == Mb.ReceiveFinalizedMbEvents(old(mb.View()), head)
    {
      mb.ReceiveFinalized(head);
    }

    /** `poll_next`: a processed code reaches the prepare sub-service before it is emitted; the MB sub-service is
        polled when the other two have nothing. */
    method PollNext(poll: CodesPoll, orders: Orders, work: seq<Mb.Choice>) returns (item: Option<Item>, sent: seq<Mb.Sent>)
      requires Valid() && OrdersFit(prepare.store.db.blocks, orders)
      modifies codes, prepare, prepare.store, mb
      ensures Valid()
      ensures View() == Poll(old(View()), poll, orders).0
      ensures var out := Poll(old(View()), poll, orders).1;
        if out.Some? then item == Some(FromPrepare(out.value)) && sent == [] && mb.View() == old(mb.View())
        else
          var polled := Mb.Poll(mb.env, old(mb.View()), work);
          && mb.View() == polled.next && sent == polled.sent
          && item == (if polled.out.Some? then Some(FromMb(polled.out.value)) else None)
    {
      sent := [];
      PollKeepsBlocks(View(), poll, orders);
      MbDelivery.PollKeepsChain(mb.env, mb.View(), work);
      var processed := codes.PollNext(poll);
      if processed.Some? {
        if processed.value.Err? {
          return Some(FromPrepare(CodeFailed)), [];
        }
        prepare.ReceiveProcessed(processed.value.value);
        return Some(FromPrepare(CodeProcessed(processed.value.value))), [];
      }
      var out := prepare.PollNext(orders, codes.processions);
      if out.Some? {
        return Some(FromPrepare(out.value)), [];
      }
      var event;
      event, sent := mb.PollNext(work);
      item := if event.Some? then Some(FromMb(event.value)) else None;
    }
  }

  // ---------------------------------------------------------------------
  // Runs of all three

  datatype World = World(blocks: PrepareRuns.World, mbs: MbServiceRuns.World)

  /** A call that concerns one side only, a proposal, new EB rows, which both sides see, or a poll of the whole service. */
  datatype Step =
    | OfBlocks(blocksStep: PrepareRuns.Step)
    | OfMbs(mbsStep: MbServiceRuns.Step)
    | NewEbs(blocks: AcyclicBlocks, chain: AcyclicDb)
    | PollAll(codes: CodesPoll, orders: Orders, work: seq<Mb.Choice>)

  ghost predicate Follows(env: Mb.Env, w: World, step: Step, w': World) {
    match step
    case OfBlocks(s) => (s.SubmitCode? || s.SubmitBlock?) && PrepareRuns.Follows(w.blocks, s, w'.blocks) && w'.mbs == w.mbs
    case OfMbs(s) =>
      && !s.PollStep? && MbServiceRuns.Follows(env, w.mbs, s, w'.mbs) && w'.blocks == w.blocks
      && (s.NewChainData? ==> MbDelivery.AddsProposal(w.mbs.m.db.chain, s.chain))
    case NewEbs(blocks, chain) =>
      && PrepareRuns.Follows(w.blocks, PrepareRuns.NewBlocks(blocks), w'.blocks)
      && MbServiceRuns.Follows(env, w.mbs, MbServiceRuns.NewChainData(chain), w'.mbs)
      && MbDelivery.AddsEbs(w.mbs.m.db.chain, chain)
      && chain.headers == blocks.headers && chain.events == blocks.events
    case PollAll(codes, orders, work) =>
      && PrepareRuns.Follows(w.blocks, PrepareRuns.PollStep(codes, orders), w'.blocks)
      && if Poll(w.blocks.s, codes, orders).1.Some? then w'.mbs == w.mbs
         else MbServiceRuns.Follows(env, w.mbs, MbServiceRuns.PollStep(work), w'.mbs)
  }

  ghost predicate IsRun(env: Mb.Env, roots: set<Hash>, worlds: seq<World>, steps: seq<Step>) {
    && |worlds| == |steps| + 1
    && PrepareRuns.Initial(roots, worlds[0].blocks) && MbServiceRuns.Initial(env, worlds[0].mbs)
    && RowsRight(worlds[0])
    && forall i :: 0 <= i < |steps| ==> Follows(env, worlds[i], steps[i], worlds[i + 1])
  }

  /** One set of EB rows, a chain of EBs, and MBs with their anchors. */
  ghost predicate RowsRight(w: World) {
    SameEbs(w.blocks.s.db, w.mbs.m.db) && Persisted(w.mbs.m.db.chain) && MbDelivery.EbsRight(w.mbs.m.db.chain)
  }

  lemma StepKeepsRows(env: Mb.Env, w: World, step: Step, w': World)
    requires RowsRight(w) && Mb.Wf(w.mbs.m) && Follows(env, w, step, w')
    ensures RowsRight(w')
  {
    hide Persisted, MbDelivery.EbsRight, MbDelivery.AddsEbs, MbDelivery.AddsProposal;
    hide Poll, MbServiceRuns.Next;
    match step {
      case OfBlocks(_) =>
      case OfMbs(s) =>
        MbDelivery.ChainStays(env, w.mbs, s);
        if s.NewChainData? {
          MbDelivery.ChainStepKeeps(w.mbs.m.db.chain, s.chain);
          ProposalKeepsEbs(w.mbs.m.db.chain, s.chain);
        }
      case NewEbs(blocks, chain) =>
        MbDelivery.ChainStays(env, w.mbs, MbServiceRuns.NewChainData(chain));
        MbDelivery.ChainStepKeeps(w.mbs.m.db.chain, chain);
      case PollAll(codes, orders, work) =>
        PollKeepsBlocks(w.blocks.s, codes, orders);
        MbDelivery.ChainStays(env, w.mbs, MbServiceRuns.PollStep(work));
    }
  }

  lemma ProposalKeepsEbs(s: ChainDb, s': ChainDb)
    requires MbDelivery.AddsProposal(s, s')
    ensures s'.headers == s.headers && s'.events == s.events
  {
    var mb, compact, ops :| IsProposal(s, mb, compact, ops) && s' == PersistSteps(s, mb, compact, ops, 3);
    PersistedSoFar(s, mb, compact, ops, 3);
  }

  lemma StepKeeps(env: Mb.Env, roots: set<Hash>, w: World, step: Step, w': World)
    requires PrepareRuns.Safe(roots, w.blocks) && MbServiceRuns.Safe(env, w.mbs) && Mb.Wf(w.mbs.m)
    requires Follows(env, w, step, w')
    ensures PrepareRuns.Safe(roots, w'.blocks) && MbServiceRuns.Safe(env, w'.mbs) && Mb.Wf(w'.mbs.m)
  {
    hide PrepareRuns.Safe, MbServiceRuns.Safe, PrepareRuns.Next, MbServiceRuns.Next, Poll;
    hide MbDelivery.AddsEbs, MbDelivery.AddsProposal;
    match step {
      case OfBlocks(s) => PrepareRuns.NextKeeps(roots, w.blocks, s);
      case OfMbs(s) => MbServiceRuns.NextKeeps(env, w.mbs, s);
      case NewEbs(blocks, chain) =>
        PrepareRuns.NextKeeps(roots, w.blocks, PrepareRuns.NewBlocks(blocks));
        MbServiceRuns.NextKeeps(env, w.mbs, MbServiceRuns.NewChainData(chain));
      case PollAll(codes, orders, work) =>
        PrepareRuns.NextKeeps(roots, w.blocks, PrepareRuns.PollStep(codes, orders));
        if Poll(w.blocks.s, codes, orders).1.None? {
          MbServiceRuns.NextKeeps(env, w.mbs, MbServiceRuns.PollStep(work));
        }
    }
  }

  lemma InitiallySafe(env: Mb.Env, roots: set<Hash>, w: World)
    requires PrepareRuns.Initial(roots, w.blocks) && MbServiceRuns.Initial(env, w.mbs)
    ensures PrepareRuns.Safe(roots, w.blocks) && MbServiceRuns.Safe(env, w.mbs) && Mb.Wf(w.mbs.m)
  {
    hide PrepareRuns.Safe, MbServiceRuns.Safe, PrepareRuns.Initial, MbServiceRuns.Initial;
    PrepareRuns.EveryRunIsSafe(roots, [w.blocks], [], 0);
    MbServiceRuns.EveryRunIsSafe(env, [w.mbs], [], 0);
  }

  /** In every run of the whole service, in which the MB sub-service is polled only when codes and blocks have nothing to
      yield and EB rows are shared, both sides are safe in every state and the shared rows stay right. */
  lemma {:induction false} EveryRunIsSafe(env: Mb.Env, roots: set<Hash>, worlds: seq<World>, steps: seq<Step>, n: nat)
    requires IsRun(env, roots, worlds, steps) && n < |worlds|
    ensures PrepareRuns.Safe(roots, worlds[n].blocks) && MbServiceRuns.Safe(env, worlds[n].mbs)
    ensures Mb.Wf(worlds[n].mbs.m) && RowsRight(worlds[n])
  {
    hide RowsRight, Follows, PrepareRuns.Safe, MbServiceRuns.Safe, PrepareRuns.Initial, MbServiceRuns.Initial;
    if n == 0 {
      InitiallySafe(env, roots, worlds[0]);
    } else {
      var i := n - 1;
      EveryRunIsSafe(env, roots, worlds, steps, i);
      assert Follows(env, worlds[i], steps[i], worlds[i + 1]);
      StepKeeps(env, roots, worlds[i], steps[i], worlds[i + 1]);
      StepKeepsRows(env, worlds[i], steps[i], worlds[i + 1]);
    }
  }

  // ---------------------------------------------------------------------
  // What both sides together guarantee

  /** No block of the path above position `i` is a root. */
  predicate AboveRoots(roots: set<Hash>, path: seq<Hash>, i: nat) {
    forall j :: i < j < |path| ==> path[j] !in roots
  }

  /** All blocks on the way from a prepared block down to a root are prepared. */
  lemma {:induction false} PathPrepared(roots: set<Hash>, db: Db, path: seq<Hash>, i: nat)
    requires PrepareRuns.AncestorsPrepared(roots, db) && i < |path| && AboveRoots(roots, path, i)
    requires forall j :: 0 <= j < |path| ==> path[j] in db.blocks.headers
    requires forall j :: 0 < j < |path| ==> db.blocks.headers[path[j]].parent == path[j - 1]
    requires db.Meta(path[|path| - 1]).prepared
    ensures db.Meta(path[i]).prepared
    decreases |path| - i
  {
    if i < |path| - 1 {
      PathPrepared(roots, db, path, i + 1);
    }
  }

  /** Main result on both sides: in every run, when the anchor of a computed MB is prepared, the EBs whose request events
      were executed up to this MB are exactly those from genesis to the anchor, each once; all of them down to the
      roots are prepared; and of those prepared by the run, every code reported as validated has a known validity. */
  lemma ExecutedEbsPrepared(env: Mb.Env, roots: set<Hash>, worlds: seq<World>, steps: seq<Step>, n: nat, mb: Hash, i: nat)
    requires IsRun(env, roots, worlds, steps) && n < |worlds| && mb in worlds[n].mbs.m.db.rows.computed
    requires worlds[n].mbs.m.db.chain.Advanced(mb) != ZERO
    requires worlds[n].blocks.s.db.Meta(worlds[n].mbs.m.db.chain.Advanced(mb)).prepared
    ensures var s, db := worlds[n].mbs.m.db.chain, worlds[n].blocks.s.db;
      && s.EbAcyclic() && MbExecution.Replay(s, env.seed, env.process, mb).Ok?
      && var path := PathTo(s, s.Advanced(mb));
        && DeliversLogs(s, path, DeliveredUpTo(s, env.seed, env.process, mb)) && Distinct(path)
        && path != [] && path[0] == s.genesis
        && (i < |path| && AboveRoots(roots, path, i) ==>
              && db.Meta(path[i]).prepared
              && (path[i] in worlds[n].blocks.h.prepared ==>
                    path[i] in s.events && Validated(s.events[path[i]]) <= db.codeValid.Keys))
  {
    hide IsRun, MbServiceRuns.OutputRight, MbServiceRuns.FieldsRight, MbServiceRuns.NoRepeats, MbExecution.LastAdvance, DeliversLogs;
    EveryRunIsSafe(env, roots, worlds, steps, n);
    var s, db := worlds[n].mbs.m.db.chain, worlds[n].blocks.s.db;
    ComputedReplays(env, worlds[n], mb);
    EventsDeliveredExactlyOnce(s, env.seed, env.process, mb);
    PathShape(s, s.Advanced(mb));
    var path := PathTo(s, s.Advanced(mb));
    if i < |path| && AboveRoots(roots, path, i) {
      PathPrepared(roots, db, path, i);
      if path[i] in worlds[n].blocks.h.prepared {
        assert PrepareRuns.PreparedRight(db, path[i]);
      }
    }
  }

  lemma ComputedReplays(env: Mb.Env, w: World, mb: Hash)
    requires MbServiceRuns.Safe(env, w.mbs) && mb in w.mbs.m.db.rows.computed
    ensures MbExecution.Replay(w.mbs.m.db.chain, env.seed, env.process, mb).Ok?
  {
    assert mb != ZERO ==> MbServiceRuns.StoredRight(env, w.mbs.m.db, mb);
  }
}
