/**
 Runs of the MB sub-service whose chain data is written by whole proposals and
 by the observer of Ethereum: events are delivered exactly once in all of them.
 */
module MbDelivery {
  import opened Base
  import opened Chain
  import opened MbExecution
  import opened EventDelivery
  import opened MbService
  import opened MbServiceRuns

  /** What is known of Ethereum: heights decrease along parent links, and only genesis has the zero hash as parent. */
  ghost predicate EbsRight(s: ChainDb) {
    s.EbAcyclic() && OnlyGenesisIsRoot(s)
  }

  /** New EB rows, and nothing else. */
  ghost predicate AddsEbs(s: ChainDb, s': ChainDb) {
    && s' == s.(headers := s'.headers, events := s'.events)
    && Extends(s.headers, s'.headers) && Extends(s.events, s'.events) && EbsRight(s')
  }

  /** One whole proposal. */
  ghost predicate AddsProposal(s: ChainDb, s': ChainDb) {
    exists mb, compact, ops :: IsProposal(s, mb, compact, ops) && s' == PersistSteps(s, mb, compact, ops, 3)
  }

  /** A run from a database that was written proposal by proposal, in which chain data goes on being written so. */
  ghost predicate IsPersistedRun(env: Env, worlds: seq<World>, steps: seq<Step>) {
    && IsRun(env, worlds, steps)
    && Persisted(worlds[0].m.db.chain) && EbsRight(worlds[0].m.db.chain)
    && forall i :: 0 <= i < |steps| && steps[i].NewChainData? ==>
      AddsEbs(worlds[i].m.db.chain, steps[i].chain) || AddsProposal(worlds[i].m.db.chain, steps[i].chain)
  }

  /** Both ways of writing chain data are allowed in a run and keep what is persisted right. */
  lemma ChainStepKeeps(s: ChainDb, s': ChainDb)
    requires s.MbAcyclic() && Persisted(s) && EbsRight(s) && (AddsEbs(s, s') || AddsProposal(s, s'))
    ensures Persisted(s') && EbsRight(s') && s'.MbAcyclic() && s.Grows(s')
  {
    hide LastAdvance, PersistSteps;
    if AddsProposal(s, s') {
      hide Persisted;
      var mb, compact, ops :| IsProposal(s, mb, compact, ops) && s' == PersistSteps(s, mb, compact, ops, 3);
      ProposalKeeps(s, mb, compact, ops);
    }
  }

  /** Only new chain data changes chain data. */
  lemma ChainStays(env: Env, w: World, step: Step)
    requires Wf(w.m)
    ensures Next(env, w, step).m.db.chain == if step.NewChainData? then step.chain else w.m.db.chain
  {
    hide Poll;
    match step {
      case PollStep(work) => PollKeepsChain(env, w.m, work);
      case _ =>
    }
  }

  lemma {:induction false} WorkKeepsChain(env: Env, m: Machine, work: seq<Choice>)
    requires Wf(m)
    ensures WorkAll(env, m, work).0.db.chain == m.db.chain
    decreases |work|
  {
    hide TaskStep;
    if work != [] {
      WorkKeepsWf(env, m, work[0]);
      WorkKeepsChain(env, Work(env, m, work[0]).0, work[1..]);
    }
  }

  lemma WorkKeepsWf(env: Env, m: Machine, choice: Choice)
    requires Wf(m)
    ensures Wf(Work(env, m, choice).0)
  {
  }

  lemma PollKeepsChain(env: Env, m: Machine, work: seq<Choice>)
    requires Wf(m)
    ensures Poll(env, m, work).next.db.chain == m.db.chain
  {
    hide ForwardFinalized, Advance;
    AdvanceKeepsChain(env, m, work);
    AdvanceKeepsChain(env, StartNext(ForwardFinalized(m).0), work);
  }

  lemma AdvanceKeepsChain(env: Env, m: Machine, work: seq<Choice>)
    requires Wf(m)
    ensures Advance(env, m, work).next.db.chain == m.db.chain
  {
    hide WorkAll;
    WorkKeepsChain(env, m, work);
    WorkKeepsChain(env, m.(stream := None), work);
  }

  /** In every state of such a run every persisted MB has its operations, a persisted parent and its anchor. */
  lemma {:induction false} EveryStatePersisted(env: Env, worlds: seq<World>, steps: seq<Step>, n: nat)
    requires IsPersistedRun(env, worlds, steps) && n < |worlds|
    ensures Persisted(worlds[n].m.db.chain) && EbsRight(worlds[n].m.db.chain)
  {
    hide Persisted, EbsRight, AddsEbs, AddsProposal, Next, Safe;
    if n > 0 {
      var k := n - 1;
      EveryStatePersisted(env, worlds, steps, k);
      EveryRunIsSafe(env, worlds, steps, k);
      assert Follows(env, worlds[k], steps[k], worlds[k + 1]);
      ChainStays(env, worlds[k], steps[k]);
      if steps[k].NewChainData? {
        ChainStepKeeps(worlds[k].m.db.chain, steps[k].chain);
      }
    }
  }

  /** Main result: in every such run, the events that led to a computed MB are the request events in the logs of the EBs
      from genesis to its anchor, each block exactly once and in log order. */
  lemma ComputedMbsDeliverEventsOnce(env: Env, worlds: seq<World>, steps: seq<Step>, n: nat, mb: Hash)
    requires IsPersistedRun(env, worlds, steps) && n < |worlds| && mb in worlds[n].m.db.rows.computed
    ensures var s := worlds[n].m.db.chain;
      && s.EbAcyclic() && Replay(s, env.seed, env.process, mb).Ok? && Rooted(s, s.Advanced(mb))
      && DeliversLogs(s, PathTo(s, s.Advanced(mb)), DeliveredUpTo(s, env.seed, env.process, mb))
      && Distinct(PathTo(s, s.Advanced(mb)))
  {
    hide LastAdvance;
    EveryStatePersisted(env, worlds, steps, n);
    EveryRunIsSafe(env, worlds, steps, n);
    assert mb != ZERO ==> StoredRight(env, worlds[n].m.db, mb);
    EventsDeliveredExactlyOnce(worlds[n].m.db.chain, env.seed, env.process, mb);
  }
}
