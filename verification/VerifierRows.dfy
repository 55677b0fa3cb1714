/**
 What the integrity verifier checks, said over the rows of the database only: an
 accepted chain has every row that its blocks lead to, and a chain with all of
 them is accepted.
 */
module VerifierRows {
  import opened Base
  import opened Chain
  import opened Iterator
  import opened Verifier
  import opened VerifierExact

  // ---------------------------------------------------------------------
  // Rows, from codes up to the chain.  `sizes` says whether cached queue sizes have to be right as well.

  /** A code is valid, has its three rows, and its metadata has the length of its original bytes. */
  predicate CodeThere(env: Env, code: CodeId) {
    && Lookup(env.db.codeValid, code) == Some(true)
    && code in env.db.originals && code in env.db.instrumented
    && Lookup(env.db.codeMetadata, code) == Some(|env.db.originals[code]| % U32)
  }

  predicate ProgramThere(env: Env, actor: Actor) {
    actor in env.db.programCode && CodeThere(env, env.db.programCode[actor])
  }

  predicate MessagesThere(env: Env, messages: seq<Dispatch>) {
    forall i :: 0 <= i < |messages| && messages[i].payload.Stored? ==> messages[i].payload.payloadHash in env.db.payloads
  }

  /** Allocations and memory pages of an active program, down to every page. */
  predicate MemoryThere(env: Env, program: Program) {
    program.Active? ==>
      && (program.allocations.Some? ==> program.allocations.value in env.db.allocations)
      && (program.pages.Some? ==>
            program.pages.value in env.db.memoryPages && RegionsThere(env, env.db.memoryPages[program.pages.value]))
  }

  predicate RegionsThere(env: Env, regions: seq<Option<Hash>>) {
    forall i :: 0 <= i < |regions| && regions[i].Some? ==>
      regions[i].value in env.db.regions && PagesThere(env, env.db.regions[regions[i].value])
  }

  predicate PagesThere(env: Env, pages: seq<Hash>) {
    forall i :: 0 <= i < |pages| ==> pages[i] in env.db.pages
  }

  predicate QueueThere(env: Env, sizes: bool, q: QueueHashWithSize) {
    q.hash.Some? ==>
      && q.hash.value in env.db.queues && MessagesThere(env, env.db.queues[q.hash.value])
      && (sizes ==> q.cachedSize == |env.db.queues[q.hash.value]| % U8)
  }

  predicate WaitlistThere(env: Env, waitlist: Option<Hash>) {
    waitlist.Some? ==> waitlist.value in env.db.waitlists && MessagesThere(env, env.db.waitlists[waitlist.value])
  }

  predicate StashThere(env: Env, stash: Option<Hash>) {
    stash.Some? ==> stash.value in env.db.stashes && MessagesThere(env, env.db.stashes[stash.value])
  }

  predicate MailboxThere(env: Env, mailbox: Option<Hash>) {
    mailbox.Some? ==> mailbox.value in env.db.mailboxes && UsersThere(env, env.db.mailboxes[mailbox.value])
  }

  predicate UsersThere(env: Env, users: seq<Hash>) {
    forall i :: 0 <= i < |users| ==> users[i] in env.db.userMailboxes && MessagesThere(env, env.db.userMailboxes[users[i]])
  }

  predicate StateThere(env: Env, sizes: bool, state: ProgramState) {
    && MemoryThere(env, state.program)
    && QueueThere(env, sizes, state.canonicalQueue) && QueueThere(env, sizes, state.injectedQueue)
    && WaitlistThere(env, state.waitlist) && StashThere(env, state.stash) && MailboxThere(env, state.mailbox)
  }

  /** A state hash is the zero one, whose state is empty, or has its row. */
  predicate StateHashThere(env: Env, sizes: bool, hash: Hash) {
    hash != ZERO ==> hash in env.db.states && StateThere(env, sizes, env.db.states[hash])
  }

  predicate StatesThere(env: Env, sizes: bool, states: seq<Hash>) {
    forall i :: 0 <= i < |states| ==> StateHashThere(env, sizes, states[i])
  }

  predicate OutcomeThere(env: Env, sizes: bool, outcome: seq<Transition>) {
    forall i :: 0 <= i < |outcome| ==> ProgramThere(env, outcome[i].actor) && StateHashThere(env, sizes, outcome[i].newState)
  }

  /** All tasks lie above the height of their MB and are for known programs. */
  predicate ScheduleThere(env: Env, mb: Hash, schedule: seq<(nat, seq<Task>)>) {
    forall i :: 0 <= i < |schedule| ==> DueTasksThere(env, mb, schedule[i].0, schedule[i].1)
  }

  predicate DueTasksThere(env: Env, mb: Hash, height: nat, tasks: seq<Task>) {
    mb in env.db.mbs && env.db.mbs[mb].height < height && TasksThere(env, tasks)
  }

  predicate TasksThere(env: Env, tasks: seq<Task>) {
    forall i :: 0 <= i < |tasks| ==> ProgramThere(env, tasks[i].program)
  }

  /** A computed MB has outcome and states, and its schedule, if it has one, is right. */
  predicate MbThere(env: Env, sizes: bool, mb: Hash) {
    env.db.MbMeta(mb).0 ==>
      && mb in env.db.mbOutcomes && OutcomeThere(env, sizes, env.db.mbOutcomes[mb])
      && mb in env.db.mbStates && StatesThere(env, sizes, env.db.mbStates[mb])
      && (mb in env.db.mbSchedules ==> ScheduleThere(env, mb, env.db.mbSchedules[mb]))
  }

  /** The metadata of a block is complete, its committed MB is there, and so are the codes in its queue. */
  predicate MetaThere(env: Env, sizes: bool, meta: BlockMeta) {
    && meta.prepared && meta.lastCommittedBatch.Some? && meta.lastCommittedMb.Some? && meta.latestEra.Some?
    && (meta.lastCommittedMb.value != ZERO ==>
          meta.lastCommittedMb.value in env.db.mbs && MbThere(env, sizes, meta.lastCommittedMb.value))
    && meta.codesQueue.Some? && CodesThere(env, meta.codesQueue.value)
  }

  predicate CodesThere(env: Env, codes: seq<CodeId>) {
    forall i :: 0 <= i < |codes| ==> CodeThere(env, codes[i])
  }

  /** The block stands directly above its parent; only the bottom block needs none. */
  predicate HeaderThere(env: Env, block: Hash) {
    && block in env.db.headers
    && var header := env.db.headers[block];
      if header.parent in env.db.headers then
        && env.db.headers[header.parent].height + 1 == header.height
        && env.db.headers[header.parent].timestamp <= header.timestamp
      else env.bottom == Some(block)
  }

  predicate BlockThere(env: Env, sizes: bool, block: Hash) {
    && HeaderThere(env, block) && block in env.db.events && block in env.db.synced
    && MetaThere(env, sizes, env.db.Meta(block))
  }

  /** The blocks from the head down to the bottom, by parent links. */
  predicate IsChain(db: Db, blocks: seq<Hash>, head: Hash, bottom: Hash) {
    && blocks != [] && blocks[0] == head && blocks[|blocks| - 1] == bottom
    && (forall i :: 0 <= i < |blocks| - 1 ==>
          blocks[i] != bottom && blocks[i] in db.headers && db.headers[blocks[i]].parent == blocks[i + 1])
  }

  predicate BlocksThere(env: Env, sizes: bool, blocks: seq<Hash>) {
    forall i :: 0 <= i < |blocks| ==> BlockThere(env, sizes, blocks[i])
  }

  /** The head leads to the bottom, and every block on the way is there with everything it leads to. */
  ghost predicate ChainThere(env: Env, sizes: bool, head: Hash, bottom: Hash) {
    exists blocks :: IsChain(env.db, blocks, head, bottom) && BlocksThere(env, sizes, blocks)
  }

  // ---------------------------------------------------------------------
  // The same by references

  /** What the verifier accepts of one node; queue sizes are looked at only if asked for. */
  predicate Accepts(env: Env, sizes: bool, node: Node) {
    if node.QueueHashWithSizeNode? then sizes ==> RightSize(env, node.queueRef) else Acceptable(env, node)
  }

  /** The node and everything it leads to is accepted. */
  ghost predicate Sound(env: Env, sizes: bool, node: Node)
    decreases Rank(node)
  {
    ChildrenRank(env.db, node);
    Accepts(env, sizes, node) &&
    forall i :: 0 <= i < |Children(env.db, node)| ==> Sound(env, sizes, Children(env.db, node)[i])
  }

  ghost predicate AllSound(env: Env, sizes: bool, nodes: seq<Node>) {
    forall i :: 0 <= i < |nodes| ==> Sound(env, sizes, nodes[i])
  }

  lemma SoundHere(env: Env, sizes: bool, node: Node)
    ensures Sound(env, sizes, node) <==> Accepts(env, sizes, node) && AllSound(env, sizes, Children(env.db, node))
  {
    hide Children, Accepts;
  }

  lemma Leaf(env: Env, sizes: bool, node: Node)
    requires Children(env.db, node) == []
    ensures Sound(env, sizes, node) <==> Accepts(env, sizes, node)
  {
    hide Children, Accepts;
    SoundHere(env, sizes, node);
  }

  lemma Missing(env: Env, sizes: bool, error: IteratorError)
    ensures !Sound(env, sizes, ErrorNode(error))
  {
  }

  lemma AllSoundConcat(env: Env, sizes: bool, a: seq<Node>, b: seq<Node>)
    ensures AllSound(env, sizes, a + b) <==> AllSound(env, sizes, a) && AllSound(env, sizes, b)
  {
    hide Sound;
    if AllSound(env, sizes, a + b) {
      forall i | 0 <= i < |a|
        ensures Sound(env, sizes, a[i])
      {
        assert (a + b)[i] == a[i];
      }
      forall i | 0 <= i < |b|
        ensures Sound(env, sizes, b[i])
      {
        assert (a + b)[|a| + i] == b[i];
      }
    }
  }

  lemma AllSoundOne(env: Env, sizes: bool, node: Node)
    ensures AllSound(env, sizes, [node]) <==> Sound(env, sizes, node)
  {
    hide Sound;
    assert [node][0] == node;
  }

  lemma CodeSound(env: Env, sizes: bool, code: CodeId)
    ensures Sound(env, sizes, CodeIdNode(code)) <==> CodeThere(env, code)
  {
    hide Sound;
    SoundHere(env, sizes, CodeIdNode(code));
    var rows := CodeChildren(env.db, code);
    forall i | 0 <= i < 4
      ensures Sound(env, sizes, rows[i]) <==> Acceptable(env, rows[i])
    {
      Leaf(env, sizes, rows[i]);
    }
    assert AllSound(env, sizes, rows) <==>
      Sound(env, sizes, rows[0]) && Sound(env, sizes, rows[1]) && Sound(env, sizes, rows[2]) && Sound(env, sizes, rows[3]);
  }

  lemma ProgramSound(env: Env, sizes: bool, actor: Actor)
    ensures Sound(env, sizes, ProgramIdNode(actor)) <==> ProgramThere(env, actor)
  {
    hide Sound, CodeThere;
    SoundHere(env, sizes, ProgramIdNode(actor));
    AllSoundOne(env, sizes, ProgramIdChildren(env.db, actor)[0]);
    Missing(env, sizes, NoProgramCodeId(actor));
    if actor in env.db.programCode {
      CodeSound(env, sizes, env.db.programCode[actor]);
    }
  }

  lemma LookupSound(env: Env, sizes: bool, lookup: PayloadLookup)
    ensures Sound(env, sizes, PayloadLookupNode(lookup)) <==> (lookup.Stored? ==> lookup.payloadHash in env.db.payloads)
  {
    hide Sound;
    SoundHere(env, sizes, PayloadLookupNode(lookup));
    var row := PayloadChildren(env.db, lookup)[0];
    AllSoundOne(env, sizes, row);
    Leaf(env, sizes, row);
  }

  lemma MessagesSound(env: Env, sizes: bool, messages: seq<Dispatch>)
    ensures AllSound(env, sizes, Payloads(messages)) <==> MessagesThere(env, messages)
  {
    hide Sound;
    forall i | 0 <= i < |messages|
      ensures Sound(env, sizes, Payloads(messages)[i]) <==>
              (messages[i].payload.Stored? ==> messages[i].payload.payloadHash in env.db.payloads)
    {
      LookupSound(env, sizes, messages[i].payload);
    }
  }

  /** Queues, waitlists, stashes and user mailboxes are as sound as their messages. */
  lemma ListSound(env: Env, sizes: bool, node: Node, messages: seq<Dispatch>)
    requires || node == MessageQueueNode(messages) || node == WaitlistNode(messages)
             || node == DispatchStashNode(messages) || node == UserMailboxNode(messages)
    ensures Sound(env, sizes, node) <==> MessagesThere(env, messages)
  {
    hide Sound, MessagesThere;
    SoundHere(env, sizes, node);
    MessagesSound(env, sizes, messages);
  }

  lemma QueueSound(env: Env, sizes: bool, q: QueueHashWithSize)
    ensures Sound(env, sizes, QueueHashWithSizeNode(q)) <==> QueueThere(env, sizes, q)
  {
    hide Sound, MessagesThere;
    SoundHere(env, sizes, QueueHashWithSizeNode(q));
    if q.hash.Some? {
      var h := q.hash.value;
      AllSoundOne(env, sizes, QueueChildren(env.db, q)[0]);
      Missing(env, sizes, NoMessageQueue(h));
      if h in env.db.queues {
        ListSound(env, sizes, MessageQueueNode(env.db.queues[h]), env.db.queues[h]);
      }
    }
  }

  lemma WaitlistSound(env: Env, sizes: bool, waitlist: Option<Hash>)
    ensures AllSound(env, sizes, WaitlistRow(env.db, waitlist)) <==> WaitlistThere(env, waitlist)
  {
    hide Sound, MessagesThere;
    if waitlist.Some? {
      var h := waitlist.value;
      AllSoundOne(env, sizes, WaitlistRow(env.db, waitlist)[0]);
      Missing(env, sizes, NoWaitlist(h));
      if h in env.db.waitlists {
        ListSound(env, sizes, WaitlistNode(env.db.waitlists[h]), env.db.waitlists[h]);
      }
    }
  }

  lemma StashSound(env: Env, sizes: bool, stash: Option<Hash>)
    ensures AllSound(env, sizes, StashRow(env.db, stash)) <==> StashThere(env, stash)
  {
    hide Sound, MessagesThere;
    if stash.Some? {
      var h := stash.value;
      AllSoundOne(env, sizes, StashRow(env.db, stash)[0]);
      Missing(env, sizes, NoDispatchStash(h));
      if h in env.db.stashes {
        ListSound(env, sizes, DispatchStashNode(env.db.stashes[h]), env.db.stashes[h]);
      }
    }
  }

  lemma UsersSound(env: Env, sizes: bool, users: seq<Hash>)
    ensures Sound(env, sizes, MailboxNode(users)) <==> UsersThere(env, users)
  {
    hide Sound, MessagesThere;
    SoundHere(env, sizes, MailboxNode(users));
    forall i | 0 <= i < |users|
      ensures Sound(env, sizes, MailboxChildren(env.db, users)[i]) <==>
              users[i] in env.db.userMailboxes && MessagesThere(env, env.db.userMailboxes[users[i]])
    {
      Missing(env, sizes, NoUserMailbox(users[i]));
      if users[i] in env.db.userMailboxes {
        var messages := env.db.userMailboxes[users[i]];
        ListSound(env, sizes, UserMailboxNode(messages), messages);
      }
    }
  }

  lemma MailboxSound(env: Env, sizes: bool, mailbox: Option<Hash>)
    ensures AllSound(env, sizes, MailboxRow(env.db, mailbox)) <==> MailboxThere(env, mailbox)
  {
    hide Sound, UsersThere;
    if mailbox.Some? {
      var h := mailbox.value;
      AllSoundOne(env, sizes, MailboxRow(env.db, mailbox)[0]);
      Missing(env, sizes, NoMailbox(h));
      if h in env.db.mailboxes {
        UsersSound(env, sizes, env.db.mailboxes[h]);
      }
    }
  }

  lemma PagesSound(env: Env, sizes: bool, pages: seq<Hash>)
    ensures Sound(env, sizes, MemoryPagesRegionNode(pages)) <==> PagesThere(env, pages)
  {
    hide Sound;
    SoundHere(env, sizes, MemoryPagesRegionNode(pages));
    forall i | 0 <= i < |pages|
      ensures Sound(env, sizes, PagesChildren(env.db, pages)[i]) <==> pages[i] in env.db.pages
    {
      Leaf(env, sizes, PagesChildren(env.db, pages)[i]);
    }
  }

  lemma {:induction false} RegionHash(regions: seq<Option<Hash>>, h: Hash)
    ensures h in RegionHashes(regions) <==> Some(h) in regions
  {
    if regions != [] {
      RegionHash(regions[1..], h);
      assert regions == [regions[0]] + regions[1..];
    }
  }

  lemma RegionsSound(env: Env, sizes: bool, regions: seq<Option<Hash>>)
    ensures Sound(env, sizes, MemoryPagesNode(regions)) <==> RegionsThere(env, regions)
  {
    hide Sound, PagesThere, RegionHashes;
    SoundHere(env, sizes, MemoryPagesNode(regions));
    var hashes := RegionHashes(regions);
    forall i | 0 <= i < |hashes|
      ensures Sound(env, sizes, RegionsChildren(env.db, hashes)[i]) <==> RegionThere(env, hashes[i])
    {
      Missing(env, sizes, NoMemoryPagesRegion(hashes[i]));
      if hashes[i] in env.db.regions {
        PagesSound(env, sizes, env.db.regions[hashes[i]]);
      }
    }
    forall h: Hash
      ensures h in hashes <==> Some(h) in regions
    {
      RegionHash(regions, h);
    }
    assert AllSound(env, sizes, RegionsChildren(env.db, hashes)) <==> forall h :: h in hashes ==> RegionThere(env, h);
    RegionsByHash(env, regions);
  }

  predicate RegionThere(env: Env, h: Hash) {
    h in env.db.regions && PagesThere(env, env.db.regions[h])
  }

  lemma RegionsByHash(env: Env, regions: seq<Option<Hash>>)
    ensures RegionsThere(env, regions) <==> forall h: Hash :: Some(h) in regions ==> RegionThere(env, h)
  {
    hide PagesThere;
    if forall h: Hash :: Some(h) in regions ==> RegionThere(env, h) {
      forall i | 0 <= i < |regions| && regions[i].Some?
        ensures RegionThere(env, regions[i].value)
      {
        assert Some(regions[i].value) in regions;
      }
    }
  }

  lemma AllocationsSound(env: Env, sizes: bool, h: Hash)
    ensures var row := if h in env.db.allocations then AllocationsNode(env.db.allocations[h]) else ErrorNode(NoAllocations(h));
      AllSound(env, sizes, [row]) <==> h in env.db.allocations
  {
    hide Sound;
    var row := if h in env.db.allocations then AllocationsNode(env.db.allocations[h]) else ErrorNode(NoAllocations(h));
    AllSoundOne(env, sizes, row);
    Leaf(env, sizes, row);
  }

  lemma MemoryPagesSound(env: Env, sizes: bool, h: Hash)
    ensures var row := if h in env.db.memoryPages then MemoryPagesNode(env.db.memoryPages[h]) else ErrorNode(NoMemoryPages(h));
      AllSound(env, sizes, [row]) <==> h in env.db.memoryPages && RegionsThere(env, env.db.memoryPages[h])
  {
    hide Sound, RegionsThere;
    var row := if h in env.db.memoryPages then MemoryPagesNode(env.db.memoryPages[h]) else ErrorNode(NoMemoryPages(h));
    AllSoundOne(env, sizes, row);
    Missing(env, sizes, NoMemoryPages(h));
    if h in env.db.memoryPages {
      RegionsSound(env, sizes, env.db.memoryPages[h]);
    }
  }

  lemma MemorySound(env: Env, sizes: bool, program: Program)
    ensures AllSound(env, sizes, ProgramChildren(env.db, program)) <==> MemoryThere(env, program)
  {
    hide Sound, RegionsThere;
    if program.Active? {
      var all := ProgramChildren(env.db, program);
      if program.allocations.Some? {
        AllocationsSound(env, sizes, program.allocations.value);
      }
      if program.pages.Some? {
        MemoryPagesSound(env, sizes, program.pages.value);
      }
      var first: seq<Node> := if program.allocations.Some? then all[..1] else [];
      var second := all[|first|..];
      assert all == first + second;
      AllSoundConcat(env, sizes, first, second);
    }
  }

  lemma StateSound(env: Env, sizes: bool, state: ProgramState)
    ensures Sound(env, sizes, ProgramStateNode(state)) <==> StateThere(env, sizes, state)
  {
    hide Sound, AllSound, ProgramChildren, WaitlistRow, StashRow, MailboxRow;
    hide MemoryThere, QueueThere, WaitlistThere, StashThere, MailboxThere;
    SoundHere(env, sizes, ProgramStateNode(state));
    var memory, queues, stored := ProgramChildren(env.db, state.program), QueueRefs(state), StoredMessagesChildren(env.db, state);
    AllSoundConcat(env, sizes, memory + queues, stored);
    AllSoundConcat(env, sizes, memory, queues);
    MemorySound(env, sizes, state.program);
    QueuesSound(env, sizes, state);
    StoredSound(env, sizes, state);
  }

  lemma QueuesSound(env: Env, sizes: bool, state: ProgramState)
    ensures AllSound(env, sizes, QueueRefs(state)) <==>
            QueueThere(env, sizes, state.canonicalQueue) && QueueThere(env, sizes, state.injectedQueue)
  {
    hide Sound, QueueThere;
    QueueSound(env, sizes, state.canonicalQueue);
    QueueSound(env, sizes, state.injectedQueue);
    assert AllSound(env, sizes, QueueRefs(state)) <==>
      Sound(env, sizes, QueueRefs(state)[0]) && Sound(env, sizes, QueueRefs(state)[1]);
  }

  lemma StoredSound(env: Env, sizes: bool, state: ProgramState)
    ensures AllSound(env, sizes, StoredMessagesChildren(env.db, state)) <==>
            WaitlistThere(env, state.waitlist) && StashThere(env, state.stash) && MailboxThere(env, state.mailbox)
  {
    hide Sound, AllSound, WaitlistRow, StashRow, MailboxRow, WaitlistThere, StashThere, MailboxThere;
    var waitlist, stash := WaitlistRow(env.db, state.waitlist), StashRow(env.db, state.stash);
    AllSoundConcat(env, sizes, waitlist + stash, MailboxRow(env.db, state.mailbox));
    AllSoundConcat(env, sizes, waitlist, stash);
    WaitlistSound(env, sizes, state.waitlist);
    StashSound(env, sizes, state.stash);
    MailboxSound(env, sizes, state.mailbox);
  }

  lemma StateHashSound(env: Env, sizes: bool, hash: Hash)
    ensures Sound(env, sizes, StateRow(env.db, hash)) <==> StateHashThere(env, sizes, hash)
  {
    hide Sound, StateThere;
    Missing(env, sizes, NoProgramState(hash));
    if hash == ZERO {
      StateSound(env, sizes, ZERO_STATE);
      ZeroStateThere(env, sizes);
    } else if hash in env.db.states {
      StateSound(env, sizes, env.db.states[hash]);
    }
  }

  lemma ZeroStateThere(env: Env, sizes: bool)
    ensures StateThere(env, sizes, ZERO_STATE)
  {
  }

  lemma StatesSound(env: Env, sizes: bool, mb: Hash, states: seq<Hash>)
    ensures Sound(env, sizes, MbProgramStatesNode(mb, states)) <==> StatesThere(env, sizes, states)
  {
    hide Sound, StateHashThere, StateRow;
    SoundHere(env, sizes, MbProgramStatesNode(mb, states));
    forall i | 0 <= i < |states|
      ensures Sound(env, sizes, MbProgramStatesChildren(env.db, states)[i]) <==> StateHashThere(env, sizes, states[i])
    {
      StateHashSound(env, sizes, states[i]);
    }
  }

  lemma TransitionSound(env: Env, sizes: bool, t: Transition)
    ensures Sound(env, sizes, StateTransitionNode(t)) <==> ProgramThere(env, t.actor) && StateHashThere(env, sizes, t.newState)
  {
    hide Sound, AllSound, StateThere, StateRow, ProgramThere;
    SoundHere(env, sizes, StateTransitionNode(t));
    ProgramSound(env, sizes, t.actor);
    AllSoundOne(env, sizes, ProgramIdNode(t.actor));
    if t.newState != ZERO {
      StateHashSound(env, sizes, t.newState);
      AllSoundOne(env, sizes, StateRow(env.db, t.newState));
      AllSoundConcat(env, sizes, [ProgramIdNode(t.actor)], [StateRow(env.db, t.newState)]);
    } else {
      assert [ProgramIdNode(t.actor)] + [] == [ProgramIdNode(t.actor)];
    }
  }

  lemma OutcomeSound(env: Env, sizes: bool, mb: Hash, outcome: seq<Transition>)
    ensures Sound(env, sizes, MbOutcomeNode(mb, outcome)) <==> OutcomeThere(env, sizes, outcome)
  {
    hide Sound, StateHashThere, ProgramThere;
    SoundHere(env, sizes, MbOutcomeNode(mb, outcome));
    forall i | 0 <= i < |outcome|
      ensures Sound(env, sizes, MbOutcomeChildren(outcome)[i]) <==>
              ProgramThere(env, outcome[i].actor) && StateHashThere(env, sizes, outcome[i].newState)
    {
      TransitionSound(env, sizes, outcome[i]);
    }
  }

  lemma TaskSound(env: Env, sizes: bool, task: Task)
    ensures Sound(env, sizes, ScheduledTaskNode(task)) <==> ProgramThere(env, task.program)
  {
    hide Sound, ProgramThere;
    SoundHere(env, sizes, ScheduledTaskNode(task));
    AllSoundOne(env, sizes, ProgramIdNode(task.program));
    ProgramSound(env, sizes, task.program);
  }

  lemma TasksSound(env: Env, sizes: bool, mb: Hash, height: nat, tasks: seq<Task>)
    ensures Sound(env, sizes, MbScheduleTasksNode(mb, height, tasks)) <==> DueTasksThere(env, mb, height, tasks)
  {
    hide Sound, ProgramThere;
    SoundHere(env, sizes, MbScheduleTasksNode(mb, height, tasks));
    forall i | 0 <= i < |tasks|
      ensures Sound(env, sizes, MbScheduleTasksChildren(tasks)[i]) <==> ProgramThere(env, tasks[i].program)
    {
      TaskSound(env, sizes, tasks[i]);
    }
  }

  lemma ScheduleSound(env: Env, sizes: bool, mb: Hash, schedule: seq<(nat, seq<Task>)>)
    ensures Sound(env, sizes, MbScheduleNode(mb, schedule)) <==> ScheduleThere(env, mb, schedule)
  {
    hide Sound, DueTasksThere;
    SoundHere(env, sizes, MbScheduleNode(mb, schedule));
    forall i | 0 <= i < |schedule|
      ensures Sound(env, sizes, MbScheduleChildren(mb, schedule)[i]) <==> DueTasksThere(env, mb, schedule[i].0, schedule[i].1)
    {
      TasksSound(env, sizes, mb, schedule[i].0, schedule[i].1);
    }
  }

  lemma MbRowsSound(env: Env, sizes: bool, mb: Hash)
    ensures AllSound(env, sizes, MbRows(env.db, mb)) <==>
            && mb in env.db.mbOutcomes && OutcomeThere(env, sizes, env.db.mbOutcomes[mb])
            && mb in env.db.mbStates && StatesThere(env, sizes, env.db.mbStates[mb])
            && (mb in env.db.mbSchedules ==> ScheduleThere(env, mb, env.db.mbSchedules[mb]))
  {
    hide Sound, AllSound, OutcomeThere, StatesThere, ScheduleThere;
    var schedule := if mb in env.db.mbSchedules then [MbScheduleNode(mb, env.db.mbSchedules[mb])] else [];
    var outcome := [if mb in env.db.mbOutcomes then MbOutcomeNode(mb, env.db.mbOutcomes[mb]) else ErrorNode(NoMbOutcome(mb))];
    var ids := if mb in env.db.mbCommittedIds then [MbCommittedMessageIdsNode(mb, env.db.mbCommittedIds[mb])] else [];
    var states :=
      [if mb in env.db.mbStates then MbProgramStatesNode(mb, env.db.mbStates[mb]) else ErrorNode(NoMbProgramStates(mb))];
    AllSoundConcat(env, sizes, schedule + outcome + ids, states);
    AllSoundConcat(env, sizes, schedule + outcome, ids);
    AllSoundConcat(env, sizes, schedule, outcome);
    ScheduleRowSound(env, sizes, mb);
    OutcomeRowSound(env, sizes, mb);
    IdsRowSound(env, sizes, mb);
    StatesRowSound(env, sizes, mb);
  }

  lemma ScheduleRowSound(env: Env, sizes: bool, mb: Hash)
    ensures var row := if mb in env.db.mbSchedules then [MbScheduleNode(mb, env.db.mbSchedules[mb])] else [];
      AllSound(env, sizes, row) <==> (mb in env.db.mbSchedules ==> ScheduleThere(env, mb, env.db.mbSchedules[mb]))
  {
    hide Sound, ScheduleThere;
    if mb in env.db.mbSchedules {
      AllSoundOne(env, sizes, MbScheduleNode(mb, env.db.mbSchedules[mb]));
      ScheduleSound(env, sizes, mb, env.db.mbSchedules[mb]);
    }
  }

  lemma OutcomeRowSound(env: Env, sizes: bool, mb: Hash)
    ensures var row := if mb in env.db.mbOutcomes then MbOutcomeNode(mb, env.db.mbOutcomes[mb]) else ErrorNode(NoMbOutcome(mb));
      AllSound(env, sizes, [row]) <==> mb in env.db.mbOutcomes && OutcomeThere(env, sizes, env.db.mbOutcomes[mb])
  {
    hide Sound, OutcomeThere;
    var row := if mb in env.db.mbOutcomes then MbOutcomeNode(mb, env.db.mbOutcomes[mb]) else ErrorNode(NoMbOutcome(mb));
    AllSoundOne(env, sizes, row);
    Missing(env, sizes, NoMbOutcome(mb));
    if mb in env.db.mbOutcomes {
      OutcomeSound(env, sizes, mb, env.db.mbOutcomes[mb]);
    }
  }

  lemma IdsRowSound(env: Env, sizes: bool, mb: Hash)
    ensures var row := if mb in env.db.mbCommittedIds then [MbCommittedMessageIdsNode(mb, env.db.mbCommittedIds[mb])] else [];
      AllSound(env, sizes, row)
  {
    hide Sound;
    if mb in env.db.mbCommittedIds {
      var row := MbCommittedMessageIdsNode(mb, env.db.mbCommittedIds[mb]);
      AllSoundOne(env, sizes, row);
      Leaf(env, sizes, row);
    }
  }

  lemma StatesRowSound(env: Env, sizes: bool, mb: Hash)
    ensures
      var row := if mb in env.db.mbStates then MbProgramStatesNode(mb, env.db.mbStates[mb]) else ErrorNode(NoMbProgramStates(mb));
      AllSound(env, sizes, [row]) <==> mb in env.db.mbStates && StatesThere(env, sizes, env.db.mbStates[mb])
  {
    hide Sound, StatesThere;
    var row := if mb in env.db.mbStates then MbProgramStatesNode(mb, env.db.mbStates[mb]) else ErrorNode(NoMbProgramStates(mb));
    AllSoundOne(env, sizes, row);
    Missing(env, sizes, NoMbProgramStates(mb));
    if mb in env.db.mbStates {
      StatesSound(env, sizes, mb, env.db.mbStates[mb]);
    }
  }

  lemma MbSound(env: Env, sizes: bool, mb: Hash, compact: CompactMb)
    ensures Sound(env, sizes, MbNode(mb, compact)) <==> MbThere(env, sizes, mb)
  {
    hide Sound, AllSound, MbRows, OutcomeThere, StatesThere, ScheduleThere;
    SoundHere(env, sizes, MbNode(mb, compact));
    var (computed, advanced) := env.db.MbMeta(mb);
    var meta := MbMetaNode(mb, computed, advanced);
    AllSoundOne(env, sizes, meta);
    Leaf(env, sizes, meta);
    if computed {
      AllSoundConcat(env, sizes, [meta], MbRows(env.db, mb));
      MbRowsSound(env, sizes, mb);
    } else {
      assert [meta] + [] == [meta];
    }
  }

  lemma CodesSound(env: Env, sizes: bool, codes: seq<CodeId>)
    ensures AllSound(env, sizes, CodeIds(codes)) <==> CodesThere(env, codes)
  {
    hide Sound, CodeThere;
    forall i | 0 <= i < |codes|
      ensures Sound(env, sizes, CodeIds(codes)[i]) <==> CodeThere(env, codes[i])
    {
      CodeSound(env, sizes, codes[i]);
    }
  }

  lemma CommittedSound(env: Env, sizes: bool, mb: Hash)
    ensures var row := if mb in env.db.mbs then MbNode(mb, env.db.mbs[mb]) else ErrorNode(NoMb(mb));
      AllSound(env, sizes, [row]) <==> mb in env.db.mbs && MbThere(env, sizes, mb)
  {
    hide Sound, MbThere;
    AllSoundOne(env, sizes, if mb in env.db.mbs then MbNode(mb, env.db.mbs[mb]) else ErrorNode(NoMb(mb)));
    Missing(env, sizes, NoMb(mb));
    if mb in env.db.mbs {
      MbSound(env, sizes, mb, env.db.mbs[mb]);
    }
  }

  lemma QueuedSound(env: Env, sizes: bool, block: Hash, meta: BlockMeta)
    ensures var rows := if meta.codesQueue.Some? then CodeIds(meta.codesQueue.value) else [ErrorNode(NoBlockCodesQueue(block))];
      AllSound(env, sizes, rows) <==> meta.codesQueue.Some? && CodesThere(env, meta.codesQueue.value)
  {
    hide Sound, AllSound, CodesThere;
    AllSoundOne(env, sizes, ErrorNode(NoBlockCodesQueue(block)));
    Missing(env, sizes, NoBlockCodesQueue(block));
    if meta.codesQueue.Some? {
      CodesSound(env, sizes, meta.codesQueue.value);
    }
  }

  lemma MetaSound(env: Env, sizes: bool, block: Hash, meta: BlockMeta)
    ensures Sound(env, sizes, BlockMetaNode(block, meta)) <==> MetaThere(env, sizes, meta)
  {
    hide Sound, AllSound, CodesThere, MbThere, CodeIds;
    SoundHere(env, sizes, BlockMetaNode(block, meta));
    var rows := if meta.codesQueue.Some? then CodeIds(meta.codesQueue.value) else [ErrorNode(NoBlockCodesQueue(block))];
    QueuedSound(env, sizes, block, meta);
    if meta.lastCommittedMb.Some? && meta.lastCommittedMb.value != ZERO {
      var mb := meta.lastCommittedMb.value;
      CommittedSound(env, sizes, mb);
      AllSoundConcat(env, sizes, [if mb in env.db.mbs then MbNode(mb, env.db.mbs[mb]) else ErrorNode(NoMb(mb))], rows);
    } else {
      assert [] + rows == rows;
    }
  }

  lemma BlockSound(env: Env, sizes: bool, block: Hash)
    ensures Sound(env, sizes, BlockNode(block)) <==> BlockThere(env, sizes, block)
  {
    hide Sound, MetaThere;
    SoundHere(env, sizes, BlockNode(block));
    var rows := BlockChildren(env.db, block);
    MetaSound(env, sizes, block, env.db.Meta(block));
    Leaf(env, sizes, rows[1]);
    Leaf(env, sizes, rows[2]);
    Leaf(env, sizes, rows[3]);
    assert AllSound(env, sizes, rows) <==>
      Sound(env, sizes, rows[0]) && Sound(env, sizes, rows[1]) && Sound(env, sizes, rows[2]) && Sound(env, sizes, rows[3]);
  }

  lemma {:induction false} ChainSound(env: Env, sizes: bool, head: Hash, bottom: Hash) returns (blocks: seq<Hash>)
    ensures AllSound(env, sizes, ChainBlocks(env.db, head, bottom)) ==>
              IsChain(env.db, blocks, head, bottom) && BlocksThere(env, sizes, blocks)
    decreases env.db.BlockRank(head)
  {
    hide Sound, BlockThere;
    blocks := [head];
    BlockSound(env, sizes, head);
    AllSoundOne(env, sizes, BlockNode(head));
    if head != bottom {
      if head in env.db.headers {
        var parent := env.db.headers[head].parent;
        AllSoundConcat(env, sizes, [BlockNode(head)], ChainBlocks(env.db, parent, bottom));
        var older := ChainSound(env, sizes, parent, bottom);
        blocks := [head] + older;
      } else {
        Missing(env, sizes, NoBlockHeader(head));
        assert ChainBlocks(env.db, head, bottom)[1] == ErrorNode(NoBlockHeader(head));
      }
    }
  }

  lemma {:induction false} ChainIsSound(env: Env, sizes: bool, head: Hash, bottom: Hash, blocks: seq<Hash>)
    requires IsChain(env.db, blocks, head, bottom) && BlocksThere(env, sizes, blocks)
    ensures AllSound(env, sizes, ChainBlocks(env.db, head, bottom))
    decreases |blocks|
  {
    hide Sound, BlockThere;
    BlockSound(env, sizes, head);
    AllSoundOne(env, sizes, BlockNode(head));
    if |blocks| > 1 {
      var parent := env.db.headers[head].parent;
      assert blocks[0] != bottom;
      ChainIsSound(env, sizes, parent, bottom, blocks[1..]);
      AllSoundConcat(env, sizes, [BlockNode(head)], ChainBlocks(env.db, parent, bottom));
    }
  }

  /** The chain node is sound exactly when all rows are there. */
  lemma ChainExact(env: Env, sizes: bool, head: Hash, bottom: Hash)
    ensures Sound(env, sizes, ChainNode(head, bottom)) <==> ChainThere(env, sizes, head, bottom)
  {
    hide Sound, AllSound, ChainBlocks, IsChain, BlocksThere;
    SoundHere(env, sizes, ChainNode(head, bottom));
    var blocks := ChainSound(env, sizes, head, bottom);
    if ChainThere(env, sizes, head, bottom) {
      var path :| IsChain(env.db, path, head, bottom) && BlocksThere(env, sizes, path);
      ChainIsSound(env, sizes, head, bottom, path);
    }
  }

  // ---------------------------------------------------------------------
  // References and the walk

  /** What leads to accepted nodes only is sound. */
  lemma {:induction false} AcceptedAreSound(env: Env, sizes: bool, root: Node, node: Node)
    requires forall n :: n in Walk(env.db, [root], {}) ==> Accepts(env, sizes, n)
    requires node in Walk(env.db, [root], {})
    ensures Sound(env, sizes, node)
    decreases Rank(node)
  {
    hide Walk, Children, Accepts;
    WalkCloses(env.db, [root], {});
    ChildrenRank(env.db, node);
    var children := Children(env.db, node);
    forall i | 0 <= i < |children|
      ensures Sound(env, sizes, children[i])
    {
      assert children[i] in children;
      AcceptedAreSound(env, sizes, root, children[i]);
    }
    SoundHere(env, sizes, node);
  }

  lemma {:induction false} SoundAreAccepted(env: Env, sizes: bool, root: Node, k: nat)
    requires Sound(env, sizes, root) && k < |Walk(env.db, [root], {})|
    ensures Sound(env, sizes, Walk(env.db, [root], {})[k]) && Accepts(env, sizes, Walk(env.db, [root], {})[k])
    decreases k
  {
    hide Walk, Children, Accepts, Sound;
    WalkReferenced(env.db, [root], {}, k);
    var emitted := Walk(env.db, [root], {});
    if emitted[k] != root {
      var j :| 0 <= j < k && emitted[k] in Children(env.db, emitted[j]);
      SoundAreAccepted(env, sizes, root, j);
      SoundHere(env, sizes, emitted[j]);
    }
    SoundHere(env, sizes, emitted[k]);
  }

  /** Main result on completeness: whatever the order of the walk, an accepted chain has every row that its blocks lead
      to, queue sizes aside. */
  lemma AcceptedIsComplete(env: Env, head: Hash, bottom: Hash)
    requires HashConsistent(env) && Verified(env, head, bottom).errors == []
    ensures ChainThere(env, false, head, bottom)
  {
    hide Walk, HashConsistent, VisitAll, Sound, ChainThere, Acceptable;
    var root := ChainNode(head, bottom);
    forall n | n in Walk(env.db, [root], {})
      ensures Accepts(env, false, n)
    {
      if !n.QueueHashWithSizeNode? {
        AcceptedNode(env, root, n);
      }
    }
    WalkCloses(env.db, [root], {});
    assert root in [root];
    AcceptedAreSound(env, false, root, root);
    ChainExact(env, false, head, bottom);
  }

  lemma AcceptsAll(env: Env, node: Node)
    ensures Accepts(env, true, node) <==> Acceptable(env, node)
  {
  }

  /** A chain with all rows and right queue sizes leads to acceptable nodes only, and the other way round. */
  lemma CompleteIsAcceptable(env: Env, head: Hash, bottom: Hash)
    ensures ChainThere(env, true, head, bottom) <==> AllAcceptable(env, ChainNode(head, bottom))
  {
    hide Walk, Sound, ChainThere, Acceptable, Reachable, Accepts;
    var root := ChainNode(head, bottom);
    var emitted := Walk(env.db, [root], {});
    EmittedAcceptable(env, root);
    ChainExact(env, true, head, bottom);
    forall n: Node
      ensures Accepts(env, true, n) <==> Acceptable(env, n)
    {
      AcceptsAll(env, n);
    }
    if AllAcceptable(env, root) {
      WalkCloses(env.db, [root], {});
      assert root in [root];
      AcceptedAreSound(env, true, root, root);
    }
    if Sound(env, true, root) {
      forall k | 0 <= k < |emitted|
        ensures Acceptable(env, emitted[k])
      {
        SoundAreAccepted(env, true, root, k);
      }
    }
  }

  /** Conversely, a chain that has every row, and right queue sizes, is accepted. */
  lemma CompleteIsAccepted(env: Env, head: Hash, bottom: Hash)
    requires HashConsistent(env) && ChainThere(env, true, head, bottom)
    ensures Verified(env, head, bottom).errors == []
  {
    hide Walk, HashConsistent, VisitAll, Sound, ChainThere, NodeFine, AllAcceptable;
    var root := ChainNode(head, bottom);
    CompleteIsAcceptable(env, head, bottom);
    VerifiesExactly(env, head, bottom);
    forall k | 0 <= k < |Walk(env.db, [root], {})|
      ensures NodeFine(env, Walk(env.db, [root], {}), k)
    {
      AcceptableIsFine(env, root, k);
    }
  }

  /** Main result over rows: when the queue references that are met agree on sizes, the verifier accepts a chain if and
      only if every row that its blocks lead to is there and right. */
  lemma AcceptedIffComplete(env: Env, head: Hash, bottom: Hash)
    requires HashConsistent(env) && SizesAgree(env, ChainNode(head, bottom))
    ensures Verified(env, head, bottom).errors == [] <==> ChainThere(env, true, head, bottom)
  {
    hide Walk, HashConsistent, VisitAll, ChainThere, AllAcceptable, Reachable;
    VerifiesWhenSizesAgree(env, head, bottom);
    CompleteIsAcceptable(env, head, bottom);
  }
}
