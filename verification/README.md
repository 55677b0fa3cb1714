# Verified models of ethexe

`ethexe` runs Gear programs as a co-processor of Ethereum. This project models
the parts of it that have the most state and branching, and proves properties
of them over all inputs, all runs and all reachable states.

An Ethereum block is an EB; a block of the Malachite chain, whose operations
are executed, is an MB.

| files | what they model |
|---|---|
| `Base`, `Bytes` | options, results, sequences, bytes and numbers |
| `Chain`, `MbExecution`, `EventDelivery` | how an MB becomes an executable, and which events it delivers |
| `MbService`, `MbServiceRuns` | the MB compute sub-service and all its runs |
| `MbPrograms`, `MbAnswers`, `MbNotices`, `MbDelivery` | what runs write about programs, how they answer requests, the notices they yield, and the events behind what they compute |
| `Prepare`, `PrepareMeta`, `PrepareRuns` | code validation and block preparation, the metadata, and all runs of both services together |
| `PrepareCodes`, `PrepareAnswers` | what those runs store about codes, and what they answer |
| `Service` | the outer service over all three sub-services, and what they guarantee together |
| `Iterator`, `Verifier`, `VerifierExact` | the database iterator over its 35 kinds of nodes, the integrity verifier on top of it, and exactly what it accepts |
| `VerifierRows`, `VerifierErrors` | the same verdict over the rows only, and what every reported error says about them |
| `Slots`, `SlotsRuns`, `SlotsHistory` | connection slots, all their runs, and what entries say about the past |
| `PeerScore`, `PeerScoreRuns`, `PeerScoreHistory` | peer scores, all their runs, and what entries and events say about the past |
| `Overlay`, `TypedDb` | the in-memory overlay, typed keys over one shared map, and the schedule cleanup |
| `Clones`, `ClonesExact` | the generator of the `Clones` library and what its output does |
| `Currency`, `CurrencyTexts` | amounts as text |

Code that updates fields in place is a class whose methods are proved against
a specification function of its `View()`; what the source promises is then
proved about that function. What the environment decides (the order of a hash
set, a shuffle, which future is ready, the result of the processor, the clock)
is a parameter, and the results hold for every choice. `dafny verify
dfyconfig.toml` covers the whole project.

## Assumptions

- Hashes are values; equal hashes mean equal content, and decoding undoes encoding.
  `Verifier` states this as `HashConsistent`, `Overlay` as `CollisionFree`. Node hashes in the
  iterator and key hashes in `iter_prefix` stand for the node and the key themselves.
- Parent links of MBs and EBs lead to lower heights (`AcyclicDb`, `AcyclicBlocks`, `GraphDb`,
  `TypedDb.Acyclic`). Without this the source's walks do not end either.
- The processor is a function of the executable that may also fail, and may send any promises.
- No promise sender outlives the compute future: its channel is closed when the future completes.
- Databases start in a state that a correct service left: what is flagged computed or prepared was
  made so correctly. Chain data is only added, never changed; the three writes of a
  proposal are seen together, and a proposal comes after its parent.
- Clocks do not go back. Peer score settings lower scores on reports, raise them on ticks and do not
  block a score of zero (`Config.Valid`).

## Where a property is false of the code

- After a chain that could not be prepared the next poll of the prepare service panics
  (`PrepareRuns.EarlierEraPanics`); `PrepareRuns.PanicsExactly` says exactly when.
- `KVOverlay::take` of a key that is in both layers uncovers the base value (`Overlay.TakeUncoversBase`);
  `RunRefines` says that this is the only way to differ from a plain map.
- `valid_codes` panics on a store that holds a hash equal to the key prefix (`TypedDb.PrefixHashPanics`); `ValidCodes`
  says that it panics if and only if there is one.
- In a short last chunk that overlaps the placeholder the generator does not pad the literal
  (`ClonesExact.ShortTailBreaks`); `GeneratedExact` gives the exact condition.
- A queue reference that is overtaken by another one hides a wrong size from the verifier
  (`VerifierExact.WrongSizeMissed`); `VerifiesExactly` gives the verdict for every database, and `MissedExactly` says
  which wrong sizes are missed.
- The overflow reserve does not bound the overflowing peers alone (`SlotsRuns.OverflowingMayExceedReserve`);
  `ReserveExact` and `ReserveHolds` say exactly when it is exceeded.
- `report_peer_action` panics for a peer that was forgotten (`SlotsRuns.ForgottenPeerPanics`); `PanicsExactly` says
  exactly when, and `OpenConnectionTracked` that it never does for a peer with an open connection.
- A plus sign in a fraction counts as one of its digits (`CurrencyTexts.PlusMisread`); `OrdinaryExactly` says exactly
  when a text is misread.

## Model

| member | source | states |
|---|---|---|
| `MbExecution.CollectAdvanceChain` | ethexe/compute/src/compute.rs:391-458 | the backward walk returns exactly what the recursive definition of the EBs after the anchor up to the target says, oldest first, or the same error |
| `MbExecution.BuildExecutableData` | ethexe/compute/src/compute.rs:294-388 | the loop over the operations builds the executable that folding the operations one by one gives: events in order, injected transactions, the last gas allowance with its mailbox version, the final anchor; each error as in the source |
| `MbExecution.CollectRequests` | ethexe/compute/src/compute.rs:321-328 | the request events of the blocks, block by block, or the first block without events |
| `Chain.RequestsExact` | ethexe/compute/src/compute.rs:327-329 | filtering a block's log keeps as many events as there are requests, each at the position given by how many requests come before it |
| `EventDelivery.BlockRequestsExact` | ethexe/compute/src/compute.rs:321-329 | what is collected from several blocks, by positions in their own logs: each request event once, block by block and in log order |
| `EventDelivery.BlockRequestsSucceed` | ethexe/compute/src/compute.rs:321-329 | collecting succeeds if and only if every block has its events row, and else names the first that has none |
| `MbExecution.BuildMeaning` | ethexe/compute/src/compute.rs:294-388 | what a built executable says about its operations, read from the end: all injected transactions in order, gas and reply mode of the last queue operation, the old mailbox validity once a first-version operation occurs, height and time of the last advance target, of the parent's anchor or of genesis |
| `MbExecution.BuildStable` | ethexe/compute/src/compute.rs:294-388 | a successful build does not change when the database grows |
| `MbExecution.ReplayStable` | ethexe/compute/src/compute.rs:149-230 | plain recursive execution from the zero MB, once it succeeds, is unaffected by later chain data |
| `EventDelivery.PathShape` | ethexe/compute/src/compute.rs:391-458 | the path to a rooted block starts at genesis, follows parent links, repeats nothing and ends in the block |
| `EventDelivery.AdvanceChainSound` | ethexe/compute/src/compute.rs:391-458 | a successful advance is non-empty and extends the path to the anchor to the path to the target |
| `EventDelivery.AdvanceChainExact` | ethexe/compute/src/compute.rs:391-458 | for any heights, an advance succeeds if and only if the anchor is a proper ancestor of the target as many blocks below it as their heights differ (without an anchor: the start block is genesis and the target is rooted), and then yields exactly the blocks in between |
| `EventDelivery.AdvanceChainConsecutive` | ethexe/compute/src/compute.rs:391-458 | with heights that go up by one, being a proper ancestor is enough |
| `EventDelivery.AdvanceChainErrors` | ethexe/compute/src/compute.rs:391-458 | each of the seven errors of an advance is a true statement about start block, heights and parent links |
| `EventDelivery.BuildSucceeds` | ethexe/compute/src/compute.rs:294-388 | an executable can be built if and only if the parent's anchor is known or zero, every advance reaches a known block from where the operations before it stand, over blocks with events, and genesis is known if nothing was ever advanced to |
| `EventDelivery.OperationsDeliver` | ethexe/compute/src/compute.rs:294-388 | any number of advance operations in one MB keeps "delivered so far = request events of all EBs up to the anchor" |
| `EventDelivery.EventsDeliveredExactlyOnce` | ethexe/compute/src/compute.rs:294-458 | main: along any MB chain whose executables build, the concatenated events are the request events in the logs of the EBs from genesis to the final anchor, by position: each block once, in parent order, no gap, and in log order; execution is dated by that anchor |
| `EventDelivery.EveryPersistStep` | ethexe/malachite/service/src/externalities.rs:102-133 | after each of the three writes of a new proposal: no persisted row has changed, heights still decrease, and every persisted MB carries its propagated anchor, except between the last two writes exactly when the new one's anchor is not zero |
| `EventDelivery.ProposalKeeps` | ethexe/malachite/service/src/externalities.rs:102-133 | a whole proposal, new or seen again, only adds rows and keeps every MB persisted with its anchor |
| `MbService.PrepareExecutableForMb` | ethexe/compute/src/compute.rs:256-287 | the executable of an MB from its own rows and its parent's stored states, schedule and anchor, with every missing-row error |
| `MbService.CollectUncomputedChain` | ethexe/compute/src/compute.rs:463-477 | the uncomputed ancestors and the MB itself, oldest first; the walk stops at the first computed one |
| `MbService.CollectFinalizedEvents` | ethexe/compute/src/compute.rs:232-254 | the version changes of a finalized, computed MB, in order, or the error |
| `MbService.ComputeSubService.Receive` | ethexe/compute/src/compute.rs:125-139 | queues a request unless the MB is already computed, in flight or queued; nothing else changes |
| `MbService.ComputeSubService.ReceiveFinalized` | ethexe/compute/src/compute.rs:141-147 | queues the finalized MB unless it is queued already; nothing else changes |
| `MbService.ComputeSubService.Progress` | ethexe/compute/src/compute.rs:149-230 | one step of the compute future: load, execute with promises, or one row written, in the order of the source |
| `MbService.ComputeSubService.PollFinalized` | ethexe/compute/src/compute.rs:485-505 | forwards finalized-MB events only while no request is being served |
| `MbService.ComputeSubService.PollNext` | ethexe/compute/src/compute.rs:482-574 | a whole poll is the specified transition of queue, computation, promise stream, pending answer and database |
| `MbService.ComputeSubService.PollBusy` | ethexe/compute/src/compute.rs:528-574 | while a request is served: promises first, then the held-back answer |
| `MbService.ComputeSubService.Run` | ethexe/compute/src/compute.rs:149-192 | a list of steps of the compute future applied one after the other |
| `MbServiceRuns.StoreOne` | ethexe/compute/src/compute.rs:194-230 | one row write of a correctly computed MB keeps the database consistent; the flag comes last |
| `MbServiceRuns.TaskStepKeeps` | ethexe/compute/src/compute.rs:149-230 | every step of the compute future keeps the stored rows right and the chain under computation linked to computed parents |
| `MbServiceRuns.TaskStepSends` | ethexe/compute/src/compute.rs:172-190 | of the promises that the processor produces, one step sends on all under AlwaysEmit, and otherwise those of the requested MB itself if the request enables them |
| `MbServiceRuns.TaskStepFails` | ethexe/compute/src/compute.rs:194-203 | a computation ends with the processor's error if and only if the processor fails |
| `MbServiceRuns.PollKeeps` | ethexe/compute/src/compute.rs:482-574 | every poll keeps all invariants of data, output, fields and requests |
| `MbServiceRuns.EveryRunIsSafe` | ethexe/compute/src/compute.rs:125-230 | main: in every state of every run of requests, growth of chain data, executor steps, processor failures and polls, each computed MB has rows equal to plain recursive execution and a computed parent; accepted requests, with their policies, are those answered, the open one and those queued, in order; the output is, request by request, all promises that mode and policy send on, in the order produced, and then one answer; version notices only between requests and only for computed MBs |
| `MbServiceRuns.EveryWriteIsSafe` | ethexe/compute/src/compute.rs:194-230 | after every single database write, also in the middle of a poll, no MB is flagged before all its rows exist and are right |
| `MbPrograms.ProgramCodesExact` | ethexe/compute/src/compute.rs:205-218 | main: in every state of every run the code of every program is that of its last pair among the program creations of the executed MBs, as far as they are written, or else the one it had at the start |
| `MbPrograms.ExecutedExact` | ethexe/compute/src/compute.rs:149-230 | in every run what the processor returned for an MB is what plain execution yields, and every MB computed since the start was executed |
| `MbAnswers.FailedOnlyForReason` | ethexe/compute/src/compute.rs:149-287 | main: in every run a request is answered with the processor's error if and only if the processor failed for it, and with another error only if plain execution of its MB, on the chain data of an earlier state, fails with this very error |
| `MbAnswers.Completes` | ethexe/compute/src/compute.rs:149-230 | once the processor only returns, a computation whose MB can be executed ends with success, from any stage |
| `MbAnswers.NextIsAnswered` | ethexe/compute/src/compute.rs:482-574 | main: every run can be continued by polls until the request that is next in line is answered with success, if its MB can be executed and it has not failed |
| `MbDelivery.ComputedMbsDeliverEventsOnce` | ethexe/compute/src/compute.rs:149-458 | main: in every run whose chain data is written by whole proposals and by the observer of Ethereum, the events behind a computed MB are those in the logs of the EBs from genesis to its anchor, each exactly once and in log order |
| `MbDelivery.EveryStatePersisted` | ethexe/malachite/service/src/externalities.rs:102-133 | in every state of such a run every persisted MB has its operations, a persisted parent and its propagated anchor |
| `MbServiceRuns.NeverComputedTwice` | ethexe/compute/src/compute.rs:125-574 | no MB hash is ever reported computed twice, and a reported one is computed |
| `MbNotices.ForwardTakes` | ethexe/compute/src/compute.rs:485-505 | forwarding takes a prefix of computed MBs from the queue and yields or keeps exactly what is due for it; it goes on until something is due, and stops with nothing only when the next MB is not computed |
| `MbNotices.NoticesExact` | ethexe/compute/src/compute.rs:141-254 | main: in every run the accepted finalized MBs are those taken, in queue order, then those still queued; the notices yielded and those held back are exactly what is due for the taken MBs, in that order, each once |
| `MbNotices.DueForComputed` | ethexe/compute/src/compute.rs:232-254 | what is due for a computed MB is one notice for each version change among the events it was executed on, each at its own position |
| `MbNotices.FailuresOnlyForZero` | ethexe/compute/src/compute.rs:232-254 | in every run a failure to collect the events of a finalized MB is reported for the zero MB only |
| `MbNotices.NoticesBeforeRequests` | ethexe/compute/src/compute.rs:485-527 | in every run an idle poll yields a notice as long as one is due, so that a request is taken only when nothing is held back and the next finalized MB is not computed |
| `Prepare.CollectNotPreparedBlocksChain` | ethexe/compute/src/prepare.rs:170-198 | the unprepared ancestors and the block, oldest first, or the missing row |
| `Prepare.CollectMissingData` | ethexe/compute/src/prepare.rs:211-265 | the validated codes with no known validity and those to be requested, over the whole chain |
| `Prepare.CollectUnknownCodes` | ethexe/compute/src/prepare.rs:211-265 | of a set of codes, those without a known validity |
| `Prepare.PrepareOneBlock` | ethexe/compute/src/prepare.rs:267-354 | the event loop, the queue update and the writes of one block equal the specified next metadata, or fail with the same error and no write |
| `Prepare.CodesSubService.ReceiveCodeToProcess` | ethexe/compute/src/codes.rs:45-91 | a code with known validity is ready at once, any other is handed to the processor |
| `Prepare.CodesSubService.PollNext` | ethexe/compute/src/codes.rs:64-113 | a finished code is stored row by row, original bytes, instrumented form, metadata and last its status, before it is reported |
| `PrepareCodes.CodesExact` | ethexe/compute/src/codes.rs:64-91 | main: in every state of every run the validity of a code is the last answer of the processor about it, or else the one at the start; original bytes, instrumented form and metadata are stored if and only if they were at the start or the processor found the code valid |
| `PrepareCodes.ReportedIsKnown` | ethexe/compute/src/codes.rs:62-113 | a reported code has a known validity and is the code of a finished future or the one the processor has just answered for; a failure is reported if and only if the processor fails, and stores nothing |
| `PrepareCodes.FuturesAccounted` | ethexe/compute/src/codes.rs:45-113 | in every run each submitted code has one future, finished at once if and only if its validity was known, which is pending or was completed, each once |
| `Prepare.PrepareSubService.ReceiveBlockToPrepare` | ethexe/compute/src/prepare.rs:78-81 | appends the block to the queue; nothing else changes |
| `Prepare.PrepareSubService.ReceiveProcessed` | ethexe/compute/src/prepare.rs:83-89 | a processed code is no longer waited for |
| `Prepare.PrepareSubService.PollNext` | ethexe/compute/src/prepare.rs:95-165 | a whole poll: take the newest block, collect its chain, ask for codes, or prepare it; answers, errors and the unreachable state |
| `Prepare.PrepareSubService.PollCollected` | ethexe/compute/src/prepare.rs:141-164 | the part of a poll with a collected chain: prepare it block by block once no code is missing |
| `Service.ComputeService.ProcessCode` | ethexe/compute/src/service.rs:71-73 | hands the code to the codes service; blocks and MBs are untouched |
| `Service.ComputeService.PrepareBlock` | ethexe/compute/src/service.rs:75-77 | queues the block; codes and MBs are untouched |
| `Service.ComputeService.ComputeMb` | ethexe/compute/src/service.rs:79-81 | queues the MB request, if it is new, and touches nothing else |
| `Service.ComputeService.ProcessFinalizedMbEvents` | ethexe/compute/src/service.rs:83-86 | queues the finalized MB, if it is new, and touches nothing else |
| `Service.ComputeService.PollNext` | ethexe/compute/src/service.rs:92-115 | codes first, whose result is passed on to the prepare service, then blocks, then MBs; the first that has something decides the item, and the ones after it are not touched |
| `Service.EveryRunIsSafe` | ethexe/compute/src/service.rs:70-115 | in every run of the whole service, with MBs polled only when codes and blocks have nothing and with one set of EB rows, the invariants of both sides hold in every state and the shared rows stay right |
| `Service.ExecutedEbsPrepared` | ethexe/compute/src/service.rs:70-115 | main: in every run, when the anchor of a computed MB is prepared, the events executed up to this MB are those in the logs of the EBs from genesis to the anchor, each once; all of these EBs down to the roots are prepared; and those prepared by the run have all their validated codes known |
| `PrepareMeta.FoldEventsExact` | ethexe/compute/src/prepare.rs:286-327 | the event loop fails if and only if a committed era goes back, and otherwise yields the latest batch, MB, EB and era and the requested and validated codes |
| `PrepareMeta.QueueCounts` | ethexe/compute/src/prepare.rs:329-347 | main: a code is queued once for every chain block that requested it with no validation in a later block, plus its copies in the base queue if never validated |
| `PrepareMeta.CommittedLatest` | ethexe/compute/src/prepare.rs:276-347 | main: batch, MB and EB are those of the latest such event on the chain, or the base's; the era never decreases |
| `PrepareMeta.PrepareOneSucceeds` | ethexe/compute/src/prepare.rs:267-354 | preparing a block succeeds if and only if the parent's metadata is complete and no committed era goes back |
| `PrepareMeta.PrepareAllSucceeds` | ethexe/compute/src/prepare.rs:141-161 | preparing a chain succeeds if and only if the base metadata is complete and eras do not go back over the whole chain |
| `PrepareRuns.CollectedCodesWaitedFor` | ethexe/compute/src/prepare.rs:211-265 | each validated code of a collected chain is known or waited for |
| `PrepareRuns.CodesPollKeeps` | ethexe/compute/src/codes.rs:45-113 | storing a code result and passing it on keeps all invariants |
| `PrepareRuns.EveryCodeWriteKeeps` | ethexe/compute/src/codes.rs:66-91 | after every single write of a code, a positive status comes with all its rows, and the status is written last |
| `PrepareRuns.PreparePollKeeps` | ethexe/compute/src/prepare.rs:95-165 | a poll of the prepare service keeps all invariants, and panics exactly after a failed chain |
| `PrepareRuns.EveryRunIsSafe` | ethexe/compute/src/prepare.rs:78-165 | main: for every interleaving of codes, blocks, code results and polls: a block that became prepared has all its validated codes known; prepared blocks are closed under parents; submitted = queued + waiting + answered |
| `PrepareRuns.PreparedChainMeta` | ethexe/compute/src/prepare.rs:267-354 | in every run, the metadata of a prepared block is determined by the events above any prepared ancestor, as the two results on the queue and the commitments say |
| `PrepareRuns.PreparedQueueOrder` | ethexe/compute/src/prepare.rs:329-330 | in every run the codes queue of a prepared block is its parent's without the validated codes, in the same order, and then the requested ones, each once |
| `PrepareAnswers.EveryAnswerRight` | ethexe/compute/src/prepare.rs:95-165 | main: in every run state a poll yields nothing only when it has no block or still waits for codes; it asks for exactly the codes of unknown validity on the way down to a prepared block, at the start also the queued ones; a block answered as prepared is prepared with all blocks on that way and no other; each error is a true statement about the rows |
| `PrepareAnswers.AwaitedExact` | ethexe/compute/src/prepare.rs:83-128 | in every run state the codes waited for are exactly those of unknown validity that the collected chain reports as validated |
| `PrepareAnswers.NewestFirst` | ethexe/compute/src/prepare.rs:78-102 | in every run the queue holds the submitted blocks that were not taken, in order, and each poll takes the newest |
| `PrepareAnswers.LatestPreparedExact` | ethexe/compute/src/prepare.rs:349-351 | in every run the latest prepared block changes only by preparing, and is then the uppermost of the blocks that the step has prepared |
| `PrepareRuns.PanicsOnlyAfterFailure` | ethexe/compute/src/prepare.rs:141-155 | a poll hits the unreachable state if and only if preparing a chain has returned an error before and no code is yielded |
| `PrepareRuns.FailsExactlyOnEarlierEra` | ethexe/compute/src/prepare.rs:95-161 | in every run, on both paths into preparation, a step makes preparing fail if and only if the chain it prepares has an incomplete base or a committed era that goes back |
| `PrepareRuns.PanicsExactly` | ethexe/compute/src/prepare.rs:95-161 | main: a poll that reaches the prepare service panics if and only if an earlier step of the run prepared such a chain |
| `PrepareRuns.EarlierEraPanics` | ethexe/compute/src/prepare.rs:95-161 | a run of a fresh service: a block is submitted, the first poll reports the error, the next one panics |
| `Iterator.ChildrenRank` | ethexe/db/src/iterator.rs:445-860 | every reference leads to a lower rank, which is why the walk ends |
| `Iterator.DatabaseIterator.IterChain` | ethexe/db/src/iterator.rs:485-502 | the loop queues the blocks from head to bottom, or up to a missing header and its error |
| `Iterator.DatabaseIterator.IterNode` | ethexe/db/src/iterator.rs:445-483 | dispatches every kind to its handler; what they push, in order, are the references of the node |
| `Iterator.DatabaseIterator.IterBlock` | ethexe/db/src/iterator.rs:504-516 | metadata, header or error, events or error, synced flag |
| `Iterator.DatabaseIterator.IterBlockMeta` | ethexe/db/src/iterator.rs:518-546 | the committed MB unless zero, then each queued code, or the error |
| `Iterator.DatabaseIterator.IterMb` | ethexe/db/src/iterator.rs:548-578 | the metadata, and the rows of a computed MB of which schedule and message ids may be absent |
| `Iterator.DatabaseIterator.IterProgramState` | ethexe/db/src/iterator.rs:668-721 | memory of an active program, both queue references, then waitlist, stash and mailbox, each with its error |
| `Iterator.DatabaseIterator.IterCodeId` | ethexe/db/src/iterator.rs:648-666 | validity, original bytes, instrumented form and metadata, each with its error |
| `Iterator.DatabaseIterator.IterMemoryPages` | ethexe/db/src/iterator.rs:765-773 | the regions that are present, in order |
| `Iterator.DatabaseIterator.Next` | ethexe/db/src/iterator.rs:868-883 | skips visited nodes and yields the next one; the rest of the walk is what it was |
| `Iterator.WalkDistinct` | ethexe/db/src/iterator.rs:868-883 | no node is emitted twice, and none that was visited before |
| `Iterator.WalkCloses` | ethexe/db/src/iterator.rs:862-883 | nothing on the stack or referenced by an emitted node is lost |
| `Iterator.WalkReferenced` | ethexe/db/src/iterator.rs:862-883 | every node comes from the stack or after a node that references it |
| `Iterator.WalkExact` | ethexe/db/src/iterator.rs:417-883 | main: the walk ends, emits no node twice, each after a node that references it, and exactly the nodes reachable from the root through non-skipped nodes |
| `Verifier.IntegrityVerifier.VisitBlockMeta` | ethexe/db/src/verifier.rs:134-154 | reports each missing part of a block's metadata |
| `Verifier.IntegrityVerifier.VisitBlockHeader` | ethexe/db/src/verifier.rs:164-193 | a missing parent unless the block is the bottom, a wrong height, a later timestamp |
| `Verifier.IntegrityVerifier.VisitMbScheduleTasks` | ethexe/db/src/verifier.rs:223-242 | a missing MB, or tasks that are not above its height |
| `Verifier.IntegrityVerifier.VisitCodeMetadata` | ethexe/db/src/verifier.rs:208-221 | compares the length with the original bytes at hand, as a 32-bit number |
| `Verifier.IntegrityVerifier.VisitMessageQueue` | ethexe/db/src/verifier.rs:256-272 | compares the cached size with the queue, as a byte; a missing size is a panic |
| `Verifier.IntegrityVerifier.VisitNode` | ethexe/db/src/visitor.rs:48-66 | one visit is the specified change of errors, cached sizes and original bytes |
| `Verifier.IntegrityVerifier.VisitChainNode` | ethexe/db/src/verifier.rs:134-243 | visits of block metadata, synced flags, headers against their parents, and schedules against their MB |
| `Verifier.IntegrityVerifier.WalkFrom` | ethexe/db/src/visitor.rs:69-72 | visiting every node that the iterator yields, in its order |
| `Verifier.IntegrityVerifier.VerifyChain` | ethexe/db/src/verifier.rs:86-112 | accepts exactly when the walk from the chain node reported nothing |
| `Verifier.ChainWalkNeverPanics` | ethexe/db/src/verifier.rs:245-272 | main: over a hash-consistent database the size of a visited queue is always at hand |
| `Verifier.MetadataMeetsOriginal` | ethexe/db/src/verifier.rs:203-221 | main: when code ids with metadata have their original bytes, each length is compared with the bytes of that same code |
| `Verifier.ChainMetadataMeetsOriginal` | ethexe/db/src/verifier.rs:86-221 | the same for a walk from any chain node: when reachable code ids with metadata have their original bytes, the bytes at hand are those of the same code |
| `VerifierExact.VerifiesExactly` | ethexe/db/src/verifier.rs:86-272 | main, with no assumption on sizes: over a hash-consistent database a chain is accepted if and only if every visited node other than queue references is acceptable and every queue has the size last announced before it |
| `VerifierExact.VerifiesWhenSizesAgree` | ethexe/db/src/verifier.rs:86-272 | when references agree on sizes, a chain is accepted if and only if every reachable node is acceptable |
| `VerifierExact.MissedExactly` | ethexe/db/src/verifier.rs:245-272 | an accepted chain has an unacceptable node if and only if it has a queue reference with a wrong size, and each such reference is overtaken: its queue was visited before it, or another reference to the queue comes in between |
| `VerifierExact.AcceptedNode` | ethexe/db/src/verifier.rs:86-272 | whatever the sizes, an accepted walk met only acceptable nodes, queue references aside |
| `VerifierExact.AcceptedChain` | ethexe/db/src/verifier.rs:86-194 | in an accepted chain the head is connected to the bottom and every block is synced, prepared, complete and directly above its parent |
| `VerifierRows.AcceptedIsComplete` | ethexe/db/src/verifier.rs:86-272 | main, over rows only: an accepted chain leads from head to bottom, and every block has its rows, its committed MB with outcome, states and schedule, every program state with allocations, memory pages, regions, pages, queues, waitlist, stash, mailboxes and payloads, and every program and queued code has its rows |
| `VerifierRows.CompleteIsAccepted` | ethexe/db/src/verifier.rs:86-272 | conversely, a chain that has all these rows and right queue sizes is accepted |
| `VerifierRows.AcceptedIffComplete` | ethexe/db/src/iterator.rs:445-860 | when the queue references that are met agree on sizes, a chain is accepted if and only if all these rows are there and right |
| `VerifierErrors.EveryReportIsTrue` | ethexe/db/src/verifier.rs:86-272 | main: every error that verify_chain returns, with the hashes, heights, times and sizes it names, is true of the rows |
| `VerifierErrors.MissingReportedExactly` | ethexe/db/src/iterator.rs:445-860 | a missing row is reported if and only if a reference to it is reachable from the chain |
| `VerifierExact.WrongSizeMissed` | ethexe/db/src/verifier.rs:86-272 | a concrete chain of one block that is accepted although a queue reference has a wrong size, for every hash function that fits |
| `Slots.ConnectionMap.AddConnection` | ethexe/network/src/utils.rs:186-194 | adds one connection and says whether it is new |
| `Slots.ConnectionMap.RemoveConnection` | ethexe/network/src/utils.rs:196-205 | removes one connection, and the peer with its last one |
| `Slots.Behaviour.Add` | ethexe/network/src/slots.rs:336-410 | admission by limits, class and backoff; state and gauges change together |
| `Slots.Behaviour.Remove` | ethexe/network/src/slots.rs:432-462 | a closed connection; with the last one the peer goes into backoff and the gauges down; says whether the peer was tracked |
| `Slots.Behaviour.ReportPeerAction` | ethexe/network/src/slots.rs:275-285 | refreshes an overflowing peer; panics exactly for a peer without an entry |
| `Slots.Behaviour.AddPending` | ethexe/network/src/slots.rs:304-329 | a dial is recorded unless the peer is in backoff or the outbound limit is reached |
| `Slots.Behaviour.HandleEstablishedOutbound` | ethexe/network/src/slots.rs:564-576 | the pending dial becomes a connection |
| `Slots.Behaviour.OnDriverTick` | ethexe/network/src/slots.rs:464-528 | expires backoffs, closes idle overflowing peers, dials what is lacking |
| `Slots.Behaviour.PollNext` | ethexe/network/src/slots.rs:610-628 | delivers one event, ticking only when none is undelivered |
| `SlotsRuns.AddConnectionKeeps` | ethexe/network/src/slots.rs:336-430 | admission keeps the limits and the gauges |
| `SlotsRuns.RemoveConnectionKeeps` | ethexe/network/src/slots.rs:432-462 | removal keeps the limits and the gauges |
| `SlotsRuns.EveryRunIsSafe` | ethexe/network/src/slots.rs:98-462 | main: in every run inbound peers <= inbound max + overflow, normal inbound <= inbound max, outbound <= outbound max, every connected peer has a connection, and the three gauges are the true counts |
| `SlotsRuns.EntryFate` | ethexe/network/src/slots.rs:304-469 | main: an entry keeps its class at every event, and disappears if and only if a tick is strictly past the backoff or an outbound-class reconnect finds the outbound limit reached |
| `SlotsRuns.ClassNeverChanges` | ethexe/network/src/slots.rs:336-469 | while a peer has an entry its class is the same in every state of the run |
| `SlotsRuns.BackoffRefuses` | ethexe/network/src/slots.rs:304-469 | in every run an inbound-class peer in backoff stays in it, whatever happens, until a tick strictly past the period, and until then every connection and dial is refused and changes nothing |
| `SlotsRuns.ConnectionFate` | ethexe/network/src/slots.rs:336-430 | main: in every run a connection is refused if and only if the peer is not connected and, by the gauges, there is no slot for its class or it is an inbound-class peer in backoff, and for that reason; else it is connected in that class, normal inbound exactly below the normal limit, and no other peer is affected |
| `SlotsRuns.DeliveryExact` | ethexe/network/src/slots.rs:610-628 | in every run closes and dials are delivered in the order in which ticks scheduled them, each once, and no tick happens before everything was delivered |
| `SlotsRuns.TickSchedules` | ethexe/network/src/slots.rs:471-528 | main: a tick closes exactly the overflowing inbound peers idle strictly longer than the timeout, and dials min(outbound min - outbound - pending, candidates) distinct known peers that are not pending, connected or in backoff |
| `SlotsRuns.OpenConnectionTracked` | ethexe/network/src/slots.rs:275-462 | in every run a connection that was accepted and not closed since is tracked, so reporting an action of its peer does not panic |
| `SlotsRuns.PanicsExactly` | ethexe/network/src/slots.rs:275-285 | in every run a report of an action panics if and only if the peer never got an entry or was forgotten since it last did |
| `SlotsRuns.ForgottenPeerPanics` | ethexe/network/src/slots.rs:275-285 | a run of three events after which such a report panics |
| `SlotsRuns.ReserveExact` | ethexe/network/src/slots.rs:336-410 | in every run, from a state within the reserve an event leads beyond it if and only if a new inbound peer arrives while the overflowing gauge equals the reserve and the inbound gauge is in [inbound max, inbound max + reserve) |
| `SlotsRuns.ReserveHolds` | ethexe/network/src/slots.rs:336-462 | over a whole run the reserve is never exceeded if and only if no such event occurs |
| `SlotsRuns.OverflowingMayExceedReserve` | ethexe/network/src/slots.rs:336-410 | a run of four events after which the overflowing peers alone exceed the reserve |
| `SlotsHistory.BackoffBegins` | ethexe/network/src/slots.rs:432-462 | in every run a peer whose last connection closes is in backoff from that moment on, with its class |
| `SlotsHistory.BackoffExact` | ethexe/network/src/slots.rs:432-469 | main: in every run an entry is in backoff since a time if and only if the last connection of the peer was closed at that time and the entry has stayed since |
| `SlotsHistory.NotForgottenEarly` | ethexe/network/src/slots.rs:464-469 | no tick forgets a peer before more than the backoff period has passed since its last connection closed |
| `SlotsHistory.ConnectionsExact` | ethexe/network/src/slots.rs:336-462 | main: in every run the connections of a peer are exactly those that were established, not refused, and not closed since |
| `SlotsHistory.LatestActionExact` | ethexe/network/src/slots.rs:275-285 | main: in every run the latest action of an overflowing peer is the time at which it got its slot or last reported an action |
| `SlotsHistory.DialsExact` | ethexe/network/src/slots.rs:304-333 | main: in every run the dials under way are exactly those that were recorded and have neither failed nor led to a connection since |
| `SlotsHistory.DialFate` | ethexe/network/src/slots.rs:304-329 | in every run a dial is refused if and only if the peer is in backoff or there is no outbound slot, and for that reason; an accepted one changes nothing but the dials under way |
| `PeerScore.Behaviour.OnDriverTick` | ethexe/network/src/peer_score.rs:193-218 | every entry decays, unblocks when it leaves the threshold, and is forgotten when expired |
| `PeerScore.Behaviour.ScoreDecrease` | ethexe/network/src/peer_score.rs:220-236 | a report lowers the score with saturation and blocks when the threshold is crossed |
| `PeerScore.Behaviour.PollNext` | ethexe/network/src/peer_score.rs:314-342 | pending events, then a tick, then one report |
| `PeerScoreRuns.TickAllKeeps` | ethexe/network/src/peer_score.rs:193-218 | a tick over any order of the peers keeps all invariants |
| `PeerScoreRuns.ReportKeeps` | ethexe/network/src/peer_score.rs:220-236 | a report keeps all invariants |
| `PeerScoreRuns.EveryRunIsSafe` | ethexe/network/src/peer_score.rs:193-342 | main: in every run the block list is the set of peers at or below the threshold, scores are in [-128, 0], a forgotten peer is not blocked, and delivered events alternate for every peer, blocked first |
| `PeerScoreRuns.ReportsBlock` | ethexe/network/src/peer_score.rs:94-342 | in every run with the default configuration a processed report of invalid data leaves the peer blocked, and so does a second one of excessive data with at most one tick since the first |
| `PeerScoreRuns.ScoreRecovers` | ethexe/network/src/peer_score.rs:127-153 | with no new report, after n ticks the score is its old value plus n decays, at most zero |
| `PeerScoreRuns.ScoreCeiling` | ethexe/network/src/peer_score.rs:127-236 | in every run a score never rises faster than one decay per tick, whatever is reported |
| `PeerScoreRuns.UnblockedWithin13Ticks` | ethexe/network/src/peer_score.rs:94-153 | main: with the default configuration a peer with no new report is not blocked after 13 ticks |
| `PeerScoreRuns.DecayExact` | ethexe/network/src/peer_score.rs:142-153 | a decay moves a score toward zero by its amount, and never past it, on either side |
| `PeerScoreHistory.ReportsAccounted` | ethexe/network/src/peer_score.rs:314-342 | in every run the reports received are those processed, in order, followed by those waiting |
| `PeerScoreHistory.EntriesExact` | ethexe/network/src/peer_score.rs:127-236 | main: in every run a peer has an entry if and only if a report about it was processed and no tick since has found its score decayed to zero and its last report at least the forget time ago; and the entry carries the time of that report |
| `PeerScoreHistory.BlockedForReason` | ethexe/network/src/peer_score.rs:220-236 | main: a step reports a peer as blocked, with a reason, if and only if it processes a report about that peer for that reason that takes its score to the threshold |
| `Overlay.KvOverlay.Get` | ethexe/db/src/overlay.rs:78-86 | the value of the one visible map |
| `Overlay.KvOverlay.Contains` | ethexe/db/src/overlay.rs:107-110 | membership in the visible map |
| `Overlay.KvOverlay.Put` | ethexe/db/src/overlay.rs:112-115 | the visible map with the new entry, and both layers |
| `Overlay.KvOverlay.Delete` | ethexe/db/src/overlay.rs:102-105 | the visible map without the key, and both layers |
| `Overlay.KvOverlay.Take` | ethexe/db/src/overlay.rs:88-100 | the visible value as result; the visible map without the key unless it shadows the base; and both layers |
| `Overlay.KvOverlay.IterPrefix` | ethexe/db/src/overlay.rs:117-135 | each visible key with the prefix once, with its visible value, for every order in which the layers list theirs |
| `Overlay.KvOverlay.IsEmpty` | ethexe/db/src/overlay.rs:137-147 | where the source answers, whether the visible map is empty; and exactly where it does not |
| `Overlay.StepRefines` | ethexe/db/src/overlay.rs:78-115 | one operation does to the visible map what it does to a plain one, except that a take of a shadowing key uncovers the base |
| `Overlay.RunRefines` | ethexe/db/src/overlay.rs:60-135 | main: over every run the visible map is the plain map after every operation if and only if no take hits a key that was written since and is in the base |
| `Overlay.TakeUncoversBase` | ethexe/db/src/overlay.rs:88-100 | a concrete put and take after which the old value is visible again |
| `Overlay.CasOverlay.Read` | ethexe/db/src/overlay.rs:32-34 | the value of base and memory together |
| `Overlay.CasOverlay.Contains` | ethexe/db/src/overlay.rs:36-38 | membership in base and memory together |
| `Overlay.CasOverlay.Write` | ethexe/db/src/overlay.rs:40-42 | the content is stored under its hash, and nothing readable before is lost |
| `TypedDb.ToBytes` | ethexe/db/src/database.rs:84-133 | keys are longer than 32 bytes and no longer than 68 |
| `TypedDb.KeysInjective` | ethexe/db/src/database.rs:75-134 | main: distinct typed keys have distinct bytes |
| `TypedDb.KeyLayout` | ethexe/db/src/database.rs:75-134 | the first 32 bytes of a key are the number of its kind with the most significant byte first; then the hash, after a little-endian runtime version if there is one, or a little-endian era |
| `TypedDb.RowsDecode` | ethexe/db/src/database.rs:369-430 | in a store filled by typed setters every row decodes as its getter expects |
| `TypedDb.SetterFrame` | ethexe/db/src/database.rs:432-476 | a typed write changes its own field, no other field and no content-addressed value |
| `TypedDb.ContentFrame` | ethexe/db/src/mem.rs:29-33 | a content-addressed write changes no field |
| `TypedDb.Database.Put` | ethexe/db/src/mem.rs:57-59 | the store after any typed setter |
| `TypedDb.Database.WriteContent` | ethexe/db/src/mem.rs:29-33 | the store after a content-addressed write |
| `TypedDb.Database.MutateSmallData` | ethexe/db/src/database.rs:189-193 | read, change and write of one block's small row, defaulting when absent |
| `TypedDb.Database.SetBlockHeader` | ethexe/db/src/database.rs:519-523 | changes the header and keeps the synced flag and the metadata |
| `TypedDb.Database.SetBlockSynced` | ethexe/db/src/database.rs:537-542 | changes the flag and keeps header and metadata |
| `TypedDb.Database.MutateBlockMeta` | ethexe/db/src/database.rs:561-566 | changes the metadata and keeps header and flag |
| `TypedDb.ValidCodes` | ethexe/db/src/database.rs:617-634 | main: the codes marked valid, and nothing else; decoding panics if and only if the hash that equals the key prefix is stored |
| `TypedDb.PrefixHashPanics` | ethexe/db/src/database.rs:617-634 | a well-typed store on which listing the valid codes panics |
| `TypedDb.LineageIsAncestors` | ethexe/db/src/database.rs:844-874 | the blocks that cleanup walks over are the n-th ancestors, found one parent at a time |
| `TypedDb.Database.Cleanup` | ethexe/db/src/database.rs:844-891 | the loop removes the schedule rows beyond the safe depth and counts the blocks it covered |
| `TypedDb.CleanupExact` | ethexe/db/src/database.rs:844-891 | main: a row goes if and only if it is the schedule of a block more than 100 parents below the latest computed one |
| `TypedDb.CleanupCount` | ethexe/db/src/database.rs:844-891 | the number returned is how many blocks lie more than 100 parents below the latest computed one |
| `TypedDb.WindowKept` | ethexe/db/src/database.rs:829-891 | the latest computed block and the 100 below it keep their schedules |
| `TypedDb.CleanupIdempotent` | ethexe/db/src/database.rs:833-891 | a second cleanup finds the same blocks and changes nothing |
| `Clones.ReplacePlaceholderWithZeros` | ethexe/scripts/update-clones-sol.rs:99-106 | the chunk with zeros in the given range |
| `Clones.FindPlaceholder` | ethexe/scripts/update-clones-sol.rs:116-119 | the first placeholder, or none |
| `Clones.EmitChunk` | ethexe/scripts/update-clones-sol.rs:144-238 | the word expression of a chunk in all four cases |
| `Clones.GenerateToFile` | ethexe/scripts/update-clones-sol.rs:108-243 | one write per chunk at its 16-bit offset; a panic exactly when there is no placeholder |
| `ClonesExact.WordFor` | ethexe/scripts/update-clones-sol.rs:153-238 | on a full word, whether the placeholder lies inside, starts, ends or is absent, the expression is the chunk with its part of the address |
| `ClonesExact.WordExact` | ethexe/scripts/update-clones-sol.rs:144-238 | for any chunk: right for every address if and only if it is full, has no part of the placeholder, or is zero around it |
| `ClonesExact.GeneratedExact` | ethexe/scripts/update-clones-sol.rs:108-243 | main: for every initial memory, the deployed code is the bytecode with the address in place for all addresses if and only if the size fits in 16 bits and the placeholder ends before a last partial word or has only zeros around it there |
| `ClonesExact.ShortTailBreaks` | ethexe/scripts/update-clones-sol.rs:163-187 | a concrete bytecode for which the generated contract is wrong |
| `CurrencyTexts.FractionText` | ethexe/cli/src/utils.rs:60-80 | the printed fraction has at most D digits, no trailing zero, and is worth the fraction |
| `CurrencyTexts.RoundTrip` | ethexe/cli/src/utils.rs:60-148 | main: for every 128-bit amount and every currency with at most 38 decimals, parsing the printed text returns the amount |
| `CurrencyTexts.CurrenciesRoundTrip` | ethexe/cli/src/utils.rs:20-32 | the round trip for both currencies of the command line |
| `CurrencyTexts.AmountRoundTrip` | ethexe/cli/src/utils.rs:150-205 | raw and formatted amounts print to texts that parse back to the same variant |
| `CurrencyTexts.FractionNeverOverflows` | ethexe/cli/src/utils.rs:133-138 | the overflow error on the scaled fraction is unreachable |
| `CurrencyTexts.ParseExact` | ethexe/cli/src/utils.rs:96-148 | main: a text is accepted if and only if its words are an amount text whose denoted value int*10^D + frac*10^(D-len) fits in 128 bits, and yields that value; otherwise exactly which error |
| `CurrencyTexts.WordsExact` | ethexe/cli/src/utils.rs:96-105 | the words of a text are the longest stretches of other characters between white space, in order, and all of them |
| `CurrencyTexts.DotsExact` | ethexe/cli/src/utils.rs:107-120 | the parts of a number hold no dot, and joined with dots make up the number |
| `CurrencyTexts.AmountExact` | ethexe/cli/src/utils.rs:165-205 | a raw amount if and only if one word that is a number in range, a formatted one if and only if two words that parse; otherwise exactly which error |
| `CurrencyTexts.OrdinaryExactly` | ethexe/cli/src/utils.rs:107-138 | an accepted text with a fraction is worth whole*10^D + frac*10^(D - number of digits) if and only if the fraction has no plus sign or is zero |
| `CurrencyTexts.PlusMisread` | ethexe/cli/src/utils.rs:107-138 | the text 1.+5 ETH is parsed to 1.05 ETH |

## Left out

- The processor, the WASM runtime and program execution: a function parameter in the MB model.
- Malachite consensus, validator discovery, database synchronisation and the consensus validator.
- The libp2p wrappers, gossip, Kademlia and the delegating network behaviours.
- Ethereum and beacon clients, RPC, CLI commands and the blob loader.
- RocksDB, compaction (also the compaction at the end of `cleanup`), metrics other than the three slot gauges, logging and wakers.
- Hash functions and the SCALE codec: values are stored decoded, under the key or hash they belong to.
- Sharing between clones of a database handle: every model has one handle.
- The caches of globals and config next to the database; `Cleanup` takes the latest computed MB as a field.
- The debug-only assertion in `verify_chain` that no error is reported twice.
- The Solidity text around the emitted `writeWord` statements, the spelling of hexadecimal digits and Solidity's typing of short literals: the generator model emits expressions.
- Timeline arithmetic, protocol version packing, digest layouts and build scripts.
- The debug assertion on closing a connection of a peer in backoff; it cannot be hit by a connection that was accepted and not closed, by `SlotsRuns.OpenConnectionTracked`.
