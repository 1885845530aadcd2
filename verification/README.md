# Devv-Core, modelled and verified

Devv-Core is a sharded ledger node. Wallet transactions are collected by a Tier 2 shard into
blocks that its nodes agree on; a Tier 1 shard collects the summaries of those blocks. This
project models the parts that have to be right for that to work and proves what they promise.

* **Lock-free queues.** The free list, the counters of the optimistic dequeue, the block index,
  the semaphore and blocking queue built on top, and the in-house ring queue. `FreeList`,
  `OptimisticDequeue`, `IndexReaders` and `BlockingQueue` are state machines in which every shared
  access is one atomic step of one of any number of threads; their theorems are about every run.
  `BlockIndexes` and `RingQueues` are objects with an invariant, the latter also as a machine over
  calls. `IndexHeaders` has the arithmetic of lookups in superseded headers, `Lagging` how far behind
  a consumer may fall before the 64-bit counters mislead it. `FreeListCalls`, `DequeueCalls`,
  `SemaphoreCalls` and `IndexProgress` say what a call achieves: what it obtains when it is not
  disturbed, and what it must have seen when it comes back with nothing.
* **Shard consensus.** `Consensus` has one step per message handler over any number of nodes;
  `Mempool` says what the pools hold along a run and exactly when a handler proposes, approves and
  finalises; `Misdelivery` is a run in which one final block could overtake another.
* **Ledger and summaries.** `Summaries` gives the nested maps of a Summary and, independently,
  what a list of transfers amounts to in one cell. `Ledger` and `Assembly` give balances,
  validation in aggregate, block assembly and re-verification, for transactions of either tier.
  `Authority` says whose coins a pass lets move, and `Overdrafts` exactly when it can overdraw a
  balance. `LedgerObjects` has the same operations as objects updated in place, proved against those
  functions.
* **From Tier 2 to Tier 1.** `TierOne` follows the summaries of a Tier 2 chain from its dump through
  the announcement into the pool of a Tier 1 node and through a pass over it; `Acceptance` says
  exactly when such a pass refuses nothing, and `Refusals` has an announcement of which it refuses a
  part. `Vouching` says what is announced, and whose signature stands behind all that gets into the
  pool and into the books. `TierOneObjects` has the loops and objects.
* **Wire format.** `Bytes`, `Buffers`, `Codec` and `Blocks` give the canonical bytes and the
  parsers, `CanonicalOrder` the order of the entries, `Layouts` what a buffer must hold to be
  accepted, `Proposals` the byte counts, `Uris` and `UriInputs` the Devv URI. `BlockObjects` has the serialisers and
  parsers loop by loop over a cursor, proved against those functions.

`Words`, `Options`, `Permutations`, `Ordering`, `Totals` and `Runs` are the shared mathematics: 64-bit
wrap-around, reordering, the iteration order of `std::map`, sums over maps, induction along runs.

Where the code does something other than its comments or names suggest, the model follows the
code, a lemma gives an input that shows it, and another says exactly when the intended property
holds:

* the optimistic counters: `Lagging.LaggardClaimsUnpublished`, `OptimisticDequeue.RoomExactly`,
  `Lagging.LagExactly`;
* what a rejected transaction leaves behind: `Assembly.RejectionCanLeaveTraces`,
  `Assembly.RejectionIsCleanExactly`;
* the guard on available coins: `Overdrafts.FirstSpendUnchecked`, `Overdrafts.OverdrawnExactly`,
  `Overdrafts.PassSafeExactly`, `Overdrafts.AlwaysSafeExactly`;
* announced summaries that Tier 1 refuses: `Refusals.SecondSummaryRefused`,
  `Refusals.RefusedThoughDistinct`, `TierOne.AcceptedExactly`;
* final blocks out of order: `Misdelivery.OvertakingIsReachable`, `Consensus.CausalExactly`;
* Tier 1 transactions that the constructor does not check: `Vouching.CheckedExactly`; they do not
  get into a pool, `Vouching.AddedAreVouched`;
* byte counts, parsers and URIs: `Proposals.SignExactly`, `Buffers.FillDropsLastByte`,
  `Layouts.FillMisreads`, `Layouts.ProposalRoundTrip`,
  `Summaries.ReadBackRoundTrip`, `Uris.UriRoundTripExactly`.

## Assumptions

* Atomic accesses are sequentially consistent, and message handlers are atomic. The transaction
  and consensus controllers take different mutexes, so the code does not enforce the latter.
* FINAL_BLOCK messages reach each other node at most once and in causal order.
  `Consensus.CausalExactly` shows that agreement needs exactly this, and
  `Misdelivery.OvertakingIsReachable` that nothing else in the protocol provides it. PROPOSAL_BLOCK
  and VALID messages may be lost, repeated and reordered.
* Messages between nodes arrive as the values that were sent. The peers parse PROPOSAL_BLOCK and
  FINAL_BLOCK with keys, which goes through `Tier2Transaction::Fill`; `Layouts.FillMisreads` shows
  that no proposal with transactions comes through that. The consensus theorems are about the
  protocol with that repaired, as in `Layouts.ProposalReadsBack`.
* Hashes and signatures are ideal: a hash is the block it was made from, a signature is its
  signer with what was signed.
* A consumer of the optimistic dequeue that looks at the tail again is not behind it by a number whose
  remainder modulo 2^64 exceeds 2^63 (`OptimisticDequeue.Tolerable`). `Lagging.LagExactly` shows that
  the counters need exactly this; `OptimisticDequeue.TimelyIsTolerable` that it holds if at most 2^63
  reservations of others fall between the consumer's load of dequeueOvercommit and its own. Nothing
  is assumed about the tail, the head or the length of the run.
* A byte vector is shorter than 2^63.

## Model

| member | source | states |
|---|---|---|
| FreeList.StepInv | src/concurrency/concurrentqueue.h:1363-1463 | Every shared access of add, add_knowing_refcount_is_zero and try_get, by any thread at any moment, and every hand-over of a node from one caller to another, keeps the invariant: the pointers spell out a list without repetition, each node's counter is the flag plus the list's reference plus one per reader, and each thread still has what it relies on. |
| FreeList.PushList | src/concurrency/concurrentqueue.h:1431-1460 | A successful push CAS puts exactly the added node in front of the list. |
| FreeList.PopList | src/concurrency/concurrentqueue.h:1386-1424 | A successful pop CAS removes exactly the front node, although the next pointer was read earlier: no ABA. |
| FreeList.IncSucceeds | src/concurrency/concurrentqueue.h:1386-1397 | A reader's increment, only taken from a non-zero count, leaves the node's counter accounted for. |
| FreeList.RunInv | src/concurrency/concurrentqueue.h:1363-1463 | The invariant holds in every state of every run. |
| FreeList.NeverHandedOutTwice | src/concurrency/concurrentqueue.h:1377-1424 | In every run, between two try_get calls that return the same node there is an add of it. |
| FreeList.HeldStays | src/concurrency/concurrentqueue.h:1363-1463 | No step of any thread takes a node out of the callers' hands except an add by its owner, and it changes hands only when its owner passes it on. |
| FreeList.KeepHandOver | src/concurrency/concurrentqueue.h:2515-2524 | A node may be added by another thread than the one that took it, as when a consumer empties a block that the producer took: handing it over keeps the invariant. |
| FreeList.ListNeverRepeats | src/concurrency/concurrentqueue.h:1386-1424 | In every reachable state, following the real pointers however far visits no node twice and only nodes no thread owns; the flag of a node being taken is clear, as try_get asserts. |
| FreeList.NothingLost | src/concurrency/concurrentqueue.h:1377-1463 | When no operation is in progress every node is either owned by a caller or reachable from the head, never both. |
| FreeListCalls.NothingOnlyIfEmpty | src/concurrency/concurrentqueue.h:1377-1428 | In every run, a try_get either returns a node or the list was empty at some moment of the call. |
| FreeListCalls.GetAlone | src/concurrency/concurrentqueue.h:1386-1415 | From any reachable state, with other threads anywhere in their calls, a try_get that runs alone on a list that is not empty is back after seven steps with the front node in hand and the rest of the list in place. |
| FreeListCalls.GetAloneEmpty | src/concurrency/concurrentqueue.h:1377-1428 | On an empty list it is back after two steps and has changed nothing. |
| FreeListCalls.AddAlone | src/concurrency/concurrentqueue.h:1372-1384 | An add that runs alone of a node without references puts it in front of the list after five steps. |
| OptimisticDequeue.CircularLessIsLess | src/concurrency/concurrentqueue.h:404-417 | The wrapped comparison agrees with the true one if the difference lies in (-2^63, 2^63], and for differences of less than a full turn only then. |
| OptimisticDequeue.RoomExactly | src/concurrency/concurrentqueue.h:2692-2712 | For every tail, reservation and overcommit, the wrapped computation sees no more elements than are published and unreserved if and only if the consumer is not behind the tail by a number whose remainder modulo 2^64 exceeds 2^63. |
| OptimisticDequeue.WinsArePublished | src/concurrency/concurrentqueue.h:1882-1979 | However the overcommit was read, the tickets won so far number at most the published elements. |
| OptimisticDequeue.StepInv | src/concurrency/concurrentqueue.h:2470-2540 | Every step of every consumer and of the producer keeps the accounting of tickets, claims and the four counters, a second look at the tail if its lag is one that RoomExactly allows. |
| OptimisticDequeue.RunInv | src/concurrency/concurrentqueue.h:1672-1676 | The accounting holds in every state of every run with such lags. |
| OptimisticDequeue.TimelyIsTolerable | src/concurrency/concurrentqueue.h:2470-2540 | Every run has such lags in which, at each step of a consumer, at most 2^63 tickets were drawn by others since its load of the overcommit, counting those undecided then. |
| OptimisticDequeue.HeadNeverPassesTail | src/concurrency/concurrentqueue.h:2470-2540 | headIndex plus everything promised to consumers never exceeds tailIndex; the asserted overcommit bound holds. |
| OptimisticDequeue.ClaimedOnceAndPublished | src/concurrency/concurrentqueue.h:2476-2492 | Every index a consumer obtains is already published and was nobody's before. |
| OptimisticDequeue.ClaimsPersist | src/concurrency/concurrentqueue.h:2476-2492 | An index once obtained stays that consumer's in every later state, under any schedule. |
| OptimisticDequeue.QuiescentCounters | src/concurrency/concurrentqueue.h:1672-1676 | With no dequeue in progress, dequeueOptimisticCount minus dequeueOvercommit is headIndex. |
| DequeueCalls.RoomIs | src/concurrency/concurrentqueue.h:2475-2476 | In the range of the wrapped comparison, the computed room is exactly the number of elements from the position to the tail. |
| DequeueCalls.DequeueAlone | src/concurrency/concurrentqueue.h:2470-2492 | From any state of a run, with other dequeues half done or not, a dequeue of up to max elements that runs alone takes in six steps as many as lie between the optimistic count less the overcommit and the tail, if those are fewer than 2^63. |
| DequeueCalls.LeavesAlone | src/concurrency/concurrentqueue.h:2475-2476 | Without such elements it leaves in three steps and has changed nothing; and so it does, wrongly, if there are 2^63 or more within a turn of the counters. |
| DequeueCalls.QuietDequeue | src/concurrency/concurrentqueue.h:2470-2492 | In every run, when no dequeue is in progress, a dequeue of up to max elements obtains exactly the indices from headIndex on, as many as it asks for and as are published. |
| DequeueCalls.LeavesOnlyIfNone | src/concurrency/concurrentqueue.h:2474-2476 | In every run, under any schedule, a dequeue that leaves at its first check loaded a tail, then an overcommit, then an optimistic count by which no element was there, as far as 64 bits tell. |
| DequeueCalls.KeepsExactly | src/concurrency/concurrentqueue.h:2700-2713 | At the second look, a consumer keeps exactly those of its own tickets that stand before the tail and gives back the rest. |
| Lagging.LaggardClaimsUnpublished | src/concurrency/concurrentqueue.h:2470-2492 | For every lag that RoomExactly forbids there is a run of plain dequeues, all other lags negative, in which one element is published, headIndex ends at 2 and the lagging consumer has claimed an index that was never published. |
| Lagging.LagExactly | src/concurrency/concurrentqueue.h:2470-2492 | A condition on the lag that admits every consumer for which elements are there keeps headIndex behind tailIndex in every run if and only if it admits no lag that RoomExactly forbids. |
| BlockIndexes.LookupFinds | src/concurrency/concurrentqueue.h:2857-2874 | For any element of any block in the window, the slot computed by unsigned division and masking holds that block's entry, also for negative distances across the wrap of the index. |
| BlockIndexes.OffsetIs | src/concurrency/concurrentqueue.h:2864-2871 | The computed offset is the true distance in blocks, or 2^59 more than it when that is negative. |
| BlockIndexes.InsertKeeps | src/concurrency/concurrentqueue.h:2815-2831 | Reusing an entry with the invalid key or a null value takes it from no live block and moves no other block's entry. |
| BlockIndexes.RewindKeeps | src/concurrency/concurrentqueue.h:2844-2848 | Rewinding the tail leaves every block with its entry. |
| BlockIndexes.StoreKeeps | src/concurrency/concurrentqueue.h:2425-2457 | Publishing or clearing the value of one block's entry changes nothing for any other block. |
| BlockIndexes.GrowKeeps | src/concurrency/concurrentqueue.h:2875-2917 | Doubling a full index leaves every block with its own entry and puts the unused entries in between. |
| BlockIndexes.CopyFromTail | src/concurrency/concurrentqueue.h:2891-2900 | The copying loop yields the slots in order from the one after the tail round to the tail. |
| BlockIndexes.BlockIndex.constructor | src/concurrency/concurrentqueue.h:2343-2349 | The first index holds 32 unused entries and no block. |
| BlockIndexes.BlockIndex.Insert | src/concurrency/concurrentqueue.h:2814-2842 | On success the block has the entry at the tail and every live block still has its own, whether or not the index grew; it fails only if it may not allocate or has 2^59 slots, and then changes nothing. |
| BlockIndexes.BlockIndex.NewBlockIndex | src/concurrency/concurrentqueue.h:2875-2917 | The capacity doubles, live blocks keep their entries, and the next slot is unused. |
| BlockIndexes.BlockIndex.RewindTail | src/concurrency/concurrentqueue.h:2844-2848 | The tail goes back one block; the same blocks are covered by the same entries. |
| BlockIndexes.BlockIndex.Store | src/concurrency/concurrentqueue.h:2456-2459 | A stored block becomes live under its own entry; a null makes it not live; nothing else changes. |
| BlockIndexes.BlockIndex.Lookup | src/concurrency/concurrentqueue.h:2850-2874 | After any sequence of these operations, looking up any element of a live block returns that block's own entry, with its key and a value. Lookups that overlap them are in IndexReaders. |
| IndexHeaders.FindIs | src/concurrency/concurrentqueue.h:2857-2873 | The slot computed from a tail slot that by now holds a later block, a multiple of the capacity away, is still the slot of the element's block. |
| IndexHeaders.NestedTrans | src/concurrency/concurrentqueue.h:2889-2900 | Through any number of doublings the entries of an old header stand in the newest one for the same blocks modulo the old capacity. |
| IndexHeaders.LookupIn | src/concurrency/concurrentqueue.h:2857-2873 | A lookup in any header, superseded or not, from any slot that holds a key, ends at the entry of the element's block. |
| IndexHeaders.NextIn | src/concurrency/concurrentqueue.h:2782 | In any header, superseded or not, the slot after that of a block is that of the next block. |
| IndexReaders.KeyLoadFinds | src/concurrency/concurrentqueue.h:2857-2873 | Whatever happened between the loads of header, tail and key, the last load ends at the slot of the element's block, also in a header that has been superseded. |
| IndexReaders.WalkFinds | src/concurrency/concurrentqueue.h:2717-2783 | A bulk dequeue that goes from the slot of one block to the next slot of the header it loaded is at the slot of the next block, whatever was inserted, undone or doubled meanwhile. |
| IndexReaders.LookedIs | src/concurrency/concurrentqueue.h:2585-2589 | The producer's own lookup in a rollback finds the entry of its new block, also when the tail has been rewound below it. |
| IndexReaders.StepInv | src/concurrency/concurrentqueue.h:2405-2790 | Every single store of enqueue and enqueue_bulk into the index (insertion, growth, publication and both rollbacks), every load of any number of single and bulk dequeues, every count of emptied elements and every withdrawal keeps the invariant that relates all headers, the shared entries, the counts and the dequeues under way. |
| IndexReaders.RunInv | src/concurrency/concurrentqueue.h:2405-2790 | The invariant holds in every state of every run. |
| IndexReaders.LookupsFindLiveBlocks | src/concurrency/concurrentqueue.h:2850-2873 | In every run, every lookup that has finished and every bulk dequeue on its walk holds the entry of its element's block, with that block's key and the Block that was stored for it, and no lookup read the invalid key at the tail: both assertions in the code hold. |
| IndexReaders.LookupsProceed | src/concurrency/concurrentqueue.h:2850-2873 | In every run, every dequeue can take its next step, whatever the producer did in between. |
| IndexReaders.WithdrawnWhenEmptied | src/concurrency/concurrentqueue.h:1510-1549 | In every run, a consumer about to withdraw a block has its own entry at hand; all 32 elements of the block have been counted, no consumer holds any of them, and no other is about to withdraw it. |
| IndexReaders.WithdrawnOnce | src/concurrency/concurrentqueue.h:2520-2528 | In every run, no block is withdrawn from the index twice. |
| IndexReaders.RollbackRestores | src/concurrency/concurrentqueue.h:2576-2594 | In every run, a rollback, which clears its blocks from the oldest but rewinds the tail from the newest, ends with the tail on the last published block and none of its blocks live. |
| IndexProgress.InsertAlone | src/concurrency/concurrentqueue.h:2814-2842 | From any reachable state between insertions, an insertion below the largest capacity makes the next block live under its own key in three stores, after publishing a larger header if and only if the slot after the tail is in use. |
| IndexProgress.PublishedIsClaimable | src/concurrency/concurrentqueue.h:2405-2465 | In every run, after any publication a consumer at rest can obtain everything from headIndex up to it. |
| IndexProgress.ProducerProceeds | src/concurrency/concurrentqueue.h:2405-2465 | In every run, the producer can always take its next step. |
| IndexProgress.EmptiedIsWithdrawn | src/concurrency/concurrentqueue.h:1510-1549 | In every run, a block all of whose elements were obtained is out of the index once no dequeue that obtained some of them is under way. |
| BlockingQueue.PostsFitInt | src/concurrency/blockingconcurrentqueue.h:396-405 | The number of posts asked of the kernel fits the int it is cast to. |
| BlockingQueue.StepInv | src/concurrency/blockingconcurrentqueue.h:260-405 | Every access to m_count, the kernel semaphore and the inner queue, in every wait, timed, bulk and signal path, keeps waiters, permits and elements balanced. |
| BlockingQueue.RunInv | src/concurrency/blockingconcurrentqueue.h:260-405 | The balance holds in every state of every run. |
| BlockingQueue.PermitsConserved | src/concurrency/blockingconcurrentqueue.h:260-405 | Initial plus signalled minus acquired is max(m_count, 0) plus tokens plus posts still to be made; permits are never over-granted. |
| BlockingQueue.NoLostWakeup | src/concurrency/blockingconcurrentqueue.h:274-296 | A waiter with no token or post in flight means no permit is unclaimed; a timed-out waiter that sees m_count >= 0 has a token or post coming. |
| BlockingQueue.ReservedElements | src/concurrency/blockingconcurrentqueue.h:519-526 | The inner queue always holds at least as many elements as consumers past the semaphore may still take, so the try_dequeue loops never turn on an empty queue. |
| BlockingQueue.QuiescentCount | src/concurrency/blockingconcurrentqueue.h:519-582 | With no operation in progress m_count is the number of elements and no token is left over. |
| SemaphoreCalls.ComesBackWith | src/concurrency/blockingconcurrentqueue.h:260-385 | In every run, an acquisition of at least one comes back with permits, unless it may not wait and m_count was not positive when it left, or it timed out and took its decrement back from a negative m_count; so a wait without limit always does. |
| SemaphoreCalls.AcquireAlone | src/concurrency/blockingconcurrentqueue.h:340-385 | With a positive m_count, a dequeue that runs alone obtains, in four steps, as many elements as it asks for and m_count allows. |
| SemaphoreCalls.SpinsAlone | src/concurrency/blockingconcurrentqueue.h:260-272 | So does one that is already spinning, in two steps up to its permits. |
| SemaphoreCalls.TimedOutAlone | src/concurrency/blockingconcurrentqueue.h:287-296 | A waiter that timed out and runs alone is through in two steps: with a permit if m_count is not negative and the token is there, with its decrement taken back if m_count is negative. |
| SemaphoreCalls.WokenAlone | src/concurrency/blockingconcurrentqueue.h:299-336 | A waiter woken by a token that asked for more than one takes one and whatever else m_count allows. |
| RingQueues.PushHolds | src/concurrency/DevcashRingQueue.h:62-92 | push writes to a free slot and appends to the queue held; count and flags follow. |
| RingQueues.PopGuardHolds | src/concurrency/DevcashRingQueue.h:98-113 | popGuard reserves one message and sets the empty flag exactly if none is left unreserved. |
| RingQueues.PopHolds | src/concurrency/DevcashRingQueue.h:120-140 | After popGuard, pop returns the oldest message, never null, and the ring holds the rest. |
| RingQueues.RingIsFifo | src/concurrency/DevcashRingQueue.h:62-140 | In every interleaving, for every capacity from 1, what was popped followed by what is held is what was pushed, and full and empty flags match the true occupancy. |
| RingQueues.DevcashRingQueue.constructor | src/concurrency/DevcashRingQueue.h:46-50 | The new ring is empty. |
| RingQueues.DevcashRingQueue.Push | src/concurrency/DevcashRingQueue.h:62-92 | One turn of push waits exactly if the ring holds as many messages as it has slots and then changes nothing; otherwise its statements, in place, append the message. |
| RingQueues.DevcashRingQueue.PopGuard | src/concurrency/DevcashRingQueue.h:98-113 | One turn of popGuard waits exactly if the ring holds nothing and then changes nothing; otherwise its statements, in place, keep the queue held. |
| RingQueues.DevcashRingQueue.Pop | src/concurrency/DevcashRingQueue.h:120-140 | The statements of pop, in place, deliver the oldest message. |
| Consensus.StepInv | src/consensus/tier2_message_handlers.cpp:24-179 | Every handler step of every node keeps the invariant of chains, pending proposal, messages, offers and signatures. |
| Consensus.RunInv | src/consensus/tier2_message_handlers.cpp:24-179 | The invariant holds in every state of every run. |
| Consensus.ChainAgreement | src/consensus/tier2_message_handlers.cpp:54-112 | All chains are prefixes of one log; block k was finalised by node k mod N, which has it on its chain. |
| Consensus.LogGrows | src/consensus/tier2_message_handlers.cpp:150-179 | The log is only ever extended. |
| Consensus.OnePendingProposal | src/concurrency/ValidatorController.cpp:66-89 | At most one node holds a proposal; it is the next leader, has the whole log, and the proposal points at its end. |
| Consensus.NeverReverifies | src/consensus/tier2_message_handlers.cpp:81-85 | A final block never reaches a node with a pending proposal and always is its next block, so ReverifyProposal is never run. |
| Consensus.TurnHasWholeLog | src/consensus/tier2_message_handlers.cpp:87-92 | A node that sees its turn has received every block. |
| Consensus.ApprovalsWereValidated | src/consensus/tier2_message_handlers.cpp:114-148 | Every approval on record comes from an earlier step in which that node's validate passed on exactly that proposal. |
| Consensus.QuorumAndLinks | src/primitives/ProposedBlock.h:191-226 | Every final block names its predecessor's hash (or Genesis) and carries more than N/2 distinct signers, each its leader or a node that validated exactly that proposal before. |
| Consensus.CausalExactly | src/consensus/tier2_message_handlers.cpp:68-71 | Pushing a final block not yet received keeps the chain a prefix of the log if and only if everything its sender had received has been received. |
| Mempool.PoolStep | src/consensus/UnrecordedTransactionPool.h:435-462 | What one step does to the pools: an announcement adds its transactions at the node it reaches, finalising a block takes its transactions from the node that finalises it, and nothing else changes any pool. |
| Mempool.FinalisedAreRemoved | src/consensus/UnrecordedTransactionPool.h:435-462 | In every run, a step that finalises a block leaves none of its transactions in the pool of that node, and every other transaction in every pool where it was. |
| Mempool.PoolExactly | src/consensus/UnrecordedTransactionPool.h:435-462 | In every run, the pool of a node holds exactly the transactions announced to it that it has not finalised since; final blocks of others do not take any away. |
| Mempool.BackOnlyIfAnnounced | src/consensus/UnrecordedTransactionPool.h:435-462 | In every run, a transaction of a block that a node finalised is in its pool again only if it was announced to it again. |
| Mempool.ProposesExactly | src/concurrency/ValidatorController.cpp:66-89 | In every run, a node without a pending proposal makes one exactly at a step that brings it transactions or a final block after which its pool is not empty and the next height is its own; it is on top of its chain, signed by it, and sent. |
| Mempool.ApprovesExactly | src/consensus/tier2_message_handlers.cpp:114-148 | In every run, a node that receives a proposal signs it and sends the validations on, its own added, exactly if the proposal is one and validates. |
| Mempool.FinalisesExactly | src/consensus/tier2_message_handlers.cpp:150-179 | In every run, a step finalises a block exactly if it brings the holder of a pending proposal at least two validations for its previous hash that, with those it has, exceed half of the nodes; the block is what was proposed, with all of them. |
| Mempool.ReverifiedProposal | src/consensus/tier2_message_handlers.cpp:81-85 | A pending proposal that met a final block would go on under the hash of that block, with its payload if still valid and a new one otherwise. |
| Misdelivery.OvertakingIsReachable | src/consensus/tier2_message_handlers.cpp:54-112 | For any three nodes and any payload that validates there is a run to a state in which the second final block is under way to a node that has not received the first and, pushed there, would be at the wrong height. |
| Summaries.AddAllLook | src/primitives/Summary.h:145-197 | After adding any transfers, each cell is what it was joined with their wrapped sum and longest delay. |
| Summaries.CellsDetermine | src/primitives/Summary.h:61-91 | Two summaries with the same cells are equal. |
| Summaries.SummaryPermuted | src/primitives/Summary.h:145-197 | The summary does not depend on the order of the transfers. |
| Summaries.TallyReadBack | src/primitives/Summary.h:250-268 | The transfers read back from any summary with 64-bit fields amount in every cell to what LookBack says of its entry, and to what the summary itself holds if every address has an item and every delayed item a positive delay. |
| Summaries.ReadBackRoundTrip | src/primitives/Summary.h:250-268 | Summarising what was read back from a summary with 64-bit fields gives that summary if and only if every address has an item and every delayed item a positive delay. |
| Summaries.SummariseTwice | src/primitives/Tier1Transaction.h:226-239 | Adding the transfers read back from the summary of a list equals adding the list. |
| Summaries.ChainOfSummaries | src/primitives/Tier1Transaction.h:158-163 | Adding one summary per block equals adding all transfers of all blocks, in any order. |
| Ledger.PostAllBalance | src/consensus/chainstate.cpp:21-34 | Posting a list changes a balance by the sum of its amounts for that address and coin. |
| Ledger.CollectExplains | src/consensus/UnrecordedTransactionPool.h:381-405 | After any pass, of either tier, state, summary and aggregate are exactly what the posted transfers explain, those of half-rejected transactions included. |
| Ledger.StateChangeIsSummary | src/consensus/UnrecordedTransactionPool.h:381-405 | For every address and coin and for transactions of either tier, new minus prior balance is the summary's delayed plus immediate delta modulo 2^64, whatever was rejected halfway. |
| Ledger.SafeExactly | src/primitives/Tier2Transaction.h:484-491 | No order of the posted transfers overdraws a balance at any point if and only if the prior balance covers all spends together. |
| Ledger.OrderSafety | src/primitives/Tier2Transaction.h:478-497 | An address that spends from one coin, and at least twice in a pass, is overdrawn by no order of what the pass posted. |
| Assembly.AddAllTotal | src/primitives/Summary.cpp:9-28 | The total over a summary moves by the sum of the transfers, modulo 2^64. |
| Assembly.PostAllTotal | src/consensus/chainstate.cpp:21-34 | The total over all balances moves by the sum of the transfers. |
| Assembly.RejectionIsCleanExactly | src/primitives/Tier2Transaction.h:464-507 | A sound transaction leaves nothing behind when it is rejected, in every pass over every pool from every prior state, if and only if no transfer after its first is a spend. |
| Assembly.RejectionCanLeaveTraces | src/primitives/Tier2Transaction.h:464-507 | In a pass over two sound transactions, the second, whose receipt stands before its spend, is rejected and its receipt stays in state and summary. |
| Assembly.AllOrNothing | src/primitives/Tier2Transaction.h:464-507 | A transaction in which only the first transfer may be a spend is taken whole or leaves the books untouched. |
| Assembly.ReverificationFixpoint | src/consensus/UnrecordedTransactionPool.h:407-428 | Re-verifying exactly the accepted transactions from the same prior state succeeds and rebuilds state and summary. |
| Assembly.HonestProposalAccepted | src/primitives/ProposedBlock.cpp:12-38 | A proposal made from sender-first transactions with at least one accepted conserves the total over all balances, has a sane summary and passes validate. |
| Assembly.ValidateExactly | src/primitives/ProposedBlock.cpp:12-38 | A block whose summary is made from any transfers passes validate if and only if it has transactions and transfers, the amounts cancel out modulo 2^64, and every validation is its signer's own signature of that summary. |
| Authority.SoundExactly | src/primitives/Tier2Transaction.h:354-415 | A transaction is sound if and only if its amounts cancel out and the address of every spend signed it and, unless it is an exchange, is one of the INN; without a spend, the null address stands for the sender. |
| Authority.EverySpendAuthorised | src/primitives/Tier2Transaction.h:394-405 | In every pass over every pool, every spend that is posted, even by a transaction that is then rejected, stands in a transaction of the pool that its own address signed, one of the INN if it is not an exchange. |
| Authority.AcceptedIsLawful | src/consensus/UnrecordedTransactionPool.h:381-405 | Every accepted transaction cancels out and has at most one spender, who signed it. |
| Authority.ReverifiedIsLawful | src/consensus/UnrecordedTransactionPool.h:415-428 | So does every transaction that is still valid when verified again. |
| Authority.AcceptedNextExactly | src/primitives/Tier2Transaction.h:464-507 | A sender-first transaction that comes after any others is accepted if and only if its amounts cancel out, its spend is authorised, and the two checks against the books and the prior state pass. |
| Overdrafts.FirstSpendUnchecked | src/primitives/Tier2Transaction.h:479-483 | A pass over one sound payment of any size from an address that owns nothing accepts it and leaves the address that much below zero. |
| Overdrafts.OverdrawnExactly | src/primitives/Tier2Transaction.h:464-507 | A sound sender-first transaction is accepted if and only if its spend passes two checks on the books and the prior state, and then leaves its sender below zero if and only if the balance before does not cover what it takes. |
| Overdrafts.PassSafeExactly | src/primitives/Tier2Transaction.h:478-497 | For an address that spent from one coin in a pass, no order of what was posted overdraws it if and only if it spent at least twice or its prior balance covers its spends. |
| Overdrafts.PoolSafe | src/consensus/UnrecordedTransactionPool.h:381-405 | If the prior balance is not negative and covers each single spend of the pool on that coin, nothing a pass accepts overdraws it in any order. |
| Overdrafts.AlwaysSafeExactly | src/consensus/UnrecordedTransactionPool.h:381-405 | No pool made of given sender-first transactions on one coin of an address can overdraw its prior balance if and only if that balance is not negative and every single spend is covered by it or, the address being known without that coin, is guarded and no pass over these transactions puts the coin on record. |
| Overdrafts.NeverOpened | src/primitives/Tier2Transaction.h:479-483 | For a known address without the coin, whose own transactions are guarded, no pass puts the coin on record if none of the transactions has a receipt of it. |
| Overdrafts.OpenedByOne | src/primitives/Tier2Transaction.h:479-501 | One transaction that names the coin of the address and passes by itself is enough to put it on record. |
| Overdrafts.KnownWithoutCoin | src/consensus/chainstate.cpp:36-43 | Alone, a guarded first spend is refused for a known address without the coin and accepted for an address that is not known at all. |
| LedgerObjects.ChainStateObject.AddCoin | src/consensus/chainstate.cpp:21-34 | Adds the amount to that balance in place. |
| LedgerObjects.SummaryObject.AddItem | src/primitives/Summary.h:145-174 | Updates the nested maps in place as AddItem says. |
| LedgerObjects.SummaryObject.IsSane | src/primitives/Summary.cpp:9-28 | The wrapping accumulation over nested loops finds whether the summary is non-empty and its total is 0 modulo 2^64. |
| LedgerObjects.SummaryObject.GetTransfers | src/primitives/Summary.h:250-268 | Lists the transfers of any summary in map order, as ReadBack says. |
| LedgerObjects.CheckAndPost | src/primitives/Tier2Transaction.h:474-501 | One turn of the loop over transfers, on the three objects, including what a refusal leaves. |
| LedgerObjects.CheckInAggregate | src/primitives/Tier2Transaction.h:464-507 | The whole check on the three objects, including what a rejection leaves. |
| LedgerObjects.UnrecordedTransactionPool.CollectValidTransactions | src/consensus/UnrecordedTransactionPool.h:381-405 | The loop over the pool accepts, posts and stops as Collect says, and keeps the transactions in the pool. |
| LedgerObjects.UnrecordedTransactionPool.ReverifyTransactions | src/consensus/UnrecordedTransactionPool.h:415-428 | Succeeds if and only if every transaction is still valid after those before it. |
| Ordering.InOrder | src/primitives/Summary.h:208 | Walking a map from its least key upwards visits the keys in ascending order. |
| Ordering.BytesLessExactly | src/primitives/Address.h:69 | Byte strings compare by the first byte in which they differ; a proper prefix is less. |
| Bytes.LeRoundTrip | src/common/binary_converters.h:30-74 | Decoding an n-byte encoding gives the number back if and only if it fits n bytes. |
| Bytes.LeInverse | src/common/binary_converters.h:30-74 | Encoding the value of any bytes gives those bytes. |
| Bytes.BinToUint32 | src/common/binary_converters.h:30-37 | The loop computes the little-endian value of four bytes, or throws past the end. |
| Bytes.Uint32ToBin | src/common/binary_converters.h:39-45 | The loop appends the four little-endian bytes. |
| Bytes.BinToUint64 | src/common/binary_converters.h:53-59 | Two halves make the value of eight bytes, or it throws past the end. |
| Bytes.Uint64ToBin | src/common/binary_converters.h:67-74 | Two halves append the eight bytes. |
| Buffers.NextTier2 | src/primitives/buffers.h:135-162 | At any offset and whatever follows, the next Tier 2 transaction is cut exactly where it ends. |
| Buffers.FillDropsLastByte | src/primitives/Tier2Transaction.cpp:44-58 | Fill and QuickFill always stop one byte early. |
| Buffers.BuiltIsTier2 | src/primitives/Tier2Transaction.h:47-84 | What the constructors lay out is what getNextTransaction recognises. |
| Buffers.BuildTransaction | src/primitives/Tier2Transaction.h:60-79 | Appending and inserting at the front produces the canonical layout. |
| Buffers.TransferBytes | src/primitives/Transfer.h:43-51 | The canonical bytes of a transfer. |
| Buffers.TransfersRoundTrip | src/primitives/Tier2Transaction.h:306-316 | The transfers read from a transaction are the ones it was built from. |
| Buffers.ViewIs | src/primitives/Transfer.h:149-203 | The getters of a transfer return what its constructor was given. |
| Buffers.GetTransfers | src/primitives/Tier2Transaction.h:306-316 | The loop over the transfer bytes on all inputs, every transfer seen through its getters, which fail on an address type other than wallet and node. |
| Buffers.ReadAddressHas | src/primitives/buffers.h:105-112 | A canonical address is read back and no more is consumed. |
| Buffers.ReadSignatureHas | src/primitives/buffers.h:114-121 | A canonical signature is read back and no more is consumed. |
| Buffers.InputBuffer.GetNextUint32 | src/primitives/buffers.h:184-189 | Reads at the cursor and moves it if asked to; fails past the end. |
| Buffers.InputBuffer.GetNextUint64 | src/primitives/buffers.h:198-203 | Reads at the cursor and moves it if asked to; fails past the end. |
| Buffers.InputBuffer.CopyAddress | src/primitives/buffers.h:105-112 | Reads a length-prefixed address through the Address constructor. |
| Buffers.InputBuffer.CopySignature | src/primitives/buffers.h:114-121 | Reads a length-prefixed signature; a wrong size or type fails. |
| Buffers.InputBuffer.GetNextT1Transaction | src/primitives/buffers.h:164-175 | Cuts a Tier 1 transaction, or nothing without moving if the buffer is too short, with 64-bit wrap-around. |
| Buffers.InputBuffer.GetNextTransaction | src/primitives/buffers.h:135-162 | Cuts a Tier 2 transaction or falls back to Tier 1, on all inputs, with 64-bit wrap-around. |
| Codec.ReadMap | src/primitives/Summary.h:339-373 | If every entry of a map can be read back from its code, so can the map from the codes in key order. |
| Codec.FirstStays | src/primitives/Summary.h:339-373 | Of two entries with the same key, in a summary or in validations, the one that is read first stays. |
| Codec.SummaryRoundTrip | src/primitives/Summary.h:203-230 | A summary is read back from its canonical bytes wherever they stand, consuming exactly them. |
| Codec.SummaryInjective | src/primitives/Summary.h:203-230 | Canonical bytes determine the summary. |
| Codec.BytesPermuted | src/primitives/Summary.h:203-230 | The canonical bytes do not depend on the order in which transfers were summarised. |
| CanonicalOrder.SummaryByBytes | src/primitives/Summary.h:203-268 | The entries of a summary are written, and their transfers read back, in the one order in which the address with the smaller first differing byte comes first. |
| CanonicalOrder.EntryByNumber | src/primitives/Summary.h:215-230 | Inside an entry delayed items come first, and both kinds stand in the order of the coin numbers, in the bytes and in the transfers read back. |
| CanonicalOrder.EntryEarlier | src/primitives/Summary.h:208 | Of any two addresses of a summary, the one with the smaller first differing byte has its whole entry earlier in the canonical bytes. |
| CanonicalOrder.TransfersEarlier | src/primitives/Summary.h:250-268 | And all its transfers earlier in what is read back. |
| CanonicalOrder.ValidationByBytes | src/primitives/Validation.h:119-129 | Validations are written in that order of their addresses. |
| CanonicalOrder.ValidationEarlier | src/primitives/Validation.h:119-129 | Of any two validations, the one whose address has the smaller first differing byte is written earlier. |
| CanonicalOrder.PoolByBytes | src/consensus/UnrecordedTransactionPool.h:381-405 | A pass takes the transactions of a pool in that order of their signatures. |
| Blocks.ValsDecode | src/primitives/Validation.h:191-208 | Validations are read back from their canonical bytes. |
| Blocks.HeaderDecodes | src/primitives/FinalBlock.cpp:17-31 | The 101-byte header is read back. |
| Blocks.BlockRoundTrip | src/primitives/FinalBlock.cpp:12-42 | FinalBlock::Create reads a well-formed block back at any offset of any buffer and stops at its end. |
| Blocks.DumpRoundTrip | src/consensus/tier2_message_handlers.cpp:208-223 | Splitting the partial dump of a chain of well-formed blocks yields blocks start to size-2 in order, ends exactly at the buffer end, and they serialise to the same bytes. |
| Layouts.MadeSignature | src/primitives/Signature.h:42-72 | The Signature constructor returns exactly signatures, given as they are or without their type byte, and refuses everything else. |
| Layouts.MadeAddress | src/primitives/Address.h:38-57 | The Address constructor adds the type byte to a raw address and keeps everything else as it is. |
| Layouts.NextTier1 | src/primitives/buffers.h:164-175 | At any offset and whatever follows, the next Tier 1 transaction is cut where it ends; if the buffer ends before, nothing is cut. |
| Layouts.TierOneRecognised | src/primitives/buffers.h:135-162 | getNextTransaction cuts a Tier 1 transaction where it ends, unless the bytes where a Tier 2 transaction has its nonce size and its operation could be those of one. |
| Layouts.BlockLayout | src/primitives/FinalBlock.cpp:12-42 | Whatever the buffer, a block read from it has version 0 and no more bytes than the buffer, its header and transactions are the bytes that stand there, and they reach as far as the header says. |
| Layouts.ProposalRoundTrip | src/primitives/ProposedBlock.h:410-460 | A proposal is read back from its canonical bytes by any reader that reads its transactions. |
| Layouts.ProposalReadsBack | src/primitives/ProposedBlock.h:410-460 | With the reader of final blocks, every proposal of Tier 2 transactions comes back. |
| Layouts.FillMisreads | src/primitives/Tier2Transaction.cpp:44-58 | With Fill, which the peers use, no proposal that has transactions does. |
| Layouts.FinalisedReadsBack | src/primitives/FinalBlock.h:26-42 | Transactions, summary, validations and previous hash of a proposal come back from the bytes of the block it is finalised to. |
| TierOne.TierOneDecodes | src/primitives/Tier1Transaction.h:67-92 | The summary inside a Tier 1 transaction is read back. |
| TierOne.AnnouncementSplits | src/consensus/UnrecordedTransactionPool.h:49-59 | Splitting the concatenated announcement yields exactly the announced transactions and ends at the end of the buffer. |
| TierOne.AnnouncedClaim | src/primitives/Tier1Transaction.h:158-163 | The transfers a Tier 1 node sees in an announced transaction are all those read back from the block's summary. |
| TierOne.FreshPool | src/consensus/UnrecordedTransactionPool.h:69-106 | An empty pool takes in all announced transactions if and only if their signatures are distinct, and then lists them in the order of their signatures. |
| Acceptance.RunExactly | src/primitives/Tier1Transaction.h:262-301 | The transfers of a Tier 1 transaction all go through if and only if every spend of an address that has spent before is covered by its prior balance together with those spends. |
| Acceptance.CollectExactly | src/consensus/UnrecordedTransactionPool.h:381-405 | A pass accepts every transaction of a pool of Tier 1 transactions, and posts exactly their transfers, if and only if all of those are covered in pool order. |
| Acceptance.CoveredExactly | src/primitives/Tier1Transaction.h:274-288 | If every address spends from one coin, the order does not matter: all is covered if and only if the prior balance of every address that spends twice covers all its spends. |
| TierOne.AcceptedExactly | src/consensus/UnrecordedTransactionPool.h:381-405 | Every announced summary is accepted if and only if the signatures are distinct, the limit of the block is not exceeded and every spend is covered in pool order. |
| TierOne.TwoTiers | src/consensus/tier2_message_handlers.cpp:208-229 | Dump, split, announce, split, pool and pass: the Tier 1 books are exactly what the pass posted; every summary is accepted if and only if AcceptedExactly's condition holds; and then the Tier 1 summary is what all transfers of all those blocks amount to in any order, and every balance moved by their sum modulo 2^64. |
| Refusals.SecondSummaryRefused | src/primitives/Tier1Transaction.h:274-288 | Two announced blocks with a payment of 1 by the same address each are not both accepted by a Tier 1 node that has no balance for it, although each of them is accepted alone. |
| Refusals.RefusedThoughDistinct | src/primitives/Tier1Transaction.h:274-288 | For any two addresses, coin, node and two different signatures there are such an announcement of sound transactions, with these signatures, and a verifier that lets it through. |
| Vouching.SoundIsVouched | src/primitives/Tier1Transaction.h:198-215 | A Tier 1 transaction is sound if and only if it is the frame of some bytes, a node address and a signature of those bytes that verifies for that address. |
| Vouching.AnnouncedExactly | src/consensus/tier2_message_handlers.cpp:208-229 | A block is announced if and only if its validation with the least address is a node's, its summary is sane and that signature verifies; what is announced is its summary with that validation. |
| Vouching.CheckedExactly | src/primitives/Tier1Transaction.h:30-58 | The constructor from a buffer takes a framed transaction if and only if a node vouches for it or fewer bytes follow than it is long, as behind the last one of an announcement. |
| Vouching.AddedAreVouched | src/consensus/UnrecordedTransactionPool.h:69-106 | Adding transactions takes nothing out of a pool and replaces nothing; whatever is new is vouched for and under its own signature. |
| Vouching.RefsCount | src/consensus/UnrecordedTransactionPool.h:69-106 | The references of a known transaction grow, in eight bits, by the number of times it is announced again. |
| Vouching.EverySummaryVouched | src/primitives/Tier1Transaction.h:262-301 | In every pass over every pool, every transfer posted is read back from the summary of a transaction that a node vouched for, and so is every transaction accepted. |
| TierOneObjects.CreateTierOne | src/primitives/Tier1Transaction.h:30-58 | The constructor from a buffer on all inputs, with the size check that comes after the copy. |
| TierOneObjects.CreateTransactions | src/consensus/UnrecordedTransactionPool.h:49-59 | The loop that splits an announcement, on all inputs. |
| TierOneObjects.TierOnePool.AddTransactions | src/consensus/UnrecordedTransactionPool.h:69-106 | The loop over the transactions updates the pool in place: a reference more, a new entry, nothing for an unsound one, and an end at an exception. It reports success if and only if every transaction has a signature and is sound or a repeat of one in the pool or before it. |
| TierOneObjects.CheckSummaryInAggregate | src/primitives/Tier1Transaction.h:262-301 | The whole check on the three objects of a pass, including what a refusal or an exception leaves. |
| Proposals.SizeExactly | src/primitives/ProposedBlock.h:248-271 | num_bytes is the length of the canonical bytes if and only if each validation was counted once. |
| Proposals.FinalSizeExactly | src/primitives/FinalBlock.h:26-42 | The final block's count, 40 more, is the length of its own bytes under the same condition. |
| Proposals.SignExactly | src/primitives/ProposedBlock.h:191-202 | Signing keeps the size right if and only if it was right and the signer is new. |
| Proposals.SignKeeps | src/primitives/ProposedBlock.h:191-202 | Signing adds the signer with the signature and keeps all validations present, also the signer's own. |
| Proposals.MergeRepairs | src/primitives/ProposedBlock.h:211-226 | Merging validations makes the size right whatever happened before. |
| Proposals.SizeBookkeeping | src/primitives/ProposedBlock.h:97-117 | After construction and any sequence of signatures by distinct nodes, received validation data and re-parenting, both sizes are right. |
| Proposals.ValidationDataRoundTrip | src/primitives/ProposedBlock.h:304-311 | What one node's getValidationData carries is exactly what checkValidationData merges at another, and the quorum answer follows. |
| Proposals.JudgedExactly | src/primitives/ProposedBlock.h:211-242 | Validation data of any content counts for a proposal if and only if it names its previous hash and can be read; then validations present are kept, those of new signers are added, and the answer is whether they exceed half of the peers. All other data leaves the proposal as it was. |
| Proposals.OtherProposalIgnored | src/primitives/ProposedBlock.h:223-239 | Validations for a proposal with another previous hash are ignored. |
| Proposals.FinalisedIsWellFormed | src/primitives/FinalBlock.h:26-42 | A finalised proposal is a block that can be dumped and read back. |
| BlockObjects.SummaryCanonical | src/primitives/Summary.h:203-230 | The nested loops write the canonical bytes. |
| BlockObjects.ValidationCanonical | src/primitives/Validation.h:119-129 | The loop writes the canonical bytes. |
| BlockObjects.FinalBlockCanonical | src/primitives/FinalBlock.h:252-275 | The serialiser writes the canonical bytes. |
| BlockObjects.PartialBinaryDump | src/consensus/blockchain.h:114-124 | The loop writes the blocks from start up to, not including, the top one; nothing for a start beyond. |
| BlockObjects.CreateSummary | src/primitives/Summary.h:339-373 | The nested loops parse as ReadSummary says, on all inputs. |
| BlockObjects.CreateValidation | src/primitives/Validation.h:191-208 | The loop parses the given number of pairs, on all inputs. |
| BlockObjects.CreateRemaining | src/primitives/Validation.h:175-189 | The loop parses as many pairs as the remaining size allows for, on all inputs. |
| BlockObjects.ReadTransactions | src/primitives/FinalBlock.cpp:33-37 | The transaction loop on all inputs; a turn that does not move the cursor is reported as divergence. |
| BlockObjects.CreateFinalBlock | src/primitives/FinalBlock.cpp:12-42 | The parser on all inputs: the block and where it ends, or failure. |
| BlockObjects.SplitDump | src/consensus/tier2_message_handlers.cpp:208-223 | The loop that splits a dump, on all inputs. |
| BlockObjects.ProposedBlock.constructor | src/primitives/ProposedBlock.h:97-117 | The sizes are computed from the contents. |
| BlockObjects.ProposedBlock.SignBlock | src/primitives/ProposedBlock.h:191-202 | Adds the signer if new, counts it in any case; refuses what is not a node address and signature. |
| BlockObjects.ProposedBlock.CheckValidationData | src/primitives/ProposedBlock.h:211-242 | Merges data that names this proposal's previous hash, keeping present validations, and tells whether they exceed half the peers. |
| BlockObjects.ProposedBlock.SetNull | src/primitives/ProposedBlock.h:135-140 | The proposal becomes null and keeps its contents. |
| Uris.HexRoundTrip | src/common/binary_converters.h:144-175 | Hex2Bin undoes ToHex on all bytes. |
| Uris.Hex2Bin | src/common/binary_converters.h:144-153 | The loop converts pairs of characters, bad characters and odd ends included. |
| Uris.HexString | src/primitives/Address.h:121-132 | The loop prints two upper-case digits per byte. |
| Uris.StoulRoundTrip | src/common/devv_uri.h:83 | stoul undoes to_string below 2^64. |
| Uris.SplitFirst | src/common/devv_uri.h:76 | Splitting at slashes gives the part before the first slash and then the parts of the rest. |
| Uris.UriRoundTripExactly | src/common/devv_uri.h:54-98 | Parsing a printed URI gives it back if and only if its fields are filled in order and in canonical form and its shard is non-empty, slash-free and trimmed, or it is the blank URI. |
| UriInputs.StoulAccepts | src/common/devv_uri.h:83 | stoul skips white space, takes a sign and stops at the first character that is no digit; a minus sign wraps around. |
| UriInputs.HeightIsCut | src/common/devv_uri.h:83 | A height beyond 32 bits is cut off. |
| UriInputs.TrimIs | src/common/devv_uri.h:79-94 | trim takes away all white space around a part, and nothing else. |
| UriInputs.EitherCase | src/common/binary_converters.h:144-153 | Hex2Bin reads hexadecimal digits in either case. |

## Left out

- OpenSSL, SHA-256, key rings and key files: signatures and hashes are ideal values.
- ZeroMQ transport, executors, thread groups, sleeps, logging, JSON and tracing: no bearing on the properties.
- Weak memory ordering, allocation, destructors, exceptions thrown by element constructors and the producer hash table of the vendored queue.
- The explicit producer's circular block index and the moving of elements in and out of blocks.
- Liveness of consensus, and agreement on ChainState between nodes: the code does not guarantee them.
- Per-coin conservation: soundness sums amounts over all coins, and so does the model.
- FreeList.StepInv: fewer than 2^31 - 1 threads, so that reference counts never reach the flag bit.
- OptimisticDequeue.StepInv: requires a tolerable lag, which nothing in the code enforces; Lagging.LagExactly shows that no weaker condition on the lag will do.
- BlockingQueue.StepInv: the inner queue is a counter of elements, and spinning may give up after any number of turns.
- BlockIndexes.BlockIndex.Lookup: lookups are calls between the producer's operations; IndexReaders has them overlapping.
- IndexReaders.StepInv: dequeues claim only elements behind tailIndex, which is what OptimisticDequeue.HeadNeverPassesTail proves of the counters; elements are numbered without wrap-around and only seen modulo 2^64 by the code.
- RingQueues.RingIsFifo: one producer and one consumer, pop only after popGuard; clearBlockers is not modelled.
- Consensus.StepInv: the handlers are functions on values and messages arrive as sent, although the parsing of PROPOSAL_BLOCK and FINAL_BLOCK through Tier2Transaction::Fill fails in the code; the payload a proposal collects is arbitrary; loading blocks received from other shards is not modelled.
- Ledger.StateChangeIsSummary: balances are unbounded integers; the claim is modulo 2^64. A transfer that cannot be read as a whole posts nothing; in the code one whose address field is cut short can have its amount and coin read, be posted to the state, and only then fail at its delay.
- Ledger.OrderSafety: balances are unbounded, and soundness is recomputed where the code caches it.
- Proposals.SizeBookkeeping: byte counts are unbounded.
- Codec.SummaryRoundTrip: fewer than 2^32 addresses, each a wallet or node address in canonical form; others do not round trip.
- Blocks.BlockRoundTrip: blocks of Tier 2 transactions only; a Tier 1 transaction can look like one of Tier 2 to getNextTransaction.
- TierOne.TwoTiers: the pool is empty when the announcement arrives, and a first validation by anything but a node address is taken to make the Tier1Transaction constructor throw.
- The constructors of FinalBlock that parse transactions with keys, and the thread pool of TransactionCreationManager.
