# A model of the semantic LLM cache and of its plugin platform

The system answers prompts from a cache. A vector index finds the stored prompts nearest to a
query, a persistence store holds the entries, and an eviction policy says which entry to drop when
the store is over its capacity. Updates reach the cache through a queue with leases. Each of these
parts is a plugin that an administrator can replace while the system runs, and state moves over to
the new part when that happens.

These modules model that behaviour and prove what it keeps: over every run, in every interleaving,
with every remote call free to fail.

| file | what it models |
|---|---|
| `Entries.dfy` | entries, their (creation time, id) order, sorted listings of a store |
| `Policies.dfy`, `PolicyObjects.dfy` | LRU, FIFO and LFU, as values and as the objects with their lists and maps |
| `CacheEngine.dfy`, `Service.dfy` | the write path over index, store and policy, as functions and as the service object |
| `CacheLaws.dfy` | what each operation of the cache amounts to; what index and store hold in every run |
| `CacheRuns.dfy` | runs of the cache that end in an unfinished eviction that stays, a blocked one, a lost entry |
| `PolicyAdapter.dfy`, `AdapterLaws.dfy` | the remote policy: bounded channel, batching sender, barriers, the plugin's LRU |
| `LeaseQueue.dfy`, `LeaseLaws.dfy`, `QueueSwitch.dfy` | the lease queue with its workers; swapping and draining queues |
| `Nearest.dfy`, `VectorIndex.dfy` | nearest-K search against a full scan; the FAISS adapter against the plain index |
| `Migration.dfy` | re-embedding, copying to another store, replaying into another policy |
| `Lifecycle.dfy`, `PluginSwitch.dfy` | a plugin's stages and verification; switching slots, rollback, deletion, restart |
| `SwitchLaws.dfy` | exactly when a switch happens, what it changes and what a failed one leaves |
| `SwitchRuns.dfy` | runs of the plugin platform that end where its promises fail |
| `Paging.dfy` | listing a remote store page by page |
| `RateLimiter.dfy`, `WriteGate.dfy` | the request limiter; pausing cache writes |

Code that changes state step by step is a class whose methods are proved equal to functions on
values, and the laws are lemmas about those functions. Code that several threads or processes run
at once is a state machine over its atomic steps, and the laws hold in every state of every run.

## Assumptions

- A backend call takes full effect and reports success, or has no effect and reports an error. Index
  rebuilds during a re-embedding and saves of a migration candidate may do anything instead.
- Generated ids and lease tokens are fresh. Times are integers and the clocks of the queue server and of
  the limiter do not go back. Vector components and distances are reals, so NaN does not occur in them.
- One cache update, query or flush is atomic, and so is one operation of the plugin manager.
- In the runs of `CacheEngine` a flush of the store works; in the runs of `PluginSwitch` no record update
  fails after the selection has been written, and the verdict of the contract tests gets recorded. What
  happens otherwise is stated by `FlushKeepsInvIff`, `SwitchKeepsInvIff` and `PipelineOutcome`.

## Where the code does not keep what it promises

- `FlushCache` logs a failed store flush and goes on. The entries left behind can be neither found nor
  evicted: `CacheEngine.FlushKeepsInvIff`, reached in `CacheRuns.FlushLosesEntry`.
- The repository's consistency tests call an interrupted eviction self-healing. For LRU and FIFO it is
  (`UpdateHeals`); for LFU a new entry can overtake the unfinished one (`LfuOvertakes`). For any policy
  `UpdateHealsIff` says when the next update heals; `StuckIsReached` and `LfuStuckState` reach the case
  in which it does not.
- `switchSlot` says that memory and registry never disagree. They do exactly when a record update fails
  after the selection has been written: `PluginSwitch.SwitchKeepsInvIff`, reached in `TornIsReached`.
- A deactivation that fails leaves a serving plugin marked failed, and it can then no longer be rolled
  back: `FailedDeactivationBlocksRollback`, `RollbackAvailable`, reached in `BlockedRollbackIsReached`.
- A rollback puts the similarity threshold back only if the metric is seen to change again:
  `RollbackUndoesActivate`, reached in `LostThresholdIsReached`.
- A switch records the threshold that was confirmed even if its plan does not set it, and a restart
  then sets it: `RestartKeepsThresholdIff`, reached in `RestartChangesThreshold`.
- The pipeline ignores a failure to record the verdict of the contract tests, and then verifies a plugin
  that has no recorded pass: `Lifecycle.PipelineOutcome`, reached in `UnprovenIsReached`.
- A re-embedding that fails restores the old vectors, but nobody compares how many the rebuild restored:
  `Migration.RestoreKeepsInvIff`, reached in `RestoreLosesIndex`. Even one that works loses the vectors
  of half-evicted ids (`ReembedKeepsInvIff`), and on LRU and FIFO those block every eviction from then
  on, so that the store grows by one with every saved update (`ReembedBlocks`, `BlockedForGood`, reached
  in `ReembedBlocksAReachedState`).
- `Drain` may report an empty queue while an enqueue that has already loaded that queue is still under
  way: `DrainedForGoodIff`, reached in `LateEnqueueHappens`.
- A queue made current again while its stopped worker is still finishing a job gets no new worker, and
  then nothing consumes it: `QueueSwitch.CurrentIsServedIff`, `UnservedForGood`, reached in
  `UnservedHappens`.
- Taking the nearest K before filtering by the threshold equals a full scan exactly for metrics monotone
  on the stored vectors: `TopKSearchIsExact`, `NotMonotoneLosesMatches`.
- A FAISS rebuild that raises has already emptied the index: `RaisedRebuildDiverges`.

## Model

| member | source | states |
|---|---|---|
| Entries.SortSorts | internal/plugins/manager/activate.go:490-502 | sorting puts older entries first and, of two created at the same time, the one with the smaller id |
| Entries.LexLessMeans | internal/plugins/manager/activate.go:499 | of two ids the one that is a proper prefix of the other, or has the smaller character at the first difference, comes first |
| Entries.ValidIdMeans | internal/plugins/protocol/client.go:34-39 | an id is valid if and only if it has 1 to 128 characters, letters, digits or one of `._~-`, and is neither "." nor ".." |
| Entries.SortedListingUnique | internal/plugins/manager/activate.go:490-502 | whatever order a store lists its entries in, `sortedEntries` returns one and the same sequence, with every entry exactly once |
| Entries.RebuildMapOfListing | internal/orchestrator/service.go:353-362 | a rebuild request made from any listing describes exactly the id-to-vector map of the store |
| Policies.HooksKeepValid | internal/policy/lru.go:25-73 | every hook keeps a policy well formed and tracks exactly the inserted, not deleted, not flushed ids |
| Policies.VictimCharacterized | internal/policy/lfu.go:54-69 | a victim exists exactly when something is tracked; it is unique and tracked |
| Policies.LruOrder | internal/policy/lru.go:25-53 | for every history of events the LRU list holds exactly the live ids, latest touch first |
| Policies.LruVictimIsLeastRecentlyTouched | internal/policy/lru.go:55-65 | LRU names `v` if and only if `v` is the live id whose last hit or insert is oldest |
| Policies.FifoOrder | internal/policy/fifo.go:31-50 | the FIFO list holds exactly the live ids in the order they became live |
| Policies.FifoVictimIsOldest | internal/policy/fifo.go:52-61 | FIFO names `v` if and only if `v` became live before every other live id; hits change nothing |
| Policies.LfuCounters | internal/policy/lfu.go:24-45 | LFU's counters are the hits since insertion plus one, and its order numbers rank live ids by when they became live |
| Policies.LfuVictimIsLeastFrequentlyHit | internal/policy/lfu.go:54-69 | LFU names `v` if and only if `v` has the fewest hits, the oldest of those on a tie |
| Policies.DrainListsIds | internal/orchestrator/service.go:402-427 | repeated victim and delete goes through every tracked id exactly once |
| Policies.ReplayDrainsInOrder | internal/plugins/manager/activate.go:516-521 | after a flush and a replay of distinct ids, LRU, FIFO and LFU all evict in exactly the replayed order |
| Policies.SortedReplayDrainsInCreationOrder | internal/plugins/manager/activate.go:490-521 | replaying a store's sorted entries makes any policy evict all its ids older first and, among equals, smaller id first, whatever order the store listed |
| PolicyObjects.UnlinkAgrees | internal/policy/lru.go:49-52 | removing a list element and its map entry keeps list and map describing each other, and removes one id |
| PolicyObjects.LruPolicy.OnHit | internal/policy/lru.go:25-32 | moving a known id's element to the front is the LRU step; an unknown id changes nothing |
| PolicyObjects.LruPolicy.OnInsert | internal/policy/lru.go:34-43 | a new id goes to the front, a known one moves there, and list and map stay in agreement |
| PolicyObjects.LruPolicy.OnDelete | internal/policy/lru.go:45-53 | the id is gone from list and map, the rest keeps its order |
| PolicyObjects.LruPolicy.Victim | internal/policy/lru.go:55-65 | the back of the list is the LRU victim, none exactly when the list is empty |
| PolicyObjects.LruPolicy.Flush | internal/policy/lru.go:67-73 | list and map are empty afterwards |
| PolicyObjects.FifoPolicy.OnInsert | internal/policy/fifo.go:34-41 | a new id goes to the back, a known one stays where it is |
| PolicyObjects.FifoPolicy.OnDelete | internal/policy/fifo.go:43-50 | the id is gone from list and map, the rest keeps its order |
| PolicyObjects.FifoPolicy.Victim | internal/policy/fifo.go:54-61 | the front of the list is the FIFO victim |
| PolicyObjects.LfuPolicy.OnHit | internal/policy/lfu.go:24-34 | a known id's count grows by one and its order number stays |
| PolicyObjects.LfuPolicy.OnInsert | internal/policy/lfu.go:36-45 | a new id starts at count one with the next order number, a known one is unchanged |
| PolicyObjects.LfuPolicy.Victim | internal/policy/lfu.go:54-69 | the scan finds the least (count, order) pair for every order in which the map is visited |
| PolicyObjects.LfuPolicy.Flush | internal/policy/lfu.go:71-77 | entries and the order counter start over |
| CacheEngine.RoundKeepsInv | internal/orchestrator/service.go:402-427 | one round keeps the invariant whatever fails, never lacks a victim, and stops as done only within capacity |
| CacheEngine.RoundShrinks | internal/orchestrator/service.go:402-427 | every round that goes on tracks one id less in the policy, which is why the loop ends |
| CacheEngine.RoundRemoves | internal/orchestrator/service.go:411-425 | a round that goes on removes exactly the victim from store, index and policy; the store need not shrink |
| CacheEngine.EvictKeepsInv | internal/orchestrator/service.go:397-428 | with any calls failing the loop keeps the invariant and never reports "no victim"; with none failing it finishes |
| CacheEngine.UpdateKeepsInv | internal/orchestrator/service.go:312-338 | an update keeps the invariant whichever of upsert, save, compensating delete and eviction fails |
| CacheEngine.FlushKeepsInvIff | internal/orchestrator/service.go:506-521 | a flush keeps the invariant if and only if it stops at the index, the store flush works too, or the store was empty |
| CacheEngine.RestartEstablishesInv | internal/orchestrator/service.go:342-367 | a restart from persistence starts with store, policy and index holding the same ids |
| CacheEngine.RunKeepsInv | internal/orchestrator/service.go:312-428 | in every state of every run store ids are policy ids and policy ids are index ids, each indexed with its own vector |
| CacheEngine.CutIsShortest | internal/orchestrator/service.go:402-409 | the ids cut from the drain order are its shortest prefix that brings the store down to capacity |
| CacheEngine.EvictRemovesShortestPrefix | internal/orchestrator/service.go:397-428 | an eviction that completes removes exactly that prefix from store, index and policy |
| CacheEngine.EvictionIsExact | internal/orchestrator/service.go:397-428 | what is gone, that it is enough, that no shorter prefix would do, and that each removal was counted |
| CacheEngine.VictimSurvives | internal/policy/lru.go:25-65 | under LRU and FIFO neither a hit on another id nor a new insert displaces the victim |
| CacheEngine.EvictKeepsOnePending | internal/orchestrator/service.go:397-428 | under LRU and FIFO an eviction leaves at most one id half evicted, and none if it completes |
| CacheEngine.UpdateHeals | internal/orchestrator/consistency_test.go:213-281 | under LRU and FIFO an update that completes leaves policy and store with the same ids, and a full store exactly full |
| CacheEngine.QueryKeepsOnePending | internal/orchestrator/service.go:247-257 | queries touch only persisted ids, so a half-evicted id stays next in line |
| CacheEngine.RunKeepsOnePending | internal/orchestrator/service.go:397-428 | in every run on LRU or FIFO at most one id is in the policy but not the store; it is the next victim and the store is full |
| CacheEngine.UpdateHealsIff | internal/orchestrator/service.go:312-428 | for any policy, an update whose calls all succeed heals if and only if, for every half-evicted id, more than capacity entries are persisted even without those the drain order names before it |
| CacheEngine.EvictConserves | internal/orchestrator/service.go:424-425 | every id that leaves the policy during an eviction is counted as one eviction |
| CacheEngine.RunConserves | internal/orchestrator/service.go:312-428 | ids tracked plus evictions counted equals ids rebuilt plus ids inserted since the last flush, in every run |
| CacheLaws.EvictionStops | internal/orchestrator/service.go:397-428 | whatever fails, an eviction takes a prefix of the drain order out of all three places and stops in one of four ways; only a vector that cannot be deleted leaves a trace, its entry being gone |
| CacheLaws.UpdateMeans | internal/orchestrator/service.go:312-338 | what an update leaves and reports in each case: upsert failed, save failed with the vector taken back or not, saved and then evicted down to the capacity, if there is one |
| CacheLaws.QueryMeans | internal/orchestrator/service.go:247-257 | a query answers with the stored entries of its matches in their order, and amounts to one hit on each in that order |
| CacheLaws.FlushMeans | internal/orchestrator/service.go:506-521 | a flush past the index empties index, policy and counter, and the store unless its own flush fails |
| CacheLaws.RestartDrainsInOrder | internal/orchestrator/service.go:342-367 | a restarted policy evicts in the order of the replay, and the index holds the vector of each entry |
| CacheLaws.RunIndexIsExact | internal/orchestrator/service.go:318-330 | in every run the index holds exactly the ids of the policy and those whose save and compensating delete both failed since it was last emptied or rebuilt |
| CacheLaws.RunIndexIsPolicy | internal/orchestrator/service.go:318-330 | in every run without such a double failure the index and the policy hold the same ids |
| CacheLaws.RunStoresWhatWasAsked | internal/orchestrator/service.go:318-326 | whatever is stored was there at the start or is, field by field, what one of the updates was asked to store |
| CacheEngine.LfuOvertakes | internal/policy/lfu.go:36-69 | with a full store and every LFU entry hit, an update whose calls all succeed evicts its own new entry and heals nothing |
| CacheRuns.StuckIsReached | internal/orchestrator/service.go:397-428 | a run of four operations on LFU, with two failing calls, that leaves an id half evicted |
| CacheRuns.LfuStuckState | internal/policy/lfu.go:36-69 | in the state that run reaches, an update whose calls all succeed leaves that id half evicted |
| CacheRuns.HalfDoneIsReached | internal/orchestrator/service.go:397-428 | two updates on LRU, the second with one failing call, leave an id half evicted |
| CacheRuns.ReembedBlocksAReachedState | internal/plugins/manager/activate.go:663-671 | in the state they reach, a successful re-embedding breaks the invariant and blocks every later eviction |
| CacheRuns.RestoreLosesIndex | internal/plugins/manager/activate.go:647-662 | a run reaches a state in which a re-embedding fails, is reported as undone, and leaves the index empty |
| CacheRuns.FlushLosesEntry | internal/orchestrator/service.go:512-519 | one update and one flush that the store refuses leave an entry in the store alone |
| Service.CacheService.RebuildFromStore | internal/orchestrator/service.go:342-367 | whatever order the store lists its entries in, they are replayed oldest first, the index ends up as the store's vectors if a rebuild works, and the whole is the restart that every run begins with |
| Service.CacheService.SortByTime | internal/orchestrator/service.go:349-351 | the entries come back rearranged so that none is older than one before it |
| Service.CacheService.RebuildVectorStoreWithRetry | internal/orchestrator/service.go:369-390 | the rebuild is tried until it works; until then the index is untouched |
| Service.CacheService.UpdateCache | internal/orchestrator/service.go:312-338 | the method's effect on all three stores and its outcome are those of the update described above, the compensating delete included, for every combination of failures |
| Service.CacheService.EnforceCapacity | internal/orchestrator/service.go:397-428 | the loop terminates and its effect is that of the eviction proved above |
| Service.CacheService.EvictOne | internal/orchestrator/service.go:403-426 | store first, then index, then policy; a failure stops in between and leaves the rest as it is |
| Service.CacheService.ServeMatches | internal/orchestrator/service.go:247-257 | the answers are the persisted matches in index order, and exactly those are touched in the policy |
| Service.FoundAreServed | internal/orchestrator/service.go:247-257 | entries answered and ids touched are the same, and every one is a match that is persisted |
| Service.CacheService.FlushCache | internal/orchestrator/service.go:506-521 | nothing changes if the index flush fails; otherwise index, policy and counter are reset, and the store unless its flush fails |
| PolicyAdapter.StepKeepsInv | internal/plugins/protocol/policy.go:94-201 | every atomic step of callers, sender and plugin keeps the invariant |
| PolicyAdapter.PostedIsAcceptedPrefix | internal/plugins/protocol/policy.go:94-183 | in every interleaving the events posted are the first events accepted, in order and once each; the rest is batched or buffered |
| PolicyAdapter.SyncMeansPosted | internal/plugins/protocol/policy.go:185-201 | once a barrier is closed everything accepted before it has been posted |
| PolicyAdapter.BarrierRemembers | internal/plugins/protocol/policy.go:186-189 | a barrier stands for the events accepted up to the moment it entered the channel |
| PolicyAdapter.FlushRemembers | internal/plugins/protocol/policy.go:229-236 | a flush stands for the events accepted when it began, before its barrier |
| PolicyAdapter.RemoteCompleteIff | internal/plugins/protocol/policy.go:127-138 | the plugin has applied every posted event once and in order if and only if as many were applied as posted and each batch in its turn, also when a post outlives its timeout and arrives later; no failed post implies it |
| PolicyAdapter.VictimSeesEarlierEvents | internal/plugins/protocol/policy.go:203-227 | until Close, with nothing dropped or failed and every flush barrier met, the plugin has applied some prefix of the calls that contains every call before the barrier, with each flush between the calls made before it began and those made before it took effect; Victim names exactly the id least recently touched in that history |
| PolicyAdapter.CloseDelivers | internal/plugins/protocol/policy.go:253-257 | when Close returns, everything accepted before it is posted, every barrier pushed before it is closed and the sender holds none |
| PolicyAdapter.SenderProgress | internal/plugins/protocol/policy.go:123-175 | the sender always has a next step unless it waits for work; until Close it holds at most 128 events and stops to deliver at a second barrier; the channel holds at most 4096 |
| AdapterLaws.LossesMean | internal/plugins/protocol/policy.go:94-120 | a call with a valid id is accepted if there is room; a hit is dropped only at 4096 waiting, an insert or delete only after waiting or because of Close |
| AdapterLaws.StoppedForGood | internal/plugins/protocol/policy.go:254-258 | once Close has been called the adapter stays stopped |
| AdapterLaws.EverythingCanBeDelivered | internal/plugins/protocol/policy.go:123-183 | from every reachable state the steps of the sender alone, if posts work, deliver all that was accepted, close every barrier, and end in waiting or, after Close, in its exit |
| AdapterLaws.FlushOnce | internal/plugins/protocol/policy.go:229-236 | a call of Flush takes effect at most once |
| AdapterLaws.FlushEmpties | sdk/examples/policy/main.go:69-74 | and leaves the policy of the plugin empty |
| AdapterLaws.LateBatchArrives | internal/plugins/protocol/policy.go:127-138 | a batch whose post outlived its timeout may still be applied later, after whatever has been by then |
| PolicyAdapter.RemoteLru.HandleEvents | sdk/examples/policy/main.go:85-107 | one malformed event refuses the whole request unchanged; otherwise the events are applied in order, and an id inserted last is in front, one deleted last is gone |
| PolicyAdapter.LastEventShows | sdk/examples/policy/main.go:37-58 | after "insert" the id is in front, after "delete" it is gone, "hit" brings a tracked one to the front; the others keep their order |
| PolicyAdapter.SentIsRead | internal/plugins/protocol/policy.go:118-120 | every batch of hook calls the adapter sends is accepted by the plugin and read back as the same calls |
| PolicyAdapter.RemoteLru.HandleFlush | sdk/examples/policy/main.go:69-74 | the flush handler empties the list |
| LeaseQueue.QueueServer.Enqueue | sdk/examples/queue/main.go:100-112 | a job without prompt or reply is refused; otherwise it is appended, unleased |
| LeaseQueue.QueueServer.LeaseJob | sdk/examples/queue/main.go:56-72 | the first visible job gets the new token, a further attempt and a new deadline; nothing else changes |
| LeaseQueue.QueueServer.Stats | sdk/examples/queue/main.go:163-175 | leased is the number of jobs whose lease had not run out when each was looked at, and pending that of all others |
| LeaseQueue.QueueServer.SettleJob | sdk/examples/queue/main.go:74-92 | only the current token acknowledges or returns a job; conflict and not-found leave the queue as it is |
| LeaseQueue.QueueServer.SettleWithRetry | internal/plugins/protocol/queue.go:130-149 | over a lossy network three attempts have the effect of the first request that arrives, whichever of them that is, and report success exactly when its reply is read and is a 200; a lease read as lost ends the attempts at once, an unknown job does not |
| LeaseQueue.DepthCountsAll | internal/plugins/protocol/queue.go:207-220 | pending plus leased is the number of jobs in the queue, whatever the clock showed at each |
| LeaseQueue.SettleTwice | sdk/examples/queue/main.go:74-92 | settling again with the same token is refused and changes nothing |
| LeaseQueue.SettleRefused | sdk/examples/queue/main.go:74-92 | a settle that is not answered with 200 changes nothing |
| LeaseQueue.SettleMeans | sdk/examples/queue/main.go:74-92 | 404 if and only if the job is unknown, 200 if and only if the token is its current one, 409 otherwise; exactly that job is removed or becomes visible |
| LeaseLaws.ServeMeans | sdk/examples/queue/main.go:74-92 | an ack under the current lease removes exactly its job, a nack makes exactly its job visible at once, any other request changes nothing |
| LeaseLaws.AttemptMeans | internal/plugins/protocol/queue.go:130-149 | an attempt that is not lost is carried out; the worker is done on reading 200 or 409 and after its last attempt |
| LeaseLaws.ReturnMeans | internal/plugins/protocol/queue.go:151-196 | a handler that returns acknowledges its own lease if it succeeded and gives it back if not |
| LeaseLaws.AtMostThreeAttempts | internal/plugins/protocol/queue.go:130-149 | no settle makes a fourth attempt |
| LeaseLaws.EveryJobCanBeHandled | sdk/examples/queue/main.go:56-72 | from every reachable state, whatever its workers do, every job in the queue can still be handed to any worker |
| LeaseQueue.RunKeepsInv | internal/plugins/protocol/queue.go:105-196 | all the invariants below hold in every run with failing handlers, lost, delayed and repeated messages, crashes and expiring leases |
| LeaseQueue.NothingLost | internal/plugins/protocol/queue.go:151-196 | an enqueued job is in the queue or acknowledged, never both, never neither; an acknowledged one had a handler succeed on its own payload |
| LeaseQueue.SettleTouchesOwnLeaseOnly | sdk/examples/queue/main.go:74-92 | any settle request, on time, delayed or repeated, changes the server only with the latest lease of its job; an older token never touches a newer lease |
| LeaseQueue.NoEarlyRedelivery | sdk/examples/queue/main.go:56-72 | between two leases of one job the first deadline has passed or the first lease was returned |
| LeaseQueue.HandledExactlyOnce | internal/plugins/contract/queue.go:253-300 | if handlers succeed and acknowledgements land before their deadlines, no job is handed to a handler twice, and when the workers are idle exactly the acknowledged jobs were handed to one; lost lease replies, repeated and delayed requests are all allowed |
| QueueSwitch.RunKeepsInv | internal/plugins/dynamic/queue.go:53-120 | every queue behind the switch keeps its own invariants across swaps, stops and concurrent enqueues |
| QueueSwitch.JobsStayHome | internal/plugins/dynamic/queue.go:53-102 | a job is held by the queue it was put on until it is handled and acknowledged there, and by no other |
| QueueSwitch.EnqueueUsesQueueAtBegin | internal/plugins/dynamic/queue.go:47-55 | a job goes to the queue that was current when its enqueue began, even if that queue is swapped out meanwhile |
| QueueSwitch.EnqueueEndsOnce | internal/plugins/dynamic/queue.go:53-55 | an enqueue lands or fails once |
| QueueSwitch.QueuesLiveOn | internal/plugins/dynamic/queue.go:82-120 | a stopped worker still finishes and settles its job, and what was sent to a retired queue may still arrive |
| QueueSwitch.CurrentIsServedIff | internal/plugins/dynamic/queue.go:68-104 | after a swap, and until its worker is stopped, the current queue has a running worker if and only if the swap did not find an old one there that was stopped but not finished |
| QueueSwitch.UnservedForGood | internal/plugins/dynamic/queue.go:68-92 | a queue whose worker has finished is not leased from until a swap to it |
| QueueSwitch.UnservedHappens | internal/plugins/dynamic/queue.go:68-104 | a run of four steps ends with a current queue whose worker has finished |
| QueueSwitch.WorkerSettlesBeforeEnding | internal/plugins/dynamic/queue.go:68-120 | a stopped worker ends only when every job it was handed has been through ack or nack |
| QueueSwitch.DrainedMeansHandled | internal/plugins/dynamic/queue.go:122-153 | an old queue read as empty with no enqueue pending whose job it would accept: every job ever put there was handled successfully, until it is made current again |
| QueueSwitch.DrainZeroMeansHandled | internal/plugins/dynamic/queue.go:122-153 | counts of an old queue taken along a run, the last one 0 with no enqueue pending on it then: every job ever put there was handled successfully, until it is made current again |
| QueueSwitch.DrainRetired | internal/plugins/dynamic/queue.go:125-153 | the loop itself, its counts taken along a run: an answer 0 means that an empty queue was seen and, if no enqueue was pending then, that all its jobs were handled |
| QueueSwitch.LateEnqueueEscapesDrain | internal/plugins/dynamic/queue.go:53-55 | an enqueue that had loaded the old queue can still put an unhandled job there |
| QueueSwitch.DrainedForGoodIff | internal/plugins/dynamic/queue.go:122-153 | a retired queue counted as empty stays fully handled in every continuation that does not make it current again, if and only if no enqueue whose job it would accept is under way |
| QueueSwitch.LateEnqueueHappens | internal/plugins/dynamic/queue.go:53-55 | a run of three steps does so: an enqueue begins, the queue is swapped out and counted empty, the job arrives there |
| QueueSwitch.DrainLoop | internal/plugins/dynamic/queue.go:125-153 | Drain answers 0 if and only if some count was 0, and stops at the first such; otherwise it answers the last count it could read, or -1, after all its polls |
| Nearest.TopKSearchIsExact | vector_store_service/app/index.py:161-172 | nearest K, then filter, gives the distances of filter, then best K, for every monotone metric, threshold, K and choice among ties |
| Nearest.NotMonotoneLosesMatches | vector_store_service/app/index.py:161-172 | for a metric not monotone on the stored vectors some K and threshold lose a match, so the condition is necessary |
| Nearest.CosineIsMonotone | vector_store_service/app/metrics.py:79-91 | cosine distance is monotone in the inner product turned round |
| Nearest.EuclideanIsMonotone | vector_store_service/app/metrics.py:94-106 | the square root of the squared distance is monotone |
| VectorIndex.FaissIndex.AddVector | vector_store_service/app/index.py:174-183 | a vector of the right dimension is stored under its new id; both maps stay inverse and below the next integer |
| VectorIndex.FaissIndex.DeleteEntry | vector_store_service/app/index.py:185-193 | exactly this id's vector and map entries go; false if and only if the id is unknown |
| VectorIndex.FaissIndex.RebuildAll | vector_store_service/app/index.py:195-214 | contents are replaced; at the first bad or repeated entry it raises with no vectors and the ids read so far still mapped |
| VectorIndex.FaissIndex.FlushAll | vector_store_service/app/index.py:219-220 | index and maps are empty afterwards |
| VectorIndex.FaissIndex.Search | vector_store_service/app/index.py:154-172 | no unknown integer is met; every match is a stored id with its own distance within the threshold, no id twice, nearest first, nothing lost of what FAISS picked; the distances are those of a full scan for a monotone metric |
| VectorIndex.NumpyIndex.AddVector | sdk/examples/vector-index/sdk_numpy_index/__init__.py:61-66 | the two lists keep describing one id-to-vector map, now with the new vector |
| VectorIndex.NumpyIndex.DeleteEntry | sdk/examples/vector-index/sdk_numpy_index/__init__.py:68-74 | one id and its vector leave both lists |
| VectorIndex.NumpyIndex.RebuildAll | sdk/examples/vector-index/sdk_numpy_index/__init__.py:76-88 | a rebuild that raises leaves the index as it was |
| VectorIndex.NumpyIndex.Search | sdk/examples/vector-index/sdk_numpy_index/__init__.py:46-59 | every match is a stored id with its own distance within the threshold, ranked by distance and then id; whatever else is within the threshold comes after all of them, and then there are K |
| VectorIndex.PlainStepMeans | vector_store_service/app/index.py:174-220 | what each request stores, takes away, answers and refuses, entry by entry |
| VectorIndex.FaissStepMeans | vector_store_service/app/index.py:174-220 | FAISS differs in a rebuild that raises: no vectors, the ids before the first bad entry still known, and a later delete of one of them answered as if it were there |
| VectorIndex.SameUntilRebuildRaises | vector_store_service/app/index.py:174-220 | on every history in which no rebuild raises, both indexes hold the same map and give the same replies |
| VectorIndex.RaisedRebuildDiverges | vector_store_service/app/index.py:195-210 | after a rebuild that raises FAISS is empty and the plain index unchanged; exactly when they still agree |
| VectorIndex.SameSinceReset | vector_store_service/app/index.py:195-220 | whatever the two held before, from a flush or a good rebuild on they hold the same map and give the same replies until a rebuild raises |
| VectorIndex.AcceptedPrefixIsMaximal | vector_store_service/app/index.py:202-211 | a rebuild reads the longest prefix of acceptable entries |
| VectorIndex.SearchesAgree | sdk/examples/vector-index/sdk_numpy_index/__init__.py:46-59 | with the same vectors stored and a monotone metric, FAISS and the full scan report the same distances, whatever FAISS picks among ties |
| Migration.Slots.Reembed | internal/plugins/manager/activate.go:593-673 | success keeps every id, prompt, reply and time and gives each entry, in store and index, the embedding of its own prompt; before the first write nothing changes; after it, the store is put back if its saves work; which of these, for every failure |
| Migration.Slots.Stage | internal/plugins/manager/activate.go:602-638 | all entries are embedded with the right dimension or the whole operation stops before any write |
| Migration.Slots.Restore | internal/plugins/manager/activate.go:647-662 | saves that work give the old entries back; the index is the old one if the rebuild really restored all of it |
| Migration.RestoreKeepsInvIff | internal/plugins/manager/activate.go:647-662 | a re-embedding reported as undone keeps the cache's invariant if and only if the old vectors are really back and no eviction is half done, or what a short rebuild left covers the policy all the same |
| Migration.ReembedKeepsInvIff | internal/plugins/manager/activate.go:663-671 | a successful re-embedding keeps the cache's invariant if and only if no eviction is half done |
| Migration.ReembedBlocks | internal/plugins/manager/activate.go:663-671 | on LRU and FIFO a successful re-embedding with a half-evicted id leaves that id the victim, in neither index nor store, with the store full |
| Migration.MissingVectorBlocksEviction | internal/orchestrator/service.go:420-423 | an id the index lacks, once it is the victim, makes every eviction fail without progress, whatever else fails |
| Migration.BlockedForGood | internal/orchestrator/service.go:397-428 | from there on, over every sequence of queries and updates, nothing is ever evicted and the store grows by one with every update that is saved |
| Migration.CandidateStore.CopyAll | internal/plugins/manager/activate.go:869-874 | `saved` lists exactly the ids copied before the first save that reports an error, and it succeeds if and only if none does |
| Migration.CandidateStore.VerifyAll | internal/plugins/manager/activate.go:879-896 | passes if and only if every entry loads with the same prompt, reply, time and vector length |
| Migration.CandidateStore.MigrateFrom | internal/plugins/manager/activate.go:863-898 | success means the candidate's ids are exactly the source's with the same data, whatever its saves really did |
| Migration.CandidateStore.MigrateOrUndo | internal/plugins/manager/activate.go:306-330 | a migration that fails, or whose swap fails, leaves an honest candidate empty again if the deletes work; one in which nothing fails succeeds |
| Migration.AllFound | internal/plugins/manager/activate.go:875-896 | equal counts and every source id found leave no room for an extra id |
| Migration.ReplayPolicy | internal/plugins/manager/activate.go:511-532 | the built-in policies always pass the replay check and then evict all persisted ids, older first and, among equals, smaller id first |
| Migration.RebuiltFromStore | internal/plugins/manager/activate.go:804-825 | index and policy rebuilt from another store satisfy the cache's invariant with it, nothing half evicted |
| Lifecycle.Candidate.SetState | internal/plugins/manager/manager.go:172-180 | a stage changes only along an edge of the lifecycle table |
| Lifecycle.EdgesInto | internal/plugins/types.go:107-123 | from which stages each stage is reached: active only from activating or a rollback called off, rolled back only from rolling back, draft never |
| Lifecycle.StaysInStage | internal/plugins/types.go:126-136 | a stage may be written again only in progress, active or failed |
| Lifecycle.Candidate.Launch | internal/plugins/manager/install.go:175-251 | the stages a candidate goes through until it runs, for endpoints, images and repositories |
| Lifecycle.Candidate.Run | internal/plugins/manager/install.go:170-296 | the pipeline's effect on the record, for every combination of failures |
| Lifecycle.PipelineOutcome | internal/plugins/manager/install.go:148-296 | a draft is verified if and only if every step worked and its contract tests passed; it is marked passed only then; otherwise failed or stopped |
| Lifecycle.PipelineLeaves | internal/plugins/manager/install.go:148-296 | the stage in which the pipeline leaves a draft, for every mode and combination of failures |
| PluginSwitch.Manager.Execute | internal/plugins/manager/activate.go:289-333 | success installs the target; on failure the previous implementation is installed; the threshold is back either way |
| PluginSwitch.Manager.CommitSwitch | internal/plugins/manager/activate.go:335-389 | selection, new record, old record and memory are written in that order, stopping where the code stops |
| PluginSwitch.Manager.PrepareCandidate | internal/plugins/manager/activate.go:192-226 | an unhealthy candidate, a refused plan, one that waits for embedder_compat or persistence_compat, or a missing threshold ends the switch before it starts; a waiting one puts the old stage back |
| PluginSwitch.Manager.SwitchSlot | internal/plugins/manager/activate.go:115-277 | the whole switch, for every mode and every failing step, the updates of the stages included |
| PluginSwitch.Manager.DeletePlugin | internal/plugins/manager/lifecycle.go:92-136 | deletes if and only if the plugin is inactive, at rest and nobody's rollback target |
| PluginSwitch.SwitchKeepsInvIff | internal/plugins/manager/activate.go:251-262 | a switch keeps registry, memory and slots in agreement if and only if no record update fails after the selection is written |
| PluginSwitch.FailedSwitchChangesNothing | internal/plugins/manager/activate.go:156-180 | a switch that fails leaves slots, selections, threshold and all records as they were, but for the stage of its own plugin |
| SwitchLaws.SwitchHappensWhen | internal/plugins/manager/activate.go:115-277 | a switch happens if and only if the plugin may be switched that way, its candidate and plan are sound, a changed metric has a threshold, and nothing fails up to the last record that counts |
| SwitchLaws.MetricChangeNeedsThreshold | internal/plugins/manager/activate.go:692-708 | where the metric changes a switch happens only with a threshold of at least 0, which is then in force; without one it does not happen and waits with its stage as it was |
| SwitchLaws.SwitchChanges | internal/plugins/manager/activate.go:335-389 | a switch that happens changes its own slot, the two records concerned in the fields named, the threshold if the metric changes, and nothing else |
| SwitchLaws.LeftMayReturn | internal/plugins/manager/activate.go:59-72 | a plugin left by a deactivation or a rollback is inactive or rolled back and may be activated again |
| SwitchLaws.FailedSwitchStage | internal/plugins/manager/activate.go:156-180 | the stage a failed switch leaves: as before if it waits, active after a failed rollback, failed otherwise; if that last update fails, the stage last shown |
| SwitchLaws.TornAtNewRecord | internal/plugins/manager/activate.go:335-370 | if the new record cannot be updated the switch fails and everything but its own stage is as before, except that the registry has selected what should have come |
| SwitchLaws.DeleteMeans | internal/plugins/manager/lifecycle.go:92-136 | a deletion takes away exactly one inactive, resting record that no active one would roll back to, or nothing |
| PluginSwitch.SwitchEffect | internal/plugins/manager/activate.go:335-389 | a switch that happens makes its target the selection of its slot only, with the right rollback target and threshold |
| PluginSwitch.RollbackUndoesActivate | internal/plugins/manager/activate.go:95-145 | rolling back an activation brings back what served every slot, and the threshold if and only if the activation left it alone or the change of metric is seen again |
| PluginSwitch.FailedDeactivationBlocksRollback | internal/plugins/manager/activate.go:156-176 | after a deactivation that failed the plugin still serves and can be deactivated; unless recording the failure failed too, it is marked failed and cannot be rolled back |
| PluginSwitch.RollbackAvailable | internal/plugins/types.go:107-136 | an active plugin can be rolled back if and only if its record's stage allows it |
| SwitchRuns.ReadyIsReached | internal/plugins/manager/install.go:148-296 | every plugin can get installed and verified |
| SwitchRuns.ServingIsReached | internal/plugins/manager/activate.go:115-277 | and activated, with a new threshold if its plan asks for one |
| SwitchRuns.TornIsReached | internal/plugins/manager/activate.go:251-262 | in a state that a run reaches, an activation whose record update fails breaks the invariant |
| SwitchRuns.BlockedRollbackIsReached | internal/plugins/manager/activate.go:156-176 | a run in which the registry fails to clear a selection ends with a plugin that serves, is marked failed, may be deactivated and may not be rolled back |
| SwitchRuns.FailToDeactivate | internal/plugins/manager/activate.go:156-176 | every run at whose end a plugin serves can be continued that way |
| SwitchRuns.LostThresholdIsReached | internal/plugins/manager/activate.go:141-145 | a run ends with the built-in serving again under the plugin's threshold |
| SwitchRuns.RestartChangesThreshold | internal/plugins/manager/lifecycle.go:184-187 | a run whose last step, a restart, changes the threshold in force but neither selection nor configuration |
| SwitchRuns.UnprovenIsReached | internal/plugins/manager/install.go:148-296 | a lost verdict leaves a verified plugin with no recorded pass that may be activated |
| PluginSwitch.PipelineKeepsInv | internal/plugins/manager/install.go:170-296 | verification never disturbs the selection |
| PluginSwitch.RestoreKeeps | internal/plugins/manager/lifecycle.go:147-192 | restoring the slots one by one keeps the registry sound, whichever fail, and memory agrees with it afterwards |
| PluginSwitch.RestartKeepsInv | internal/plugins/manager/lifecycle.go:138-192 | registry, memory and slots agree after a restart, whichever selections work |
| PluginSwitch.RestartServes | internal/plugins/manager/lifecycle.go:138-192 | the server comes up if and only if every selection of a state-bearing slot works; then those slots serve exactly what was persisted, and any other slot its selection or, if that does not work, the built-in with the record marked failed and inactive |
| SwitchLaws.RestartNeedsState | internal/plugins/manager/lifecycle.go:138-192 | it comes up if and only if the selected embedder, vector store and persistence can be restored, and then runs them |
| SwitchLaws.RestoreClearsDangling | internal/plugins/manager/lifecycle.go:151-161 | the selection of a plugin that no longer exists is cleared and nothing else changes |
| PluginSwitch.RestartThreshold | internal/plugins/manager/lifecycle.go:184-187 | a restart sets the threshold last confirmed for the selected vector store, or else the configured one |
| PluginSwitch.RestartKeepsThresholdIff | internal/plugins/manager/activate.go:349-357 | after a switch of the vector store a restart brings back the threshold in force if and only if the one confirmed was set or in force already, or none applies and the configured one is in force |
| PluginSwitch.RunKeepsInv | internal/plugins/manager/activate.go:59-389 | the invariant holds after any sequence of installs, verifications, switches, deletions and restarts |
| PluginSwitch.OneActivePerSlot | internal/plugins/manager/activate.go:335-389 | at most one record per slot is active; it is selected in memory and registry, installed, has passed, and its rollback target exists |
| PluginSwitch.InstalledIsActive | internal/plugins/manager/slots.go:72-106 | nothing is ever installed but the built-in or an active plugin that has passed |
| Paging.Client.List | internal/plugins/protocol/persistence.go:139-174 | the loop is the page-by-page reading below and asks for at most 100,000 pages |
| Paging.AbsorbSafe | internal/plugins/protocol/persistence.go:155-164 | a page is accepted if and only if its entries are valid and no id repeats, then appended in order |
| Paging.ListIsSafe | internal/plugins/protocol/persistence.go:139-174 | against any server a successful list has distinct ids and valid entries only |
| Paging.ListIsItsPages | internal/plugins/protocol/persistence.go:139-174 | a list that succeeds is the concatenation of the pages asked for, every one of which was a page, with a new cursor each time and none after the last |
| Paging.ListFails | internal/plugins/protocol/persistence.go:139-174 | invalid data is reported if and only if the pages read hold an invalid entry or an id twice; any other error means a page that failed, a cursor that did not advance, or too many pages |
| Paging.AtoiItoa | sdk/examples/persistence/main.go:102-121 | the server reads back the offset it wrote into a cursor |
| Paging.ServeMeans | sdk/examples/persistence/main.go:97-126 | the page at an offset: at most the limit, 500 if that is out of range, and a cursor exactly where the page ends unless nothing follows |
| Paging.ListIsComplete | sdk/examples/persistence/main.go:97-126 | against the example server a list returns every entry once in (creation time, id) order if and only if there are at most 500 * 100,000, else an error |
| RateLimiter.Limiter.Admit | internal/orchestrator/guard.go:99-120 | the method with its sweep in any order decides and updates as the function below |
| RateLimiter.SweepChangesNothing | internal/orchestrator/guard.go:103-109 | on every history with a non-decreasing clock the sweep never changes a decision |
| RateLimiter.RejectedOnlyWhenFull | internal/orchestrator/guard.go:110-119 | a request is turned away only if the last `limit` of its key that were let through all came less than a window before it |
| RateLimiter.AdmittedAre | internal/orchestrator/guard.go:99-120 | the positions the results below speak of are, in order, those of the requests of that key that were let through |
| RateLimiter.SpreadOut | internal/orchestrator/guard.go:110-119 | of any 2 * limit requests of one key let through in a row, the sweep at work, the last comes at least a window after the first |
| RateLimiter.WindowBound | internal/orchestrator/guard.go:99-120 | the limiter with its sweep lets through at most 2 * limit - 1 requests of a key in any half-open interval of one window |
| RateLimiter.WindowBoundIsTight | internal/orchestrator/guard.go:99-120 | for every limit and every window of at least 2 some requests reach that bound |
| WriteGate.RunKeepsInv | internal/orchestrator/service.go:540-556 | mutex and pauses agree on the holder in every interleaving with updates and expiring contexts |
| WriteGate.NoUpdateWhilePaused | internal/orchestrator/service.go:537-556 | from a successful PauseWrites to its resume no update is inside or can enter, and no other pause is in force |
| WriteGate.ReleasedExactlyOnce | internal/orchestrator/service.go:540-556 | every acquisition, also one that lands after its caller gave up, is released once: not twice, and its release is always enabled |
| WriteGate.UnlockIsOwn | internal/orchestrator/service.go:548-553 | resume and hand-back unlock only a gate their own pause holds |
| WriteGate.PauseWaitsForInFlightOnly | internal/orchestrator/service.go:312-314 | once a pause is announced no update joins, and when those inside have left the lock can be granted |
| WriteGate.PauseAndUpdateExclude | internal/orchestrator/service.go:312-314 | between the entry and the exit of an update no PauseWrites returns successfully, and between its return and the resume no update enters or leaves |
| WriteGate.GivenUpForGood | internal/orchestrator/service.go:546-555 | a caller whose context ended never gets the gate |
| WriteGate.GateCanOpen | internal/orchestrator/service.go:537-556 | from every reachable state, with no new call, the gate can get free again |
| WriteGate.PauseCanSucceed | internal/orchestrator/service.go:537-556 | and a new PauseWrites can then succeed |
| WriteGate.GivingUpIsClean | internal/orchestrator/service.go:546-555 | a waiting caller can give up at any time, and what its helper holds or gets is handed back |

## Left out

- CacheEngine.RunKeepsInv: updates, queries and flushes are atomic; two workers that overlap while an old queue drains, and a flush inside an update, are not interleaved.
- CacheEngine.RestartEstablishesInv: a restart whose rebuild never works is not a state of a run, because the service does not start then.
- PolicyObjects.LruPolicy.OnHit: container/list is a sequence of elements with handles; the pointer structure of the list package is not part of this model, nor is its locking.
- PolicyObjects.LfuPolicy.OnHit: the counters do not wrap around at 64 bits.
- Service.CacheService.ServeMatches: hit and miss counters, latencies and the language model call on a miss are not kept.
- PolicyAdapter.StepKeepsInv: the adapter is a state machine over its atomic steps instead of an object, because callers and sender interleave; the time limits of an insert, a barrier and a post may expire at any moment.
- PolicyAdapter.VictimSeesEarlierEvents: the reply of the victim request itself may be lost, and then the cache sees no victim; that case, and a flush whose barrier ran out of time, are not related to a local policy.
- LeaseQueue.HandledExactlyOnce: exactly-once is per job on the server; an enqueue whose reply is lost is one job more; a queued job can always be handled, but nothing says that it will be.
- LeaseQueue.RunKeepsInv: long polling of an empty queue is not modelled, and workers are a map of states stepping in any order instead of objects.
- QueueSwitch.CurrentIsServedIff: a drain that stops the worker of a queue made current again meanwhile is a StopWorker step like any other; nothing says that a running worker gets to lease.
- VectorIndex.FaissIndex.Search: scores are exact reals; FAISS itself is any procedure that returns K nearest vectors.
- Migration.Slots.Reembed: the embeddings are computed one after the other; with the four concurrent calls of the source only the choice of the error reported differs.
- Migration.CandidateStore.MigrateFrom: the source store is a value that the migration cannot change; a remote candidate's own paging is in Paging.
- Migration.ReplayPolicy: only the three local policies are replayed; for a remote one the check on its victim may fail, and then the switch fails.
- Lifecycle.Candidate.Run: what a build, a manifest check, an image scan and the contract tests look at is one failing or working step each.
- PluginSwitch.RunKeepsInv: manager operations do not overlap, so a pipeline or a deletion inside a switch is not modelled; the registry calls during a restart work.
- PluginSwitch.Manager.Execute: migrations are steps that work or fail here and are modelled in Migration; their data is not undone after a failed commit, as in the source.
- PluginSwitch.Manager.SwitchSlot: instance stop timers, adapter ownership, audit entries and logs are not kept.
- RateLimiter.WindowBound: the limiter runs only with a positive limit and window, as it is constructed.
- The self-search checks of a candidate vector store and the model identity checks of a candidate embedder: one working or failing plan each.
- Redis, HTTP, JSON, Docker, YAML and Python module loading: abstract maps, sequences and calls that may fail.
- Redis Streams queue: its loop reads only new messages, so there is no redelivery to state.
- Language model back ends, retries, fallback and usage accounting: small next to the rest.
- Controller, scanner, admin API, URL checks and secret sealing: one-branch checks and plumbing.
