# Interleaved lookups and coroutine primitives: a verified model

The repository hides memory latency by running many short lookups as coroutines that take turns on a
ring buffer, and collects synchronisation primitives for coroutines. This project models both and
proves that the interleaved forms compute what the plain forms compute, and that the primitives keep
their promises in every interleaving.

* **Hash map** (`HashMap`, `Chains`, `Words`). Buckets in an array, entries linked on the heap, the
  bucket of a key found by masking its hash. Every operation is a method on that heap, proved against
  a finite map; doubling relinks the entries in place.
* **Interleaved execution** (`Scheduler`, `RecyclingAllocator`, `Throttling`). The ring with its two
  indices, the free list that coroutine frames are recycled through, and the throttler. A coroutine is
  a small state and a step to its next suspension; suspending pushes it and hands control to the front
  of the ring. `InterleavedLookup` runs the hash map lookup this way and `CoroutineSearch` the binary
  search; `StateMachineSearch` is the third form, with hand-written frames, and `BinarySearch` the
  plain form of the search. Both searches use one model of the allocator; `tcalloc`
  (`applications/binary-search/coro_infra.hpp:101-158`) adds the count of allocations to it.
* **Primitives** (`AsyncLock` and `ManualResetEvent` on `AwaiterWords`, `AwaiterList` with `Sequences`,
  `WhenAll`, `ThreadPool` and `ThreadPoolShutdown`, `BlockingQueue`). Each is a transition system with
  one step per atomic operation or critical section: `Apply` gives the effect of a step, `RunOf` that
  of any sequence of steps by any number of participants. Steps that follow a wrong pointer, resume a
  coroutine that is not suspended or drop the counter of `when_all` below zero are faults, and the main
  theorems say which runs can reach one. `AsyncLockProgress`, `ManualResetEventProgress`,
  `ThreadPoolProgress` and the last parts of `WhenAll` and `BlockingQueue` say what a participant can
  always do, and what it achieves by its own steps in every reachable state. The in-place reversal of the lock's awaiters is in addition
  proved on linked objects, in `AwaiterList`.

## Where the code departs from its intent

The model follows the code. Where that is not what the code is evidently meant to do, the exact
condition under which it is has been proved, together with a concrete failing case; only for the
overflow at 2^63 there is none, since no machine holds such a table.

* `Map::remove` never advances `prev`, so the entries before the removed one are dropped as well. It
  does what it says exactly when the key is absent or the first of its chain; if it was the last of
  several, the bucket is counted as not empty and the next lookup in it reads through null
  (`Map.Remove`, `RemoveForgets`). `Map.RemoveUnlinking` is the removal with `prev` advanced.
* A map with a maximum capacity of one is accepted and gets a table without buckets
  (`InitialCapacityUsable`). A doubling at 2^63 overflows to zero (`ResizeStaysInRange`).
* A ring that is full looks empty. Results are complete exactly when fewer coroutines are in flight
  than the ring has slots (`InterleavedMultilookup` and `FullRingLosesLookup`, `CoroMultiLookup` and
  `FullRingFailsAssertion`).
* The allocators reuse a block that is no larger than the request, so a reused block is large enough
  only if the sizes are equal (`RecyclingAllocator.Alloc`, `ReusesTooSmall`). Coroutine frames have
  one size.
* The first awaiter of the lock links to the value 1, where the reversal loop looks for null. As
  written, the lock works exactly until a release meets a waiter; then the releaser walks off the
  list (`AsWrittenUncontended`, `AsWrittenContended`, `ReleaserWalksOff`, `CrashExample`). With the
  terminator recognised it is a first-in first-out lock that never faults (`LockIsFifo`,
  `NeverCrashes`, `OwnerReleases`). Most theorems hold of both forms; the flag `asWritten` tells
  them apart.
* In the thread pool a coroutine that has entered may be queued behind the sentinels and is then never
  resumed, so `shutdown` does not wait for all outstanding work as its comment says. It does exactly
  when nobody is between entering and queuing at the moment the sentinels are queued (`Drained`,
  `LatePushIsStranded`).

## Model

| member | source | states |
|---|---|---|
| Words.NextPowerOf2Rounds | applications/map/map.hpp:937-956 | Six shift-and-or steps on a 64-bit word give the least power of two not below n exactly for 1 <= n <= 2^63, and 0 for every other word |
| Words.SmearStep | applications/map/map.hpp:943-951 | One smearing step doubles the leading run of one bits, whatever the bits below it |
| Words.AndMask | applications/map/map.hpp:844-846 | Masking with a power of two less one is the remainder modulo that power |
| Words.DoubledMask | applications/map/map.hpp:872-873 | An index under the doubled mask reduces to the index under the old mask |
| Chains.BucketIndexIsRemainder | applications/map/map.hpp:841-847 | With a power of two of buckets the masked hash is the hash modulo the capacity, in range, and compatible with doubling |
| Chains.Walk | applications/map/map.hpp:496-512 | The lookup loop on a linked chain ends at the entry with the key if there is one, and otherwise at the last entry, having compared the entries up to there once each |
| Chains.LinkBehind | applications/map/map.hpp:532-565 | Linking a new entry behind the end of a chain, or into an empty bucket, leaves a chain with the entry at its end |
| Chains.InsertIntoBucket | applications/map/map.hpp:912-932 | Moving an entry to a new bucket appends it to that chain, clears its link, counts it, and leaves every other new chain linked as it was |
| Chains.MoveChain | applications/map/map.hpp:869-883 | Relinking a chain entry by entry while walking it moves every entry of it once, in order, to its new home |
| Chains.MoveBucket | applications/map/map.hpp:864-884 | One round of the outer loop moves one old chain and leaves the old chains not yet reached intact |
| Chains.SplitPartitions | applications/map/map.hpp:864-884 | Every entry of old chain i ends up, exactly once, in new chain i or new chain i + capacity |
| Chains.FilterStable | applications/map/map.hpp:864-884 | Two entries of a new chain stand in the order in which they stood in the old one |
| Chains.FilterMembers | applications/map/map.hpp:872-880 | New chain j has exactly those entries of the old chain whose hash masks to j under the doubled capacity |
| Chains.SplitRepresents | applications/map/map.hpp:853-890 | The doubled table stands for the same finite map, every key being found in its new home chain |
| HashMap.InitialCapacityUsable | applications/map/map.hpp:459-469 | The first capacity is refused exactly for a maximum of 0, is 0 for a maximum of 1, and is a power of two exactly for a maximum of at least 2; it is then the largest one below the smaller of 16 and the maximum |
| HashMap.ResizeStaysInRange | applications/map/map.hpp:896-906 | A resize keeps the capacity a power of two below the maximum exactly when the capacity is below 2^63; otherwise the shift gives 0 |
| HashMap.Map.constructor | applications/map/map.hpp:451-470 | A new map is empty and has the computed capacity; it is valid for a maximum of at least 2, and has no buckets for a maximum of 1 |
| HashMap.NewMap | applications/map/map.hpp:451-470 | Asking for a map fails exactly for a maximum of 0, and gives a usable map exactly for a maximum of at least 2 |
| HashMap.Map.Lookup | applications/map/map.hpp:485-516 | The result is the key with its value in the finite map, or not found if the key is absent; the entries of the home chain are compared up to the key, or all |
| HashMap.Map.Insert | applications/map/map.hpp:522-571 | Adds an absent key by an entry at the end of its home chain, leaves a present one alone, reports which, counts it, and doubles the table exactly when twice the items exceed the capacity and twice the capacity does not exceed the maximum, the chains being split then and the same otherwise |
| HashMap.Map.Update | applications/map/map.hpp:577-628 | The finite map takes the new value in every case, the result says inserted in every case, and only a new key adds an entry, at the end of its home chain, and may double the table, under the same condition as an insertion |
| HashMap.Map.FindPlace | applications/map/map.hpp:526-558 | The loop shared by all operations finds the entry exactly if the key is in the map, else the end of the home chain |
| HashMap.Map.Append | applications/map/map.hpp:563-566 | An absent key is added to the finite map by an entry at the end of its home chain |
| HashMap.Map.PerformResizeIfRequired | applications/map/map.hpp:853-890 | Resizes exactly when twice the items exceed the capacity and twice the capacity does not exceed the maximum; the chains are then the split chains, and the finite map and the count are unchanged |
| HashMap.Map.Remove | applications/map/map.hpp:634-681 | As written: the chain loses everything up to and including the entry, one item is counted off the bucket and the map, this is a removal from the finite map exactly if the key is absent or first, and the next operation on the bucket reads through null exactly if the key was last but not first |
| HashMap.Map.RemoveUnlinking | applications/map/map.hpp:634-681 | With the predecessor advanced, exactly the one key leaves the finite map, its entry leaves its chain, the rest of which stays in order, and the map stays valid |
| HashMap.RemoveForgets | applications/map/map.hpp:646-676 | Inserting two colliding keys and removing the one that is not first leaves an empty finite map that still counts one item, and a bucket in which the next lookup reads through null |
| HashMap.Map.SequentialMultilookup | applications/map/map.hpp:691-701 | The results are those of the finite map, key by key and in order, with as many comparisons as the lookups take |
| InterleavedLookup.Step | applications/map/map.hpp:798-835 | From one suspension to the next a lookup completes with the right result, or keeps its result and has exactly one comparison less to make |
| Throttling.Throttler.Settle | applications/map/prefetch.hpp:30-40 | A step of the running coroutine completes it, emitting its result and giving back its slot and frame, or moves it to the back of the ring and continues with the front; the steps left get fewer |
| InterleavedLookup.Resume | applications/map/throttler.hpp:38-62 | One resume ends after exactly one lookup has completed, with as many waiting as before |
| InterleavedLookup.AfterTheRun | applications/map/map.hpp:725-742 | Once the ring looks empty, all results are out exactly when the ring never filled up; they are then those of the sequential loop, no frame is live, and the lookups have been resumed once each and once for every comparison of the sequential loop |
| InterleavedLookup.InterleavedMultilookup | applications/map/map.hpp:712-743 | Emits the multiset of results of the sequential loop exactly when min(keys, n_streams) is below the ring depth, and then makes its comparisons and no others; never emits a result outside it; keeps the order for one stream; allocates at most n_streams + 1 frames from an empty allocator |
| InterleavedLookup.FullRingLosesLookup | applications/map/scheduler.hpp:51-54 | On a ring of one slot a single lookup is lost, while the sequential loop answers it |
| Scheduler.StaticQueueScheduler.Schedule | applications/map/scheduler.hpp:24-28 | Appends to the queue unless the ring is full, in which case everything waiting is forgotten |
| Scheduler.StaticQueueScheduler.RemoveNextTask | applications/map/scheduler.hpp:35-40 | Takes the front of the queue |
| Scheduler.StaticQueueScheduler.Exchange | applications/map/prefetch.hpp:30-40 | Pushing the suspending coroutine and popping the next rotates the queue by one |
| Scheduler.StaticQueueScheduler.HasNextTask | applications/map/scheduler.hpp:51-54 | The guard of the run loop holds exactly if the ring is neither empty nor full |
| RecyclingAllocator.RecyclingAllocator.Alloc | applications/map/recycling_allocator.hpp:43-59 | Reuses the first free block if it is no larger than the request, else allocates; never hands out a live block; the block fits exactly if it is new or the sizes agree; with one size, allocations never exceed the peak of live blocks |
| RecyclingAllocator.RecyclingAllocator.Free | applications/map/recycling_allocator.hpp:61-67 | The block goes from the live blocks to the front of the free list |
| RecyclingAllocator.ReusesTooSmall | applications/map/recycling_allocator.hpp:43-50 | A free block of 8 bytes is handed out for 16 |
| Throttling.BalancedRotate | applications/map/prefetch.hpp:30-40 | Handing control to the front of the ring keeps the balance of results emitted, lost and owed, and with one slot their order |
| Throttling.BalancedComplete | applications/map/throttler.hpp:59-62 | A completion moves one result from owed to emitted and keeps the balance |
| Throttling.BalancedSpawn | applications/map/throttler.hpp:46-51 | A spawn adds one owed result; on a full ring the results owed by everything waiting become lost |
| Throttling.MeteredRotate | applications/map/prefetch.hpp:30-40 | A suspension turns one step owed into one step taken; nothing else changes the number of steps in all |
| Throttling.KeptSpawn | applications/map/throttler.hpp:46-51 | A spawn keeps results and steps accounted for; on a full ring the results of everything waiting become lost |
| Throttling.Throttler.Accounted | applications/map/throttler.hpp:38-62 | Slots left, coroutines waiting, running and lost add up to n_streams, coroutines completed, lost and in flight to those spawned, and steps taken and owed to those that everything spawned takes, unless some are lost |
| Throttling.Throttler.Suspend | applications/map/prefetch.hpp:30-40 | A suspension keeps the throttler's invariant and hands over the front of the queue |
| Throttling.Throttler.Complete | applications/map/throttler.hpp:59-62 | A completion emits the right result, frees the frame and gives back one slot |
| Throttling.Throttler.Enqueue | applications/map/throttler.hpp:46-51 | A spawned coroutine joins the queue and takes a slot; exactly on a full ring all others are lost |
| Throttling.Throttler.NewFrame | applications/map/map.hpp:727-738 | The frame of a coroutine about to be spawned keeps the number of live frames within one of the coroutines in flight |
| BinarySearch.VanillaBinarySearch | applications/binary-search/vanilla.hpp:11-37 | The loop gives the answer of the recursive search, with the same number of probes, for any data |
| BinarySearch.SearchDecidesMembership | applications/binary-search/vanilla.hpp:11-37 | On sorted data the answer is yes exactly if the key occurs |
| BinarySearch.ProbesLogarithmic | applications/binary-search/vanilla.hpp:13-34 | At most floor(log2(len)) + 1 probes, and none exactly for an empty range |
| BinarySearch.AllProbesLogarithmic | applications/binary-search/vanilla.hpp:13-34 | With fewer than 2^k elements, all searches for a list of keys take at most k probes for each key |
| StateMachineSearch.Frame.Init | applications/binary-search/state_machine.hpp:34-53 | A frame starts a search of the whole range, or is not found at once on an empty one |
| StateMachineSearch.Frame.Run | applications/binary-search/state_machine.hpp:55-87 | One probe of a running frame leaves a search with the same answer and exactly one probe less, or ends with the answer |
| StateMachineSearch.BinarySearchByFrame | applications/binary-search/state_machine.hpp:90-104 | A single frame run to the end gives the answer of the plain search in as many probes |
| StateMachineSearch.BalancedRun | applications/binary-search/state_machine.hpp:136-159 | A probe of one frame keeps hits counted plus hits owed, keys completed plus keys in progress, and probes made plus probes owed |
| StateMachineSearch.BalancedStart | applications/binary-search/state_machine.hpp:125-131 | Starting a lookup in a free frame adds exactly its hit, its key and its probes to the books |
| StateMachineSearch.RunUntilDone | applications/binary-search/state_machine.hpp:136-159 | Cycling through frames that are all running ends with exactly one of them free, having run only running frames, each as often as it had its turn |
| StateMachineSearch.RoundRobin | applications/binary-search/state_machine.hpp:155-158 | While all frames run, none is ever more than one turn ahead of another |
| StateMachineSearch.StartLookup | applications/binary-search/state_machine.hpp:122-161 | Each lookup gets a frame, and the frames stay either filled from the last down to the current one or all running |
| StateMachineSearch.DrainPass | applications/binary-search/state_machine.hpp:172-184 | One pass makes exactly one probe in every frame that still runs, and reports more work exactly if there was one |
| StateMachineSearch.Drain | applications/binary-search/state_machine.hpp:169-185 | The closing loop terminates, with every search completed and counted |
| StateMachineSearch.StateMachineMultiLookup | applications/binary-search/state_machine.hpp:106-188 | For any data, sorted or not, and any number of frames, the result is the number of lookups that the plain search finds, every key is completed once, and the probes in all are those of the plain searches |
| CoroutineSearch.StepSearches | applications/binary-search/coroutine.hpp:21-54 | From one suspension to the next the coroutine completes with the answer of the plain search, or keeps that answer and has exactly one probe less to make |
| CoroutineSearch.CountersCount | applications/binary-search/coroutine.hpp:56-64 | Counters that start at zero count the positive and the negative results and add up to all |
| CoroutineSearch.HitsAreTrueResults | applications/binary-search/coroutine.hpp:73-82 | The number of hits of plain searches is the number of positive results owed by the spawned coroutines |
| CoroutineSearch.ResumptionsInAll | applications/binary-search/coroutine.hpp:28-53 | The spawned searches are resumed, in all, once each to begin and once for every probe of the plain searches |
| CoroutineSearch.Resume | applications/binary-search/coro_infra.hpp:258-270 | One resume ends after exactly one search has completed |
| CoroutineSearch.RunAll | applications/binary-search/coro_infra.hpp:46-52 | The run loop empties the ring, unless it is full and looks empty from the start |
| CoroutineSearch.CoroMultiLookup | applications/binary-search/coroutine.hpp:66-95 | The closing assertion holds exactly when min(lookups, n_streams) is below 256; the result is then the number of lookups the plain search finds, in as many probes; at most n_streams + 1 allocations from an empty allocator |
| CoroutineSearch.FullRingFailsAssertion | applications/binary-search/coroutine.hpp:84-86 | With 256 lookups in 256 streams on a ring of 256 slots the closing assertion fails |
| AsyncLock.StepKeepsInv | primitives/async-lock/async_lock.hpp:110-149 | Every atomic step of any coroutine keeps one owner at most, each waiter in exactly one list, and is a step of the first-in first-out lock |
| AsyncLock.RefinesFifo | primitives/async-lock/async_lock.hpp:110-213 | The history of every run is a history of the first-in first-out lock, whose line is the queue followed by the reversed stack |
| AsyncLock.ResumedInOrder | primitives/async-lock/async_lock.hpp:176-213 | A first-in first-out lock resumes suspended coroutines in the order in which they queued up, once each; the rest is the line |
| AsyncLock.LockIsFifo | primitives/async-lock/async_lock.hpp:110-213 | At most one owner, one exactly if the word is not free; grants are a prefix of the enqueued, and the suspended coroutines are exactly those not granted yet |
| AsyncLock.FaultsExactly | primitives/async-lock/async_lock.hpp:197-212 | A wrong word is followed only by the code as written and only at the end of its reversal; only the owner touches the queue |
| AsyncLock.NeverCrashes | primitives/async-lock/async_lock.hpp:176-213 | With the terminator recognised no run follows a wrong word |
| AsyncLockProgress.OwnerReleases | primitives/async-lock/async_lock.hpp:176-213 | With the terminator recognised, an owner, wherever it is in its release or before it, releases the lock by finitely many steps of its own; the lock goes to the coroutine suspended longest, and becomes free exactly if there is none |
| AsyncLockProgress.Arrives | primitives/async-lock/async_lock.hpp:110-149 | A coroutine that asks for the lock, or is in the middle of asking, acquires it if the word is free and is suspended if not, after at most two steps of its own in which nobody interferes |
| AsyncLockProgress.CasGoesOn | primitives/async-lock/async_lock.hpp:119-147 | A compare-exchange never blocks, succeeds unless it fails spuriously or the word has changed, and is then tried with the word as it is |
| AsyncLockProgress.FreeExactly | primitives/async-lock/async_lock.hpp:116-130 | Whoever asks for the lock gets it at once exactly if nobody owns it |
| AsyncLock.AsWrittenUncontended | primitives/async-lock/async_lock.hpp:176-213 | Until a release meets a waiter, the code as written runs as the intended code does |
| AsyncLock.AsWrittenContended | primitives/async-lock/async_lock.hpp:201-208 | As written nobody is ever granted the lock by a release, and some release is in its reversal for good exactly if one has met a waiter |
| AsyncLock.ReleaserWalksOff | primitives/async-lock/async_lock.hpp:201-208 | A releaser that reverses as written follows a wrong word after finitely many of its own steps, from every reachable state |
| AsyncLock.CrashExample | primitives/async-lock/async_lock.hpp:201-208 | One owner, one waiter, one release: the releaser follows a wrong word |
| AwaiterList.ReverseInPlace | primitives/async-lock/async_lock.hpp:200-208 | The loop leaves the same nodes linked in reverse order and ending in null; as written it then follows LOCKED_NO_WAITERS |
| Sequences.ReversedAt | primitives/async-lock/async_lock.hpp:197-199 | The k-th awaiter of the queue is the k-th from the end of the stack |
| Sequences.ReversedMembers | primitives/async-lock/async_lock.hpp:197-199 | The queue has exactly the awaiters of the stack |
| ManualResetEvent.PassesOnlyWhileSet | primitives/manual-reset-event/manual_reset_event.hpp:62-134 | In every run, when a coroutine passes without suspending, the event was set initially or by some `set`, with no `reset` step since |
| ManualResetEvent.WordSaysSet | primitives/manual-reset-event/manual_reset_event.hpp:99-134 | The state word says set exactly when some `set`, or the initial state, has not been followed by a `reset` |
| ManualResetEvent.StepKeepsInv | primitives/manual-reset-event/manual_reset_event.hpp:67-134 | Every step keeps each suspended waiter in exactly one list, that of the event or that of one setter, and none faults |
| ManualResetEvent.RunsKeepInv | primitives/manual-reset-event/manual_reset_event.hpp:108-124 | In no interleaving is an awaiter read or resumed that is not suspended |
| ManualResetEvent.ResumedOncePerSuspension | primitives/manual-reset-event/manual_reset_event.hpp:67-124 | Every coroutine has been resumed as often as it has been suspended, less one if it is suspended now |
| ManualResetEvent.NobodyLeftBehind | primitives/manual-reset-event/manual_reset_event.hpp:108-124 | While the event is set every suspended waiter is with a setter that is still walking, and never with two |
| ManualResetEventProgress.SetterFinishes | primitives/manual-reset-event/manual_reset_event.hpp:113-123 | From wherever it is in `set`, a thread finishes by finitely many steps of its own, in which exactly the waiters it has in hand are resumed, in order and once each |
| ManualResetEventProgress.SetResumesAll | primitives/manual-reset-event/manual_reset_event.hpp:108-124 | A thread can set the event in every reachable state, and by steps of its own then resumes, once each, exactly the waiters that are suspended and in no setter's hands |
| ManualResetEventProgress.Arrives | primitives/manual-reset-event/manual_reset_event.hpp:62-97 | A coroutine that awaits the event, or is in the middle of it, passes at its next step if the event is set; if not, it is suspended after at most three steps of its own in which nobody interferes |
| ManualResetEventProgress.ResetUnsets | primitives/manual-reset-event/manual_reset_event.hpp:126-134 | The event can be reset in every reachable state, without waking or losing a waiter |
| WhenAll.StepKeepsInv | algorithms/when-all/when_all.hpp:28-69 | Every step keeps the count equal to unfinished subtasks plus the share of the awaiting coroutine, and none faults |
| WhenAll.RunsKeepInv | algorithms/when-all/when_all.hpp:28-69 | No order of completion resumes without a handle, resumes twice, or touches the counter after the continuation |
| WhenAll.ContinuedOnce | algorithms/when-all/when_all.hpp:45-68 | The awaiting coroutine has been continued once if it has gone on, else not at all |
| WhenAll.ContinuesAfterAll | algorithms/when-all/when_all.hpp:232-259 | It continues only after all subtasks are done, at most once, and it has continued when no step is left, for every n including 0 |
| WhenAll.RunsAreShort | algorithms/when-all/when_all.hpp:28-69 | For n subtasks no run takes more than 2n + 4 steps |
| WhenAll.Continues | algorithms/when-all/when_all.hpp:232-259 | Every reachable state can be extended to a run in which the awaiting coroutine has continued |
| WhenAll.SuspendsExactly | algorithms/when-all/when_all.hpp:45-46 | Having started all subtasks, the awaiting coroutine suspends exactly if one of them is unfinished, and continues at once exactly if all are done |
| ThreadPool.StepKeepsInv | applications/threadpool/thread_pool.hpp:87-130 | Every step keeps the word equal to flag and count, the sentinels in one batch, and as many workers exited as sentinels taken |
| ThreadPool.PoolWord | applications/threadpool/thread_pool.hpp:106-130 | Bit 0 is set exactly if the pool is closed; the rest is the number of submitters, queued coroutines and busy workers exactly while that is below 2^31, and a worker never takes the word below zero |
| ThreadPool.StaysClosed | applications/threadpool/thread_pool.hpp:183-187 | Once bit 0 of the word is set it stays set, and nobody is admitted any more |
| ThreadPoolProgress.ClosedExactly | applications/threadpool/thread_pool.hpp:108-122 | The closed flag is set exactly if somebody has closed the pool, and a coroutine is turned away only after that |
| ThreadPoolProgress.Enters | applications/threadpool/thread_pool.hpp:108-122 | A coroutine that wants to enter, or is in the middle of it, is admitted by an open pool and turned away by a closed one, after at most two steps of its own in which nobody interferes |
| ThreadPoolProgress.Schedules | applications/threadpool/thread_pool.hpp:158-171 | On an open pool a coroutine puts itself at the end of the queue by steps of its own |
| ThreadPoolProgress.PushesItself | applications/threadpool/thread_pool.hpp:166-170 | Whoever has entered can push itself in every reachable state, closed or not |
| ThreadPoolProgress.Serves | applications/threadpool/thread_pool.hpp:87-103 | An unoccupied worker takes the front of a queue that is not empty; it exits on a sentinel, and else resumes the coroutine, leaves and is unoccupied again |
| ThreadPoolProgress.WorkersCatchUp | applications/threadpool/thread_pool.hpp:87-103 | From every reachable state finitely many worker steps alone leave no worker busy and nothing queued, unless all workers are gone |
| ThreadPoolProgress.OpenPoolServesAll | applications/threadpool/thread_pool.hpp:87-130 | While nobody has closed the pool, finitely many worker steps are enough to have every admission resumed once, except of those who have not pushed themselves yet |
| ThreadPoolProgress.Closes | applications/threadpool/thread_pool.hpp:181-195 | Anybody can close the pool in every reachable state; the first to do so can then queue one sentinel for each worker, and for the others nothing changes |
| ThreadPoolProgress.SentinelsFollow | applications/threadpool/thread_pool.hpp:181-195 | A closed pool has its sentinels queued, or they can be queued in the next step |
| ThreadPoolShutdown.OneSentinelEach | applications/threadpool/thread_pool.hpp:87-103 | Either no sentinels or n of them are ever queued, and each worker that exited took one |
| ThreadPool.RunsAccounted | applications/threadpool/thread_pool.hpp:158-171 | Every admitted coroutine is resumed, with a worker, queued, or about to be queued, exactly once for each admission |
| ThreadPoolShutdown.RunsStop | applications/threadpool/thread_pool.hpp:87-103 | Nothing behind the sentinels is ever taken off the queue |
| ThreadPoolShutdown.AllExited | applications/threadpool/thread_pool.hpp:87-103 | When all workers have exited, exactly the coroutines queued before the sentinels have been resumed, once for each time they were queued, and the others that were admitted are queued behind the sentinels or still to be queued |
| ThreadPoolShutdown.LateIsFixed | applications/threadpool/thread_pool.hpp:158-171 | From the moment the sentinels are queued, those queued behind them and those still to be queued are together always those who were between entering and queuing at that moment |
| ThreadPoolShutdown.Drained | applications/threadpool/thread_pool.hpp:181-195 | When all workers have exited, all admitted work has been done exactly if nobody was between entering and queuing when the sentinels were queued; those who were are exactly the ones never resumed |
| ThreadPoolShutdown.WorkerCanStep | applications/threadpool/thread_pool.hpp:87-103 | Once the sentinels are queued, some worker can take a step as long as not all have exited |
| ThreadPoolShutdown.WorkShrinks | applications/threadpool/thread_pool.hpp:87-103 | Each worker step uses up some of a finite amount of work, which no step of anybody else adds to |
| ThreadPoolShutdown.JoinReturns | applications/threadpool/thread_pool.hpp:133-141 | From every reachable state with the sentinels queued, finitely many worker steps alone let all workers exit |
| ThreadPoolShutdown.NoWorkers | applications/threadpool/thread_pool.hpp:40-57 | A pool without workers, which is what a hardware concurrency of 0 gives, never resumes anybody |
| ThreadPoolShutdown.LatePushIsStranded | applications/threadpool/thread_pool.hpp:158-171 | A coroutine that enters before the shutdown and is queued after the sentinel is never resumed |
| BlockingQueue.StepKeepsInv | applications/threadpool/queue.hpp:39-75 | While a popper is blocked, values in the buffer never outnumber awake poppers and notifications to come |
| BlockingQueue.FirstInFirstOut | applications/threadpool/queue.hpp:39-75 | The values of all pushes, in the order of the pushes, are the values popped, in order, followed by the buffer |
| BlockingQueue.Pushes | applications/threadpool/queue.hpp:39-64 | A thread can push in every reachable state; the values join the end of the buffer, and it owes a notification for each |
| BlockingQueue.Notifies | applications/threadpool/queue.hpp:46-63 | A notification owed can be sent; it wakes any one blocked popper, and is lost only if none is blocked |
| BlockingQueue.Pops | applications/threadpool/queue.hpp:66-75 | A thread can pop in every reachable state; it takes the first value if there is one, and blocks if not |
| BlockingQueue.NoLostWakeup | applications/threadpool/queue.hpp:66-75 | Values with nobody about to take them and no notification to come mean that nobody is blocked |
| BlockingQueue.Settles | applications/threadpool/queue.hpp:39-75 | If the operations begun are carried on, then after finitely many steps no notification is owed, and a popper is blocked only if no value is left |

## Left out

- HashMap.Map.Insert: requires that the key is present, that the capacity is below 2^63, or that one more item does not exceed the load; otherwise the capacity doubles to 0 (`HashMap.ResizeStaysInRange`) and the code indexes an array of length 0.
- HashMap.Map.Update: requires the same as Insert.
- HashMap.Map.constructor: throws for a maximum of 0, which is an error result of `HashMap.NewMap`.
- InterleavedLookup.InterleavedMultilookup: requires a stream if there are keys; without one the first spawn pops a ring slot that was never written and resumes whatever it holds.
- CoroutineSearch.CoroMultiLookup: requires a stream if there are lookups, for the same reason.
- StateMachineSearch.StateMachineMultiLookup: requires a frame if there are lookups; without one the code reads past the end of an empty vector.
- RecyclingAllocator.RecyclingAllocator.Alloc: does not model malloc failing.
- ThreadPoolShutdown.Drained: takes pushes and pops of the queue as atomic; the mutex, the condition variable and the notifications are the subject of `BlockingQueue`.
- The state of a suspended coroutine is kept beside its handle, not in the heap block, and the completion callbacks are a function applied to the sink that collects the results.
- Results that are references into the map, or to arguments that no longer exist, are values here.
- The load factor is compared as `2 * n_items > capacity`, which the floating-point division by a power of two decides alike for fewer than 2^53 items.
- Atomics are sequentially consistent; memory orders, hardware prefetches, exceptions, destructors and moves are not modelled. The second run from a throttler's destructor finds the ring as the first left it.
- Subtasks of `when_all` are steps that may happen at any time after they are started.
- `Map::stats`, `Map::count`, benchmarks, drivers and argument parsing.
- Pipes, timers, event loops and handle wrappers: calls into the operating system.
- `libcoro` tasks and generators, `lazy`, `maybe`, `basics` and `internals`: small, unfinished or illustrative.
- `async_latch` and `task_scheduler`: simpler relatives of the manual-reset event and of the ring.
