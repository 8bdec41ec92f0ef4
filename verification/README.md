# UsrLinuxEmu: what the stateful core guarantees

A Dafny model of the parts of UsrLinuxEmu that keep state across calls, with proofs of what
they promise over every input, run and interleaving, and of exactly where they do not.  One
module models one source file; imperative code is modelled as classes and loops proved against
functions on values, and the promises are proved about those functions.  What a run has done is
compared with functions of the callers' actions alone.  Where a promise fails the code is kept
as it is, the failure is shown, and the exact condition is proved.

Run `dafny verify dfyconfig.toml` to check everything.

- **Buddy allocator** (`Bits`, `BuddySize`, `BuddySpec`, `BuddyTiling`, `BuddyCoalescing`,
  `BuddyRoundTrip`, `BuddyRuns`, `BuddyNodes`, `BuddyLists`, `BuddyHeap`).  `BuddyHeap` is the C
  structure: a node pool, intrusive doubly linked lists and a record table, changed in place.
  Free, recorded and lost blocks tile the region in every run; the nodes of the node pool are
  never recycled, and `BuddyNodes` says exactly which operation loses a block when they run out.
- **Memory pools** (`MemPool`): an allocator per pool inside a block of the device allocator.
- **Plugin loading** (`PluginOrder`, `PluginLoader`): cycle detection, Kahn's sort by priority,
  reference counts.
- **Work queue** (`WorkQueue`): worker, controller, producers and flushers as interleaved steps
  with a mutex and a condition variable's wait set.
- **Channel scheduler** (`ChannelManager`), **command puller and fences** (`Puller`, `FenceIds`),
  **timeline semaphores** (`Semaphores`).
- **Page migration and IOMMU** (`PageMigration`): two tables kept in step through a re-entrant
  flush.
- **KFD queue buffers** (`KfdQueue`), **PASIDs and processes** (`KfdPasid`, `KfdProcess`).
- **Graphs** (`Graph`) and **topology files** (`TopologyText`, `TopologyFile`).

Where code and comments disagree the code is followed:

- `buddy.c:62-63` says the node pool suffices because records are bounded; nodes are never
  returned, so a long enough run exhausts it and loses the whole region
  (`BuddyNodes.PoolRunsOut`; `BuddyRuns.LostIff` is the exact count).
- `buddy.c:292-300` handles a full record table; the node pool is used up when the table holds about
  half its records (`BuddyRuns.TableNeverFull`).
- `channel_manager.h:47-48` says every ten skipping cycles exactly one low entry is dequeued; the
  counter also advances with no low channel waiting, stale entries are dequeued with it, and a
  channel picked that way and not yielded is never picked again (`ChannelManager.ChannelLost`,
  `ChannelManager.LostForGood`).
- `graph.cpp:53-55` says a graph may be destroyed before its executables; destroying it erases
  them.
- `page_migration.cpp` keeps a page's dirty flag when the page is sent to the device again
  (`PageMigration.ToDeviceKeepsIff`).
- `semaphore_manager.cpp:56` says waiters behind an unsatisfied one expect higher values; they
  need not, and then wait although satisfied (`Semaphores.StrandedIff`).
- `hardware_puller_emu.h` says a batch's fence is signalled when the batch is complete; it is not
  when the last entry is a barrier or an unmet wait (`Puller.SignalsAreDue`), and an unmet wait
  does not hold back the entries behind it.

## Model

| member | source | states |
|---|---|---|
| BuddySize.RoundUpPow2IsLeast | libgpu_core/src/buddy.c:15-25 | for every 64-bit size the shift-and-or smear gives the least power of two that is not smaller, and 0 exactly when the size is above 2^63 |
| BuddySize.RequestOrderCovers | libgpu_core/src/buddy.c:235-247 | the order chosen for a request covers it exactly when the request is at most the largest block, and is then the smallest order that does; larger requests silently get a largest block, and above 2^63 a smallest one |
| BuddySize.BuddyIsOtherHalf | libgpu_core/src/buddy.c:39-46 | the exclusive-or address of an aligned block is the other half of the enclosing block of the next order: aligned, adjacent, and its own buddy's buddy |
| BuddyTiling.FreshInv | libgpu_core/src/buddy.c:210-233 | after init one free block is the whole region and tiles it |
| BuddyTiling.CoalesceInv | libgpu_core/src/buddy.c:167-206 | the recursive, restarting merge terminates and keeps free, recorded and lost blocks an exact tiling of aligned blocks |
| BuddyTiling.AllocInv | libgpu_core/src/buddy.c:235-304 | every allocation, successful, failed or rolled back, keeps the tiling |
| BuddyTiling.FreeInv | libgpu_core/src/buddy.c:306-326 | every free keeps the tiling |
| BuddyCoalescing.CoalesceSettles | libgpu_core/src/buddy.c:167-206 | after merging an order no two buddies of it are both free, and orders above that were so stay so |
| BuddyCoalescing.FreeKeepsCoalesced | libgpu_core/src/buddy.c:306-326 | a free never leaves two buddies below the top order both free, even with the node pool used up |
| BuddyCoalescing.AllocKeepsCoalesced | libgpu_core/src/buddy.c:235-304 | an allocation keeps that exactly when it does not split a block and then find the record table full, which no run comes to (BuddyRuns.TableNeverFull) |
| BuddyCoalescing.EmptyIsWhole | libgpu_core/src/buddy.c:306-326 | when nothing is allocated or lost, the free lists hold exactly one block, the region |
| BuddyRoundTrip.RecordsDistinct | libgpu_core/src/buddy.c:136-150 | no two used records hold the same address |
| BuddyRoundTrip.AllocThenFree | libgpu_core/src/buddy.c:250-326 | from a coalesced state with nodes left, allocating any size and freeing the address restores every free list, in order, and the records |
| BuddyRuns.AllocGives | libgpu_core/src/buddy.c:262-303 | a granted block is inside the region, aligned to the order requested, recorded in the first free slot, and disjoint from every earlier allocation |
| BuddyRuns.TableNeverFull | libgpu_core/src/buddy.c:136-150 | twice the number of recorded blocks is at most the node pool size plus one, so the record table is never full and the rollback branch of an allocation (292-300) is dead |
| BuddyRuns.OneOwner | libgpu_core/src/buddy.c:235-326 | every address of the region lies in exactly one block, which is free, recorded or lost, never two of these |
| BuddyRuns.BytesConserved | libgpu_core/src/buddy.c:349-361 | free size plus recorded bytes plus lost bytes is the region size, and the first two alone are exactly when nothing was lost |
| BuddyRuns.LostIff | libgpu_core/src/buddy.c:50-66 | blocks have been lost exactly when the nodes asked for, 1 + 2 splits + frees + merges + rollbacks, exceed the pool |
| BuddyRuns.BudgetSuffices | libgpu_core/src/buddy.c:50-66 | so with max_order m, any a allocations that reach splitting, with a*(3m+1)+1 at most the pool size, lose nothing whatever is freed between them |
| BuddyNodes.AllocSucceedsIff | libgpu_core/src/buddy.c:249-290 | in every run a request is granted exactly when the smallest order from its own up with a free block can be split down to it with at most one node missing |
| BuddyNodes.AllocLosesIff | libgpu_core/src/buddy.c:262-281 | in every run a request loses a block exactly when the pool has not the two nodes per split it needs |
| BuddyNodes.FreeLosesIff | libgpu_core/src/buddy.c:167-206 | in every run a free loses a block exactly when the pool has not one node for the block and one for each merge it sets off, counted along the chain of free buddies |
| BuddyNodes.StepLosesIff | libgpu_core/src/buddy.c:235-326 | so whether the next operation loses anything can be told from the state before it |
| BuddyNodes.PoolRunsOut | libgpu_core/src/buddy.c:61-66 | whatever the region, allocating all of it and freeing it as often as there are nodes loses it: from then on every request is refused and no operation but a reset changes anything |
| BuddyNodes.ResetStartsOver | libgpu_core/src/buddy.c:328-347 | after every run a reset leaves base and order as they were, nothing recorded or lost, one node taken, and the whole region as the one free block |
| BuddyNodes.ResetRevives | libgpu_core/src/buddy.c:328-347 | a region that has been lost can be allocated again, all of it, after a reset |
| BuddyNodes.FreeTells | libgpu_core/src/buddy.c:306-326 | a free fails exactly when the address is not recorded, and then changes nothing; otherwise it clears the record of that address and no other |
| BuddyRuns.RunGuarantees | libgpu_core/src/buddy.c:210-347 | in every run of init, alloc, free and reset: tiling, byte count, no two buddies below the top order both free, the whole region again when all is freed, a record table that is never full, and loss exactly when the node count says so |
| BuddyHeap.GpuBuddy.constructor | libgpu_core/src/buddy.c:210-233 | in-place init refines the one-block state |
| BuddyHeap.GpuBuddy.PoolAlloc | libgpu_core/src/buddy.c:50-59 | hands out the next fresh node, or none when the pool is used up |
| BuddyHeap.GpuBuddy.FreeListInsert | libgpu_core/src/buddy.c:70-79 | relinks the doubly linked list so that the node comes first and no other list changes |
| BuddyHeap.GpuBuddy.FreeListRemoveBlock | libgpu_core/src/buddy.c:82-95 | unlinks the node at any position, leaving the rest of the list in order |
| BuddyHeap.GpuBuddy.FreeListPop | libgpu_core/src/buddy.c:98-109 | unlinks and returns the head, if any |
| BuddyHeap.GpuBuddy.FindBuddyInList | libgpu_core/src/buddy.c:112-123 | walks the links to the first node with the address, or to the end |
| BuddyHeap.GpuBuddy.FindRecordSlot | libgpu_core/src/buddy.c:127-134 | the first used record with the address, or the table size |
| BuddyHeap.GpuBuddy.AddRecord | libgpu_core/src/buddy.c:136-150 | fills the first unused record, or reports the table full |
| BuddyHeap.GpuBuddy.RemoveRecord | libgpu_core/src/buddy.c:152-163 | clears the record and shrinks the count to one past the last used one |
| BuddyHeap.GpuBuddy.MergePair | libgpu_core/src/buddy.c:178-195 | two buddies leave the list and their union joins the next one, or is lost when no node is left |
| BuddyHeap.GpuBuddy.Coalesce | libgpu_core/src/buddy.c:167-206 | the restarting loop over a list that changes under it, with the recursive call, computes the merge function |
| BuddyHeap.GpuBuddy.SplitOnce | libgpu_core/src/buddy.c:264-280 | one halving of the head of a list, with either node possibly missing |
| BuddyHeap.GpuBuddy.SplitUntil | libgpu_core/src/buddy.c:262-281 | halves down to the order asked for |
| BuddyHeap.GpuBuddy.GrantHead | libgpu_core/src/buddy.c:283-303 | pops and records the block, or puts it back when the table is full |
| BuddyHeap.GpuBuddy.Alloc | libgpu_core/src/buddy.c:235-304 | the in-place allocation computes the allocation function, result and whole state |
| BuddyHeap.GpuBuddy.Free | libgpu_core/src/buddy.c:306-326 | the in-place free computes the free function, result and whole state |
| BuddyHeap.GpuBuddy.Reset | libgpu_core/src/buddy.c:328-347 | back to the state after init, keeping base and order |
| BuddyHeap.GpuBuddy.FreeBytes | libgpu_core/src/buddy.c:349-361 | walking all lists sums the free block sizes |
| BuddyHeap.GpuBuddy.AllocatedCount | libgpu_core/src/buddy.c:363-372 | counts the used records |
| MemPool.MemPools.DeviceAlloc | plugins/gpu_driver/sim/sim_device_va_allocator.cpp:39-53 | lazily initialises the device allocator and allocates; sizes of 0 or beyond the range are refused untouched |
| MemPool.MemPools.CreatePool | plugins/gpu_driver/sim/mem_pool.cpp:69-120 | succeeds exactly when the device allocation and the mapping do; the pool gets a fresh handle and its own allocator in the device block; a failure, also after the allocation, leaves pools and device records as they were |
| MemPool.MemPools.DestroyPool | plugins/gpu_driver/sim/mem_pool.cpp:122-136 | removes the pool and gives its device block back |
| MemPool.MemPools.AllocVa | plugins/gpu_driver/sim/mem_pool.cpp:138-164 | allocates from the pool's own allocator and lists the address in the pool's table; there is no space exactly when no list from the order the size needs up has a block the nodes left can split |
| MemPool.PoolAllocOk | plugins/gpu_driver/sim/mem_pool.cpp:138-164 | an allocation is a step of the pool's own allocator, also when it fails, and keeps the pool well formed |
| MemPool.AlignUpWraps | plugins/gpu_driver/sim/mem_pool.cpp:59-61 | rounding a size up to pages gives 0 exactly for 0 and past the last page of 64 bits |
| MemPool.AllocGivesRoom | plugins/gpu_driver/sim/mem_pool.cpp:145-162 | an allocation adds one block, the smallest that covers the size rounded up to pages (the largest there is above 8 GB, a page above 2^63), and lists its address with that size; other blocks and entries stay |
| MemPool.SpaceIff | plugins/gpu_driver/sim/mem_pool.cpp:145-159 | an allocation fails exactly for that want of blocks or nodes, or if the size wraps to 0 when rounded up |
| MemPool.MemPools.FreeAsync | plugins/gpu_driver/sim/mem_pool.cpp:181-204 | finds the one pool whose published range holds the address, frees it there, and fails exactly when no such pool lists it |
| MemPool.PoolFreeOk | plugins/gpu_driver/sim/mem_pool.cpp:191-200 | a free takes exactly its own address out of the table and its block out of the allocator |
| MemPool.InnerIsOuter | plugins/gpu_driver/sim/mem_pool.cpp:74-116 | a pool's inner allocator manages exactly the device block its size was given |
| MemPool.RangesDisjoint | plugins/gpu_driver/sim/mem_pool.cpp:184-188 | published ranges of two pools never meet, so the scan has at most one candidate |
| MemPool.LiveDisjoint | plugins/gpu_driver/sim/mem_pool.cpp:138-164 | any two live allocations of any two pools are disjoint and each lies in its own pool's device block |
| MemPool.EntryHasRoom | plugins/gpu_driver/sim/mem_pool.cpp:145-160 | every address in a pool's table owns a block of the right order for the size listed |
| MemPool.RequestsApartIff | plugins/gpu_driver/sim/mem_pool.cpp:138-164 | the bytes asked for at two live addresses, of any pools, do not overlap, except exactly that a request above 2^63 bytes overlaps all that lie above it |
| MemPool.HugeRequestOverlaps | plugins/gpu_driver/sim/mem_pool.cpp:138-164 | such a request is granted: a page, right below bytes handed out before |
| MemPool.EntryIsBlock | plugins/gpu_driver/sim/mem_pool.cpp:151-160 | a pool's table lists only addresses its allocator has recorded |
| MemPool.InsideRange | plugins/gpu_driver/sim/mem_pool.cpp:80-107 | in a pool whose size is a power of two of at least 4 KB, or the largest block and more, every live allocation lies between va_base and va_limit |
| MemPool.FirstPageInside | plugins/gpu_driver/sim/mem_pool.cpp:80-107 | for every size create accepts: the first page of a new pool lies in the published range exactly when the size is one of these, and free_async can find it exactly when the page-aligned size is |
| PluginOrder.DetectCycle | src/kernel/module_loader.cpp:62-79 | the search answers yes only with a cycle and otherwise leaves every visited name finished after all it depends on |
| PluginOrder.InDegrees | src/kernel/module_loader.cpp:97-104 | counts in-scope dependency entries, repeats included |
| PluginOrder.PopLeast | src/kernel/module_loader.cpp:116-119 | takes out an element of least load_priority |
| PluginOrder.Relax | src/kernel/module_loader.cpp:122-132 | lowers the in-degree of each dependent once, however often it names the plugin, and queues those that reach zero |
| PluginOrder.Kahn | src/kernel/module_loader.cpp:106-134 | emits soundly and by priority until nothing is ready |
| PluginOrder.TopoSort | src/kernel/module_loader.cpp:83-135 | reports a loop exactly when the in-scope dependency graph has a cycle; otherwise the order is duplicate-free, every dependency before its dependents, each pick of least priority among the ready, and holds exactly the candidates no repeated dependency entry lies below |
| PluginOrder.EmittedIsClean | src/kernel/module_loader.cpp:97-134 | whatever is emitted has no repeated dependency entry anywhere below it |
| PluginOrder.CleanIsEmitted | src/kernel/module_loader.cpp:97-134 | without a cycle, whatever has no repeated dependency entry anywhere below it is emitted |
| PluginLoader.ModuleLoader.ResolveDependencies | src/kernel/module_loader.cpp:139-153 | adds a reference per entry and stops at the first plugin not loaded |
| PluginLoader.ModuleLoader.LoadPlugin | src/kernel/module_loader.cpp:177-221 | bumps a loaded plugin, otherwise resolves, initialises and registers it |
| PluginLoader.ModuleLoader.LoadPlugins | src/kernel/module_loader.cpp:223-241 | refuses on a cycle with the table untouched, otherwise loads in the sorted order past failures |
| PluginLoader.EveryoneOrdered | src/kernel/module_loader.cpp:83-135 | with no repeated entries the order is a permutation of the candidates |
| PluginLoader.LoadAllCounts | src/kernel/module_loader.cpp:177-241 | loading a sound order from an empty table loads exactly it, each plugin with one reference per loaded plugin that lists it |
| PluginLoader.LoadIff | src/kernel/module_loader.cpp:177-221 | for every table and plugin: a load succeeds exactly when the object opens and the plugin is loaded already, or all it lists is and its init succeeds; which name it then adds, with its path and no references; and what it adds to every count, failing or not |
| PluginLoader.ResolveIff | src/kernel/module_loader.cpp:139-153 | resolving succeeds exactly when every listed name is loaded, and adds a reference per entry up to the first that is not |
| PluginLoader.LoadAllIff | src/kernel/module_loader.cpp:223-241 | loading any plugins in any order, whichever fail: the names present and all counts, from the plugins alone |
| PluginLoader.LoadedIff | src/kernel/module_loader.cpp:177-241 | in the sorted order a plugin ends up loaded exactly when it opens, its init succeeds, and everything it lists is loaded |
| PluginLoader.LoadedPaths | src/kernel/module_loader.cpp:213-219 | each under the path of its own candidate |
| PluginLoader.EveryoneLoaded | src/kernel/module_loader.cpp:177-241 | a complete order loads everybody with the right counts |
| PluginLoader.FailedLoadLeaks | src/kernel/module_loader.cpp:139-153 | a failed load leaves the table unchanged exactly when it failed before its first loaded dependency |
| PluginLoader.RepeatNeverLoaded | src/kernel/module_loader.cpp:97-131 | a dependency named twice keeps its plugin out of the order although there is no cycle |
| WorkQueue.InitialInv | src/kernel/thread/kernel_workqueue.cpp:15-25 | the initial state satisfies the invariant |
| WorkQueue.StepKeepsMutex | src/kernel/thread/kernel_workqueue.cpp:27-95 | exactly the threads in critical sections own the mutex, at most one at a time |
| WorkQueue.StepKeepsAccount | src/kernel/thread/kernel_workqueue.cpp:49-95 | executed, in hand and queued together stay the tasks enqueued, in order |
| WorkQueue.StepKeepsLifecycle | src/kernel/thread/kernel_workqueue.cpp:15-47 | the worker exists when it should and exits only after running all that was queued when started_ was cleared |
| WorkQueue.StepKeepsWakes | src/kernel/thread/kernel_workqueue.cpp:27-40 | a worker about to sleep saw the queue empty and started_ set, and one asleep with started_ cleared still has the notification coming |
| WorkQueue.RunKeepsInv | src/kernel/thread/kernel_workqueue.cpp:15-95 | mutual exclusion, the task account, the worker lifecycle and the wakeup guarantee hold in every interleaving |
| WorkQueue.RunTracks | src/kernel/thread/kernel_workqueue.cpp:15-95 | in every interleaving the queue's books are functions of the actions: the tasks of the calls to enqueue that got to their push, in that order, less what a final clear dropped; how many have run; whether started_ is set; and what had been enqueued when it was last cleared |
| WorkQueue.StepCarries | src/kernel/thread/kernel_workqueue.cpp:49-55 | from the call to the push a producer carries the caller's task |
| WorkQueue.TasksInOrder | src/kernel/thread/kernel_workqueue.cpp:49-95 | in every interleaving the tasks run, in hand and queued are those the callers enqueued, none lost, run twice or reordered |
| WorkQueue.StopDrains | src/kernel/thread/kernel_workqueue.cpp:27-47 | when stop() has joined, every task the callers enqueued before started_ was cleared has run, once, in order |
| WorkQueue.AtStopIsLog | src/kernel/thread/kernel_workqueue.cpp:31-38 | what stop() is measured against is the log at the step that clears started_ |
| WorkQueue.JoinProgress | src/kernel/thread/kernel_workqueue.cpp:40-43 | after stop()'s notify_all the worker is never asleep, and it, the mutex owner or the join can always move |
| WorkQueue.WorkerDrains | src/kernel/thread/kernel_workqueue.cpp:74-95 | while stop() waits, every worker step brings the exit nearer and no other step but an enqueue moves it away |
| WorkQueue.WakeupLostIff | src/kernel/thread/kernel_workqueue.cpp:49-63 | a step loses a wakeup, leaving a queued task to a sleeping worker with no notification on its way, exactly when it is the last pending notify_one and goes to a flusher while the worker sleeps on a queued task |
| WorkQueue.NeverLostIff | src/kernel/thread/kernel_workqueue.cpp:49-63 | over every interleaving: no state has a lost wakeup exactly when no step is such a notify_one |
| WorkQueue.WithoutFlush | src/kernel/thread/kernel_workqueue.cpp:49-55 | hence none is lost in a run without flush() |
| WorkQueue.FlushStealsWakeup | src/kernel/thread/kernel_workqueue.cpp:49-63 | with a flush in progress one can be: a reachable state has a task queued, the worker asleep and no notification pending |
| WorkQueue.FlushSeesAllIff | src/kernel/thread/kernel_workqueue.cpp:57-63 | a flush that returns true has seen every task run exactly when the worker is not between taking a task and raising in_flight_ |
| WorkQueue.FlushReturnsEarly | src/kernel/thread/kernel_workqueue.cpp:57-92 | a reachable flush returns true with a task taken but not run |
| WorkQueue.FlushMissedIff | src/kernel/thread/kernel_workqueue.cpp:57-92 | a step leaves a flusher waiting with nothing left to wait for and no notify_all coming exactly when it enters the wait set after the last one, or is the final clear of stop() |
| WorkQueue.FlushMisses | src/kernel/thread/kernel_workqueue.cpp:57-92 | which happens |
| WorkQueue.WakesUp | src/kernel/thread/kernel_workqueue.cpp:40-95 | a thread leaves the wait set exactly by a notification to it, a notify_all, its timeout or a spurious wakeup |
| WorkQueue.ControlAdvances | src/kernel/thread/kernel_workqueue.cpp:15-47 | every step of start() and stop() brings the call nearer to its end, six steps at most |
| WorkQueue.EnqueueUnderWay | src/kernel/thread/kernel_workqueue.cpp:49-55 | a call to enqueue lasts until its notification |
| WorkQueue.FlushUnderWay | src/kernel/thread/kernel_workqueue.cpp:57-63 | a call to flush() lasts until it finds queue and worker idle or times out |
| ChannelManager.Manager.constructor | plugins/gpu_driver/sim/hardware/channel_manager.cpp:15-19 | no channel registered, queues empty |
| ChannelManager.Manager.RegisterChannel | plugins/gpu_driver/sim/hardware/channel_manager.cpp:26-46 | registers once, queues the id at its level, and refuses taken and out-of-range ids |
| ChannelManager.Manager.SubmitBatch | plugins/gpu_driver/sim/hardware/channel_manager.cpp:56-72 | replaces the batch, and queues the channel only if it was not in flight |
| ChannelManager.Manager.YieldChannel | plugins/gpu_driver/sim/hardware/channel_manager.cpp:147-152 | clears the in-flight flag and nothing else |
| ChannelManager.Manager.NextReadyChannel | plugins/gpu_driver/sim/hardware/channel_manager.cpp:74-145 | the two dequeue loops compute the pick function, state and result |
| ChannelManager.NextKeepsInv | plugins/gpu_driver/sim/hardware/channel_manager.cpp:74-145 | queue entries stay registered channels of their level and the counter stays at most 10 |
| ChannelManager.RunTracks | plugins/gpu_driver/sim/hardware/channel_manager.cpp:26-152 | after every run, from the actions alone: which channels are registered with which priority, and that a channel is in flight exactly when a batch was submitted to it and not yielded since, and holds the batch submitted last |
| ChannelManager.PicksLastSubmitted | plugins/gpu_driver/sim/hardware/channel_manager.cpp:56-145 | a call hands out the batch last submitted to the channel it picks |
| ChannelManager.QueuedLast | plugins/gpu_driver/sim/hardware/channel_manager.cpp:26-72 | registering a channel and submitting to one not in flight queue it last at its own level, and nothing else but a pick touches the queues |
| ChannelManager.PickRemembered | plugins/gpu_driver/sim/hardware/channel_manager.cpp:110-142 | the manager remembers its pick |
| ChannelManager.NullIff | plugins/gpu_driver/sim/hardware/channel_manager.cpp:125-144 | null is returned exactly when every channel in flight has lost its queue entry |
| ChannelManager.PickIsBest | plugins/gpu_driver/sim/hardware/channel_manager.cpp:110-142 | a pick is in flight; off the starvation path it is the first of the highest level that has one |
| ChannelManager.LostByForce | plugins/gpu_driver/sim/hardware/channel_manager.cpp:111-123 | a call loses a channel exactly when it takes the starvation path and the channel is the first in flight of the low queue, with this one entry |
| ChannelManager.ChannelLost | plugins/gpu_driver/sim/hardware/channel_manager.cpp:110-142 | any low-priority channel can be lost: a run from the start registers two channels, submits to both, and picks eleven times |
| ChannelManager.LostForGood | plugins/gpu_driver/sim/hardware/channel_manager.cpp:56-72 | a lost channel stays lost over every run until it is yielded, whatever is submitted to it |
| ChannelManager.DisciplineLosesNone | plugins/gpu_driver/sim/hardware/channel_manager.cpp:74-152 | if each pick is yielded before the next call, in every run null means nothing is in flight |
| ChannelManager.LowWaitsTen | plugins/gpu_driver/sim/hardware/channel_manager.cpp:110-141 | at most ten calls in a row pass over a waiting low-priority channel, whatever happens between them |
| ChannelManager.PeersStarve | plugins/gpu_driver/sim/hardware/channel_manager.cpp:125-141 | equal priorities do not rotate: a channel resubmitted at once is picked in every one of any number of rounds |
| ChannelManager.PeerStarves | plugins/gpu_driver/sim/hardware/channel_manager.cpp:26-141 | a run from the start reaches this for any two channels: the other stays in flight and is never picked |
| FenceIds.FenceTable.AllocateId | plugins/gpu_driver/sim/fence_id.cpp:44-53 | ids count up from the base and start unsignalled |
| FenceIds.FenceTable.Check | plugins/gpu_driver/sim/fence_id.cpp:55-73 | refuses ids out of range; an unknown id is not signalled |
| FenceIds.FenceTable.SignalId | plugins/gpu_driver/sim/fence_id.cpp:75-88 | marks an id in range, ignores others |
| FenceIds.AllocateKeepsSignal | plugins/gpu_driver/sim/fence_id.cpp:44-53 | an allocation clears a signal exactly when it hands out an id signalled beforehand |
| Puller.HardwarePuller.Step | plugins/gpu_driver/sim/hardware/hardware_puller_emu.cpp:137-344 | one turn of the loop, every state and branch of this path |
| Puller.HardwarePuller.HandleComplete | plugins/gpu_driver/sim/hardware/hardware_puller_emu.cpp:376-393 | signals the pending fence only at the last index and then clears it |
| Puller.HardwarePuller.SubmitBatch | plugins/gpu_driver/sim/hardware/hardware_puller_emu.cpp:434-441 | starts a new batch |
| Puller.HardwarePuller.OnDoorbell | plugins/gpu_driver/sim/hardware/hardware_puller_emu.cpp:54-59 | leaves a doorbell pending |
| Puller.DecodeKeepsInv | plugins/gpu_driver/sim/hardware/hardware_puller_emu.cpp:209-238 | a wait that is not met, or a barrier, is put off and passed over, keeping the account |
| Puller.CompleteKeepsInv | plugins/gpu_driver/sim/hardware/hardware_puller_emu.cpp:297-341 | completion signals exactly when the batch has earned it |
| Puller.TurnKeepsInv | plugins/gpu_driver/sim/hardware/hardware_puller_emu.cpp:137-344 | entries are read in index order, no entry is in work beyond the last, the dead wait branch stays dead |
| Puller.SignalsAreDue | plugins/gpu_driver/sim/hardware/hardware_puller_emu.cpp:376-441 | in every run the fences signalled are, in order and once each, those of the batches the callers submitted whose last entry completed and in which no copy failed; the machine works on the batch submitted last |
| Puller.RunTracks | plugins/gpu_driver/sim/hardware/hardware_puller_emu.cpp:424-441 | in every run the batches the machine has had are the submitted ones, address, length and fence, in order |
| Puller.AllocationFresh | plugins/gpu_driver/sim/fence_id.cpp:44-53 | ids count up by one per call, and a fresh one is not signalled |
| Puller.CheckedIffEarned | plugins/gpu_driver/sim/fence_id.cpp:55-88 | in every run a check reports a fence signalled only if such a batch carried it, and exactly then if batches carry allocated fences |
| Puller.StaysSignalledIff | plugins/gpu_driver/sim/fence_id.cpp:44-88 | a signalled fence stays signalled through a run exactly when the run does not hand its id out |
| Puller.StaysSignalled | plugins/gpu_driver/sim/fence_id.cpp:75-88 | hence one allocated before it was signalled stays signalled for good |
| Puller.BatchAdvances | plugins/gpu_driver/sim/hardware/hardware_puller_emu.cpp:137-344 | once its doorbell has rung the worker is never stuck and every turn brings the end of the batch nearer |
| Puller.BatchEnds | plugins/gpu_driver/sim/hardware/hardware_puller_emu.cpp:137-344 | the batch is through after a bounded number of turns, whatever the turns find |
| Puller.RingStarts | plugins/gpu_driver/sim/hardware/hardware_puller_emu.cpp:54-59 | a doorbell wakes the worker |
| Puller.FallsAsleep | plugins/gpu_driver/sim/hardware/hardware_puller_emu.cpp:137-200 | with its batch through the worker uses up the doorbells pending and sleeps within four turns |
| Puller.EntryMeetsFate | plugins/gpu_driver/sim/hardware/hardware_puller_emu.cpp:190-341 | from reading an entry to the next one takes at most five turns, in which that entry alone is put off, released without its copy or launch, failed or dispatched, as its kind, its release bit and what the machine found say |
| Semaphores.SemaphoreManager.SignalSemaphore | plugins/gpu_driver/sim/semaphore_manager.cpp:35-70 | raises the value, takes the satisfied head of the queue and calls it back in order; refuses values that do not grow |
| Semaphores.SemaphoreManager.WaitFor | plugins/gpu_driver/sim/semaphore_manager.cpp:72-93 | calls back at once if satisfied, else queues last |
| Semaphores.SemaphoreManager.DestroySemaphore | plugins/gpu_driver/sim/semaphore_manager.cpp:104-125 | calls every waiter back with its own datum |
| Semaphores.SemaphoreManager.CreateSemaphore | plugins/gpu_driver/sim/semaphore_manager.cpp:27-33 | a fresh handle |
| Semaphores.SemaphoreManager.Query | plugins/gpu_driver/sim/semaphore_manager.cpp:95-102 | the value of a live semaphore only |
| Semaphores.SignalKeepsInv | plugins/gpu_driver/sim/semaphore_manager.cpp:35-70 | a signal keeps the account: whoever leaves the queue is called, once, in order, and the head of the queue is not satisfied |
| Semaphores.RunKeepsInv | plugins/gpu_driver/sim/semaphore_manager.cpp:27-125 | in every interleaving of calls and callbacks: the callbacks decided on for the waiters of a semaphore are, in order and once each, those taken off its queue in registration order; each gets a value that satisfies it or its own datum; and what is decided is what has run and what is left to run |
| Semaphores.RunTracks | plugins/gpu_driver/sim/semaphore_manager.cpp:27-125 | after every run, from the actions alone: which semaphores there are, with the highest value created with or signalled, or dead; and which waits were accepted, with their arguments |
| Semaphores.DecidedArguments | plugins/gpu_driver/sim/semaphore_manager.cpp:59-125 | a callback decided on by a destruction gets its waiter's datum, any other the value its semaphore has at that moment |
| Semaphores.FireAdvances | plugins/gpu_driver/sim/semaphore_manager.cpp:59-69 | a call with callbacks left runs the next of them |
| Semaphores.ExactlyOnce | plugins/gpu_driver/sim/semaphore_manager.cpp:35-125 | after every run each accepted wait is in exactly one of three places, queued, about to be called, or called, and nobody is called twice |
| Semaphores.ValuesGrow | plugins/gpu_driver/sim/semaphore_manager.cpp:42-46 | values only grow, and only by a signal of that value |
| Semaphores.WokenIff | plugins/gpu_driver/sim/semaphore_manager.cpp:48-58 | a signal wakes a waiter exactly when it satisfies it and everyone before it |
| Semaphores.StrandedIff | plugins/gpu_driver/sim/semaphore_manager.cpp:48-58 | from a state where nobody waits for a value already reached, a step leaves somebody doing so exactly when it is a signal whose value satisfies a waiter behind one it does not satisfy |
| Semaphores.NeverReadyIff | plugins/gpu_driver/sim/semaphore_manager.cpp:48-58 | over every run: nobody ever waits for a value already reached exactly when no signal is such |
| Semaphores.SafeQueueIff | plugins/gpu_driver/sim/semaphore_manager.cpp:48-58 | a queue is safe from every signal exactly when its waiters want nondecreasing values |
| Semaphores.NobodyStuck | plugins/gpu_driver/sim/semaphore_manager.cpp:48-58 | hence registrations with nondecreasing values are always served |
| Semaphores.StuckBehind | plugins/gpu_driver/sim/semaphore_manager.cpp:48-58 | for any higher and lower expected value, a satisfied waiter stays behind a head that wants more |
| Semaphores.StepInOrderIff | plugins/gpu_driver/sim/semaphore_manager.cpp:59-69 | a step takes the callbacks out of the order they were decided in exactly when it runs one while a call that decided earlier has one left |
| Semaphores.InOrderIff | plugins/gpu_driver/sim/semaphore_manager.cpp:59-69 | over every run: what has run is how the decisions began exactly when no step was such |
| Semaphores.OneAtATimeInOrder | plugins/gpu_driver/sim/semaphore_manager.cpp:59-69 | hence calls that do not overlap call back in order |
| Semaphores.OverlapReorders | plugins/gpu_driver/sim/semaphore_manager.cpp:59-69 | two overlapping signals can call the later waiter first |
| PageMigration.Domain.MapPage | plugins/iommu_driver/dma_remap.cpp:44-74 | refuses sizes other than a page, unaligned addresses and mapped ones; otherwise maps |
| PageMigration.Domain.UnmapPage | plugins/iommu_driver/dma_remap.cpp:81-128 | erases the mapping and then flushes the evicted entry into the tracker |
| PageMigration.Domain.FlushIotlb | plugins/iommu_driver/dma_remap.cpp:178-235 | invalidates the evicted page in the tracker unless a real device took the flush |
| PageMigration.Tracker.AttachDomain | plugins/gpu_driver/sim/page_migration.cpp:122-127 | names the domain the tracker maps through and changes nothing else |
| PageMigration.Tracker.MigrateToDevice | plugins/gpu_driver/sim/page_migration.cpp:53-72 | copies in, marks the page clean and maps it |
| PageMigration.Tracker.MigrateToSystem | plugins/gpu_driver/sim/page_migration.cpp:74-92 | unmaps, which calls back into the tracker, and copies out |
| PageMigration.Tracker.InvalidatePage | plugins/gpu_driver/sim/page_migration.cpp:129-139 | evicts a page on the device |
| PageMigration.Tracker.MarkPageDirty | plugins/gpu_driver/sim/page_migration.cpp:149-158 | marks a page on the device |
| PageMigration.ToDeviceKeepsIff | plugins/gpu_driver/sim/page_migration.cpp:53-72 | a migration in keeps all tables in agreement exactly when the page is not dirty and is one aligned page or there already |
| PageMigration.ToSystemKeepsIff | plugins/gpu_driver/sim/page_migration.cpp:74-92 | a migration out does exactly when the page is not there or is taken back as one page |
| PageMigration.StepKeepsIff | plugins/gpu_driver/sim/page_migration.cpp:53-158 | for every operation by anyone, the exact condition under which on-device pages, page table, mappings and dirty flags still agree |
| PageMigration.RunKeepsCoherent | plugins/iommu_driver/dma_remap.cpp:44-128 | the tables agree after every run whose steps meet that condition |
| PageMigration.RunTracks | plugins/gpu_driver/sim/page_migration.cpp:53-158 | after such a run, from the actions alone: a page is on the device exactly when it was sent there and not fetched or unmapped since, dirty exactly when marked since, and every migration not refused is counted |
| PageMigration.PageGoes | plugins/gpu_driver/sim/page_migration.cpp:53-92 | whoever is bound to whom: a migration not refused leaves its page where it was sent, and an unmap takes a page off the device exactly when its flush reaches the tracker |
| PageMigration.MapThenUnmap | plugins/iommu_driver/dma_remap.cpp:44-110 | a mapping is made exactly when aligned and not there yet, translates as asked, touches no other, and is undone by the unmap |
| PageMigration.RoundTrip | plugins/gpu_driver/sim/page_migration.cpp:63-90 | what was sent to the device comes back, after anything that does not write over it, its own eviction included |
| KfdQueue.Vm.BufferGet | plugins/gpu_driver/drv/kfd/kfd_queue.c:183-212 | takes one reference of each kind if the request starts and ends where the mapping does, else stores null |
| KfdQueue.BufferIff | plugins/gpu_driver/drv/kfd/kfd_queue.c:190-207 | a request gets an object exactly when a mapping to it starts at its page and, unless less than a page is asked for, has just the length asked for |
| KfdQueue.SaveAreaCovers | plugins/gpu_driver/drv/kfd/kfd_queue.c:281-283 | the save area size covers both parts exactly when their sum is within a page of 2^32, and wraps to less otherwise |
| KfdQueue.Vm.UnrefVa | plugins/gpu_driver/drv/kfd/kfd_queue.c:340-349 | gives one reference back, never below zero |
| KfdQueue.UnrefBoVasLocked | plugins/gpu_driver/drv/kfd/kfd_queue.c:372-383 | gives back one for each field, buffers shared between fields included |
| KfdQueue.UnrefBoVas | plugins/gpu_driver/drv/kfd/kfd_queue.c:351-370 | the same under a reservation, nothing if that fails; reservations balance |
| KfdQueue.ReleaseBuffers | plugins/gpu_driver/drv/kfd/kfd_queue.c:318-338 | drops the object references and nulls the fields |
| KfdQueue.FailReserved | plugins/gpu_driver/drv/kfd/kfd_queue.c:303-307 | the rollback with the object reserved restores what was gained |
| KfdQueue.FailUnreserved | plugins/gpu_driver/drv/kfd/kfd_queue.c:309-315 | the rollback after the save area was not found, with its own reservation |
| KfdQueue.AcquireSaveArea | plugins/gpu_driver/drv/kfd/kfd_queue.c:281-301 | the save area step and its error path |
| KfdQueue.AcquireCompute | plugins/gpu_driver/drv/kfd/kfd_queue.c:245-301 | the steps of compute queues |
| KfdQueue.AcquireCommon | plugins/gpu_driver/drv/kfd/kfd_queue.c:232-247 | the steps of every queue |
| KfdQueue.AcquireBuffers | plugins/gpu_driver/drv/kfd/kfd_queue.c:216-316 | every path through the gotos computes the acquire function and leaves the root object unreserved |
| KfdQueue.AcquireSucceedsIff | plugins/gpu_driver/drv/kfd/kfd_queue.c:216-316 | it succeeds exactly when the reservation does and every buffer needed is mapped as asked with the node's sizes |
| KfdQueue.AcquireServes | plugins/gpu_driver/drv/kfd/kfd_queue.c:216-301 | then each field holds the object mapped at its own address, the ones not asked for stay, and each of these objects has one reference of either kind more |
| KfdQueue.FailureRestoresIff | plugins/gpu_driver/drv/kfd/kfd_queue.c:299-315 | a failed acquire restores every count exactly when no unreached field held a stale reference and the rollback could reserve |
| KfdQueue.ReleaseQueue | plugins/gpu_driver/drv/kfd/kfd_queue.c:318-383 | unref_bo_vas and release_buffers after each other |
| KfdQueue.RunBalances | plugins/gpu_driver/drv/kfd/kfd_queue.c:183-383 | over all runs of many queues sharing objects, every unit of every count belongs to the initial counts, a live queue or a recorded leak |
| KfdQueue.AllReleasedRestoresIff | plugins/gpu_driver/drv/kfd/kfd_queue.c:183-383 | over every run: when every queue is released, all counts are back exactly when no teardown, and no rollback after a missing save area, failed to reserve the root object |
| KfdQueue.AllReleasedRestores | plugins/gpu_driver/drv/kfd/kfd_queue.c:183-383 | hence they are when every reservation succeeds |
| KfdPasid.PasidTable.TestBit | plugins/gpu_driver/drv/kfd/kfd_pasid.c:39-43 | the bit of the word tells membership |
| KfdPasid.PasidTable.SetBit | plugins/gpu_driver/drv/kfd/kfd_pasid.c:45-49 | or-ing the bit in adds exactly that id |
| KfdPasid.PasidTable.ClearBit | plugins/gpu_driver/drv/kfd/kfd_pasid.c:51-55 | masking it out removes exactly that id |
| KfdPasid.PasidTable.LazyInitialize | plugins/gpu_driver/drv/kfd/kfd_pasid.c:58-68 | empties the table but for id 0, unless shut down or done before |
| KfdPasid.PasidTable.InitTable | plugins/gpu_driver/drv/kfd/kfd_pasid.c:72-78 | reopens the table |
| KfdPasid.PasidTable.ExitTable | plugins/gpu_driver/drv/kfd/kfd_pasid.c:80-87 | shuts it down |
| KfdPasid.PasidTable.AllocatePasid | plugins/gpu_driver/drv/kfd/kfd_pasid.c:89-130 | the scan from the hint with wrap-around returns the least free id, and fails exactly when all are taken or the table is shut down |
| KfdPasid.PasidTable.FreePasid | plugins/gpu_driver/drv/kfd/kfd_pasid.c:132-154 | frees an allocated id only, and moves the hint down |
| KfdPasid.MarkSets | plugins/gpu_driver/drv/kfd/kfd_pasid.c:45-49 | bit arithmetic on words refines set insertion |
| KfdPasid.MarkClears | plugins/gpu_driver/drv/kfd/kfd_pasid.c:51-55 | bit arithmetic on words refines set deletion |
| KfdPasid.GrantsLeast | plugins/gpu_driver/drv/kfd/kfd_pasid.c:102-129 | an allocation grants the least free id and moves the hint past it, back to 1 at the end |
| KfdPasid.AllocateKeepsValid | plugins/gpu_driver/drv/kfd/kfd_pasid.c:89-130 | the count is the set size and all ids below the hint are taken, so nothing is ever found after the wrap |
| KfdProcess.Registry.CreateProcess | plugins/gpu_driver/drv/kfd/kfd_process.c:84-163 | every error path and the insertion at the head of the list |
| KfdProcess.Registry.DestroyProcess | plugins/gpu_driver/drv/kfd/kfd_process.c:165-200 | removes the process found by identity and frees its id |
| KfdProcess.Registry.FindByPid | plugins/gpu_driver/drv/kfd/kfd_process.c:202-219 | finds the live process or shows there is none |
| KfdProcess.Registry.InitProcesses | plugins/gpu_driver/drv/kfd/kfd_process.c:42-51 | empties the list once |
| KfdProcess.Registry.ExitProcesses | plugins/gpu_driver/drv/kfd/kfd_process.c:53-82 | destroys from the head until empty |
| KfdProcess.StepKeepsInv | plugins/gpu_driver/drv/kfd/kfd_process.c:84-200 | distinct pids, distinct PASIDs, and the allocator holding exactly the live ones, kept by every safe step |
| KfdProcess.UnsafeBreaks | plugins/gpu_driver/drv/kfd/kfd_process.c:42-51 | no unsafe step keeps them: tearing the allocator down, or first initialising the list, under live processes |
| KfdProcess.RunKeepsInv | plugins/gpu_driver/drv/kfd/kfd_process.c:42-200 | distinct pids and PASIDs hold after every run of safe steps |
| KfdProcess.FailedCreateKeeps | plugins/gpu_driver/drv/kfd/kfd_process.c:90-146 | from any valid allocator state, a create that fails changes neither the processes nor the ids handed out |
| KfdProcess.CreateSucceedsIff | plugins/gpu_driver/drv/kfd/kfd_process.c:84-163 | a create succeeds exactly when the pid is free, memory is there, the allocator is open and fewer than 65535 processes live |
| KfdProcess.RestartDuplicates | plugins/gpu_driver/drv/kfd/kfd_pasid.c:72-87 | after a restart of the allocator under live processes, as many creates as a live PASID give that PASID out twice |
| Graph.GridKeptIff | plugins/gpu_driver/sim/graph.cpp:84-88 | packed grid dimensions read back exactly when x fits 16 bits and y 8 |
| Graph.BlockKeptIff | plugins/gpu_driver/sim/graph.cpp:90-94 | packed block dimensions read back exactly when x and y fit 8 bits |
| Graph.KernargsKeptIff | plugins/gpu_driver/sim/graph.cpp:101-106 | argument handles read back exactly below 2^52 |
| Graph.ReadBackIff | plugins/gpu_driver/sim/graph.cpp:118-156 | a compiled node reads back exactly when it is in range |
| Graph.CompileInjective | plugins/gpu_driver/sim/graph.cpp:118-156 | compilation is injective on lists of nodes in range |
| Graph.GraphTables.Create | plugins/gpu_driver/sim/graph.cpp:172-179 | a fresh empty graph |
| Graph.GraphTables.Destroy | plugins/gpu_driver/sim/graph.cpp:181-193 | erases the graph and, in a loop over the table, exactly its executables |
| Graph.GraphTables.Add | plugins/gpu_driver/sim/graph.cpp:195-233 | appends the node to a known graph |
| Graph.GraphTables.ValidateKernargs | plugins/gpu_driver/sim/graph.cpp:160-166 | every kernel node has an argument buffer |
| Graph.GraphTables.GraphToGpfifo | plugins/gpu_driver/sim/graph.cpp:118-156 | compiles node by node, in order |
| Graph.GraphTables.InstantiateGraph | plugins/gpu_driver/sim/graph.cpp:235-271 | compiles the nodes of now into a new stretch at the end of the heap |
| Graph.GraphTables.Launch | plugins/gpu_driver/sim/graph.cpp:273-287 | looks the executable up and changes nothing |
| Graph.GraphTables.Remove | plugins/gpu_driver/sim/graph.cpp:289-295 | erases one executable |
| Graph.InstantiateKeepsInv | plugins/gpu_driver/sim/graph.cpp:235-271 | a new executable is placed beyond all others and moves none |
| Graph.RunKeepsInv | plugins/gpu_driver/sim/graph.cpp:172-295 | in every run executables have live sources and disjoint stretches within the heap |
| Graph.RunTracks | plugins/gpu_driver/sim/graph.cpp:172-295 | after every run, from the actions alone: which graphs there are with which nodes, and which executables made from which graph with which nodes |
| Graph.InstantiatesIff | plugins/gpu_driver/sim/graph.cpp:235-249 | a graph is instantiated exactly when it is there and every kernel node has an argument buffer |
| Graph.LaunchReads | plugins/gpu_driver/sim/graph.cpp:273-287 | in every run a launched address holds the compilation of the nodes the callers had given its graph when it was instantiated |
| Graph.NodesRecorded | plugins/gpu_driver/sim/graph.cpp:235-271 | the record of an executable's nodes is the graph's node list at the step that makes it, and no step changes it |
| TopologyText.PrintedNumber | sim_hardware/src/topology.cpp:72-101 | a number printed in hexadecimal parses back, through strtoul |
| TopologyText.NumberIff | sim_hardware/src/topology.cpp:72-101 | exactly which texts are taken as numbers: numerals, of white space, sign, prefix and digits of the base, up to a NUL, once more behind a 0x, or nothing there |
| TopologyText.NumberMeans | sim_hardware/src/topology.cpp:72-101 | and what they mean in 64 bits, with saturation and a wrapping minus sign |
| TopologyText.BdfIff | sim_hardware/src/topology.cpp:27-49 | exactly which texts are addresses, and of what: separators in place and fields within 5, 5 and 3 bits; of the texts for address 0 only one is taken |
| TopologyText.PrintedBdf | sim_hardware/src/topology.cpp:345-354 | a printed address reads back as its low 13 bits |
| TopologyText.BdfTextTells | sim_hardware/src/topology.cpp:345-354 | addresses print alike exactly when their low 13 bits agree |
| TopologyText.LastCharacterIgnored | sim_hardware/src/topology.cpp:27-49 | the last character of an address text does not count |
| TopologyFile.OnlyKnownKeys | sim_hardware/src/topology.cpp:201-215 | rejects an object with any unknown key |
| TopologyFile.LoadBars | sim_hardware/src/topology.cpp:252-302 | the loop with its set of seen slots accepts by footprints |
| TopologyFile.LoadDevice | sim_hardware/src/topology.cpp:208-251 | one device |
| TopologyFile.LoadDevices | sim_hardware/src/topology.cpp:206-304 | the device loop with its set of seen address texts |
| TopologyFile.LoadJson | sim_hardware/src/topology.cpp:105-308 | the whole tree |
| TopologyFile.WriteJson | sim_hardware/src/topology.cpp:310-388 | the writer |
| TopologyFile.BarsAcceptedIff | sim_hardware/src/topology.cpp:240-302 | a BAR list is accepted exactly when each BAR is well formed and their footprints in slots 0 to 5 are pairwise disjoint; the length bound never decides |
| TopologyFile.BarReadIff | sim_hardware/src/topology.cpp:252-302 | a BAR is read exactly when it has the fields in the table, a slot it fits in and a positive size; with the fields given or their defaults |
| TopologyFile.DeviceReadIff | sim_hardware/src/topology.cpp:208-251 | a device is read exactly when it has the fields in the table, its texts parse, its kind is not empty and its BARs are accepted |
| TopologyFile.DevicesReadIff | sim_hardware/src/topology.cpp:200-240 | a device list exactly when it has at most sixteen, each is read, and no two share an address text |
| TopologyFile.LoadsIff | sim_hardware/src/topology.cpp:105-308 | a tree is loaded exactly when it and its parts have the fields in the tables, its version is 1 modulo 2^32, its platform is not empty, the modes are known names and the devices are accepted |
| TopologyFile.LoadedFields | sim_hardware/src/topology.cpp:105-200 | and the topology is then the one the fields name, or their defaults |
| TopologyFile.AtMostSix | sim_hardware/src/topology.cpp:242 | more than six BARs never fit |
| TopologyFile.OrderIrrelevant | sim_hardware/src/topology.cpp:252-302 | acceptance does not depend on the order of the list |
| TopologyFile.DeviceKept | sim_hardware/src/topology.cpp:365-384 | a written device loads back, its address cut to 13 bits, exactly when its kind is not empty and its BARs fit |
| TopologyFile.RoundTripIff | sim_hardware/src/topology.cpp:310-388 | loading what is written for a topology gives it back exactly when it is valid |
| TopologyFile.LoadedRoundTripIff | sim_hardware/src/topology.cpp:105-388 | what was loaded can be written and loaded again exactly when its packed addresses are distinct and no kind was cut to nothing |

## Left out

- Numbers: node addresses in the buddy allocator are unbounded, so a region that wraps around 2^64 is not modelled; its `init` is modelled for sizes up to 2^63, past which the source's shift loop does not end. Handles, fence ids, counters and offsets plus sizes are taken not to pass 2^64.
- Reference counts below zero or objects freed when theirs reaches zero: counts are multisets, and dropping a reference requires that it is held.
- MemPool.MemPools.FreeAsync: does not model the fence it returns, which is allocated and signalled at once; FenceIds models that table. Pool attributes, export and import of pools are left out.
- MemPool: mmap succeeds or fails as a parameter; the device state before first use is a placeholder, since nothing reads it.
- PluginOrder.PopLeast: does not fix which of several elements of least priority is taken, because the standard heap does not promise it.
- PluginLoader: dlopen, dlsym and init are parameters; scanning the directory, unloading and decrease_ref are left out.
- WorkQueue: modelled as steps on values, not as a class, because its promises are about interleavings; tasks are opaque, run in one step and do not call the queue; calling start() and stop() concurrently, which the header forbids, is left out; the compare-and-swap in start() and the thread creation are separate steps.
- ChannelManager: channels of the GREEN context type, whose preemption clears batch_in_flight, MQD pointers and the queue pointer.
- Puller: the paths through a channel manager and ring queues, preemption, indirect buffer jumps, child launches, predication, timeline semaphores, interrupts, timestamps and the scheduler; submitting while a batch is in work; method decoding, which does not affect the states; whether a copy succeeds is a parameter; semaphore memory is a parameter read at decoding.
- FenceIds: the bridge to the semaphore manager and the reset for tests.
- Semaphores: callbacks that call the manager, null callbacks, and the destructor.
- PageMigration: MMU notifiers, the return of migration counts, binding a tracker to several domains, and offsets plus sizes of 2^64 and more.
- KfdQueue: SVM ranges, since the default configuration is built without them; the object functions themselves are not part of the repository and follow the kernel: looking up an address gives the mapping that covers it, and an object has one bo_va per VM; a mapping without an object. AcquireBuffers is split at its stages into four methods.
- KfdProcess: mutexes, queues, SVM lists and the memory tracker inside a process; memory running out is a parameter; gpuid lookup.
- Graph: the byte layout of an entry; the heap is counted in entries of 109 bytes, and entry fields that are always zero or one are left out. kernel_addrs, which nothing reads, and stream capture.
- TopologyFile: JSON text, which becomes trees, so duplicate keys and text that is not UTF-8 are outside; file errors; integers are those a JSON text holds without becoming floating point; all errors are one, as in the source.
- TopologyText: locales other than C in strtoul.
- HAL tables, ioctl dispatch, sockets, PCI configuration, the CppTLM bridge, KFD events and SVM, stream capture and the superseded allocator in archive/: forwarding code, small facts or foreign code.
