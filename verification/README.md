# Scheduling core of the NPU compiler

The compiler turns a network into tasks and asynchronous operations, and the passes modelled here
decide in which order and in which memory these run.  Almost all of them rewrite a dependency
structure and must not change what it orders.  The project states what each pass keeps and proves it
for every input, with tasks, barriers, operations and buffers as indices.

- **Barrier graph** (`BarrierGraph` to `TaskControlMap`).  `BarrierInfo` keeps four maps between
  tasks and barriers; that they are each other's inverses is the invariant of the class, and every
  mutator is specified by its effect on one value, the graph.  Happens-before is the transitive
  closure of "t produces b, c consumes b".  Removing redundant links leaves it exactly unchanged;
  splitting barriers leaves even the direct relation unchanged; giving each task a single wait barrier
  loses no ordering; and the split into blocks keeps every ordering by barriers and queues together.
- **Asynchronous dependencies** (`DependencyReduction`, `AsyncDeps`).  `optimizeDepsMap` yields the
  unique transitive reduction in full mode, and exactly the dependencies it should in the cheaper mode.
- **Memory scheduler** (`ScheduleProgram` to `FeasibleMemoryScheduler`).  The list scheduler is a class
  whose methods keep one invariant over the whole state, `SchedulerState.Good`.  The answers of the
  allocator and of the heuristics are arbitrary sequences, so that the results hold for every allocator
  and every heuristic: the loop ends, nothing the code calls impossible happens, what is ready is
  scheduled unless it is refused, and as early as it can begin, and the schedule respects dependencies,
  executors, spills and buffers.  `SequentialRun`, `LostReads` and
  `GoneCandidates` build, by steps that keep the invariant, states in which the code does not do what it
  should, and show exactly for which programs there are such states.
- **Meaning of a schedule** (`ScheduleTrace`, `ScheduleReplay`, `ScheduleMeaning`, `FeasibleAllocation`).
  A schedule is replayed entry by entry on symbolic contents.  However often buffers are spilled and
  read back, every operation of a sorted schedule finds in its inputs what it would find if the program
  ran in order, before and after the spills have been cleaned up.
- **Spill clean-up** (`SpillReplay`, `DataOpSpills`, `SpillWaste`, `SpillOptimization`).  The two clean-ups leave a
  schedule that still runs and in which every operation finds what it found before, left there by an
  operation that runs exactly once, earlier.
- **Function outlining** (`OutliningIr` to `NaiveSplitter`).  The slices, run one after the other on
  their declared inputs alone, give every value its meaning in the original function.
- **Smaller cores**: profiling buffers planned in one walk and used up in a second one
  (`ProfilingBuffers`), the topological sort of inference graphs (`ProtopipeGraph`), and the pipeline
  cutter with its parser and printer (`PipelineNames` to `PipelineCutter`).

Where a property of the code has a condition, the exact condition is proved:

- `splitControlGraphToBlocks` throws half way exactly when some barrier has no producer or no consumer.
- The blocks after the split are accepted by `verifyControlGraphSplit` only on a rebuilt object; on the
  same object the list of sync tasks is still empty and the check accepts anything.
- With queue order, `buildTaskControlMap` knows exactly the tasks that barriers lead to and then one
  more step by a barrier or a queue.  When each task is on one queue, it knows all orderings exactly if
  it knows every step along a queue that is followed by one over a barrier.
- `optimizeBarriers` throws on a split that has been accepted exactly when the very last task is a sync
  task that waits for another one.
- The heap that is sorted by begin cycle loses a spill read exactly when it holds a read of another
  buffer of the same operation that begins in the same cycle.  For a given program this never happens,
  in any state that keeps the invariant, exactly if `ReadsApart` holds: of two outputs of one operation
  the one that is read first takes time, and one of them is wide unless the queue has one instance.
- Prefetching fails with "Failed to find spill candidate" only when ready data operations use all that is
  spilled for some operation.  For a given program this never happens, in any state that keeps the
  invariant, exactly if no operation writes a buffer of a data operation on which it does not depend; when
  conflicting operations depend on each other, exactly if no earlier operation writes a buffer that a data
  operation uses.
- The scheduling loop fails only if the allocator has refused something, and nothing to spill is found
  only if it has refused something in that very round, so that an allocator that refuses nothing always
  gets a schedule.
- After both clean-ups of spills a load is spilled before anyone has used it exactly if, after the first
  one, some load was used by nothing but a later spill write of a buffer for one operation.
- Giving several tasks a single wait barrier throws exactly when the first of them needs more than the
  slots left for consumers, or there is no barrier to wait for.
- The cutter gives back a text exactly if no pass manager is empty, pass managers are named as such,
  no pass with options is, no option is given twice, and the text does not end with a bare pass.
- The cutter fails between reading and printing exactly when, with nothing in front of it to keep, it gets
  to an option that is named as a pass manager, of a pass that is named as one.
- The profiler of activation kernels throws exactly when no kernel has a sample to take.
- Values that the outlined slices hand on are exactly the arguments and what is computed on an
  activation path by anything but the preprocessing of an argument; a function that returns anything
  else cannot be outlined this way.

## Model

| member | source | states |
|---|---|---|
| `BarrierInfoModule.BarrierInfo.constructor` | src/vpux_compiler/src/core/barrier_info.cpp:2156-2170 | the four maps are taken over, and are each other's inverses |
| `BarrierInfoModule.BarrierInfo.AddConsumer` | src/vpux_compiler/src/core/barrier_info.cpp:416-421 | one more consumer in both directions; everything else as before |
| `BarrierInfoModule.BarrierInfo.AddProducer` | src/vpux_compiler/src/core/barrier_info.cpp:441-446 | one more producer in both directions |
| `BarrierInfoModule.BarrierInfo.AddConsumers` | src/vpux_compiler/src/core/barrier_info.cpp:430-440 | as many single additions, in any order |
| `BarrierInfoModule.BarrierInfo.AddProducers` | src/vpux_compiler/src/core/barrier_info.cpp:455-464 | likewise for producers |
| `BarrierInfoModule.BarrierInfo.RemoveConsumer` | src/vpux_compiler/src/core/barrier_info.cpp:579-583 | the link goes from both maps |
| `BarrierInfoModule.BarrierInfo.RemoveProducer` | src/vpux_compiler/src/core/barrier_info.cpp:567-571 | the link goes from both maps |
| `BarrierInfoModule.BarrierInfo.RemoveConsumers` | src/vpux_compiler/src/core/barrier_info.cpp:480-486 | only the given tasks stop consuming the barrier |
| `BarrierInfoModule.BarrierInfo.RemoveProducers` | src/vpux_compiler/src/core/barrier_info.cpp:465-471 | only the given tasks stop producing the barrier |
| `BarrierInfoModule.BarrierInfo.AddNewBarrier` | src/vpux_compiler/src/core/barrier_info.cpp:519-534 | a new barrier that nothing produces or consumes |
| `BarrierInfoModule.BarrierInfo.SetWaitBarriers` | src/vpux_compiler/src/core/barrier_info.cpp:535-550 | a task waits for exactly these barriers, and other tasks for what they did |
| `BarrierInfoModule.BarrierInfo.SetUpdateBarriers` | src/vpux_compiler/src/core/barrier_info.cpp:551-566 | a task updates exactly these barriers, and other tasks what they did |
| `BarrierInfoModule.BarrierInfo.ResetBarrier` | src/vpux_compiler/src/core/barrier_info.cpp:601-613 | no task produces or consumes the barrier any more; no other link changes |
| `BarrierInfoModule.BarrierInfo.BarriersForTasks` | src/vpux_compiler/src/core/barrier_info.cpp:257-289 | exactly the barriers of the tasks of the range, in ascending order |
| `BarrierPruning.PruneProducersSameOrder` | src/vpux_compiler/src/core/barrier_info.cpp:1369-1428 | dropping update links that a later task makes superfluous leaves happens-before exactly as it was |
| `BarrierPruning.PruneConsumersSameOrder` | src/vpux_compiler/src/core/barrier_info.cpp:1430-1489 | dropping wait links that an earlier task makes superfluous leaves happens-before exactly as it was |
| `ProducerOptimization.OptimizeBarrierProducers` | src/vpux_compiler/src/core/barrier_info.cpp:1369-1428 | throws, changing nothing, exactly when a dependency leaves the block; otherwise a task keeps exactly the update links that no task it leads to in the block has too |
| `ProducerOptimization.ClearedMeansUpdatedLater` | src/vpux_compiler/src/core/barrier_info.cpp:1405-1424 | the bits cleared in the second phase are those of barriers that a reachable task updates |
| `ConsumerOptimization.OptimizeBarrierConsumers` | src/vpux_compiler/src/core/barrier_info.cpp:1430-1489 | the mirror image for wait links and the tasks that lead to a task |
| `ConsumerOptimization.ClearedMeansAwaitedEarlier` | src/vpux_compiler/src/core/barrier_info.cpp:1466-1485 | the bits cleared are those of barriers that an earlier task on the way waits for |
| `BarrierOptimization.OptimizeBarriersWithSameProducers` | src/vpux_compiler/src/core/barrier_info.cpp:1491-1560 | direct dependencies stay as they are; with the slot check a barrier gains consumers only if it fits the slots afterwards, and of the barriers that the tasks of the block update two with the same producers are left only if together they exceed the slots |
| `BarrierOptimization.MergeKeepsDeps` | src/vpux_compiler/src/core/barrier_info.cpp:1535-1553 | merging two barriers with the same producers changes no direct dependency |
| `BarrierOptimization.OptimizeBarriers` | src/vpux_compiler/src/core/barrier_info.cpp:1330-1367 | happens-before is exactly unchanged whatever the outcome, and with the slot check no barrier gains consumers beyond the slots; in every block mergeable barriers have been merged before links were dropped; on an accepted split it throws exactly when the very last task is a sync task that waits for another one, and otherwise no producer of a barrier precedes another one, nor a consumer another one, and no barrier keeps producers without consumers or the reverse |
| `BarrierOptimization.VerifiedBlocksAreClosed` | src/vpux_compiler/src/core/barrier_info.cpp:1096-1139 | in an accepted split no dependency leaves its block and its sync tasks, except into the empty block behind a sync task at the very end |
| `BarrierOptimization.IndependentBlocksSuffice` | src/vpux_compiler/src/core/barrier_info.cpp:1369-1489 | independence inside every block means independence in the whole graph |
| `BarrierOptimization.LastSyncThrows` | src/vpux_compiler/src/core/barrier_info.cpp:1308-1367 | four tasks of which the second and the last are sync tasks: the split is accepted and the third pass throws |
| `VariantBatches.CreateLegalVariantBatches` | src/vpux_compiler/src/core/barrier_info.cpp:2068-2097 | the batches partition the tasks, consecutive by index and cut greedily, and each fits when each task does |
| `VariantBatches.GreedyUsesFewestBatches` | src/vpux_compiler/src/core/barrier_info.cpp:2068-2097 | no way of cutting the tasks into consecutive batches that fit needs fewer of them |
| `VariantSplit.SplitProducers` | src/vpux_compiler/src/core/barrier_info.cpp:1161-1208 | the barrier is replaced by one barrier per greedy batch of producers, each with all consumers; direct dependencies stay |
| `VariantSplit.SplitConsumers` | src/vpux_compiler/src/core/barrier_info.cpp:1210-1246 | the barrier is replaced by one barrier per greedy batch of consumers, each with all producers; direct dependencies stay |
| `VariantSplit.ProducerBatchesKeepDeps` | src/vpux_compiler/src/core/barrier_info.cpp:1161-1208 | cutting the producers of a barrier into any partition keeps the direct relation |
| `VariantSplit.SplitBarriersWithExceedingVariantCount` | src/vpux_compiler/src/core/barrier_info.cpp:1141-1159 | the direct producer-consumer relation is exactly kept; exactly the barriers within both slot limits or the allowed sum are left alone, the others reset and replaced by parts of them; and every barrier ends within the limits |
| `ProducerBatches.CreateProducerBatches` | src/vpux_compiler/src/core/barrier_info.cpp:1689-1742 | no batches exactly when the producers of the barriers overlap in order; otherwise they partition the producers, consecutive by index and within the slots, and one is closed only when the producers of another barrier do not fit into it, those of one barrier being kept together if they fit |
| `BarrierChain.ChainOrders` | src/vpux_compiler/src/core/barrier_info.cpp:1744-1783 | in a chain of batches every producer precedes every consumer |
| `BarrierChain.ChainInProgramOrder` | src/vpux_compiler/src/core/barrier_info.cpp:1744-1783 | the chain adds no dependency against program order |
| `SingleWaitBarrier.LinearizeLegalParallelProducers` | src/vpux_compiler/src/core/barrier_info.cpp:1744-1783 | the producers are cut into consecutive batches within the slots, along their barriers if these are in order and else greedily, chained by new barriers, the last of which the consumers wait for |
| `SingleWaitBarrier.MergeLegalParallelProducers` | src/vpux_compiler/src/core/barrier_info.cpp:1785-1803 | one new barrier links all producers to all consumers |
| `SingleWaitBarrier.UnlinkTasksFromBarriers` | src/vpux_compiler/src/core/barrier_info.cpp:1582-1687 | the tasks stop waiting for the barriers, exactly those that nothing else waited for are reset, and nothing else changes |
| `SingleWaitBarrier.MergeParallelWaitBarriers` | src/vpux_compiler/src/core/barrier_info.cpp:1582-1687 | of the tasks that wait for the same barriers as many as fit, from the first one on, wait for one new barrier instead, behind a chain of batches of the producers: exactly one batch if the producers fit beside the share of the consumers, and within the slots otherwise; no ordering is lost, and barriers within the limits leave only such; it throws, changing nothing, exactly when the task waits for nothing or the first of those tasks needs more than the slots left for consumers |
| `SingleWaitBarrier.ChainKeepsOrder` | src/vpux_compiler/src/core/barrier_info.cpp:1582-1687 | whatever the barriers ordered is ordered by the chain that replaces them |
| `SingleWaitBarrier.TasksFell` | src/vpux_compiler/src/core/barrier_info.cpp:1805-1846 | after a walk every task with several wait barriers lies before the highest one of the walk before |
| `SingleWaitBarrier.EnsureTasksDrivenBySingleBarrier` | src/vpux_compiler/src/core/barrier_info.cpp:1805-1846 | ends, never finds the same tasks again, keeps every ordering and program order, and leaves only barriers within the slot limits if all were; run iteratively, leaves at most one wait barrier per task; run once, every task that is left lies before one that had several; says exactly whether anything has changed |
| `SplitSyncBarriers.AddSyncBarriers` | src/vpux_compiler/src/core/barrier_info.cpp:661-695 | step 1: every sync task gets a wait and an update barrier of its own |
| `SplitIdleTasks.LinkIdleTasks` | src/vpux_compiler/src/core/barrier_info.cpp:697-780 | step 2: tasks without barriers are tied to the sync tasks before and behind them, or followed by such a task on their queue |
| `SplitWalk.RerouteBarrier` | src/vpux_compiler/src/core/barrier_info.cpp:781-1020 | step 3 for one barrier: fails exactly when it has no producer or no consumer; what stays in its block is left alone, what crosses a boundary is led through the sync tasks |
| `SplitWalk.RerouteBarriers` | src/vpux_compiler/src/core/barrier_info.cpp:781-1020 | step 3: fails exactly when some barrier has no producer or no consumer; otherwise every original dependency is kept or led through sync tasks, and no barrier reaches behind the next sync task; the early exit never happens |
| `SplitSyncBarriers.ChainSyncTasks` | src/vpux_compiler/src/core/barrier_info.cpp:1022-1037 | step 4: every sync task precedes the next one |
| `SplitCleanup.CleanBarriers` | src/vpux_compiler/src/core/barrier_info.cpp:1039-1071 | step 5: exactly the original barriers without consumers are detached, each producer being tied to the sync task behind it, so that none keeps producers or consumers alone; its check never fails |
| `SplitCleanup.TrimSyncBarriers` | src/vpux_compiler/src/core/barrier_info.cpp:1073-1084 | step 6, with the test on the wait barrier made twice as in the code: exactly the wait barriers that nothing leads to are given up, and links that order anything survive |
| `SplitOrder.SplitKeepsOrder` | src/vpux_compiler/src/core/barrier_info.cpp:635-1094 | if a task preceded another by barriers and queue order before the split, it does so afterwards, across any number of blocks |
| `SplitOrder.DependencyKept` | src/vpux_compiler/src/core/barrier_info.cpp:635-1094 | a direct dependency between distant blocks is respected through the chain of sync tasks |
| `SplitOrder.ReachesSync` | src/vpux_compiler/src/core/barrier_info.cpp:697-780 | every task precedes the sync task that closes its block, by barriers and queue order |
| `SplitOrder.SyncReaches` | src/vpux_compiler/src/core/barrier_info.cpp:697-780 | every task follows the sync task that opens its block, but for a very last task that waits for nothing |
| `SplitCleanup.LinksAllowed` | src/vpux_compiler/src/core/barrier_info.cpp:635-1094 | every dependency stays in its block, or leads from a sync task into the next block |
| `ControlGraphSplit.SplitControlGraphToBlocks` | src/vpux_compiler/src/core/barrier_info.cpp:635-1094 | throws for small blocks and repeated splits; otherwise fails exactly when a barrier lacks producers or consumers, and else orders at least what was ordered, respects the blocks, marks exactly the sync tasks and leaves no original barrier with producers or consumers alone and no sync task waiting for nothing |
| `SplitVerification.VerifyControlGraphSplit` | src/vpux_compiler/src/core/barrier_info.cpp:1096-1139 | accepts exactly the graphs whose dependencies respect the blocks; throws exactly when the distances between sync tasks differ |
| `SplitVerification.Rebuild` | src/vpux_compiler/src/core/barrier_info.cpp:356-414 | the rebuilt object has the same graph, finds exactly the marked tasks and takes the block size from the first; fails exactly when their distances differ |
| `SplitVerification.SplitRebuildVerify` | src/vpux_compiler/src/core/barrier_info.cpp:635-1139 | for every block size from 2 to below the number of tasks: a split that does not fail is found again, accepted, and fit for the passes over blocks |
| `TaskControlMap.BuildTaskControlMap` | src/vpux_compiler/src/core/barrier_info.cpp:1895-1964 | throws exactly when the block does not exist or a dependency leaves it; otherwise the map holds exactly the tasks that barriers lead to, and then one more barrier or queue step |
| `TaskControlMap.ControlsWithoutQueues` | src/vpux_compiler/src/core/barrier_info.cpp:1937-1962 | without queues the map is happens-before itself |
| `TaskControlMap.ControlsIsSound` | src/vpux_compiler/src/core/barrier_info.cpp:1914-1962 | with queues whatever the map says is an ordering by barriers and queues |
| `TaskControlMap.QueueThenBarrierIsMissed` | src/vpux_compiler/src/core/barrier_info.cpp:1914-1962 | a graph of three tasks in which an ordering by a queue and then a barrier is missed |
| `TaskControlMap.CompleteExactlyWhenStepsKnown` | src/vpux_compiler/src/core/barrier_info.cpp:1914-1962 | when each task is on one queue, the map knows exactly what barriers and queues order if and only if it knows every queue step followed by a barrier step |
| `AsyncDeps.AsyncDepsInfo.AddDependency` | src/vpux_compiler/src/core/async_deps_info.cpp:126-136 | one more dependency, in the consumer map too once that is built |
| `AsyncDeps.AsyncDepsInfo.BuildConsMap` | src/vpux_compiler/src/core/async_deps_info.cpp:207-215 | the consumer map becomes the inverse of the dependency map |
| `AsyncDeps.AsyncDepsInfo.OptimizeDepsMap` | src/vpux_compiler/src/core/async_deps_info.cpp:140-201 | reachability is exactly unchanged in both modes; in full mode the result is the least map with it, in simplified mode exactly the dependencies implied by one or two others go |
| `AsyncDeps.AsyncDepsInfo.CalculateOpInDegreeTable` | src/vpux_compiler/src/core/async_deps_info.cpp:279-285 | the number of dependencies of each operation |
| `AsyncDeps.AsyncDepsInfo.CalculateOpOutDegreeTable` | src/vpux_compiler/src/core/async_deps_info.cpp:287-294 | the number of consumers of each operation; throws exactly without a consumer map |
| `AsyncDeps.DegreesBalance` | src/vpux_compiler/src/core/async_deps_info.cpp:279-294 | as many dependencies arrive as leave |
| `AsyncDeps.ClosureIsSound` | src/vpux_compiler/src/core/async_deps_info.cpp:146-177 | what step 1 collects are orderings of the original map, all of them in full mode |
| `DependencyReduction.ReductionKeepsOrder` | src/vpux_compiler/src/core/async_deps_info.cpp:140-205 | dropping implied dependencies keeps reachability, whichever part of the closure is known |
| `DependencyReduction.ReductionIsLeast` | src/vpux_compiler/src/core/async_deps_info.cpp:140-205 | with the whole closure, every dependency that is left is in every map with the same reachability |
| `DependencyReduction.LeastIsUnique` | src/vpux_compiler/src/core/async_deps_info.cpp:140-205 | there is only one such map |
| `DependencyReduction.NoRemovableEdge` | src/vpux_compiler/src/core/async_deps_info.cpp:140-205 | none of its dependencies is implied by the others |
| `SpillMaps.MemLiveRangeInfo.constructor` | src/vpux_compiler/src/core/mem_live_range_info.cpp:35-122 | the maps from buffers to users and from users to buffers are each other's inverses |
| `SpillMaps.MemLiveRangeInfo.EraseUser` | src/vpux_compiler/src/core/mem_live_range_info.cpp:216-231 | removes exactly one pair and says how many users are left; throws, changing nothing, exactly when the pair is gone |
| `FeasibleMemorySchedulerModule.FeasibleMemoryScheduler.ReduceInDegreeOfAdjacentOperations` | src/vpux_compiler/src/core/feasible_memory_scheduler.cpp:541-554 | the operation counts as released, every in-degree is again the number of dependencies not released, and exactly the operations that reached zero are returned |
| `FeasibleMemorySchedulerModule.FeasibleMemoryScheduler.DistributeReadyOps` | src/vpux_compiler/src/core/feasible_memory_scheduler.cpp:468-496 | every operation whose in-degree came to zero is on exactly one list, data operations having released their consumers at once |
| `FeasibleMemorySchedulerModule.FeasibleMemoryScheduler.InitializeReadyLists` | src/vpux_compiler/src/core/feasible_memory_scheduler.cpp:556-567 | operations without dependencies are listed, and in-degrees are right |
| `FeasibleMemorySchedulerModule.FeasibleMemoryScheduler.FindMinScheduledQueueCycle` | src/vpux_compiler/src/core/feasible_memory_scheduler.cpp:123-133 | the first cycle at which an executor instance of an element in flight is free; at least one of them has ended by then |
| `FeasibleMemorySchedulerModule.FeasibleMemoryScheduler.AlignExecutors` | src/vpux_compiler/src/core/feasible_memory_scheduler.cpp:351-374 | every clock is at least the given cycle, none goes back |
| `FeasibleMemorySchedulerModule.FeasibleMemoryScheduler.FreeMemoryResources` | src/vpux_compiler/src/core/feasible_memory_scheduler.cpp:439-455 | the operation gives up exactly its buffers, and exactly those that nobody uses any more leave memory; no pair of buffer and user is erased twice, so that nothing throws |
| `FeasibleMemorySchedulerModule.FeasibleMemoryScheduler.UnlockNewReadyOps` | src/vpux_compiler/src/core/feasible_memory_scheduler.cpp:498-509 | only an operation that has really ended releases its consumers |
| `FeasibleMemorySchedulerModule.FeasibleMemoryScheduler.UnscheduleAllCompletingOps` | src/vpux_compiler/src/core/feasible_memory_scheduler.cpp:511-539 | exactly the elements that end by the time the first executor in use is free leave the heap, at least one if there is any; exactly the buffers that lost their last user leave memory; in-degrees and lists stay consistent |
| `FeasibleMemorySchedulerModule.FeasibleMemoryScheduler.GetExecutorInstanceMask` | src/vpux_compiler/src/core/feasible_memory_scheduler.cpp:255-286 | data movements get all instances, or the first of those that come free first; anything else the first instance |
| `FeasibleMemorySchedulerModule.FeasibleMemoryScheduler.GetCurrentCycleAndExecutorInstanceMask` | src/vpux_compiler/src/core/feasible_memory_scheduler.cpp:304-320 | the earliest cycle at which the dependencies have ended, the buffers are written and the instances are free |
| `FeasibleMemorySchedulerModule.FeasibleMemoryScheduler.GetCurrentCycleAndExecutorInstanceMaskForSpill` | src/vpux_compiler/src/core/feasible_memory_scheduler.cpp:322-342 | the earliest cycle at which the instances are free for a spill on its own queue: all of them for a wide buffer, the one that comes free first for another |
| `FeasibleMemorySchedulerModule.FeasibleMemoryScheduler.GetEarliestComputeBeginCycle` | src/vpux_compiler/src/core/feasible_memory_scheduler.cpp:1033-1046 | the first cycle at which the dependencies of the operation have ended, its instances are free and its buffers have been written |
| `FeasibleMemorySchedulerModule.FeasibleMemoryScheduler.UpdateCurrentCycleForExecutor` | src/vpux_compiler/src/core/feasible_memory_scheduler.cpp:344-349 | the clocks of the used instances, and no others, move to the end of the element |
| `FeasibleMemorySchedulerModule.FeasibleMemoryScheduler.UpdateBufferCycleUseAndProducer` | src/vpux_compiler/src/core/feasible_memory_scheduler.cpp:91-104 | last use and writer of exactly the given buffers are recorded |
| `FeasibleMemorySchedulerModule.FeasibleMemoryScheduler.PushToCycleBeginHeap` | src/vpux_compiler/src/core/feasible_memory_scheduler.cpp:106-121 | the element joins the time line with its clocks and tables; the heap drops it only next to one that begins with it for the same operation |
| `FeasibleMemorySchedulerModule.FeasibleMemoryScheduler.ScheduleSpilledOpBuffer` | src/vpux_compiler/src/core/feasible_memory_scheduler.cpp:613-637 | the spilled buffer is read back on the queue for reads, as soon as its instances are free and for as long as it costs, and is no longer spilled; the invariant is kept |
| `FeasibleMemorySchedulerModule.FeasibleMemoryScheduler.ScheduleDependencies` | src/vpux_compiler/src/core/feasible_memory_scheduler.cpp:674-709 | all data operations waited for are scheduled, those first that could begin first, and all buffers are in memory, none being found missing; the cycle is the first at which the operation can begin then |
| `FeasibleMemorySchedulerModule.FeasibleMemoryScheduler.GetBuffersToAllocateForOp` | src/vpux_compiler/src/core/feasible_memory_scheduler.cpp:654-672 | exactly the buffers the operation and its data operations lack; no dependency is found missing |
| `FeasibleMemorySchedulerModule.FeasibleMemoryScheduler.ScheduleOp` | src/vpux_compiler/src/core/feasible_memory_scheduler.cpp:711-725 | the operation is put on the time line at the first cycle at which it can begin and for as long as it costs, with everything it waits for in front of it; exactly it and the data operations it waited for are newly scheduled; the invariant is kept |
| `FeasibleMemorySchedulerModule.FeasibleMemoryScheduler.PrefetchOps` | src/vpux_compiler/src/core/feasible_memory_scheduler.cpp:743-875 | only ready data operations and spilled buffers are brought in, the former marked as prefetched, and all of them unless the allocator or a heuristic is against one, with nothing brought in after the first refusal; the buffers to allocate are exactly those that come into memory; fails only with a spill candidate gone, and only when ready data operations use all that is spilled for some operation |
| `FeasibleMemorySchedulerModule.FeasibleMemoryScheduler.ChooseComputeOps` | src/vpux_compiler/src/core/feasible_memory_scheduler.cpp:894-985 | per queue at most its next operation: the allocator is asked for exactly those that are ready with nothing in flight on their queue, and exactly those it has room for are chosen; exactly the buffers they lack are to be allocated |
| `FeasibleMemorySchedulerModule.FeasibleMemoryScheduler.ScheduleComputeOps` | src/vpux_compiler/src/core/feasible_memory_scheduler.cpp:894-985 | the invariant of the whole state is kept, for every answer of the allocator; something is scheduled or nothing changes; unless the allocator refuses something, every data movement that was ready and the next operation of every idle queue that was ready have been scheduled, and unless a heuristic is against it nothing is left to prefetch |
| `FeasibleMemorySchedulerModule.FeasibleMemoryScheduler.ChooseCandidateForEviction` | src/vpux_compiler/src/core/feasible_memory_scheduler.cpp:1103-1150 | a buffer in memory with the operation that wrote it last, from a new search or, directly after a spill write, from the one made for that |
| `FeasibleMemorySchedulerModule.FeasibleMemoryScheduler.EvictActiveOp` | src/vpux_compiler/src/core/feasible_memory_scheduler.cpp:1048-1061 | the buffer is out of memory and recorded as spilled for its writer |
| `FeasibleMemorySchedulerModule.FeasibleMemoryScheduler.ForceScheduleActiveOpEviction` | src/vpux_compiler/src/core/feasible_memory_scheduler.cpp:1152-1274 | with nothing in flight exactly one buffer leaves memory, written out for the operation that wrote it last, once it has been used and as soon as the instances are free; fails exactly when memory holds nothing |
| `FeasibleMemorySchedulerModule.FeasibleMemoryScheduler.MoveFromCycleBeginToCycleEndHeap` | src/vpux_compiler/src/core/feasible_memory_scheduler.cpp:135-150 | what has been scheduled joins the schedule, earliest first |
| `FeasibleMemorySchedulerModule.FeasibleMemoryScheduler.ScheduleRound` | src/vpux_compiler/src/core/feasible_memory_scheduler.cpp:1423-1456 | exactly the elements that have ended leave the heap; what is ready then is scheduled unless the allocator refuses something, and a buffer is evicted exactly when nothing is in flight and nothing has been scheduled; every round schedules an operation, evicts a buffer or takes elements off the heap; there is nothing to spill only when the allocator has refused something in this very round |
| `FeasibleMemorySchedulerModule.FeasibleMemoryScheduler.SchedulingLoop` | src/vpux_compiler/src/core/feasible_memory_scheduler.cpp:1423-1456 | ends for every allocator, with all operations without consumers scheduled and no clock going back; it fails only when the allocator has refused something: the allocation for good, a buffer while memory is empty, or one that was spilled before a spill candidate has gone, the last only when some operation writes a buffer of a data operation on which it does not depend |
| `FeasibleMemorySchedulerModule.FeasibleMemoryScheduler.Init` | src/vpux_compiler/src/core/feasible_memory_scheduler.cpp:1373-1421 | establishes the invariant; throws exactly when there is no operation |
| `FeasibleMemorySchedulerModule.FeasibleMemoryScheduler.OrderComputeOps` | src/vpux_compiler/src/core/feasible_memory_scheduler.cpp:1390-1412 | every queue lists exactly its compute operations that are no data operations, in ascending order |
| `FeasibleMemorySchedulerModule.FeasibleMemoryScheduler.GenerateSchedule` | src/vpux_compiler/src/core/feasible_memory_scheduler.cpp:1560-1589 | every operation is in the sorted schedule, once, after all its dependencies and their spills; executors, spills and buffers are respected; unless reads can begin together the schedule is a permutation of everything scheduled, can be cleaned up, and means what the program means; an allocator that refuses nothing always gets a schedule of a program that is not empty |
| `ReadyLists.ReduceDone` | src/vpux_compiler/src/core/feasible_memory_scheduler.cpp:541-554 | in every state each in-degree equals the number of dependencies not yet released |
| `ReadyLists.ReadyDeps` | src/vpux_compiler/src/core/feasible_memory_scheduler.cpp:654-709 | a listed operation has every dependency scheduled or on the list of ready data operations |
| `TimelineModule.PushInTurn` | src/vpux_compiler/src/core/feasible_memory_scheduler.cpp:304-374 | elements on the same executor instance occupy disjoint intervals, in scheduling order |
| `TimelineModule.PushDepsFirst` | src/vpux_compiler/src/core/feasible_memory_scheduler.cpp:711-725 | an operation is put on the time line after all its dependencies and begins when they have ended |
| `TimelineModule.PushEndsFirst` | src/vpux_compiler/src/core/feasible_memory_scheduler.cpp:711-725 | an operation begins no earlier than the recorded end of every dependency, which spills of its buffers raise; so nothing earlier of a dependency ends later |
| `TimelineModule.PushSpillsAfterUse` | src/vpux_compiler/src/core/feasible_memory_scheduler.cpp:1218-1273 | a spill write begins after every earlier use of the buffer |
| `TimelineModule.PushAfterSpillWrites` | src/vpux_compiler/src/core/feasible_memory_scheduler.cpp:1257-1273 | nothing begins before the end of an earlier spill write |
| `TimelineModule.AlignGrows` | src/vpux_compiler/src/core/feasible_memory_scheduler.cpp:351-374 | aligning only moves clocks forward |
| `SchedulerState.OpKeeps` | src/vpux_compiler/src/core/feasible_memory_scheduler.cpp:711-725 | scheduling an operation keeps the invariant of the whole state |
| `SchedulerState.SpillReadKeeps` | src/vpux_compiler/src/core/feasible_memory_scheduler.cpp:613-637 | so does reading a buffer back |
| `SchedulerState.SpillWriteKeeps` | src/vpux_compiler/src/core/feasible_memory_scheduler.cpp:1152-1274 | so does writing a buffer out when nothing is in flight |
| `SchedulerState.LandKeeps` | src/vpux_compiler/src/core/feasible_memory_scheduler.cpp:511-539 | so does taking an element off the heap sorted by end cycle |
| `SchedulerState.MoveKeeps` | src/vpux_compiler/src/core/feasible_memory_scheduler.cpp:135-150 | so does moving an element into the schedule |
| `LostReads.LostExactlyWhenRivalled` | src/vpux_compiler/src/core/feasible_memory_scheduler.cpp:106-121 | a spill read that is put on the time line is missing from heap and schedule exactly when the heap holds a read of another buffer of the same operation that begins at the same cycle |
| `LostReads.ReadsApartIsExact` | src/vpux_compiler/src/core/feasible_memory_scheduler.cpp:60-82 | for every program and number of instances: no state that keeps the invariant loses a read exactly if no two outputs of an operation can be read together |
| `LostReads.ReadsCollide` | src/vpux_compiler/src/core/feasible_memory_scheduler.cpp:613-637 | for every program with two such outputs, steps that keep the invariant, spill both and lose the second read |
| `LostReads.SecondReadIsLost` | src/vpux_compiler/src/core/feasible_memory_scheduler.cpp:613-637 | a program of two operations, a state and two reads: the second is on the time line, but neither in the heap nor in the schedule |
| `SchedulerSteps.GoneExactlyWhenCovered` | src/vpux_compiler/src/core/feasible_memory_scheduler.cpp:613-637 | when buffers are brought in, of the operations with spilled buffers exactly those go from the records of which all spilled buffers are among them |
| `SchedulerSteps.SomethingSchedulable` | src/vpux_compiler/src/core/feasible_memory_scheduler.cpp:894-985 | with nothing in flight and something left to do, some data movement is ready or the next operation of some queue is |
| `GoneCandidates.OvertakenIsGone` | src/vpux_compiler/src/core/feasible_memory_scheduler.cpp:795-860 | once ready data operations have been prefetched, an operation of which they use all spilled buffers is no candidate any more |
| `GoneCandidates.PrivateIsExact` | src/vpux_compiler/src/core/feasible_memory_scheduler.cpp:795-860 | for every legal program: in no state that keeps the invariant do ready data operations use all that is spilled for an operation, exactly if no operation writes a buffer of a data operation on which it does not depend |
| `GoneCandidates.IntruderOvertaken` | src/vpux_compiler/src/core/feasible_memory_scheduler.cpp:743-875 | for every program with such a writer and every such buffer, steps that keep the invariant to a state in which the data operation takes away another candidate |
| `GoneCandidates.IntruderOvertakenInFlight` | src/vpux_compiler/src/core/feasible_memory_scheduler.cpp:743-875 | likewise with something about to be scheduled, as it is when prefetching begins, given a second buffer written by an operation that does not depend on the data operation |
| `GoneCandidates.PrivateWhenOrdered` | src/vpux_compiler/src/core/feasible_memory_scheduler.cpp:795-860 | when conflicting operations depend on each other, the condition says that no earlier operation writes a buffer that a data operation uses |
| `GoneCandidates.PrefetchFails` | src/vpux_compiler/src/core/feasible_memory_scheduler.cpp:743-875 | a program of five operations whose conflicts are ordered, and a state with two candidates, of which scheduling the first always takes away the second |
| `SequentialRun.RunAll` | src/vpux_compiler/src/core/feasible_memory_scheduler.cpp:711-725 | of every legal program the operations of any set that holds all dependencies of its members, data operations among them, can be put on the time line one after the other by steps that keep the invariant |
| `SchedulerSteps.AllScheduled` | src/vpux_compiler/src/core/feasible_memory_scheduler.cpp:1423-1456 | when all operations without consumers have been scheduled, so have all others |
| `ScheduleOrder.SortSchedule` | src/vpux_compiler/src/core/feasible_memory_scheduler.cpp:1560-1589 | a sorted permutation by begin, end and operation |
| `ScheduleOrder.SortedIsComplete` | src/vpux_compiler/src/core/feasible_memory_scheduler.cpp:1560-1589 | a sorted permutation of a complete schedule is complete and in dependency order |
| `ScheduleTrace.PushFinds` | src/vpux_compiler/src/core/feasible_memory_scheduler.cpp:613-725 | after every push each operation has found none of its buffers spilled and its inputs in memory, and each spill has found its buffer where it should be |
| `ScheduleTrace.ReadsBeginApart` | src/vpux_compiler/src/core/feasible_memory_scheduler.cpp:322-342 | when reads cannot begin together, a later read for the same operation begins later |
| `ScheduleReplay.MutatorsInTime` | src/vpux_compiler/src/core/feasible_memory_scheduler.cpp:711-725 | whatever writes or spills a buffer ends before the next element that does so begins |
| `ScheduleReplay.MutatorFindsSame` | src/vpux_compiler/src/core/feasible_memory_scheduler.cpp:1560-1589 | after sorting, a write or spill finds its buffer where it found it when it was scheduled |
| `ScheduleReplay.InputStaysInMemory` | src/vpux_compiler/src/core/feasible_memory_scheduler.cpp:1560-1589 | after sorting, an operation still finds its inputs in memory |
| `ScheduleReplay.ScheduleRuns` | src/vpux_compiler/src/core/feasible_memory_scheduler.cpp:1560-1589 | the sorted schedule runs, reading back only what is not in memory, and meets all that the clean-ups of spills need |
| `ScheduleMeaning.WriterIsRight` | src/vpux_compiler/src/core/feasible_memory_scheduler.cpp:1560-1589 | an operation finds each input from the operation that writes it last in program order, however often it was spilled in between |
| `ScheduleMeaning.ScheduleMeansProgram` | src/vpux_compiler/src/core/feasible_memory_scheduler.cpp:1560-1589 | every operation of the sorted schedule finds in its inputs exactly the contents it would find in program order |
| `SpillReplay.DuplicatesNotNeeded` | src/vpux_compiler/src/core/feasible_memory_scheduler_spilling.cpp:589-633 | without the later spill writes of a buffer for one operation the schedule runs and every operation finds what it found before |
| `SpillReplay.RemoveRedundantSpillWrites` | src/vpux_compiler/src/core/feasible_memory_scheduler_spilling.cpp:589-633 | exactly those spill writes go, no operation notices, and none runs twice |
| `SpillReplay.RunHasSources` | src/vpux_compiler/src/core/feasible_memory_scheduler_spilling.cpp:407-633 | in a schedule that runs and has no operation twice, whatever an entry reads or moves has been left by an operation that runs exactly once, earlier |
| `DataOpSpills.WastedLoadsNotNeeded` | src/vpux_compiler/src/core/feasible_memory_scheduler_spilling.cpp:407-587 | without loads that are spilled before anyone has used them the schedule runs and every operation that reads finds the same |
| `SpillOptimization.RunAlternates` | src/vpux_compiler/src/core/feasible_memory_scheduler_spilling.cpp:407-480 | in a schedule that runs, loads and spill writes of a data operation alternate |
| `SpillOptimization.DataOpSpillTree` | src/vpux_compiler/src/core/feasible_memory_scheduler_spilling.cpp:416-462 | exactly the data operations with spills, each with all its entries in order, the original load first |
| `SpillOptimization.BufferUsed` | src/vpux_compiler/src/core/feasible_memory_scheduler_spilling.cpp:484-540 | says exactly whether an entry in between uses the buffer |
| `SpillOptimization.OptimizeOne` | src/vpux_compiler/src/core/feasible_memory_scheduler_spilling.cpp:464-570 | exactly the wasted loads of one data operation are marked with their spill writes, and the first load that is left becomes the original one |
| `SpillOptimization.EraseAll` | src/vpux_compiler/src/core/feasible_memory_scheduler_spilling.cpp:572-587 | exactly the marked entries are erased, and the others keep their order |
| `SpillOptimization.KeptOnce` | src/vpux_compiler/src/core/feasible_memory_scheduler_spilling.cpp:407-587 | no operation has two original entries afterwards |
| `SpillOptimization.OptimizeDataOpsSpills` | src/vpux_compiler/src/core/feasible_memory_scheduler_spilling.cpp:407-587 | what is left runs, can be cleaned up further, and holds no load of a data operation that is spilled before anyone has used it; every operation that reads finds what it found before, and whatever it finds has been left by an operation that runs exactly once, earlier |
| `SpillOptimization.KeptIsNotWasted` | src/vpux_compiler/src/core/feasible_memory_scheduler_spilling.cpp:464-587 | in what the first clean-up leaves no load of a data operation is spilled before anyone has used it |
| `SpillOptimization.CleanUpSpills` | src/vpux_compiler/src/core/feasible_memory_scheduler_spilling.cpp:407-633 | both clean-ups in a row: what is left are the entries that the first one keeps, but for later spill writes of a buffer for one operation, of which none is left; a load is still wasted only where such a spill write was all that used it; every operation finds what it found before, no operation runs twice, and each data operation that is still read has exactly one original load, ahead of its reads |
| `SpillWaste.WasteIsExact` | src/vpux_compiler/src/core/feasible_memory_scheduler_spilling.cpp:407-633 | the second clean-up brings back a wasted load exactly if some load was used by nothing but later spill writes of a buffer for one operation before it is spilled |
| `SpillWaste.WasteCanStay` | src/vpux_compiler/src/core/feasible_memory_scheduler_spilling.cpp:407-633 | a concrete schedule that runs, in which the second clean-up leaves a load that is spilled before anyone has used it |
| `SpillWaste.RestHasNoDuplicates` | src/vpux_compiler/src/core/feasible_memory_scheduler_spilling.cpp:589-633 | without later spill writes of a buffer for one operation there are no two of them |
| `FeasibleAllocation.ScheduleAndCleanUp` | src/vpux_compiler/src/dialect/VPUIP/transforms/passes/feasible_allocation.cpp:655-698 | for every allocator: every operation that reads anything runs exactly once and finds what an operation left that ran exactly once before it, and what it would find in program order when conflicting operations depend on each other; with the optimization switched on wasted loads and repeated spill writes are gone as far as both clean-ups in a row remove them; an allocator that refuses nothing always gets a schedule |
| `FeasibleAllocation.ReadersStay` | src/vpux_compiler/src/core/feasible_memory_scheduler_spilling.cpp:407-633 | the clean-ups remove no operation that reads anything |
| `OpDistances.GetOpDistances` | src/vpux_compiler/src/core/function_outlining_splitter_naive.cpp:150-199 | the work list empties on every function, and the distances are the lengths of the longest chains from users of arguments |
| `OpDistances.UsersWeighLess` | src/vpux_compiler/src/core/function_outlining_splitter_naive.cpp:150-199 | replacing an operation by its users lowers the number of chains still to follow |
| `OpDistances.DistanceIncreases` | src/vpux_compiler/src/core/function_outlining_splitter_naive.cpp:150-199 | a use leads to a greater distance |
| `OutliningSlices.Plan.SplitsAscend` | src/vpux_compiler/src/core/function_outlining_splitter_naive.cpp:201-213 | the slice of an operation never comes after that of its user |
| `NaiveSplitterModule.NaiveSplitter.FindSplitIdx` | src/vpux_compiler/src/core/function_outlining_splitter_naive.cpp:201-213 | the slice in which the distance lies, or none without a distance |
| `NaiveSplitterModule.NaiveSplitter.FindSplittingPoints` | src/vpux_compiler/src/core/function_outlining_splitter_naive.cpp:128-148 | points at equal distances, which are the greatest that fit as often as there are slices into the greatest distance of all; none exactly when one slice is asked for or the function is too short |
| `NaiveSplitterModule.NaiveSplitter.AddOperandToSplitIfInput` | src/vpux_compiler/src/core/function_outlining_splitter_naive.cpp:240-264 | operands from outside become inputs, others change nothing |
| `NaiveSplitterModule.NaiveSplitter.AddResultToSplitIfOutput` | src/vpux_compiler/src/core/function_outlining_splitter_naive.cpp:266-285 | a result becomes an output exactly when another slice or the end of the function needs it |
| `NaiveSplitterModule.NaiveSplitter.AddParentOpsToSplit` | src/vpux_compiler/src/core/function_outlining_splitter_naive.cpp:217-238 | whatever the operation needs and is in no slice is copied in front of it |
| `NaiveSplitterModule.NaiveSplitter.PlaceAll` | src/vpux_compiler/src/core/function_outlining_splitter_naive.cpp:85-123 | every operation on an activation path is in its slice, and whatever others need is put out |
| `NaiveSplitterModule.NaiveSplitter.GetOutliningInstances` | src/vpux_compiler/src/core/function_outlining_splitter_naive.cpp:85-123 | as many slices as asked for, each closed over its inputs and holding exactly the operations of its span of distances, all spans being equal but for the remainder in the last; no slices exactly when one is asked for or the function is too short |
| `NaiveSplitterModule.SlicesSpan` | src/vpux_compiler/src/core/function_outlining_splitter_naive.cpp:128-213 | every slice but the first and the last spans exactly one step of distances, and the last one at least a step and less than a step plus the number of slices |
| `OutliningSlices.RunSlicesFaithful` | src/vpux_compiler/src/core/function_outlining_splitter_naive.cpp:85-123 | after any number of slices exactly their outputs are known, each with its original value |
| `OutliningSlices.SlicesMeanTheSame` | src/vpux_compiler/src/core/function_outlining_splitter_naive.cpp:85-123 | run in order, the slices never lack a value and give every output the value it has in the function |
| `OutliningSlices.ReturnedValuesKnown` | src/vpux_compiler/src/core/function_outlining_splitter_naive.cpp:266-285 | a returned value is handed on exactly when it is an argument, or comes from an activation path and not from preprocessing |
| `ProtopipeGraph.Graph.Link` | tools/protopipe/src/graph.cpp:64-71 | one more edge, known to both its ends |
| `ProtopipeGraph.Graph.RemoveEdge` | tools/protopipe/src/graph.cpp:56-62 | the edge goes from the graph and from both its ends |
| `ProtopipeGraph.Graph.RemoveNode` | tools/protopipe/src/graph.cpp:44-54 | the node goes with exactly the edges that name it |
| `ProtopipeGraph.Graph.Dfs` | tools/protopipe/src/graph.cpp:105-115 | all successors are on the stack below a node, unless they lead back to it |
| `ProtopipeGraph.Graph.Sorted` | tools/protopipe/src/graph.cpp:117-133 | every node exactly once, whatever order nodes and edges are visited in; an edge is out of order only if it lies on a cycle, so that all are in order exactly for acyclic graphs |
| `ProtopipeGraph.InOrderMeansAcyclic` | tools/protopipe/src/graph.cpp:117-133 | only an acyclic graph can be put in order at all |
| `ProfilingBuffers.BaseClusterBufferScheduler.ScheduleNceTask` | src/vpux_compiler/src/core/dpu_profiling.cpp:88-109 | the plan grows by one task; refused exactly when that does not fit a buffer of its own |
| `ProfilingBuffers.BaseClusterBufferScheduler.AddProfilingOps` | src/vpux_compiler/src/core/dpu_profiling.cpp:111-215 | never throws; buffers are allocated exactly as planned and all used up, every slot is where the plan puts it, and the output grows by exactly the reserved memory |
| `ProfilingBuffers.BaseActShaveProfiler.ScheduleTask` | src/vpux_compiler/src/core/act_profiling.cpp:64-89 | likewise for activation kernels |
| `ProfilingBuffers.BaseActShaveProfiler.AddProfilingOps` | src/vpux_compiler/src/core/act_profiling.cpp:94-177 | throws exactly without samples; otherwise as planned, each kernel being told its buffer, the buffer's size and place in the output, and its own place in it |
| `ProfilingBuffers.PlanHolds` | src/vpux_compiler/src/core/dpu_profiling.cpp:88-109 | every planned buffer fits, and together they hold exactly the samples of all tasks |
| `ProfilingBuffers.PlanExtends` | src/vpux_compiler/src/core/dpu_profiling.cpp:88-109 | planning further tasks never changes a full buffer |
| `ProfilingBuffers.OverflowAlike` | src/vpux_compiler/src/core/dpu_profiling.cpp:172-183 | the test over all clusters overflows at exactly the tasks at which the plan opened a buffer |
| `ProfilingBuffers.SlotsFollow` | src/vpux_compiler/src/core/dpu_profiling.cpp:172-188 | every slot lies inside its buffer, directly behind the one before or at the start of the next buffer |
| `PipelineNames.UniquifyInjective` | tools/vpux-opt/mlir_passes_cutter.py:43-47 | numbered names are the same only for the same name and number |
| `PipelineNames.CanonizeKey` | tools/vpux-opt/mlir_passes_cutter.py:39-47 | the printer undoes the numbering |
| `PipelineNames.ObjectKey` | tools/vpux-opt/mlir_passes_cutter.py:43-50 | numbering does not change whether a name is that of a pass manager |
| `PipelineTree.WithNewKey` | tools/vpux-opt/mlir_passes_cutter.py:26-36 | a new key is appended at the end of its path and nowhere else |
| `PipelineCutter.Context.CreatePipelineNodeFromTreePath` | tools/vpux-opt/mlir_passes_cutter.py:227-239 | a node comes last in the dictionary at the path, under a key that no other one there has and that stands for the name, whatever the path has been used for before |
| `PipelineCutter.Context.Transition` | tools/vpux-opt/mlir_passes_cutter.py:55-132 | one step of the state table, with its errors: a symbol opens or closes exactly one object or none, extends the name at hand and nothing else, or ends it |
| `PipelineCutter.Context.Parse` | tools/vpux-opt/mlir_passes_cutter.py:249-286 | the run of the state machine over the whole text; what is accepted never closes more objects than it has opened |
| `PipelineParser.CreateAppends` | tools/vpux-opt/mlir_passes_cutter.py:227-239 | a created node is always new, and comes last in its parent |
| `PipelineRoundTrip.RunOptions` | tools/vpux-opt/mlir_passes_cutter.py:103-129 | options are kept in order, a repeated one taking the place of the first |
| `PipelineRoundTrip.RunItems` | tools/vpux-opt/mlir_passes_cutter.py:75-286 | every list of passes and pass managers is read into the tree that stands for it, whatever has been read before |
| `PipelinePrinter.PrintsItems` | tools/vpux-opt/mlir_passes_cutter.py:137-180 | the tree of a pipeline is printed as its text |
| `PipelineLoss.AllLose` | tools/vpux-opt/mlir_passes_cutter.py:137-180 | for anything that is no pipeline the printed text is shorter, or there is none |
| `PipelineCutter.RoundTrip` | tools/vpux-opt/mlir_passes_cutter.py:75-286 | printing what has been read gives back the text exactly under the condition above |
| `PipelineCutter.BarePassIsLost` | tools/vpux-opt/mlir_passes_cutter.py:75-286 | a concrete text whose last pass is lost |
| `PipelineCut.ProcessPipeline` | tools/vpux-opt/mlir_passes_cutter.py:183-213 | for every tree: it fails exactly when the search gets to a text under the name of a pass manager; otherwise what is left is a tail of the tree that starts with a pass, with the pass managers around it and with exactly the passes to keep, and the counter is where the search ended |
| `PipelineCut.CutIsUnique` | tools/vpux-opt/mlir_passes_cutter.py:183-213 | a tree has only one such tail |
| `PipelineCut.KeptAreLast` | tools/vpux-opt/mlir_passes_cutter.py:183-213 | passes that are kept are the end of the original ones: from the first match on, without as many as the offset says |
| `PipelineParser.RunTidy` | tools/vpux-opt/mlir_passes_cutter.py:249-286 | no text is read into a dictionary that holds a key twice |
| `PipelineParser.RefusedExactly` | tools/vpux-opt/mlir_passes_cutter.py:249-286 | after any text that has been read, exactly the symbols are refused that may not follow it: in braces a comma or parenthesis, outside a closing brace, an equals sign or a blank, and at the very start anything but a name or an opening parenthesis |
| `PipelineCutter.EventsAlike` | tools/vpux-opt/mlir_passes_cutter.py:183-213 | the tree that stands for a pipeline has its passes, in order and inside the same pass managers |
| `PipelineCutter.CutStands` | tools/vpux-opt/mlir_passes_cutter.py:183-213 | the cut tree of a pipeline stands for a tail of the pipeline: a pipeline again, without empty pass managers, with exactly the passes to keep, and printed as its text |
| `PipelineCutter.CutKeepsLast` | tools/vpux-opt/mlir_passes_cutter.py:183-213 | the passes that come out are a suffix of the original ones, inside the same pass managers, and exactly which |
| `PipelineCutter.OptionAsManager` | tools/vpux-opt/mlir_passes_cutter.py:183-213 | a concrete text that is read, but cannot be cut or printed |
| `PipelineCutter.CutPipeline` | tools/vpux-opt/mlir_passes_cutter.py:183-289 | from text to text, for every text: it is refused, fails to be cut or is printed exactly as the tree that is read from it; what is printed for a pipeline is the text of the cut pipeline, after a bare pass at the very end has been lost |

## Left out

- Cost models, logging, attributes and all rewriting of the intermediate representation: operations are indices, and the cycle cost of each is an arbitrary number.
- Linear scan, partitioner and allocation of addresses: the answers of the allocator are an arbitrary sequence, so that nothing is claimed about addresses or about when memory is full.
- Control edges, insertion of spill transfers and removal of relocation spills (`removeComputeOpRelocationSpills`): these follow aliases through the representation.
- Heuristics of the memory scheduler: what the levels, cycles and barrier limits of prefetching say is an arbitrary sequence of answers, the order of candidates and the priorities of eviction are left open; only what each choice may be is modelled.
- `scheduleNonComputeOps` of the memory scheduler: the list it works on is never filled.
- Executor kinds and queue types of the memory scheduler: an operation has a queue number, and whether it needs all instances is given.
- Cycle counters, slot counts and sizes of profiling buffers are unbounded; wrap-around of 32-bit and 64-bit counters is not modelled.
- Merging heuristics for barriers (`canBarriersBeMerged`, `producersControlsAllConsumers`): whether merging is right depends on callers that are not part of this model.
- Task sets are mathematical sets: where the code takes the first entry of a set as the earliest task, the model takes the smallest one.
- Nodes and edges of inference graphs are numbers, and the edge sets of a node are kept by number instead of in the node; meta data is left out.
- `preAllocateForNewOps` before the consumer map is built: the model has the consumer map built first.
- Unicode letters in textual pipelines, and how the printer shows nested dictionaries as option values: the former are not names here, the latter is no text.
- Batching and repeating-blocks splitters, prefetching passes, drivers, registries, command-line tools and other scripts.
- BarrierInfoModule.BarrierInfo.ResetBarrier: IR order of barrier operations is not modelled, only the maps.
- BarrierOptimization.OptimizeBarriers: requires sync tasks at equal distances from the start, which `verifyControlGraphSplit` checks.
- SingleWaitBarrier.EnsureTasksDrivenBySingleBarrier: when it is not run iteratively, says what one walk over the tasks achieves at least, not that there is no second one.
- SplitCleanup.TrimSyncBarriers: does not say that unused update barriers of sync tasks go, because the code tests the wait barrier twice.
- FeasibleMemorySchedulerModule.FeasibleMemoryScheduler.GenerateSchedule: requires that every buffer an operation uses has been written by it or by an operation before it, and that every queue has an executor.
- SpillOptimization.OptimizeDataOpsSpills: requires that data operations read nothing from the scheduled memory, that spills name outputs of their operations, and that a buffer is not read back while it is in memory; schedules of the memory scheduler meet the last two under `Replayable`.
- SpillOptimization.CleanUpSpills: the removal of relocation spills, which runs between the two clean-ups, is not part of it.
- FeasibleAllocation.ScheduleAndCleanUp: requires what `Replayable` says, that everything takes time, that no two reads can begin together and that inputs have been written; a schedule with a lost read does not run.
- NaiveSplitterModule.NaiveSplitter.GetOutliningInstances: requires that only the first operand of a preprocessing operation comes from an activation path.
