/** The list scheduler that places operations in a memory of limited size: ready lists, executor
    clocks, two heaps and forced eviction.  What the allocator answers and which of several
    candidates a heuristic prefers is left open. */
module FeasibleMemorySchedulerModule {
  import opened AsyncDeps
  import opened BarrierInfoModule
  import opened ScheduleProgram
  import opened ReadyLists
  import opened TimelineModule
  import opened ScheduleTrace
  import opened SpillMaps
  import opened SchedulerState
  import opened ScheduleOrder
  import opened SpillReplay
  import opened DataOpSpills
  import opened ScheduleReplay
  import opened ScheduleMeaning
  import opened SchedulerSteps
  import opened Sequences

  class FeasibleMemoryScheduler {
    const program: Program
    const liveRangeInfo: MemLiveRangeInfo
    /** The answers of the allocator, in the order in which it is asked. */
    const answers: nat -> bool

    /** The answers of the heuristics that limit prefetching, in the order in which they are asked. */
    const judgements: nat -> bool

    /** How often the allocator has been asked. */
    var asked: nat
    /** How often the heuristics have been asked. */
    var judged: nat
    /** In-degree table and ready lists. */
    var ready: ReadyState
    /** Executor pipelines, end cycles, and writers and last uses of buffers. */
    var line: Timeline
    /** Buffers that are in memory or spilled. */
    var spills: SpillState

    var cycleBeginHeap: Heap
    var cycleEndHeap: Heap
    var scheduledOps: seq<HeapElement>
    var outputOps: set<nat>
    /** Compute operations left on each queue. */
    var computeOpOrder: map<nat, seq<nat>>
    /** Buffers that may be evicted next, with their writers. */
    var evictionCandidatesCache: map<nat, nat>

    constructor (program: Program, liveRangeInfo: MemLiveRangeInfo, answers: nat -> bool, judgements: nat -> bool,
                 executorPipelines: Clocks)
      ensures this.program == program && this.liveRangeInfo == liveRangeInfo && this.answers == answers && asked == 0
      ensures this.judgements == judgements && judged == 0
      ensures ready == ReadyState(map[], {}, {}, {}, {}, {})
      ensures line == Timeline(executorPipelines, [], map[], map[], map[])
      ensures spills == SpillState(map[], map[], {}, {}) && cycleBeginHeap == cycleEndHeap == {} && outputOps == {}
      ensures scheduledOps == []
      ensures computeOpOrder == map[] && evictionCandidatesCache == map[]
    {
      this.program, this.liveRangeInfo, this.answers, asked := program, liveRangeInfo, answers, 0;
      this.judgements, judged := judgements, 0;
      ready, line := ReadyState(map[], {}, {}, {}, {}, {}), Timeline(executorPipelines, [], map[], map[], map[]);
      spills := SpillState(map[], map[], {}, {});
      cycleBeginHeap, cycleEndHeap, scheduledOps, outputOps := {}, {}, [], {};
      computeOpOrder, evictionCandidatesCache := map[], map[];
    }

    ghost function St(): Snapshot
      reads `ready, `line, `spills, `cycleBeginHeap, `cycleEndHeap, `scheduledOps
    {
      Snapshot(ready, line, spills, cycleBeginHeap, cycleEndHeap, scheduledOps)
    }

    /** An operation is a user of its buffers until it has ended. */
    ghost predicate UsersKept()
      reads `line, `cycleBeginHeap, `cycleEndHeap, `ready, `spills, `scheduledOps, liveRangeInfo
    {
      liveRangeInfo.Valid() &&
      forall o {:trigger liveRangeInfo.GetUsedBuffers(o)} :: 0 <= o < |program.tasks| ==>
        liveRangeInfo.GetUsedBuffers(o) == UsedNow(program, St(), o)
    }

    /** The invariant that holds between any two steps. */
    ghost predicate Running(pending: set<nat>)
      reads this, liveRangeInfo
    {
      Good(program, St(), pending, {}) && UsersKept() && CacheFresh(St(), evictionCandidatesCache)
    }

    /** Nothing is forgotten: compute operations wait on their queues in order, whatever has been scheduled
        is in flight or has released its consumers, and what is waited for at the end is still to come. */
    ghost predicate NothingForgotten()
      reads `ready, `line, `spills, `cycleBeginHeap, `cycleEndHeap, `scheduledOps, `computeOpOrder, `outputOps
    {
      && Prompt(program, ready) && Landed(St()) && ExactQueues(program, ready.scheduled, computeOpOrder)
      && OutputsOpen(program, outputOps, scheduledOps)
    }

    /** The allocator has refused something since it had been asked `from` times. */
    ghost predicate Refused(from: nat)
      reads `asked
    {
      RefusedWithin(answers, from, asked)
    }

    /** What the allocator is asked: `canAllocBuffers`, or `alloc` for good. */
    method Ask() returns (fits: bool)
      modifies `asked
      ensures asked == old(asked) + 1 && fits == answers(old(asked))
    {
      fits := answers(asked);
      asked := asked + 1;
    }

    /** The heuristics have been against prefetching something since they had been asked `from` times. */
    ghost predicate Declined(from: nat)
      reads `judged
    {
      RefusedWithin(judgements, from, judged)
    }

    /** What the heuristics are asked: whether to consider a candidate, bring it in, or go on after it. */
    method Judge() returns (goOn: bool)
      modifies `judged
      ensures judged == old(judged) + 1 && goOn == judgements(old(judged))
    {
      goOn := judgements(judged);
      judged := judged + 1;
    }

    /** `reduceInDegreeOfAdjacentOperations`: `o` is released; its consumers that waited for nothing
        else are returned. */
    method ReduceInDegreeOfAdjacentOperations(o: nat, ghost pending: set<nat>) returns (zero: seq<nat>)
      requires Consistent(program, ready, pending) && o < |program.tasks| && o !in ready.released
      requires o in ready.scheduled || (o in ready.data && program.IsDataOp(o))
      modifies `ready
      ensures ready == old(ready).(inDegree := ready.inDegree, released := old(ready.released) + {o})
      ensures Distinct(zero) && pending !! Elements(zero) && Consistent(program, ready, pending + Elements(zero))
    {
      hide Consistent, Reducing;
      ghost var r := ready;
      zero := [];
      ReduceStart(program, r, pending, o);
      var left := program.consumers[o];
      assert program.consumers[o] - left == {};
      while left != {}
        invariant left <= program.consumers[o] && ready == r.(inDegree := ready.inDegree)
        invariant Reducing(program, r, ready.inDegree, o, program.consumers[o] - left, zero)
      {
        var consumer :| consumer in left;
        ReduceStep(program, r, pending, ready.inDegree, o, program.consumers[o] - left, zero, consumer);
        if ready.inDegree[consumer] < 2 {
          zero := zero + [consumer];
          ready := ready.(inDegree := ready.inDegree - {consumer});
        } else {
          ready := ready.(inDegree := ready.inDegree[consumer := ready.inDegree[consumer] - 1]);
        }
        assert program.consumers[o] - (left - {consumer}) == (program.consumers[o] - left) + {consumer};
        left := left - {consumer};
      }
      assert program.consumers[o] - {} == program.consumers[o];
      ready := ready.(released := ready.released + {o});
      ReduceDone(program, r, pending, ready.inDegree, o, zero);
      ReducedDistinct(program, r, ready.inDegree, o, zero);
    }

    ghost function Unlisted(): set<nat>
      reads `ready
    {
      AllOps(|program.tasks|) - ready.Listed()
    }

    /** `distributeReadyOps`: operations whose in-degree has come to nought are listed; ready data
        operations release their consumers at once.  No operation is listed twice. */
    method DistributeReadyOps(ops: seq<nat>, ghost rest: set<nat>)
      requires Distinct(ops) && Elements(ops) !! rest && Consistent(program, ready, Elements(ops) + rest)
      modifies `ready
      ensures Consistent(program, ready, rest) && Unlisted() <= old(Unlisted())
      ensures OnlyListed(program, old(ready), ready) && (ops == [] ==> ready == old(ready))
      decreases Unlisted()
    {
      hide Consistent, OnlyListed;
      var i := 0;
      assert ops[0..] == ops;
      OnlyListedSelf(program, ready, Elements(ops) + rest);
      while i < |ops|
        invariant i <= |ops| && Consistent(program, ready, Elements(ops[i..]) + rest) && Unlisted() <= old(Unlisted())
        invariant OnlyListed(program, old(ready), ready) && (i == 0 ==> ready == old(ready))
      {
        PendingStep(ops, rest, i);
        ghost var before := ready;
        DistributeOne(ops[i], Elements(ops[i + 1..]) + rest);
        OnlyListedTransitive(program, old(ready), before, ready);
        i := i + 1;
      }
      assert Elements(ops[i..]) + rest == rest;
    }

    method DistributeOne(o: nat, ghost rest: set<nat>)
      requires o !in rest && Consistent(program, ready, rest + {o})
      modifies `ready
      ensures Consistent(program, ready, rest) && Unlisted() < old(Unlisted()) && OnlyListed(program, old(ready), ready)
      decreases Unlisted(), 0
    {
      hide Consistent, OnlyListed, Program.IsDataOp;
      ghost var r := ready;
      PendingFacts(program, ready, rest + {o}, o);
      assert o in Unlisted() && (rest + {o}) - {o} == rest;
      if program.IsDataOp(o) {
        assert o !in ready.data;
        ready := ready.(data := ready.data + {o});
        ListingKeeps(program, r, ready, rest + {o}, o);
        ghost var listed := ready;
        var newReadyOps := ReduceInDegreeOfAdjacentOperations(o, rest);
        DataOpReleased(program, r, listed, ready, o);
        assert rest + Elements(newReadyOps) == Elements(newReadyOps) + rest;
        ghost var reduced := ready;
        DistributeReadyOps(newReadyOps, rest);
        OnlyListedTransitive(program, r, reduced, ready);
      } else if program.IsComputeOp(o) {
        assert o !in ready.compute;
        ready := ready.(compute := ready.compute + {o});
        ListingKeeps(program, r, ready, rest + {o}, o);
        OnlyListedOne(program, r, ready);
      } else {
        assert o !in ready.dma;
        ready := ready.(dma := ready.dma + {o});
        ListingKeeps(program, r, ready, rest + {o}, o);
        OnlyListedOne(program, r, ready);
      }
    }

    /** `findMinScheduledQueueCycle`: the first time at which an executor of an element in flight is free. */
    method FindMinScheduledQueueCycle() returns (target: nat)
      requires Valid(program, line) && InFlight(program, St())
      ensures FirstFree(cycleEndHeap, line.clocks, target)
      ensures cycleEndHeap != {} ==> exists e :: e in cycleEndHeap && e.cycleEnd <= target
    {
      hide Valid, GoodSchedule;
      target := 0;
      var found := false;
      var left := cycleEndHeap;
      while left != {}
        invariant left <= cycleEndHeap && (found <==> left != cycleEndHeap)
        invariant forall e, inst :: e in cycleEndHeap && e !in left && inst in e.mask ==>
          ClockIsFrom(line.clocks, e, inst, target)
        invariant found ==> exists e :: e in cycleEndHeap && e.cycleEnd <= target
        invariant found ==>
          exists e, inst :: e in cycleEndHeap && inst in e.mask && ClockIs(line.clocks, e, inst, target)
      {
        var e :| e in left;
        InFlightIsBusy(program, St(), e);
        var earliest := EarliestFree(e);
        if !found || earliest < target {
          target := earliest;
        }
        found := true;
        left := left - {e};
      }
    }

    method EarliestFree(e: HeapElement) returns (cycle: nat)
      requires Busy(line.clocks, e)
      ensures e.cycleEnd <= cycle && forall inst :: inst in e.mask ==> ClockIsFrom(line.clocks, e, inst, cycle)
      ensures exists inst :: inst in e.mask && ClockIs(line.clocks, e, inst, cycle)
    {
      var first :| first in e.mask;
      cycle := line.clocks[e.queue][first];
      assert ClockIs(line.clocks, e, first, cycle);
      var left := e.mask;
      while left != {}
        invariant left <= e.mask && e.cycleEnd <= cycle
        invariant forall inst :: inst in e.mask && inst !in left ==> ClockIsFrom(line.clocks, e, inst, cycle)
        invariant exists inst :: inst in e.mask && ClockIs(line.clocks, e, inst, cycle)
      {
        var inst :| inst in left;
        if line.clocks[e.queue][inst] < cycle {
          cycle := line.clocks[e.queue][inst];
          assert ClockIs(line.clocks, e, inst, cycle);
        }
        left := left - {inst};
      }
    }

    /** `alignExecutors`. */
    method AlignExecutors(nextAvailableCycle: nat)
      modifies `line
      ensures line == old(line).(clocks := AlignTo(old(line.clocks), nextAvailableCycle))
    {
      ghost var before := line;
      var queues := line.clocks.Keys;
      while queues != {}
        invariant queues <= line.clocks.Keys == before.clocks.Keys && line == before.(clocks := line.clocks)
        invariant forall q :: q in line.clocks ==>
          line.clocks[q] == if q in queues then before.clocks[q] else AlignTo(before.clocks, nextAvailableCycle)[q]
      {
        var q :| q in queues;
        var cycles := line.clocks[q];
        line := line.(clocks :=
          line.clocks[q := seq(|cycles|, i requires 0 <= i < |cycles| => Max(cycles[i], nextAvailableCycle))]);
        queues := queues - {q};
      }
      assert line.clocks == AlignTo(before.clocks, nextAvailableCycle);
    }

    /** Exactly the buffers that have lost their last user are no longer in memory. */
    twostate predicate UnusedDied()
      reads `spills, liveRangeInfo
    {
      forall b ::
        && (liveRangeInfo.HasUsers(b) ==> old(liveRangeInfo.HasUsers(b)))
        && (b in spills.alive <==>
              b in old(spills.alive) && (liveRangeInfo.HasUsers(b) || !old(liveRangeInfo.HasUsers(b))))
    }

    /** `freeMemoryResources`: the operation gives up its buffers; exactly those without users left die.
        No user is erased twice. */
    method FreeMemoryResources(e: HeapElement) returns (freed: bool)
      requires liveRangeInfo.Valid()
      modifies `spills, liveRangeInfo
      ensures liveRangeInfo.Valid() && liveRangeInfo.GetUsedBuffers(e.op) == {}
      ensures forall o :: o != e.op ==> liveRangeInfo.GetUsedBuffers(o) == old(liveRangeInfo.GetUsedBuffers(o))
      ensures spills == old(spills).(alive := spills.alive) && spills.alive <= old(spills.alive)
      ensures old(liveRangeInfo.GetUsedBuffers(e.op)) == {} ==> spills == old(spills)
      ensures UnusedDied()
      ensures freed <==> exists b :: old(liveRangeInfo.HasUsers(b)) && !liveRangeInfo.HasUsers(b)
    {
      freed := false;
      var left := liveRangeInfo.GetUsedBuffers(e.op);
      while left != {}
        invariant liveRangeInfo.Valid() && left == liveRangeInfo.GetUsedBuffers(e.op)
        invariant forall o :: o != e.op ==> liveRangeInfo.GetUsedBuffers(o) == old(liveRangeInfo.GetUsedBuffers(o))
        invariant spills == old(spills).(alive := spills.alive) && spills.alive <= old(spills.alive)
        invariant old(liveRangeInfo.GetUsedBuffers(e.op)) == {} ==> spills == old(spills) && left == {}
        invariant UnusedDied()
        invariant freed <==> exists b :: old(liveRangeInfo.HasUsers(b)) && !liveRangeInfo.HasUsers(b)
        decreases |left|
      {
        var buffer :| buffer in left;
        liveRangeInfo.UsedIsPair(buffer, e.op);
        label Before:
        assert liveRangeInfo.HasUsers(buffer);
        var outcome, users := liveRangeInfo.EraseUser(buffer, e.op);
        assert outcome == Done;
        forall b: nat | b != buffer
          ensures liveRangeInfo.HasUsers(b) <==> old@Before(liveRangeInfo.HasUsers(b))
        {
          assert forall o :: (b, o) in liveRangeInfo.Pairs() <==> (b, o) in old@Before(liveRangeInfo.Pairs());
        }
        if users == 0 {
          spills := spills.(alive := spills.alive - {buffer});
          freed := true;
        }
        left := left - {buffer};
      }
    }

    /** `unlockNewReadyOps`: a compute operation that has ended releases its consumers. */
    method UnlockNewReadyOps(e: HeapElement, ghost pending: set<nat>) returns (zero: seq<nat>)
      requires Consistent(program, ready, pending) && InFlight(program, St()) && e in cycleEndHeap
      requires e.op in ready.scheduled
      modifies `ready
      ensures Distinct(zero) && pending !! Elements(zero) && Consistent(program, ready, pending + Elements(zero))
      ensures ready == old(ready).(inDegree := ready.inDegree, released := ready.released)
      ensures ready.released == if e.IsOriginalOp() && program.IsComputeOp(e.op) then
        old(ready.released) + {e.op} else old(ready.released)
    {
      hide Consistent;
      if !e.IsOriginalOp() {
        assert pending + Elements([]) == pending;
        return [];
      }
      var executorType := if e.op in spills.spillBuffers then DmaNN else program.tasks[e.op].executor;
      if executorType != Compute {
        assert pending + Elements([]) == pending;
        return [];
      }
      zero := ReduceInDegreeOfAdjacentOperations(e.op, pending);
    }

    /** The steps of `unscheduleAllCompletingOps` for one element: its buffers are freed, executors
        are aligned when memory has become free, and its consumers are released. */
    method UnscheduleOne(e: HeapElement, ghost pending: set<nat>) returns (newReadyOps: seq<nat>)
      requires Running(pending) && e in cycleEndHeap && cycleBeginHeap == {} && Prompt(program, ready) && Landed(St())
      modifies `spills, liveRangeInfo, `line, `ready, `cycleEndHeap
      ensures Distinct(newReadyOps) && pending !! Elements(newReadyOps) && Running(pending + Elements(newReadyOps))
      ensures cycleEndHeap == old(cycleEndHeap) - {e} && spills.alive <= old(spills.alive)
      ensures line == old(line).(clocks := line.clocks) && ClocksGrow(old(line.clocks), line.clocks)
      ensures line.clocks == if exists b :: old(liveRangeInfo.HasUsers(b)) && !liveRangeInfo.HasUsers(b) then
        AlignTo(old(line.clocks), e.cycleEnd) else old(line.clocks)
      ensures ready.scheduled == old(ready.scheduled) && Prompt(program, ready) && Landed(St())
      ensures spills == old(spills).(alive := spills.alive) && UnusedDied()
    {
      hide Good, UsedNow, CacheFresh, ClocksGrow, Prompt, Landed, InFlight, Consistent;
      ghost var s := St();
      ElementFacts(program, s, pending, e);
      UsersOf(program, s, pending, e);
      var freed := FreeMemoryResources(e);
      FreeingKeeps(program, s, pending, evictionCandidatesCache, e, spills);
      ghost var t := St();
      if freed {
        AlignExecutors(e.cycleEnd);
        AligningKeeps(program, t, pending, evictionCandidatesCache, e.cycleEnd);
      }
      ClocksGrowSelf(s.line.clocks);
      ghost var u := St();
      ElementFacts(program, u, pending, e);
      newReadyOps := UnlockNewReadyOps(e, pending);
      cycleEndHeap := cycleEndHeap - {e};
      LandedOne(program, s, St(), e);
      LandingKeeps(program, s, u, pending, evictionCandidatesCache, e, ready, pending + Elements(newReadyOps));
      forall o: nat | o < |program.tasks|
        ensures liveRangeInfo.GetUsedBuffers(o) == UsedNow(program, St(), o)
      {
        LandedUsesNothing(program, s, St(), pending, e, o);
      }
    }

    /** `unscheduleAllCompletingOps`: the elements that end by the time the first executor in use is
        free are taken off the heap, at least one if there is any. Elements with equal ends may
        come in any order. */
    method UnscheduleAllCompletingOps()
      requires Running({}) && cycleBeginHeap == {} && Prompt(program, ready) && Landed(St())
      modifies `spills, liveRangeInfo, `line, `ready, `cycleEndHeap
      ensures Running({}) && ClocksGrow(old(line.clocks), line.clocks) && spills.alive <= old(spills.alive)
      ensures line.endCycles == old(line.endCycles)
      ensures if old(cycleEndHeap) == {} then cycleEndHeap == {} else cycleEndHeap < old(cycleEndHeap)
      ensures exists target: nat ::
        FirstFree(old(cycleEndHeap), old(line.clocks), target) && cycleEndHeap == EndingAfter(old(cycleEndHeap), target)
      ensures ready.scheduled == old(ready.scheduled) && Prompt(program, ready) && Landed(St())
      ensures spills == old(spills).(alive := spills.alive) && UnusedDied()
    {
      hide Good, UsersKept, UsedNow, CacheFresh, ClocksGrow, InFlight, Valid, Consistent, FirstFree, EndingAfter,
        Prompt, Landed, OnlyListed;
      GoodParts(program, St(), {}, {});
      var minScheduledQueueCycle := FindMinScheduledQueueCycle();
      var readyOps: seq<nat> := [];
      assert Elements([]) == {};
      ClocksGrowSelf(line.clocks);
      while exists e :: e in cycleEndHeap && e.cycleEnd <= minScheduledQueueCycle
        invariant Running(Elements(readyOps)) && Distinct(readyOps) && cycleBeginHeap == {}
        invariant cycleEndHeap <= old(cycleEndHeap) && ready.scheduled == old(ready.scheduled)
        invariant spills == old(spills).(alive := spills.alive) && UnusedDied()
        invariant Prompt(program, ready) && Landed(St())
        invariant ClocksGrow(old(line.clocks), line.clocks) && line == old(line).(clocks := line.clocks)
        invariant spills.alive <= old(spills.alive)
        invariant old(cycleEndHeap) != {} ==>
          cycleEndHeap != old(cycleEndHeap) || exists e :: e in cycleEndHeap && e.cycleEnd <= minScheduledQueueCycle
        invariant forall e :: e in old(cycleEndHeap) && e.cycleEnd > minScheduledQueueCycle ==> e in cycleEndHeap
        decreases |cycleEndHeap|
      {
        var nextOp := FirstToEnd(cycleEndHeap);
        ghost var clocks := line.clocks;
        var newReadyOps := UnscheduleOne(nextOp, Elements(readyOps));
        ClocksGrowTransitive(old(line.clocks), clocks, line.clocks);
        assert Elements(readyOps + newReadyOps) == Elements(readyOps) + Elements(newReadyOps);
        AppendDistinct(readyOps, newReadyOps);
        readyOps := readyOps + newReadyOps;
      }
      EndingAfterIs(old(cycleEndHeap), minScheduledQueueCycle, cycleEndHeap);
      ghost var s := St();
      Distribute(readyOps);
      ListedLands(program, s, ready);
      CacheIgnoresReady(s, evictionCandidatesCache, ready);
    }

    /** New ready operations are listed between two steps. */
    method Distribute(readyOps: seq<nat>)
      requires Good(program, St(), Elements(readyOps), {}) && UsersKept() && Distinct(readyOps)
      modifies `ready
      ensures Good(program, St(), {}, {}) && UsersKept() && OnlyListed(program, old(ready), ready)
      ensures (readyOps == [] ==> ready == old(ready))
    {
      hide Good, UsedNow, Consistent, OnlyListed;
      ghost var s := St();
      GoodParts(program, s, Elements(readyOps), {});
      assert Elements(readyOps) + {} == Elements(readyOps);
      DistributeReadyOps(readyOps, {});
      ListingGood(program, s, Elements(readyOps), {}, ready, {});
      SameUsers(program, s, St());
    }

    /** `getExecutorInstanceMask`: a data movement takes all instances or the one that is free first,
        anything else takes the first one. */
    method GetExecutorInstanceMask(needAll: bool, dma: bool, queue: nat) returns (mask: set<nat>)
      requires queue in line.clocks && line.clocks[queue] != []
      ensures mask != {} && forall i :: i in mask ==> i < |line.clocks[queue]|
      ensures dma && needAll ==> forall i :: i in mask <==> 0 <= i < |line.clocks[queue]|
      ensures dma && !needAll ==> exists i :: mask == {i} && FreeFirst(line.clocks[queue], i)
      ensures !dma ==> mask == {0}
    {
      var cycles := line.clocks[queue];
      if !dma {
        return {0};
      }
      if needAll {
        assert 0 in AllOps(|cycles|);
        return AllOps(|cycles|);
      }
      // No clock is beyond the largest index, from which the search starts there.
      var indexMin, cycleMin := 0, cycles[0];
      for i := 0 to |cycles|
        invariant indexMin < |cycles| && cycleMin == cycles[indexMin]
        invariant forall j :: 0 <= j < i ==> cycleMin <= cycles[j]
        invariant forall j :: 0 <= j < indexMin ==> cycles[indexMin] < cycles[j]
      {
        if cycles[i] < cycleMin {
          indexMin, cycleMin := i, cycles[i];
        }
      }
      mask := {indexMin};
    }

    /** `getCurrentCycleAndExecutorInstanceMask`: the earliest cycle at which `o` can begin. */
    method GetCurrentCycleAndExecutorInstanceMask(o: nat, depEndCycle: nat) returns (mask: set<nat>, cycle: nat)
      requires o < |program.tasks| == |program.deps| && program.tasks[o].queue in line.clocks
      requires line.clocks[program.tasks[o].queue] != []
      requires program.deps[o] <= line.endCycles.Keys
      ensures mask != {} && forall i :: i in mask ==> i < |line.clocks[program.tasks[o].queue]|
      ensures CanBegin(program, line, o, mask, depEndCycle, cycle) && RightMask(line.clocks, program.tasks[o], mask)
      ensures forall c :: CanBegin(program, line, o, mask, depEndCycle, c) ==> cycle <= c
    {
      var task := program.tasks[o];
      var dma := task.executor == DmaNN;
      mask := GetExecutorInstanceMask(task.wide, dma, task.queue);
      cycle := LatestClock(task.queue, mask, depEndCycle);
      var left := program.deps[o];
      while left != {}
        invariant left <= program.deps[o] && depEndCycle <= cycle
        invariant forall i :: i in mask ==> line.clocks[task.queue][i] <= cycle
        invariant forall d :: d in program.deps[o] && d !in left ==> line.endCycles[d] <= cycle
        invariant forall c :: CanBegin(program, line, o, mask, depEndCycle, c) ==> cycle <= c
      {
        var dep :| dep in left;
        cycle := Max(cycle, line.endCycles[dep]);
        left := left - {dep};
      }
    }

    method LatestClock(queue: nat, mask: set<nat>, depEndCycle: nat) returns (cycle: nat)
      requires queue in line.clocks && forall i :: i in mask ==> i < |line.clocks[queue]|
      ensures depEndCycle <= cycle && forall i :: i in mask ==> line.clocks[queue][i] <= cycle
      ensures cycle == depEndCycle || exists i :: i in mask && cycle == line.clocks[queue][i]
    {
      cycle := depEndCycle;
      var left := mask;
      while left != {}
        invariant left <= mask && depEndCycle <= cycle
        invariant forall i :: i in mask && i !in left ==> line.clocks[queue][i] <= cycle
        invariant cycle == depEndCycle || exists i :: i in mask && cycle == line.clocks[queue][i]
      {
        var inst :| inst in left;
        cycle := Max(cycle, line.clocks[queue][inst]);
        left := left - {inst};
      }
    }

    /** `getCurrentCycleAndExecutorInstanceMaskForSpill`. */
    method GetCurrentCycleAndExecutorInstanceMaskForSpill(buffer: nat, read: bool, depEndCycle: nat)
      returns (queue: nat, mask: set<nat>, cycle: nat)
      requires QueuesReady(program, line.clocks) && buffer < |program.wideBuffer|
      ensures queue == (if read then program.readQueue else program.writeQueue) && queue in line.clocks
      ensures mask != {} && forall i :: i in mask ==> i < |line.clocks[queue]| && line.clocks[queue][i] <= cycle
      ensures if program.wideBuffer[buffer] then forall i :: 0 <= i < |line.clocks[queue]| ==> i in mask
        else exists i :: mask == {i} && FreeFirst(line.clocks[queue], i)
      ensures depEndCycle <= cycle && (cycle == depEndCycle || exists i :: i in mask && cycle == line.clocks[queue][i])
    {
      queue := if read then program.readQueue else program.writeQueue;
      mask := GetExecutorInstanceMask(program.wideBuffer[buffer], true, queue);
      cycle := LatestClock(queue, mask, depEndCycle);
    }

    /** `getEarliestComputeBeginCycle`: buffers have to be written before they are used. */
    method GetEarliestComputeBeginCycle(o: nat) returns (cycle: nat)
      requires o < |program.tasks| == |program.deps| && program.tasks[o].queue in line.clocks
      requires line.clocks[program.tasks[o].queue] != []
      requires program.deps[o] <= line.endCycles.Keys && liveRangeInfo.GetUsedBuffers(o) == program.tasks[o].used
      requires forall b :: b in line.producer ==> line.producer[b] in line.endCycles
      ensures exists mask :: StartsFirst(program, line, o, mask, cycle)
    {
      hide RightMask, CanBegin, CanStart;
      var mask;
      mask, cycle := GetCurrentCycleAndExecutorInstanceMask(o, 0);
      CanStartBounds(program, line, o, mask);
      var left := liveRangeInfo.GetUsedBuffers(o);
      while left != {}
        invariant left <= program.tasks[o].used
        invariant forall b :: b in program.tasks[o].used && b !in left && b in line.producer ==>
          line.endCycles[line.producer[b]] <= cycle
        invariant CanBegin(program, line, o, mask, 0, cycle)
        invariant forall c: nat :: CanStart(program, line, o, mask, c) ==> cycle <= c
      {
        var buffer :| buffer in left;
        if buffer in line.producer {
          cycle := Max(line.endCycles[line.producer[buffer]], cycle);
        }
        left := left - {buffer};
      }
      assert StartsFirst(program, line, o, mask, cycle);
    }

    /** `updateCurrentCycleForExecutor`. */
    method UpdateCurrentCycleForExecutor(ghost e: HeapElement, queue: nat, mask: set<nat>, nextAvailableCycle: nat)
      requires e.queue == queue && e.mask == mask && e.cycleEnd == nextAvailableCycle && FitsClocks(line.clocks, e)
      modifies `line
      ensures line == old(line).(clocks := Advance(old(line.clocks), e))
    {
      ghost var before := line;
      var left := mask;
      while left != {}
        invariant left <= mask && line == before.(clocks := line.clocks) && line.clocks.Keys == before.clocks.Keys
        invariant forall q :: q in before.clocks && q != queue ==> line.clocks[q] == before.clocks[q]
        invariant |line.clocks[queue]| == |before.clocks[queue]|
        invariant forall i :: 0 <= i < |line.clocks[queue]| ==>
          line.clocks[queue][i] == if i in mask && i !in left then nextAvailableCycle else before.clocks[queue][i]
      {
        var inst :| inst in left;
        var cycles: seq<nat> := line.clocks[queue][inst := nextAvailableCycle];
        line := line.(clocks := line.clocks[queue := cycles]);
        left := left - {inst};
      }
      assert line.clocks[queue] == Advance(before.clocks, e)[queue];
      assert line.clocks == Advance(before.clocks, e);
    }

    /** `updateBufferCycleUseAndProducer` for several buffers. */
    method UpdateBufferCycleUseAndProducer(o: nat, cycleEnd: nat, buffers: set<nat>, isNewProducer: bool)
      modifies `line
      ensures line == old(line).(producer := line.producer, lastUse := line.lastUse)
      ensures line.producer == if isNewProducer then WrittenTo(old(line.producer), buffers, o) else old(line.producer)
      ensures line.lastUse == UsedUntil(old(line.lastUse), buffers, cycleEnd)
    {
      hide UsedUntil, WrittenTo;
      ghost var before := line;
      var left := buffers;
      UsedUntilNone(line.lastUse, cycleEnd);
      WrittenToNone(line.producer, o);
      assert buffers - left == {};
      while left != {}
        invariant left <= buffers && line == before.(producer := line.producer, lastUse := line.lastUse)
        invariant line.producer == if isNewProducer then
          WrittenTo(before.producer, buffers - left, o) else before.producer
        invariant line.lastUse == UsedUntil(before.lastUse, buffers - left, cycleEnd)
      {
        var buffer :| buffer in left;
        UsedUntilOne(before.lastUse, buffers - left, buffer, cycleEnd);
        WrittenToOne(before.producer, buffers - left, buffer, o);
        assert buffers - (left - {buffer}) == (buffers - left) + {buffer};
        if isNewProducer {
          line := line.(producer := line.producer[buffer := o]);
        }
        line := line.(lastUse :=
          line.lastUse[buffer := if buffer in line.lastUse then Max(line.lastUse[buffer], cycleEnd) else cycleEnd]);
        left := left - {buffer};
      }
      assert buffers - left == buffers;
    }

    /** `insertInOpIdxCycleEndMap`. */
    method InsertInOpIdxCycleEndMap(o: nat, endCycle: nat)
      modifies `line
      ensures line == old(line).(endCycles :=
        old(line.endCycles)[o := if o in old(line.endCycles) then Max(old(line.endCycles[o]), endCycle) else endCycle])
    {
      if o !in line.endCycles || line.endCycles[o] < endCycle {
        line := line.(endCycles := line.endCycles[o := endCycle]);
      }
      assert line.endCycles[o := line.endCycles[o]] == line.endCycles;
    }

    /** `pushToCycleBeginHeap`. */
    method PushToCycleBeginHeap(e: HeapElement)
      requires e.IsOriginalOp() ==> e.op < |program.tasks|
      modifies `line, `cycleBeginHeap, `ready
      ensures cycleBeginHeap == InsertByBegin(old(cycleBeginHeap), e) && line == Pushed(program, old(line), e)
      ensures ready == old(ready).(scheduled := old(ready.scheduled) + {e.op})
    {
      hide UsedUntil, WrittenTo, Pushed, Writes, Touches, InsertByBegin;
      PushedProducer(program, line, e);
      PushedUses(program, line, e);
      PushedRest(program, line, e);
      cycleBeginHeap := InsertByBegin(cycleBeginHeap, e);
      line := line.(pushed := line.pushed + [e]);
      if e.IsSpillReadOp() {
        UpdateBufferCycleUseAndProducer(e.op, e.cycleEnd, {e.buffer}, true);
      } else if e.IsOriginalOp() {
        UsedTwice(line.lastUse, program.tasks[e.op].outputs, program.tasks[e.op].inputs, e.cycleEnd);
        UpdateBufferCycleUseAndProducer(e.op, e.cycleEnd, program.tasks[e.op].outputs, true);
        UpdateBufferCycleUseAndProducer(e.op, e.cycleEnd, program.tasks[e.op].inputs, false);
      }
      InsertInOpIdxCycleEndMap(e.op, e.cycleEnd);
      ready := ready.(scheduled := ready.scheduled + {e.op});
    }

    /** Buffer `buffer` of operation `o` is no longer spilled. */
    method ForgetSpilled(o: nat, buffer: nat)
      requires o in spills.spillBuffers && buffer in spills.spillBuffers[o] && buffer in spills.alive
      modifies `spills
      ensures spills == old(spills).ReadBack(buffer, o)
    {
      ghost var before := spills;
      spills := spills.(readySpilled := spills.readySpilled - {buffer});
      OneOf(spills.spillBuffers[o], buffer);
      if |spills.spillBuffers[o]| > 1 {
        spills := spills.(spillBuffers := spills.spillBuffers[o := spills.spillBuffers[o] - {buffer}]);
      } else {
        spills := spills.(spillBuffers := spills.spillBuffers - {o});
      }
      spills := spills.(dynamicSpill := spills.dynamicSpill - {buffer});
      assert spills.alive == before.alive + {buffer};
    }

    /** `scheduleSpilledOpBuffer`: the spilled buffer of operation `o` is read back. */
    method ScheduleSpilledOpBuffer(o: nat, buffer: nat, ghost before: Snapshot, ghost pending: set<nat>,
                                   ghost exempt: set<nat>)
      requires before == St().(spills := spills.(alive := spills.alive - {buffer})) && buffer in spills.alive
      requires Good(program, before, pending, exempt) && NoSpillWrites(cycleBeginHeap) && UsersKept()
      requires buffer in spills.readySpilled && o == spills.readySpilled[buffer]
      modifies `ready, `line, `spills, `cycleBeginHeap
      ensures Good(program, St(), pending, exempt) && Later(before, St(), {buffer}) && UsersKept()
      ensures ready == old(ready) && line.endCycles.Keys == old(line.endCycles.Keys) && cycleBeginHeap != {}
      ensures exists e :: CanReadBack(program, before, e) && St() == AfterSpillRead(program, before, e)
      ensures Operations(line.pushed) == Operations(old(line.pushed))
    {
      hide Operations, Good, UsedNow, Advance, Pushed, QueuesReady, ClocksGrow;
      SpilledFacts(program, before, pending, exempt, buffer);
      var queue, mask, cycle := GetCurrentCycleAndExecutorInstanceMaskForSpill(buffer, true, 0);
      ForgetSpilled(o, buffer);
      assert spills == before.spills.ReadBack(buffer, o);
      var e := HeapElement(o, queue, mask, cycle, cycle + program.spillCost[buffer], SpillRead, buffer);
      UpdateCurrentCycleForExecutor(e, queue, mask, e.cycleEnd);
      PushToCycleBeginHeap(e);
      SpillReadKeeps(program, before, pending, exempt, e);
      OperationsPushed(program, before.line, e);
      SpillReadTables(program, before.line, e);
      assert ready.scheduled == before.ready.scheduled;
      assert line == Pushed(program, before.line, e).(clocks := Advance(before.line.clocks, e)) by {
        PushIgnoresClocks(program, before.line, e);
      }
      assert St() == AfterSpillRead(program, before, e);
      forall x: nat | x < |program.tasks|
        ensures UsedNow(program, St(), x) == old(UsedNow(program, St(), x))
      {
        PushUsedNow(program, old(St()), St(), e, x);
      }
    }

    /** First half of `scheduleDependencies`: the buffers of `o` are brought into memory, those that
        were spilled by reading them back. */
    method BringBuffers(o: nat, ghost pending: set<nat>, ghost exempt: set<nat>)
      requires Good(program, St(), pending, exempt) && NoSpillWrites(cycleBeginHeap) && UsersKept()
      requires o < |program.tasks| && o !in line.endCycles
      modifies `ready, `line, `spills, `cycleBeginHeap
      ensures Good(program, St(), pending, exempt + program.tasks[o].used)
      ensures Later(old(St()), St(), program.tasks[o].used) && UsersKept()
      ensures ready == old(ready) && line.endCycles.Keys == old(line.endCycles.Keys)
      ensures Operations(line.pushed) == Operations(old(line.pushed))
    {
      hide Operations, Good, ClocksGrow, SpillState.Matches, InsertByBegin, CanReadBack, AfterSpillRead;
      ghost var used := program.tasks[o].used;
      ghost var start := St();
      assert liveRangeInfo.GetUsedBuffers(o) == used;
      var left := liveRangeInfo.GetUsedBuffers(o) - spills.alive;
      SpillsApart(program, start, pending, exempt);
      SpilledAreDynamic(start.spills, line.producer);
      AliveGood(program, start, pending, exempt, spills.alive, exempt + used);
      assert spills.(alive := spills.alive) == spills;
      LaterSelf(program, start, used - left);
      while left != {}
        invariant left <= used && left !! spills.alive && ready == start.ready
        invariant line.endCycles.Keys == start.line.endCycles.Keys
        invariant Operations(line.pushed) == Operations(start.line.pushed)
        invariant Good(program, St(), pending, exempt + used) && Later(start, St(), used - left) && UsersKept()
      {
        hide UsedNow;
        ghost var before := St();
        var buffer :| buffer in left;
        SpillsApart(program, before, pending, exempt + used);
        SpilledAreDynamic(before.spills, line.producer);
        spills := spills.(alive := spills.alive + {buffer});
        assert spills.alive - {buffer} == before.spills.alive;
        if buffer in spills.dynamicSpill {
          assert buffer in line.producer;
          assert before == St().(spills := spills.(alive := spills.alive - {buffer}));
          SameUsers(program, before, St());
          ScheduleSpilledOpBuffer(line.producer[buffer], buffer, before, pending, exempt + used);
        } else {
          AliveGood(program, before, pending, exempt + used, spills.alive, exempt + used);
          SameUsers(program, before, St());
          MarkedLater(program, before, buffer);
        }
        LaterTransitive(start, before, St(), used - left, {buffer});
        assert (used - left) + {buffer} == used - (left - {buffer});
        left := left - {buffer};
      }
      assert used - left == used;
    }

    /** When each of the data operations that `o` waits for could begin. */
    method DemandList(o: nat, ghost pending: set<nat>, ghost exempt: set<nat>) returns (demand: map<nat, nat>)
      requires Good(program, St(), pending, exempt) && Listable(program, ready, o)
      ensures demand.Keys == program.deps[o] - ready.scheduled && demand.Keys <= ready.data
      ensures forall d :: d in demand ==> d < o && program.IsDataOp(d)
      ensures forall d :: d in demand ==> exists mask :: BeginsFirst(program, line, d, mask, demand[d])
    {
      hide Good, CanBegin, RightMask;
      demand := map[];
      OpFacts(program, St(), pending, exempt, o);
      var left := program.deps[o];
      while left != {}
        invariant left <= program.deps[o] && demand.Keys == program.deps[o] - left - ready.scheduled
        invariant demand.Keys <= ready.data
        invariant forall d :: d in demand ==> d < o && program.IsDataOp(d)
        invariant forall d :: d in demand ==> exists mask :: BeginsFirst(program, line, d, mask, demand[d])
      {
        var depIdx :| depIdx in left;
        DepFacts(program, St(), pending, exempt, o, depIdx);
        if depIdx !in line.endCycles {
          assert depIdx in ready.data;
          OpFacts(program, St(), pending, exempt, depIdx);
          var mask, cycleBegin := GetCurrentCycleAndExecutorInstanceMask(depIdx, 0);
          assert BeginsFirst(program, line, depIdx, mask, cycleBegin);
          demand := demand[depIdx := cycleBegin];
        }
        left := left - {depIdx};
      }
    }

    /** `scheduleDependencies`: the buffers of `o` are brought into memory, and the data operations it
        still waits for are scheduled, those first that can begin first. None is found missing. */
    method ScheduleDependencies(o: nat, ghost pending: set<nat>, ghost exempt: set<nat>)
      returns (cycle: nat, ghost ops: seq<(nat, OpType)>)
      requires Good(program, St(), pending, exempt) && NoSpillWrites(cycleBeginHeap) && UsersKept()
      requires Listable(program, ready, o)
      modifies `ready, `line, `spills, `cycleBeginHeap
      ensures Good(program, St(), pending, exempt + program.tasks[o].used) && UsersKept()
      ensures ready ==
        old(ready).(data := old(ready.data) - program.deps[o], scheduled := old(ready.scheduled) + program.deps[o])
      ensures Later(old(St()), St(), Needs(program, old(ready.scheduled), o)) && program.deps[o] <= line.endCycles.Keys
      ensures exists mask :: StartsFirst(program, line, o, mask, cycle)
      ensures Demanded(program, old(St()), o, ops)
      ensures Operations(line.pushed) == Operations(old(line.pushed)) + ops
      decreases o, 1
    {
      hide Operations, Good, UsedNow, Later, Program.IsDataOp, Program.WellFormed, Needs, Missing, BeginsFirst,
        InDemandOrder, StartsFirst;
      ghost var start, used := St(), program.tasks[o].used;
      OpFacts(program, start, pending, exempt, o);
      BringBuffers(o, pending, exempt);
      var demand := DemandList(o, pending, exempt + used);
      assert Missing(program, start, o, demand.Keys) by { MissingIs(program, start, o, demand.Keys); }
      assert DemandAt(program, start, St(), o, demand);
      ops := ScheduleDemand(o, demand, start, pending, exempt + used);
      DemandDone(program, start, St(), pending, exempt, o, demand.Keys);
      cycle := GetEarliestComputeBeginCycle(o);
    }

    /** Second half of `scheduleDependencies`: the data operations in `demand` are scheduled. */
    method ScheduleDemand(o: nat, demand: map<nat, nat>, ghost start: Snapshot, ghost pending: set<nat>,
                          ghost exempt: set<nat>)
      returns (ghost ops: seq<(nat, OpType)>)
      requires o < |program.tasks| && Missing(program, start, o, demand.Keys) && ready == start.ready
      requires Later(start, St(), program.tasks[o].used)
      requires Good(program, St(), pending, exempt) && UsersKept()
      modifies `ready, `line, `spills, `cycleBeginHeap
      ensures ready == AfterDeps(start.ready, demand.Keys) && Good(program, St(), pending, exempt) && UsersKept()
      ensures Later(start, St(), program.tasks[o].used + UsedByAll(program, demand.Keys))
      ensures InDemandOrder(ops, demand) && Operations(line.pushed) == Operations(old(line.pushed)) + ops
      decreases o, 0
    {
      hide Operations, Demanding, PartOf, Good, UsedNow, Later, Program.IsDataOp, Program.WellFormed, InsertByBegin,
        AfterDeps, UsedByAll,
        NoSpillWrites, Listable, Missing, UsersKept;
      ghost var missing, first := demand.Keys, Operations(line.pushed);
      assert missing - missing == {};
      LaterNothing(program, start, St(), program.tasks[o].used);
      AfterNoDeps(start.ready);
      DemandStarts(demand);
      ops := [];
      var left := demand;
      while left != map[]
        invariant left.Keys <= missing && ready == AfterDeps(start.ready, missing - left.Keys)
        invariant Good(program, St(), pending, exempt) && UsersKept()
        invariant Later(start, St(), program.tasks[o].used + UsedByAll(program, missing - left.Keys))
        invariant PartOf(left, demand) && Demanding(ops, demand, left.Keys)
        invariant Operations(line.pushed) == first + ops
        decreases |left|
      {
        var depIdx := FirstDemand(left);
        ghost var before := St();
        DemandFacts(program, start, before, pending, exempt, o, missing, left.Keys, depIdx);
        ScheduleDataOp(depIdx, Original, pending, exempt);
        DemandTaken(ops, demand, left, depIdx, first);
        ops := ops + [(depIdx, Original)];
        KeysWithout(left, depIdx);
        left := left - {depIdx};
        DemandStep(program, start, before, St(), o, missing, left.Keys, depIdx);
      }
      assert missing - {} == missing;
    }

    /** Data operation `d`, which waits for nothing, is scheduled and taken off its list. */
    method ScheduleDataOp(d: nat, opType: OpType, ghost pending: set<nat>, ghost exempt: set<nat>)
      requires Good(program, St(), pending, exempt) && NoSpillWrites(cycleBeginHeap) && UsersKept()
      requires Listable(program, ready, d)
      requires (opType == Original || opType == Prefetched) && d in ready.data && program.deps[d] <= ready.scheduled
      modifies `ready, `line, `spills, `cycleBeginHeap
      ensures Good(program, St(), pending, exempt) && UsersKept() && cycleBeginHeap != {}
      ensures ready == AfterDeps(old(ready), {d}) && Later(old(St()), St(), program.tasks[d].used)
      ensures Operations(line.pushed) == Operations(old(line.pushed)) + [(d, opType)]
      decreases d, 3
    {
      hide Operations, Good, UsedNow, Later, Program.IsDataOp, Program.WellFormed, Needs, JustScheduled, Demanded;
      ghost var before := St();
      var _, ops := ScheduleOp(d, opType, pending, exempt);
      NothingDemanded(program, before, d, ops);
      assert Operations(before.line.pushed) + [] == Operations(before.line.pushed);
      ghost var mid := St();
      ready := ready.(data := ready.data - {d});
      DataOpDone(program, before, mid, St(), pending, exempt, d);
    }

    /** `scheduleOp`: `o` begins when its dependencies have ended, its executor is free and its
        buffers have been written.  The caller takes it off its list. */
    method ScheduleOp(o: nat, opType: OpType, ghost pending: set<nat>, ghost exempt: set<nat>)
      returns (nextAvailableCycle: nat, ghost ops: seq<(nat, OpType)>)
      requires Good(program, St(), pending, exempt) && NoSpillWrites(cycleBeginHeap) && UsersKept()
      requires Listable(program, ready, o)
      requires opType == Original || opType == Prefetched
      modifies `ready, `line, `spills, `cycleBeginHeap
      ensures Good(program, St().(ready := Taken(ready, o)), pending, exempt) && UsersKept() && cycleBeginHeap != {}
      ensures ready == old(ready).(data := old(ready.data) - program.deps[o],
                                   scheduled := old(ready.scheduled) + program.deps[o] + {o})
      ensures Later(old(St()), St(), Needs(program, old(ready.scheduled), o))
      ensures JustScheduled(program, line.pushed, o, opType, nextAvailableCycle)
      ensures exists mid ::
        Later(old(St()), mid, Needs(program, old(ready.scheduled), o)) &&
        PlacedFirst(program, mid.line, line, o, opType)
      ensures Demanded(program, old(St()), o, ops)
      ensures Operations(line.pushed) == Operations(old(line.pushed)) + ops + [(o, opType)]
      decreases o, 2
    {
      hide Operations, Demanded, Good, UsedNow, Later, Program.IsDataOp, Program.WellFormed, Needs, Advance, Pushed,
        InsertByBegin,
        CanBegin, FitsClocks, FitsData, RightMask, CanStart, NoSpillWrites;
      ghost var start := St();
      OpFacts(program, start, pending, exempt, o);
      var depEndCycle;
      depEndCycle, ops := ScheduleDependencies(o, pending, exempt);
      ghost var before := St();
      OpFacts(program, before, pending, exempt + program.tasks[o].used, o);
      var mask, cycle := GetCurrentCycleAndExecutorInstanceMask(o, depEndCycle);
      StartIs(program, line, o, mask, depEndCycle, cycle);
      var e := HeapElement(o, program.tasks[o].queue, mask, cycle, cycle + program.tasks[o].cost, opType, 0);
      OpBegins(program, before.line, e, depEndCycle);
      nextAvailableCycle := e.cycleEnd;
      UpdateCurrentCycleForExecutor(e, e.queue, mask, nextAvailableCycle);
      PushToCycleBeginHeap(e);
      PushIgnoresClocks(program, before.line, e);
      PushedLast(program, before.line, e);
      OperationsPushed(program, before.line, e);
      OpDone(program, start, before, St(), pending, exempt, e);
      assert ready == before.ready.(scheduled := before.ready.scheduled + {o});
      assert PlacedAt(program, before.line, line, o, opType, mask, cycle);
    }

    /** `getBuffersToAllocateForOp`: none of the dependencies is found missing. */
    method GetBuffersToAllocateForOp(o: nat, ghost pending: set<nat>, ghost exempt: set<nat>)
      returns (buffers: set<nat>)
      requires Good(program, St(), pending, exempt) && UsersKept() && Listable(program, ready, o)
      ensures buffers == Needs(program, ready.scheduled, o) - spills.alive
      decreases o
    {
      hide Good, UsedNow, Needs, Program.IsDataOp, Program.WellFormed;
      OpFacts(program, St(), pending, exempt, o);
      UnscheduledUses(program, St(), o);
      buffers := liveRangeInfo.GetUsedBuffers(o) - spills.alive;
      var left := program.deps[o];
      ghost var missing := program.deps[o] - ready.scheduled;
      while left != {}
        invariant left <= program.deps[o]
        invariant buffers == (program.tasks[o].used + UsedByAll(program, missing - left)) - spills.alive
      {
        var dep :| dep in left;
        DepFacts(program, St(), pending, exempt, o, dep);
        if dep !in line.endCycles {
          assert dep in ready.data;
          NeedsNothingMore(program, ready.scheduled, dep);
          var depBuffers := GetBuffersToAllocateForOp(dep, pending, exempt);
          buffers := buffers + depBuffers;
          assert missing - (left - {dep}) == (missing - left) + {dep};
          assert UsedByAll(program, missing - (left - {dep})) ==
            UsedByAll(program, missing - left) + program.tasks[dep].used;
        } else {
          assert missing - (left - {dep}) == missing - left;
        }
        left := left - {dep};
      }
      assert missing - {} == missing;
      NeedsMissing(program, ready.scheduled, o, missing);
    }

    /** Of the data operations and spilled operations, looked at in some order, those that may be prefetched. */
    method PrefetchCandidates() returns (candidates: seq<nat>, ghost order: seq<nat>)
      modifies `judged
      ensures Distinct(order) && Elements(order) == ready.data + spills.spillBuffers.Keys && Distinct(candidates)
      ensures judged == old(judged) + |order| && candidates == Granted(judgements, old(judged), order)
      ensures forall o :: o in candidates ==> o in ready.data || o in spills.spillBuffers
    {
      hide LookedAt, Granted, Distinct, Elements;
      candidates, order := [], [];
      var left := ready.data + spills.spillBuffers.Keys;
      ghost var all := left;
      LookedAtStarts(all);
      NothingGranted(judgements, judged);
      while left != {}
        invariant LookedAt(order, candidates, left, all)
        invariant judged == old(judged) + |order| && candidates == Granted(judgements, old(judged), order)
      {
        var o :| o in left;
        LookedAtNext(order, candidates, left, all, o);
        GrantedStep(judgements, old(judged), order, o);
        order := order + [o];
        var considered := Judge();
        if considered {
          candidates := candidates + [o];
        }
        left := left - {o};
      }
      LookedAtEnds(order, candidates, all);
    }

    /** All spilled buffers of `o` are read back. */
    method PrefetchSpilled(o: nat, ghost pending: set<nat>)
      requires Good(program, St(), pending, {}) && UsersKept() && NoSpillWrites(cycleBeginHeap)
      requires o in spills.spillBuffers
      modifies `ready, `line, `spills, `cycleBeginHeap
      ensures Good(program, St(), pending, {}) && UsersKept()
      ensures Later(old(St()), St(), old(spills.spillBuffers[o])) && ready == old(ready) && cycleBeginHeap != {}
      ensures Operations(line.pushed) == Operations(old(line.pushed))
    {
      hide Operations, Good, UsedNow, Program.WellFormed, InsertByBegin, ClocksGrow, CanReadBack, AfterSpillRead;
      ghost var start := St();
      var spilledBuffers := spills.spillBuffers[o];
      SpilledBuffersOf(program, start, pending, {}, o);
      var left := spilledBuffers;
      LaterSelf(program, start, {});
      assert spilledBuffers - left == {};
      while left != {}
        invariant left <= spilledBuffers && Good(program, St(), pending, {}) && UsersKept()
        invariant Later(start, St(), spilledBuffers - left) && ready == start.ready
        invariant (left != spilledBuffers ==> cycleBeginHeap != {})
        invariant Operations(line.pushed) == Operations(start.line.pushed)
      {
        var buffer :| buffer in left;
        ghost var before := St();
        SpillsApart(program, before, pending, {});
        SpilledAreDynamic(before.spills, line.producer);
        spills := spills.(alive := spills.alive + {buffer});
        assert spills.alive - {buffer} == before.spills.alive;
        assert before == St().(spills := spills.(alive := spills.alive - {buffer}));
        SameUsers(program, before, St());
        ScheduleSpilledOpBuffer(o, buffer, before, pending, {});
        LaterTransitive(start, before, St(), spilledBuffers - left, {buffer});
        assert (spilledBuffers - left) + {buffer} == spilledBuffers - (left - {buffer});
        left := left - {buffer};
      }
      assert spilledBuffers - {} == spilledBuffers;
    }

    /** The buffers that candidate `o` lacks. */
    method BuffersToPrefetch(o: nat, ghost pending: set<nat>) returns (operationBuffers: set<nat>)
      requires Good(program, St(), pending, {}) && UsersKept() && (o in ready.data || o in spills.spillBuffers)
      ensures o < |program.tasks| && operationBuffers == Lacking(program, St(), o)
    {
      hide Good, UsersKept, Program.WellFormed, Program.IsDataOp, Needs;
      if o in ready.data {
        DataOpReady(program, St(), pending, o);
        operationBuffers := GetBuffersToAllocateForOp(o, pending, {});
        NeedsNothingMore(program, ready.scheduled, o);
      } else {
        SpilledAreOutputs(program, St(), pending, o);
        operationBuffers := spills.spillBuffers[o];
      }
    }

    /** Candidate `o` is brought in. */
    method PrefetchOne(o: nat, ghost pending: set<nat>)
      requires Good(program, St(), pending, {}) && UsersKept() && NoSpillWrites(cycleBeginHeap)
      requires o in ready.data || o in spills.spillBuffers
      modifies `ready, `line, `spills, `cycleBeginHeap
      ensures Good(program, St(), pending, {}) && UsersKept()
      ensures BroughtInOne(program, old(St()), St(), o)
    {
      hide Operations, Good, UsersKept, UsedNow, Program.WellFormed, Program.IsDataOp, Later;
      if o in ready.data {
        DataOpReady(program, St(), pending, o);
        ScheduleDataOp(o, Prefetched, pending, {});
      } else {
        SpilledAreOutputs(program, St(), pending, o);
        PrefetchSpilled(o, pending);
      }
    }

    /** The `i`-th candidate, if it lacks anything, is brought in exactly if a heuristic and the allocator are for
        it, and another heuristic says whether to go on then. */
    method PrefetchNext(candidates: seq<nat>, i: nat, buffers: set<nat>, ghost start: Snapshot, ghost pending: set<nat>)
      returns (goOn: bool, more: set<nat>)
      requires Good(program, St(), pending, {}) && UsersKept() && i < |candidates|
      requires Bringing(program, start, St(), candidates, i) && start.spills.alive <= spills.alive
      requires candidates[i] in ready.data || candidates[i] in spills.spillBuffers
      modifies `ready, `line, `spills, `cycleBeginHeap, `asked, `judged
      ensures Good(program, St(), pending, {}) && UsersKept() && candidates[i] < |program.tasks|
      ensures Prefetching(start, St()) && start.spills.alive <= spills.alive
      ensures OnlyPrefetched(start.line.pushed, line.pushed)
      ensures more == buffers + (spills.alive - old(spills.alive)) && old(spills.alive) <= spills.alive
      ensures goOn ==> Bringing(program, start, St(), candidates, i + 1)
      ensures
        if Lacking(program, old(St()), candidates[i]) == {} then
          goOn && St() == old(St()) && asked == old(asked) && judged == old(judged)
        else if !judgements(old(judged)) then
          !goOn && St() == old(St()) && asked == old(asked) && judged == old(judged) + 1
        else if !answers(old(asked)) then
          !goOn && St() == old(St()) && asked == old(asked) + 1 && judged == old(judged) + 1
        else
          BroughtInOne(program, old(St()), St(), candidates[i]) && goOn == judgements(old(judged) + 1) &&
          asked == old(asked) + 1 && judged == old(judged) + 2
    {
      hide Good, UsersKept, UsedNow, Program.WellFormed, Program.IsDataOp, InsertByBegin, Prefetching, Later,
        NoSpillWrites, Needs, Bringing, BroughtInOne, OnlyPrefetched;
      ghost var before := St();
      var o := candidates[i];
      goOn, more := true, buffers;
      BringingFacts(program, start, before, candidates, i);
      var operationBuffers := BuffersToPrefetch(o, pending);
      if operationBuffers == {} {
        NothingToBring(program, start, before, pending, candidates, i);
        return;
      }
      goOn := Judge();
      if !goOn {
        return;
      }
      goOn := Ask();
      if !goOn {
        return;
      }
      PrefetchOne(o, pending);
      BringingOne(program, start, before, St(), pending, candidates, i, operationBuffers);
      BringingFacts(program, start, St(), candidates, i + 1);
      more := buffers + operationBuffers;
      goOn := Judge();
    }

    /** The candidates are brought in one after the other, until the allocator or a heuristic is against it. */
    method PrefetchInTurn(candidates: seq<nat>, buffersToAllocate: set<nat>, ghost pending: set<nat>)
      returns (outcome: Outcome, buffers: set<nat>)
      requires Good(program, St(), pending, {}) && UsersKept()
      requires Bringing(program, St(), St(), candidates, 0)
      modifies `ready, `line, `spills, `cycleBeginHeap, `asked, `judged
      ensures asked >= old(asked) && judged >= old(judged)
      ensures Good(program, St(), pending, {}) && UsersKept() && Prefetching(old(St()), St())
      ensures OnlyPrefetched(old(line.pushed), line.pushed)
      ensures old(spills.alive) <= spills.alive && buffers == buffersToAllocate + (spills.alive - old(spills.alive))
      ensures asked > old(asked) ==> !RefusedWithin(answers, old(asked), asked - 1)
      ensures asked == old(asked) || (asked == old(asked) + 1 && !answers(old(asked))) ==> St() == old(St())
      ensures outcome == Done && !Refused(old(asked)) && !Declined(old(judged)) ==>
        Bringing(program, old(St()), St(), candidates, |candidates|)
      ensures outcome.Thrown? ==> outcome.message == SPILL_CANDIDATE_GONE && Overtaken(program, old(St()))
    {
      hide Good, UsersKept, UsedNow, Program.WellFormed, Program.IsDataOp, InsertByBegin, Prefetching,
        NoSpillWrites, Overtaken, Bringing, RefusedWithin, Elements, Distinct, OnlyPrefetched, Lacking, BroughtInOne;
      outcome, buffers := Done, buffersToAllocate;
      ghost var start := St();
      BringingFacts(program, start, start, candidates, 0);
      NothingRefused(answers, asked);
      var i := 0;
      while i < |candidates|
        invariant i <= |candidates| && Good(program, St(), pending, {}) && UsersKept() && Prefetching(start, St())
        invariant Bringing(program, start, St(), candidates, i) && start.spills.alive <= spills.alive
        invariant OnlyPrefetched(start.line.pushed, line.pushed)
        invariant buffers == buffersToAllocate + (spills.alive - start.spills.alive)
        invariant asked >= old(asked) && judged >= old(judged)
        invariant !Refused(old(asked)) && (asked == old(asked) ==> St() == start)
      {
        ghost var before, a, j := St(), asked, judged;
        if asked > old(asked) {
          NoneRefused(answers, old(asked), asked);
        }
        if candidates[i] !in ready.data && candidates[i] !in spills.spillBuffers {
          CandidateGone(program, start, before, pending, candidates, i);
          return Thrown(SPILL_CANDIDATE_GONE), buffers;
        }
        var goOn;
        goOn, buffers := PrefetchNext(candidates, i, buffers, start, pending);
        if !goOn {
          StoppedHere(answers, judgements, old(asked), a, asked, old(judged), j, judged);
          return;
        }
        GrantedSoFar(answers, old(asked), a, asked);
        i := i + 1;
      }
      if asked > old(asked) {
        NoneRefused(answers, old(asked), asked);
      }
    }

    /** `prefetchOps`: data operations and spilled buffers are brought in ahead of time, all of them unless
        the allocator or the heuristics on levels, cycles and barriers are against one.  A candidate can turn
        out to be gone only when all that was spilled for it is used by data operations that are ready. */
    method PrefetchOps(buffersToAllocate: set<nat>, ghost pending: set<nat>)
      returns (outcome: Outcome, buffers: set<nat>)
      requires Good(program, St(), pending, {}) && UsersKept() && NoSpillWrites(cycleBeginHeap) && cycleBeginHeap != {}
      requires buffersToAllocate <= spills.alive
      modifies `ready, `line, `spills, `cycleBeginHeap, `asked, `judged
      ensures asked >= old(asked) && judged >= old(judged)
      ensures Good(program, St(), pending, {}) && UsersKept() && Prefetching(old(St()), St())
      ensures OnlyPrefetched(old(line.pushed), line.pushed)
      ensures old(spills.alive) <= spills.alive && buffers == buffersToAllocate + (spills.alive - old(spills.alive))
      ensures outcome == Done && !Refused(old(asked)) && !Declined(old(judged)) ==> NothingToPrefetch(program, St())
      ensures asked > old(asked) ==> !RefusedWithin(answers, old(asked), asked - 1)
      ensures asked == old(asked) || (asked == old(asked) + 1 && !answers(old(asked))) ==> St() == old(St())
      ensures outcome.Thrown? ==> outcome.message == SPILL_CANDIDATE_GONE && Overtaken(program, old(St()))
      ensures outcome.Thrown? ==> program.WellFormed() && !DataBuffersPrivate(program)
      ensures outcome.Thrown? ==> old(spills.readySpilled) != map[]
    {
      hide Good, UsersKept, UsedNow, Program.WellFormed, Program.IsDataOp, InsertByBegin, Prefetching,
        DataBuffersPrivate, NoSpillWrites, Overtaken, Bringing, NothingToPrefetch, RefusedWithin, Elements, Distinct,
        OnlyPrefetched, Granted;
      ghost var start := St();
      var candidates, order := PrefetchCandidates();
      GrantedAll(judgements, old(judged), order);
      StillCandidates(program, start, pending, candidates);
      ghost var judgedBefore := judged;
      outcome, buffers := PrefetchInTurn(candidates, buffersToAllocate, pending);
      RefusedSplit(judgements, old(judged), judgedBefore, judged);
      if outcome.Thrown? {
        PrivateNotOvertaken(program, start, pending);
        OvertakenIsSpilled(program, start, pending);
      } else if !Refused(old(asked)) && !Declined(old(judged)) {
        AllBroughtIn(program, start, St(), candidates);
      }
    }

    /** Compute operation `o` is scheduled and taken off its list. */
    method ScheduleComputeOp(o: nat)
      requires Good(program, St(), {}, {}) && UsersKept() && NoSpillWrites(cycleBeginHeap)
      requires Listable(program, ready, o) && o in ready.compute
      modifies `ready, `line, `spills, `cycleBeginHeap
      ensures Good(program, St(), {}, {}) && UsersKept() && cycleBeginHeap != {}
      ensures ready == TakenOff(program, old(ready), o)
      ensures Later(old(St()), St(), Needs(program, old(ready.scheduled), o))
      ensures exists ops ::
        Demanded(program, old(St()), o, ops) &&
        Operations(line.pushed) == Operations(old(line.pushed)) + ops + [(o, Original)]
    {
      hide Operations, Demanded, Good, UsedNow, Later, Program.IsDataOp, Program.WellFormed, Needs, Consistent,
        NoSpillWrites, InsertByBegin;
      ghost var before := St();
      var _, ops := ScheduleOp(o, Original, {}, {});
      ghost var mid := St();
      ready := ready.(compute := ready.compute - {o});
      ListedOpDone(program, before, mid, St(), {}, o);
    }

    /** `unscheduledOpsOnQueue`. */
    method UnscheduledOpsOnQueue(queue: nat) returns (free: bool)
      ensures free <==> QueueFree(cycleEndHeap, queue)
    {
      var left := cycleEndHeap;
      while left != {}
        invariant left <= cycleEndHeap && forall e :: e in cycleEndHeap && e !in left ==> e.queue != queue
      {
        var e :| e in left;
        if e.queue == queue {
          return false;
        }
        left := left - {e};
      }
      free := true;
    }

    /** Whether nothing is in flight on `queue`, and then whether the allocator has room for operation `o`. */
    method TryQueue(queue: nat, o: nat) returns (free: bool, fits: bool, operationBuffers: set<nat>)
      requires Good(program, St(), {}, {}) && UsersKept() && Listable(program, ready, o)
      modifies `asked
      ensures free <==> QueueFree(cycleEndHeap, queue)
      ensures if free then asked == old(asked) + 1 && fits == answers(old(asked)) else asked == old(asked) && !fits
      ensures fits ==> operationBuffers == Needs(program, ready.scheduled, o) - spills.alive
    {
      hide Good, UsersKept, Program.IsDataOp, Program.WellFormed, Needs, QueueFree;
      fits, operationBuffers := false, {};
      free := UnscheduledOpsOnQueue(queue);
      if free {
        operationBuffers := GetBuffersToAllocateForOp(o, {}, {});
        fits := Ask();
      }
    }

    /** First part of `scheduleComputeOps`: the first operation of each queue, if it is ready and nothing
        is in flight on the queue, is asked for, and chosen if the allocator has room. */
    method ChooseComputeOps() returns (chosen: seq<nat>, buffersToAllocate: set<nat>, ghost order: seq<nat>)
      requires Good(program, St(), {}, {}) && UsersKept() && ExactQueues(program, ready.scheduled, computeOpOrder)
      modifies `computeOpOrder, `asked
      ensures HeadsChosen(old(computeOpOrder), ready, cycleEndHeap, {}, order)
      ensures Chosen(program, ready, cycleEndHeap, {}, order)
      ensures asked == old(asked) + |order| && chosen == Granted(answers, old(asked), order)
      ensures ExactQueues(program, ready.scheduled + Elements(chosen), computeOpOrder)
      ensures Chosen(program, ready, cycleEndHeap, {}, chosen) && program.WellFormed()
      ensures chosen == [] ==> computeOpOrder == old(computeOpOrder)
      ensures buffersToAllocate == NeedsOfAll(program, ready.scheduled, Elements(chosen)) - spills.alive
    {
      hide Good, UsersKept, Program.IsDataOp, Program.WellFormed, Needs, NeedsOfAll, ExactQueues, HeadsChosen,
        QueueFree, QueueOf, Chosen, Listable, Distinct, Elements, Granted;
      chosen, buffersToAllocate, order := [], {}, [];
      AllHeadsLeft(program, computeOpOrder, ready, cycleEndHeap);
      GoodTasks(program, St(), {}, {});
      NothingGranted(answers, asked);
      var queues := computeOpOrder.Keys;
      while queues != {}
        invariant queues <= computeOpOrder.Keys == old(computeOpOrder).Keys
        invariant Chosen(program, ready, cycleEndHeap, queues, chosen)
        invariant Chosen(program, ready, cycleEndHeap, queues, order)
        invariant ExactQueues(program, ready.scheduled + Elements(chosen), computeOpOrder)
        invariant forall q :: q in queues ==> computeOpOrder[q] == old(computeOpOrder)[q]
        invariant chosen == [] ==> computeOpOrder == old(computeOpOrder)
        invariant asked == old(asked) + |order| && chosen == Granted(answers, old(asked), order)
        invariant HeadsChosen(old(computeOpOrder), ready, cycleEndHeap, queues, order)
        invariant buffersToAllocate == NeedsOfAll(program, ready.scheduled, Elements(chosen)) - spills.alive
      {
        var queue :| queue in queues;
        ghost var before, left := order, queues;
        queues := queues - {queue};
        ChosenGrows(program, ready, cycleEndHeap, left, chosen, queue, 0);
        ChosenGrows(program, ready, cycleEndHeap, left, order, queue, 0);
        if computeOpOrder[queue] != [] && computeOpOrder[queue][0] in ready.compute {
          var firstOpInQueue := computeOpOrder[queue][0];
          ChosenHead(program, ready.scheduled, chosen, computeOpOrder, queue);
          var free, fits, operationBuffers := TryQueue(queue, firstOpInQueue);
          if free {
            ChosenGrows(program, ready, cycleEndHeap, left, chosen, queue, firstOpInQueue);
            ChosenGrows(program, ready, cycleEndHeap, left, order, queue, firstOpInQueue);
            GrantedStep(answers, old(asked), order, firstOpInQueue);
            order := order + [firstOpInQueue];
          }
          if fits {
            buffersToAllocate := buffersToAllocate + operationBuffers;
            chosen := chosen + [firstOpInQueue];
            computeOpOrder := computeOpOrder[queue := computeOpOrder[queue][1..]];
          }
        }
        HeadsNext(old(computeOpOrder), ready, cycleEndHeap, left, before, queue, order);
      }
    }

    /** Second part of `scheduleComputeOps`. */
    method ScheduleChosenCompute(chosen: seq<nat>)
      requires Good(program, St(), {}, {}) && UsersKept() && NoSpillWrites(cycleBeginHeap)
      requires Chosen(program, ready, cycleEndHeap, {}, chosen)
      requires program.WellFormed() && Prompt(program, ready)
      modifies `ready, `line, `spills, `cycleBeginHeap
      ensures Good(program, St(), {}, {}) && UsersKept() && Forward(old(St()), St())
      ensures spills.alive == old(spills.alive) + NeedsOfAll(program, old(ready.scheduled), Elements(chosen))
      ensures Elements(chosen) <= ready.scheduled
      ensures if chosen == [] then St() == old(St()) else cycleBeginHeap != {} && old(ready.scheduled) < ready.scheduled
      ensures SameWaiting(program, old(ready.scheduled) + Elements(chosen), ready.scheduled)
      ensures ready.released == old(ready.released) && Prompt(program, ready)
    {
      hide Good, UsersKept, UsedNow, Program.IsDataOp, Program.WellFormed, Needs, NeedsOfAll, NoSpillWrites, Forward,
        Later, SameWaiting, Prompt, TakenOff, ListedFrom, Elements, Chosen;
      ghost var start := St();
      ghost var inMemory := spills.alive + NeedsOfAll(program, ready.scheduled, Elements(chosen));
      ForwardSelf(start);
      assert chosen[0..] == chosen;
      SameWaitingSelf(program, ready.scheduled + Elements(chosen));
      var i := 0;
      ChosenListed(program, ready, cycleEndHeap, chosen);
      while i < |chosen|
        invariant i <= |chosen| && Good(program, St(), {}, {}) && UsersKept() && Forward(start, St())
        invariant NoSpillWrites(cycleBeginHeap)
        invariant ListedFrom(program, ready, chosen, i)
        invariant SameWaiting(program, start.ready.scheduled + Elements(chosen), ready.scheduled +
          Elements(chosen[i..]))
        invariant ready.released == start.ready.released
        invariant Prompt(program, ready)
        invariant inMemory == spills.alive + NeedsOfAll(program, ready.scheduled, Elements(chosen[i..]))
        invariant forall j :: 0 <= j < i ==> chosen[j] in ready.scheduled
        invariant if i == 0 then St() == start else cycleBeginHeap != {} && start.ready.scheduled < ready.scheduled
      {
        ghost var before := St();
        ListedAt(program, ready, chosen, i);
        ScheduleComputeOp(chosen[i]);
        ChosenStep(program, start, before, St(), chosen, i, inMemory);
        ForwardTransitive(start, before, St());
        i := i + 1;
      }
      NoElements(ready.scheduled, chosen, i);
      NeedsOfNone(program, ready.scheduled, Elements(chosen[i..]));
      ElementsWithin(chosen, ready.scheduled);
    }

    /** Third part of `scheduleComputeOps`: of the data movements that are ready, asked for in some order, those
        for which the allocator has room. */
    method ChooseDMAOps(buffers: set<nat>)
      returns (chosen: seq<nat>, buffersToAllocate: set<nat>, ghost order: seq<nat>)
      requires Good(program, St(), {}, {}) && UsersKept() && buffers <= spills.alive
      modifies `asked
      ensures Distinct(order) && Elements(order) == ready.dma
      ensures asked == old(asked) + |order| && chosen == Granted(answers, old(asked), order)
      ensures Distinct(chosen) && program.WellFormed() && forall o :: o in chosen ==> o in ready.dma
      ensures buffersToAllocate == buffers + (NeedsOfAll(program, ready.scheduled, Elements(chosen)) - spills.alive)
    {
      hide Good, UsersKept, Program.IsDataOp, Program.WellFormed, Needs, NeedsOfAll, Granted, LookedAt, Distinct,
        Elements;
      chosen, buffersToAllocate, order := [], buffers, [];
      GoodTasks(program, St(), {}, {});
      NothingGranted(answers, asked);
      LookedAtStarts(ready.dma);
      var left := ready.dma;
      while left != {}
        invariant left <= ready.dma && LookedAt(order, chosen, left, ready.dma)
        invariant asked == old(asked) + |order| && chosen == Granted(answers, old(asked), order)
        invariant buffersToAllocate == buffers + (NeedsOfAll(program, ready.scheduled, Elements(chosen)) - spills.alive)
      {
        var readyOpIdx :| readyOpIdx in left;
        LookedAtNext(order, chosen, left, ready.dma, readyOpIdx);
        left := left - {readyOpIdx};
        GrantedStep(answers, old(asked), order, readyOpIdx);
        order := order + [readyOpIdx];
        var operationBuffers := GetBuffersToAllocateForOp(readyOpIdx, {}, {});
        var fits := Ask();
        if fits {
          ChosenMore(program, ready.scheduled, chosen, readyOpIdx);
          buffersToAllocate := buffersToAllocate + operationBuffers;
          chosen := chosen + [readyOpIdx];
        }
      }
      LookedAtEnds(order, chosen, ready.dma);
    }

    /** Data movement `o` is scheduled, taken off its list, and released at once. */
    method ScheduleDMAOp(o: nat, ghost pending: set<nat>) returns (newReadyOps: seq<nat>)
      requires Good(program, St(), pending, {}) && UsersKept() && NoSpillWrites(cycleBeginHeap) && o in ready.dma
      requires o < |program.deps|
      modifies `ready, `line, `spills, `cycleBeginHeap
      ensures Distinct(newReadyOps) && pending !! Elements(newReadyOps)
      ensures Good(program, St(), pending + Elements(newReadyOps), {}) && UsersKept()
      ensures ready ==
        TakenOff(program, old(ready), o).(inDegree := ready.inDegree, released := old(ready.released) + {o})
      ensures cycleBeginHeap != {}
      ensures program.WellFormed() && o < |program.tasks|
      ensures Later(old(St()), St(), Needs(program, old(ready.scheduled), o))
      ensures exists ops ::
        Demanded(program, old(St()), o, ops) &&
        Operations(line.pushed) == Operations(old(line.pushed)) + ops + [(o, Original)]
    {
      hide Operations, Demanded, Good, UsedNow, Program.IsDataOp, Program.WellFormed, Needs, Consistent,
        NoSpillWrites, InsertByBegin, ClocksGrow;
      ghost var before := St();
      GoodTasks(program, before, pending, {});
      var _, ops := ScheduleOp(o, Original, pending, {});
      ghost var mid := St();
      ready := ready.(dma := ready.dma - {o});
      GoodParts(program, before, pending, {});
      TakenListed(program, before.ready, pending, o);
      ListedOpDone(program, before, mid, St(), pending, o);
      ghost var taken := St();
      DmaFacts(program, before, taken, pending, o);
      newReadyOps := ReduceInDegreeOfAdjacentOperations(o, pending);
      ReadyChangeKeeps(program, taken, pending, {}, ready, pending + Elements(newReadyOps));
      SameUsers(program, taken, St());
    }

    /** Fourth part of `scheduleComputeOps`. */
    method ScheduleChosenDMA(chosen: seq<nat>) returns (readyOps: seq<nat>)
      requires Good(program, St(), {}, {}) && UsersKept() && NoSpillWrites(cycleBeginHeap) && Distinct(chosen)
      requires program.WellFormed() && Prompt(program, ready)
      requires forall o :: o in chosen ==> o in ready.dma
      modifies `ready, `line, `spills, `cycleBeginHeap
      ensures Good(program, St(), Elements(readyOps), {}) && UsersKept() && Forward(old(St()), St())
      ensures spills.alive == old(spills.alive) + NeedsOfAll(program, old(ready.scheduled), Elements(chosen))
      ensures Elements(chosen) <= ready.scheduled && Distinct(readyOps)
      ensures if chosen == [] then
        St() == old(St()) && readyOps == [] else cycleBeginHeap != {} && old(ready.scheduled) < ready.scheduled
      ensures SameWaiting(program, old(ready.scheduled), ready.scheduled) && old(ready.released) <= ready.released
      ensures Prompt(program, ready)
    {
      hide Good, UsersKept, UsedNow, Program.IsDataOp, Needs, NeedsOfAll, NoSpillWrites, Forward, Later, Prompt,
        SameWaiting, Elements, Distinct, Demanded, Operations, Program.WellFormed;
      ghost var start := St();
      ghost var inMemory := spills.alive + NeedsOfAll(program, ready.scheduled, Elements(chosen));
      ForwardSelf(start);
      SameWaitingSelf(program, ready.scheduled);
      readyOps := [];
      assert chosen[0..] == chosen;
      NothingListed();
      forall j | 0 <= j < |chosen|
        ensures chosen[j] in ready.dma
      {
        assert chosen[j] in chosen;
      }
      var i := 0;
      while i < |chosen|
        invariant i <= |chosen| && Good(program, St(), Elements(readyOps), {}) && UsersKept() && Forward(start, St())
        invariant NoSpillWrites(cycleBeginHeap)
        invariant Distinct(readyOps) && forall j :: i <= j < |chosen| ==> chosen[j] in ready.dma
        invariant SameWaiting(program, start.ready.scheduled, ready.scheduled)
        invariant start.ready.released <= ready.released && Prompt(program, ready)
        invariant inMemory == spills.alive + NeedsOfAll(program, ready.scheduled, Elements(chosen[i..]))
        invariant forall j :: 0 <= j < i ==> chosen[j] in ready.scheduled
        invariant if i == 0 then
          St() == start && readyOps == [] else cycleBeginHeap != {} && start.ready.scheduled < ready.scheduled
      {
        ghost var before, pending := St(), Elements(readyOps);
        GoodTasks(program, before, pending, {});
        var newReadyOps := ScheduleDMAOp(chosen[i], pending);
        DmaStep(program, start, before, St(), pending, chosen, i, inMemory);
        AppendElements(readyOps, newReadyOps);
        readyOps := readyOps + newReadyOps;
        i := i + 1;
      }
      NoElements(ready.scheduled, chosen, i);
      NeedsOfNone(program, ready.scheduled, Elements(chosen[i..]));
      ElementsWithin(chosen, ready.scheduled);
    }

    /** `sortAndAllocateBuffers`: these are the buffers that have come into memory since `aliveBefore`, all
        marked already. */
    method SortAndAllocateBuffers(buffersToAllocate: set<nat>, ghost aliveBefore: set<nat>) returns (outcome: Outcome)
      requires aliveBefore <= spills.alive && buffersToAllocate == spills.alive - aliveBefore
      modifies `spills, `asked
      ensures spills == old(spills) && asked == old(asked) + 1
      ensures outcome == if answers(old(asked)) then Done else Thrown(ALLOCATION_FAILED)
    {
      spills := spills.(alive := spills.alive + buffersToAllocate);
      var succeeded := Ask();
      outcome := if succeeded then Done else Thrown(ALLOCATION_FAILED);
    }

    /** The invariant, with `buffers` brought into memory since `start`. */
    ghost predicate Onward(start: Snapshot, buffers: set<nat>)
      reads this, liveRangeInfo
    {
      && Good(program, St(), {}, {}) && UsersKept() && Forward(start, St())
      && start.spills.alive <= spills.alive && buffers == spills.alive - start.spills.alive
      && Prompt(program, ready) && ExactQueues(program, ready.scheduled, computeOpOrder)
      && start.ready.released <= ready.released
    }

    /** First half of `scheduleComputeOps`: compute operations, and what can be prefetched with them. */
    method ScheduleReadyCompute()
      returns (outcome: Outcome, chosen: seq<nat>, buffersToAllocate: set<nat>, ghost order: seq<nat>)
      requires Running({}) && cycleBeginHeap == {} && NothingForgotten()
      modifies `ready, `line, `spills, `cycleBeginHeap, `computeOpOrder, `asked, `judged
      ensures asked >= old(asked) && judged >= old(judged)
      ensures outcome == Done ==> Onward(old(St()), buffersToAllocate) && NoSpillWrites(cycleBeginHeap)
      ensures outcome == Done ==> Forward(old(St()), St())
      ensures outcome == Done ==> if chosen == [] then
        St() == old(St()) && computeOpOrder == old(computeOpOrder) else
        cycleBeginHeap != {} && old(ready.scheduled) < ready.scheduled
      ensures HeadsChosen(old(computeOpOrder), old(ready), cycleEndHeap, {}, order)
      ensures asked >= old(asked) + |order| && chosen == Granted(answers, old(asked), order)
      ensures !Refused(old(asked)) ==> chosen == order
      ensures outcome == Done ==> Elements(chosen) <= ready.scheduled
      ensures outcome == Done && chosen != [] && !Refused(old(asked)) && !Declined(old(judged)) ==>
        NothingToPrefetch(program, St())
      ensures outcome.Thrown? ==>
        outcome.message == SPILL_CANDIDATE_GONE && program.WellFormed() && !DataBuffersPrivate(program) &&
        old(spills.readySpilled) != map[]
    {
      hide Good, UsersKept, UsedNow, Program.IsDataOp, Program.WellFormed, Needs, NeedsOfAll, Forward, Prefetching,
        InsertByBegin, ExactQueues, CacheFresh, DataBuffersPrivate, Prompt, Landed, SameWaiting, OutputsOpen,
        HeadsChosen, Chosen, RefusedWithin, NothingToPrefetch, Elements, Granted;
      ghost var start := St();
      outcome := Done;
      chosen, buffersToAllocate, order := ChooseComputeOps();
      GrantedAll(answers, old(asked), order);
      ghost var askedBefore := asked;
      ScheduleChosenCompute(chosen);
      ForwardFacts(start, St());
      SameWaitingKeeps(program, start.ready.scheduled + Elements(chosen), ready.scheduled, computeOpOrder);
      ghost var s := St();
      ForwardHeaps(start, s);
      BuffersAdd(start.spills.alive, start.spills.alive, NeedsOfAll(program, start.ready.scheduled, Elements(chosen)),
        spills.alive);
      if chosen != [] {
        outcome, buffersToAllocate := PrefetchOps(buffersToAllocate, {});
        RefusedSplit(answers, old(asked), askedBefore, asked);
        if outcome.Thrown? {
          return;
        }
        BuffersAdd(start.spills.alive, s.spills.alive, spills.alive, spills.alive);
        assert spills.alive + buffersToAllocate == spills.alive;
        ghost var prefetched := St();
        spills := spills.(alive := spills.alive + buffersToAllocate);
        assert St() == prefetched;
        PrefetchedKeeps(program, start, s, St(), {}, computeOpOrder);
      }
    }

    /** Second half of `scheduleComputeOps`: data movements, and what can be prefetched with them. */
    method ScheduleReadyDMA(buffers: set<nat>, ghost start: Snapshot)
      returns (outcome: Outcome, chosen: seq<nat>, buffersToAllocate: set<nat>, ghost order: seq<nat>)
      requires Onward(start, buffers) && NoSpillWrites(cycleBeginHeap)
      modifies `ready, `line, `spills, `cycleBeginHeap, `asked, `judged
      ensures asked >= old(asked) && judged >= old(judged)
      ensures outcome == Done ==> Onward(start, buffersToAllocate) && NoSpillWrites(cycleBeginHeap)
      ensures outcome == Done ==> if chosen == [] then
        St() == old(St()) else cycleBeginHeap != {} && old(ready.scheduled) < ready.scheduled
      ensures outcome == Done ==> old(cycleBeginHeap) <= cycleBeginHeap && Forward(old(St()), St())
      ensures outcome == Done ==> Forward(start, St())
      ensures Elements(order) == old(ready.dma)
      ensures asked >= old(asked) + |order| && chosen == Granted(answers, old(asked), order)
      ensures !Refused(old(asked)) ==> chosen == order
      ensures outcome == Done ==> Elements(chosen) <= ready.scheduled
      ensures outcome == Done && chosen != [] && !Refused(old(asked)) && !Declined(old(judged)) ==>
        NothingToPrefetch(program, St())
      ensures outcome.Thrown? ==>
        outcome.message == SPILL_CANDIDATE_GONE && program.WellFormed() && !DataBuffersPrivate(program) &&
        start.spills.readySpilled != map[]
    {
      hide Good, UsersKept, UsedNow, Program.IsDataOp, Program.WellFormed, Needs, NeedsOfAll, Forward, Prefetching,
        InsertByBegin, ExactQueues, OnlyListed, DataBuffersPrivate, Prompt, SameWaiting, RefusedWithin,
        NothingToPrefetch, Elements, Granted;
      ghost var before := St();
      outcome := Done;
      chosen, buffersToAllocate, order := ChooseDMAOps(buffers);
      GrantedAll(answers, old(asked), order);
      ghost var askedBefore := asked;
      var readyOps := ScheduleChosenDMA(chosen);
      BuffersAdd(start.spills.alive, before.spills.alive,
        NeedsOfAll(program, before.ready.scheduled, Elements(chosen)), spills.alive);
      SameWaitingKeeps(program, before.ready.scheduled, ready.scheduled, computeOpOrder);
      ForwardFacts(before, St());
      ForwardTransitive(start, before, St());
      ghost var s := St();
      Distribute(readyOps);
      PromptListed(program, s.ready, ready);
      ListedIsForward(program, start, s, ready);
      ListedIsForward(program, before, s, ready);
      ForwardFacts(start, St());
      s := St();
      if chosen != [] {
        outcome, buffersToAllocate := PrefetchOps(buffersToAllocate, {});
        RefusedSplit(answers, old(asked), askedBefore, asked);
        if outcome.Thrown? {
          return;
        }
        BuffersAdd(start.spills.alive, s.spills.alive, spills.alive, spills.alive);
        PrefetchedKeeps(program, start, s, St(), {}, computeOpOrder);
        PrefetchedKeeps(program, before, s, St(), {}, computeOpOrder);
      }
    }

    /** Last part of `scheduleComputeOps`: what has been brought in since `start` is allocated. */
    method AllocateBroughtIn(buffersToAllocate: set<nat>, ghost start: Snapshot) returns (outcome: Outcome)
      requires Onward(start, buffersToAllocate) && NoSpillWrites(cycleBeginHeap)
      requires Good(program, start, {}, {}) && start.begin == {} && Landed(start)
      requires CacheFresh(start, evictionCandidatesCache) && OutputsOpen(program, outputOps, start.done)
      requires cycleBeginHeap == {} ==> St() == start
      modifies `spills, `asked
      ensures St() == old(St()) && asked == old(asked) + 1
      ensures outcome == if answers(old(asked)) then Done else Thrown(ALLOCATION_FAILED)
      ensures Running({}) && NothingForgotten()
    {
      hide Good, UsersKept, UsedNow, Program.WellFormed, Forward, ExactQueues, CacheFresh, Prompt, Landed, OutputsOpen;
      outcome := SortAndAllocateBuffers(buffersToAllocate, start.spills.alive);
      assert St() == old(St());
      NotEvicting(start, St(), evictionCandidatesCache);
      ForwardHeaps(start, St());
      LandedAfter(program, start, St(), {}, {});
    }

    /** `scheduleComputeOps`: compute operations that are ready and fit into memory, with the data
        operations they need, data movements, and whatever can be prefetched.  Nothing that could be
        scheduled is left unless the allocator has refused something, and nothing that could be prefetched
        unless the heuristics have been against it. */
    method ScheduleComputeOps() returns (outcome: Outcome)
      requires Running({}) && cycleBeginHeap == {} && NothingForgotten()
      modifies `ready, `line, `spills, `cycleBeginHeap, `computeOpOrder, `asked, `judged
      ensures asked >= old(asked)
      ensures outcome == Done ==> Running({}) && NothingForgotten() && Forward(old(St()), St())
      ensures outcome == Done ==>
        if cycleBeginHeap == {} then St() == old(St()) else old(ready.scheduled) < ready.scheduled
      ensures outcome == Done && !Refused(old(asked)) ==>
        NothingPassedOver(old(computeOpOrder), old(ready), old(cycleEndHeap), ready.scheduled)
      ensures outcome == Done && cycleBeginHeap != {} && !Refused(old(asked)) && !Declined(old(judged)) ==>
        NothingToPrefetch(program, St())
      ensures outcome == Done && cycleBeginHeap == cycleEndHeap == {} && !Refused(old(asked)) ==>
        forall o: nat :: !Schedulable(program, ready, computeOpOrder, o)
      ensures outcome.Thrown? ==>
        || (outcome.message == ALLOCATION_FAILED && Refused(old(asked)))
        || (outcome.message == SPILL_CANDIDATE_GONE && program.WellFormed() && !DataBuffersPrivate(program)
            && old(spills.readySpilled) != map[])
    {
      hide Good, UsersKept, Program.IsDataOp, Program.WellFormed, Forward, ExactQueues, CacheFresh, DataBuffersPrivate,
        Prompt, Landed, OutputsOpen, HeadsChosen, Schedulable, Elements, NothingToPrefetch, NothingPassedOver,
        RefusedWithin, Onward, Granted;
      ghost var start, queues := St(), computeOpOrder;
      var chosen, chosenDMA, buffersToAllocate;
      ghost var order, orderDMA;
      outcome, chosen, buffersToAllocate, order := ScheduleReadyCompute();
      if outcome.Thrown? {
        return;
      }
      ghost var askedBefore, judgedBefore, mid := asked, judged, St();
      outcome, chosenDMA, buffersToAllocate, orderDMA := ScheduleReadyDMA(buffersToAllocate, start);
      RefusedSplit(answers, old(asked), askedBefore, asked);
      RefusedSplit(judgements, old(judged), judgedBefore, judged);
      if outcome.Thrown? {
        return;
      }
      outcome := AllocateBroughtIn(buffersToAllocate, start);
      if outcome.Thrown? {
        RefusedHere(answers, old(asked), asked - 1, asked);
        return;
      }
      RefusedGrows(answers, old(asked), asked - 1, asked);
      if !Refused(old(asked)) {
        ChosenPassed(queues, start, mid, St(), chosen);
        if cycleBeginHeap == cycleEndHeap == {} {
          NothingSchedulable(program, start, queues, chosen, chosenDMA);
        }
      }
    }

    /** `chooseCandidateForEviction`: directly after a spill write the search made for it is used
        again; its candidates are still in memory and still have the same writers. */
    method ChooseCandidateForEviction() returns (buffer: nat, writer: nat)
      requires Good(program, St(), {}, {}) && CacheFresh(St(), evictionCandidatesCache) && cycleBeginHeap == {}
      requires spills.alive != {}
      modifies `evictionCandidatesCache
      ensures buffer in spills.alive && buffer in line.producer && writer == line.producer[buffer]
      ensures buffer !in evictionCandidatesCache
      ensures CandidatesAlive(St(), evictionCandidatesCache)
      ensures if old(evictionCandidatesCache) != map[] && JustSpilled(scheduledOps) then
        buffer in old(evictionCandidatesCache) && evictionCandidatesCache == old(evictionCandidatesCache) - {buffer}
        else evictionCandidatesCache.Keys == spills.alive - {buffer}
    {
      hide Good;
      AliveIsWritten(program, St());
      if evictionCandidatesCache == map[] || scheduledOps == [] || !scheduledOps[|scheduledOps| - 1].IsSpillWriteOp() {
        evictionCandidatesCache := map b | b in spills.alive :: line.producer[b];
        var b :| b in spills.alive;
        assert b in evictionCandidatesCache;
      }
      buffer :| buffer in evictionCandidatesCache;
      writer := evictionCandidatesCache[buffer];
      evictionCandidatesCache := evictionCandidatesCache - {buffer};
    }

    /** `evictActiveOp`. */
    method EvictActiveOp(buffer: nat, writer: nat)
      requires writer in line.endCycles
      modifies `spills
      ensures spills == old(spills).Evict(buffer, writer)
    {
      spills := spills.(readySpilled := spills.readySpilled[buffer := writer]);
      var spilledOfWriter := if writer in spills.spillBuffers then spills.spillBuffers[writer] else {};
      spills := spills.(spillBuffers := spills.spillBuffers[writer := spilledOfWriter + {buffer}]);
      spills := spills.(alive := spills.alive - {buffer});
      spills := spills.(dynamicSpill := spills.dynamicSpill + {buffer});
    }

    /** The evicted buffer is written back: after its last use, and before anything that begins later. */
    method ScheduleSpillWrite(buffer: nat, writer: nat, ghost before: Snapshot) returns (e: HeapElement)
      requires St() == before.(spills := before.spills.Evict(buffer, writer))
      requires buffer < |program.spillCost| == |program.wideBuffer|
      requires QueuesReady(program, line.clocks) && writer in line.endCycles && ready.scheduled == line.endCycles.Keys
      requires program.WellFormed() && writer < |program.tasks| && buffer in program.tasks[writer].outputs
      requires buffer in before.spills.alive && buffer in before.line.producer
      requires writer == before.line.producer[buffer]
      modifies `ready, `line, `cycleBeginHeap
      ensures e.IsSpillWriteOp() && e.op == writer && e.buffer == buffer && FitsClocks(before.line.clocks, e)
      ensures FitsData(program, before.line, e)
      ensures Shaped(program, before.line.clocks, e)
      ensures St() == AfterSpillWrite(program, before, e)
      ensures CanWriteOut(program, before, e)
    {
      hide QueuesReady, Pushed, Advance, AlignTo, InsertByBegin, Program.WellFormed;
      var fragmented: bool := *;
      var spillType := if fragmented then SpillWriteFrag else SpillWrite;
      var depEndCycle := if buffer in line.lastUse then line.lastUse[buffer] else 0;
      var queue, mask, cycle := GetCurrentCycleAndExecutorInstanceMaskForSpill(buffer, false, depEndCycle);
      e := HeapElement(writer, queue, mask, cycle, cycle + program.spillCost[buffer], spillType, buffer);
      SpillWriteFits(program, before.line, e);
      PushToCycleBeginHeap(e);
      PushIgnoresClocks(program, before.line, e);
      PushedRest(program, before.line, e);
      UpdateCurrentCycleForExecutor(e, queue, mask, e.cycleEnd);
      AlignExecutors(e.cycleEnd);
      assert ready.scheduled == before.ready.scheduled;
      assert line == Pushed(program, before.line, e).(clocks := AlignTo(Advance(before.line.clocks, e), e.cycleEnd));
    }

    /** `forceScheduleActiveOpEviction`: when nothing is in flight and nothing fits, a buffer is
        spilled; the write begins after the last use of the buffer.  Fails only when memory holds nothing. */
    method ForceScheduleActiveOpEviction() returns (outcome: Outcome)
      requires Running({}) && cycleBeginHeap == {} && cycleEndHeap == {}
      modifies `ready, `line, `spills, `cycleBeginHeap, `evictionCandidatesCache
      ensures outcome == (if old(spills.alive) != {} then Done else Thrown(NOTHING_TO_SPILL))
      ensures outcome == Done ==> Running({}) && spills.alive < old(spills.alive) && ready == old(ready)
      ensures outcome == Done ==> program.WellFormed() && EvictedOne(program, old(St()), St())
      ensures outcome == Done ==> |cycleBeginHeap| == 1 && ClocksGrow(old(line.clocks), line.clocks)
    {
      hide Good, UsedNow, Pushed, Advance, AlignTo, ClocksGrow, InsertByBegin, CacheFresh, FitsData, Shaped,
        Program.WellFormed;
      if spills.alive == {} {
        return Thrown(NOTHING_TO_SPILL);
      }
      ghost var before := St();
      var buffer, writer := ChooseCandidateForEviction();
      CandidateFacts(program, before, buffer);
      EvictActiveOp(buffer, writer);
      var e := ScheduleSpillWrite(buffer, writer, before);
      SpillWriteKeeps(program, before, {}, {}, e);
      SpillReadTables(program, before.line, e);
      EvictedCache(before, St(), evictionCandidatesCache, e);
      forall x: nat | x < |program.tasks|
        ensures UsedNow(program, St(), x) == old(UsedNow(program, St(), x))
      {
        PushUsedNow(program, before, St(), e, x);
      }
      outcome := Done;
    }

    /** Element `nextOp` joins the schedule. */
    method MoveOne(nextOp: HeapElement)
      requires Good(program, St(), {}, {}) && UsersKept() && nextOp in cycleBeginHeap
      requires OutputsLeft(program, outputOps, line) && NothingForgotten()
      modifies `line, `cycleBeginHeap, `cycleEndHeap, `scheduledOps, `outputOps
      ensures NothingForgotten()
      ensures Good(program, St(), {}, {}) && UsersKept() && OutputsLeft(program, outputOps, line)
      ensures line == old(line) && cycleBeginHeap == old(cycleBeginHeap) - {nextOp}
      ensures scheduledOps == old(scheduledOps) + [nextOp]
      ensures cycleEndHeap <= old(cycleEndHeap) + {nextOp} && |cycleEndHeap| <= |old(cycleEndHeap)| + 1
      ensures |cycleBeginHeap| < |old(cycleBeginHeap)|
    {
      hide Good, UsedNow, InsertByEnd, OutputsLeft, Prompt, Landed, ExactQueues;
      ghost var before := St();
      OutputScheduled(program, before, outputOps, nextOp);
      scheduledOps := scheduledOps + [nextOp];
      InsertInOpIdxCycleEndMap(nextOp.op, nextOp.cycleEnd);
      EndAlreadyKnown(program, before, nextOp);
      cycleEndHeap := InsertByEnd(cycleEndHeap, nextOp);
      outputOps := outputOps - {nextOp.op};
      cycleBeginHeap := cycleBeginHeap - {nextOp};
      assert St() == AfterMove(before, nextOp);
      MoveKeeps(program, before, {}, {}, nextOp);
      LandedMove(program, before, nextOp);
      InsertedByEnd(before.end, nextOp);
      forall o: nat | o < |program.tasks|
        ensures UsedNow(program, St(), o) == UsedNow(program, before, o)
      {
        MoveUsedNow(program, before, nextOp, o);
      }
    }

    /** `moveFromCycleBeginToCycleEndHeap`: what has been scheduled joins the schedule, earliest first. */
    method MoveFromCycleBeginToCycleEndHeap()
      requires Running({}) && cycleBeginHeap != {} && OutputsLeft(program, outputOps, line) && NothingForgotten()
      modifies `line, `cycleBeginHeap, `cycleEndHeap, `scheduledOps, `outputOps
      ensures NothingForgotten()
      ensures Running({}) && cycleBeginHeap == {} && line == old(line) && OutputsLeft(program, outputOps, line)
      ensures Joined(old(cycleBeginHeap), old(scheduledOps), scheduledOps)
      ensures |cycleEndHeap| <= |old(cycleEndHeap)| + |old(cycleBeginHeap)|
    {
      hide Good, UsersKept, InsertByEnd, OutputsLeft, Joined, Joining, CacheFresh, LonelySpillWrites, BeginsBefore,
        NothingForgotten;
      ghost var start := St();
      GoodEmitted(program, start);
      JoiningNothing(start.begin, start.done);
      while cycleBeginHeap != {}
        invariant Good(program, St(), {}, {}) && UsersKept() && NothingForgotten()
        invariant Joining(start.begin, cycleBeginHeap, start.done, scheduledOps)
        invariant line == start.line && spills == start.spills && OutputsLeft(program, outputOps, line)
        invariant cycleEndHeap <= start.end + start.begin
        invariant |cycleEndHeap| + |cycleBeginHeap| <= |start.end| + |start.begin|
      {
        var nextOp := FirstToBegin(cycleBeginHeap);
        JoiningOne(start.begin, cycleBeginHeap, start.done, scheduledOps, nextOp);
        MoveOne(nextOp);
      }
      MovedCache(start, St(), evictionCandidatesCache);
      JoinedAll(start.begin, start.done, scheduledOps);
    }

    /** `schedulingLoop`: runs until all operations without consumers have been scheduled. It ends
        whatever the allocator answers: every round schedules an operation, evicts a buffer or moves
        something towards the end.  Nothing fails without a refusal by the allocator. */
    method SchedulingLoop() returns (outcome: Outcome)
      requires Running({}) && NothingForgotten() && OutputsLeft(program, outputOps, line)
      requires cycleBeginHeap == {} && spills.readySpilled == map[]
      modifies this, liveRangeInfo
      ensures outcome == Done ==>
        Running({}) && outputOps == {} && cycleBeginHeap == {} && OutputsLeft(program, outputOps, line)
      ensures outcome == Done ==> ClocksGrow(old(line.clocks), line.clocks)
      ensures outcome.Thrown? ==> Failure(program, outcome.message, Refused(old(asked)))
    {
      hide Good, UsersKept, UsedNow, OutputsLeft, CacheFresh, NothingForgotten, Joined, Forward, ClocksGrow,
        DataBuffersPrivate, Program.WellFormed;
      outcome := Done;
      ClocksGrowSelf(line.clocks);
      while outputOps != {}
        invariant Running({}) && NothingForgotten() && OutputsLeft(program, outputOps, line) && asked >= old(asked)
        invariant (outputOps == {} ==> cycleBeginHeap == {})
        invariant !Refused(old(asked)) ==> spills.readySpilled == map[]
        invariant outcome == Done && ClocksGrow(old(line.clocks), line.clocks)
        decreases AllOps(|program.tasks|) - ready.scheduled, spills.alive, 2 * |cycleBeginHeap| + |cycleEndHeap|
      {
        if cycleBeginHeap != {} {
          MoveFromCycleBeginToCycleEndHeap();
        } else {
          ghost var clocks, before := line.clocks, asked;
          ghost var ended;
          outcome, ended := ScheduleRound();
          RefusedLater(answers, old(asked), before, asked);
          if outcome.Thrown? {
            return;
          }
          ClocksGrowTransitive(old(line.clocks), clocks, line.clocks);
        }
      }
    }

    /** One round of `schedulingLoop` when the heap sorted by begin cycle is empty: elements end, what is ready
        is scheduled unless the allocator refuses it, and if nothing is in flight then, a buffer is evicted.
        There is nothing to spill only when the allocator has refused something in this very round. */
    method ScheduleRound() returns (outcome: Outcome, ghost ended: Snapshot)
      requires Running({}) && NothingForgotten() && OutputsLeft(program, outputOps, line)
      requires cycleBeginHeap == {} && outputOps != {}
      modifies `ready, `line, `spills, `cycleBeginHeap, `cycleEndHeap, `computeOpOrder, `evictionCandidatesCache,
        `asked, `judged, liveRangeInfo
      ensures asked >= old(asked)
      ensures outcome == Done ==> Running({}) && NothingForgotten() && OutputsLeft(program, outputOps, line)
      ensures outcome == Done ==> ClocksGrow(old(line.clocks), line.clocks)
      ensures outcome == Done && !Refused(old(asked)) && old(spills.readySpilled) == map[] ==>
        spills.readySpilled == map[]
      ensures outcome == Done ==>
        || AllOps(|program.tasks|) - ready.scheduled < AllOps(|program.tasks|) - old(ready.scheduled)
        || (ready.scheduled == old(ready.scheduled) && spills.alive < old(spills.alive))
        || (ready.scheduled == old(ready.scheduled) && spills.alive == old(spills.alive) && cycleBeginHeap == {} &&
          |cycleEndHeap| < old(|cycleEndHeap|))
      ensures outcome.Thrown? ==>
        Failure(program, outcome.message, Refused(old(asked)) || old(spills.readySpilled) != map[])
      ensures outcome == Thrown(NOTHING_TO_SPILL) ==> Refused(old(asked))
      ensures ended.ready.scheduled == old(ready.scheduled) && exists target: nat ::
        FirstFree(old(cycleEndHeap), old(line.clocks), target) && ended.end == EndingAfter(old(cycleEndHeap), target)
      ensures outcome == Done ==> if ready.scheduled == old(ready.scheduled) && ended.end == {} then
        program.WellFormed() && EvictedOne(program, ended, St()) else Forward(ended, St())
      ensures outcome == Done && !Refused(old(asked)) ==>
        NothingPassedOver(old(computeOpOrder), ended.ready, ended.end, ready.scheduled)
      ensures outcome == Done && !Refused(old(asked)) && !Declined(old(judged)) ==>
        ready.scheduled == old(ready.scheduled) || NothingToPrefetch(program, St())
    {
      hide Good, UsersKept, UsedNow, OutputsLeft, CacheFresh, ClocksGrow, Forward, FirstFree, EndingAfter, EvictedOne,
        DataBuffersPrivate, Program.WellFormed, Prompt, Landed, ExactQueues, OutputsOpen, Schedulable,
        NothingPassedOver, NothingToPrefetch, RefusedWithin;
      ghost var start := St();
      ScheduledKeys(program, start);
      UnscheduleAllCompletingOps();
      SmallerHeap(cycleEndHeap, start.end);
      ghost var s := St();
      ended := s;
      ScheduledKeys(program, s);
      outcome := ScheduleComputeOps();
      if outcome.Thrown? {
        return;
      }
      ScheduledKeys(program, St());
      ghost var t := St();
      RoundClocks(start, s, t);
      ForwardHeaps(s, t);
      if cycleBeginHeap == {} && cycleEndHeap == {} {
        if !Refused(old(asked)) {
          ghost var o := OutputToCome(program, t, outputOps);
          ghost var n := SomethingSchedulable(program, t, computeOpOrder, o);
          assert false;
        }
        outcome := ForceScheduleActiveOpEviction();
        if outcome.Thrown? {
          return;
        }
        EvictedLands(program, t, St());
        ScheduledKeys(program, St());
        ClocksGrowTransitive(start.line.clocks, t.line.clocks, line.clocks);
      }
      OutputsStayLeft(program, outputOps, start.line, line);
    }

    /** `initializeReadyLists`: operations without dependencies are ready. */
    method InitializeReadyLists()
      requires InDegreesSet(program, ready)
      modifies `ready
      ensures Consistent(program, ready, {}) && ready.scheduled == {} && Prompt(program, ready)
    {
      hide Consistent, OnlyListed;
      var operationsWithNoDependencies: seq<nat> := [];
      var left := ready.inDegree.Keys;
      while left != {}
        invariant left <= ready.inDegree.Keys && Distinct(operationsWithNoDependencies)
        invariant Elements(operationsWithNoDependencies) !! left
        invariant forall o :: o in operationsWithNoDependencies <==>
          o in ready.inDegree && o !in left && ready.inDegree[o] == 0
      {
        var o :| o in left;
        if ready.inDegree[o] == 0 {
          assert o !in Elements(operationsWithNoDependencies);
          operationsWithNoDependencies := operationsWithNoDependencies + [o];
        }
        left := left - {o};
      }
      StartsConsistent(program, ready, operationsWithNoDependencies);
      assert Elements(operationsWithNoDependencies) + {} == Elements(operationsWithNoDependencies);
      ghost var before := ready;
      DistributeReadyOps(operationsWithNoDependencies, {});
      OnlyListedScheduled(program, before, ready);
      PromptListed(program, before, ready);
    }

    /** The compute operations of each queue, in order. */
    method OrderComputeOps()
      requires program.WellFormed() && computeOpOrder == map[]
      modifies `computeOpOrder
      ensures ExactQueues(program, {}, computeOpOrder)
    {
      hide Program.WellFormed, Program.IsDataOp, Program.IsComputeOp;
      for computeOpIdx := 0 to |program.tasks|
        invariant forall q: nat :: QueueBelow(program, computeOpIdx, q, QueueOf(computeOpOrder, q))
      {
        ghost var before := computeOpOrder;
        if !program.IsDataOp(computeOpIdx) && program.IsComputeOp(computeOpIdx) {
          var queue := program.tasks[computeOpIdx].queue;
          var ops := if queue in computeOpOrder then computeOpOrder[queue] else [];
          computeOpOrder := computeOpOrder[queue := ops + [computeOpIdx]];
        }
        forall q: nat
          ensures QueueBelow(program, computeOpIdx + 1, q, QueueOf(computeOpOrder, q))
        {
          assert QueueBelow(program, computeOpIdx, q, QueueOf(before, q));
          QueueGrows(program, computeOpIdx, q, QueueOf(before, q), QueueOf(computeOpOrder, q));
        }
      }
      forall q: nat
        ensures ExactQueue(program, {}, q, QueueOf(computeOpOrder, q))
      {
        assert QueueBelow(program, |program.tasks|, q, QueueOf(computeOpOrder, q));
      }
    }

    method FindOutputOps(outDegreeTable: map<nat, nat>)
      modifies `outputOps
      ensures forall o :: o in outputOps <==>
        o in old(outputOps) || (o in outDegreeTable && outDegreeTable[o] == 0)
    {
      var left := outDegreeTable.Keys;
      while left != {}
        invariant left <= outDegreeTable.Keys
        invariant forall o :: o in outputOps <==>
          o in old(outputOps) || (o in outDegreeTable && o !in left && outDegreeTable[o] == 0)
      {
        var o :| o in left;
        if outDegreeTable[o] == 0 {
          outputOps := outputOps + {o};
        }
        left := left - {o};
      }
    }

    /** What a scheduler is before it has started. */
    ghost predicate Fresh()
      reads this
    {
      && ready == ReadyState(map[], {}, {}, {}, {}, {}) && line == Timeline(line.clocks, [], map[], map[], map[])
      && spills == SpillState(map[], map[], {}, {}) && cycleBeginHeap == cycleEndHeap == {} && outputOps == {}
      && scheduledOps == []
      && computeOpOrder == map[] && evictionCandidatesCache == map[]
    }

    /** `init`: without any operation there is no consumer map to be found. */
    method Init(depsInfo: AsyncDepsInfo) returns (outcome: Outcome)
      requires Fresh() && program.WellFormed() && program.BuffersWritten() && QueuesReady(program, line.clocks)
      requires depsInfo.Valid() && depsInfo.depsMap == program.deps && depsInfo.consumerMap == []
      requires liveRangeInfo.Valid()
      requires forall o :: 0 <= o < |program.tasks| ==> liveRangeInfo.GetUsedBuffers(o) == program.tasks[o].used
      modifies this, depsInfo
      ensures outcome == Done ==> Running({}) && NothingForgotten() && spills.readySpilled == map[]
      ensures outcome == Done ==> OutputsLeft(program, outputOps, line) && cycleBeginHeap == {}
      ensures outcome.Thrown? <==> program.tasks == []
      ensures line == old(line) && asked == old(asked)
    {
      hide Good, Consistent, Program.BuffersWritten, QueuesReady, Program.WellFormed, ExactQueues;
      depsInfo.BuildConsMap();
      ConsumersAreUnique(program, depsInfo.consumerMap);
      assert program.tasks == [] <==> depsInfo.consumerMap == [];
      var inDegreeTable := depsInfo.CalculateOpInDegreeTable();
      var outDegreeTable;
      outcome, outDegreeTable := depsInfo.CalculateOpOutDegreeTable();
      if outcome.Thrown? {
        return;
      }
      FindOutputOps(outDegreeTable);
      ready := ready.(inDegree := inDegreeTable);
      OrderComputeOps();
      InitializeReadyLists();
      StartsGood(program, St());
    }

    /** `generateSchedule`: the operations, prefetched or not, and the spills, sorted by time.  Every
        operation is in the schedule, once, after all its dependencies, and the schedule is good.  With an
        allocator that refuses nothing there always is a schedule. */
    method GenerateSchedule(depsInfo: AsyncDepsInfo) returns (outcome: Outcome, schedule: seq<HeapElement>)
      requires Fresh() && program.WellFormed() && program.BuffersWritten() && QueuesReady(program, line.clocks)
      requires depsInfo.Valid() && depsInfo.depsMap == program.deps && depsInfo.consumerMap == []
      requires liveRangeInfo.Valid()
      requires forall o :: 0 <= o < |program.tasks| ==> liveRangeInfo.GetUsedBuffers(o) == program.tasks[o].used
      modifies this, depsInfo, liveRangeInfo
      ensures outcome == Done ==> GoodSchedule(program, line.pushed) && (forall e :: e in schedule ==> e in line.pushed)
      ensures outcome == Done ==> forall e :: e in line.pushed && e !in schedule ==>
        !e.IsOriginalOp() && exists f :: f in schedule && f != e && SameBegin(f, e)
      ensures outcome == Done ==>
        EachOnce(program, schedule) && InDependencyOrder(program, schedule) && Sorted(schedule)
      ensures outcome == Done && ReadsApart(program, |old(line.clocks[program.readQueue])|) ==>
        multiset(schedule) == multiset(line.pushed)
      ensures (outcome == Done && LoadsFromOutside(program) &&
               Replayable(program, |old(line.clocks[program.readQueue])|)) ==>
        Cleanable(program, schedule) && StrictlyRuns(program, schedule, 0, Memory(map[], map[]))
      ensures (outcome == Done && ConflictsOrdered(program) &&
               Replayable(program, |old(line.clocks[program.readQueue])|)) ==>
        MeansProgram(program, schedule)
      ensures outcome.Thrown? ==> program.tasks == [] || Failure(program, outcome.message, Refused(old(asked)))
      ensures (forall n :: answers(n)) && program.tasks != [] ==> outcome == Done
    {
      hide Good, UsersKept, CacheFresh, NothingForgotten, OutputsLeft, DataBuffersPrivate, QueuesReady,
        Program.BuffersWritten, Fresh,
        EachOnce, InDependencyOrder, Sorted, GoodSchedule, Program.WellFormed, ReadsApart, ClocksGrow,
        TakesTime, InputsWritten, LoadsFromOutside, ConflictsOrdered, Cleanable, StrictlyRuns, MeansProgram;
      schedule := [];
      outcome := Init(depsInfo);
      if outcome.Thrown? {
        return;
      }
      outcome := SchedulingLoop();
      if outcome.Thrown? {
        return;
      }
      schedule := SortSchedule(scheduledOps);
      RunIsComplete(program, St(), outputOps, schedule);
      SameInstances(old(line.clocks), line.clocks, program.readQueue);
      if Replayable(program, |line.clocks[program.readQueue]|) {
        RunMeansProgram(program, St(), schedule);
      }
    }
  }
}
