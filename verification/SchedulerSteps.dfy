/** What the single steps of the memory scheduler do to its state. */
module SchedulerSteps {
  import opened Reachability
  import opened DependencyReduction
  import opened AsyncDeps
  import opened ScheduleProgram
  import opened ReadyLists
  import opened TimelineModule
  import opened ScheduleTrace
  import opened SpillMaps
  import opened SchedulerState
  import opened ScheduleOrder
  import opened Sequences

  function AllOps(n: nat): (ops: set<nat>)
    ensures forall o :: o in ops <==> 0 <= o < n
  {
    if n == 0 then {} else AllOps(n - 1) + {n - 1}
  }

  const NOTHING_TO_SPILL: string := "Scheduler failure, cannot schedule anything and there is no buffer to spill"
  const ALLOCATION_FAILED: string := "Failed to statically allocate"
  const SPILL_CANDIDATE_GONE: string := "Failed to find spill candidate"

  method FirstToBegin(heap: Heap) returns (e: HeapElement)
    requires heap != {}
    ensures e in heap && forall f :: f in heap ==> !BeginsBefore(f, e)
  {
    e :| e in heap;
    var left := heap - {e};
    while left != {}
      invariant e in heap && left <= heap && forall f :: f in heap && f !in left ==> !BeginsBefore(f, e)
    {
      var f :| f in left;
      if BeginsBefore(f, e) {
        e := f;
      }
      left := left - {f};
    }
  }

  ghost predicate ClockIs(clocks: Clocks, e: HeapElement, inst: nat, cycle: nat) {
    e.queue in clocks && inst < |clocks[e.queue]| && clocks[e.queue][inst] == cycle
  }

  ghost predicate ClockIsFrom(clocks: Clocks, e: HeapElement, inst: nat, cycle: nat) {
    e.queue in clocks && inst < |clocks[e.queue]| && cycle <= clocks[e.queue][inst]
  }

  /** The first cycle at which an executor instance of an element in `heap` is free. */
  ghost predicate FirstFree(heap: Heap, clocks: Clocks, target: nat) {
    && (forall e, inst :: e in heap && inst in e.mask ==> ClockIsFrom(clocks, e, inst, target))
    && (heap != {} ==> exists e, inst :: e in heap && inst in e.mask && ClockIs(clocks, e, inst, target))
  }

  ghost function EndingAfter(heap: Heap, target: nat): Heap {
    set e | e in heap && e.cycleEnd > target
  }

  lemma EndingAfterIs(heap: Heap, target: nat, left: Heap)
    requires left <= heap && (forall e :: e in left ==> e.cycleEnd > target)
    requires forall e :: e in heap && e.cycleEnd > target ==> e in left
    ensures left == EndingAfter(heap, target)
  {
  }

  method FirstToEnd(heap: Heap) returns (e: HeapElement)
    requires heap != {}
    ensures e in heap && forall f :: f in heap ==> e.cycleEnd <= f.cycleEnd
  {
    e :| e in heap;
    var left := heap - {e};
    while left != {}
      invariant e in heap && left <= heap && forall f :: f in heap && f !in left ==> e.cycleEnd <= f.cycleEnd
    {
      var f :| f in left;
      if f.cycleEnd < e.cycleEnd {
        e := f;
      }
      left := left - {f};
    }
  }

  /** Instance `i` is the first of those that are free first. */
  ghost predicate FreeFirst(cycles: seq<nat>, i: nat) {
    && i < |cycles| && (forall j :: 0 <= j < |cycles| ==> cycles[i] <= cycles[j])
    && forall j :: 0 <= j < i ==> cycles[i] < cycles[j]
  }

  lemma FreeFirstIsUnique(cycles: seq<nat>, i: nat, j: nat)
    requires FreeFirst(cycles, i) && FreeFirst(cycles, j)
    ensures i == j
  {
    assert cycles[i] == cycles[j];
  }

  /** The instances that an operation takes: all of them, or the one that is free first, for a data movement,
      and the first one for anything else. */
  ghost predicate RightMask(clocks: Clocks, task: Task, mask: set<nat>)
    requires task.queue in clocks
  {
    var cycles := clocks[task.queue];
    if task.executor != DmaNN then mask == {0}
    else if task.wide then forall i :: i in mask <==> 0 <= i < |cycles|
    else exists i :: mask == {i} && FreeFirst(cycles, i)
  }

  lemma RightMaskIsUnique(clocks: Clocks, task: Task, mask: set<nat>, other: set<nat>)
    requires task.queue in clocks && RightMask(clocks, task, mask) && RightMask(clocks, task, other)
    ensures mask == other
  {
    if task.executor == DmaNN && !task.wide {
      var i :| mask == {i} && FreeFirst(clocks[task.queue], i);
      var j :| other == {j} && FreeFirst(clocks[task.queue], j);
      FreeFirstIsUnique(clocks[task.queue], i, j);
    }
  }

  /** At `cycle` the instances are free and the dependencies have ended. */
  ghost predicate CanBegin(program: Program, line: Timeline, o: nat, mask: set<nat>, depEndCycle: nat, cycle: nat)
    requires o < |program.tasks| == |program.deps| && program.tasks[o].queue in line.clocks
    requires program.deps[o] <= line.endCycles.Keys
    requires forall i :: i in mask ==> i < |line.clocks[program.tasks[o].queue]|
  {
    && depEndCycle <= cycle && (forall i :: i in mask ==> line.clocks[program.tasks[o].queue][i] <= cycle)
    && (forall d :: d in program.deps[o] ==> line.endCycles[d] <= cycle)
  }

  /** Operation `o` can begin at `cycle`, with its buffers written. */
  ghost predicate CanStart(program: Program, line: Timeline, o: nat, mask: set<nat>, cycle: nat)
    requires o < |program.tasks| == |program.deps| && program.tasks[o].queue in line.clocks
    requires program.deps[o] <= line.endCycles.Keys
    requires forall i :: i in mask ==> i < |line.clocks[program.tasks[o].queue]|
  {
    && CanBegin(program, line, o, mask, 0, cycle)
    && forall b :: b in program.tasks[o].used && b in line.producer ==>
         line.producer[b] in line.endCycles && line.endCycles[line.producer[b]] <= cycle
  }

  lemma CanStartBounds(program: Program, line: Timeline, o: nat, mask: set<nat>)
    requires o < |program.tasks| == |program.deps| && program.tasks[o].queue in line.clocks
    requires program.deps[o] <= line.endCycles.Keys
    requires forall i :: i in mask ==> i < |line.clocks[program.tasks[o].queue]|
    requires forall b :: b in line.producer ==> line.producer[b] in line.endCycles
    ensures forall c: nat, b {:trigger CanStart(program, line, o, mask, c), line.producer[b]} ::
      CanStart(program, line, o, mask, c) && b in program.tasks[o].used && b in line.producer ==>
      line.endCycles[line.producer[b]] <= c
    ensures forall c: nat, d: nat
      {:trigger CanBegin(program, line, o, mask, 0, c), CanBegin(program, line, o, mask, 0, d)} ::
      CanBegin(program, line, o, mask, 0, c) && c <= d ==> CanBegin(program, line, o, mask, 0, d)
    ensures forall c: nat :: CanStart(program, line, o, mask, c) <==>
      CanBegin(program, line, o, mask, 0, c) &&
      forall b :: b in program.tasks[o].used && b in line.producer ==> line.endCycles[line.producer[b]] <= c
  {
  }

  /** `cycle` is the first at which the dependencies of `o` have ended and the instances that it takes are free. */
  ghost predicate BeginsFirst(program: Program, line: Timeline, o: nat, mask: set<nat>, cycle: nat) {
    && o < |program.tasks| == |program.deps| && program.tasks[o].queue in line.clocks
    && program.deps[o] <= line.endCycles.Keys
    && (forall i :: i in mask ==> i < |line.clocks[program.tasks[o].queue]|)
    && RightMask(line.clocks, program.tasks[o], mask) && CanBegin(program, line, o, mask, 0, cycle)
    && forall c: nat :: CanBegin(program, line, o, mask, 0, c) ==> cycle <= c
  }

  /** `cycle` is the first at which `o` can begin on the instances that it takes. */
  ghost predicate StartsFirst(program: Program, line: Timeline, o: nat, mask: set<nat>, cycle: nat) {
    && o < |program.tasks| == |program.deps| && program.tasks[o].queue in line.clocks
    && program.deps[o] <= line.endCycles.Keys
    && (forall i :: i in mask ==> i < |line.clocks[program.tasks[o].queue]|)
    && RightMask(line.clocks, program.tasks[o], mask) && CanStart(program, line, o, mask, cycle)
    && forall c: nat :: CanStart(program, line, o, mask, c) ==> cycle <= c
  }

  /** What begins no earlier than it can start begins when it can start. */
  lemma StartIs(program: Program, line: Timeline, o: nat, mask: set<nat>, start: nat, cycle: nat)
    requires exists other :: StartsFirst(program, line, o, other, start)
    requires o < |program.tasks| == |program.deps| && program.tasks[o].queue in line.clocks
    requires program.deps[o] <= line.endCycles.Keys
    requires forall i :: i in mask ==> i < |line.clocks[program.tasks[o].queue]|
    requires RightMask(line.clocks, program.tasks[o], mask) && CanBegin(program, line, o, mask, start, cycle)
    requires forall c :: CanBegin(program, line, o, mask, start, c) ==> cycle <= c
    ensures cycle == start && StartsFirst(program, line, o, mask, cycle)
    ensures forall b :: b in program.tasks[o].used && b in line.producer ==>
      line.producer[b] in line.endCycles && line.endCycles[line.producer[b]] <= start
  {
    var other :| StartsFirst(program, line, o, other, start);
    RightMaskIsUnique(line.clocks, program.tasks[o], mask, other);
    assert CanBegin(program, line, o, mask, start, start);
  }

  /** Operation `o` has been put on the time line `mid`, as early as it could be. */
  ghost predicate PlacedFirst(program: Program, mid: Timeline, line: Timeline, o: nat, opType: OpType) {
    exists mask, cycle :: PlacedAt(program, mid, line, o, opType, mask, cycle)
  }

  ghost predicate PlacedAt(program: Program, mid: Timeline, line: Timeline, o: nat, opType: OpType, mask: set<nat>,
                           cycle: nat)
  {
    && StartsFirst(program, mid, o, mask, cycle) && (opType == Original || opType == Prefetched)
    && var e := HeapElement(o, program.tasks[o].queue, mask, cycle, cycle + program.tasks[o].cost, opType, 0);
       line == Pushed(program, mid, e).(clocks := Advance(mid.clocks, e))
  }

  /** The cycle at which an operation can begin is one at which it fits. */
  lemma OpBegins(program: Program, line: Timeline, e: HeapElement, depEndCycle: nat)
    requires e.op < |program.tasks| == |program.deps| && e.IsOriginalOp() && e.queue == program.tasks[e.op].queue
    requires e.queue in line.clocks
    requires program.deps[e.op] <= line.endCycles.Keys && e.op !in line.endCycles
    requires e.mask != {} && (forall i :: i in e.mask ==> i < |line.clocks[e.queue]|) && e.cycleBegin <= e.cycleEnd
    requires CanBegin(program, line, e.op, e.mask, depEndCycle, e.cycleBegin)
    requires forall b :: b in program.tasks[e.op].used && b in line.producer ==>
      line.producer[b] in line.endCycles && line.endCycles[line.producer[b]] <= depEndCycle
    ensures FitsClocks(line.clocks, e) && FitsData(program, line, e)
  {
  }

  function UsedUntil(lastUse: map<nat, nat>, buffers: set<nat>, cycleEnd: nat): map<nat, nat> {
    map b | b in lastUse.Keys + buffers ::
      if b !in buffers then lastUse[b] else if b in lastUse then Max(lastUse[b], cycleEnd) else cycleEnd
  }

  lemma UsedUntilNone(lastUse: map<nat, nat>, cycleEnd: nat)
    ensures UsedUntil(lastUse, {}, cycleEnd) == lastUse
  {
  }

  lemma UsedUntilOne(lastUse: map<nat, nat>, buffers: set<nat>, buffer: nat, cycleEnd: nat)
    requires buffer !in buffers
    ensures var before := UsedUntil(lastUse, buffers, cycleEnd);
      UsedUntil(lastUse, buffers + {buffer}, cycleEnd) ==
        before[buffer := if buffer in before then Max(before[buffer], cycleEnd) else cycleEnd]
  {
  }

  function WrittenTo(producer: map<nat, nat>, buffers: set<nat>, o: nat): map<nat, nat> {
    map b | b in producer.Keys + buffers :: if b in buffers then o else producer[b]
  }

  lemma WrittenToNone(producer: map<nat, nat>, o: nat)
    ensures WrittenTo(producer, {}, o) == producer
  {
  }

  lemma WrittenToOne(producer: map<nat, nat>, buffers: set<nat>, buffer: nat, o: nat)
    ensures WrittenTo(producer, buffers + {buffer}, o) == WrittenTo(producer, buffers, o)[buffer := o]
  {
  }

  lemma PushedProducer(program: Program, line: Timeline, e: HeapElement)
    requires e.IsOriginalOp() ==> e.op < |program.tasks|
    ensures Pushed(program, line, e).producer == if e.IsSpillReadOp() then WrittenTo(line.producer, {e.buffer}, e.op)
      else if e.IsOriginalOp() then WrittenTo(line.producer, program.tasks[e.op].outputs, e.op) else line.producer
  {
  }

  lemma PushedUses(program: Program, line: Timeline, e: HeapElement)
    requires e.IsOriginalOp() ==> e.op < |program.tasks|
    ensures Pushed(program, line, e).lastUse == if e.IsSpillReadOp() then
      UsedUntil(line.lastUse, {e.buffer}, e.cycleEnd)
      else if e.IsOriginalOp() then
        UsedUntil(line.lastUse, program.tasks[e.op].outputs + program.tasks[e.op].inputs, e.cycleEnd)
      else line.lastUse
  {
  }

  lemma UsedTwice(lastUse: map<nat, nat>, first: set<nat>, second: set<nat>, cycleEnd: nat)
    ensures UsedUntil(UsedUntil(lastUse, first, cycleEnd), second, cycleEnd) ==
      UsedUntil(lastUse, first + second, cycleEnd)
  {
  }

  lemma PushedRest(program: Program, line: Timeline, e: HeapElement)
    requires e.IsOriginalOp() ==> e.op < |program.tasks|
    ensures var next := Pushed(program, line, e);
      && next.clocks == line.clocks && next.pushed == line.pushed + [e]
      && next.endCycles ==
        line.endCycles[e.op := if e.op in line.endCycles then Max(line.endCycles[e.op], e.cycleEnd) else e.cycleEnd]
  {
  }

  lemma SpilledFacts(program: Program, s: Snapshot, pending: set<nat>, exempt: set<nat>, b: nat)
    requires Good(program, s, pending, exempt) && b in s.spills.readySpilled
    ensures QueuesReady(program, s.line.clocks) && b < |program.spillCost| == |program.wideBuffer|
    ensures var p := s.spills.readySpilled[b];
      && p in s.spills.spillBuffers && b in s.spills.spillBuffers[p] && b in s.line.producer && p == s.line.producer[b]
      && p in s.line.endCycles && p in s.ready.scheduled && p < |program.tasks| && b in program.tasks[p].outputs
  {
    hide Consistent, Valid, InFlight, Emitted, Program.BuffersWritten, Traced;
    WriterFacts(program, s, pending, exempt, b);
  }

  lemma WriterFacts(program: Program, s: Snapshot, pending: set<nat>, exempt: set<nat>, b: nat)
    requires Good(program, s, pending, exempt) && b in s.line.producer
    ensures program.WellFormed() && s.line.producer[b] < |program.tasks|
    ensures b in program.tasks[s.line.producer[b]].outputs && s.line.producer[b] in s.line.endCycles
  {
    hide Consistent, InFlight, Emitted, Program.BuffersWritten, SpillState.Matches, QueuesReady, GoodSchedule, Traced;
  }

  lemma OneOf(s: set<nat>, b: nat)
    requires b in s
    ensures |s| > 1 <==> s - {b} != {}
  {
    assert |s - {b}| == |s| - 1;
  }

  /** The last thing on the time line is operation `o`, for as long as it takes. */
  ghost predicate JustScheduled(program: Program, pushed: seq<HeapElement>, o: nat, opType: OpType, cycleEnd: nat) {
    && pushed != [] && o < |program.tasks|
    && var e := pushed[|pushed| - 1];
    && e.op == o && e.opType == opType && e.queue == program.tasks[o].queue
    && e.cycleEnd == cycleEnd == e.cycleBegin + program.tasks[o].cost
  }

  /** The operations on the time line, in the order in which they were put there, and how. */
  ghost function Operations(pushed: seq<HeapElement>): seq<(nat, OpType)> {
    if pushed == [] then [] else
      var last := |pushed| - 1;
      Operations(pushed[..last]) + if pushed[last].IsOriginalOp() then [(pushed[last].op, pushed[last].opType)] else []
  }

  lemma OperationsPushed(program: Program, line: Timeline, e: HeapElement)
    requires e.IsOriginalOp() ==> e.op < |program.tasks|
    ensures Operations(Pushed(program, line, e).pushed) ==
      Operations(line.pushed) + if e.IsOriginalOp() then [(e.op, e.opType)] else []
  {
    PushedLast(program, line, e);
    assert (line.pushed + [e])[..|line.pushed|] == line.pushed;
  }

  ghost predicate Sooner(demand: map<nat, nat>, d: nat, c: nat)
    requires d in demand && c in demand
  {
    demand[d] < demand[c] || (demand[d] == demand[c] && d < c)
  }

  /** Exactly the operations of `demand`, those first that could begin first. */
  ghost predicate InDemandOrder(ops: seq<(nat, OpType)>, demand: map<nat, nat>) {
    Demanding(ops, demand, {})
  }

  /** Those of `left` are still to come. */
  ghost predicate Demanding(ops: seq<(nat, OpType)>, demand: map<nat, nat>, left: set<nat>) {
    && (forall i :: 0 <= i < |ops| ==> ops[i].0 in demand && ops[i].0 !in left && ops[i].1 == Original)
    && (forall d :: d in demand && d !in left ==> (d, Original) in ops)
    && (forall i, j :: 0 <= i < j < |ops| ==> Sooner(demand, ops[i].0, ops[j].0))
    && forall i, d :: 0 <= i < |ops| && d in left && d in demand ==> Sooner(demand, ops[i].0, d)
  }

  lemma DemandStarts(demand: map<nat, nat>)
    ensures Demanding([], demand, demand.Keys) && PartOf(demand, demand)
  {
  }

  lemma DemandingStep(ops: seq<(nat, OpType)>, demand: map<nat, nat>, left: set<nat>, d: nat)
    requires Demanding(ops, demand, left) && left <= demand.Keys && d in left
    requires forall c :: c in left ==> demand[d] < demand[c] || (demand[d] == demand[c] && d <= c)
    ensures Demanding(ops + [(d, Original)], demand, left - {d})
  {
    var next := ops + [(d, Original)];
    forall c | c in demand && c !in left - {d}
      ensures (c, Original) in next
    {
      assert next[|ops|] == (d, Original);
      assert c != d ==> (c, Original) in ops;
    }
  }

  ghost predicate PartOf(left: map<nat, nat>, demand: map<nat, nat>) {
    forall d :: d in left ==> d in demand && left[d] == demand[d]
  }

  lemma DemandTaken(ops: seq<(nat, OpType)>, demand: map<nat, nat>, left: map<nat, nat>, d: nat,
                    first: seq<(nat, OpType)>)
    requires PartOf(left, demand) && Demanding(ops, demand, left.Keys) && d in left
    requires forall c :: c in left ==> left[d] < left[c] || (left[d] == left[c] && d <= c)
    ensures Demanding(ops + [(d, Original)], demand, left.Keys - {d}) && PartOf(left - {d}, demand)
    ensures first + ops + [(d, Original)] == first + (ops + [(d, Original)])
  {
    DemandingStep(ops, demand, left.Keys, d);
  }

  /** The data operations that `o` waits for, by when each could begin once the buffers of `o` are in memory. */
  ghost predicate DemandAt(program: Program, start: Snapshot, mid: Snapshot, o: nat, demand: map<nat, nat>) {
    && o < |program.tasks| == |program.deps| && Later(start, mid, program.tasks[o].used)
    && demand.Keys == program.deps[o] - start.ready.scheduled
    && forall d :: d in demand ==> exists mask :: BeginsFirst(program, mid.line, d, mask, demand[d])
  }

  /** `ops` are the data operations that `o` still waits for, those first that could begin first. */
  ghost predicate Demanded(program: Program, start: Snapshot, o: nat, ops: seq<(nat, OpType)>) {
    exists mid: Snapshot, demand: map<nat, nat> ::
      DemandAt(program, start, mid, o, demand) && InDemandOrder(ops, demand)
  }

  lemma NothingDemanded(program: Program, start: Snapshot, o: nat, ops: seq<(nat, OpType)>)
    requires Demanded(program, start, o, ops) && program.deps[o] <= start.ready.scheduled
    ensures ops == []
  {
    hide Later, BeginsFirst, InDemandOrder;
    var mid: Snapshot, demand: map<nat, nat> :|
      DemandAt(program, start, mid, o, demand) && InDemandOrder(ops, demand);
    if ops != [] {
      FirstIsDemanded(ops, demand);
    }
  }

  lemma FirstIsDemanded(ops: seq<(nat, OpType)>, demand: map<nat, nat>)
    requires InDemandOrder(ops, demand) && ops != []
    ensures ops[0].0 in demand.Keys
  {
  }

  /** All operations put on the time line meanwhile have been prefetched. */
  ghost predicate OnlyPrefetched(before: seq<HeapElement>, after: seq<HeapElement>) {
    && Operations(before) <= Operations(after)
    && forall i :: |Operations(before)| <= i < |Operations(after)| ==> Operations(after)[i].1 == Prefetched
  }

  /** Element `e` reads a spilled buffer back: on all instances of the queue when the buffer is wide, on
      the one that is free first when it is not, and as soon as they are free. */
  ghost predicate CanReadBack(program: Program, s: Snapshot, e: HeapElement)
    requires program.WellFormed()
  {
    && NoSpillWrites(s.begin) && e.IsSpillReadOp() && e.buffer in s.spills.readySpilled
    && e.op == s.spills.readySpilled[e.buffer]
    && Shaped(program, s.line.clocks, e) && FitsClocks(s.line.clocks, e)
    && (!program.wideBuffer[e.buffer] ==> exists i :: e.mask == {i} && FreeFirst(s.line.clocks[e.queue], i))
    && (e.cycleBegin == 0 || exists i :: i in e.mask && s.line.clocks[e.queue][i] == e.cycleBegin)
  }

  /** Element `e` writes a buffer in memory out for the operation that wrote it last: on all instances of the
      queue when the buffer is wide, on the one that is free first when it is not, as soon as they are free and
      the buffer has been used. */
  ghost predicate CanWriteOut(program: Program, s: Snapshot, e: HeapElement)
    requires program.WellFormed()
  {
    && e.IsSpillWriteOp() && e.buffer in s.spills.alive && e.buffer in s.line.producer
    && e.op == s.line.producer[e.buffer] && Shaped(program, s.line.clocks, e) && FitsClocks(s.line.clocks, e)
    && (!program.wideBuffer[e.buffer] ==> exists i :: e.mask == {i} && FreeFirst(s.line.clocks[e.queue], i))
    && var used := if e.buffer in s.line.lastUse then s.line.lastUse[e.buffer] else 0;
       used <= e.cycleBegin
       && (e.cycleBegin == used || exists i :: i in e.mask && s.line.clocks[e.queue][i] == e.cycleBegin)
  }

  /** One buffer in memory is spilled for the operation that wrote it last, and written out. */
  ghost predicate EvictedOne(program: Program, before: Snapshot, after: Snapshot)
    requires program.WellFormed()
  {
    exists e :: CanWriteOut(program, before, e) && after == AfterSpillWrite(program, before, e)
  }

  lemma PushedLast(program: Program, line: Timeline, e: HeapElement)
    requires e.IsOriginalOp() ==> e.op < |program.tasks|
    ensures Pushed(program, line, e).pushed == line.pushed + [e]
  {
  }

  lemma PushIgnoresClocks(program: Program, line: Timeline, e: HeapElement)
    requires e.IsOriginalOp() ==> e.op < |program.tasks|
    ensures forall clocks :: Pushed(program, line.(clocks := clocks), e) == Pushed(program, line, e).(clocks := clocks)
  {
  }

  lemma SpilledAreDynamic(spills: SpillState, producer: map<nat, nat>)
    requires spills.Matches(producer)
    ensures spills.dynamicSpill == spills.readySpilled.Keys && spills.alive !! spills.dynamicSpill
    ensures forall b :: b in spills.readySpilled ==> b in producer && producer[b] == spills.readySpilled[b]
  {
  }

  lemma LaterSelf(program: Program, s: Snapshot, present: set<nat>)
    requires present <= s.spills.alive && s.spills.alive !! s.spills.readySpilled.Keys && NoSpillWrites(s.begin)
    ensures Later(s, s, present)
  {
  }

  lemma MarkedLater(program: Program, s: Snapshot, b: nat)
    requires b !in s.spills.readySpilled && NoSpillWrites(s.begin)
    ensures Later(s, s.(spills := s.spills.(alive := s.spills.alive + {b})), {b})
  {
  }

  lemma SameUsers(program: Program, s: Snapshot, next: Snapshot)
    requires next.begin == s.begin && next.end == s.end && next.line.endCycles.Keys == s.line.endCycles.Keys
    ensures forall o: nat :: o < |program.tasks| ==> UsedNow(program, next, o) == UsedNow(program, s, o)
  {
    forall o: nat | o < |program.tasks|
      ensures UsedNow(program, next, o) == UsedNow(program, s, o)
    {
      assert OpInFlight(next, o) <==> OpInFlight(s, o);
    }
  }

  lemma KeysWithout(m: map<nat, nat>, k: nat)
    requires k in m
    ensures (m - {k}).Keys + {k} == m.Keys && k !in m - {k} && |m - {k}| < |m|
  {
    assert (m - {k}).Keys == m.Keys - {k};
    assert |m.Keys| == |m| && |(m - {k}).Keys| == |m - {k}|;
  }

  method FirstDemand(demand: map<nat, nat>) returns (depIdx: nat)
    requires demand != map[]
    ensures depIdx in demand
    ensures forall d :: d in demand ==> demand[depIdx] < demand[d] || (demand[depIdx] == demand[d] && depIdx <= d)
  {
    depIdx :| depIdx in demand;
    var left := demand.Keys;
    while left != {}
      invariant left <= demand.Keys && depIdx in demand
      invariant forall d :: d in demand && d !in left ==>
        demand[depIdx] < demand[d] || (demand[depIdx] == demand[d] && depIdx <= d)
    {
      var d :| d in left;
      if demand[d] < demand[depIdx] || (demand[d] == demand[depIdx] && d < depIdx) {
        depIdx := d;
      }
      left := left - {d};
    }
  }

  /** Operation `o` is on one of the lists. */
  ghost predicate Listable(program: Program, r: ReadyState, o: nat) {
    o < |program.tasks| == |program.deps| && o in r.compute + r.dma + r.data && program.WellFormed()
  }

  /** Nothing is in flight on `queue`. */
  ghost predicate QueueFree(heap: Heap, queue: nat) {
    forall e :: e in heap ==> e.queue != queue
  }

  /** One of the answers from `from` to below `to` is no. */
  ghost predicate RefusedWithin(answers: nat -> bool, from: nat, to: nat) {
    exists n :: from <= n < to && !answers(n)
  }

  /** Of `all`, those of `order` have been looked at, `chosen` among them, and those of `left` have not. */
  ghost predicate LookedAt(order: seq<nat>, chosen: seq<nat>, left: set<nat>, all: set<nat>) {
    && Distinct(order) && Distinct(chosen) && Elements(chosen) <= Elements(order) && Elements(order) !! left
    && Elements(order) + left == all
  }

  lemma LookedAtStarts(all: set<nat>)
    ensures LookedAt([], [], all, all)
  {
    assert Elements([]) == {};
  }

  lemma LookedAtNext(order: seq<nat>, chosen: seq<nat>, left: set<nat>, all: set<nat>, o: nat)
    requires LookedAt(order, chosen, left, all) && o in left
    ensures LookedAt(order + [o], chosen, left - {o}, all) && LookedAt(order + [o], chosen + [o], left - {o}, all)
  {
    assert Elements(order + [o]) == Elements(order) + {o} && Elements(chosen + [o]) == Elements(chosen) + {o};
    assert o !in Elements(order) && o !in Elements(chosen);
    AppendDistinct(order, [o]);
    AppendDistinct(chosen, [o]);
  }

  lemma LookedAtEnds(order: seq<nat>, chosen: seq<nat>, all: set<nat>)
    requires LookedAt(order, chosen, {}, all)
    ensures Distinct(order) && Distinct(chosen) && Elements(order) == all && forall o :: o in chosen ==> o in all
  {
    assert forall o :: o in chosen ==> o in Elements(chosen);
  }

  /** Those of `asked` for which the answers from `from` on have been yes. */
  ghost function Granted(answers: nat -> bool, from: nat, asked: seq<nat>): (granted: seq<nat>)
    ensures |granted| <= |asked| && forall o :: o in granted ==> o in asked
  {
    if asked == [] then [] else
      var last := |asked| - 1;
      Granted(answers, from, asked[..last]) + if answers(from + last) then [asked[last]] else []
  }

  lemma GrantedStep(answers: nat -> bool, from: nat, asked: seq<nat>, o: nat)
    ensures Granted(answers, from, asked + [o]) ==
      Granted(answers, from, asked) + if answers(from + |asked|) then [o] else []
  {
    assert (asked + [o])[..|asked|] == asked;
  }

  /** Without a refusal all are granted. */
  lemma {:induction false} GrantedAll(answers: nat -> bool, from: nat, asked: seq<nat>)
    ensures !RefusedWithin(answers, from, from + |asked|) ==> Granted(answers, from, asked) == asked
    decreases |asked|
  {
    if asked != [] {
      GrantedAll(answers, from, asked[..|asked| - 1]);
    }
  }

  lemma NothingGranted(answers: nat -> bool, from: nat)
    ensures Granted(answers, from, []) == []
  {
  }

  /** Prefetching has stopped because of the last answer or the last judgement. */
  lemma StoppedHere(answers: nat -> bool, judgements: nat -> bool, asked: nat, a: nat, b: nat, judged: nat, j: nat,
                    k: nat)
    requires asked <= a && judged <= j && a <= b <= a + 1 && j < k
    requires (b == a + 1 && !answers(a)) || !judgements(k - 1)
    ensures RefusedWithin(answers, asked, b) || RefusedWithin(judgements, judged, k)
    ensures !RefusedWithin(answers, asked, a) && b > asked ==> !RefusedWithin(answers, asked, b - 1)
    ensures !RefusedWithin(answers, asked, a) && a > asked ==> answers(asked)
  {
  }

  lemma NoneRefused(answers: nat -> bool, from: nat, to: nat)
    requires !RefusedWithin(answers, from, to) && to > from
    ensures !RefusedWithin(answers, from, to - 1) && answers(from)
  {
  }

  lemma GrantedSoFar(answers: nat -> bool, from: nat, a: nat, b: nat)
    requires from <= a && !RefusedWithin(answers, from, a) && (b == a || (b == a + 1 && answers(a)))
    ensures !RefusedWithin(answers, from, b)
  {
  }

  lemma NothingRefused(answers: nat -> bool, from: nat)
    ensures !RefusedWithin(answers, from, from)
  {
  }

  lemma RefusedHere(answers: nat -> bool, from: nat, n: nat, to: nat)
    requires from <= n < to && !answers(n)
    ensures RefusedWithin(answers, from, to)
  {
  }

  lemma RefusedSplit(answers: nat -> bool, from: nat, mid: nat, to: nat)
    requires from <= mid <= to
    ensures RefusedWithin(answers, from, to) <==>
      RefusedWithin(answers, from, mid) || RefusedWithin(answers, mid, to)
  {
  }

  lemma RefusedGrows(answers: nat -> bool, from: nat, to: nat, later: nat)
    requires to <= later
    ensures RefusedWithin(answers, from, to) ==> RefusedWithin(answers, from, later)
  {
  }

  lemma RefusedLater(answers: nat -> bool, from: nat, later: nat, to: nat)
    requires from <= later
    ensures RefusedWithin(answers, later, to) ==> RefusedWithin(answers, from, to)
  {
  }

  /** The first operation of each queue not in `left` is chosen, if it is ready and nothing is in flight there. */
  ghost predicate HeadsChosen(order: map<nat, seq<nat>>, r: ReadyState, heap: Heap, left: set<nat>, chosen: seq<nat>) {
    forall q :: q in order && q !in left && order[q] != [] && QueueFree(heap, q) ==>
      order[q][0] in r.compute ==> order[q][0] in chosen
  }

  /** What has been chosen is ready, each on a queue of its own outside of `left` where nothing is in flight. */
  ghost predicate Chosen(program: Program, r: ReadyState, heap: Heap, left: set<nat>, chosen: seq<nat>) {
    Distinct(chosen) && forall o :: o in chosen ==>
      o in r.compute && Listable(program, r, o) && program.tasks[o].queue !in left &&
      QueueFree(heap, program.tasks[o].queue)
  }

  lemma ChosenGrows(program: Program, r: ReadyState, heap: Heap, left: set<nat>, chosen: seq<nat>, queue: nat, o: nat)
    requires Chosen(program, r, heap, left, chosen) && queue in left
    ensures Chosen(program, r, heap, left - {queue}, chosen)
    ensures o in r.compute && Listable(program, r, o) && QueueFree(heap, queue) && program.tasks[o].queue == queue ==>
      Chosen(program, r, heap, left - {queue}, chosen + [o])
  {
  }

  lemma AllHeadsLeft(program: Program, order: map<nat, seq<nat>>, r: ReadyState, heap: Heap)
    ensures HeadsChosen(order, r, heap, order.Keys, []) && Chosen(program, r, heap, order.Keys, [])
    ensures r.scheduled + Elements([]) == r.scheduled
  {
  }

  lemma HeadsNext(order: map<nat, seq<nat>>, r: ReadyState, heap: Heap, left: set<nat>, chosen: seq<nat>,
                  queue: nat, next: seq<nat>)
    requires HeadsChosen(order, r, heap, left, chosen) && chosen <= next && queue in order
    requires order[queue] != [] && QueueFree(heap, queue) && order[queue][0] in r.compute ==> order[queue][0] in next
    ensures HeadsChosen(order, r, heap, left - {queue}, next)
  {
    assert forall o :: o in chosen ==> o in next;
  }

  ghost predicate ListedFrom(program: Program, r: ReadyState, chosen: seq<nat>, i: nat) {
    forall j :: i <= j < |chosen| ==> chosen[j] in r.compute && chosen[j] < |program.tasks| == |program.deps|
  }

  lemma ListedAt(program: Program, r: ReadyState, chosen: seq<nat>, i: nat)
    requires ListedFrom(program, r, chosen, i) && i < |chosen| && program.WellFormed()
    ensures chosen[i] in r.compute && Listable(program, r, chosen[i])
  {
  }

  lemma NoElements(scheduled: set<nat>, chosen: seq<nat>, i: nat)
    requires i == |chosen|
    ensures Elements(chosen[i..]) == {} && scheduled + Elements(chosen[i..]) == scheduled
  {
  }

  lemma ChosenListed(program: Program, r: ReadyState, heap: Heap, chosen: seq<nat>)
    requires Chosen(program, r, heap, {}, chosen)
    ensures ListedFrom(program, r, chosen, 0) && Distinct(chosen)
  {
    forall j | 0 <= j < |chosen|
      ensures chosen[j] in r.compute && chosen[j] < |program.tasks| == |program.deps|
    {
      assert chosen[j] in chosen;
      assert Listable(program, r, chosen[j]);
    }
  }

  /** Data operations `deps` have moved from their list to the scheduled ones. */
  ghost function AfterDeps(r: ReadyState, deps: set<nat>): ReadyState {
    r.(data := r.data - deps, scheduled := r.scheduled + deps)
  }

  ghost function UsedByAll(program: Program, ops: set<nat>): set<nat> {
    set d, b | d in ops && d < |program.tasks| && b in program.tasks[d].used :: b
  }

  lemma OpFacts(program: Program, s: Snapshot, pending: set<nat>, exempt: set<nat>, o: nat)
    requires Good(program, s, pending, exempt) && Listable(program, s.ready, o)
    ensures o !in s.line.endCycles && o !in s.ready.scheduled && s.ready.scheduled == s.line.endCycles.Keys
    ensures |program.consumers| == |program.tasks|
    ensures program.tasks[o].queue in s.line.clocks && s.line.clocks[program.tasks[o].queue] != []
    ensures (forall b :: b in s.line.producer ==> s.line.producer[b] in s.line.endCycles)
    ensures program.IsDataOp(o) ==> program.deps[o] <= s.ready.scheduled
    ensures o !in program.deps[o]
  {
    hide InFlight, Emitted, Program.BuffersWritten, SpillState.Matches, GoodSchedule, Traced;
    assert o in s.ready.Listed();
    if program.IsDataOp(o) {
      forall d | d in program.deps[o]
        ensures d in s.ready.scheduled
      {
        ReadyDeps(program, s.ready, pending, o, d);
        DataOpDepsAreNot(program, o, d);
      }
    }
  }

  lemma DepFacts(program: Program, s: Snapshot, pending: set<nat>, exempt: set<nat>, o: nat, d: nat)
    requires Good(program, s, pending, exempt) && Listable(program, s.ready, o) && d in program.deps[o]
    ensures d < o
    ensures d in s.ready.scheduled || (d in s.ready.data && program.IsDataOp(d) && Listable(program, s.ready, d))
    ensures d in s.ready.scheduled || program.deps[d] <= s.line.endCycles.Keys
  {
    hide Good, Consistent, Program.IsDataOp;
    GoodParts(program, s, pending, exempt);
    ReadyDeps(program, s.ready, pending, o, d);
    if d !in s.ready.scheduled {
      OpFacts(program, s, pending, exempt, d);
    }
  }

  lemma LaterNothing(program: Program, start: Snapshot, brought: Snapshot, used: set<nat>)
    requires Later(start, brought, used)
    ensures Later(start, brought, used + UsedByAll(program, {})) && NoSpillWrites(brought.begin)
  {
    assert used + UsedByAll(program, {}) == used;
  }

  /** `missing` are the data operations that `o` waited for at `start`. */
  ghost predicate Missing(program: Program, start: Snapshot, o: nat, missing: set<nat>) {
    && Listable(program, start.ready, o) && missing == program.deps[o] - start.ready.scheduled
    && missing <= start.ready.data
    && forall d :: d in missing ==> d < o && program.IsDataOp(d)
  }

  lemma AfterNoDeps(r: ReadyState)
    ensures AfterDeps(r, {}) == r
  {
  }

  lemma MissingIs(program: Program, start: Snapshot, o: nat, missing: set<nat>)
    requires Listable(program, start.ready, o) && missing == program.deps[o] - start.ready.scheduled
    requires missing <= start.ready.data
    requires forall d :: d in missing ==> d < o && program.IsDataOp(d)
    ensures Missing(program, start, o, missing)
  {
  }

  lemma DemandFacts(program: Program, start: Snapshot, s: Snapshot, pending: set<nat>, exempt: set<nat>, o: nat,
                    missing: set<nat>, left: set<nat>, d: nat)
    requires Missing(program, start, o, missing) && left <= missing && d in left
    requires s.ready == AfterDeps(start.ready, missing - left)
    requires Good(program, s, pending, exempt)
    requires Later(start, s, program.tasks[o].used + UsedByAll(program, missing - left))
    ensures d < o && Listable(program, s.ready, d) && program.deps[d] <= s.ready.scheduled && d in s.ready.data
    ensures NoSpillWrites(s.begin)
  {
    hide Good, Program.IsDataOp, ClocksGrow;
    OpFacts(program, s, pending, exempt, d);
  }

  /** On which list a data operation is. */
  lemma TakenData(program: Program, r: ReadyState, pending: set<nat>, d: nat)
    requires Consistent(program, r, pending) && d in r.data
    ensures d !in r.compute && d !in r.dma && r.data !! r.scheduled
    ensures Taken(r, d) == r.(data := r.data - {d}, scheduled := r.scheduled + {d})
  {
    assert r.compute - {d} == r.compute && r.dma - {d} == r.dma;
  }

  lemma DemandStep(program: Program, start: Snapshot, before: Snapshot, after: Snapshot, o: nat, missing: set<nat>,
                   left: set<nat>, d: nat)
    requires Missing(program, start, o, missing) && left <= missing && d in missing && d !in left
    requires before.ready == AfterDeps(start.ready, missing - (left + {d}))
    requires after.ready == AfterDeps(before.ready, {d})
    requires Later(start, before, program.tasks[o].used + UsedByAll(program, missing - (left + {d})))
    requires Later(before, after, program.tasks[d].used)
    ensures after.ready == AfterDeps(start.ready, missing - left) && NoSpillWrites(before.begin)
    ensures Later(start, after, program.tasks[o].used + UsedByAll(program, missing - left))
  {
    hide Program.IsDataOp, Program.WellFormed, ClocksGrow;
    assert missing - left == (missing - (left + {d})) + {d};
    LaterTransitive(start, before, after, program.tasks[o].used + UsedByAll(program, missing - (left + {d})),
      program.tasks[d].used);
    assert UsedByAll(program, missing - left) == UsedByAll(program, missing - (left + {d})) + program.tasks[d].used;
    assert program.tasks[o].used + UsedByAll(program, missing - (left + {d})) + program.tasks[d].used ==
      program.tasks[o].used + UsedByAll(program, missing - left);
  }

  /** A data operation has been scheduled and leaves its list. */
  lemma DataOpDone(program: Program, before: Snapshot, mid: Snapshot, after: Snapshot, pending: set<nat>,
                   exempt: set<nat>, d: nat)
    requires Good(program, before, pending, exempt) && Listable(program, before.ready, d)
    requires program.deps[d] <= before.ready.scheduled && d in before.ready.data
    requires mid.ready == before.ready.(data := before.ready.data - program.deps[d],
                                        scheduled := before.ready.scheduled + program.deps[d] + {d})
    requires Good(program, mid.(ready := Taken(mid.ready, d)), pending, exempt)
    requires Later(before, mid, Needs(program, before.ready.scheduled, d))
    requires after == mid.(ready := mid.ready.(data := mid.ready.data - {d}))
    ensures after.ready == AfterDeps(before.ready, {d}) && Good(program, after, pending, exempt)
    ensures Later(before, after, program.tasks[d].used)
    ensures forall o: nat :: o < |program.tasks| ==> UsedNow(program, after, o) == UsedNow(program, mid, o)
  {
    hide Good, Consistent, Program.WellFormed, UsedNow, ClocksGrow;
    GoodParts(program, before, pending, exempt);
    TakenData(program, before.ready, pending, d);
    assert before.ready.data - program.deps[d] == before.ready.data;
    assert before.ready.scheduled + program.deps[d] == before.ready.scheduled;
    NeedsNothingMore(program, before.ready.scheduled, d);
    SameUsers(program, mid, after);
    TakenData(program, before.ready, pending, d);
    assert after.ready == Taken(before.ready, d);
    assert Taken(mid.ready, d) == Taken(before.ready, d);
  }

  lemma NeedsNothingMore(program: Program, scheduled: set<nat>, d: nat)
    requires program.WellFormed() && d < |program.tasks| && program.deps[d] <= scheduled
    ensures Needs(program, scheduled, d) == program.tasks[d].used
  {
  }

  lemma DemandDone(program: Program, start: Snapshot, s: Snapshot, pending: set<nat>, exempt: set<nat>, o: nat,
                   missing: set<nat>)
    requires Missing(program, start, o, missing) && s.ready == AfterDeps(start.ready, missing)
    requires Good(program, start, pending, exempt)
    requires Good(program, s, pending, exempt + program.tasks[o].used)
    requires Later(start, s, program.tasks[o].used + UsedByAll(program, missing))
    ensures s.ready == AfterDeps(start.ready, program.deps[o]) && program.deps[o] <= s.line.endCycles.Keys
    ensures o !in s.line.endCycles
    ensures Later(start, s, Needs(program, start.ready.scheduled, o)) && UsedNow(program, s, o) == program.tasks[o].used
    ensures program.tasks[o].queue in s.line.clocks && s.line.clocks[program.tasks[o].queue] != []
    ensures Listable(program, s.ready, o)
    ensures forall b :: b in s.line.producer ==> s.line.producer[b] in s.line.endCycles
  {
    hide Good, Program.IsDataOp, Later, Consistent, Program.WellFormed;
    GoodParts(program, start, pending, exempt);
    ListsApart(program, start.ready, pending);
    assert start.ready.data - missing == start.ready.data - program.deps[o];
    assert start.ready.scheduled + missing == start.ready.scheduled + program.deps[o];
    OpFacts(program, start, pending, exempt, o);
    OpFacts(program, s, pending, exempt + program.tasks[o].used, o);
    NeedsMissing(program, start.ready.scheduled, o, missing);
  }

  lemma ListsApart(program: Program, r: ReadyState, pending: set<nat>)
    requires Consistent(program, r, pending)
    ensures r.data !! r.scheduled && r.compute !! r.scheduled && r.dma !! r.scheduled
  {
  }

  lemma UsedIsNeeded(program: Program, scheduled: set<nat>, o: nat)
    requires program.WellFormed() && o < |program.tasks|
    ensures program.tasks[o].used <= Needs(program, scheduled, o)
  {
  }

  lemma NeedsMissing(program: Program, scheduled: set<nat>, o: nat, missing: set<nat>)
    requires program.WellFormed() && o < |program.tasks| && missing == program.deps[o] - scheduled
    ensures Needs(program, scheduled, o) == program.tasks[o].used + UsedByAll(program, missing)
  {
  }

  lemma OpDone(program: Program, start: Snapshot, before: Snapshot, after: Snapshot, pending: set<nat>,
               exempt: set<nat>, e: HeapElement)
    requires e.IsOriginalOp() && Listable(program, before.ready, e.op)
    requires Good(program, before, pending, exempt + program.tasks[e.op].used)
    requires Later(start, before, Needs(program, start.ready.scheduled, e.op)) && FitsClocks(before.line.clocks, e)
    requires FitsData(program, before.line, e)
    requires e.queue == program.tasks[e.op].queue && e.cycleEnd == e.cycleBegin + program.tasks[e.op].cost
    requires after == before.(ready := before.ready.(scheduled := before.ready.scheduled + {e.op}),
                              line := Pushed(program, before.line, e).(clocks := Advance(before.line.clocks, e)),
                              begin := InsertByBegin(before.begin, e))
    ensures Good(program, after.(ready := Taken(after.ready, e.op)), pending, exempt)
    ensures Later(start, after, Needs(program, start.ready.scheduled, e.op)) && after.begin != {}
    ensures forall o: nat :: o < |program.tasks| ==> UsedNow(program, after, o) == UsedNow(program, before, o)
  {
    hide Good, Pushed, Advance, UsedNow, Needs, Program.WellFormed, FitsData, FitsClocks, ClocksGrow;
    SpillsApart(program, before, pending, exempt + program.tasks[e.op].used);
    SpilledAreDynamic(before.spills, before.line.producer);
    UsedIsNeeded(program, start.ready.scheduled, e.op);
    OpKeeps(program, before, pending, exempt, e);
    assert after.(ready := Taken(after.ready, e.op)) == AfterOp(program, before, e);
    ClocksGrowTransitive(start.line.clocks, before.line.clocks, after.line.clocks);
    OpFacts(program, before, pending, exempt + program.tasks[e.op].used, e.op);
    OpTables(program, before.line, e);
    forall o: nat | o < |program.tasks|
      ensures UsedNow(program, after, o) == UsedNow(program, before, o)
    {
      PushUsedNow(program, before, after, e, o);
    }
  }

  lemma UnscheduledUses(program: Program, s: Snapshot, o: nat)
    requires o < |program.tasks| && o !in s.line.endCycles
    ensures UsedNow(program, s, o) == program.tasks[o].used
  {
  }

  lemma SpilledBuffersOf(program: Program, s: Snapshot, pending: set<nat>, exempt: set<nat>, p: nat)
    requires Good(program, s, pending, exempt) && p in s.spills.spillBuffers
    ensures s.spills.spillBuffers[p] != {} && s.spills.alive !! s.spills.readySpilled.Keys
    ensures forall b :: b in s.spills.spillBuffers[p] ==> b in s.spills.readySpilled && s.spills.readySpilled[b] == p
  {
    hide Consistent, Valid, InFlight, Emitted, Program.BuffersWritten, BuffersKept, QueuesReady, Traced;
  }

  /** Scheduling of data operations and reading back of spilled buffers only. */
  ghost predicate Prefetching(before: Snapshot, after: Snapshot) {
    && ClocksGrow(before.line.clocks, after.line.clocks) && before.begin <= after.begin && NoSpillWrites(after.begin)
    && after.end == before.end && after.done == before.done && before.spills.alive <= after.spills.alive
    && after.ready == before.ready.(data := after.ready.data, scheduled := after.ready.scheduled)
    && after.ready.data <= before.ready.data
    && after.ready.scheduled == before.ready.scheduled + (before.ready.data - after.ready.data)
    && after.spills.readySpilled.Keys <= before.spills.readySpilled.Keys
  }

  lemma PrefetchingSelf(s: Snapshot)
    requires NoSpillWrites(s.begin)
    ensures Prefetching(s, s)
  {
  }

  lemma PrefetchingAlive(before: Snapshot, after: Snapshot)
    requires Prefetching(before, after)
    ensures before.spills.alive <= after.spills.alive
  {
  }

  lemma PrefetchingTransitive(a: Snapshot, b: Snapshot, c: Snapshot)
    requires Prefetching(a, b) && Prefetching(b, c)
    ensures Prefetching(a, c)
  {
    hide ClocksGrow;
    ClocksGrowTransitive(a.line.clocks, b.line.clocks, c.line.clocks);
  }

  /** All that is spilled for some operation is used by data operations that are ready. */
  ghost predicate Overtaken(program: Program, s: Snapshot) {
    exists c :: OvertakenBy(program, s, s.ready.data, c)
  }

  ghost predicate OvertakenBy(program: Program, s: Snapshot, ops: set<nat>, c: nat) {
    c in s.spills.spillBuffers && s.spills.spillBuffers[c] <= UsedByAll(program, ops)
  }

  /** What is spilled for `c` at the start and not used by data operations is still spilled for it. */
  ghost predicate StillSpilled(program: Program, start: Snapshot, s: Snapshot, c: nat) {
    c in start.spills.spillBuffers ==>
      forall b :: b in start.spills.spillBuffers[c] && b !in UsedByAll(program, start.ready.data) ==>
        b in s.spills.readySpilled && s.spills.readySpilled[b] == c
  }

  /** The candidates from `i` on were there at the start, and as far as data operations leave them alone still are. */
  ghost predicate Candidates(program: Program, start: Snapshot, s: Snapshot, candidates: seq<nat>, i: nat) {
    && Distinct(candidates) && s.ready.data <= start.ready.data
    && (forall j :: 0 <= j < |candidates| ==>
          candidates[j] in start.ready.data || candidates[j] in start.spills.spillBuffers)
    && (forall j :: i <= j < |candidates| ==> candidates[j] in start.ready.data ==> candidates[j] in s.ready.data)
    && (forall j :: i <= j < |candidates| ==> StillSpilled(program, start, s, candidates[j]))
  }

  /** Since `start` nothing has been spilled or become ready, and the candidates before `i` are in memory. */
  ghost predicate BroughtIn(program: Program, start: Snapshot, s: Snapshot, candidates: seq<nat>, i: nat) {
    && s.spills.spillBuffers.Keys <= start.spills.spillBuffers.Keys && s.ready.data <= start.ready.data
    && forall j :: 0 <= j < i && j < |candidates| ==>
         candidates[j] !in s.spills.spillBuffers &&
         (candidates[j] in s.ready.data ==> InMemory(program, s, candidates[j]))
  }

  ghost predicate InMemory(program: Program, s: Snapshot, o: nat) {
    o < |program.tasks| && program.tasks[o].used <= s.spills.alive
  }

  /** No buffer is spilled, and data operations that are ready have theirs in memory. */
  ghost predicate NothingToPrefetch(program: Program, s: Snapshot) {
    s.spills.spillBuffers == map[] && forall d :: d in s.ready.data ==> InMemory(program, s, d)
  }

  /** The buffers that candidate `o` lacks. */
  ghost function Lacking(program: Program, s: Snapshot, o: nat): set<nat>
    requires o < |program.tasks| && (o in s.ready.data || o in s.spills.spillBuffers)
  {
    if o in s.ready.data then program.tasks[o].used - s.spills.alive else s.spills.spillBuffers[o]
  }

  lemma StillCandidates(program: Program, s: Snapshot, pending: set<nat>, candidates: seq<nat>)
    requires Good(program, s, pending, {}) && Distinct(candidates)
    requires forall o :: o in candidates ==> o in s.ready.data || o in s.spills.spillBuffers
    requires NoSpillWrites(s.begin)
    ensures Bringing(program, s, s, candidates, 0)
  {
    hide Good, UsedByAll, Distinct, NoSpillWrites;
    PrefetchingSelf(s);
    forall j | 0 <= j < |candidates|
      ensures StillSpilled(program, s, s, candidates[j])
    {
      if candidates[j] in s.spills.spillBuffers {
        SpilledBuffersOf(program, s, pending, {}, candidates[j]);
      }
    }
  }

  /** A candidate that is gone had all its buffers used by data operations. */
  lemma CandidateGone(program: Program, start: Snapshot, s: Snapshot, pending: set<nat>, candidates: seq<nat>, i: nat)
    requires Good(program, start, pending, {}) && Good(program, s, pending, {})
    requires Bringing(program, start, s, candidates, i) && i < |candidates|
    requires candidates[i] !in s.ready.data && candidates[i] !in s.spills.spillBuffers
    ensures OvertakenBy(program, start, start.ready.data, candidates[i]) && Overtaken(program, start)
  {
    hide Good, UsedByAll, Prefetching, BroughtIn;
    var c := candidates[i];
    SpillsApart(program, s, pending, {});
    assert StillSpilled(program, start, s, c) && c in start.spills.spillBuffers;
    forall b | b in start.spills.spillBuffers[c]
      ensures b in UsedByAll(program, start.ready.data)
    {
      assert b in s.spills.readySpilled ==> s.spills.readySpilled[b] in s.spills.spillBuffers;
    }
    assert OvertakenBy(program, start, start.ready.data, c);
  }

  /** A data operation that is ready shares no buffer with what is spilled for others, when no operation
      writes into the buffers of data operations without depending on them. */
  lemma PrivateNotOvertaken(program: Program, s: Snapshot, pending: set<nat>)
    requires Good(program, s, pending, {}) && Overtaken(program, s)
    ensures program.WellFormed() && !DataBuffersPrivate(program)
  {
    hide Good, Program.IsDataOp, Program.WellFormed;
    var c :| OvertakenBy(program, s, s.ready.data, c);
    SpilledBuffersOf(program, s, pending, {}, c);
    var b :| b in s.spills.spillBuffers[c];
    var d :| d in s.ready.data && d < |program.tasks| && b in program.tasks[d].used;
    ReadyIntruded(program, s, pending, d, c, b);
    assert Intrudes(program, c, d);
  }

  lemma ReadyIntruded(program: Program, s: Snapshot, pending: set<nat>, d: nat, c: nat, b: nat)
    requires Good(program, s, pending, {}) && d in s.ready.data && c in s.spills.spillBuffers
    requires b in s.spills.spillBuffers[c] && d < |program.tasks| && b in program.tasks[d].used
    ensures program.WellFormed() && c < |program.tasks| && Intrudes(program, c, d)
  {
    hide Good, Program.IsDataOp, Program.WellFormed;
    GoodParts(program, s, pending, {});
    DataOpReady(program, s, pending, d);
    SpilledAreOutputs(program, s, pending, c);
    if Reaches(DepEdges(program.deps), d, c) {
      AncestorScheduled(program, s.line, d, c);
      assert false;
    }
  }

  /** When an operation is scheduled, so is everything it depends on, directly or not. */
  lemma {:induction false} AncestorScheduled(program: Program, line: Timeline, d: nat, o: nat)
    requires program.WellFormed() && Valid(program, line) && o in line.endCycles
    requires Reaches(DepEdges(program.deps), d, o)
    ensures d in line.endCycles
    decreases o
  {
    hide Valid;
    var mid := LastStep(DepEdges(program.deps), d, o);
    assert mid in program.deps[o];
    DepScheduled(program, line, o, mid);
    if mid != d {
      AncestorScheduled(program, line, d, mid);
    }
  }

  lemma DataOpReady(program: Program, s: Snapshot, pending: set<nat>, d: nat)
    requires Good(program, s, pending, {}) && d in s.ready.data
    ensures Listable(program, s.ready, d) && program.IsDataOp(d) && program.deps[d] <= s.ready.scheduled
    ensures program.deps[d] <= s.line.endCycles.Keys
    ensures program.tasks[d].queue in s.line.clocks && s.line.clocks[program.tasks[d].queue] != []
    ensures d !in s.line.endCycles
  {
    hide Good, Program.IsDataOp;
    GoodParts(program, s, pending, {});
    OpFacts(program, s, pending, {}, d);
  }

  /** Of the operations with spilled buffers exactly those go for which all of them are needed. */
  lemma GoneExactlyWhenCovered(program: Program, before: Snapshot, after: Snapshot, pending: set<nat>, needs: set<nat>,
                               c: nat)
    requires Good(program, before, pending, {}) && Good(program, after, pending, {}) && Later(before, after, needs)
    requires c in before.spills.spillBuffers
    ensures c !in after.spills.spillBuffers <==> before.spills.spillBuffers[c] <= needs
  {
    hide Good, ClocksGrow;
    SpilledBuffersOf(program, before, pending, {}, c);
    SpillsApart(program, before, pending, {});
    SpillsApart(program, after, pending, {});
    if c in after.spills.spillBuffers {
      SpilledBuffersOf(program, after, pending, {}, c);
      var b :| b in after.spills.spillBuffers[c];
      assert b in before.spills.spillBuffers[c] && b !in needs;
    }
    if b :| b in before.spills.spillBuffers[c] && b !in needs {
      SpilledStays(program, before, after, c, b);
    }
  }

  /** The buffers spilled for `c` are its outputs, and `c` has been scheduled. */
  lemma SpilledAreOutputs(program: Program, s: Snapshot, pending: set<nat>, c: nat)
    requires Good(program, s, pending, {}) && c in s.spills.spillBuffers
    ensures c < |program.tasks| && s.spills.spillBuffers[c] <= program.tasks[c].outputs && c in s.line.endCycles
  {
    hide Good;
    SpilledBuffersOf(program, s, pending, {}, c);
    forall b | b in s.spills.spillBuffers[c]
      ensures c < |program.tasks| && b in program.tasks[c].outputs && c in s.line.endCycles
    {
      SpilledFacts(program, s, pending, {}, b);
      WriterFacts(program, s, pending, {}, b);
    }
  }

  /** Candidate `o` has been brought in: the data operation scheduled, or its spilled buffers read back. */
  ghost predicate BroughtInOne(program: Program, before: Snapshot, after: Snapshot, o: nat) {
    && o < |program.tasks|
    && Operations(after.line.pushed) ==
         Operations(before.line.pushed) + (if o in before.ready.data then [(o, Prefetched)] else [])
    && if o in before.ready.data then
         after.ready == AfterDeps(before.ready, {o}) && Later(before, after, program.tasks[o].used)
       else
         && o in before.spills.spillBuffers && after.ready == before.ready
         && Later(before, after, before.spills.spillBuffers[o])
  }

  lemma StillToBring(program: Program, start: Snapshot, before: Snapshot, after: Snapshot, pending: set<nat>,
                     candidates: seq<nat>, i: nat)
    requires Good(program, before, pending, {}) && Candidates(program, start, before, candidates, i)
    requires i < |candidates| && BroughtInOne(program, before, after, candidates[i])
    ensures Candidates(program, start, after, candidates, i + 1) && Prefetching(before, after)
  {
    hide Good, ClocksGrow, Program.IsDataOp, Program.WellFormed;
    var o := candidates[i];
    if o !in before.ready.data {
      SpilledBuffersOf(program, before, pending, {}, o);
    }
    forall j | i < j < |candidates|
      ensures StillSpilled(program, start, after, candidates[j])
    {
      assert StillSpilled(program, start, before, candidates[j]);
    }
  }

  /** What is still spilled for `c` was spilled for `c` before. */
  lemma SpilledBefore(program: Program, before: Snapshot, after: Snapshot, pending: set<nat>, needs: set<nat>, c: nat)
    requires Good(program, before, pending, {}) && Good(program, after, pending, {}) && Later(before, after, needs)
    requires c in after.spills.spillBuffers
    ensures c in before.spills.spillBuffers && !(before.spills.spillBuffers[c] <= needs)
  {
    hide Good, ClocksGrow;
    SpilledBuffersOf(program, after, pending, {}, c);
    SpillsApart(program, before, pending, {});
    var b :| b in after.spills.spillBuffers[c];
    assert b in before.spills.readySpilled && before.spills.readySpilled[b] == c;
    GoneExactlyWhenCovered(program, before, after, pending, needs, c);
  }

  lemma BroughtInNext(program: Program, start: Snapshot, before: Snapshot, after: Snapshot, pending: set<nat>,
                      candidates: seq<nat>, i: nat)
    requires Good(program, before, pending, {}) && Good(program, after, pending, {})
    requires BroughtIn(program, start, before, candidates, i)
    requires i < |candidates| && BroughtInOne(program, before, after, candidates[i])
    ensures BroughtIn(program, start, after, candidates, i + 1)
    ensures after.spills.alive - before.spills.alive == (if candidates[i] in before.ready.data then
      program.tasks[candidates[i]].used - before.spills.alive else before.spills.spillBuffers[candidates[i]])
  {
    hide Good, ClocksGrow, NoSpillWrites;
    var o := candidates[i];
    var needs := if o in before.ready.data then program.tasks[o].used else before.spills.spillBuffers[o];
    forall c | c in after.spills.spillBuffers
      ensures c in before.spills.spillBuffers && c != o
    {
      SpilledBefore(program, before, after, pending, needs, c);
      if c == o && o in before.ready.data {
        NotBoth(program, before, pending, o);
      }
    }
    if o !in before.ready.data {
      SpilledBuffersOf(program, before, pending, {}, o);
    }
  }

  /** A data operation that is ready has no spilled buffers. */
  lemma NotBoth(program: Program, s: Snapshot, pending: set<nat>, o: nat)
    requires Good(program, s, pending, {}) && o in s.ready.data
    ensures o !in s.spills.spillBuffers
  {
    hide Good;
    DataOpReady(program, s, pending, o);
    if o in s.spills.spillBuffers {
      SpilledAreOutputs(program, s, pending, o);
      assert false;
    }
  }

  /** A candidate of which all buffers are in memory needs nothing. */
  lemma NothingToBring(program: Program, start: Snapshot, s: Snapshot, pending: set<nat>, candidates: seq<nat>, i: nat)
    requires Good(program, s, pending, {}) && Bringing(program, start, s, candidates, i) && i < |candidates|
    requires candidates[i] < |program.tasks|
    requires if candidates[i] in s.ready.data then program.tasks[candidates[i]].used - s.spills.alive == {} else
      candidates[i] in s.spills.spillBuffers && s.spills.spillBuffers[candidates[i]] == {}
    ensures Bringing(program, start, s, candidates, i + 1)
  {
    hide Good, StillSpilled, Prefetching;
    if candidates[i] in s.ready.data {
      NotBoth(program, s, pending, candidates[i]);
      var used := program.tasks[candidates[i]].used;
      assert forall b :: b in used && b !in s.spills.alive ==> b in used - s.spills.alive;
    } else {
      SpilledBuffersOf(program, s, pending, {}, candidates[i]);
    }
  }

  /** The state while candidates are brought in, those before `i` done. */
  ghost predicate Bringing(program: Program, start: Snapshot, s: Snapshot, candidates: seq<nat>, i: nat) {
    && Prefetching(start, s) && Candidates(program, start, s, candidates, i)
    && BroughtIn(program, start, s, candidates, i) && OnlyPrefetched(start.line.pushed, s.line.pushed)
  }

  lemma BringingFacts(program: Program, start: Snapshot, s: Snapshot, candidates: seq<nat>, i: nat)
    requires Bringing(program, start, s, candidates, i)
    ensures Prefetching(start, s) && NoSpillWrites(s.begin) && start.spills.alive <= s.spills.alive
    ensures OnlyPrefetched(start.line.pushed, s.line.pushed)
  {
  }

  lemma OnePrefetched(program: Program, start: Snapshot, before: Snapshot, after: Snapshot, o: nat)
    requires OnlyPrefetched(start.line.pushed, before.line.pushed) && BroughtInOne(program, before, after, o)
    ensures OnlyPrefetched(start.line.pushed, after.line.pushed)
  {
    hide Operations, Later;
  }

  lemma BringingOne(program: Program, start: Snapshot, before: Snapshot, after: Snapshot, pending: set<nat>,
                    candidates: seq<nat>, i: nat, buffers: set<nat>)
    requires Good(program, before, pending, {}) && Good(program, after, pending, {})
    requires Bringing(program, start, before, candidates, i)
    requires i < |candidates| && BroughtInOne(program, before, after, candidates[i])
    requires buffers == if candidates[i] in before.ready.data then
      program.tasks[candidates[i]].used - before.spills.alive else before.spills.spillBuffers[candidates[i]]
    ensures Bringing(program, start, after, candidates, i + 1) && start.spills.alive <= after.spills.alive
    ensures before.spills.alive <= after.spills.alive && after.spills.alive - before.spills.alive == buffers
  {
    hide Good, Prefetching, BroughtIn, BroughtInOne, Candidates, OnlyPrefetched;
    OnePrefetched(program, start, before, after, candidates[i]);
    StillToBring(program, start, before, after, pending, candidates, i);
    BroughtInNext(program, start, before, after, pending, candidates, i);
    PrefetchingTransitive(start, before, after);
    PrefetchingAlive(start, before);
    PrefetchingAlive(before, after);
  }

  /** When all there is has been considered, nothing is left to prefetch. */
  lemma AllBroughtIn(program: Program, start: Snapshot, s: Snapshot, candidates: seq<nat>)
    requires Bringing(program, start, s, candidates, |candidates|)
    requires Elements(candidates) == start.ready.data + start.spills.spillBuffers.Keys
    ensures NothingToPrefetch(program, s)
  {
    forall c | c in start.ready.data + start.spills.spillBuffers.Keys
      ensures c !in s.spills.spillBuffers && (c in s.ready.data ==> InMemory(program, s, c))
    {
      assert c in Elements(candidates);
      var j :| 0 <= j < |candidates| && candidates[j] == c;
    }
    assert s.spills.spillBuffers.Keys == {};
  }

  /** Operation `o` and the data operations it waited for have left their lists. */
  ghost function TakenOff(program: Program, r: ReadyState, o: nat): ReadyState
    requires o < |program.deps|
  {
    r.(compute := r.compute - {o}, dma := r.dma - {o}, data := r.data - program.deps[o],
       scheduled := r.scheduled + program.deps[o] + {o})
  }

  /** A compute operation or a data movement that is no data operation leaves its list. */
  lemma ListedOpDone(program: Program, before: Snapshot, mid: Snapshot, after: Snapshot, pending: set<nat>, o: nat)
    requires Good(program, before, pending, {}) && Listable(program, before.ready, o)
    requires o in before.ready.compute + before.ready.dma
    requires mid.ready == before.ready.(data := before.ready.data - program.deps[o],
                                        scheduled := before.ready.scheduled + program.deps[o] + {o})
    requires Good(program, mid.(ready := Taken(mid.ready, o)), pending, {})
    requires Later(before, mid, Needs(program, before.ready.scheduled, o))
    requires after == mid.(ready := after.ready)
    requires after.ready == if o in before.ready.compute then
      mid.ready.(compute := mid.ready.compute - {o}) else mid.ready.(dma := mid.ready.dma - {o})
    ensures after.ready == TakenOff(program, before.ready, o) && Good(program, after, pending, {})
    ensures Later(before, after, Needs(program, before.ready.scheduled, o))
    ensures forall x: nat :: x < |program.tasks| ==> UsedNow(program, after, x) == UsedNow(program, mid, x)
  {
    hide Good, Consistent, Program.WellFormed, UsedNow, ClocksGrow, Needs;
    GoodParts(program, before, pending, {});
    TakenListed(program, before.ready, pending, o);
    SameUsers(program, mid, after);
    assert mid.ready.data - {o} == mid.ready.data;
    assert after.ready == Taken(mid.ready, o);
  }

  lemma TakenListed(program: Program, r: ReadyState, pending: set<nat>, o: nat)
    requires Consistent(program, r, pending) && o in r.compute + r.dma
    ensures o !in r.data && (o in r.compute <==> o !in r.dma)
    ensures o in r.compute ==> r.dma - {o} == r.dma
    ensures o in r.dma ==> r.compute - {o} == r.compute
  {
  }

  /** Operation `o` is a compute operation on `queue` that has not been scheduled. */
  ghost predicate WaitsOn(program: Program, scheduled: set<nat>, queue: nat, o: nat)
    requires program.WellFormed()
  {
    && o < |program.tasks| && program.tasks[o].queue == queue && !program.IsDataOp(o) && program.IsComputeOp(o)
    && o !in scheduled
  }

  /** Exactly the compute operations on `queue` that have not been scheduled, in program order. */
  ghost predicate ExactQueue(program: Program, scheduled: set<nat>, queue: nat, ops: seq<nat>)
    requires program.WellFormed()
  {
    && (forall i, j :: 0 <= i < j < |ops| ==> ops[i] < ops[j])
    && (forall o: nat :: o in ops <==> WaitsOn(program, scheduled, queue, o))
  }

  ghost function QueueOf(order: map<nat, seq<nat>>, queue: nat): seq<nat> {
    if queue in order then order[queue] else []
  }

  /** Each queue holds the compute operations of its own that have not been scheduled, in program order. */
  ghost predicate ExactQueues(program: Program, scheduled: set<nat>, order: map<nat, seq<nat>>) {
    program.WellFormed() && forall q: nat :: ExactQueue(program, scheduled, q, QueueOf(order, q))
  }

  lemma QueueHead(program: Program, scheduled: set<nat>, order: map<nat, seq<nat>>, queue: nat)
    requires ExactQueues(program, scheduled, order) && queue in order && order[queue] != []
    ensures WaitsOn(program, scheduled, queue, order[queue][0])
    ensures ExactQueues(program, scheduled + {order[queue][0]}, order[queue := order[queue][1..]])
  {
    var ops, next := order[queue], order[queue := order[queue][1..]];
    assert QueueOf(order, queue) == ops && ops[0] in ops;
    forall q: nat
      ensures ExactQueue(program, scheduled + {ops[0]}, q, QueueOf(next, q))
    {
      assert ExactQueue(program, scheduled, q, QueueOf(order, q));
      if q == queue {
        HeadLeaves(program, scheduled, queue, ops);
      } else {
        assert QueueOf(next, q) == QueueOf(order, q);
        forall o: nat
          ensures WaitsOn(program, scheduled + {ops[0]}, q, o) <==> WaitsOn(program, scheduled, q, o)
        {
        }
      }
    }
  }

  lemma ChosenHead(program: Program, scheduled: set<nat>, chosen: seq<nat>, order: map<nat, seq<nat>>, queue: nat)
    requires ExactQueues(program, scheduled + Elements(chosen), order) && queue in order && order[queue] != []
    ensures order[queue][0] < |program.tasks| && program.tasks[order[queue][0]].queue == queue
    ensures ExactQueues(program, scheduled + Elements(chosen + [order[queue][0]]), order[queue := order[queue][1..]])
    ensures NeedsOfAll(program, scheduled, Elements(chosen + [order[queue][0]])) ==
      NeedsOfAll(program, scheduled, Elements(chosen)) + Needs(program, scheduled, order[queue][0])
  {
    hide Program.WellFormed, Needs, NeedsOfAll, QueueOf;
    var head := order[queue][0];
    QueueHead(program, scheduled + Elements(chosen), order, queue);
    assert scheduled + Elements(chosen + [head]) == scheduled + Elements(chosen) + {head};
    ChosenMore(program, scheduled, chosen, head);
  }

  lemma HeadLeaves(program: Program, scheduled: set<nat>, queue: nat, ops: seq<nat>)
    requires program.WellFormed() && ExactQueue(program, scheduled, queue, ops) && ops != []
    ensures ExactQueue(program, scheduled + {ops[0]}, queue, ops[1..])
  {
    forall o: nat
      ensures o in ops[1..] <==> WaitsOn(program, scheduled + {ops[0]}, queue, o)
    {
      assert o in ops <==> o == ops[0] || o in ops[1..];
      if o in ops[1..] {
        var i :| 0 <= i < |ops| - 1 && ops[1..][i] == o;
        assert ops[0] < ops[i + 1];
      }
    }
  }

  /** What has been scheduled on top of `before` is on no queue of compute operations. */
  ghost predicate SameWaiting(program: Program, before: set<nat>, after: set<nat>) {
    && program.WellFormed() && before <= after
    && forall o :: o in after && o !in before && o < |program.tasks| ==> program.IsDataOp(o) || !program.IsComputeOp(o)
  }

  lemma SameWaitingKeeps(program: Program, before: set<nat>, after: set<nat>, order: map<nat, seq<nat>>)
    requires SameWaiting(program, before, after) && ExactQueues(program, before, order)
    ensures ExactQueues(program, after, order)
  {
    hide Program.WellFormed, Program.IsDataOp, QueueOf;
    forall q: nat
      ensures ExactQueue(program, after, q, QueueOf(order, q))
    {
      assert ExactQueue(program, before, q, QueueOf(order, q));
      assert forall o: nat :: WaitsOn(program, after, q, o) <==> WaitsOn(program, before, q, o);
    }
  }

  lemma SameWaitingSelf(program: Program, scheduled: set<nat>)
    requires program.WellFormed()
    ensures SameWaiting(program, scheduled, scheduled)
  {
  }

  lemma DmaWaiting(program: Program, s: Snapshot, pending: set<nat>, o: nat)
    requires Good(program, s, pending, {}) && Listable(program, s.ready, o) && o in s.ready.dma
    ensures SameWaiting(program, s.ready.scheduled, TakenOff(program, s.ready, o).scheduled)
  {
    hide Valid, InFlight, Emitted, SpillState.Matches, BuffersKept, QueuesReady, Traced, Program.IsDataOp,
      Program.BuffersWritten;
    TakenOffWaiting(program, s, pending, o, {});
  }

  lemma PrefetchedKeeps(program: Program, start: Snapshot, a: Snapshot, b: Snapshot, pending: set<nat>,
                        order: map<nat, seq<nat>>)
    requires Good(program, a, pending, {}) && Prefetching(a, b) && Prompt(program, a.ready)
    requires ExactQueues(program, a.ready.scheduled, order) && Forward(start, a)
    ensures ExactQueues(program, b.ready.scheduled, order) && Prompt(program, b.ready)
    ensures a.ready.released == b.ready.released && Forward(start, b) && NoSpillWrites(b.begin)
    ensures a.begin <= b.begin && a.ready.scheduled <= b.ready.scheduled
  {
    hide Good, Prompt, ExactQueues, Forward, SameWaiting;
    PromptPrefetched(program, a, b);
    PrefetchedWaiting(program, a, b, pending);
    SameWaitingKeeps(program, a.ready.scheduled, b.ready.scheduled, order);
    PrefetchingIsForward(a, b);
    ForwardTransitive(start, a, b);
  }

  lemma SameWaitingTransitive(program: Program, a: set<nat>, b: set<nat>, c: set<nat>)
    requires SameWaiting(program, a, b) && SameWaiting(program, b, c)
    ensures SameWaiting(program, a, c)
  {
  }

  /** Together with a listed operation only data operations are scheduled. */
  lemma TakenOffWaiting(program: Program, s: Snapshot, pending: set<nat>, o: nat, more: set<nat>)
    requires Good(program, s, pending, {}) && Listable(program, s.ready, o)
    ensures SameWaiting(program, s.ready.scheduled + {o} + more, TakenOff(program, s.ready, o).scheduled + more)
  {
    hide Good, Program.IsDataOp;
    forall d | d in program.deps[o]
      ensures d in s.ready.scheduled || (d < |program.tasks| && program.IsDataOp(d))
    {
      DepFacts(program, s, pending, {}, o, d);
    }
  }

  lemma PrefetchedWaiting(program: Program, a: Snapshot, b: Snapshot, pending: set<nat>)
    requires Good(program, a, pending, {}) && Prefetching(a, b)
    ensures SameWaiting(program, a.ready.scheduled, b.ready.scheduled)
  {
    hide Valid, InFlight, Emitted, SpillState.Matches, BuffersKept, QueuesReady, Traced, Program.IsDataOp;
  }

  // Nothing is forgotten

  /** Data operations have released their consumers when they are listed, and whatever is not a compute
      operation when it is scheduled. */
  ghost predicate Prompt(program: Program, r: ReadyState) {
    && r.data <= r.released
    && forall o :: o in r.scheduled && o !in r.released ==> o < |program.tasks| && program.IsComputeOp(o)
  }

  /** Whatever has been scheduled has released its consumers or is in flight. */
  ghost predicate Landed(s: Snapshot) {
    forall o :: o in s.ready.scheduled ==> o in s.ready.released || OpInFlight(s, o)
  }

  /** Nothing that is in the schedule is still waited for at the end. */
  ghost predicate OutputsOpen(program: Program, outputOps: set<nat>, done: seq<HeapElement>) {
    (forall o :: o in outputOps ==> o < |program.tasks|) && forall e :: e in done ==> e.op !in outputOps
  }

  lemma PromptListed(program: Program, before: ReadyState, after: ReadyState)
    requires Prompt(program, before) && OnlyListed(program, before, after)
    ensures Prompt(program, after) && before.released <= after.released && before.scheduled == after.scheduled
  {
  }

  lemma PromptPrefetched(program: Program, a: Snapshot, b: Snapshot)
    requires Prompt(program, a.ready) && Prefetching(a, b)
    ensures Prompt(program, b.ready) && a.ready.released == b.ready.released
  {
  }

  /** Operation `o` has been scheduled, and has released its consumers unless it is a compute operation. */
  lemma PromptTaken(program: Program, s: Snapshot, pending: set<nat>, o: nat, next: ReadyState)
    requires Good(program, s, pending, {}) && Listable(program, s.ready, o) && Prompt(program, s.ready)
    requires next == TakenOff(program, s.ready, o).(inDegree := next.inDegree, released := next.released)
    requires s.ready.released <= next.released && (o in next.released || o in s.ready.compute)
    ensures Prompt(program, next)
  {
    hide Good, Program.IsDataOp;
    ListedCompute(program, s, pending);
    forall d | d in program.deps[o]
      ensures d in s.ready.scheduled || d in s.ready.released
    {
      DepFacts(program, s, pending, {}, o, d);
    }
  }

  lemma ListedCompute(program: Program, s: Snapshot, pending: set<nat>)
    requires Good(program, s, pending, {})
    ensures forall o :: o in s.ready.compute ==> o < |program.tasks| && program.IsComputeOp(o)
  {
    hide Valid, InFlight, Emitted, SpillState.Matches, BuffersKept, QueuesReady, Traced, Program.BuffersWritten;
  }

  /** What has been scheduled since is about to join the schedule. */
  lemma NewInBegin(program: Program, a: Snapshot, b: Snapshot, pending: set<nat>, next: set<nat>, o: nat)
    requires Good(program, a, pending, {}) && Good(program, b, next, {}) && a.done == b.done
    requires o in b.ready.scheduled && o !in a.ready.scheduled
    ensures exists e :: e in b.begin && e.IsOriginalOp() && e.op == o
  {
    hide Good;
    var e := ElementOf(program, b, next, o);
    if e in a.done {
      DoneIsScheduled(program, a, pending, e);
    }
  }

  /** A scheduled operation is in the schedule or about to be. */
  lemma ElementOf(program: Program, s: Snapshot, pending: set<nat>, o: nat) returns (e: HeapElement)
    requires Good(program, s, pending, {}) && o in s.ready.scheduled
    ensures e.IsOriginalOp() && e.op == o && (e in s.done || e in s.begin)
  {
    hide Consistent, InFlight, SpillState.Matches, BuffersKept, QueuesReady, Traced, Program.BuffersWritten,
      GoodSchedule, ClocksRecorded, Program.WellFormed;
    assert HasOriginal(s.line.pushed, o);
    var i :| 0 <= i < |s.line.pushed| && s.line.pushed[i].IsOriginalOp() && s.line.pushed[i].op == o;
    e := s.line.pushed[i];
  }

  lemma DoneIsScheduled(program: Program, s: Snapshot, pending: set<nat>, e: HeapElement)
    requires Good(program, s, pending, {}) && e in s.done && e.IsOriginalOp()
    ensures e.op in s.ready.scheduled
  {
    hide Consistent, InFlight, SpillState.Matches, BuffersKept, QueuesReady, Traced, Program.BuffersWritten,
      GoodSchedule, ClocksRecorded, Program.WellFormed;
    assert e in s.line.pushed;
    var j :| 0 <= j < |s.line.pushed| && s.line.pushed[j] == e;
    assert HasOriginal(s.line.pushed, e.op);
  }

  lemma LandedAfter(program: Program, a: Snapshot, b: Snapshot, pending: set<nat>, next: set<nat>)
    requires Good(program, a, pending, {}) && Good(program, b, next, {}) && Landed(a)
    requires a.begin <= b.begin && a.end == b.end && a.done == b.done && a.ready.released <= b.ready.released
    ensures Landed(b)
  {
    hide Good;
    forall o | o in b.ready.scheduled
      ensures o in b.ready.released || OpInFlight(b, o)
    {
      if o !in a.ready.scheduled {
        NewInBegin(program, a, b, pending, next, o);
      } else if o !in a.ready.released {
        var e :| e in a.begin + a.end && e.IsOriginalOp() && e.op == o;
        assert e in b.begin + b.end;
      }
    }
  }

  /** An element leaves the heap sorted by end cycle, and its operation has released its consumers. */
  lemma LandedOne(program: Program, s: Snapshot, next: Snapshot, e: HeapElement)
    requires Landed(s) && Prompt(program, s.ready) && next.begin == s.begin && next.end == s.end - {e}
    requires next.ready == s.ready.(inDegree := next.ready.inDegree, released := next.ready.released)
    requires s.ready.released <= next.ready.released
    requires e.op in s.ready.scheduled && e.op < |program.tasks|
    requires e.IsOriginalOp() && program.IsComputeOp(e.op) ==> e.op in next.ready.released
    ensures Landed(next) && Prompt(program, next.ready)
  {
    forall o | o in next.ready.scheduled
      ensures o in next.ready.released || OpInFlight(next, o)
    {
      if o !in s.ready.released {
        var f :| f in s.begin + s.end && f.IsOriginalOp() && f.op == o;
        assert f != e ==> f in next.begin + next.end;
      }
    }
  }

  lemma LandedMove(program: Program, s: Snapshot, e: HeapElement)
    requires Landed(s) && Good(program, AfterMove(s, e), {}, {}) && Good(program, s, {}, {}) && e in s.begin
    ensures Landed(AfterMove(s, e))
  {
    hide Good, InsertByEnd, Consistent;
    MovedInFlight(program, s, e);
  }

  lemma MovedInFlight(program: Program, s: Snapshot, e: HeapElement)
    requires Good(program, s, {}, {}) && e in s.begin
    ensures forall o :: OpInFlight(s, o) ==> OpInFlight(AfterMove(s, e), o)
  {
    hide Good;
    MoveKeeps(program, s, {}, {}, e);
    forall o | OpInFlight(s, o)
      ensures OpInFlight(AfterMove(s, e), o)
    {
      MovedStays(program, s, e, o);
    }
  }

  lemma MovedStays(program: Program, s: Snapshot, e: HeapElement, o: nat)
    requires Good(program, s, {}, {}) && e in s.begin && OpInFlight(s, o)
    ensures OpInFlight(AfterMove(s, e), o)
  {
    hide Good, InFlight, Consistent, Valid;
    GoodParts(program, s, {}, {});
    KeptByEnd(s.end, e);
    if e.IsOriginalOp() {
      OriginalInserted(program, s, e);
    }
    var f :| f in s.begin + s.end && f.IsOriginalOp() && f.op == o;
    assert f in AfterMove(s, e).begin + AfterMove(s, e).end;
  }

  lemma OriginalInserted(program: Program, s: Snapshot, e: HeapElement)
    requires InFlight(program, s) && e in s.begin && e.IsOriginalOp()
    ensures e in InsertByEnd(s.end, e)
  {
    assert forall x :: x in s.end && SameEnd(x, e) ==> x in s.begin + s.end;
  }

  /** A data operation whose dependencies have been scheduled has released its consumers. */
  lemma DataReleased(program: Program, s: Snapshot, d: nat)
    requires Good(program, s, {}, {}) && Prompt(program, s.ready) && d < |program.tasks| && program.WellFormed()
    requires program.deps[d] <= s.ready.released && program.IsDataOp(d)
    ensures d in s.ready.released
  {
    hide Valid, InFlight, Emitted, SpillState.Matches, BuffersKept, QueuesReady, Traced, Program.BuffersWritten;
    assert Unlocked(program, s.ready, {}, d);
  }

  /** The first operation left that is no data operation waits for nothing. */
  lemma FirstLeftIsListed(program: Program, s: Snapshot, n: nat)
    requires Good(program, s, {}, {}) && Prompt(program, s.ready) && Landed(s) && s.begin == s.end == {}
    requires n < |program.tasks| && program.WellFormed() && n !in s.ready.scheduled && !program.IsDataOp(n)
    requires forall m :: 0 <= m < n && m !in s.ready.scheduled ==> program.IsDataOp(m)
    ensures if program.IsComputeOp(n) then n in s.ready.compute else n in s.ready.dma
  {
    hide Good;
    GoodParts(program, s, {}, {});
    forall d | d in program.deps[n]
      ensures d in s.ready.released
    {
      if d !in s.ready.scheduled {
        forall c | c in program.deps[d]
          ensures c in s.ready.released
        {
          DataOpDepsAreNot(program, d, c);
        }
        DataReleased(program, s, d);
      }
    }
    assert Unlocked(program, s.ready, {}, n);
  }

  /** Nothing has been chosen, and nothing refused. */
  lemma NothingSchedulable(program: Program, s: Snapshot, order: map<nat, seq<nat>>, chosen: seq<nat>,
                           chosenDMA: seq<nat>)
    requires HeadsChosen(order, s.ready, s.end, {}, chosen) && chosen == [] && s.end == {}
    requires Elements(chosenDMA) == s.ready.dma && chosenDMA == []
    ensures forall o: nat :: !Schedulable(program, s.ready, order, o)
  {
    assert Elements([]) == {};
    forall o: nat
      ensures !Schedulable(program, s.ready, order, o)
    {
      if o < |program.tasks| && QueueOf(order, program.tasks[o].queue) != [] {
        assert QueueFree(s.end, program.tasks[o].queue);
      }
    }
  }

  lemma OutputToCome(program: Program, s: Snapshot, outputOps: set<nat>) returns (o: nat)
    requires Good(program, s, {}, {}) && OutputsOpen(program, outputOps, s.done) && outputOps != {} && s.begin == {}
    ensures o < |program.tasks| && o !in s.ready.scheduled
  {
    hide Good;
    o :| o in outputOps;
    if o in s.ready.scheduled {
      var e := ElementOf(program, s, {}, o);
    }
  }

  /** Nothing that was scheduled is forgotten when a buffer is written out. */
  lemma EvictedLands(program: Program, before: Snapshot, after: Snapshot)
    requires Good(program, before, {}, {}) && Good(program, after, {}, {}) && Landed(before)
    requires before.begin == {} && before.end == after.end && before.done == after.done && before.ready == after.ready
    ensures Landed(after)
  {
    hide Good;
    LandedAfter(program, before, after, {}, {});
  }

  /** The compute operations on `queue` below `n` that are no data operations, in program order. */
  ghost predicate QueueBelow(program: Program, n: nat, queue: nat, ops: seq<nat>)
    requires program.WellFormed()
  {
    && (forall i, j :: 0 <= i < j < |ops| ==> ops[i] < ops[j])
    && (forall o: nat :: o in ops <==> o < n && WaitsOn(program, {}, queue, o))
  }

  lemma QueueGrows(program: Program, n: nat, queue: nat, ops: seq<nat>, next: seq<nat>)
    requires program.WellFormed() && n < |program.tasks| && QueueBelow(program, n, queue, ops)
    requires next == if WaitsOn(program, {}, queue, n) then ops + [n] else ops
    ensures QueueBelow(program, n + 1, queue, next)
  {
    hide Program.IsDataOp, Program.WellFormed;
    forall i | 0 <= i < |ops|
      ensures ops[i] < n
    {
      assert ops[i] in ops;
    }
    forall o: nat
      ensures o in next <==> o < n + 1 && WaitsOn(program, {}, queue, o)
    {
    }
  }

  lemma ForwardHeaps(a: Snapshot, b: Snapshot)
    requires Forward(a, b)
    ensures a.begin <= b.begin && a.end == b.end && a.done == b.done
    ensures a.spills.readySpilled == map[] ==> b.spills.readySpilled == map[]
  {
    assert a.spills.readySpilled == map[] ==> b.spills.readySpilled.Keys == {};
  }

  /** Where a candidate is overtaken, something has been spilled. */
  lemma OvertakenIsSpilled(program: Program, s: Snapshot, pending: set<nat>)
    requires Good(program, s, pending, {}) && Overtaken(program, s)
    ensures s.spills.readySpilled != map[]
  {
    hide Good;
    var c :| OvertakenBy(program, s, s.ready.data, c);
    SpilledBuffersOf(program, s, pending, {}, c);
  }

  lemma FirstLeft(program: Program, scheduled: set<nat>, n: nat) returns (m: nat)
    requires program.WellFormed() && n < |program.tasks| && n !in scheduled && !program.IsDataOp(n)
    ensures m <= n && m !in scheduled && !program.IsDataOp(m)
    ensures forall k :: 0 <= k < m && k !in scheduled ==> program.IsDataOp(k)
  {
    m := 0;
    while m in scheduled || program.IsDataOp(m)
      invariant m <= n && forall k :: 0 <= k < m && k !in scheduled ==> program.IsDataOp(k)
      decreases n - m
    {
      m := m + 1;
    }
  }

  /** Operation `o` can be scheduled as soon as the allocator has room: it is a data movement that is ready,
      or a compute operation that is ready and first on its queue. */
  ghost predicate Schedulable(program: Program, r: ReadyState, order: map<nat, seq<nat>>, o: nat) {
    || o in r.dma
    || (o in r.compute && o < |program.tasks| && QueueOf(order, program.tasks[o].queue) != []
        && QueueOf(order, program.tasks[o].queue)[0] == o)
  }

  /** Data movements that were ready, and the first operation of each queue if it was ready and nothing in flight
      there, have been scheduled. */
  ghost predicate NothingPassedOver(order: map<nat, seq<nat>>, r: ReadyState, heap: Heap, scheduled: set<nat>) {
    && r.dma <= scheduled
    && forall q :: q in order && order[q] != [] && QueueFree(heap, q) && order[q][0] in r.compute ==>
         order[q][0] in scheduled
  }

  /** What comes into memory first and what comes then. */
  lemma BuffersAdd(start: set<nat>, before: set<nat>, needs: set<nat>, after: set<nat>)
    requires start <= before && after == before + needs
    ensures (before - start) + (needs - before) == after - start
    ensures (before - start) + (after - before) == after - start
  {
  }

  lemma ElementsWithin(ops: seq<nat>, scheduled: set<nat>)
    requires forall j :: 0 <= j < |ops| ==> ops[j] in scheduled
    ensures Elements(ops) <= scheduled
  {
  }

  lemma ChosenPassed(order: map<nat, seq<nat>>, start: Snapshot, mid: Snapshot, after: Snapshot, chosen: seq<nat>)
    requires HeadsChosen(order, start.ready, start.end, {}, chosen) && Elements(chosen) <= mid.ready.scheduled
    requires Forward(start, mid) && Forward(mid, after) && mid.ready.dma <= after.ready.scheduled
    ensures NothingPassedOver(order, start.ready, start.end, after.ready.scheduled)
  {
    assert forall o :: o in chosen ==> o in Elements(chosen);
  }

  /** With nothing in flight and something left to do, some operation can be scheduled. */
  lemma SomethingSchedulable(program: Program, s: Snapshot, order: map<nat, seq<nat>>, o: nat) returns (n: nat)
    requires Good(program, s, {}, {}) && Prompt(program, s.ready) && Landed(s) && s.begin == s.end == {}
    requires ExactQueues(program, s.ready.scheduled, order) && o < |program.tasks| && o !in s.ready.scheduled
    ensures Schedulable(program, s.ready, order, n)
  {
    hide Good, Consistent;
    GoodParts(program, s, {}, {});
    var left := o;
    if program.IsDataOp(o) {
      left := DataOpIsAwaited(program, s, o);
    }
    n := FirstLeft(program, s.ready.scheduled, left);
    FirstLeftIsListed(program, s, n);
    if program.IsComputeOp(n) {
      var queue := program.tasks[n].queue;
      assert ExactQueue(program, s.ready.scheduled, queue, QueueOf(order, queue));
      assert WaitsOn(program, s.ready.scheduled, queue, n);
      var head := QueueOf(order, queue)[0];
      assert head in QueueOf(order, queue);
      assert WaitsOn(program, s.ready.scheduled, queue, head);
    }
  }

  /** A data operation that has not been scheduled has a consumer that has not. */
  lemma DataOpIsAwaited(program: Program, s: Snapshot, d: nat) returns (c: nat)
    requires Good(program, s, {}, {}) && d < |program.tasks| && program.WellFormed()
    requires program.IsDataOp(d) && d !in s.ready.scheduled
    ensures c < |program.tasks| && c !in s.ready.scheduled && !program.IsDataOp(c)
  {
    hide Good;
    GoodParts(program, s, {}, {});
    c :| c in program.consumers[d];
    assert d in program.deps[c];
    if c in s.ready.scheduled {
      DepScheduled(program, s.line, c, d);
    }
  }

  lemma GoodTasks(program: Program, s: Snapshot, pending: set<nat>, exempt: set<nat>)
    requires Good(program, s, pending, exempt)
    ensures program.WellFormed() && |program.deps| == |program.tasks|
    ensures NeedsOfAll(program, s.ready.scheduled, Elements([])) == {}
    ensures forall o :: o in s.ready.compute || o in s.ready.dma || o in s.ready.data ==> Listable(program, s.ready, o)
  {
    hide Valid, InFlight, Emitted, SpillState.Matches, BuffersKept, QueuesReady, Traced;
    assert Elements([]) == {};
  }

  lemma ChosenMore(program: Program, scheduled: set<nat>, chosen: seq<nat>, o: nat)
    requires program.WellFormed() && o < |program.tasks|
    ensures NeedsOfAll(program, scheduled, Elements(chosen + [o])) ==
      NeedsOfAll(program, scheduled, Elements(chosen)) + Needs(program, scheduled, o)
  {
    hide Needs, Program.WellFormed;
    assert Elements(chosen + [o]) == Elements(chosen) + {o};
  }

  lemma NeedsOfNone(program: Program, scheduled: set<nat>, ops: set<nat>)
    requires program.WellFormed() && ops == {}
    ensures NeedsOfAll(program, scheduled, ops) == {}
  {
  }

  /** Operations are scheduled, and nothing leaves memory. */
  ghost predicate Forward(before: Snapshot, after: Snapshot) {
    && ClocksGrow(before.line.clocks, after.line.clocks) && before.begin <= after.begin && NoSpillWrites(after.begin)
    && after.end == before.end && after.done == before.done && before.spills.alive <= after.spills.alive
    && before.ready.scheduled <= after.ready.scheduled
    && before.ready.dma <= after.ready.dma + after.ready.scheduled
    && after.spills.readySpilled.Keys <= before.spills.readySpilled.Keys
  }

  lemma ForwardSelf(s: Snapshot)
    requires NoSpillWrites(s.begin)
    ensures Forward(s, s)
  {
  }

  lemma ForwardTransitive(a: Snapshot, b: Snapshot, c: Snapshot)
    requires Forward(a, b) && Forward(b, c)
    ensures Forward(a, c)
  {
    hide ClocksGrow;
    ClocksGrowTransitive(a.line.clocks, b.line.clocks, c.line.clocks);
  }

  lemma PrefetchingIsForward(a: Snapshot, b: Snapshot)
    requires Prefetching(a, b)
    ensures Forward(a, b)
  {
  }

  /** One of the chosen operations has been scheduled; `rest` are those left. */
  lemma ChosenScheduled(program: Program, before: Snapshot, after: Snapshot, pending: set<nat>, inMemory: set<nat>,
                        rest: set<nat>, o: nat)
    requires Good(program, before, pending, {}) && Listable(program, before.ready, o) && program.WellFormed()
    requires after.ready.scheduled == before.ready.scheduled + program.deps[o] + {o}
    requires Later(before, after, Needs(program, before.ready.scheduled, o))
    requires before.ready.dma <= after.ready.dma + {o}
    requires inMemory == before.spills.alive + NeedsOfAll(program, before.ready.scheduled, rest + {o})
    ensures inMemory == after.spills.alive + NeedsOfAll(program, after.ready.scheduled, rest)
    ensures Forward(before, after) && before.ready.scheduled < after.ready.scheduled && NoSpillWrites(after.begin)
  {
    hide Good, ClocksGrow, Program.IsDataOp;
    OpFacts(program, before, pending, {}, o);
    var more := program.deps[o] + {o};
    assert before.ready.scheduled + more == after.ready.scheduled;
    assert NeedsOfAll(program, before.ready.scheduled, rest + {o}) ==
      NeedsOfAll(program, before.ready.scheduled, rest) + Needs(program, before.ready.scheduled, o);
    NeedsShrink(program, before.ready.scheduled, more, after.spills.alive, rest);
  }

  /** The `i`-th of the chosen operations has been scheduled. */
  lemma ChosenStep(program: Program, start: Snapshot, before: Snapshot, after: Snapshot, chosen: seq<nat>, i: nat,
                   inMemory: set<nat>)
    requires Good(program, before, {}, {}) && Prompt(program, before.ready) && Distinct(chosen) && i < |chosen|
    requires ListedFrom(program, before.ready, chosen, i) && program.WellFormed()
    requires after.ready == TakenOff(program, before.ready, chosen[i])
    requires Later(before, after, Needs(program, before.ready.scheduled, chosen[i]))
    requires inMemory == before.spills.alive + NeedsOfAll(program, before.ready.scheduled, Elements(chosen[i..]))
    requires SameWaiting(program, start.ready.scheduled + Elements(chosen), before.ready.scheduled +
      Elements(chosen[i..]))
    ensures SameWaiting(program, start.ready.scheduled + Elements(chosen), after.ready.scheduled +
      Elements(chosen[i + 1..]))
    ensures inMemory == after.spills.alive + NeedsOfAll(program, after.ready.scheduled, Elements(chosen[i + 1..]))
    ensures chosen[i] in after.ready.scheduled
    ensures Prompt(program, after.ready) && after.ready.released == before.ready.released
    ensures Forward(before, after) && before.ready.scheduled < after.ready.scheduled && NoSpillWrites(after.begin)
    ensures ListedFrom(program, after.ready, chosen, i + 1)
  {
    hide Good, Prompt, Later, SameWaiting, NeedsOfAll, Needs, Forward, NoSpillWrites, Program.WellFormed;
    var o, rest := chosen[i], Elements(chosen[i + 1..]);
    PromptTaken(program, before, {}, o, after.ready);
    TakenOffWaiting(program, before, {}, o, rest);
    PendingStep(chosen, {}, i);
    assert Elements(chosen[i..]) + {} == Elements(chosen[i..]) && rest + {} == rest;
    assert before.ready.scheduled + {o} + rest == before.ready.scheduled + Elements(chosen[i..]);
    SameWaitingTransitive(program, start.ready.scheduled + Elements(chosen),
      before.ready.scheduled + Elements(chosen[i..]), after.ready.scheduled + rest);
    ChosenScheduled(program, before, after, {}, inMemory, rest, o);
  }

  /** A data movement that is no data operation is released only when it has been scheduled. */
  lemma DmaFacts(program: Program, before: Snapshot, after: Snapshot, pending: set<nat>, o: nat)
    requires Good(program, before, pending, {}) && o in before.ready.dma && o < |program.deps|
    requires Good(program, after, pending, {}) && after.ready == TakenOff(program, before.ready, o)
    ensures o < |program.tasks| && o !in after.ready.released && !program.IsComputeOp(o)
    ensures Consistent(program, after.ready, pending)
  {
    hide Valid, InFlight, Emitted, SpillState.Matches, BuffersKept, QueuesReady, Program.BuffersWritten, Traced;
    assert o in before.ready.Listed();
  }

  lemma ForwardFacts(a: Snapshot, b: Snapshot)
    requires Forward(a, b)
    ensures NoSpillWrites(b.begin) && a.begin <= b.begin && a.ready.scheduled <= b.ready.scheduled
  {
  }

  lemma ListedIsForward(program: Program, start: Snapshot, s: Snapshot, ready: ReadyState)
    requires Forward(start, s) && OnlyListed(program, s.ready, ready)
    ensures Forward(start, s.(ready := ready)) && ready.scheduled == s.ready.scheduled
  {
  }

  lemma ListedLands(program: Program, s: Snapshot, ready: ReadyState)
    requires OnlyListed(program, s.ready, ready)
    ensures Prompt(program, s.ready) && Landed(s) ==> Prompt(program, ready) && Landed(s.(ready := ready))
    ensures ready.scheduled == s.ready.scheduled
  {
    if Prompt(program, s.ready) && Landed(s) {
      PromptListed(program, s.ready, ready);
      forall o | o in ready.scheduled
        ensures o in ready.released || OpInFlight(s.(ready := ready), o)
      {
        assert OpInFlight(s, o) ==> OpInFlight(s.(ready := ready), o);
      }
    }
  }

  lemma NotEvicting(start: Snapshot, s: Snapshot, cache: map<nat, nat>)
    requires CacheFresh(start, cache) && NoSpillWrites(s.begin) && (s.begin == {} ==> s == start)
    ensures CacheFresh(s, cache)
  {
  }

  lemma AliveIsWritten(program: Program, s: Snapshot)
    requires Good(program, s, {}, {})
    ensures forall b :: b in s.spills.alive ==>
      b in s.line.producer && s.line.producer[b] < |program.tasks| && b in program.tasks[s.line.producer[b]].outputs
  {
    hide Consistent, Valid, InFlight, Emitted, SpillState.Matches, QueuesReady, Program.BuffersWritten,
      Program.WellFormed, Traced;
  }

  /** The last thing in the schedule is a spill write. */
  ghost predicate JustSpilled(scheduledOps: seq<HeapElement>) {
    scheduledOps != [] && scheduledOps[|scheduledOps| - 1].IsSpillWriteOp()
  }

  ghost predicate CandidatesAlive(s: Snapshot, cache: map<nat, nat>) {
    forall b :: b in cache ==> b in s.spills.alive && b in s.line.producer && cache[b] == s.line.producer[b]
  }

  lemma CandidateFacts(program: Program, s: Snapshot, buffer: nat)
    requires Good(program, s, {}, {}) && buffer in s.line.producer
    ensures QueuesReady(program, s.line.clocks) && buffer < |program.spillCost| == |program.wideBuffer|
    ensures s.line.producer[buffer] in s.line.endCycles && s.ready.scheduled == s.line.endCycles.Keys
    ensures program.WellFormed() && s.line.producer[buffer] < |program.tasks|
    ensures buffer in program.tasks[s.line.producer[buffer]].outputs
  {
    hide Consistent, Valid, InFlight, Emitted, Program.BuffersWritten, SpillState.Matches, BuffersKept, Traced;
    WriterFacts(program, s, {}, {}, buffer);
  }

  lemma SpillWriteFits(program: Program, line: Timeline, e: HeapElement)
    requires e.IsSpillWriteOp() && e.op in line.endCycles
    requires (e.buffer in line.lastUse ==> line.lastUse[e.buffer] <= e.cycleBegin)
    requires e.mask != {} && e.cycleBegin <= e.cycleEnd && e.queue in line.clocks
    requires forall i :: i in e.mask ==> i < |line.clocks[e.queue]| && line.clocks[e.queue][i] <= e.cycleBegin
    ensures FitsData(program, line, e) && FitsClocks(line.clocks, e)
  {
  }

  lemma EvictedCache(before: Snapshot, after: Snapshot, cache: map<nat, nat>, e: HeapElement)
    requires CandidatesAlive(before, cache) && e.buffer !in cache && after.begin == {e} && after.end == {}
    requires e.IsSpillWriteOp()
    requires after.spills.alive == before.spills.alive - {e.buffer} && after.line.producer == before.line.producer
    ensures CacheFresh(after, cache)
  {
  }

  /** The order of the heap sorted by begin cycle. */
  predicate BeginsBefore(a: HeapElement, b: HeapElement) {
    if a.cycleBegin != b.cycleBegin then a.cycleBegin < b.cycleBegin
    else if (a.opType == Prefetched) != (b.opType == Prefetched) then a.opType == Prefetched
    else a.op < b.op
  }

  /** Of the elements of `begin`, those not in `left` have joined the schedule, in order. */
  ghost predicate Joining(begin: Heap, left: Heap, before: seq<HeapElement>, done: seq<HeapElement>) {
    && left <= begin && before <= done
    && (forall i :: |before| <= i < |done| ==> done[i] in begin && done[i] !in left)
    && (forall e :: e in begin && e !in left ==> exists i :: |before| <= i < |done| && done[i] == e)
    && (forall i, e :: |before| <= i < |done| && e in left ==> !BeginsBefore(e, done[i]))
    && (forall i, j :: |before| <= i < j < |done| ==> !BeginsBefore(done[j], done[i]) && done[i] != done[j])
  }

  /** The elements of `begin` have joined the schedule, each once, in order. */
  ghost predicate Joined(begin: Heap, before: seq<HeapElement>, done: seq<HeapElement>) {
    && before <= done && (forall e :: e in begin <==> exists i :: |before| <= i < |done| && done[i] == e)
    && (forall i, j :: |before| <= i < j < |done| ==> !BeginsBefore(done[j], done[i]) && done[i] != done[j])
  }

  lemma JoiningNothing(begin: Heap, done: seq<HeapElement>)
    ensures Joining(begin, begin, done, done)
  {
  }

  lemma JoiningOne(begin: Heap, left: Heap, before: seq<HeapElement>, done: seq<HeapElement>, e: HeapElement)
    requires Joining(begin, left, before, done) && e in left && forall f :: f in left ==> !BeginsBefore(f, e)
    ensures Joining(begin, left - {e}, before, done + [e])
  {
    forall f | f in begin && f !in left - {e}
      ensures exists i :: |before| <= i < |done + [e]| && (done + [e])[i] == f
    {
      if f == e {
        assert (done + [e])[|done|] == f;
      } else {
        var i :| |before| <= i < |done| && done[i] == f;
        assert (done + [e])[i] == f;
      }
    }
  }

  lemma JoinedAll(begin: Heap, before: seq<HeapElement>, done: seq<HeapElement>)
    requires Joining(begin, {}, before, done)
    ensures Joined(begin, before, done)
  {
  }

  lemma MovedCache(start: Snapshot, s: Snapshot, cache: map<nat, nat>)
    requires CacheFresh(start, cache) && LonelySpillWrites(start.begin) && start.begin != {} && s.begin == {}
    requires s.end <= start.end + start.begin
    requires Joining(start.begin, {}, start.done, s.done) && s.line == start.line && s.spills == start.spills
    ensures CacheFresh(s, cache)
  {
    if s.done != [] && s.done[|s.done| - 1].IsSpillWriteOp() {
      var f :| f in start.begin;
      var i :| |start.done| <= i < |s.done| && s.done[i] == f;
      assert s.done[|s.done| - 1] in start.begin;
    }
  }

  /** Operations without consumers that have not been scheduled are in `outputOps`. */
  ghost predicate OutputsLeft(program: Program, outputOps: set<nat>, line: Timeline) {
    forall o :: 0 <= o < |program.consumers| && program.consumers[o] == {} ==> o in outputOps || o in line.endCycles
  }

  lemma OutputScheduled(program: Program, s: Snapshot, outputOps: set<nat>, e: HeapElement)
    requires Good(program, s, {}, {}) && e in s.begin && OutputsLeft(program, outputOps, s.line)
    ensures OutputsLeft(program, outputOps - {e.op}, s.line) && LonelySpillWrites(s.begin)
  {
    hide Consistent, Valid, InFlight, SpillState.Matches, QueuesReady, Program.BuffersWritten, Program.WellFormed,
      BuffersKept, Traced;
    ElementFacts(program, s, {}, e);
  }

  /** The end of `e` is in the table already. */
  lemma EndAlreadyKnown(program: Program, s: Snapshot, e: HeapElement)
    requires Good(program, s, {}, {}) && e in s.begin
    ensures e.op in s.line.endCycles
    ensures s.line.endCycles[e.op := Max(s.line.endCycles[e.op], e.cycleEnd)] == s.line.endCycles
  {
    hide Good, InFlight, TimelineModule.Valid;
    GoodParts(program, s, {}, {});
    EndIsRecorded(program, s, e);
  }

  lemma EndIsRecorded(program: Program, s: Snapshot, e: HeapElement)
    requires InFlight(program, s) && Valid(program, s.line) && e in s.begin
    ensures e.op in s.line.endCycles && e.cycleEnd <= s.line.endCycles[e.op]
  {
    hide GoodSchedule, ClocksRecorded, Program.WellFormed;
    var i :| 0 <= i < |s.line.pushed| && s.line.pushed[i] == e;
    assert e.cycleEnd <= s.line.endCycles[e.op];
  }

  lemma InsertedByEnd(heap: Heap, e: HeapElement)
    ensures InsertByEnd(heap, e) <= heap + {e} && |InsertByEnd(heap, e)| <= |heap| + 1
  {
  }

  lemma MoveUsedNow(program: Program, s: Snapshot, e: HeapElement, o: nat)
    requires Good(program, s, {}, {}) && e in s.begin && o < |program.tasks|
    ensures UsedNow(program, AfterMove(s, e), o) == UsedNow(program, s, o)
  {
    hide Good, InsertByEnd;
    MoveKeeps(program, s, {}, {}, e);
    InsertedByEnd(s.end, e);
    KeptByEnd(s.end, e);
    if OpInFlight(s, o) {
      var f :| f in s.begin + s.end && f.IsOriginalOp() && f.op == o;
      assert f in AfterMove(s, e).begin + AfterMove(s, e).end;
    }
  }

  lemma KeptByEnd(heap: Heap, e: HeapElement)
    ensures heap <= InsertByEnd(heap, e)
  {
  }

  lemma GoodEmitted(program: Program, s: Snapshot)
    requires Good(program, s, {}, {})
    ensures LonelySpillWrites(s.begin)
  {
    hide Consistent, Valid, InFlight, SpillState.Matches, QueuesReady, Program.BuffersWritten, Program.WellFormed,
      BuffersKept, Traced;
  }

  /** Why a run fails: something is `refused` by the allocator, which then fails, leaves nothing to spill, or
      makes spill a buffer that a data operation shares. */
  ghost predicate Failure(program: Program, message: string, refused: bool) {
    || (refused && (message == ALLOCATION_FAILED || message == NOTHING_TO_SPILL))
    || (refused && message == SPILL_CANDIDATE_GONE && program.WellFormed() && !DataBuffersPrivate(program))
  }

  lemma ScheduledKeys(program: Program, s: Snapshot)
    requires Good(program, s, {}, {})
    ensures s.ready.scheduled == s.line.endCycles.Keys <= AllOps(|program.tasks|)
  {
    hide Good;
    GoodParts(program, s, {}, {});
    forall o | o in s.ready.scheduled
      ensures o < |program.tasks|
    {
      ScheduledAreTasks(program, s.ready, {}, o);
    }
  }

  lemma SmallerHeap(heap: Heap, before: Heap)
    requires heap <= before
    ensures heap < before ==> |heap| < |before|
  {
    assert before == heap + (before - heap);
  }

  lemma OutputsStayLeft(program: Program, outputOps: set<nat>, before: Timeline, after: Timeline)
    requires OutputsLeft(program, outputOps, before) && before.endCycles.Keys <= after.endCycles.Keys
    ensures OutputsLeft(program, outputOps, after)
  {
  }

  /** The in-degree table is set, and nothing is listed. */
  ghost predicate InDegreesSet(program: Program, r: ReadyState) {
    && program.WellFormed() && r == ReadyState(r.inDegree, {}, {}, {}, {}, {})
    && (forall o :: o in r.inDegree <==> 0 <= o < |program.deps|)
    && forall o :: o in r.inDegree ==> r.inDegree[o] == |program.deps[o]|
  }

  lemma StartsConsistent(program: Program, r: ReadyState, zero: seq<nat>)
    requires InDegreesSet(program, r) && forall o :: o in zero <==> o in r.inDegree && r.inDegree[o] == 0
    ensures Consistent(program, r, Elements(zero))
  {
    forall o: nat | o < |program.tasks|
      ensures Counted(program, r.inDegree, r.released, o) && Unlocked(program, r, Elements(zero), o)
    {
      assert program.deps[o] - {} == program.deps[o];
      assert program.deps[o] <= {} <==> program.deps[o] == {};
    }
  }

  lemma OnlyListedScheduled(program: Program, before: ReadyState, after: ReadyState)
    requires OnlyListed(program, before, after)
    ensures after.scheduled == before.scheduled
  {
  }

  /** The consumers of a dependency map are determined by it. */
  lemma ConsumersAreUnique(program: Program, consumers: DepsMap)
    requires program.WellFormed() && InverseOf(program.deps, consumers)
    ensures consumers == program.consumers && |consumers| == |program.tasks|
  {
    forall a | 0 <= a < |consumers|
      ensures consumers[a] == program.consumers[a]
    {
    }
  }

  lemma StartsGood(program: Program, s: Snapshot)
    requires program.WellFormed() && program.BuffersWritten() && QueuesReady(program, s.line.clocks)
    requires Consistent(program, s.ready, {}) && s.ready.scheduled == {}
    requires s.line == Timeline(s.line.clocks, [], map[], map[], map[]) && s.spills == SpillState(map[], map[], {}, {})
    requires s.begin == s.end == {} && s.done == []
    ensures Good(program, s, {}, {})
  {
    hide Consistent, QueuesReady, Program.BuffersWritten, Program.WellFormed, Traced;
    StartsTraced(program, s);
  }

  lemma StartsTraced(program: Program, s: Snapshot)
    requires program.WellFormed() && QueuesReady(program, s.line.clocks)
    requires s.line == Timeline(s.line.clocks, [], map[], map[], map[]) && s.spills == SpillState(map[], map[], {}, {})
    requires s.begin == s.end == {} && s.done == []
    ensures Traced(program, s)
  {
    hide Program.WellFormed;
    forall b
      ensures LocatedAt(program, [], map[], map[], b)
    {
    }
  }

  /** When nothing is about to be scheduled, an element of the time line is in the schedule unless
      another one begins with it for the same operation. */
  lemma MissingOnlyWhenAlike(program: Program, s: Snapshot, e: HeapElement)
    requires Good(program, s, {}, {}) && s.begin == {} && e in s.line.pushed && e !in s.done
    ensures !e.IsOriginalOp() && exists f :: f in s.done && f != e && SameBegin(f, e)
  {
    hide Consistent, InFlight, SpillState.Matches, QueuesReady, Program.BuffersWritten, Program.WellFormed,
      BuffersKept, GoodSchedule, Valid, Traced;
    assert Represented(s.done, s.begin, e);
  }

  /** When all outputs have been scheduled, so has everything else. */
  lemma {:induction false} AllScheduled(program: Program, s: Snapshot, o: nat)
    requires Good(program, s, {}, {}) && OutputsLeft(program, {}, s.line) && o < |program.tasks|
    ensures o in s.line.endCycles
    decreases |program.tasks| - o
  {
    hide InFlight, Emitted, SpillState.Matches, BuffersKept, QueuesReady, Valid, Program.BuffersWritten, RightLists,
      ReleasedInTime, Traced;
    if program.consumers[o] != {} {
      var c :| c in program.consumers[o];
      assert o in program.deps[c];
      AllScheduled(program, s, c);
      DepScheduled(program, s.line, c, o);
    }
  }

  lemma RunIsComplete(program: Program, s: Snapshot, outputOps: set<nat>, schedule: seq<HeapElement>)
    requires Good(program, s, {}, {}) && OutputsLeft(program, outputOps, s.line) && outputOps == {} && s.begin == {}
    requires Sorted(schedule) && multiset(schedule) == multiset(s.done)
    ensures GoodSchedule(program, s.line.pushed) && (forall e :: e in schedule ==> e in s.line.pushed)
    ensures forall e :: e in s.line.pushed && e !in schedule ==>
      !e.IsOriginalOp() && exists f :: f in schedule && f != e && SameBegin(f, e)
    ensures EachOnce(program, schedule) && InDependencyOrder(program, schedule)
    ensures program.WellFormed() && program.readQueue in s.line.clocks
    ensures ReadsApart(program, |s.line.clocks[program.readQueue]|) ==> multiset(schedule) == multiset(s.line.pushed)
  {
    hide Good, GoodSchedule, EachOnce, InDependencyOrder, Sorted, ReadsApart;
    EverythingDone(program, s);
    GoodParts(program, s, {}, {});
    DoneFacts(program, s);
    forall o: nat | o < |program.tasks|
      ensures HasOriginal(s.done, o)
    {
      AllScheduled(program, s, o);
      assert HasOriginal(s.line.pushed, o);
      var i :| 0 <= i < |s.line.pushed| && s.line.pushed[i].IsOriginalOp() && s.line.pushed[i].op == o;
      assert s.line.pushed[i] in s.done;
    }
    SortedIsComplete(program, s.line.pushed, s.done, schedule);
    forall e
      ensures e in schedule <==> e in s.done
    {
      Position(schedule, s.done, e);
    }
    forall e | e in s.line.pushed && e !in schedule
      ensures !e.IsOriginalOp() && exists f :: f in schedule && f != e && SameBegin(f, e)
    {
      MissingOnlyWhenAlike(program, s, e);
    }
  }

  /** When nothing is about to be scheduled and no reads can collide, the schedule is all of the time line. */
  lemma EverythingDone(program: Program, s: Snapshot)
    requires Good(program, s, {}, {}) && s.begin == {}
    ensures program.WellFormed() && program.readQueue in s.line.clocks
    ensures ReadsApart(program, |s.line.clocks[program.readQueue]|) ==> multiset(s.done) == multiset(s.line.pushed)
  {
    hide Consistent, InFlight, SpillState.Matches, QueuesReady, Program.BuffersWritten, Program.WellFormed,
      BuffersKept, Emitted, Valid, ReadsApart,
      AllShaped, BuffersFound, Located;
  }

  lemma DoneFacts(program: Program, s: Snapshot)
    requires Good(program, s, {}, {}) && s.begin == {}
    ensures (forall e :: e in s.done ==> e in s.line.pushed) && OnceEach(s.done) && program.WellFormed()
    ensures forall e :: e in s.line.pushed ==> e.cycleBegin <= e.cycleEnd && (e.IsOriginalOp() ==> e in s.done)
    ensures forall o {:trigger HasOriginal(s.line.pushed, o)} :: o in s.line.endCycles <==>
      HasOriginal(s.line.pushed, o)
    ensures GoodSchedule(program, s.line.pushed)
  {
    hide Consistent, InFlight, SpillState.Matches, QueuesReady, Program.BuffersWritten, Program.WellFormed,
      BuffersKept, GoodSchedule, Traced;
    forall e | e in s.line.pushed
      ensures e.cycleBegin <= e.cycleEnd
    {
      var i :| 0 <= i < |s.line.pushed| && s.line.pushed[i] == e;
      assert Busy(s.line.clocks, s.line.pushed[i]);
    }
  }

  lemma GoodParts(program: Program, s: Snapshot, pending: set<nat>, exempt: set<nat>)
    requires Good(program, s, pending, exempt)
    ensures Consistent(program, s.ready, pending) && s.ready.scheduled == s.line.endCycles.Keys
    ensures Valid(program, s.line) && InFlight(program, s)
  {
    hide Consistent, Valid, InFlight, Traced;
  }

  lemma ClocksGrowSelf(clocks: Clocks)
    ensures ClocksGrow(clocks, clocks)
  {
  }

  lemma SameInstances(before: Clocks, after: Clocks, queue: nat)
    requires ClocksGrow(before, after) && queue in after
    ensures queue in before && |before[queue]| == |after[queue]|
  {
  }

  lemma RoundClocks(a: Snapshot, b: Snapshot, c: Snapshot)
    requires ClocksGrow(a.line.clocks, b.line.clocks) && Forward(b, c)
    ensures ClocksGrow(a.line.clocks, c.line.clocks)
  {
    hide ClocksGrow;
    ClocksGrowTransitive(a.line.clocks, b.line.clocks, c.line.clocks);
  }

  lemma ElementFacts(program: Program, s: Snapshot, pending: set<nat>, e: HeapElement)
    requires Good(program, s, pending, {}) && e in s.begin + s.end
    ensures Consistent(program, s.ready, pending) && InFlight(program, s) && e.op in s.ready.scheduled
    ensures e.op in s.line.endCycles && e.op < |program.tasks|
  {
    hide Consistent, InFlight, Valid, QueuesReady, BuffersKept, Emitted, SpillState.Matches, Program.BuffersWritten,
      Traced;
    ElementIsScheduled(program, s, e);
    ScheduledAreTasks(program, s.ready, pending, e.op);
  }

  lemma ElementIsScheduled(program: Program, s: Snapshot, e: HeapElement)
    requires InFlight(program, s) && Valid(program, s.line) && e in s.begin + s.end
    ensures e.op in s.line.endCycles
  {
  }

  lemma ScheduledAreTasks(program: Program, r: ReadyState, pending: set<nat>, o: nat)
    requires Consistent(program, r, pending) && o in r.scheduled
    ensures o < |program.tasks|
  {
    assert o in r.Listed();
  }

  /** A spill in flight uses nothing, as its operation has ended. */
  lemma UsersOf(program: Program, s: Snapshot, pending: set<nat>, e: HeapElement)
    requires Good(program, s, pending, {}) && e in s.begin + s.end && e.op < |program.tasks|
    ensures !e.IsOriginalOp() ==> UsedNow(program, s, e.op) == {}
  {
    hide Consistent, Valid, QueuesReady, BuffersKept, Emitted, SpillState.Matches, Program.BuffersWritten,
      Program.WellFormed, Traced;
    ElementIsScheduled(program, s, e);
  }

  lemma FreeingKeeps(program: Program, s: Snapshot, pending: set<nat>, cache: map<nat, nat>, e: HeapElement,
                     spills: SpillState)
    requires Good(program, s, pending, {}) && CacheFresh(s, cache) && e in s.end
    requires spills == s.spills.(alive := spills.alive) && spills.alive <= s.spills.alive
    requires !e.IsOriginalOp() ==> spills == s.spills
    ensures Good(program, s.(spills := spills), pending, {}) && CacheFresh(s.(spills := spills), cache)
  {
    hide Good;
    SpillsApart(program, s, pending, {});
    AliveGood(program, s, pending, {}, spills.alive, {});
  }

  lemma SpillsApart(program: Program, s: Snapshot, pending: set<nat>, exempt: set<nat>)
    requires Good(program, s, pending, exempt)
    ensures s.spills.alive !! s.spills.dynamicSpill && s.spills.Matches(s.line.producer)
  {
    hide Consistent, Valid, QueuesReady, BuffersKept, Emitted, Program.BuffersWritten, Program.WellFormed, InFlight,
      Traced;
  }

  lemma AligningKeeps(program: Program, s: Snapshot, pending: set<nat>, cache: map<nat, nat>, cycle: nat)
    requires Good(program, s, pending, {}) && CacheFresh(s, cache)
    ensures var next := s.(line := s.line.(clocks := AlignTo(s.line.clocks, cycle)));
      Good(program, next, pending, {}) && CacheFresh(next, cache) && ClocksGrow(s.line.clocks, next.line.clocks)
  {
    hide Good, AlignTo, ClocksGrow;
    AlignGood(program, s, pending, {}, cycle);
  }

  lemma LandingKeeps(program: Program, s: Snapshot, u: Snapshot, pending: set<nat>, cache: map<nat, nat>,
                     e: HeapElement, ready: ReadyState, next: set<nat>)
    requires Good(program, u, pending, {}) && CacheFresh(u, cache) && e in u.end && u.begin == {}
    requires Consistent(program, ready, next) && ready.scheduled == u.ready.scheduled
    requires ready.released == if e.IsOriginalOp() && e.op < |program.tasks| && program.IsComputeOp(e.op) then
      u.ready.released + {e.op} else u.ready.released
    ensures Good(program, u.(end := u.end - {e}, ready := ready), next, {})
    ensures CacheFresh(u.(end := u.end - {e}, ready := ready), cache)
  {
    hide Good, Consistent;
    var landed := u.(end := u.end - {e});
    LandKeeps(program, u, pending, {}, e);
    ReadyChangeKeeps(program, landed, pending, {}, ready, next);
  }

  /** When `e` has landed, its operation uses nothing, and the others what they did. */
  lemma LandedUsesNothing(program: Program, s: Snapshot, next: Snapshot, pending: set<nat>, e: HeapElement, o: nat)
    requires Good(program, s, pending, {}) && e in s.end && o < |program.tasks| && s.begin == next.begin == {}
    requires next.end == s.end - {e}
    requires next.line.endCycles == s.line.endCycles
    ensures UsedNow(program, next, o) == if o == e.op then {} else UsedNow(program, s, o)
  {
    hide Consistent, Valid, QueuesReady, BuffersKept, Emitted, SpillState.Matches, Program.BuffersWritten,
      Program.WellFormed, Traced;
    ElementIsScheduled(program, s, e);
    if o != e.op {
      assert OpInFlight(next, o) <==> OpInFlight(s, o);
    }
  }

  lemma ListingGood(program: Program, s: Snapshot, pending: set<nat>, exempt: set<nat>, ready: ReadyState,
                    next: set<nat>)
    requires Good(program, s, pending, exempt) && Consistent(program, ready, next)
    requires OnlyListed(program, s.ready, ready)
    ensures Good(program, s.(ready := ready), next, exempt)
  {
    hide Good, Consistent;
    forall o | o in ready.released && o !in s.ready.released
      ensures o < |program.tasks| && !program.IsComputeOp(o)
    {
      assert program.IsDataOp(o);
    }
    ReadyChangeKeeps(program, s, pending, exempt, ready, next);
  }

  lemma CacheIgnoresReady(s: Snapshot, cache: map<nat, nat>, ready: ReadyState)
    requires CacheFresh(s, cache)
    ensures CacheFresh(s.(ready := ready), cache)
  {
  }

  /** Operations are put on lists, and data operations released; nothing else changes. */
  ghost predicate OnlyListed(program: Program, before: ReadyState, after: ReadyState) {
    && program.WellFormed() && before.scheduled == after.scheduled && before.released <= after.released
    && before.compute <= after.compute && before.dma <= after.dma
    && (before.data <= before.released ==> after.data <= after.released)
    && forall o :: o in after.released && o !in before.released ==> o < |program.tasks| && program.IsDataOp(o)
  }

  lemma OnlyListedSelf(program: Program, r: ReadyState, pending: set<nat>)
    requires Consistent(program, r, pending)
    ensures OnlyListed(program, r, r)
  {
  }

  lemma OnlyListedOne(program: Program, r: ReadyState, next: ReadyState)
    requires program.WellFormed() && next == r.(compute := next.compute, dma := next.dma)
    requires r.compute <= next.compute && r.dma <= next.dma
    ensures OnlyListed(program, r, next)
  {
  }

  lemma DataOpReleased(program: Program, r: ReadyState, listed: ReadyState, next: ReadyState, o: nat)
    requires program.WellFormed() && listed == r.(data := r.data + {o}) && o < |program.tasks| && program.IsDataOp(o)
    requires next == listed.(inDegree := next.inDegree, released := listed.released + {o})
    ensures OnlyListed(program, r, next) && next.Listed() == r.Listed() + {o}
  {
  }

  lemma OnlyListedTransitive(program: Program, a: ReadyState, b: ReadyState, c: ReadyState)
    requires OnlyListed(program, a, b) && OnlyListed(program, b, c)
    ensures OnlyListed(program, a, c)
  {
  }

  lemma PendingFacts(program: Program, r: ReadyState, pending: set<nat>, o: nat)
    requires Consistent(program, r, pending) && o in pending
    ensures program.WellFormed() && o < |program.tasks| && o !in r.Listed() && o !in r.released
  {
  }

  lemma ReduceStart(program: Program, r: ReadyState, pending: set<nat>, o: nat)
    requires Consistent(program, r, pending)
    ensures Reducing(program, r, r.inDegree, o, {}, []) && |program.consumers| == |program.tasks|
  {
  }

  lemma ReducedDistinct(program: Program, r: ReadyState, inDegree: map<nat, nat>, o: nat, zero: seq<nat>)
    requires o < |program.consumers| && Reducing(program, r, inDegree, o, program.consumers[o], zero)
    ensures Distinct(zero)
  {
  }

  /** Whatever is in flight keeps its executors busy until its end. */
  lemma InFlightIsBusy(program: Program, s: Snapshot, e: HeapElement)
    requires Valid(program, s.line) && InFlight(program, s) && e in s.begin + s.end
    ensures Busy(s.line.clocks, e) && e.op in s.line.endCycles
  {
    var i :| 0 <= i < |s.line.pushed| && s.line.pushed[i] == e;
    assert Busy(s.line.clocks, s.line.pushed[i]);
  }

  lemma AppendDistinct(s: seq<nat>, t: seq<nat>)
    requires Distinct(s) && Distinct(t) && Elements(s) !! Elements(t)
    ensures Distinct(s + t)
  {
    forall i, j | 0 <= i < j < |s + t|
      ensures (s + t)[i] != (s + t)[j]
    {
      if i < |s| <= j {
        assert s[i] in Elements(s) && t[j - |s|] in Elements(t);
      }
    }
  }

  /** The `i`-th of the chosen data movements has been scheduled and released. */
  lemma DmaStep(program: Program, start: Snapshot, before: Snapshot, after: Snapshot, pending: set<nat>,
                chosen: seq<nat>, i: nat, inMemory: set<nat>)
    requires Good(program, before, pending, {}) && Prompt(program, before.ready) && Distinct(chosen) && i < |chosen|
    requires (forall j :: i <= j < |chosen| ==> chosen[j] in before.ready.dma) && program.WellFormed()
    requires Listable(program, before.ready, chosen[i])
    requires after.ready == TakenOff(program, before.ready, chosen[i]).(
                              inDegree := after.ready.inDegree, released := before.ready.released + {chosen[i]})
    requires Later(before, after, Needs(program, before.ready.scheduled, chosen[i]))
    requires SameWaiting(program, start.ready.scheduled, before.ready.scheduled) && Forward(start, before)
    requires inMemory == before.spills.alive + NeedsOfAll(program, before.ready.scheduled, Elements(chosen[i..]))
    ensures inMemory == after.spills.alive + NeedsOfAll(program, after.ready.scheduled, Elements(chosen[i + 1..]))
    ensures SameWaiting(program, start.ready.scheduled, after.ready.scheduled) && Forward(start, after)
    ensures Prompt(program, after.ready) && NoSpillWrites(after.begin) && before.ready.released <= after.ready.released
    ensures before.ready.scheduled < after.ready.scheduled && chosen[i] in after.ready.scheduled
    ensures forall j :: i < j < |chosen| ==> chosen[j] in after.ready.dma
  {
    hide Good, Prompt, Later, SameWaiting, NeedsOfAll, Needs, Forward, NoSpillWrites, Program.WellFormed;
    var o, rest := chosen[i], Elements(chosen[i + 1..]);
    PromptTaken(program, before, pending, o, after.ready);
    DmaWaiting(program, before, pending, o);
    SameWaitingTransitive(program, start.ready.scheduled, before.ready.scheduled, after.ready.scheduled);
    PendingStep(chosen, {}, i);
    assert Elements(chosen[i..]) + {} == Elements(chosen[i..]) && rest + {} == rest;
    ChosenScheduled(program, before, after, pending, inMemory, rest, o);
    ForwardTransitive(start, before, after);
  }

  lemma NothingListed()
    ensures Distinct([]) && Elements([]) == {}
  {
  }

  /** What follows is appended without repetition. */
  lemma AppendElements(s: seq<nat>, t: seq<nat>)
    requires Distinct(s) && Distinct(t) && Elements(s) !! Elements(t)
    ensures Distinct(s + t) && Elements(s + t) == Elements(s) + Elements(t)
  {
    AppendDistinct(s, t);
  }

  lemma PendingStep(ops: seq<nat>, rest: set<nat>, i: nat)
    requires Distinct(ops) && Elements(ops) !! rest && i < |ops|
    ensures Elements(ops[i..]) + rest == (Elements(ops[i + 1..]) + rest) + {ops[i]}
    ensures ops[i] !in Elements(ops[i + 1..]) + rest
  {
    assert ops[i..] == [ops[i]] + ops[i + 1..];
    assert ops[i] in Elements(ops);
  }
}
