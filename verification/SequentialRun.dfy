/** A run of the memory scheduler that takes the operations in program order, each when the one before
    it has ended, and writes out buffers in between: what single states are reached that way. */
module SequentialRun {
  import opened ScheduleProgram
  import opened ReadyLists
  import opened TimelineModule
  import opened ScheduleTrace
  import opened SpillMaps
  import opened SchedulerState
  import opened SchedulerSteps

  /** Whatever the operations depend on is among them. */
  ghost predicate Closed(program: Program, ops: set<nat>)
    requires program.WellFormed()
  {
    forall o :: o in ops ==> o < |program.tasks| && program.deps[o] <= ops
  }

  /** The ready lists when exactly the operations `done` have been scheduled and released. */
  ghost function ListedAfter(program: Program, done: set<nat>): ReadyState
    requires program.WellFormed()
  {
    ReadyState((map o: nat | o < |program.tasks| && (program.deps[o] == {} || !(program.deps[o] <= done)) ::
      |program.deps[o] - done|),
      (set o | o in ReadyAfter(program, done) && !program.IsDataOp(o) && program.IsComputeOp(o)),
      (set o | o in ReadyAfter(program, done) && !program.IsDataOp(o) && !program.IsComputeOp(o)),
      (set o | o in ReadyAfter(program, done) && program.IsDataOp(o)), done, done)
  }

  ghost function ReadyAfter(program: Program, done: set<nat>): set<nat>
    requires program.WellFormed()
  {
    set o: nat | o < |program.tasks| && o !in done && program.deps[o] <= done
  }

  lemma ListedIsConsistent(program: Program, done: set<nat>)
    requires program.WellFormed() && Closed(program, done)
    ensures Consistent(program, ListedAfter(program, done), {})
  {
    hide Program.IsDataOp, Program.WellFormed, Counted, Unlocked, RightLists, ReleasedInTime, ListedAfter, ReadyAfter,
      Closed;
    var r := ListedAfter(program, done);
    ReadyOpsAre(program, done);
    ListedRight(program, done);
    forall o: nat | o < |program.tasks|
      ensures Counted(program, r.inDegree, r.released, o) && Unlocked(program, r, {}, o)
    {
      ListedCounts(program, done, o);
    }
  }

  lemma ReadyOpsAre(program: Program, done: set<nat>)
    requires program.WellFormed()
    ensures |program.deps| == |program.tasks|
    ensures forall o :: o in ReadyAfter(program, done) ==> o < |program.tasks| && o !in done
  {
  }

  lemma ListedRight(program: Program, done: set<nat>)
    requires program.WellFormed() && Closed(program, done)
    ensures RightLists(program, ListedAfter(program, done)) && ReleasedInTime(program, ListedAfter(program, done))
  {
    hide Program.IsDataOp, Program.IsComputeOp, Program.WellFormed, ReadyAfter, RightLists, ReleasedInTime;
    ReadyOpsAre(program, done);
    RightWhenSorted(program, ListedAfter(program, done));
  }

  lemma RightWhenSorted(program: Program, r: ReadyState)
    requires program.WellFormed() && r.released == r.scheduled && forall o :: o in r.scheduled ==> o < |program.tasks|
    requires forall o :: o in r.compute ==>
      o < |program.tasks| && o !in r.scheduled && !program.IsDataOp(o) && program.IsComputeOp(o)
    requires forall o :: o in r.dma ==>
      o < |program.tasks| && o !in r.scheduled && !program.IsDataOp(o) && !program.IsComputeOp(o)
    requires forall o :: o in r.data ==> o < |program.tasks| && o !in r.scheduled && program.IsDataOp(o)
    ensures RightLists(program, r) && ReleasedInTime(program, r)
  {
    hide Program.IsDataOp, Program.IsComputeOp, Program.WellFormed;
  }

  lemma ListedCounts(program: Program, done: set<nat>, o: nat)
    requires program.WellFormed() && Closed(program, done) && o < |program.tasks|
    ensures var r := ListedAfter(program, done);
      Counted(program, r.inDegree, r.released, o) && Unlocked(program, r, {}, o)
  {
    hide Program.IsDataOp;
    var r := ListedAfter(program, done);
    assert program.deps[o] == {} ==> program.deps[o] - done == {};
    assert o in r.Listed() <==> o in done || o in ReadyAfter(program, done);
  }

  /** All executors are free at `cycle`. */
  ghost predicate Even(clocks: Clocks, cycle: nat) {
    forall q, i {:trigger clocks[q][i]} :: q in clocks && 0 <= i < |clocks[q]| ==> clocks[q][i] == cycle
  }

  /** The operations `done` have been run, nothing is in flight, and all executors are free at `cycle`. */
  ghost predicate Resting(program: Program, s: Snapshot, done: set<nat>, instances: nat, cycle: nat) {
    && Good(program, s, {}, {}) && program.WellFormed() && Closed(program, done) && s.begin == s.end == {}
    && s.ready == ListedAfter(program, done)
    && Even(s.line.clocks, cycle) && program.readQueue in s.line.clocks
    && |s.line.clocks[program.readQueue]| == instances
    && (forall o :: o in s.line.endCycles ==> s.line.endCycles[o] <= cycle)
    && (forall b :: b in s.line.lastUse ==> s.line.lastUse[b] <= cycle)
  }

  /** The queues of a program. */
  ghost function Queues(program: Program, instances: nat): Clocks {
    map q | q in AllQueues(program) :: seq(instances, i => 0)
  }

  ghost function AllQueues(program: Program): set<nat> {
    (set o | 0 <= o < |program.tasks| :: program.tasks[o].queue) + {program.readQueue, program.writeQueue}
  }

  lemma StartsResting(program: Program, instances: nat) returns (s: Snapshot)
    requires program.WellFormed() && program.BuffersWritten() && instances >= 1
    ensures Resting(program, s, {}, instances, 0) && s.spills == SpillState(map[], map[], {}, {})
  {
    hide Consistent, Program.BuffersWritten, Program.WellFormed, ListedAfter;
    ListedIsConsistent(program, {});
    ListedNow(program, {});
    s := Snapshot(ListedAfter(program, {}), Timeline(Queues(program, instances), [], map[], map[], map[]),
      SpillState(map[], map[], {}, {}), {}, {}, []);
    StartsGood(program, s);
  }

  lemma ListedNow(program: Program, done: set<nat>)
    requires program.WellFormed()
    ensures ListedAfter(program, done).scheduled == ListedAfter(program, done).released == done
  {
    hide Program.IsDataOp;
  }

  lemma ReadyIsListed(program: Program, done: set<nat>, o: nat)
    requires program.WellFormed() && Closed(program, done) && o in ReadyAfter(program, done)
    ensures o < |program.tasks| == |program.deps| && o !in done && program.deps[o] <= done
    ensures o in ListedAfter(program, done).compute + ListedAfter(program, done).dma + ListedAfter(program, done).data
    ensures Closed(program, done + {o})
  {
    hide Program.IsDataOp;
  }

  /** Operation `o` as it is scheduled when nothing is in flight. */
  ghost function OpAt(program: Program, o: nat, cycle: nat): HeapElement
    requires o < |program.tasks|
  {
    HeapElement(o, program.tasks[o].queue, {0}, cycle, cycle + program.tasks[o].cost, Original, 0)
  }

  lemma OpFits(program: Program, s: Snapshot, done: set<nat>, instances: nat, cycle: nat, o: nat)
    requires Resting(program, s, done, instances, cycle) && o in ReadyAfter(program, done) && o < |program.tasks|
    ensures FitsClocks(s.line.clocks, OpAt(program, o, cycle)) && FitsData(program, s.line, OpAt(program, o, cycle))
  {
    hide InFlight, Emitted, Traced, SpillState.Matches, BuffersKept, Program.BuffersWritten, GoodSchedule,
      ClocksRecorded, ListedAfter, Consistent, ReadyAfter, Closed;
    ListedNow(program, done);
    ReadyIsListed(program, done, o);
  }

  /** Everything is free again when an element ends that nothing runs beside. */
  lemma EvenAgain(clocks: Clocks, cycle: nat, e: HeapElement)
    requires Even(clocks, cycle) && FitsClocks(clocks, e) && e.cycleBegin == cycle
    ensures Even(AlignTo(Advance(clocks, e), e.cycleEnd), e.cycleEnd)
    ensures ClocksGrow(clocks, AlignTo(Advance(clocks, e), e.cycleEnd))
  {
  }

  /** Operation `o` is put on the time line with its buffers in memory. */
  lemma PutOn(program: Program, s: Snapshot, done: set<nat>, instances: nat, cycle: nat, o: nat) returns (t: Snapshot)
    requires Resting(program, s, done, instances, cycle) && o in ReadyAfter(program, done) && o < |program.tasks|
    requires program.tasks[o].used !! s.spills.dynamicSpill
    ensures Good(program, t, {}, {}) && t.begin == {OpAt(program, o, cycle)} && t.end == {}
    ensures t == AfterOp(program, s.(spills := s.spills.(alive := s.spills.alive + program.tasks[o].used)),
                         OpAt(program, o, cycle))
  {
    hide Good, Consistent, Pushed, Advance, ClocksGrow, FitsClocks, FitsData, SpillState.Matches, ListedAfter, Even,
      ReadyAfter, Closed;
    var e, used := OpAt(program, o, cycle), program.tasks[o].used;
    SpillsApart(program, s, {}, {});
    var brought := s.(spills := s.spills.(alive := s.spills.alive + used));
    AliveGood(program, s, {}, {}, brought.spills.alive, {} + used);
    OpFits(program, s, done, instances, cycle, o);
    ReadyIsListed(program, done, o);
    OpKeeps(program, brought, {}, {}, e);
    AloneInHeap(e);
    t := AfterOp(program, brought, e);
  }

  /** Operation `o` is put on the time line, joins the schedule, and ends; nothing leaves memory. */
  lemma RunOp(program: Program, s: Snapshot, done: set<nat>, instances: nat, cycle: nat, o: nat) returns (t: Snapshot)
    requires Resting(program, s, done, instances, cycle) && o in ReadyAfter(program, done) && o < |program.tasks|
    requires s.spills.readySpilled == map[]
    ensures Resting(program, t, done + {o}, instances, cycle + program.tasks[o].cost) && t.spills.readySpilled == map[]
    ensures s.spills.alive + program.tasks[o].outputs <= t.spills.alive
    ensures t.line.producer.Keys == s.line.producer.Keys + program.tasks[o].outputs
    ensures forall b :: b in program.tasks[o].outputs ==> t.line.producer[b] == o
  {
    hide Good, Consistent, Pushed, Advance, AlignTo, ClocksGrow, FitsClocks, FitsData, SpillState.Matches,
      InsertByEnd, ListedAfter, Even, ReadyAfter, Closed;
    var e := OpAt(program, o, cycle);
    SpillsApart(program, s, {}, {});
    SpilledAreDynamic(s.spills, s.line.producer);
    var pushed := PutOn(program, s, done, instances, cycle, o);
    OpTables(program, s.line, e);
    MoveKeeps(program, pushed, {}, {}, e);
    var moved := AfterMove(pushed, e);
    LandKeeps(program, moved, {}, {}, e);
    var landed := moved.(end := moved.end - {e});
    AloneInHeap(e);
    assert landed.begin == {} && landed.end == {};
    ReadyIsListed(program, done, o);
    ListedNow(program, done);
    ListedNow(program, done + {o});
    ListedIsConsistent(program, done + {o});
    ReadyChangeKeeps(program, landed, {}, {}, ListedAfter(program, done + {o}), {});
    var listed := landed.(ready := ListedAfter(program, done + {o}));
    OpFits(program, s, done, instances, cycle, o);
    EvenAgain(s.line.clocks, cycle, e);
    AlignGood(program, listed, {}, {}, e.cycleEnd);
    t := listed.(line := listed.line.(clocks := AlignTo(listed.line.clocks, e.cycleEnd)));
    PushedInTime(program, s.line, e);
    StillThere(s.line.clocks, t.line.clocks, program.readQueue);
    UsesOutputs(program, o);
  }

  lemma UsesOutputs(program: Program, o: nat)
    requires program.WellFormed() && o < |program.tasks|
    ensures program.tasks[o].outputs <= program.tasks[o].used
  {
  }

  lemma AloneInHeap(e: HeapElement)
    ensures InsertByBegin({}, e) == {e} && InsertByEnd({}, e) == {e} && {e} - {e} == {}
  {
  }

  lemma StillThere(before: Clocks, after: Clocks, queue: nat)
    requires ClocksGrow(before, after) && queue in before
    ensures queue in after && |before[queue]| == |after[queue]|
  {
  }

  /** All recorded times are past when `e` ends. */
  lemma PushedInTime(program: Program, line: Timeline, e: HeapElement)
    requires (e.IsOriginalOp() ==> e.op < |program.tasks|) && e.cycleBegin <= e.cycleEnd
    requires forall o :: o in line.endCycles ==> line.endCycles[o] <= e.cycleBegin
    requires forall b :: b in line.lastUse ==> line.lastUse[b] <= e.cycleBegin
    ensures forall o :: o in Pushed(program, line, e).endCycles ==> Pushed(program, line, e).endCycles[o] <= e.cycleEnd
    ensures forall b :: b in Pushed(program, line, e).lastUse ==> Pushed(program, line, e).lastUse[b] <= e.cycleEnd
  {
  }

  ghost function Below(ops: set<nat>, n: nat): set<nat> {
    set o | o in ops && o < n
  }

  /** What the operations `ops` write is in memory, and the last of them is the last writer. */
  ghost predicate OutputsHeld(program: Program, s: Snapshot, ops: set<nat>, n: nat)
    requires n <= |program.tasks|
  {
    && (forall o, b :: o in Below(ops, n) && b in program.tasks[o].outputs ==>
          b in s.spills.alive && b in s.line.producer)
    && (n > 0 && n - 1 in ops ==> forall b :: b in program.tasks[n - 1].outputs ==>
          b in s.line.producer && s.line.producer[b] == n - 1)
  }

  lemma BelowNext(program: Program, ops: set<nat>, n: nat)
    requires program.WellFormed() && Closed(program, ops) && n < |program.tasks|
    ensures Closed(program, Below(ops, n))
    ensures n in ops ==> n in ReadyAfter(program, Below(ops, n)) && Below(ops, n + 1) == Below(ops, n) + {n}
    ensures n !in ops ==> Below(ops, n + 1) == Below(ops, n)
  {
  }

  /** Operations that depend only on each other can be run one after the other. */
  lemma {:induction false} RunAll(program: Program, instances: nat, ops: set<nat>, n: nat)
    returns (s: Snapshot, cycle: nat)
    requires program.WellFormed() && program.BuffersWritten() && instances >= 1 && Closed(program, ops)
    requires n <= |program.tasks|
    ensures Resting(program, s, Below(ops, n), instances, cycle) && s.spills.readySpilled == map[]
    ensures OutputsHeld(program, s, ops, n)
  {
    hide Resting, Program.WellFormed, Program.BuffersWritten, Closed, ReadyAfter;
    if n == 0 {
      s := StartsResting(program, instances);
      cycle := 0;
      assert Below(ops, 0) == {};
    } else {
      var before, start := RunAll(program, instances, ops, n - 1);
      BelowNext(program, ops, n - 1);
      if n - 1 in ops {
        s := RunOp(program, before, Below(ops, n - 1), instances, start, n - 1);
        cycle := start + program.tasks[n - 1].cost;
      } else {
        s, cycle := before, start;
      }
    }
  }

  lemma AllOpsClosed(program: Program, n: nat)
    requires program.WellFormed() && n <= |program.tasks|
    ensures Closed(program, AllOps(n)) && Below(AllOps(n), n) == AllOps(n)
  {
  }

  /** The first operations can be run one after the other, as if each were asked for. */
  lemma RunUpTo(program: Program, instances: nat, o: nat) returns (s: Snapshot, cycle: nat)
    requires program.WellFormed() && program.BuffersWritten() && instances >= 1 && o < |program.tasks|
    ensures Resting(program, s, AllOps(o + 1), instances, cycle) && s.spills.readySpilled == map[]
    ensures forall b :: b in program.tasks[o].outputs ==>
      b in s.spills.alive && b in s.line.producer && s.line.producer[b] == o
  {
    hide Resting, Program.WellFormed, Program.BuffersWritten, Closed;
    AllOpsClosed(program, o + 1);
    s, cycle := RunAll(program, instances, AllOps(o + 1), o + 1);
    assert o in Below(AllOps(o + 1), o + 1);
  }

  /** Buffer `b`, which is in memory, is written out when nothing is in flight. */
  lemma WriteOut(program: Program, s: Snapshot, done: set<nat>, instances: nat, cycle: nat, b: nat)
    returns (t: Snapshot, next: nat)
    requires Resting(program, s, done, instances, cycle) && b in s.spills.alive && b in s.line.producer
    ensures Resting(program, t, done, instances, next) && t.line.producer == s.line.producer
    ensures t.spills == s.spills.Evict(b, s.line.producer[b])
  {
    hide Good, Consistent, Pushed, Advance, AlignTo, ClocksGrow, FitsClocks, FitsData, SpillState.Matches,
      InsertByEnd, ListedAfter, Even, Shaped,
      Program.WellFormed;
    CandidateFacts(program, s, b);
    var o := s.line.producer[b];
    var mask := if program.wideBuffer[b] then AllOps(|s.line.clocks[program.writeQueue]|) else {0};
    var e := HeapElement(o, program.writeQueue, mask, cycle, cycle + program.spillCost[b], SpillWrite, b);
    next := e.cycleEnd;
    SpillWriteNow(program, s, done, instances, cycle, e);
    SpillWriteKeeps(program, s, {}, {}, e);
    SpillReadTables(program, s.line, e);
    var pushed := AfterSpillWrite(program, s, e);
    MoveKeeps(program, pushed, {}, {}, e);
    var moved := AfterMove(pushed, e);
    LandKeeps(program, moved, {}, {}, e);
    t := moved.(end := moved.end - {e});
    AloneInHeap(e);
    EvenAgain(s.line.clocks, cycle, e);
    PushedInTime(program, s.line, e);
    StillThere(s.line.clocks, t.line.clocks, program.readQueue);
  }

  lemma SpillWriteNow(program: Program, s: Snapshot, done: set<nat>, instances: nat, cycle: nat, e: HeapElement)
    requires Resting(program, s, done, instances, cycle) && e.IsSpillWriteOp() && e.cycleBegin == cycle
    requires e.queue == program.writeQueue
    requires QueuesReady(program, s.line.clocks) && e.op < |program.tasks| && e.buffer in program.tasks[e.op].outputs
    requires e.op in s.line.endCycles
    requires e.buffer < |program.spillCost| == |program.wideBuffer| && e.cycleEnd == cycle + program.spillCost[e.buffer]
    requires e.mask == if program.wideBuffer[e.buffer] then AllOps(|s.line.clocks[program.writeQueue]|) else {0}
    ensures FitsClocks(s.line.clocks, e) && FitsData(program, s.line, e) && Shaped(program, s.line.clocks, e)
  {
    hide Good, ListedAfter, Program.WellFormed;
    assert 0 in AllOps(|s.line.clocks[program.writeQueue]|);
  }

  /** The read of `b` at `cycle` on instance `inst`, or on all instances. */
  ghost function ReadAt(program: Program, s: Snapshot, o: nat, b: nat, cycle: nat, inst: nat): HeapElement
    requires b < |program.spillCost| == |program.wideBuffer| && program.readQueue in s.line.clocks
  {
    var mask := if program.wideBuffer[b] then AllOps(|s.line.clocks[program.readQueue]|) else {inst};
    HeapElement(o, program.readQueue, mask, cycle, cycle + program.spillCost[b], SpillRead, b)
  }

  /** A read can begin at `cycle` on an instance that is free then, when it is the first that is. */
  lemma ReadsNow(program: Program, s: Snapshot, o: nat, b: nat, cycle: nat, inst: nat)
    requires Good(program, s, {}, {}) && NoSpillWrites(s.begin) && b in s.spills.readySpilled
    requires s.spills.readySpilled[b] == o
    requires b < |program.spillCost| == |program.wideBuffer| && program.readQueue in s.line.clocks
    requires inst < |s.line.clocks[program.readQueue]|
    requires forall i :: 0 <= i < |s.line.clocks[program.readQueue]| ==> cycle <= s.line.clocks[program.readQueue][i]
    requires s.line.clocks[program.readQueue][inst] == cycle
    requires forall i :: 0 <= i < inst ==> cycle < s.line.clocks[program.readQueue][i]
    requires program.wideBuffer[b] ==> forall i :: 0 <= i < |s.line.clocks[program.readQueue]| ==>
      s.line.clocks[program.readQueue][i] == cycle
    requires program.WellFormed()
    ensures CanReadBack(program, s, ReadAt(program, s, o, b, cycle, inst))
  {
    hide Good, Program.WellFormed, NoSpillWrites;
    SpilledFacts(program, s, {}, {}, b);
    assert inst in AllOps(|s.line.clocks[program.readQueue]|);
    assert s.line.clocks[program.readQueue][inst] == cycle;
    assert FreeFirst(s.line.clocks[program.readQueue], inst);
  }

  lemma ReadKeeps(program: Program, s: Snapshot, e: HeapElement)
    requires Good(program, s, {}, {}) && program.WellFormed() && CanReadBack(program, s, e)
    ensures var next := AfterSpillRead(program, s, e);
      && Good(program, next, {}, {}) && NoSpillWrites(next.begin)
      && program.readQueue in s.line.clocks && program.readQueue in next.line.clocks
      && |next.line.clocks[program.readQueue]| == |s.line.clocks[program.readQueue]|
      && next.spills.readySpilled == s.spills.readySpilled - {e.buffer}
  {
    hide Good, Program.WellFormed, NoSpillWrites, Pushed, Advance;
    SpillReadKeeps(program, s, {}, {}, e);
    SpilledFacts(program, s, {}, {}, e.buffer);
  }
}
