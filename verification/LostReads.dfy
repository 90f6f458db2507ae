/** When the memory scheduler loses a spill read: the heap sorted by begin cycle takes two reads for
    the same operation that begin together for one, and keeps only the first. */
module LostReads {
  import opened ScheduleProgram
  import opened ReadyLists
  import opened TimelineModule
  import opened ScheduleTrace
  import opened SpillMaps
  import opened SchedulerState
  import opened SchedulerSteps
  import opened SequentialRun

  // One step

  /** Something that is still running or has just been put on the time line is not put there again. */
  lemma NotYetPushed(program: Program, line: Timeline, e: HeapElement)
    requires ClocksRecorded(line.clocks, line.pushed) && FitsClocks(line.clocks, e) && e.cycleBegin < e.cycleEnd
    ensures e !in line.pushed
  {
    var inst :| inst in e.mask;
    forall i | 0 <= i < |line.pushed|
      ensures line.pushed[i] != e
    {
      assert Busy(line.clocks, line.pushed[i]);
    }
  }

  /** A read that has been put on the time line is missing from heap and schedule exactly when the
      heap holds a read of another buffer of the same operation that begins at the same cycle. */
  lemma LostExactlyWhenRivalled(program: Program, s: Snapshot, pending: set<nat>, exempt: set<nat>, e: HeapElement)
    requires Good(program, s, pending, exempt) && program.WellFormed() && CanReadBack(program, s, e)
    ensures var next := AfterSpillRead(program, s, e);
      && e in next.line.pushed && (e !in next.begin <==> exists x :: Rival(s.begin, x, e))
      && (program.spillCost[e.buffer] >= 1 ==> e !in next.done)
      && (NothingLost(s) ==> (NothingLost(next) <==> e in next.begin))
  {
    hide Consistent, Valid, BuffersKept, QueuesReady, SpillState.Matches, Program.BuffersWritten, Program.WellFormed,
      AllShaped, BuffersFound,
      Located, ReadsApart, FitsClocks, FreeFirst, SameBegin, Rival, Represented, LonelySpillWrites, Shaped, InFlight;
    var next := AfterSpillRead(program, s, e);
    SpilledNotInFlight(program, s, pending, exempt, e.buffer);
    PushedLast(program, s.line, e);
    assert next.line.pushed[|s.line.pushed|] == e;
    forall x | x in s.begin
      ensures SameBegin(x, e) <==> Rival(s.begin, x, e)
    {
      OnlyReadsCollide(program, s, e, x);
    }
    NotItsOwnRival(s.begin, e);
    ReadHasCost(program, s.line.clocks, e);
    if program.spillCost[e.buffer] >= 1 {
      ReadTakesTime(program, s, e);
      NotYetPushed(program, s.line, e);
    }
    if NothingLost(s) {
      CountedLost(s, next, e);
    }
  }

  lemma NotItsOwnRival(begin: Heap, e: HeapElement)
    ensures !Rival(begin, e, e) && SameBegin(e, e) && forall x :: Rival(begin, x, e) ==> x in begin
  {
  }

  lemma ReadHasCost(program: Program, clocks: Clocks, e: HeapElement)
    requires program.WellFormed() && Shaped(program, clocks, e) && e.IsSpillReadOp()
    ensures e.buffer < |program.spillCost|
  {
    hide Program.WellFormed;
  }

  lemma ReadTakesTime(program: Program, s: Snapshot, e: HeapElement)
    requires program.WellFormed() && Valid(program, s.line) && CanReadBack(program, s, e)
    requires program.spillCost[e.buffer] >= 1
    ensures e.cycleBegin < e.cycleEnd && ClocksRecorded(s.line.clocks, s.line.pushed)
  {
    hide Program.WellFormed, GoodSchedule, TablesRecorded, ClocksRecorded, FitsClocks;
  }

  lemma CountedLost(s: Snapshot, next: Snapshot, e: HeapElement)
    requires NothingLost(s) && e !in s.begin && next.line.pushed == s.line.pushed + [e] && next.done == s.done
    requires next.begin == s.begin || next.begin == s.begin + {e}
    ensures NothingLost(next) <==> e in next.begin
  {
    assert multiset(s.begin + {e}) == multiset(s.begin) + multiset{e};
    if next.begin == s.begin {
      assert multiset(next.line.pushed)[e] == multiset(s.line.pushed)[e] + 1;
    }
  }

  // Two reads that begin together

  /** Buffers `b` and `c` of operation `o` have been spilled, and all executors are free. */
  ghost predicate BothSpilled(program: Program, s: Snapshot, done: set<nat>, instances: nat, cycle: nat, o: nat,
                              b: nat, c: nat) {
    && Resting(program, s, done, instances, cycle) && b != c && b in s.spills.readySpilled && c in s.spills.readySpilled
    && s.spills.readySpilled[b] == s.spills.readySpilled[c] == o
  }

  lemma SpillBoth(program: Program, instances: nat, o: nat, b: nat, c: nat) returns (s: Snapshot, cycle: nat)
    requires program.WellFormed() && program.BuffersWritten() && instances >= 1 && o < |program.tasks|
    requires b in program.tasks[o].outputs && c in program.tasks[o].outputs && b != c
    ensures BothSpilled(program, s, AllOps(o + 1), instances, cycle, o, b, c)
  {
    hide Resting, Program.WellFormed, Program.BuffersWritten;
    var ran, first := RunUpTo(program, instances, o);
    var one, second := WriteOut(program, ran, AllOps(o + 1), instances, first, b);
    s, cycle := WriteOut(program, one, AllOps(o + 1), instances, second, c);
  }

  /** After the read of `b` at `cycle` an instance on which `c` can be read is still free then. */
  lemma StillFree(program: Program, s: Snapshot, done: set<nat>, instances: nat, cycle: nat, o: nat, b: nat, c: nat)
    returns (inst: nat)
    requires BothSpilled(program, s, done, instances, cycle, o, b, c) && b < |program.spillCost| == |program.wideBuffer|
    requires c < |program.wideBuffer|
    requires instances >= 1 && BeginTogether(program, instances, b, c)
    ensures var clocks := Advance(s.line.clocks, ReadAt(program, s, o, b, cycle, 0))[program.readQueue];
      && inst < |clocks| == instances && clocks[inst] == cycle && (forall i :: 0 <= i < |clocks| ==> cycle <= clocks[i])
      && (program.wideBuffer[c] ==> forall i :: 0 <= i < |clocks| ==> clocks[i] == cycle)
      && forall i :: 0 <= i < inst ==> cycle < clocks[i]
  {
    hide Good, ListedAfter, Program.WellFormed;
    inst := if program.spillCost[b] == 0 then 0 else 1;
  }

  /** When two outputs of an operation can be read together, steps that keep the invariant lead to
      a state in which the second read is lost. */
  lemma ReadsCollide(program: Program, instances: nat, o: nat, b: nat, c: nat)
    returns (s: Snapshot, first: HeapElement, second: HeapElement)
    requires program.WellFormed() && program.BuffersWritten() && instances >= 1 && o < |program.tasks|
    requires b in program.tasks[o].outputs && c in program.tasks[o].outputs && b != c
    requires b < |program.spillCost| == |program.wideBuffer| && c < |program.wideBuffer|
    requires BeginTogether(program, instances, b, c)
    ensures Good(program, s, {}, {}) && program.readQueue in s.line.clocks
    ensures |s.line.clocks[program.readQueue]| == instances
    ensures s.begin == {} && CanReadBack(program, s, first) && first.op == o && first.buffer == b
    ensures var after := AfterSpillRead(program, s, first);
      && Good(program, after, {}, {}) && CanReadBack(program, after, second) && second.op == o && second.buffer == c
      && var last := AfterSpillRead(program, after, second);
      && Good(program, last, {}, {}) && last.begin == {first} && second in last.line.pushed
      && (program.spillCost[c] >= 1 ==> second !in last.done)
      && |last.line.clocks[program.readQueue]| == instances
  {
    hide Good, ListedAfter, Program.WellFormed, Program.BuffersWritten, CanReadBack, BeginTogether, Pushed, Advance,
      ClocksGrow;
    var cycle;
    s, cycle := SpillBoth(program, instances, o, b, c);
    first := ReadAt(program, s, o, b, cycle, 0);
    ReadsNow(program, s, o, b, cycle, 0);
    ReadKeeps(program, s, first);
    var after := AfterSpillRead(program, s, first);
    AloneInHeap(first);
    var inst := StillFree(program, s, AllOps(o + 1), instances, cycle, o, b, c);
    ReadsNow(program, after, o, c, cycle, inst);
    second := ReadAt(program, after, o, c, cycle, inst);
    assert Rival(after.begin, first, second);
    LostExactlyWhenRivalled(program, after, {}, {}, second);
    ReadKeeps(program, after, second);
  }

  /** A state that keeps the invariant, with this many instances of the read queue, in which `e` is read next. */
  ghost predicate ReadsNext(program: Program, instances: nat, s: Snapshot, e: HeapElement)
    requires program.WellFormed()
  {
    && Good(program, s, {}, {}) && program.readQueue in s.line.clocks && |s.line.clocks[program.readQueue]| == instances
    && CanReadBack(program, s, e)
  }

  /** Exactly when the outputs of all operations are read apart, no read is ever lost. */
  lemma ReadsApartIsExact(program: Program, instances: nat)
    requires program.WellFormed() && program.BuffersWritten() && instances >= 1
    ensures ReadsApart(program, instances) <==>
      forall s, e :: ReadsNext(program, instances, s, e) ==> e in AfterSpillRead(program, s, e).begin
  {
    hide Good, Program.WellFormed, Program.BuffersWritten, AfterSpillRead, BeginTogether, FitsClocks, Shaped, FreeFirst;
    if ReadsApart(program, instances) {
      forall s, e | ReadsNext(program, instances, s, e)
        ensures e in AfterSpillRead(program, s, e).begin
      {
        ApartNotLost(program, instances, s, e);
      }
    } else {
      BufferBounds(program);
      var o: nat, b: nat, c: nat :| o < |program.tasks| && b in program.tasks[o].outputs &&
        c in program.tasks[o].outputs && b != c &&
        BeginTogether(program, instances, b, c);
      var s, first, second := ReadsCollide(program, instances, o, b, c);
      var after := AfterSpillRead(program, s, first);
      SecondLost(program, instances, s, first, second);
      assert ReadsNext(program, instances, after, second);
    }
  }

  lemma BufferBounds(program: Program)
    requires program.WellFormed()
    ensures |program.spillCost| == |program.wideBuffer|
    ensures forall o, b {:trigger b in program.tasks[o].outputs} ::
      0 <= o < |program.tasks| && b in program.tasks[o].outputs ==> b < |program.spillCost|
  {
  }

  lemma ApartNotLost(program: Program, instances: nat, s: Snapshot, e: HeapElement)
    requires program.WellFormed() && ReadsApart(program, instances) && ReadsNext(program, instances, s, e)
    ensures e in AfterSpillRead(program, s, e).begin
  {
    hide Consistent, BuffersKept, QueuesReady, SpillState.Matches, Program.BuffersWritten, Program.WellFormed,
      ReadsApart, FitsClocks, FreeFirst,
      Rival, Represented, Shaped, InFlight, Emitted, Traced, Valid, InsertByBegin, Pushed, Advance;
    LostExactlyWhenRivalled(program, s, {}, {}, e);
    forall x
      ensures !Rival(s.begin, x, e)
    {
      NoRivals(program, s, e, x);
    }
  }

  lemma SecondLost(program: Program, instances: nat, s: Snapshot, first: HeapElement, second: HeapElement)
    requires program.WellFormed() && Good(program, s, {}, {}) && CanReadBack(program, s, first)
    requires first.buffer != second.buffer
    requires var after := AfterSpillRead(program, s, first);
      && Good(program, after, {}, {}) && CanReadBack(program, after, second)
      && AfterSpillRead(program, after, second).begin == {first}
    requires program.readQueue in s.line.clocks && |s.line.clocks[program.readQueue]| == instances
    ensures var after := AfterSpillRead(program, s, first);
      && ReadsNext(program, instances, after, second) && second !in AfterSpillRead(program, after, second).begin
  {
    hide Good, Program.WellFormed, CanReadBack, InsertByBegin, Pushed, Advance;
    ReadKeeps(program, s, first);
  }

  /** An operation that writes buffers 0 and 1, and one that reads both. */
  const TWO_OUTPUTS: Program :=
    Program([Task(Compute, 0, false, false, 100, {}, {0, 1}, {0, 1}),
      Task(Compute, 0, false, false, 50, {0, 1}, {2}, {0, 1, 2})],
            [{}, {0}], [{1}, {}], [20, 30, 10], [false, false, false], 1, 2)

  lemma TwoOutputsAreLegal()
    ensures TWO_OUTPUTS.WellFormed() && TWO_OUTPUTS.BuffersWritten() && ReadsApart(TWO_OUTPUTS, 1)
    ensures !ReadsApart(TWO_OUTPUTS, 2)
  {
    var outputs := TWO_OUTPUTS.tasks[0].outputs;
    assert 0 in outputs && 1 in outputs && BeginTogether(TWO_OUTPUTS, 2, 0, 1);
    assert TWO_OUTPUTS.WrittenBy(0, 0) && TWO_OUTPUTS.WrittenBy(0, 1) && 0 in TWO_OUTPUTS.deps[1];
  }

  /** Both outputs have been spilled and the read queue has two free instances: the second of two
      reads is on the time line, but neither in the heap nor in the schedule. */
  lemma SecondReadIsLost() returns (s: Snapshot, first: HeapElement, second: HeapElement)
    ensures TWO_OUTPUTS.WellFormed() && Good(TWO_OUTPUTS, s, {}, {}) && s.begin == {}
    ensures CanReadBack(TWO_OUTPUTS, s, first)
    ensures var after := AfterSpillRead(TWO_OUTPUTS, s, first);
      && CanReadBack(TWO_OUTPUTS, after, second) && first.op == second.op == 0 && first.buffer == 0
      && second.buffer == 1
      && var last := AfterSpillRead(TWO_OUTPUTS, after, second);
      && Good(TWO_OUTPUTS, last, {}, {}) && second in last.line.pushed && second !in last.begin && second !in last.done
  {
    hide Good, Program.WellFormed, Program.BuffersWritten, CanReadBack, AfterSpillRead, BeginTogether, ReadsApart;
    TwoOutputsAreLegal();
    TwoOutputsCollide();
    s, first, second := ReadsCollide(TWO_OUTPUTS, 2, 0, 0, 1);
  }

  lemma TwoOutputsCollide()
    ensures BeginTogether(TWO_OUTPUTS, 2, 0, 1)
  {
  }
}
