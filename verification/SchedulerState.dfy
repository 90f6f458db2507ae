/** The state of the memory scheduler, and what each of its steps keeps. */
module SchedulerState {
  import opened Reachability
  import opened DependencyReduction
  import opened ScheduleProgram
  import opened ReadyLists
  import opened TimelineModule
  import opened ScheduleTrace
  import opened SpillMaps

  type Heap = set<HeapElement>

  /** Elements that the heap sorted by begin cycle takes for the same. */
  predicate SameBegin(a: HeapElement, b: HeapElement) {
    a.cycleBegin == b.cycleBegin && (a.opType == Prefetched <==> b.opType == Prefetched) && a.op == b.op
  }

  predicate SameEnd(a: HeapElement, b: HeapElement) {
    a.cycleEnd == b.cycleEnd && (a.opType == Prefetched <==> b.opType == Prefetched) && a.op == b.op
  }

  /** A heap does not take an element when it has one like it. */
  function InsertByBegin(heap: Heap, e: HeapElement): Heap {
    if exists x :: x in heap && SameBegin(x, e) then heap else heap + {e}
  }

  function InsertByEnd(heap: Heap, e: HeapElement): Heap {
    if exists x :: x in heap && SameEnd(x, e) then heap else heap + {e}
  }

  ghost predicate QueuesReady(program: Program, clocks: Clocks) {
    && (forall o {:trigger program.tasks[o]} :: 0 <= o < |program.tasks| ==>
          program.tasks[o].queue in clocks && clocks[program.tasks[o].queue] != [])
    && program.readQueue in clocks && clocks[program.readQueue] != [] && program.writeQueue in clocks
    && clocks[program.writeQueue] != []
  }

  /** `begin` and `end` are the two heaps, `done` is the schedule so far. */
  datatype Snapshot = Snapshot(ready: ReadyState, line: Timeline, spills: SpillState, begin: Heap, end: Heap,
                               done: seq<HeapElement>)

  /** Elements in flight are on the time line.  An operation in flight is there once, has not been
      spilled, and its consumers still count it when it is a compute operation. */
  ghost predicate InFlight(program: Program, s: Snapshot) {
    && (forall e :: e in s.begin + s.end ==> e in s.line.pushed)
    && (forall e :: e in s.begin + s.end && e.IsOriginalOp() ==>
          && e.op < |program.tasks| && e.op !in s.spills.spillBuffers
          && (program.IsComputeOp(e.op) ==> e.op !in s.ready.released))
    && (forall e, f :: e in s.begin + s.end && f in s.begin + s.end && e.IsOriginalOp() && e.op == f.op ==> e == f)
  }

  /** Buffers in memory have been written, except those in `exempt`; the last writer of a buffer has
      it among its outputs. */
  ghost predicate BuffersKept(program: Program, s: Snapshot, exempt: set<nat>) {
    && (forall b :: b in s.spills.alive && b !in exempt ==> b in s.line.producer)
    && (forall b :: b in s.line.producer ==>
          s.line.producer[b] < |program.tasks| && b in program.tasks[s.line.producer[b]].outputs)
    && (forall o, b {:trigger b in program.tasks[o].outputs} ::
          o in s.line.endCycles && o < |program.tasks| && b in program.tasks[o].outputs ==> b in s.line.producer)
  }

  /** A spill write is on its own. */
  ghost predicate LonelySpillWrites(begin: Heap) {
    forall e :: e in begin && e.IsSpillWriteOp() ==> begin == {e}
  }

  ghost predicate NoSpillWrites(begin: Heap) {
    forall e :: e in begin ==> !e.IsSpillWriteOp()
  }

  /** Something that begins at the same cycle for the same operation is in the schedule or about to be. */
  ghost predicate Represented(done: seq<HeapElement>, begin: Heap, e: HeapElement) {
    exists f :: (f in done || f in begin) && SameBegin(f, e)
  }

  /** Every operation on the time line is in the schedule or about to be; of spills that the heap
      takes for the same, one is. */
  ghost predicate Emitted(s: Snapshot) {
    && (forall e :: e in s.line.pushed ==> Represented(s.done, s.begin, e))
    && (forall e :: e in s.done ==> e in s.line.pushed)
    && (forall e :: e in s.line.pushed && e.IsOriginalOp() ==> e in s.done || e in s.begin)
    && OnceEach(s.done)
    && (forall e, f :: e in s.begin && f in s.done && e.IsOriginalOp() && f.IsOriginalOp() ==> e.op != f.op)
    && LonelySpillWrites(s.begin)
  }

  /** Reads about to be scheduled are of buffers that are no longer spilled. */
  ghost predicate ReadsDone(begin: Heap, spilled: map<nat, nat>) {
    forall e :: e in begin && e.IsSpillReadOp() ==> e.buffer !in spilled
  }

  /** Everything on the time line is in the schedule or about to be, as often as it was put there. */
  ghost predicate NothingLost(s: Snapshot) {
    multiset(s.line.pushed) == multiset(s.done) + multiset(s.begin)
  }

  /** What the time line tells agrees with the tables, and nothing gets lost when no two reads for
      one operation can begin together. */
  ghost predicate Traced(program: Program, s: Snapshot) {
    && program.WellFormed() && program.readQueue in s.line.clocks
    && AllShaped(program, s.line.clocks, s.line.pushed) && BuffersFound(program, s.line.pushed)
    && Located(program, s.line.pushed, s.line.producer, s.spills.readySpilled)
    && ReadsDone(s.begin, s.spills.readySpilled)
    && (ReadsApart(program, |s.line.clocks[program.readQueue]|) ==> NothingLost(s))
  }

  /** The invariant of every run; `pending` are operations about to be put on a list. */
  ghost predicate Good(program: Program, s: Snapshot, pending: set<nat>, exempt: set<nat>) {
    && Consistent(program, s.ready, pending) && s.ready.scheduled == s.line.endCycles.Keys
    && Valid(program, s.line) && QueuesReady(program, s.line.clocks) && program.BuffersWritten()
    && InFlight(program, s) && s.spills.Matches(s.line.producer) && BuffersKept(program, s, exempt) && Emitted(s)
    && Traced(program, s)
  }

  /** Spill read `e` is put on the time line. */
  ghost function AfterSpillRead(program: Program, s: Snapshot, e: HeapElement): Snapshot
    requires e.IsSpillReadOp()
  {
    s.(spills := s.spills.ReadBack(e.buffer, e.op),
       line := Pushed(program, s.line, e).(clocks := Advance(s.line.clocks, e)),
       begin := InsertByBegin(s.begin, e))
  }

  /** Operation `e.op` is taken from its list and put on the time line. */
  ghost function AfterOp(program: Program, s: Snapshot, e: HeapElement): Snapshot
    requires e.IsOriginalOp() && e.op < |program.tasks|
  {
    s.(ready := Taken(s.ready, e.op),
       line := Pushed(program, s.line, e).(clocks := Advance(s.line.clocks, e)),
       begin := InsertByBegin(s.begin, e))
  }

  /** Spill write `e` is put on the time line, after which all executors are aligned. */
  ghost function AfterSpillWrite(program: Program, s: Snapshot, e: HeapElement): Snapshot
    requires e.IsSpillWriteOp()
  {
    s.(spills := s.spills.Evict(e.buffer, e.op),
       line := Pushed(program, s.line, e).(clocks := AlignTo(Advance(s.line.clocks, e), e.cycleEnd)),
       begin := InsertByBegin(s.begin, e))
  }

  /** Element `e` joins the schedule. */
  ghost function AfterMove(s: Snapshot, e: HeapElement): Snapshot {
    s.(begin := s.begin - {e}, end := InsertByEnd(s.end, e), done := s.done + [e])
  }

  lemma QueuesStayReady(program: Program, before: Clocks, after: Clocks)
    requires QueuesReady(program, before) && ClocksGrow(before, after)
    ensures QueuesReady(program, after)
  {
  }

  lemma AdvanceGrows(clocks: Clocks, e: HeapElement)
    requires FitsClocks(clocks, e)
    ensures ClocksGrow(clocks, Advance(clocks, e))
  {
  }

  /** Reading a buffer back changes neither who wrote it last nor which operations are scheduled. */
  lemma SpillReadTables(program: Program, line: Timeline, e: HeapElement)
    requires !e.IsOriginalOp() && e.buffer in line.producer && e.op == line.producer[e.buffer] && e.op in line.endCycles
    ensures Pushed(program, line, e).producer == line.producer
    ensures Pushed(program, line, e).endCycles.Keys == line.endCycles.Keys
    ensures Pushed(program, line, e).pushed == line.pushed + [e]
  {
  }

  lemma PushInFlight(program: Program, s: Snapshot, next: Snapshot, e: HeapElement)
    requires InFlight(program, s) && next.begin == InsertByBegin(s.begin, e) && next.end == s.end
    requires next.line.pushed == s.line.pushed + [e]
    requires next.ready.released == s.ready.released
    requires forall o :: o in next.spills.spillBuffers ==>
      o in s.spills.spillBuffers || forall f :: f in s.begin + s.end && f.IsOriginalOp() ==> f.op != o
    requires e.IsOriginalOp() ==> e.op < |program.tasks| && e.op !in next.spills.spillBuffers
    requires e.IsOriginalOp() && program.IsComputeOp(e.op) ==> e.op !in s.ready.released
    requires forall f :: f in s.begin + s.end && (e.IsOriginalOp() || f.IsOriginalOp()) ==> f.op != e.op
    ensures InFlight(program, next)
  {
    assert forall f :: f in next.begin + next.end ==> f in s.begin + s.end || f == e;
    assert e in next.line.pushed && forall f :: f in s.line.pushed ==> f in next.line.pushed;
  }

  lemma PushEmitted(program: Program, s: Snapshot, next: Snapshot, e: HeapElement)
    requires Emitted(s) && NoSpillWrites(s.begin) && next.begin == InsertByBegin(s.begin, e)
    requires next.line.pushed == s.line.pushed + [e] && next.done == s.done
    requires e.IsOriginalOp() ==> e in next.begin && forall f :: f in s.line.pushed ==> f.op != e.op
    requires e.IsSpillWriteOp() ==> s.begin == {}
    ensures Emitted(next)
  {
    assert forall f :: f in next.line.pushed ==> f in s.line.pushed || f == e;
    assert forall f :: f in s.line.pushed ==> f in next.line.pushed;
    forall f | f in next.line.pushed
      ensures Represented(next.done, next.begin, f)
    {
      if f in s.line.pushed {
        assert Represented(s.done, s.begin, f);
      } else {
        assert e in next.begin ==> SameBegin(e, e);
      }
    }
  }

  /** Spilled buffers have writers that are not in flight. */
  lemma SpilledNotInFlight(program: Program, s: Snapshot, pending: set<nat>, exempt: set<nat>, b: nat)
    requires Good(program, s, pending, exempt) && b in s.spills.readySpilled
    ensures b in s.line.producer && s.line.producer[b] == s.spills.readySpilled[b]
    ensures s.line.producer[b] in s.line.endCycles
    ensures forall f :: f in s.begin + s.end && f.IsOriginalOp() ==> f.op != s.spills.readySpilled[b]
  {
  }

  /** The clocks, the ready lists, the buffers in memory or the heap sorted by end cycle may change. */
  lemma TracedStays(program: Program, s: Snapshot, next: Snapshot)
    requires Traced(program, s) && next.line == s.line.(clocks := next.line.clocks)
    requires ClocksGrow(s.line.clocks, next.line.clocks)
    requires next.spills.readySpilled == s.spills.readySpilled && next.begin == s.begin && next.done == s.done
    ensures Traced(program, next)
  {
    hide Program.WellFormed, AllShaped, BuffersFound, Located, ReadsApart;
    ShapedStays(program, s.line.clocks, next.line.clocks, s.line.pushed);
  }

  lemma SameClocksGrow(clocks: Clocks)
    ensures ClocksGrow(clocks, clocks)
  {
  }

  /** The element joins the heap sorted by begin cycle. */
  lemma InsertedNotLost(s: Snapshot, next: Snapshot, e: HeapElement)
    requires NothingLost(s) && next.line.pushed == s.line.pushed + [e] && next.done == s.done
    requires next.begin == InsertByBegin(s.begin, e)
    requires forall x :: x in s.begin ==> !SameBegin(x, e)
    ensures NothingLost(next)
  {
    assert e in s.begin ==> SameBegin(e, e);
    assert multiset(s.begin + {e}) == multiset(s.begin) + multiset{e};
  }

  lemma PushTraced(program: Program, s: Snapshot, next: Snapshot, e: HeapElement)
    requires Traced(program, s) && next.line.pushed == s.line.pushed + [e] && next.done == s.done
    requires next.begin == InsertByBegin(s.begin, e)
    requires ClocksGrow(s.line.clocks, next.line.clocks) && Shaped(program, s.line.clocks, e)
    requires FindsBuffers(program, s.line.pushed, |s.line.pushed|, e)
    requires Located(program, next.line.pushed, next.line.producer, next.spills.readySpilled)
    requires ReadsDone(next.begin, next.spills.readySpilled)
    requires ReadsApart(program, |s.line.clocks[program.readQueue]|) ==> forall x :: x in s.begin ==> !SameBegin(x, e)
    ensures Traced(program, next)
  {
    hide Program.WellFormed, AllShaped, BuffersFound, Located, ReadsApart, FindsBuffers, Shaped, ReadsDone, SameBegin,
      NothingLost, InsertByBegin;
    PushShaped(program, s.line.clocks, next.line.clocks, s.line.pushed, e);
    PushFinds(program, s.line.pushed, e);
    if ReadsApart(program, |s.line.clocks[program.readQueue]|) {
      InsertedNotLost(s, next, e);
    }
  }

  /** A read that begins together with `e` for the same operation. */
  ghost predicate Rival(begin: Heap, x: HeapElement, e: HeapElement) {
    x in begin && x.IsSpillReadOp() && x.op == e.op && x.buffer != e.buffer && x.cycleBegin == e.cycleBegin
  }

  /** A read of a spilled buffer is taken for another element exactly when that one is a read of
      another buffer of the same operation that begins together with it. */
  lemma OnlyReadsCollide(program: Program, s: Snapshot, e: HeapElement, x: HeapElement)
    requires InFlight(program, s) && NoSpillWrites(s.begin) && ReadsDone(s.begin, s.spills.readySpilled) && x in s.begin
    requires e.IsSpillReadOp() && e.buffer in s.spills.readySpilled
    requires forall f :: f in s.begin && f.IsOriginalOp() ==> f.op != e.op
    ensures SameBegin(x, e) <==> Rival(s.begin, x, e)
  {
  }

  lemma NoRivals(program: Program, s: Snapshot, e: HeapElement, x: HeapElement)
    requires Traced(program, s) && InFlight(program, s) && Valid(program, s.line)
    requires ReadsApart(program, |s.line.clocks[program.readQueue]|)
    requires e.IsSpillReadOp() && Shaped(program, s.line.clocks, e) && FitsClocks(s.line.clocks, e)
    ensures !Rival(s.begin, x, e)
  {
    hide Program.WellFormed, BuffersFound, Located, ReadsApart, FitsClocks, GoodSchedule, TablesRecorded, Shaped;
    if Rival(s.begin, x, e) {
      var i :| 0 <= i < |s.line.pushed| && s.line.pushed[i] == x;
      assert Busy(s.line.clocks, s.line.pushed[i]);
      assert Shaped(program, s.line.clocks, s.line.pushed[i]);
      ReadsBeginApart(program, s.line.clocks, x, e);
    }
  }

  lemma ReadFindsBuffer(program: Program, s: Snapshot, e: HeapElement)
    requires Traced(program, s) && s.spills.Matches(s.line.producer) && e.IsSpillReadOp()
    requires e.buffer in s.spills.readySpilled && e.op == s.spills.readySpilled[e.buffer]
    ensures FindsBuffers(program, s.line.pushed, |s.line.pushed|, e)
    ensures Located(program, s.line.pushed + [e], s.line.producer, s.spills.readySpilled - {e.buffer})
  {
    hide Program.WellFormed, AllShaped, BuffersFound, ReadsApart, PlaceOf;
    assert LocatedAt(program, s.line.pushed, s.line.producer, s.spills.readySpilled, e.buffer);
    PushLocated(program, s.line.pushed, e, s.line.producer, s.spills.readySpilled, s.line.producer,
      s.spills.readySpilled - {e.buffer});
  }

  lemma SpillReadTraced(program: Program, s: Snapshot, e: HeapElement)
    requires Traced(program, s) && InFlight(program, s) && Valid(program, s.line) && s.spills.Matches(s.line.producer)
    requires NoSpillWrites(s.begin) && e.IsSpillReadOp() && FitsClocks(s.line.clocks, e)
    requires Shaped(program, s.line.clocks, e)
    requires e.buffer in s.spills.readySpilled && e.op == s.spills.readySpilled[e.buffer]
    requires forall f :: f in s.begin + s.end && f.IsOriginalOp() ==> f.op != e.op
    requires Pushed(program, s.line, e).producer == s.line.producer
    requires Pushed(program, s.line, e).pushed == s.line.pushed + [e]
    requires ClocksGrow(s.line.clocks, Advance(s.line.clocks, e))
    ensures Traced(program, AfterSpillRead(program, s, e))
  {
    hide Program.WellFormed, AllShaped, BuffersFound, Located, ReadsApart, FindsBuffers, Shaped, SameBegin, Valid,
      InFlight, FitsClocks, Advance,
      ClocksGrow, Pushed, Rival, NothingLost, SpillState.Matches;
    var next := AfterSpillRead(program, s, e);
    ReadFindsBuffer(program, s, e);
    forall x | x in s.begin && ReadsApart(program, |s.line.clocks[program.readQueue]|)
      ensures !SameBegin(x, e)
    {
      NoRivals(program, s, e, x);
      OnlyReadsCollide(program, s, e, x);
    }
    assert next.spills.readySpilled == s.spills.readySpilled - {e.buffer};
    assert ReadsDone(next.begin, next.spills.readySpilled);
    PushTraced(program, s, next, e);
  }

  lemma SpillReadKeeps(program: Program, s: Snapshot, pending: set<nat>, exempt: set<nat>, e: HeapElement)
    requires Good(program, s, pending, exempt) && NoSpillWrites(s.begin) && e.IsSpillReadOp()
    requires FitsClocks(s.line.clocks, e)
    requires e.buffer in s.spills.readySpilled && e.op == s.spills.readySpilled[e.buffer]
    requires Shaped(program, s.line.clocks, e)
    ensures Good(program, AfterSpillRead(program, s, e), pending, exempt) && NoSpillWrites(InsertByBegin(s.begin, e))
    ensures ClocksGrow(s.line.clocks, Advance(s.line.clocks, e))
  {
    hide Consistent, TimelineModule.Valid, InFlight, BuffersKept, Emitted, QueuesReady, SpillState.Matches,
      FitsClocks, Advance,
      ClocksGrow, Pushed, Program.BuffersWritten, Program.WellFormed, Traced, Shaped;
    var next := AfterSpillRead(program, s, e);
    SpilledNotInFlight(program, s, pending, exempt, e.buffer);
    SpillReadTables(program, s.line, e);
    s.spills.ReadBackKeepsMatch(s.line.producer, e.buffer);
    assert FitsData(program, s.line, e);
    PushKeepsValid(program, s.line, e);
    AdvanceGrows(s.line.clocks, e);
    QueuesStayReady(program, s.line.clocks, next.line.clocks);
    PushInFlight(program, s, next, e);
    PushEmitted(program, s, next, e);
    SpillReadBuffers(program, s, exempt, e);
    SpillReadTraced(program, s, e);
  }

  lemma SpillReadBuffers(program: Program, s: Snapshot, exempt: set<nat>, e: HeapElement)
    requires BuffersKept(program, s, exempt) && e.IsSpillReadOp() && e.buffer in s.line.producer
    requires Pushed(program, s.line, e).producer == s.line.producer
    requires Pushed(program, s.line, e).endCycles.Keys == s.line.endCycles.Keys
    ensures BuffersKept(program, AfterSpillRead(program, s, e), exempt)
  {
  }

  /** When an operation is scheduled, so are its dependencies. */
  lemma DepScheduled(program: Program, line: Timeline, o: nat, d: nat)
    requires Valid(program, line) && o in line.endCycles && o < |program.deps| && d in program.deps[o]
    ensures d in line.endCycles
  {
    assert HasOriginal(line.pushed, o);
    var i :| 0 <= i < |line.pushed| && line.pushed[i].IsOriginalOp() && line.pushed[i].op == o;
    assert DepsDone(program, line.pushed, i);
    assert DoneBefore(line.pushed, d, i);
    assert HasOriginal(line.pushed, d);
  }

  ghost predicate OutputsRecorded(program: Program, line: Timeline) {
    forall o, b {:trigger b in program.tasks[o].outputs} ::
      o in line.endCycles && o < |program.tasks| && b in program.tasks[o].outputs ==> b in line.producer
  }

  lemma {:induction false} WrittenHasProducer(program: Program, line: Timeline, o: nat, b: nat)
    requires Valid(program, line) && OutputsRecorded(program, line) && o < |program.tasks| && o in line.endCycles
    requires program.WrittenBy(o, b)
    ensures b in line.producer
    decreases o
  {
    if b !in program.tasks[o].outputs {
      var d :| d in program.deps[o] && program.WrittenBy(d, b);
      DepScheduled(program, line, o, d);
      WrittenHasProducer(program, line, d, b);
    }
  }

  lemma OpTables(program: Program, line: Timeline, e: HeapElement)
    requires e.IsOriginalOp() && e.op < |program.tasks|
    ensures var next := Pushed(program, line, e);
      && next.pushed == line.pushed + [e] && next.endCycles.Keys == line.endCycles.Keys + {e.op}
      && next.producer.Keys == line.producer.Keys + program.tasks[e.op].outputs
      && forall b :: b in next.producer ==>
           next.producer[b] == if b in program.tasks[e.op].outputs then e.op else line.producer[b]
  {
  }

  lemma OpBuffers(program: Program, s: Snapshot, exempt: set<nat>, e: HeapElement)
    requires e.IsOriginalOp() && e.op < |program.tasks| && program.WellFormed() && program.BuffersWritten()
    requires BuffersKept(program, s, exempt + program.tasks[e.op].used) && Valid(program, AfterOp(program, s, e).line)
    ensures BuffersKept(program, AfterOp(program, s, e), exempt)
  {
    hide Valid, InsertByBegin, Taken, Pushed, Program.WellFormed;
    var next := AfterOp(program, s, e);
    OpTables(program, s.line, e);
    assert OutputsRecorded(program, next.line);
    forall b | b in next.spills.alive && b !in exempt
      ensures b in next.line.producer
    {
      if b in program.tasks[e.op].used {
        WrittenHasProducer(program, next.line, e.op, b);
      }
    }
  }

  lemma OpIsNew(program: Program, s: Snapshot, e: HeapElement)
    requires InFlight(program, s) && Valid(program, s.line) && e.op !in s.line.endCycles
    ensures e in InsertByBegin(s.begin, e) && (forall f :: f in s.begin + s.end ==> f.op != e.op)
    ensures forall f :: f in s.line.pushed ==> f.op != e.op
  {
  }

  /** Nothing the operation uses is spilled, and what its dependencies write is in memory. */
  lemma OpFindsBuffers(program: Program, s: Snapshot, e: HeapElement)
    requires Traced(program, s) && Valid(program, s.line) && OutputsRecorded(program, s.line)
    requires s.spills.Matches(s.line.producer)
    requires e.IsOriginalOp() && e.op < |program.tasks| && program.tasks[e.op].used !! s.spills.dynamicSpill
    requires FitsData(program, s.line, e)
    ensures FindsBuffers(program, s.line.pushed, |s.line.pushed|, e)
  {
    hide AllShaped, BuffersFound, ReadsApart, PlaceOf, Valid, OutputsRecorded, NothingLost;
    forall b | b in program.tasks[e.op].used
      ensures !PlaceOf(program, s.line.pushed, |s.line.pushed|, b).Spilled?
      ensures WrittenAhead(program, e.op, b) ==> PlaceOf(program, s.line.pushed, |s.line.pushed|, b).InMemory?
    {
      assert LocatedAt(program, s.line.pushed, s.line.producer, s.spills.readySpilled, b);
      if WrittenAhead(program, e.op, b) {
        var d :| d in program.deps[e.op] && program.WrittenBy(d, b);
        WrittenHasProducer(program, s.line, d, b);
      }
    }
  }

  lemma OpTraced(program: Program, s: Snapshot, e: HeapElement)
    requires Traced(program, s) && s.spills.Matches(s.line.producer)
    requires ClocksGrow(s.line.clocks, Advance(s.line.clocks, e))
    requires e.IsOriginalOp() && e.op < |program.tasks| && program.tasks[e.op].used !! s.spills.dynamicSpill
    requires Shaped(program, s.line.clocks, e) && FindsBuffers(program, s.line.pushed, |s.line.pushed|, e)
    requires forall f :: f in s.begin + s.end ==> f.op != e.op
    ensures Traced(program, AfterOp(program, s, e))
  {
    hide AllShaped, BuffersFound, Located, ReadsApart, FindsBuffers, Shaped, Advance, ClocksGrow, Pushed, NothingLost,
      PlaceOf;
    var next := AfterOp(program, s, e);
    OpTables(program, s.line, e);
    PushLocated(program, s.line.pushed, e, s.line.producer, s.spills.readySpilled, next.line.producer,
      s.spills.readySpilled);
    PushTraced(program, s, next, e);
  }

  lemma OpKeeps(program: Program, s: Snapshot, pending: set<nat>, exempt: set<nat>, e: HeapElement)
    requires e.IsOriginalOp() && e.op in s.ready.compute + s.ready.dma + s.ready.data && e.op < |program.tasks|
    requires Good(program, s, pending, exempt + program.tasks[e.op].used) && NoSpillWrites(s.begin)
    requires FitsClocks(s.line.clocks, e) && FitsData(program, s.line, e)
    requires program.tasks[e.op].used !! s.spills.dynamicSpill
    requires e.queue == program.tasks[e.op].queue && e.cycleEnd == e.cycleBegin + program.tasks[e.op].cost
    ensures Good(program, AfterOp(program, s, e), pending, exempt) && NoSpillWrites(InsertByBegin(s.begin, e))
    ensures e in InsertByBegin(s.begin, e)
    ensures ClocksGrow(s.line.clocks, Advance(s.line.clocks, e))
  {
    hide Consistent, Valid, InFlight, BuffersKept, Emitted, QueuesReady, FitsClocks, Advance, ClocksGrow, Pushed,
      Program.BuffersWritten,
      Program.WellFormed, Traced, FindsBuffers, OutputsRecorded;
    var next := AfterOp(program, s, e);
    TakingKeeps(program, s.ready, pending, e.op);
    OpTables(program, s.line, e);
    PushKeepsValid(program, s.line, e);
    AdvanceGrows(s.line.clocks, e);
    QueuesStayReady(program, s.line.clocks, next.line.clocks);
    NotYetReleased(program, s, pending, exempt + program.tasks[e.op].used, e.op);
    OpIsNew(program, s, e);
    PushInFlight(program, s, next, e);
    PushEmitted(program, s, next, e);
    OpBuffers(program, s, exempt, e);
    OpMatches(program, s, e);
    OutputsAreRecorded(program, s, exempt + program.tasks[e.op].used);
    TracedFacts(program, s);
    OpFindsBuffers(program, s, e);
    OpTraced(program, s, e);
  }

  lemma OutputsAreRecorded(program: Program, s: Snapshot, exempt: set<nat>)
    requires BuffersKept(program, s, exempt)
    ensures OutputsRecorded(program, s.line)
  {
  }

  lemma TracedFacts(program: Program, s: Snapshot)
    requires Traced(program, s)
    ensures program.WellFormed() && program.readQueue in s.line.clocks
  {
  }

  lemma OpMatches(program: Program, s: Snapshot, e: HeapElement)
    requires e.IsOriginalOp() && e.op < |program.tasks| && program.WellFormed()
    requires s.spills.Matches(s.line.producer) && program.tasks[e.op].used !! s.spills.dynamicSpill
    ensures s.spills.Matches(Pushed(program, s.line, e).producer)
  {
    OpTables(program, s.line, e);
    s.spills.NewWritersKeepMatch(s.line.producer, Pushed(program, s.line, e).producer);
  }

  /** An operation that has not been scheduled has not been spilled; if it is not a data operation,
      nor has it been released. */
  lemma NotYetReleased(program: Program, s: Snapshot, pending: set<nat>, exempt: set<nat>, o: nat)
    requires Good(program, s, pending, exempt) && o < |program.tasks| && o !in s.line.endCycles
    ensures o !in s.spills.spillBuffers && (!program.IsDataOp(o) ==> o !in s.ready.released)
    ensures (program.IsComputeOp(o) ==> o !in s.ready.released)
  {
  }

  lemma SpillWriteTraced(program: Program, s: Snapshot, e: HeapElement)
    requires Traced(program, s) && s.spills.Matches(s.line.producer) && s.begin == {} && e.IsSpillWriteOp()
    requires e.buffer in s.spills.alive && e.buffer in s.line.producer && e.op == s.line.producer[e.buffer]
    requires Shaped(program, s.line.clocks, e) && Pushed(program, s.line, e).producer == s.line.producer
    requires Pushed(program, s.line, e).pushed == s.line.pushed + [e]
    requires ClocksGrow(s.line.clocks, AlignTo(Advance(s.line.clocks, e), e.cycleEnd))
    ensures Traced(program, AfterSpillWrite(program, s, e))
  {
    hide Program.WellFormed, AllShaped, BuffersFound, ReadsApart, Shaped, Advance, AlignTo, ClocksGrow, Pushed,
      NothingLost, PlaceOf;
    var next := AfterSpillWrite(program, s, e);
    assert LocatedAt(program, s.line.pushed, s.line.producer, s.spills.readySpilled, e.buffer);
    PushLocated(program, s.line.pushed, e, s.line.producer, s.spills.readySpilled, s.line.producer,
      next.spills.readySpilled);
    PushTraced(program, s, next, e);
  }

  /** A buffer in memory is written back when nothing is in flight. */
  lemma SpillWriteKeeps(program: Program, s: Snapshot, pending: set<nat>, exempt: set<nat>, e: HeapElement)
    requires Good(program, s, pending, exempt) && s.begin == {} && s.end == {} && e.IsSpillWriteOp()
    requires e.buffer in s.spills.alive && e.buffer in s.line.producer && e.op == s.line.producer[e.buffer]
    requires FitsClocks(s.line.clocks, e) && FitsData(program, s.line, e) && Shaped(program, s.line.clocks, e)
    ensures Good(program, AfterSpillWrite(program, s, e), pending, exempt) && InsertByBegin(s.begin, e) == {e}
    ensures ClocksGrow(s.line.clocks, AlignTo(Advance(s.line.clocks, e), e.cycleEnd))
  {
    hide Consistent, Valid, InFlight, BuffersKept, Emitted, QueuesReady, SpillState.Matches, FitsClocks, Advance,
      AlignTo, ClocksGrow,
      Pushed, Program.BuffersWritten, Program.WellFormed, Traced, Shaped;
    var next := AfterSpillWrite(program, s, e);
    SpillReadTables(program, s.line, e);
    s.spills.EvictKeepsMatch(s.line.producer, e.buffer);
    SpillWriteKeepsValid(program, s.line, e);
    AdvanceGrows(s.line.clocks, e);
    AlignGrows(Advance(s.line.clocks, e), e.cycleEnd);
    ClocksGrowTransitive(s.line.clocks, Advance(s.line.clocks, e), next.line.clocks);
    QueuesStayReady(program, s.line.clocks, next.line.clocks);
    PushInFlight(program, s, next, e);
    PushEmitted(program, s, next, e);
    SpillWriteBuffers(program, s, exempt, e);
    SpillWriteTraced(program, s, e);
  }

  lemma SpillWriteBuffers(program: Program, s: Snapshot, exempt: set<nat>, e: HeapElement)
    requires BuffersKept(program, s, exempt) && e.IsSpillWriteOp()
    requires Pushed(program, s.line, e).producer == s.line.producer
    requires Pushed(program, s.line, e).endCycles.Keys == s.line.endCycles.Keys
    ensures BuffersKept(program, AfterSpillWrite(program, s, e), exempt)
  {
  }

  lemma MoveEmitted(program: Program, s: Snapshot, e: HeapElement)
    requires InFlight(program, s) && Emitted(s) && e in s.begin
    ensures Emitted(AfterMove(s, e))
  {
    hide InsertByEnd, SameBegin;
    var next := AfterMove(s, e);
    assert forall f :: f in s.done + [e] ==> f in s.done || f == e;
    assert forall i :: 0 <= i < |s.done| ==> (s.done + [e])[i] in s.done;
    assert forall f :: f in s.done ==> f in s.done + [e];
    assert e in s.done + [e];
    forall f | f in s.line.pushed
      ensures Represented(next.done, next.begin, f)
    {
      assert Represented(s.done, s.begin, f);
    }
  }

  lemma MoveInFlight(program: Program, s: Snapshot, e: HeapElement)
    requires InFlight(program, s) && e in s.begin
    ensures InFlight(program, AfterMove(s, e)) && (e.IsOriginalOp() ==> e in InsertByEnd(s.end, e))
  {
  }

  lemma MoveTraced(program: Program, s: Snapshot, e: HeapElement)
    requires Traced(program, s) && e in s.begin
    ensures Traced(program, AfterMove(s, e))
  {
    hide Program.WellFormed, AllShaped, BuffersFound, Located, ReadsApart, InsertByEnd;
    assert multiset(s.begin) == multiset(s.begin - {e}) + multiset{e};
  }

  lemma MoveKeeps(program: Program, s: Snapshot, pending: set<nat>, exempt: set<nat>, e: HeapElement)
    requires Good(program, s, pending, exempt) && e in s.begin
    ensures Good(program, AfterMove(s, e), pending, exempt) && (e.IsOriginalOp() ==> e in InsertByEnd(s.end, e))
  {
    hide Consistent, Valid, BuffersKept, QueuesReady, SpillState.Matches, Program.BuffersWritten, Program.WellFormed,
      InFlight, Emitted, InsertByEnd, Traced;
    MoveInFlight(program, s, e);
    MoveEmitted(program, s, e);
    MoveBuffers(program, s, exempt, e);
    MoveTraced(program, s, e);
  }

  lemma MoveBuffers(program: Program, s: Snapshot, exempt: set<nat>, e: HeapElement)
    requires BuffersKept(program, s, exempt)
    ensures BuffersKept(program, AfterMove(s, e), exempt)
  {
  }

  /** The ready lists change, and only operations that are not in flight or not compute operations are released. */
  lemma ReadyChangeKeeps(program: Program, s: Snapshot, pending: set<nat>, exempt: set<nat>, ready: ReadyState,
                         next: set<nat>)
    requires Good(program, s, pending, exempt) && Consistent(program, ready, next)
    requires ready.scheduled == s.ready.scheduled
    requires forall e :: e in s.begin + s.end && e.IsOriginalOp() && e.op in ready.released - s.ready.released ==>
      e.op < |program.tasks| && !program.IsComputeOp(e.op)
    ensures Good(program, s.(ready := ready), next, exempt)
  {
    hide Represented, Consistent, Valid, QueuesReady, SpillState.Matches, Program.BuffersWritten, Program.WellFormed,
      Traced, ClocksGrow;
    assert InFlight(program, s.(ready := ready));
    assert BuffersKept(program, s.(ready := ready), exempt);
    assert Emitted(s.(ready := ready));
    SameClocksGrow(s.line.clocks);
    TracedStays(program, s, s.(ready := ready));
  }

  /** Element `e` leaves the heap sorted by end cycle. */
  lemma LandKeeps(program: Program, s: Snapshot, pending: set<nat>, exempt: set<nat>, e: HeapElement)
    requires Good(program, s, pending, exempt)
    ensures Good(program, s.(end := s.end - {e}), pending, exempt)
    ensures e in s.end && s.begin == {} ==> forall f :: f in s.end - {e} && f.IsOriginalOp() ==> f.op != e.op
  {
    hide Represented, Consistent, Valid, QueuesReady, SpillState.Matches, Program.BuffersWritten, Program.WellFormed,
      Traced, ClocksGrow;
    var next := s.(end := s.end - {e});
    assert InFlight(program, next);
    assert BuffersKept(program, next, exempt);
    assert Emitted(next);
    SameClocksGrow(s.line.clocks);
    TracedStays(program, s, next);
  }

  lemma AlignGood(program: Program, s: Snapshot, pending: set<nat>, exempt: set<nat>, cycle: nat)
    requires Good(program, s, pending, exempt)
    ensures Good(program, s.(line := s.line.(clocks := AlignTo(s.line.clocks, cycle))), pending, exempt)
    ensures ClocksGrow(s.line.clocks, AlignTo(s.line.clocks, cycle))
  {
    hide Represented, Consistent, Valid, QueuesReady, SpillState.Matches, AlignTo, ClocksGrow, Program.BuffersWritten,
      Program.WellFormed, Traced;
    var next := s.(line := s.line.(clocks := AlignTo(s.line.clocks, cycle)));
    AlignKeepsValid(program, s.line, cycle);
    AlignGrows(s.line.clocks, cycle);
    QueuesStayReady(program, s.line.clocks, next.line.clocks);
    assert InFlight(program, next);
    assert BuffersKept(program, next, exempt);
    assert Emitted(next);
    TracedStays(program, s, next);
  }

  /** Which buffers are in memory matters only for those that are spilled or not yet written. */
  lemma AliveGood(program: Program, s: Snapshot, pending: set<nat>, exempt: set<nat>, alive: set<nat>, next: set<nat>)
    requires Good(program, s, pending, exempt) && alive !! s.spills.dynamicSpill
    requires forall b :: b in alive && b !in next ==> b in s.spills.alive && b !in exempt
    ensures Good(program, s.(spills := s.spills.(alive := alive)), pending, next)
  {
    hide Represented, Consistent, Valid, QueuesReady, Program.BuffersWritten, Program.WellFormed, Traced, ClocksGrow;
    var after := s.(spills := s.spills.(alive := alive));
    assert InFlight(program, after);
    assert BuffersKept(program, after, next);
    assert Emitted(after);
    assert after.spills.Matches(s.line.producer);
    SameClocksGrow(s.line.clocks);
    TracedStays(program, s, after);
  }

  ghost predicate OpInFlight(s: Snapshot, o: nat) {
    exists e :: e in s.begin + s.end && e.IsOriginalOp() && e.op == o
  }

  /** An operation uses its buffers until it has ended. */
  ghost function UsedNow(program: Program, s: Snapshot, o: nat): set<nat>
    requires o < |program.tasks|
  {
    if o in s.line.endCycles && !OpInFlight(s, o) then {} else program.tasks[o].used
  }

  lemma PushUsedNow(program: Program, s: Snapshot, next: Snapshot, e: HeapElement, o: nat)
    requires o < |program.tasks| && next.begin == InsertByBegin(s.begin, e) && next.end == s.end
    requires next.line.endCycles.Keys == s.line.endCycles.Keys + {e.op}
    requires if e.IsOriginalOp() then e in next.begin && e.op !in s.line.endCycles else e.op in s.line.endCycles
    ensures UsedNow(program, next, o) == UsedNow(program, s, o)
  {
    if e.IsOriginalOp() && e.op == o {
      assert OpInFlight(next, o);
    } else {
      assert OpInFlight(next, o) <==> OpInFlight(s, o);
    }
  }

  /** Buffers that have to be in memory for `o` and the data operations it still waits for. */
  ghost function Needs(program: Program, scheduled: set<nat>, o: nat): set<nat>
    requires program.WellFormed() && o < |program.tasks|
  {
    program.tasks[o].used + set d, b | d in program.deps[o] && d !in scheduled && b in program.tasks[d].used :: b
  }

  ghost function NeedsOfAll(program: Program, scheduled: set<nat>, ops: set<nat>): set<nat>
    requires program.WellFormed()
  {
    set o, b | o in ops && o < |program.tasks| && b in Needs(program, scheduled, o) :: b
  }

  /** When more operations have been scheduled, and their buffers are in memory, what the others need
      beyond that is the same. */
  lemma NeedsShrink(program: Program, scheduled: set<nat>, more: set<nat>, alive: set<nat>, ops: set<nat>)
    requires program.WellFormed() && forall x :: x in more ==> x < |program.tasks|
    requires forall d :: d in more && d !in scheduled ==> program.tasks[d].used <= alive
    ensures alive + NeedsOfAll(program, scheduled, ops) == alive + NeedsOfAll(program, scheduled + more, ops)
  {
    forall o, b | o in ops && o < |program.tasks| && b in Needs(program, scheduled + more, o)
      ensures b in Needs(program, scheduled, o)
    {
    }
    forall o, b | o in ops && o < |program.tasks| && b in Needs(program, scheduled, o)
      ensures b in alive || b in Needs(program, scheduled + more, o)
    {
      if b !in program.tasks[o].used {
        var d :| d in program.deps[o] && d !in scheduled && b in program.tasks[d].used;
        assert d in scheduled + more ==> b in alive;
      }
    }
  }

  /** Scheduling without eviction: `needs` are brought into memory, nothing leaves it. */
  ghost predicate Later(before: Snapshot, after: Snapshot, needs: set<nat>) {
    && ClocksGrow(before.line.clocks, after.line.clocks) && before.begin <= after.begin && NoSpillWrites(after.begin)
    && after.end == before.end && after.done == before.done
    && after.spills.alive == before.spills.alive + needs
    && after.spills.readySpilled == before.spills.readySpilled - needs
  }

  lemma LaterTransitive(a: Snapshot, b: Snapshot, c: Snapshot, n: set<nat>, m: set<nat>)
    requires Later(a, b, n) && Later(b, c, m)
    ensures Later(a, c, n + m)
  {
    ClocksGrowTransitive(a.line.clocks, b.line.clocks, c.line.clocks);
  }

  /** The last thing done or about to be done is a spill write. */
  ghost predicate Evicting(s: Snapshot) {
    || (s.begin == {} && s.done != [] && s.done[|s.done| - 1].IsSpillWriteOp())
    || exists e :: e in s.begin && e.IsSpillWriteOp()
  }

  /** Between one spill write and the next no operation is in flight, and what has been found to be
      a candidate for eviction still is one. */
  ghost predicate CacheFresh(s: Snapshot, cache: map<nat, nat>) {
    Evicting(s) ==>
      && (forall e :: e in s.begin + s.end ==> !e.IsOriginalOp())
      && (forall b :: b in cache ==> b in s.spills.alive && b in s.line.producer && cache[b] == s.line.producer[b])
  }

  /** Operation `p`, which does not depend on data operation `d`, writes a buffer that `d` uses. */
  ghost predicate Intrudes(program: Program, p: nat, d: nat)
    requires program.WellFormed() && p < |program.tasks| && d < |program.tasks|
  {
    && d != p && program.IsDataOp(d) && !(program.tasks[d].used !! program.tasks[p].outputs)
    && !Reaches(DepEdges(program.deps), d, p)
  }

  /** No operation writes a buffer of a data operation on which it does not depend. */
  ghost predicate DataBuffersPrivate(program: Program)
    requires program.WellFormed()
  {
    forall d: nat, p: nat :: d < |program.tasks| && p < |program.tasks| ==> !Intrudes(program, p, d)
  }

  /** Of the writers with spilled buffers, those that have a buffer outside of `needs` stay on record. */
  lemma SpilledStays(program: Program, s: Snapshot, next: Snapshot, p: nat, b: nat)
    requires s.spills.Matches(s.line.producer) && next.spills.Matches(next.line.producer)
    requires p in s.spills.spillBuffers && b in s.spills.spillBuffers[p] && b in next.spills.readySpilled
    requires next.spills.readySpilled[b] == s.spills.readySpilled[b]
    ensures p in next.spills.spillBuffers
  {
  }
}
