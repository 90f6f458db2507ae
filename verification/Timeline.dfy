/** Executor clocks and what has been put on the time line. */
module TimelineModule {
  import opened ScheduleProgram

  type Clocks = map<nat, seq<nat>>

  /** `pushed` is everything scheduled so far, in scheduling order; `endCycles` has the latest end
      per operation, `producer` the last writer and `lastUse` the latest end of use per buffer. */
  datatype Timeline = Timeline(clocks: Clocks, pushed: seq<HeapElement>, endCycles: map<nat, nat>,
                               producer: map<nat, nat>, lastUse: map<nat, nat>)

  ghost predicate Writes(program: Program, e: HeapElement, b: nat) {
    (e.IsSpillReadOp() && e.buffer == b) ||
      (e.IsOriginalOp() && e.op < |program.tasks| && b in program.tasks[e.op].outputs)
  }

  ghost predicate Touches(program: Program, e: HeapElement, b: nat) {
    Writes(program, e, b) || (e.IsOriginalOp() && e.op < |program.tasks| && b in program.tasks[e.op].inputs)
  }

  /** Element `i` is the last one before `n` that writes buffer `b`. */
  ghost predicate LastWriter(program: Program, pushed: seq<HeapElement>, n: nat, b: nat, i: nat)
    requires n <= |pushed|
  {
    i < n && Writes(program, pushed[i], b) && forall k :: i < k < n ==> !Writes(program, pushed[k], b)
  }

  /** The executor instances of `e` are busy until its end. */
  ghost predicate Busy(clocks: Clocks, e: HeapElement) {
    && e.mask != {} && e.cycleBegin <= e.cycleEnd && e.queue in clocks
    && forall inst :: inst in e.mask ==> inst < |clocks[e.queue]| && e.cycleEnd <= clocks[e.queue][inst]
  }

  ghost predicate SharesInstance(e: HeapElement, f: HeapElement) {
    e.queue == f.queue && exists inst :: inst in e.mask && inst in f.mask
  }

  /** Elements on the same executor instance follow each other. */
  ghost predicate InTurn(pushed: seq<HeapElement>) {
    forall i, j {:trigger SharesInstance(pushed[i], pushed[j])} ::
      0 <= i < j < |pushed| && SharesInstance(pushed[i], pushed[j]) ==> pushed[i].cycleEnd <= pushed[j].cycleBegin
  }

  /** Nothing starts before the end of an earlier spill write. */
  ghost predicate SpillWritesDone(pushed: seq<HeapElement>) {
    forall i, j :: 0 <= i < j < |pushed| && pushed[i].IsSpillWriteOp() ==> pushed[i].cycleEnd <= pushed[j].cycleBegin
  }

  /** A spill write starts after every earlier use of the buffer. */
  ghost predicate SpillsAfterUse(program: Program, pushed: seq<HeapElement>) {
    forall i, j ::
      0 <= i < j < |pushed| && pushed[j].IsSpillWriteOp() && Touches(program, pushed[i], pushed[j].buffer) ==>
      pushed[i].cycleEnd <= pushed[j].cycleBegin
  }

  /** Operation `d` has been put on the time line before `j` and ends before `j` starts. */
  ghost predicate DoneBefore(pushed: seq<HeapElement>, d: nat, j: nat)
    requires j < |pushed|
  {
    exists i ::
      0 <= i < j && pushed[i].IsOriginalOp() && pushed[i].op == d && pushed[i].cycleEnd <= pushed[j].cycleBegin
  }

  ghost predicate DepsDone(program: Program, pushed: seq<HeapElement>, j: nat)
    requires j < |pushed|
  {
    && pushed[j].op < |program.deps|
    && forall d {:trigger DoneBefore(pushed, d, j)} :: d in program.deps[pushed[j].op] ==> DoneBefore(pushed, d, j)
  }

  /** Operations start after all their dependencies have ended. */
  ghost predicate DepsFirst(program: Program, pushed: seq<HeapElement>) {
    forall j {:trigger DepsDone(program, pushed, j)} :: 0 <= j < |pushed| && pushed[j].IsOriginalOp() ==>
      DepsDone(program, pushed, j)
  }

  /** Operations start after everything earlier of their dependencies, also their spills, has ended. */
  ghost predicate EndsFirst(program: Program, pushed: seq<HeapElement>) {
    forall i, j :: 0 <= i < j < |pushed| && pushed[j].IsOriginalOp() && IsDepOf(program, pushed[i].op, pushed[j].op) ==>
      pushed[i].cycleEnd <= pushed[j].cycleBegin
  }

  ghost predicate IsDepOf(program: Program, d: nat, o: nat) {
    o < |program.deps| && d in program.deps[o]
  }

  /** Operations start after the last write to each buffer they use. */
  ghost predicate ReadsFresh(program: Program, pushed: seq<HeapElement>) {
    forall i: nat, j: nat, b: nat {:trigger LastWriter(program, pushed, j, b, i)} ::
      (j < |pushed| && pushed[j].IsOriginalOp() && pushed[j].op < |program.tasks| &&
        b in program.tasks[pushed[j].op].used &&
       LastWriter(program, pushed, j, b, i)) ==> pushed[i].cycleEnd <= pushed[j].cycleBegin
  }

  ghost predicate OnceEach(pushed: seq<HeapElement>) {
    forall i, j :: 0 <= i < j < |pushed| && pushed[i].IsOriginalOp() && pushed[j].IsOriginalOp() ==>
      pushed[i].op != pushed[j].op
  }

  /** What a schedule has to satisfy. */
  ghost predicate GoodSchedule(program: Program, pushed: seq<HeapElement>) {
    && InTurn(pushed) && SpillWritesDone(pushed) && SpillsAfterUse(program, pushed) && DepsFirst(program, pushed)
    && EndsFirst(program, pushed) && ReadsFresh(program, pushed) && OnceEach(pushed)
  }

  ghost predicate HasOriginal(pushed: seq<HeapElement>, o: nat) {
    exists i :: 0 <= i < |pushed| && pushed[i].IsOriginalOp() && pushed[i].op == o
  }

  /** No instance is free before the end of what it runs, nor before the end of a spill write. */
  ghost predicate ClocksRecorded(clocks: Clocks, pushed: seq<HeapElement>) {
    && (forall i {:trigger Busy(clocks, pushed[i])} :: 0 <= i < |pushed| ==> Busy(clocks, pushed[i]))
    && (forall i, q, inst {:trigger clocks[q][inst], pushed[i]} ::
          0 <= i < |pushed| && pushed[i].IsSpillWriteOp() && q in clocks && 0 <= inst < |clocks[q]| ==>
            pushed[i].cycleEnd <= clocks[q][inst])
  }

  /** What the tables say about the elements. */
  ghost predicate TablesRecorded(program: Program, t: Timeline) {
    && (forall i :: 0 <= i < |t.pushed| ==>
          t.pushed[i].op in t.endCycles && t.pushed[i].cycleEnd <= t.endCycles[t.pushed[i].op])
    && (forall o {:trigger HasOriginal(t.pushed, o)} :: o in t.endCycles <==> HasOriginal(t.pushed, o))
    && (forall i, b {:trigger Touches(program, t.pushed[i], b)} ::
      0 <= i < |t.pushed| && Touches(program, t.pushed[i], b) ==>
          b in t.lastUse && t.pushed[i].cycleEnd <= t.lastUse[b])
    && (forall i: nat, b: nat {:trigger LastWriter(program, t.pushed, |t.pushed|, b, i)} ::
      LastWriter(program, t.pushed, |t.pushed|, b, i) ==>
          b in t.producer && t.producer[b] == t.pushed[i].op)
    && (forall b :: b in t.producer ==> t.producer[b] in t.endCycles)
  }

  ghost predicate Recorded(program: Program, t: Timeline) {
    ClocksRecorded(t.clocks, t.pushed) && TablesRecorded(program, t)
  }

  ghost predicate Valid(program: Program, t: Timeline) {
    program.WellFormed() && GoodSchedule(program, t.pushed) && Recorded(program, t)
  }

  ghost predicate ClocksGrow(before: Clocks, after: Clocks) {
    && before.Keys == after.Keys
    && forall q :: q in before ==> |before[q]| == |after[q]| && forall i :: 0 <= i < |before[q]| ==>
         before[q][i] <= after[q][i]
  }

  function Max(a: nat, b: nat): nat {
    if a >= b then a else b
  }

  /** The instances of `e` are free again at its end. */
  function Advance(clocks: Clocks, e: HeapElement): Clocks {
    if e.queue in clocks then
      clocks[e.queue := seq(|clocks[e.queue]|, i requires 0 <= i < |clocks[e.queue]| =>
        if i in e.mask then e.cycleEnd else clocks[e.queue][i])]
    else clocks
  }

  /** No instance is free before `cycle`. */
  function AlignTo(clocks: Clocks, cycle: nat): Clocks {
    map q | q in clocks :: seq(|clocks[q]|, i requires 0 <= i < |clocks[q]| => Max(clocks[q][i], cycle))
  }

  /** The tables when `e` has been put on the time line; the clocks are set separately. */
  ghost function Pushed(program: Program, t: Timeline, e: HeapElement): Timeline
    requires e.IsOriginalOp() ==> e.op < |program.tasks|
  {
    t.(pushed := t.pushed + [e],
       endCycles := t.endCycles[e.op := if e.op in t.endCycles then Max(t.endCycles[e.op], e.cycleEnd) else e.cycleEnd],
       producer := map b | b in t.producer.Keys + WrittenBy(program, e) ::
         if Writes(program, e, b) then e.op else t.producer[b],
       lastUse := map b | b in t.lastUse.Keys + TouchedBy(program, e) ::
         if !Touches(program, e, b) then t.lastUse[b]
         else if b in t.lastUse then Max(t.lastUse[b], e.cycleEnd) else e.cycleEnd)
  }

  ghost function WrittenBy(program: Program, e: HeapElement): (written: set<nat>)
    requires e.IsOriginalOp() ==> e.op < |program.tasks|
    ensures forall b :: b in written <==> Writes(program, e, b)
  {
    if e.IsSpillReadOp() then {e.buffer} else if e.IsOriginalOp() then program.tasks[e.op].outputs else {}
  }

  ghost function TouchedBy(program: Program, e: HeapElement): (touched: set<nat>)
    requires e.IsOriginalOp() ==> e.op < |program.tasks|
    ensures forall b :: b in touched <==> Touches(program, e, b)
  {
    WrittenBy(program, e) + if e.IsOriginalOp() then program.tasks[e.op].inputs else {}
  }

  /** `e` starts when its executor instances are free. */
  ghost predicate FitsClocks(clocks: Clocks, e: HeapElement) {
    && e.mask != {} && e.cycleBegin <= e.cycleEnd && e.queue in clocks
    && forall inst :: inst in e.mask ==> inst < |clocks[e.queue]| && clocks[e.queue][inst] <= e.cycleBegin
  }

  /** `e` starts when its dependencies have ended and the buffers it uses have been written. */
  ghost predicate FitsData(program: Program, t: Timeline, e: HeapElement) {
    if e.IsOriginalOp() then
      && e.op < |program.tasks| == |program.deps| && e.op !in t.endCycles
      && (forall d :: d in program.deps[e.op] ==> d in t.endCycles && t.endCycles[d] <= e.cycleBegin)
      && (forall b :: b in program.tasks[e.op].used && b in t.producer ==>
            t.producer[b] in t.endCycles && t.endCycles[t.producer[b]] <= e.cycleBegin)
    else
      e.op in t.endCycles && (e.IsSpillWriteOp() && e.buffer in t.lastUse ==> t.lastUse[e.buffer] <= e.cycleBegin)
  }

  lemma PushInTurn(program: Program, t: Timeline, e: HeapElement)
    requires Valid(program, t) && FitsClocks(t.clocks, e)
    ensures InTurn(t.pushed + [e])
  {
    var next := t.pushed + [e];
    forall i, j | 0 <= i < j < |next| && SharesInstance(next[i], next[j])
      ensures next[i].cycleEnd <= next[j].cycleBegin
    {
      if j < |t.pushed| {
        assert SharesInstance(t.pushed[i], t.pushed[j]);
      } else {
        assert Busy(t.clocks, t.pushed[i]);
      }
    }
  }

  lemma PushAfterSpillWrites(program: Program, t: Timeline, e: HeapElement)
    requires Valid(program, t) && FitsClocks(t.clocks, e)
    ensures SpillWritesDone(t.pushed + [e])
  {
    var next := t.pushed + [e];
    forall i, j | 0 <= i < j < |next| && next[i].IsSpillWriteOp()
      ensures next[i].cycleEnd <= next[j].cycleBegin
    {
      if j == |t.pushed| {
        var inst :| inst in e.mask;
        assert t.pushed[i].cycleEnd <= t.clocks[e.queue][inst];
      }
    }
  }

  lemma PushSpillsAfterUse(program: Program, t: Timeline, e: HeapElement)
    requires Valid(program, t) && FitsData(program, t, e)
    ensures SpillsAfterUse(program, t.pushed + [e])
  {
    var next := t.pushed + [e];
    forall i, j | 0 <= i < j < |next| && next[j].IsSpillWriteOp() && Touches(program, next[i], next[j].buffer)
      ensures next[i].cycleEnd <= next[j].cycleBegin
    {
      if j < |t.pushed| {
        assert Touches(program, t.pushed[i], t.pushed[j].buffer);
      } else {
        assert Touches(program, t.pushed[i], e.buffer);
      }
    }
  }

  lemma PushDepsFirst(program: Program, t: Timeline, e: HeapElement)
    requires Valid(program, t) && FitsData(program, t, e)
    ensures DepsFirst(program, t.pushed + [e])
  {
    var next := t.pushed + [e];
    forall j | 0 <= j < |next| && next[j].IsOriginalOp()
      ensures DepsDone(program, next, j)
    {
      assert j < |t.pushed| ==> DepsDone(program, t.pushed, j);
      forall d | d in program.deps[next[j].op]
        ensures DoneBefore(next, d, j)
      {
        if j < |t.pushed| {
          assert DoneBefore(t.pushed, d, j);
          var i :| 0 <= i < j && t.pushed[i].IsOriginalOp() && t.pushed[i].op == d &&
            t.pushed[i].cycleEnd <= t.pushed[j].cycleBegin;
          assert next[i] == t.pushed[i];
        } else {
          assert HasOriginal(t.pushed, d);
          var i :| 0 <= i < |t.pushed| && t.pushed[i].IsOriginalOp() && t.pushed[i].op == d;
          assert next[i] == t.pushed[i];
        }
      }
    }
  }

  /** The recorded end of a dependency, which its spills raise, is what the operation waits for. */
  lemma PushEndsFirst(program: Program, t: Timeline, e: HeapElement)
    requires Valid(program, t) && FitsData(program, t, e)
    ensures EndsFirst(program, t.pushed + [e])
    ensures e.IsOriginalOp() ==> forall d :: d in program.deps[e.op] ==>
      d in t.endCycles && t.endCycles[d] <= e.cycleBegin
  {
    hide InTurn, SpillWritesDone, SpillsAfterUse, DepsFirst, ReadsFresh, OnceEach;
    var next := t.pushed + [e];
    forall i, j | 0 <= i < j < |next| && next[j].IsOriginalOp() && IsDepOf(program, next[i].op, next[j].op)
      ensures next[i].cycleEnd <= next[j].cycleBegin
    {
      if j == |t.pushed| {
        assert t.pushed[i].cycleEnd <= t.endCycles[t.pushed[i].op];
      }
    }
  }

  lemma PushReadsFresh(program: Program, t: Timeline, e: HeapElement)
    requires Valid(program, t) && FitsData(program, t, e)
    ensures ReadsFresh(program, t.pushed + [e])
  {
    var next := t.pushed + [e];
    forall i: nat, j: nat, b: nat | j < |next| && next[j].IsOriginalOp() && next[j].op < |program.tasks| &&
      b in program.tasks[next[j].op].used &&
        LastWriter(program, next, j, b, i)
      ensures next[i].cycleEnd <= next[j].cycleBegin
    {
      LastWriterOfPrefix(program, t.pushed, e, j, b, i);
    }
  }

  lemma LastWriterOfPrefix(program: Program, pushed: seq<HeapElement>, e: HeapElement, n: nat, b: nat, i: nat)
    requires n <= |pushed|
    ensures LastWriter(program, pushed + [e], n, b, i) <==> LastWriter(program, pushed, n, b, i)
  {
    assert forall k :: 0 <= k < n ==> (pushed + [e])[k] == pushed[k];
    if LastWriter(program, pushed + [e], n, b, i) {
      forall k | i < k < n
        ensures !Writes(program, pushed[k], b)
      {
        assert !Writes(program, (pushed + [e])[k], b);
      }
    }
  }

  lemma PushGoodSchedule(program: Program, t: Timeline, e: HeapElement)
    requires Valid(program, t) && FitsClocks(t.clocks, e) && FitsData(program, t, e)
    ensures GoodSchedule(program, t.pushed + [e])
  {
    PushInTurn(program, t, e);
    PushAfterSpillWrites(program, t, e);
    PushSpillsAfterUse(program, t, e);
    PushDepsFirst(program, t, e);
    PushEndsFirst(program, t, e);
    PushReadsFresh(program, t, e);
    forall i | 0 <= i < |t.pushed| && t.pushed[i].IsOriginalOp() && e.IsOriginalOp()
      ensures t.pushed[i].op != e.op
    {
      assert HasOriginal(t.pushed, t.pushed[i].op);
    }
  }

  lemma AdvanceKeepsBusy(clocks: Clocks, e: HeapElement, f: HeapElement)
    requires FitsClocks(clocks, e) && Busy(clocks, f)
    ensures Busy(Advance(clocks, e), f) && Busy(Advance(clocks, e), e) && ClocksGrow(clocks, Advance(clocks, e))
  {
  }

  lemma AlignKeepsBusy(clocks: Clocks, cycle: nat, f: HeapElement)
    requires Busy(clocks, f)
    ensures Busy(AlignTo(clocks, cycle), f)
  {
  }

  lemma AlignGrows(clocks: Clocks, cycle: nat)
    ensures ClocksGrow(clocks, AlignTo(clocks, cycle))
    ensures forall q, inst :: q in clocks && 0 <= inst < |clocks[q]| ==> cycle <= AlignTo(clocks, cycle)[q][inst]
  {
  }

  lemma ClocksGrowTransitive(a: Clocks, b: Clocks, c: Clocks)
    requires ClocksGrow(a, b) && ClocksGrow(b, c)
    ensures ClocksGrow(a, c)
  {
  }

  lemma PushClocks(clocks: Clocks, pushed: seq<HeapElement>, e: HeapElement)
    requires ClocksRecorded(clocks, pushed) && FitsClocks(clocks, e)
    ensures !e.IsSpillWriteOp() ==> ClocksRecorded(Advance(clocks, e), pushed + [e])
    ensures ClocksRecorded(AlignTo(Advance(clocks, e), e.cycleEnd), pushed + [e])
  {
    var next, advanced := pushed + [e], Advance(clocks, e);
    var aligned := AlignTo(advanced, e.cycleEnd);
    forall i | 0 <= i < |next|
      ensures Busy(advanced, next[i]) && Busy(aligned, next[i])
    {
      assert i < |pushed| ==> Busy(clocks, pushed[i]);
      AdvanceKeepsBusy(clocks, e, if i < |pushed| then pushed[i] else e.(cycleBegin := 0, cycleEnd := 0));
      AlignKeepsBusy(advanced, e.cycleEnd, next[i]);
    }
    forall i, q, inst | 0 <= i < |next| && next[i].IsSpillWriteOp() && q in clocks && 0 <= inst < |clocks[q]|
      ensures !e.IsSpillWriteOp() ==> next[i].cycleEnd <= advanced[q][inst]
      ensures next[i].cycleEnd <= aligned[q][inst]
    {
      if i < |pushed| {
        assert pushed[i].cycleEnd <= clocks[q][inst];
      }
    }
  }

  lemma PushTables(program: Program, t: Timeline, e: HeapElement)
    requires TablesRecorded(program, t) && FitsData(program, t, e)
    ensures TablesRecorded(program, Pushed(program, t, e))
  {
    PushOriginals(program, t, e);
    PushEnds(program, t, e);
    PushUses(program, t, e);
    PushWriters(program, t, e);
  }

  lemma PushEnds(program: Program, t: Timeline, e: HeapElement)
    requires TablesRecorded(program, t) && (e.IsOriginalOp() ==> e.op < |program.tasks|)
    ensures var next := Pushed(program, t, e);
      forall i :: 0 <= i < |next.pushed| ==>
        next.pushed[i].op in next.endCycles && next.pushed[i].cycleEnd <= next.endCycles[next.pushed[i].op]
  {
    var next := Pushed(program, t, e);
    forall i | 0 <= i < |next.pushed|
      ensures next.pushed[i].op in next.endCycles && next.pushed[i].cycleEnd <= next.endCycles[next.pushed[i].op]
    {
      if i < |t.pushed| {
        assert t.pushed[i].op in t.endCycles;
      }
    }
  }

  lemma PushUses(program: Program, t: Timeline, e: HeapElement)
    requires TablesRecorded(program, t) && (e.IsOriginalOp() ==> e.op < |program.tasks|)
    ensures var next := Pushed(program, t, e);
      forall i, b {:trigger Touches(program, next.pushed[i], b)} ::
        0 <= i < |next.pushed| && Touches(program, next.pushed[i], b) ==>
        b in next.lastUse && next.pushed[i].cycleEnd <= next.lastUse[b]
  {
    var next := Pushed(program, t, e);
    forall i, b | 0 <= i < |next.pushed| && Touches(program, next.pushed[i], b)
      ensures b in next.lastUse && next.pushed[i].cycleEnd <= next.lastUse[b]
    {
      if i < |t.pushed| {
        assert Touches(program, t.pushed[i], b);
      }
    }
  }

  lemma PushWriters(program: Program, t: Timeline, e: HeapElement)
    requires TablesRecorded(program, t) && FitsData(program, t, e)
    ensures var next := Pushed(program, t, e);
      && (forall i: nat, b: nat {:trigger LastWriter(program, next.pushed, |next.pushed|, b, i)} ::
        LastWriter(program, next.pushed, |next.pushed|, b, i) ==>
            b in next.producer && next.producer[b] == next.pushed[i].op)
      && (forall b :: b in next.producer ==> next.producer[b] in next.endCycles)
  {
    var next := Pushed(program, t, e);
    forall i: nat, b: nat | LastWriter(program, next.pushed, |next.pushed|, b, i)
      ensures b in next.producer && next.producer[b] == next.pushed[i].op
    {
      PushLastWriter(program, t.pushed, e, b, i);
    }
  }

  lemma PushOriginals(program: Program, t: Timeline, e: HeapElement)
    requires TablesRecorded(program, t) && FitsData(program, t, e)
    ensures forall o {:trigger HasOriginal(t.pushed + [e], o)} :: o in Pushed(program, t, e).endCycles <==>
      HasOriginal(t.pushed + [e], o)
  {
    var next := t.pushed + [e];
    forall o
      ensures HasOriginal(next, o) <==> HasOriginal(t.pushed, o) || (e.IsOriginalOp() && o == e.op)
    {
      if HasOriginal(t.pushed, o) {
        var i :| 0 <= i < |t.pushed| && t.pushed[i].IsOriginalOp() && t.pushed[i].op == o;
        assert next[i] == t.pushed[i];
      }
      if HasOriginal(next, o) {
        var i :| 0 <= i < |next| && next[i].IsOriginalOp() && next[i].op == o;
        assert i < |t.pushed| ==> t.pushed[i].op == o;
      }
      assert next[|t.pushed|] == e;
    }
  }

  lemma PushLastWriter(program: Program, pushed: seq<HeapElement>, e: HeapElement, b: nat, i: nat)
    requires LastWriter(program, pushed + [e], |pushed| + 1, b, i)
    ensures if Writes(program, e, b) then i == |pushed| else i < |pushed| && LastWriter(program, pushed, |pushed|, b, i)
  {
    assert (pushed + [e])[|pushed|] == e;
    if i < |pushed| {
      LastWriterOfPrefix(program, pushed, e, |pushed|, b, i);
    }
  }

  /** Putting an operation or a spill read on the time line. */
  lemma PushKeepsValid(program: Program, t: Timeline, e: HeapElement)
    requires Valid(program, t) && FitsClocks(t.clocks, e) && FitsData(program, t, e) && !e.IsSpillWriteOp()
    ensures Valid(program, Pushed(program, t, e).(clocks := Advance(t.clocks, e)))
  {
    PushGoodSchedule(program, t, e);
    PushClocks(t.clocks, t.pushed, e);
    PushTables(program, t, e);
    TablesIgnoreClocks(program, Pushed(program, t, e), Advance(t.clocks, e));
  }

  /** Putting a spill write on the time line, after which all executors are aligned. */
  lemma SpillWriteKeepsValid(program: Program, t: Timeline, e: HeapElement)
    requires Valid(program, t) && FitsClocks(t.clocks, e) && FitsData(program, t, e)
    ensures Valid(program, Pushed(program, t, e).(clocks := AlignTo(Advance(t.clocks, e), e.cycleEnd)))
  {
    PushGoodSchedule(program, t, e);
    PushClocks(t.clocks, t.pushed, e);
    PushTables(program, t, e);
    TablesIgnoreClocks(program, Pushed(program, t, e), AlignTo(Advance(t.clocks, e), e.cycleEnd));
  }

  lemma AlignKeepsValid(program: Program, t: Timeline, cycle: nat)
    requires Valid(program, t)
    ensures Valid(program, t.(clocks := AlignTo(t.clocks, cycle)))
  {
    var clocks := AlignTo(t.clocks, cycle);
    forall i | 0 <= i < |t.pushed|
      ensures Busy(clocks, t.pushed[i])
    {
      AlignKeepsBusy(t.clocks, cycle, t.pushed[i]);
    }
    forall i, q, inst | 0 <= i < |t.pushed| && t.pushed[i].IsSpillWriteOp() && q in clocks && 0 <= inst < |clocks[q]|
      ensures t.pushed[i].cycleEnd <= clocks[q][inst]
    {
      assert t.pushed[i].cycleEnd <= t.clocks[q][inst];
    }
    TablesIgnoreClocks(program, t, clocks);
  }

  lemma TablesIgnoreClocks(program: Program, t: Timeline, clocks: Clocks)
    requires TablesRecorded(program, t)
    ensures TablesRecorded(program, t.(clocks := clocks))
  {
  }
}
