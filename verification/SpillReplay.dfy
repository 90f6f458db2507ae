/** What a schedule with spills does to the data: replaying it entry by entry, and what each
    operation finds in its input buffers. */
module SpillReplay {
  import opened ScheduleProgram
  import opened TimelineModule

  /** What an operation has left in a buffer: determined by the operation and what it has read. */
  datatype Content = Content(op: nat, args: map<nat, Content>)

  /** The scheduled memory, and where spilled buffers are kept. */
  datatype Memory = Memory(buffers: map<nat, Content>, spilled: map<nat, Content>)

  /** A spill write finds what its operation has left, and so does a spill read. */
  ghost predicate CanStep(program: Program, m: Memory, e: HeapElement) {
    && e.op < |program.tasks|
    && (e.IsOriginalOp() ==> program.tasks[e.op].inputs <= m.buffers.Keys)
    && (e.IsSpillWriteOp() ==> e.buffer in m.buffers && m.buffers[e.buffer].op == e.op)
    && (e.IsSpillReadOp() ==> e.buffer in m.spilled && m.spilled[e.buffer].op == e.op)
  }

  ghost function Seen(program: Program, m: Memory, o: nat): map<nat, Content>
    requires o < |program.tasks| && program.tasks[o].inputs <= m.buffers.Keys
  {
    map b | b in program.tasks[o].inputs :: m.buffers[b]
  }

  ghost function Step(program: Program, m: Memory, e: HeapElement): Memory
    requires CanStep(program, m, e)
  {
    if e.IsSpillWriteOp() then Memory(m.buffers - {e.buffer}, m.spilled[e.buffer := m.buffers[e.buffer]])
    else if e.IsSpillReadOp() then m.(buffers := m.buffers[e.buffer := m.spilled[e.buffer]])
    else m.(buffers := m.buffers + map b | b in program.tasks[e.op].outputs :: Content(e.op, Seen(program, m, e.op)))
  }

  /** Replaying from entry `k` on works. */
  ghost predicate Runs(program: Program, s: seq<HeapElement>, k: nat, m: Memory)
    decreases |s| - k
  {
    k >= |s| || (CanStep(program, m, s[k]) && Runs(program, s, k + 1, Step(program, m, s[k])))
  }

  ghost function ReadsOne(program: Program, m: Memory, e: HeapElement): seq<(nat, map<nat, Content>)>
    requires CanStep(program, m, e)
  {
    if e.IsOriginalOp() && program.tasks[e.op].inputs != {} then [(e.op, Seen(program, m, e.op))] else []
  }

  /** What the operations that read anything find, in the order of the schedule. */
  ghost function Reads(program: Program, s: seq<HeapElement>, k: nat, m: Memory): seq<(nat, map<nat, Content>)>
    requires Runs(program, s, k, m)
    decreases |s| - k
  {
    if k >= |s| then [] else ReadsOne(program, m, s[k]) + Reads(program, s, k + 1, Step(program, m, s[k]))
  }

  lemma {:induction false} RunsShift(program: Program, s: seq<HeapElement>, t: seq<HeapElement>, k: nat, m: Memory)
    requires k <= |s|
    ensures Runs(program, t + s, |t| + k, m) <==> Runs(program, s, k, m)
    ensures Runs(program, s, k, m) ==> Reads(program, t + s, |t| + k, m) == Reads(program, s, k, m)
    decreases |s| - k
  {
    if k < |s| {
      assert (t + s)[|t| + k] == s[k];
      if CanStep(program, m, s[k]) {
        RunsShift(program, s, t, k + 1, Step(program, m, s[k]));
      }
    }
  }

  /** Putting an entry in front. */
  lemma RunsCons(program: Program, e: HeapElement, s: seq<HeapElement>, m: Memory)
    requires CanStep(program, m, e) && Runs(program, s, 0, Step(program, m, e))
    ensures Runs(program, [e] + s, 0, m)
    ensures Reads(program, [e] + s, 0, m) == ReadsOne(program, m, e) + Reads(program, s, 0, Step(program, m, e))
  {
    assert ([e] + s)[0] == e;
    RunsShift(program, s, [e], 0, Step(program, m, e));
  }

  ghost predicate RanBefore(s: seq<HeapElement>, k: nat, o: nat) {
    exists j :: 0 <= j < k && j < |s| && s[j].IsOriginalOp() && s[j].op == o
  }

  ghost predicate WrittenBefore(s: seq<HeapElement>, k: nat, o: nat, b: nat) {
    exists j :: 0 <= j < k && j < |s| && s[j].IsSpillWriteOp() && s[j].op == o && s[j].buffer == b
  }

  /** What is known of the memory before entry `k`: all contents stem from operations that have run,
      and of a buffer that has been spilled and read back the copy is still the same. */
  ghost predicate History(program: Program, s: seq<HeapElement>, k: nat, m: Memory) {
    && (forall b :: b in m.buffers ==> RanBefore(s, k, m.buffers[b].op))
    && (forall b :: b in m.spilled ==> RanBefore(s, k, m.spilled[b].op))
    && (forall o, b {:trigger WrittenBefore(s, k, o, b)} :: WrittenBefore(s, k, o, b) ==> RanBefore(s, k, o))
    && (forall b {:trigger m.buffers[b]} :: b in m.buffers && WrittenBefore(s, k, m.buffers[b].op, b) ==>
          b in m.spilled && m.spilled[b] == m.buffers[b])
  }

  lemma RanNext(s: seq<HeapElement>, k: nat, o: nat)
    requires k < |s|
    ensures RanBefore(s, k + 1, o) <==> RanBefore(s, k, o) || (s[k].IsOriginalOp() && s[k].op == o)
  {
    if s[k].IsOriginalOp() && s[k].op == o {
      assert RanBefore(s, k + 1, o);
    }
    if RanBefore(s, k, o) {
      var j :| 0 <= j < k && s[j].IsOriginalOp() && s[j].op == o;
      assert RanBefore(s, k + 1, o);
    }
  }

  lemma WrittenNext(s: seq<HeapElement>, k: nat, o: nat, b: nat)
    requires k < |s|
    ensures WrittenBefore(s, k + 1, o, b) <==>
      WrittenBefore(s, k, o, b) || (s[k].IsSpillWriteOp() && s[k].op == o && s[k].buffer == b)
  {
    if s[k].IsSpillWriteOp() && s[k].op == o && s[k].buffer == b {
      assert WrittenBefore(s, k + 1, o, b);
    }
    if WrittenBefore(s, k, o, b) {
      var j :| 0 <= j < k && s[j].IsSpillWriteOp() && s[j].op == o && s[j].buffer == b;
      assert WrittenBefore(s, k + 1, o, b);
    }
  }

  /** The operation of an original entry has not run before. */
  lemma RunsOnce(s: seq<HeapElement>, k: nat)
    requires OnceEach(s) && k < |s| && s[k].IsOriginalOp()
    ensures !RanBefore(s, k, s[k].op)
  {
  }

  lemma HistoryStep(program: Program, s: seq<HeapElement>, k: nat, m: Memory)
    requires OnceEach(s) && k < |s| && History(program, s, k, m) && CanStep(program, m, s[k])
    ensures History(program, s, k + 1, Step(program, m, s[k]))
  {
    hide OnceEach, RanBefore, WrittenBefore, Seen;
    var e, next, after := s[k], Step(program, m, s[k]), k + 1;
    forall o
      ensures RanBefore(s, after, o) <==> RanBefore(s, k, o) || (e.IsOriginalOp() && e.op == o)
    {
      RanNext(s, k, o);
    }
    forall o, b
      ensures WrittenBefore(s, after, o, b) <==>
        WrittenBefore(s, k, o, b) || (e.IsSpillWriteOp() && e.op == o && e.buffer == b)
    {
      WrittenNext(s, k, o, b);
    }
    if e.IsOriginalOp() {
      RunsOnce(s, k);
    }
    assert forall b :: b in next.spilled ==> RanBefore(s, after, next.spilled[b].op);
    forall b | b in next.buffers
      ensures RanBefore(s, after, next.buffers[b].op)
    {
      assert (b in m.buffers && next.buffers[b] == m.buffers[b]) ||
        (e.IsSpillReadOp() && next.buffers[b] == m.spilled[b]) || next.buffers[b].op == e.op;
    }
    forall o, b | WrittenBefore(s, after, o, b)
      ensures RanBefore(s, after, o)
    {
      if !WrittenBefore(s, k, o, b) {
        assert m.buffers[e.buffer].op == o;
      }
      assert RanBefore(s, k, o);
    }
    forall b | b in next.buffers && WrittenBefore(s, after, next.buffers[b].op, b)
      ensures b in next.spilled && next.spilled[b] == next.buffers[b]
    {
      if e.IsOriginalOp() && b in program.tasks[e.op].outputs {
        assert false;
      } else if !e.IsSpillReadOp() || b != e.buffer {
        assert b in m.buffers && next.buffers[b] == m.buffers[b];
      }
    }
  }

  lemma HistoryStarts(program: Program, s: seq<HeapElement>)
    ensures History(program, s, 0, Memory(map[], map[]))
  {
  }

  // Where contents come from

  /** The memory before entry `k` when the replay goes on from entry `i`. */
  ghost function MemoryAt(program: Program, s: seq<HeapElement>, i: nat, m: Memory, k: nat): Memory
    requires i <= k <= |s| && Runs(program, s, i, m)
    decreases k - i
  {
    if i == k then m else MemoryAt(program, s, i + 1, Step(program, m, s[i]), k)
  }

  /** Exactly one entry is where operation `o` runs, and it comes before entry `k`. */
  ghost predicate RunsOnceBefore(s: seq<HeapElement>, k: nat, o: nat) {
    exists i :: 0 <= i < k && i < |s| && s[i].IsOriginalOp() && s[i].op == o &&
      forall j :: 0 <= j < |s| && j != i && s[j].IsOriginalOp() ==> s[j].op != o
  }

  /** Whatever an operation finds in an input has been left there by an operation that runs exactly
      once, earlier, and so has what a spill moves. */
  ghost predicate SourcesAhead(program: Program, s: seq<HeapElement>, k: nat)
    requires k < |s| && Runs(program, s, 0, Memory(map[], map[])) && s[k].op < |program.tasks|
  {
    var m := MemoryAt(program, s, 0, Memory(map[], map[]), k);
    if s[k].IsOriginalOp() then forall b :: b in program.tasks[s[k].op].inputs ==>
      b in m.buffers && RunsOnceBefore(s, k, m.buffers[b].op)
    else RunsOnceBefore(s, k, s[k].op)
  }

  ghost predicate AllSourcesAhead(program: Program, s: seq<HeapElement>)
    requires Runs(program, s, 0, Memory(map[], map[]))
  {
    forall k {:trigger s[k]} :: 0 <= k < |s| ==> s[k].op < |program.tasks| && SourcesAhead(program, s, k)
  }

  lemma {:induction false} HistoryAt(program: Program, s: seq<HeapElement>, i: nat, m: Memory, k: nat)
    requires OnceEach(s) && i <= k <= |s| && Runs(program, s, i, m) && History(program, s, i, m)
    ensures History(program, s, k, MemoryAt(program, s, i, m, k)) && Runs(program, s, k, MemoryAt(program, s, i, m, k))
    decreases k - i
  {
    hide History, OnceEach;
    if i < k {
      HistoryStep(program, s, i, m);
      HistoryAt(program, s, i + 1, Step(program, m, s[i]), k);
    }
  }

  lemma RanIsOnce(s: seq<HeapElement>, k: nat, o: nat)
    requires OnceEach(s) && RanBefore(s, k, o)
    ensures RunsOnceBefore(s, k, o)
  {
    var i :| 0 <= i < k && i < |s| && s[i].IsOriginalOp() && s[i].op == o;
    assert forall j :: 0 <= j < |s| && j != i && s[j].IsOriginalOp() ==> s[j].op != o;
  }

  lemma RunHasSources(program: Program, s: seq<HeapElement>)
    requires OnceEach(s) && Runs(program, s, 0, Memory(map[], map[]))
    ensures AllSourcesAhead(program, s)
  {
    hide RanBefore, RunsOnceBefore, OnceEach, WrittenBefore;
    HistoryStarts(program, s);
    forall k | 0 <= k < |s|
      ensures s[k].op < |program.tasks| && SourcesAhead(program, s, k)
    {
      HistoryAt(program, s, 0, Memory(map[], map[]), k);
      var m := MemoryAt(program, s, 0, Memory(map[], map[]), k);
      if s[k].IsOriginalOp() {
        forall b | b in program.tasks[s[k].op].inputs
          ensures RunsOnceBefore(s, k, m.buffers[b].op)
        {
          RanIsOnce(s, k, m.buffers[b].op);
        }
      } else {
        RanIsOnce(s, k, s[k].op);
      }
    }
  }

  // Duplicate spill writes

  /** An earlier spill write has the same operation and buffer. */
  ghost predicate Duplicate(s: seq<HeapElement>, k: nat) {
    k < |s| && s[k].IsSpillWriteOp() && WrittenBefore(s, k, s[k].op, s[k].buffer)
  }

  ghost function WithoutDuplicates(s: seq<HeapElement>, k: nat): seq<HeapElement>
    decreases |s| - k
  {
    if k >= |s| then [] else (if Duplicate(s, k) then [] else [s[k]]) + WithoutDuplicates(s, k + 1)
  }

  /** Spilled copies are the same, and so is all that the memory before the clean-up holds. */
  ghost predicate SameCopies(m: Memory, n: Memory) {
    m.spilled == n.spilled && forall b :: b in m.buffers ==> b in n.buffers && n.buffers[b] == m.buffers[b]
  }

  lemma SameStep(program: Program, m: Memory, n: Memory, e: HeapElement)
    requires SameCopies(m, n) && CanStep(program, m, e)
    ensures CanStep(program, n, e) && ReadsOne(program, n, e) == ReadsOne(program, m, e)
    ensures SameCopies(Step(program, m, e), Step(program, n, e))
  {
    if e.IsOriginalOp() {
      assert Seen(program, n, e.op) == Seen(program, m, e.op);
    }
  }

  lemma DroppedStep(program: Program, s: seq<HeapElement>, k: nat, m: Memory, n: Memory)
    requires k < |s| && History(program, s, k, m) && SameCopies(m, n) && CanStep(program, m, s[k]) && Duplicate(s, k)
    ensures SameCopies(Step(program, m, s[k]), n)
  {
    var b := s[k].buffer;
    assert m.spilled[b := m.buffers[b]] == m.spilled;
  }

  /** Without the duplicates the schedule still runs, and every operation finds what it found before. */
  lemma {:induction false} DuplicatesNotNeeded(program: Program, s: seq<HeapElement>, k: nat, m: Memory, n: Memory)
    requires OnceEach(s) && k <= |s| && History(program, s, k, m) && SameCopies(m, n) && Runs(program, s, k, m)
    ensures Runs(program, WithoutDuplicates(s, k), 0, n)
    ensures Reads(program, WithoutDuplicates(s, k), 0, n) == Reads(program, s, k, m)
    decreases |s| - k
  {
    hide OnceEach, History, SameCopies, WrittenBefore, Step;
    if k < |s| {
      HistoryStep(program, s, k, m);
      var rest := WithoutDuplicates(s, k + 1);
      if Duplicate(s, k) {
        DroppedStep(program, s, k, m, n);
        DuplicatesNotNeeded(program, s, k + 1, Step(program, m, s[k]), n);
        assert [] + rest == rest;
        assert ReadsOne(program, m, s[k]) == [];
      } else {
        SameStep(program, m, n, s[k]);
        DuplicatesNotNeeded(program, s, k + 1, Step(program, m, s[k]), Step(program, n, s[k]));
        RunsCons(program, s[k], rest, n);
      }
    }
  }

  lemma {:induction false} DuplicatesAreFrom(s: seq<HeapElement>, k: nat, e: HeapElement)
    requires k <= |s| && e in WithoutDuplicates(s, k)
    ensures exists j :: k <= j < |s| && s[j] == e
    decreases |s| - k
  {
    hide Duplicate;
    var rest := if k < |s| then WithoutDuplicates(s, k + 1) else [];
    assert [] + rest == rest;
    if e in rest {
      DuplicatesAreFrom(s, k + 1, e);
    }
  }

  /** Only spill writes go. */
  lemma {:induction false} DuplicatesKeepOnce(s: seq<HeapElement>, k: nat)
    requires OnceEach(s) && k <= |s|
    ensures OnceEach(WithoutDuplicates(s, k))
    decreases |s| - k
  {
    hide Duplicate;
    if k < |s| {
      DuplicatesKeepOnce(s, k + 1);
      var rest := WithoutDuplicates(s, k + 1);
      assert [] + rest == rest;
      forall i | 0 <= i < |rest| && rest[i].IsOriginalOp() && s[k].IsOriginalOp()
        ensures rest[i].op != s[k].op
      {
        DuplicatesAreFrom(s, k + 1, rest[i]);
        var j :| k + 1 <= j < |s| && s[j] == rest[i];
      }
    }
  }

  /** The search among earlier spill writes, the latest first. */
  method AlreadyWritten(scheduledOps: seq<HeapElement>, spillWriteIndexes: seq<nat>, index: nat)
    returns (duplicate: bool)
    requires index < |scheduledOps| && scheduledOps[index].IsSpillWriteOp()
    requires forall j :: j in spillWriteIndexes <==> 0 <= j < index && scheduledOps[j].IsSpillWriteOp()
    ensures duplicate <==> Duplicate(scheduledOps, index)
  {
    var op := scheduledOps[index];
    var i := |spillWriteIndexes|;
    while i > 0
      invariant 0 <= i <= |spillWriteIndexes|
      invariant forall x :: i <= x < |spillWriteIndexes| ==>
        && spillWriteIndexes[x] < index
        && !(scheduledOps[spillWriteIndexes[x]].op == op.op && scheduledOps[spillWriteIndexes[x]].buffer == op.buffer)
    {
      i := i - 1;
      assert spillWriteIndexes[i] in spillWriteIndexes;
      var previous := scheduledOps[spillWriteIndexes[i]];
      if previous.op == op.op && previous.buffer == op.buffer {
        return true;
      }
    }
    duplicate := false;
  }

  /** `removeRedundantSpillWrites`: of the spill writes of one buffer for one operation only the first
      is kept, and no operation notices. */
  method RemoveRedundantSpillWrites(program: Program, scheduledOps: seq<HeapElement>)
    returns (optimized: seq<HeapElement>)
    requires OnceEach(scheduledOps) && Runs(program, scheduledOps, 0, Memory(map[], map[]))
    ensures optimized == WithoutDuplicates(scheduledOps, 0) && OnceEach(optimized)
    ensures Runs(program, optimized, 0, Memory(map[], map[]))
    ensures Reads(program, optimized, 0, Memory(map[], map[])) == Reads(program, scheduledOps, 0, Memory(map[], map[]))
  {
    hide Runs, Reads, OnceEach, WrittenBefore;
    var spillWriteIndexes: seq<nat> := [];
    var isSpillWriteDuplicate: seq<bool> := [];
    var index := 0;
    while index < |scheduledOps|
      invariant index <= |scheduledOps| == |scheduledOps| && |isSpillWriteDuplicate| == index
      invariant forall j :: j in spillWriteIndexes <==> 0 <= j < index && scheduledOps[j].IsSpillWriteOp()
      invariant forall j :: 0 <= j < index ==> (isSpillWriteDuplicate[j] <==> Duplicate(scheduledOps, j))
    {
      var op := scheduledOps[index];
      var duplicate := false;
      if op.IsSpillWriteOp() {
        duplicate := AlreadyWritten(scheduledOps, spillWriteIndexes, index);
        spillWriteIndexes := spillWriteIndexes + [index];
      }
      isSpillWriteDuplicate := isSpillWriteDuplicate + [duplicate];
      index := index + 1;
    }
    optimized := [];
    index := 0;
    while index < |scheduledOps|
      invariant index <= |scheduledOps|
      invariant optimized + WithoutDuplicates(scheduledOps, index) == WithoutDuplicates(scheduledOps, 0)
    {
      ghost var rest := WithoutDuplicates(scheduledOps, index + 1);
      if !isSpillWriteDuplicate[index] {
        assert optimized + ([scheduledOps[index]] + rest) == (optimized + [scheduledOps[index]]) + rest;
        optimized := optimized + [scheduledOps[index]];
      } else {
        assert [] + rest == rest;
      }
      index := index + 1;
    }
    assert optimized + [] == optimized;
    HistoryStarts(program, scheduledOps);
    DuplicatesKeepOnce(scheduledOps, 0);
    DuplicatesNotNeeded(program, scheduledOps, 0, Memory(map[], map[]), Memory(map[], map[]));
  }
}
