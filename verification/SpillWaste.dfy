/** What is left to clean up after the clean-ups of spills: nothing that is spilled before anyone has used
    it, unless all that used it was itself redundant. */
module SpillWaste {
  import opened ScheduleProgram
  import opened TimelineModule
  import opened SpillReplay
  import opened DataOpSpills

  ghost predicate NothingWasted(program: Program, s: seq<HeapElement>)
    requires program.WellFormed() && TasksOnly(program, s)
  {
    forall k: nat, w: nat :: !Wasted(program, s, k, w)
  }

  ghost predicate NoDuplicates(s: seq<HeapElement>) {
    forall k: nat :: !Duplicate(s, k)
  }

  /** The load at `k` is spilled at `w`, for the first time, and in between only redundant spill writes
      are of operations that use the buffer. */
  ghost predicate Spared(program: Program, s: seq<HeapElement>, k: nat, w: nat)
    requires program.WellFormed() && TasksOnly(program, s)
  {
    && Next(s, k, w) && Optimizable(program, s[k].op) && IsLoad(s[k]) && s[w].IsSpillWriteOp() && !Duplicate(s, w)
    && forall x: nat, b :: k < x < w && b in program.tasks[s[k].op].outputs && UsesBuffer(program, s[x], b) ==>
         Duplicate(s, x)
  }

  ghost predicate NoneSpared(program: Program, s: seq<HeapElement>)
    requires program.WellFormed() && TasksOnly(program, s)
  {
    forall k: nat, w: nat :: !Spared(program, s, k, w)
  }

  // Where the entries that are kept come from

  /** The same entry, but for the type under which it is loaded. */
  ghost predicate SameEntry(e: HeapElement, f: HeapElement) {
    && e.op == f.op && e.buffer == f.buffer && (IsLoad(e) <==> IsLoad(f))
    && (e.IsSpillWriteOp() <==> f.IsSpillWriteOp()) && (!e.IsOriginalOp() ==> !f.IsOriginalOp())
  }

  /** The entries of `t` are those of `s` at `at`. */
  ghost predicate Picked(s: seq<HeapElement>, t: seq<HeapElement>, at: seq<nat>) {
    && |at| == |t| && (forall i, j :: 0 <= i < j < |at| ==> at[i] < at[j])
    && forall i :: 0 <= i < |t| ==> at[i] < |s| && SameEntry(t[i], s[at[i]])
  }

  lemma PickedNothing(s: seq<HeapElement>)
    ensures Picked(s, [], [])
  {
  }

  lemma PickedCons(s: seq<HeapElement>, t: seq<HeapElement>, at: seq<nat>, k: nat, e: HeapElement)
    requires Picked(s, t, at) && (forall i :: 0 <= i < |at| ==> k < at[i]) && k < |s| && SameEntry(e, s[k])
    ensures Picked(s, [e] + t, [k] + at)
  {
  }

  lemma {:induction false} KeptPositions(program: Program, s: seq<HeapElement>, k: nat, t: seq<HeapElement>)
    returns (at: seq<nat>)
    requires program.WellFormed() && TasksOnly(program, s) && k <= |s| && Kept(program, s, k, t)
    ensures Picked(s, t, at) && (forall i :: 0 <= i < |at| ==> k <= at[i])
    ensures forall j :: k <= j < |s| ==> (j in at <==> !Removed(program, s, j))
    decreases |s| - k
  {
    hide Program.WellFormed, Removed, Picked, NoneKept;
    if k == |s| {
      at := [];
      PickedNothing(s);
    } else if Removed(program, s, k) {
      at := KeptPositions(program, s, k + 1, t);
      assert k !in at;
    } else {
      var rest := KeptPositions(program, s, k + 1, t[1..]);
      at := [k] + rest;
      PickedCons(s, t[1..], rest, k, t[0]);
      assert t == [t[0]] + t[1..];
    }
  }

  lemma {:induction false} RestPositions(s: seq<HeapElement>, k: nat) returns (at: seq<nat>)
    requires k <= |s|
    ensures Picked(s, WithoutDuplicates(s, k), at) && (forall i :: 0 <= i < |at| ==> k <= at[i])
    ensures forall j :: k <= j < |s| ==> (j in at <==> !Duplicate(s, j))
    decreases |s| - k
  {
    hide Duplicate, Picked;
    if k == |s| {
      at := [];
      PickedNothing(s);
    } else {
      var rest := RestPositions(s, k + 1);
      if Duplicate(s, k) {
        at := rest;
        assert k !in at;
        assert [] + WithoutDuplicates(s, k + 1) == WithoutDuplicates(s, k + 1);
      } else {
        at := [k] + rest;
        PickedCons(s, WithoutDuplicates(s, k + 1), rest, k, s[k]);
      }
    }
  }

  /** What is picked from between two entries is between them. */
  lemma PickedBetween(s: seq<HeapElement>, t: seq<HeapElement>, at: seq<nat>, i: nat, w: nat, x: nat)
    returns (y: nat)
    requires Picked(s, t, at) && i < w < |t| && at[i] < x < at[w] && x in at
    ensures i < y < w && at[y] == x
  {
    y :| 0 <= y < |at| && at[y] == x;
  }

  lemma PickedTasks(program: Program, s: seq<HeapElement>, t: seq<HeapElement>, at: seq<nat>)
    requires Picked(s, t, at) && TasksOnly(program, s)
    ensures TasksOnly(program, t) && (SpillsOutputs(program, s) ==> SpillsOutputs(program, t))
  {
  }

  // In a schedule that runs

  /** Before a spill write of buffer `b` by `d` that follows, only `d` can have left anything in it. */
  lemma {:induction false} HeldUntil(program: Program, s: seq<HeapElement>, k: nat, m: Memory, w: nat)
    requires k <= w < |s| && Runs(program, s, k, m) && s[w].IsSpillWriteOp()
    requires forall x :: k <= x < w ==> s[x].op != s[w].op
    ensures s[w].buffer in m.buffers && m.buffers[s[w].buffer].op == s[w].op
    decreases w - k
  {
    if k < w {
      HeldUntil(program, s, k + 1, Step(program, m, s[k]), w);
    }
  }

  /** What is removed uses no buffer between its load and its spill write. */
  lemma {:induction false} RemovedUsesOther(program: Program, s: seq<HeapElement>, k: nat, m: Memory, w: nat, x: nat)
    requires Cleanable(program, s) && k <= x < w < |s| && Runs(program, s, k, m) && s[w].IsSpillWriteOp()
    requires forall y :: x <= y < w ==> s[y].op != s[w].op
    requires Removed(program, s, x)
    ensures !UsesBuffer(program, s[x], s[w].buffer)
    decreases x - k
  {
    hide Idle, Program.WellFormed, Program.IsDataOp, OnceEach;
    if k < x {
      RemovedUsesOther(program, s, k + 1, Step(program, m, s[k]), w, x);
    } else {
      var b := s[w].buffer;
      HeldUntil(program, s, k, m, w);
      HeldUntil(program, s, k + 1, Step(program, m, s[k]), w);
      RemovedIsLoaded(program, s, x);
      if UsesBuffer(program, s[x], b) {
        OneOutput(program.tasks[s[x].op].outputs, b, if s[x].IsOriginalOp() then b else s[x].buffer);
      }
    }
  }

  lemma RemovedIsLoaded(program: Program, s: seq<HeapElement>, x: nat)
    requires Cleanable(program, s) && Removed(program, s, x) && x < |s|
    ensures Optimizable(program, s[x].op) && program.tasks[s[x].op].inputs == {}
    ensures |program.tasks[s[x].op].outputs| == 1
  {
    hide Idle, Program.WellFormed;
  }

  // After the second clean-up

  lemma RestHasNoDuplicates(s: seq<HeapElement>)
    ensures NoDuplicates(WithoutDuplicates(s, 0))
  {
    hide WithoutDuplicates, Duplicate, Picked;
    var t := WithoutDuplicates(s, 0);
    var at := RestPositions(s, 0);
    forall k: nat
      ensures !Duplicate(t, k)
    {
      if Duplicate(t, k) {
        var x := DuplicateOrigin(s, t, at, k);
      }
    }
  }

  lemma DuplicateOrigin(s: seq<HeapElement>, t: seq<HeapElement>, at: seq<nat>, k: nat) returns (x: nat)
    requires Picked(s, t, at) && Duplicate(t, k)
    ensures x < |s| && x in at && Duplicate(s, x)
  {
    x := at[k];
    var j :| 0 <= j < k && t[j].IsSpillWriteOp() && t[j].op == t[k].op && t[j].buffer == t[k].buffer;
    TwoWrites(s, at[j], x);
  }

  lemma TwoWrites(s: seq<HeapElement>, x: nat, v: nat)
    requires x < v < |s| && s[x].IsSpillWriteOp() && s[v].IsSpillWriteOp()
    requires s[x].op == s[v].op && s[x].buffer == s[v].buffer
    ensures Duplicate(s, v)
  {
  }

  /** Whatever is still wasted after the second clean-up was spared by the first one. */
  lemma WastedWasSpared(program: Program, s: seq<HeapElement>, t: seq<HeapElement>, at: seq<nat>, i: nat, w: nat)
    requires Cleanable(program, s) && Picked(s, t, at) && TasksOnly(program, t)
    requires forall j :: 0 <= j < |s| ==> (j in at <==> !Duplicate(s, j))
    requires Wasted(program, t, i, w)
    ensures Spared(program, s, at[i], at[w])
  {
    hide Program.WellFormed, Program.IsDataOp, OnceEach, LoadsFromOutside, WrittenBefore;
    var k, v := at[i], at[w];
    assert k in at && v in at && k < v;
    forall x | k < x < v
      ensures s[x].op != s[k].op
    {
      if s[x].op == s[k].op {
        if x in at {
          var y := PickedBetween(s, t, at, i, w, x);
        } else {
          OneOutput(program.tasks[s[k].op].outputs, s[x].buffer, s[v].buffer);
          TwoWrites(s, x, v);
        }
      }
    }
    forall x: nat, b | k < x < v && b in program.tasks[s[k].op].outputs && UsesBuffer(program, s[x], b)
      ensures Duplicate(s, x)
    {
      if x in at {
        var y := PickedBetween(s, t, at, i, w, x);
      }
    }
  }

  lemma SparedIsWasted(program: Program, s: seq<HeapElement>, t: seq<HeapElement>, at: seq<nat>, k: nat, v: nat)
    returns (i: nat, w: nat)
    requires Cleanable(program, s) && Picked(s, t, at) && TasksOnly(program, t)
    requires forall j :: 0 <= j < |s| ==> (j in at <==> !Duplicate(s, j))
    requires Spared(program, s, k, v)
    ensures Wasted(program, t, i, w)
  {
    hide Program.WellFormed, Program.IsDataOp, OnceEach, LoadsFromOutside, Optimizable;
    assert k in at && v in at;
    i :| 0 <= i < |at| && at[i] == k;
    w :| 0 <= w < |at| && at[w] == v;
    assert i < w;
    forall x | i < x < w
      ensures t[x].op != t[i].op
    {
      assert k < at[x] < v;
    }
    forall x, b | i < x < w && b in program.tasks[t[i].op].outputs
      ensures !UsesBuffer(program, t[x], b)
    {
      assert k < at[x] < v && at[x] in at;
    }
  }

  /** After the second clean-up nothing is wasted exactly when the first one has spared nothing. */
  lemma WasteIsExact(program: Program, s: seq<HeapElement>)
    requires Cleanable(program, s)
    ensures TasksOnly(program, WithoutDuplicates(s, 0))
    ensures NothingWasted(program, WithoutDuplicates(s, 0)) <==> NoneSpared(program, s)
  {
    hide Wasted, Spared, WithoutDuplicates, Duplicate, Program.WellFormed, Program.IsDataOp, Picked;
    var t := WithoutDuplicates(s, 0);
    var at := RestPositions(s, 0);
    PickedTasks(program, s, t, at);
    if i: nat, w: nat :| Wasted(program, t, i, w) {
      WastedInRange(program, t, i, w);
      PickedSize(s, t, at);
      WastedWasSpared(program, s, t, at, i, w);
    }
    if k: nat, v: nat :| Spared(program, s, k, v) {
      var i, w := SparedIsWasted(program, s, t, at, k, v);
    }
  }

  lemma WastedInRange(program: Program, s: seq<HeapElement>, k: nat, w: nat)
    requires program.WellFormed() && TasksOnly(program, s) && Wasted(program, s, k, w)
    ensures k < w < |s|
  {
  }

  lemma PickedSize(s: seq<HeapElement>, t: seq<HeapElement>, at: seq<nat>)
    requires Picked(s, t, at)
    ensures |at| == |t|
  {
  }

  // A schedule in which a load stays wasted

  /** Data operation 2 loads buffer 0 for operation 3, after operation 0 has written it for operation 1. */
  const REUSED: Program :=
    Program([Task(Compute, 0, false, false, 10, {}, {0}, {0}), Task(Compute, 0, false, false, 10, {0}, {1}, {0, 1}),
             Task(DmaNN, 3, false, true, 10, {}, {0}, {0}), Task(Compute, 0, false, false, 10, {0, 1}, {2}, {0, 1, 2})],
            [{}, {0}, {1}, {2}], [{1}, {2}, {3}, {}], [10, 10, 10], [false, false, false], 1, 2)

  function Entry(o: nat, opType: OpType, b: nat): HeapElement {
    HeapElement(o, 0, {0}, 0, 0, opType, b)
  }

  /** Buffer 1 is spilled, read back, and spilled again just before the load of buffer 0 is spilled. */
  const SPILLED_TWICE: seq<HeapElement> :=
    [Entry(0, Original, 0), Entry(1, Original, 1), Entry(1, SpillWrite, 1), Entry(1, SpillRead, 1),
     Entry(2, Original, 0), Entry(1, SpillWrite, 1), Entry(2, SpillWrite, 0)]

  lemma ReusedIsLegal()
    ensures REUSED.WellFormed() && REUSED.IsDataOp(2) && !REUSED.IsDataOp(0) && !REUSED.IsDataOp(1)
    ensures LoadsFromOutside(REUSED)
  {
    var p := REUSED;
    assert !p.IsDataOp(3);
  }

  lemma SpilledTwiceIsCleanable()
    ensures REUSED.WellFormed() && Cleanable(REUSED, SPILLED_TWICE) && Optimizable(REUSED, 2)
    ensures !Optimizable(REUSED, 0) && !Optimizable(REUSED, 1)
  {
    hide Program.WellFormed, Program.IsDataOp;
    ReusedIsLegal();
  }

  /** What operations 0, 1 and 2 leave. */
  const LEFT: seq<Content> := [Content(0, map[]), Content(1, map[0 := Content(0, map[])]), Content(2, map[])]

  /** The memory before the second spill of buffer 1. */
  const LOADED: Memory := Memory(map[0 := LEFT[2], 1 := LEFT[1]], map[1 := LEFT[1]])

  lemma SpilledTwiceEnds()
    ensures StrictlyRuns(REUSED, SPILLED_TWICE, 5, LOADED)
  {
    hide StrictlyRuns;
    var p, s := REUSED, SPILLED_TWICE;
    var m, end := Memory(map[0 := LEFT[2]], map[1 := LEFT[1]]), Memory(map[], map[0 := LEFT[2], 1 := LEFT[1]]);
    assert LOADED.buffers - {1} == m.buffers && LOADED.spilled[1 := LEFT[1]] == m.spilled;
    assert m.buffers - {0} == map[];
    RunsFrom(p, s, 6, m, end);
    RunsFrom(p, s, 5, LOADED, m);
  }

  lemma SpilledTwiceLoads(m: Memory)
    requires m == Memory(map[0 := LEFT[0], 1 := LEFT[1]], map[])
    ensures StrictlyRuns(REUSED, SPILLED_TWICE, 2, m)
  {
    hide StrictlyRuns;
    var p, s := REUSED, SPILLED_TWICE;
    SpilledTwiceEnds();
    var out, back := Memory(map[0 := LEFT[0]], map[1 := LEFT[1]]), m.(spilled := map[1 := LEFT[1]]);
    assert m.buffers - {1} == out.buffers;
    assert Seen(p, back, 2) == map[];
    assert Step(p, back, s[4]).buffers == LOADED.buffers;
    RunsFrom(p, s, 4, back, LOADED);
    RunsFrom(p, s, 3, out, back);
    RunsFrom(p, s, 2, m, out);
  }

  lemma SpilledTwiceRuns()
    ensures StrictlyRuns(REUSED, SPILLED_TWICE, 0, Memory(map[], map[]))
  {
    hide StrictlyRuns;
    var p, s := REUSED, SPILLED_TWICE;
    var start, m, n :=
      Memory(map[], map[]), Memory(map[0 := LEFT[0]], map[]), Memory(map[0 := LEFT[0], 1 := LEFT[1]], map[]);
    SpilledTwiceLoads(n);
    assert Seen(p, start, 0) == map[] && Seen(p, m, 1) == map[0 := LEFT[0]];
    assert Step(p, start, s[0]).buffers == m.buffers && Step(p, m, s[1]).buffers == n.buffers;
    RunsFrom(p, s, 1, m, n);
    RunsFrom(p, s, 0, start, m);
  }

  lemma RunsFrom(program: Program, s: seq<HeapElement>, k: nat, m: Memory, next: Memory)
    requires k < |s| && CanStep(program, m, s[k]) && (s[k].IsSpillReadOp() ==> s[k].buffer !in m.buffers)
    requires Step(program, m, s[k]) == next && (k + 1 < |s| ==> StrictlyRuns(program, s, k + 1, next))
    ensures StrictlyRuns(program, s, k, m)
  {
  }

  /** Nothing is wasted in this schedule, as the first clean-up sees it; without the redundant spill write
      of buffer 1 the load of buffer 0 is. */
  lemma WasteCanStay()
    ensures REUSED.WellFormed() && Cleanable(REUSED, SPILLED_TWICE)
    ensures StrictlyRuns(REUSED, SPILLED_TWICE, 0, Memory(map[], map[]))
    ensures NothingWasted(REUSED, SPILLED_TWICE)
    ensures TasksOnly(REUSED, WithoutDuplicates(SPILLED_TWICE, 0))
    ensures !NothingWasted(REUSED, WithoutDuplicates(SPILLED_TWICE, 0))
  {
    hide Program.WellFormed, Program.IsDataOp, Optimizable, Cleanable, StrictlyRuns;
    SpilledTwiceIsCleanable();
    SpilledTwiceRuns();
    var p, s := REUSED, SPILLED_TWICE;
    WasteIsExact(p, s);
    CleanableTasks(p, s);
    assert UsesBuffer(p, s[5], 0);
    assert WrittenBefore(s, 5, 1, 1);
    assert Spared(p, s, 4, 6);
    forall k: nat, w: nat
      ensures !Wasted(p, s, k, w)
    {
      if Next(s, k, w) && Optimizable(p, s[k].op) {
        assert k == 4 && w == 6;
        assert 0 in p.tasks[2].outputs;
      }
    }
  }

  lemma CleanableTasks(program: Program, s: seq<HeapElement>)
    requires Cleanable(program, s)
    ensures program.WellFormed() && TasksOnly(program, s)
  {
  }
}
