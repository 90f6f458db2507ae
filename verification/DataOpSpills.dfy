/** Loads that are spilled before anyone has used them: which entries can go, and why no operation
    notices. */
module DataOpSpills {
  import opened ScheduleProgram
  import opened TimelineModule
  import opened SpillReplay

  /** A data operation with a single result; it reads nothing from the scheduled memory. */
  predicate Optimizable(program: Program, o: nat)
    requires program.WellFormed()
  {
    o < |program.tasks| && program.IsDataOp(o) && |program.tasks[o].outputs| == 1
  }

  ghost predicate LoadsFromOutside(program: Program)
    requires program.WellFormed()
  {
    forall o :: 0 <= o < |program.tasks| && program.IsDataOp(o) ==> program.tasks[o].inputs == {}
  }

  predicate UsesBuffer(program: Program, e: HeapElement, b: nat)
    requires e.op < |program.tasks|
  {
    b in program.tasks[e.op].inputs || b in program.tasks[e.op].outputs
  }

  ghost predicate TasksOnly(program: Program, s: seq<HeapElement>) {
    forall k :: 0 <= k < |s| ==> s[k].op < |program.tasks|
  }

  /** No entry strictly between `k` and `w` uses an output of the operation of `k`. */
  ghost predicate Idle(program: Program, s: seq<HeapElement>, k: nat, w: nat)
    requires TasksOnly(program, s) && k < |s| && w <= |s|
  {
    forall x, b :: k < x < w && b in program.tasks[s[k].op].outputs ==> !UsesBuffer(program, s[x], b)
  }

  ghost predicate IsLoad(e: HeapElement) {
    e.IsOriginalOp() || e.IsSpillReadOp()
  }

  /** The next entry of the same operation. */
  ghost predicate Next(s: seq<HeapElement>, k: nat, w: nat) {
    k < w < |s| && s[w].op == s[k].op && forall x :: k < x < w ==> s[x].op != s[k].op
  }

  /** The load at `k` is spilled at `w` before anyone has used it. */
  ghost predicate Wasted(program: Program, s: seq<HeapElement>, k: nat, w: nat)
    requires program.WellFormed() && TasksOnly(program, s)
  {
    Next(s, k, w) && Optimizable(program, s[k].op) && IsLoad(s[k]) && s[w].IsSpillWriteOp() && Idle(program, s, k, w)
  }

  ghost predicate Removed(program: Program, s: seq<HeapElement>, k: nat)
    requires program.WellFormed() && TasksOnly(program, s)
  {
    exists j :: Wasted(program, s, k, j) || Wasted(program, s, j, k)
  }

  /** All earlier entries of operation `o` are removed. */
  ghost predicate NoneKept(program: Program, s: seq<HeapElement>, k: nat, o: nat)
    requires program.WellFormed() && TasksOnly(program, s)
  {
    Optimizable(program, o) && forall j :: 0 <= j < k && j < |s| && s[j].op == o ==> Removed(program, s, j)
  }

  /** The type under which the operation of `k` is loaded originally. */
  ghost predicate OriginalType(s: seq<HeapElement>, o: nat, opType: OpType) {
    exists j :: 0 <= j < |s| && s[j].IsOriginalOp() && s[j].op == o && s[j].opType == opType
  }

  /** What becomes of a kept entry: the first load of a data operation is the original one. */
  ghost predicate Becomes(program: Program, s: seq<HeapElement>, k: nat, e: HeapElement)
    requires program.WellFormed() && TasksOnly(program, s) && k < |s|
  {
    if s[k].IsSpillReadOp() && NoneKept(program, s, k, s[k].op) then
      e == s[k].(opType := e.opType) && OriginalType(s, s[k].op, e.opType)
    else e == s[k]
  }

  /** `t` is what is kept of `s` from entry `k` on. */
  ghost predicate Kept(program: Program, s: seq<HeapElement>, k: nat, t: seq<HeapElement>)
    requires program.WellFormed() && TasksOnly(program, s)
    decreases |s| - k
  {
    if k >= |s| then t == []
    else if Removed(program, s, k) then Kept(program, s, k + 1, t)
    else t != [] && Becomes(program, s, k, t[0]) && Kept(program, s, k + 1, t[1..])
  }

  /** The load at `l` of buffer `b` is wasted, and its spill write at `w` is still to come. */
  ghost predicate Vain(program: Program, s: seq<HeapElement>, k: nat, b: nat, l: nat, w: nat)
    requires program.WellFormed() && TasksOnly(program, s)
  {
    l < k <= w && Wasted(program, s, l, w) && b in program.tasks[s[l].op].outputs
  }

  ghost predicate HeldInVain(program: Program, s: seq<HeapElement>, k: nat, b: nat)
    requires program.WellFormed() && TasksOnly(program, s)
  {
    exists l: nat, w: nat :: Vain(program, s, k, b, l, w)
  }

  /** Whatever the clean-up has for the spilled copy is the same, or the next load will be the original one. */
  ghost predicate CopyWillDo(program: Program, s: seq<HeapElement>, k: nat, n: Memory, b: nat, c: Content)
    requires program.WellFormed() && TasksOnly(program, s)
  {
    (b in n.spilled && n.spilled[b] == c) || NoneKept(program, s, k, c.op)
  }

  /** Before entry `k`: the memory `n` after the clean-up is as good as the memory `m` before it. */
  ghost predicate AsGood(program: Program, s: seq<HeapElement>, k: nat, m: Memory, n: Memory)
    requires program.WellFormed() && TasksOnly(program, s)
  {
    && (forall b {:trigger HeldInVain(program, s, k, b)} :: HeldInVain(program, s, k, b) ==>
          b in m.buffers && CopyWillDo(program, s, k, n, b, m.buffers[b]))
    && (forall b {:trigger m.buffers[b]} :: b in m.buffers && !HeldInVain(program, s, k, b) ==>
          b in n.buffers && n.buffers[b] == m.buffers[b])
    && (forall b {:trigger m.spilled[b]} :: b in m.spilled && b !in m.buffers ==>
          CopyWillDo(program, s, k, n, b, m.spilled[b]))
  }

  /** Data operations have read nothing. */
  ghost predicate LoadsAreFixed(program: Program, m: Memory)
    requires program.WellFormed()
  {
    && (forall b :: b in m.buffers && m.buffers[b].op < |program.tasks| && program.IsDataOp(m.buffers[b].op) ==>
          m.buffers[b].args == map[])
    && (forall b :: b in m.spilled && m.spilled[b].op < |program.tasks| && program.IsDataOp(m.spilled[b].op) ==>
          m.spilled[b].args == map[])
  }

  lemma LoadsStayFixed(program: Program, m: Memory, e: HeapElement)
    requires program.WellFormed() && LoadsFromOutside(program) && LoadsAreFixed(program, m) && CanStep(program, m, e)
    ensures LoadsAreFixed(program, Step(program, m, e))
  {
    hide Program.IsDataOp, Program.WellFormed;
    var next := Step(program, m, e);
    forall b | b in next.buffers && next.buffers[b].op < |program.tasks| && program.IsDataOp(next.buffers[b].op)
      ensures next.buffers[b].args == map[]
    {
      if e.IsOriginalOp() && b in program.tasks[e.op].outputs {
        assert Seen(program, m, e.op) == map[];
      } else if e.IsSpillReadOp() && b == e.buffer {
        assert next.buffers[b] == m.spilled[b];
      } else {
        assert next.buffers[b] == m.buffers[b];
      }
    }
  }

  /** Spilled buffers are outputs of the operation they are spilled for. */
  ghost predicate SpillsOutputs(program: Program, s: seq<HeapElement>)
    requires TasksOnly(program, s)
  {
    forall k :: 0 <= k < |s| && !s[k].IsOriginalOp() ==> s[k].buffer in program.tasks[s[k].op].outputs
  }

  /** Buffers are read back only when they are not in memory. */
  ghost predicate StrictlyRuns(program: Program, s: seq<HeapElement>, k: nat, m: Memory)
    decreases |s| - k
  {
    || k >= |s|
    || (CanStep(program, m, s[k]) && (s[k].IsSpillReadOp() ==> s[k].buffer !in m.buffers) &&
        StrictlyRuns(program, s, k + 1, Step(program, m, s[k])))
  }

  lemma {:induction false} StrictlyRunsRuns(program: Program, s: seq<HeapElement>, k: nat, m: Memory)
    requires StrictlyRuns(program, s, k, m)
    ensures Runs(program, s, k, m)
    decreases |s| - k
  {
    if k < |s| {
      StrictlyRunsRuns(program, s, k + 1, Step(program, m, s[k]));
    }
  }

  lemma NoneKeptNext(program: Program, s: seq<HeapElement>, k: nat, o: nat)
    requires program.WellFormed() && TasksOnly(program, s) && k < |s|
    ensures NoneKept(program, s, k + 1, o) <==> NoneKept(program, s, k, o) && (s[k].op == o ==> Removed(program, s, k))
  {
    hide Removed, Program.WellFormed, Optimizable;
  }

  /** Every operation that occurs before entry `k` has run before it. */
  ghost predicate AllRan(s: seq<HeapElement>, k: nat) {
    forall j :: 0 <= j < k && j < |s| ==> RanBefore(s, k, s[j].op)
  }

  /** Buffers hold outputs. */
  ghost predicate OutputsOnly(program: Program, m: Memory) {
    && (forall b :: b in m.buffers ==> m.buffers[b].op < |program.tasks| && b in program.tasks[m.buffers[b].op].outputs)
    && (forall b :: b in m.spilled ==> m.spilled[b].op < |program.tasks| && b in program.tasks[m.spilled[b].op].outputs)
  }

  /** What is known of the memory before entry `k`. */
  ghost predicate Known(program: Program, s: seq<HeapElement>, k: nat, m: Memory)
    requires program.WellFormed()
  {
    History(program, s, k, m) && LoadsAreFixed(program, m) && AllRan(s, k) && OutputsOnly(program, m)
  }

  /** What a schedule has to satisfy. */
  ghost predicate Cleanable(program: Program, s: seq<HeapElement>) {
    && program.WellFormed() && LoadsFromOutside(program) && OnceEach(s) && TasksOnly(program, s)
    && SpillsOutputs(program, s)
  }

  lemma AllRanNext(program: Program, s: seq<HeapElement>, k: nat, m: Memory)
    requires k < |s| && AllRan(s, k) && History(program, s, k, m) && CanStep(program, m, s[k])
    ensures AllRan(s, k + 1)
  {
    forall j | 0 <= j < k + 1
      ensures RanBefore(s, k + 1, s[j].op)
    {
      assert j < k ==> RanBefore(s, k, s[j].op);
      RanNext(s, k, s[j].op);
    }
  }

  lemma OutputsStay(program: Program, s: seq<HeapElement>, k: nat, m: Memory)
    requires k < |s| && OutputsOnly(program, m) && CanStep(program, m, s[k])
    ensures OutputsOnly(program, Step(program, m, s[k]))
  {
  }

  lemma KnownNext(program: Program, s: seq<HeapElement>, k: nat, m: Memory)
    requires Cleanable(program, s) && k < |s| && Known(program, s, k, m) && CanStep(program, m, s[k])
    ensures Known(program, s, k + 1, Step(program, m, s[k]))
  {
    hide CanStep, Step, History, LoadsAreFixed, AllRan, OutputsOnly, OnceEach, SpillsOutputs, TasksOnly,
      LoadsFromOutside, Program.WellFormed;
    HistoryStep(program, s, k, m);
    LoadsStayFixed(program, m, s[k]);
    AllRanNext(program, s, k, m);
    OutputsStay(program, s, k, m);
  }

  /** An entry that uses a buffer held in vain is the spill write that ends this. */
  lemma VainUse(program: Program, s: seq<HeapElement>, k: nat, b: nat)
    requires program.WellFormed() && TasksOnly(program, s) && k < |s| && HeldInVain(program, s, k, b)
    requires UsesBuffer(program, s[k], b)
    ensures Removed(program, s, k) && s[k].IsSpillWriteOp()
  {
    hide Program.WellFormed, Optimizable;
    var l: nat, w: nat :| Vain(program, s, k, b, l, w);
    assert k == w;
  }

  /** A buffer that is held in vain before the next entry is so already, or loaded by this one. */
  lemma VainBefore(program: Program, s: seq<HeapElement>, k: nat, b: nat)
    requires program.WellFormed() && TasksOnly(program, s) && k < |s| && HeldInVain(program, s, k + 1, b)
    ensures (exists w: nat :: Wasted(program, s, k, w) && b in program.tasks[s[k].op].outputs) ||
      (HeldInVain(program, s, k, b) && !UsesBuffer(program, s[k], b))
  {
    hide Program.WellFormed, Optimizable;
    var l: nat, w: nat :| Vain(program, s, k + 1, b, l, w);
    if l < k {
      assert Vain(program, s, k, b, l, w);
    }
  }

  /** And one that is no longer held in vain has just been spilled. */
  lemma VainAfter(program: Program, s: seq<HeapElement>, k: nat, b: nat)
    requires program.WellFormed() && TasksOnly(program, s) && SpillsOutputs(program, s) && k < |s|
    requires HeldInVain(program, s, k, b) && !HeldInVain(program, s, k + 1, b)
    ensures s[k].IsSpillWriteOp() && s[k].buffer == b && exists l: nat :: Wasted(program, s, l, k)
  {
    hide Program.WellFormed;
    var l: nat, w: nat :| Vain(program, s, k, b, l, w);
    assert Vain(program, s, k + 1, b, l, w) || w == k;
    OneOutput(program.tasks[s[k].op].outputs, b, s[k].buffer);
  }

  lemma OneOutput(outputs: set<nat>, a: nat, b: nat)
    requires |outputs| == 1 && a in outputs && b in outputs
    ensures a == b && outputs == {a}
  {
    assert |outputs - {a}| == 0;
  }

  /** A wasted load: nothing is done, and nobody notices. */
  lemma WastedLoad(program: Program, s: seq<HeapElement>, k: nat, w: nat, m: Memory, n: Memory)
    requires Cleanable(program, s) && k < |s| && Known(program, s, k, m) && CanStep(program, m, s[k])
    requires AsGood(program, s, k, m, n)
    requires Wasted(program, s, k, w) && (s[k].IsSpillReadOp() ==> s[k].buffer !in m.buffers)
    ensures AsGood(program, s, k + 1, Step(program, m, s[k]), n) && ReadsOne(program, m, s[k]) == []
  {
    hide Program.WellFormed, Removed, HeldInVain, Idle, NoneKept, SpillsOutputs, TasksOnly, OutputsOnly, History,
      LoadsAreFixed;
    var e, after, d := s[k], Step(program, m, s[k]), s[k].op;
    assert Removed(program, s, k) by { WastedIsRemoved(program, s, k, w); }
    forall o
      ensures NoneKept(program, s, k, o) ==> NoneKept(program, s, k + 1, o)
    {
      NoneKeptNext(program, s, k, o);
    }
    LoadedBuffer(program, s, k, m);
    var b0 :| program.tasks[d].outputs == {b0};
    assert CopyWillDo(program, s, k + 1, n, b0, after.buffers[b0]) by {
      if e.IsOriginalOp() {
        FirstOfItsOp(program, s, k, m);
      }
    }
    forall b | HeldInVain(program, s, k + 1, b)
      ensures b in after.buffers && CopyWillDo(program, s, k + 1, n, b, after.buffers[b])
    {
      if b != b0 {
        VainBefore(program, s, k, b);
      }
    }
    forall b | b in after.buffers && !HeldInVain(program, s, k + 1, b)
      ensures b in n.buffers && n.buffers[b] == after.buffers[b]
    {
      HeldFromNow(program, s, k, w, b0);
      if HeldInVain(program, s, k, b) {
        VainAfter(program, s, k, b);
      }
    }
  }

  lemma WastedIsRemoved(program: Program, s: seq<HeapElement>, k: nat, w: nat)
    requires program.WellFormed() && TasksOnly(program, s) && Wasted(program, s, k, w)
    ensures Removed(program, s, k) && Removed(program, s, w)
  {
    hide Program.WellFormed, Wasted;
  }

  lemma HeldFromNow(program: Program, s: seq<HeapElement>, k: nat, w: nat, b: nat)
    requires program.WellFormed() && TasksOnly(program, s) && Wasted(program, s, k, w)
    requires b in program.tasks[s[k].op].outputs
    ensures HeldInVain(program, s, k + 1, b)
  {
    hide Program.WellFormed;
    assert Vain(program, s, k + 1, b, k, w);
  }

  /** What a load of a data operation with one output leaves. */
  lemma LoadedBuffer(program: Program, s: seq<HeapElement>, k: nat, m: Memory)
    requires Cleanable(program, s) && k < |s| && Known(program, s, k, m) && CanStep(program, m, s[k]) && IsLoad(s[k])
    requires Optimizable(program, s[k].op)
    ensures ReadsOne(program, m, s[k]) == [] && exists b :: program.tasks[s[k].op].outputs == {b}
    ensures forall b :: program.tasks[s[k].op].outputs == {b} ==>
      && Step(program, m, s[k]) == m.(buffers := m.buffers[b := Content(s[k].op, map[])])
      && (s[k].IsSpillReadOp() ==> s[k].buffer == b && m.spilled[b] == Content(s[k].op, map[]))
  {
    hide Program.WellFormed, History, AllRan;
    var outputs := program.tasks[s[k].op].outputs;
    var b0 :| b0 in outputs;
    OneOutput(outputs, b0, b0);
    if s[k].IsOriginalOp() {
      assert Seen(program, m, s[k].op) == map[];
      assert m.buffers + (map b | b in outputs :: Content(s[k].op, map[])) == m.buffers[b0 := Content(s[k].op, map[])];
    }
  }

  /** Nothing of an operation comes before it has run. */
  lemma FirstOfItsOp(program: Program, s: seq<HeapElement>, k: nat, m: Memory)
    requires Cleanable(program, s) && k < |s| && Known(program, s, k, m) && s[k].IsOriginalOp()
    requires Optimizable(program, s[k].op) && Removed(program, s, k)
    ensures NoneKept(program, s, k + 1, s[k].op)
  {
    hide Program.WellFormed, Removed, OutputsOnly, LoadsAreFixed, SpillsOutputs, History;
    RunsOnce(s, k);
  }

  /** The spill write of a wasted load: nothing is done. */
  lemma WastedWrite(program: Program, s: seq<HeapElement>, k: nat, l: nat, m: Memory, n: Memory)
    requires Cleanable(program, s) && k < |s| && Known(program, s, k, m) && CanStep(program, m, s[k])
    requires AsGood(program, s, k, m, n) && Wasted(program, s, l, k)
    ensures AsGood(program, s, k + 1, Step(program, m, s[k]), n) && ReadsOne(program, m, s[k]) == []
  {
    hide Program.WellFormed, Removed, HeldInVain, Idle, NoneKept, TasksOnly, OutputsOnly, History, LoadsAreFixed,
      Optimizable;
    var e, after := s[k], Step(program, m, s[k]);
    WastedIsRemoved(program, s, l, k);
    forall o
      ensures NoneKept(program, s, k, o) ==> NoneKept(program, s, k + 1, o)
    {
      NoneKeptNext(program, s, k, o);
    }
    assert HeldInVain(program, s, k, e.buffer) by { HeldUntil(program, s, k, l, e.buffer); }
    forall b | HeldInVain(program, s, k + 1, b)
      ensures b in after.buffers && CopyWillDo(program, s, k + 1, n, b, after.buffers[b])
    {
      VainBefore(program, s, k, b);
    }
    forall b | b in after.buffers && !HeldInVain(program, s, k + 1, b)
      ensures b in n.buffers && n.buffers[b] == after.buffers[b]
    {
      if HeldInVain(program, s, k, b) {
        VainAfter(program, s, k, b);
      }
    }
  }

  lemma HeldUntil(program: Program, s: seq<HeapElement>, k: nat, l: nat, b: nat)
    requires program.WellFormed() && TasksOnly(program, s) && Wasted(program, s, l, k)
    requires b in program.tasks[s[k].op].outputs
    ensures HeldInVain(program, s, k, b)
  {
    hide Program.WellFormed, Optimizable;
    assert Vain(program, s, k, b, l, k);
  }

  /** What holds for a kept entry `e` in place of entry `k`: buffers held in vain are not touched. */
  lemma KeptStep(program: Program, s: seq<HeapElement>, k: nat, m: Memory, n: Memory, after: Memory, next: Memory)
    requires Cleanable(program, s) && k < |s| && !Removed(program, s, k) && AsGood(program, s, k, m, n)
    requires forall b :: !UsesBuffer(program, s[k], b) ==>
      (b in m.buffers <==> b in after.buffers) && (b in m.buffers ==> after.buffers[b] == m.buffers[b])
    requires forall b :: !UsesBuffer(program, s[k], b) ==>
      (b in n.buffers ==> b in next.buffers && next.buffers[b] == n.buffers[b])
    requires forall b :: !UsesBuffer(program, s[k], b) ==>
      (b in n.spilled ==> b in next.spilled && next.spilled[b] == n.spilled[b])
    requires forall b :: UsesBuffer(program, s[k], b) && b in after.buffers ==>
      b in next.buffers && next.buffers[b] == after.buffers[b]
    requires forall b :: b in after.spilled && b !in after.buffers ==>
      CopyWillDo(program, s, k + 1, next, b, after.spilled[b])
    requires forall b :: b in m.buffers && m.buffers[b].op == s[k].op && HeldInVain(program, s, k, b) ==>
      UsesBuffer(program, s[k], b)
    ensures AsGood(program, s, k + 1, after, next)
  {
    hide Program.WellFormed, Removed, HeldInVain, Wasted, NoneKept, SpillsOutputs, UsesBuffer;
    forall b | HeldInVain(program, s, k + 1, b)
      ensures b in after.buffers && CopyWillDo(program, s, k + 1, next, b, after.buffers[b])
    {
      VainBefore(program, s, k, b);
      if w: nat :| Wasted(program, s, k, w) {
        WastedIsRemoved(program, s, k, w);
      }
      assert HeldInVain(program, s, k, b) && !UsesBuffer(program, s[k], b);
      NoneKeptNext(program, s, k, m.buffers[b].op);
    }
    forall b | b in after.buffers && !HeldInVain(program, s, k + 1, b)
      ensures b in next.buffers && next.buffers[b] == after.buffers[b]
    {
      if !UsesBuffer(program, s[k], b) && HeldInVain(program, s, k, b) {
        VainAfter(program, s, k, b);
        var l: nat :| Wasted(program, s, l, k);
        WastedIsRemoved(program, s, l, k);
      }
    }
  }

  /** A buffer that a kept entry uses is the same after the clean-up. */
  lemma UsedIsSame(program: Program, s: seq<HeapElement>, k: nat, m: Memory, n: Memory, b: nat)
    requires Cleanable(program, s) && k < |s| && !Removed(program, s, k) && AsGood(program, s, k, m, n)
    requires UsesBuffer(program, s[k], b) && b in m.buffers
    ensures b in n.buffers && n.buffers[b] == m.buffers[b]
  {
    hide Program.WellFormed, Removed, HeldInVain, UsesBuffer;
    if HeldInVain(program, s, k, b) {
      VainUse(program, s, k, b);
    }
  }

  /** What an operation has left in a buffer is in one of its outputs. */
  lemma OwnIsUsed(program: Program, s: seq<HeapElement>, k: nat, m: Memory)
    requires Cleanable(program, s) && k < |s| && OutputsOnly(program, m)
    ensures forall b :: b in m.buffers && m.buffers[b].op == s[k].op ==> UsesBuffer(program, s[k], b)
    ensures forall b :: b in m.spilled && m.spilled[b].op == s[k].op ==>
      UsesBuffer(program, s[k], b) && b in program.tasks[s[k].op].outputs
    ensures !s[k].IsOriginalOp() ==> UsesBuffer(program, s[k], s[k].buffer)
  {
    hide Program.WellFormed;
  }

  lemma KeptOriginal(program: Program, s: seq<HeapElement>, k: nat, m: Memory, n: Memory)
    requires Cleanable(program, s) && k < |s| && Known(program, s, k, m) && CanStep(program, m, s[k])
    requires AsGood(program, s, k, m, n)
    requires s[k].IsOriginalOp() && !Removed(program, s, k)
    ensures CanStep(program, n, s[k]) && ReadsOne(program, n, s[k]) == ReadsOne(program, m, s[k])
    ensures AsGood(program, s, k + 1, Step(program, m, s[k]), Step(program, n, s[k]))
  {
    hide Program.WellFormed, Removed, HeldInVain, NoneKept, LoadsAreFixed, AllRan, RanBefore, OnceEach, SpillsOutputs,
      LoadsFromOutside;
    var e := s[k];
    forall b | UsesBuffer(program, e, b) && b in m.buffers
      ensures b in n.buffers && n.buffers[b] == m.buffers[b]
    {
      UsedIsSame(program, s, k, m, n, b);
    }
    assert Seen(program, n, e.op) == Seen(program, m, e.op);
    RunsOnce(s, k);
    OwnIsUsed(program, s, k, m);
    forall o
      ensures o != e.op && NoneKept(program, s, k, o) ==> NoneKept(program, s, k + 1, o)
    {
      NoneKeptNext(program, s, k, o);
    }
    KeptStep(program, s, k, m, n, Step(program, m, e), Step(program, n, e));
  }

  lemma KeptWrite(program: Program, s: seq<HeapElement>, k: nat, m: Memory, n: Memory)
    requires Cleanable(program, s) && k < |s| && Known(program, s, k, m) && CanStep(program, m, s[k])
    requires AsGood(program, s, k, m, n)
    requires s[k].IsSpillWriteOp() && !Removed(program, s, k)
    ensures CanStep(program, n, s[k]) && ReadsOne(program, n, s[k]) == ReadsOne(program, m, s[k])
    ensures AsGood(program, s, k + 1, Step(program, m, s[k]), Step(program, n, s[k]))
  {
    hide Program.WellFormed, Removed, HeldInVain, NoneKept, LoadsAreFixed, AllRan, OnceEach, LoadsFromOutside,
      History, UsesBuffer, Optimizable;
    var e := s[k];
    forall b | UsesBuffer(program, e, b) && b in m.buffers
      ensures b in n.buffers && n.buffers[b] == m.buffers[b]
    {
      UsedIsSame(program, s, k, m, n, b);
    }
    OwnIsUsed(program, s, k, m);
    forall b | b in m.spilled && b != e.buffer && b !in m.buffers
      ensures CopyWillDo(program, s, k + 1, n, b, m.spilled[b])
    {
      NoneKeptNext(program, s, k, m.spilled[b].op);
      if m.spilled[b].op == e.op && NoneKept(program, s, k, e.op) {
        NoneKeptSingle(program, s, k, e.op, b, e.buffer);
      }
    }
    KeptStep(program, s, k, m, n, Step(program, m, e), Step(program, n, e));
  }

  lemma NoneKeptSingle(program: Program, s: seq<HeapElement>, k: nat, o: nat, a: nat, b: nat)
    requires program.WellFormed() && TasksOnly(program, s) && NoneKept(program, s, k, o)
    requires a in program.tasks[o].outputs && b in program.tasks[o].outputs
    ensures a == b
  {
    hide Program.WellFormed, Removed;
    OneOutput(program.tasks[o].outputs, a, b);
  }

  lemma KeptRead(program: Program, s: seq<HeapElement>, k: nat, m: Memory, n: Memory)
    requires Cleanable(program, s) && k < |s| && Known(program, s, k, m) && CanStep(program, m, s[k])
    requires AsGood(program, s, k, m, n)
    requires s[k].IsSpillReadOp() && s[k].buffer !in m.buffers && !Removed(program, s, k)
    requires !NoneKept(program, s, k, s[k].op)
    ensures CanStep(program, n, s[k]) && ReadsOne(program, n, s[k]) == ReadsOne(program, m, s[k])
    ensures AsGood(program, s, k + 1, Step(program, m, s[k]), Step(program, n, s[k]))
  {
    hide Program.WellFormed, Removed, HeldInVain, NoneKept, LoadsAreFixed, AllRan, OnceEach, LoadsFromOutside,
      History, UsesBuffer, Optimizable;
    var e := s[k];
    forall b | UsesBuffer(program, e, b) && b in m.buffers
      ensures b in n.buffers && n.buffers[b] == m.buffers[b]
    {
      UsedIsSame(program, s, k, m, n, b);
    }
    OwnIsUsed(program, s, k, m);
    forall b | b in m.spilled && b !in m.buffers
      ensures CopyWillDo(program, s, k + 1, n, b, m.spilled[b])
    {
      NoneKeptNext(program, s, k, m.spilled[b].op);
    }
    KeptStep(program, s, k, m, n, Step(program, m, e), Step(program, n, e));
  }

  /** The first load that is kept becomes the original one. */
  lemma KeptLoad(program: Program, s: seq<HeapElement>, k: nat, m: Memory, n: Memory, e: HeapElement)
    requires Cleanable(program, s) && k < |s| && Known(program, s, k, m) && CanStep(program, m, s[k])
    requires AsGood(program, s, k, m, n)
    requires s[k].IsSpillReadOp() && s[k].buffer !in m.buffers && !Removed(program, s, k)
    requires NoneKept(program, s, k, s[k].op)
    requires e == s[k].(opType := e.opType) && e.IsOriginalOp()
    ensures CanStep(program, n, e) && ReadsOne(program, n, e) == ReadsOne(program, m, s[k])
    ensures AsGood(program, s, k + 1, Step(program, m, s[k]), Step(program, n, e))
  {
    hide Program.WellFormed, Removed, HeldInVain, LoadsAreFixed, AllRan, OnceEach, History, UsesBuffer, Optimizable,
      Step, ReadsOne, CanStep, LoadsFromOutside, SpillsOutputs;
    var d := s[k].op;
    forall b | UsesBuffer(program, s[k], b) && b in m.buffers
      ensures b in n.buffers && n.buffers[b] == m.buffers[b]
    {
      UsedIsSame(program, s, k, m, n, b);
    }
    OwnIsUsed(program, s, k, m);
    LoadedBuffer(program, s, k, m);
    var b0 :| program.tasks[d].outputs == {b0};
    LoadsNothing(program, n, e, b0);
    forall b | b in m.spilled && b !in m.buffers && b != b0
      ensures CopyWillDo(program, s, k + 1, Step(program, n, e), b, m.spilled[b])
    {
      NoneKeptNext(program, s, k, m.spilled[b].op);
    }
    KeptStep(program, s, k, m, n, Step(program, m, s[k]), Step(program, n, e));
  }

  lemma LoadsNothing(program: Program, n: Memory, e: HeapElement, b: nat)
    requires program.WellFormed() && LoadsFromOutside(program) && Optimizable(program, e.op) && e.IsOriginalOp()
    requires program.tasks[e.op].outputs == {b}
    ensures CanStep(program, n, e) && ReadsOne(program, n, e) == []
    ensures Step(program, n, e) == n.(buffers := n.buffers[b := Content(e.op, map[])])
  {
    hide Program.WellFormed;
    assert Seen(program, n, e.op) == map[];
    var outputs := program.tasks[e.op].outputs;
    assert n.buffers + (map x | x in outputs :: Content(e.op, map[])) == n.buffers[b := Content(e.op, map[])];
  }

  /** `optimizeDataOpsSpills` changes nothing for anyone: what is kept runs, and every operation that
      reads anything finds what it found before. */
  lemma {:induction false} WastedLoadsNotNeeded(program: Program, s: seq<HeapElement>, k: nat, m: Memory, n: Memory,
                                                t: seq<HeapElement>)
    requires Cleanable(program, s) && k <= |s| && Known(program, s, k, m) && AsGood(program, s, k, m, n)
    requires StrictlyRuns(program, s, k, m)
    requires Runs(program, s, k, m) && Kept(program, s, k, t)
    ensures Runs(program, t, 0, n) && Reads(program, t, 0, n) == Reads(program, s, k, m)
    decreases |s| - k
  {
    hide AsGood, Known, CanStep, Step, ReadsOne, Removed, NoneKept, OriginalType, Program.WellFormed, TasksOnly;
    if k < |s| {
      assert CanStep(program, m, s[k]);
      var after := Step(program, m, s[k]);
      KnownNext(program, s, k, m);
      if Removed(program, s, k) {
        RemovedStep(program, s, k, m, n);
        WastedLoadsNotNeeded(program, s, k + 1, after, n, t);
      } else {
        KeptEntry(program, s, k, m, n, t[0]);
        WastedLoadsNotNeeded(program, s, k + 1, after, Step(program, n, t[0]), t[1..]);
        assert t == [t[0]] + t[1..];
        RunsCons(program, t[0], t[1..], n);
      }
    }
  }

  lemma RemovedStep(program: Program, s: seq<HeapElement>, k: nat, m: Memory, n: Memory)
    requires Cleanable(program, s) && k < |s| && Known(program, s, k, m) && CanStep(program, m, s[k])
    requires AsGood(program, s, k, m, n)
    requires Removed(program, s, k) && (s[k].IsSpillReadOp() ==> s[k].buffer !in m.buffers)
    ensures AsGood(program, s, k + 1, Step(program, m, s[k]), n) && ReadsOne(program, m, s[k]) == []
  {
    hide AsGood, Known, CanStep, Step, ReadsOne, Wasted, Program.WellFormed, TasksOnly;
    var j :| Wasted(program, s, k, j) || Wasted(program, s, j, k);
    if Wasted(program, s, k, j) {
      WastedLoad(program, s, k, j, m, n);
    } else {
      WastedWrite(program, s, k, j, m, n);
    }
  }

  lemma KeptEntry(program: Program, s: seq<HeapElement>, k: nat, m: Memory, n: Memory, e: HeapElement)
    requires Cleanable(program, s) && k < |s| && Known(program, s, k, m) && CanStep(program, m, s[k])
    requires AsGood(program, s, k, m, n)
    requires !Removed(program, s, k) && (s[k].IsSpillReadOp() ==> s[k].buffer !in m.buffers)
    requires Becomes(program, s, k, e)
    ensures CanStep(program, n, e) && ReadsOne(program, n, e) == ReadsOne(program, m, s[k])
    ensures AsGood(program, s, k + 1, Step(program, m, s[k]), Step(program, n, e))
  {
    hide AsGood, Known, CanStep, Step, ReadsOne, Removed, NoneKept, Program.WellFormed, TasksOnly;
    if s[k].IsOriginalOp() {
      KeptOriginal(program, s, k, m, n);
    } else if s[k].IsSpillWriteOp() {
      KeptWrite(program, s, k, m, n);
    } else if NoneKept(program, s, k, s[k].op) {
      KeptLoad(program, s, k, m, n, e);
    } else {
      KeptRead(program, s, k, m, n);
    }
  }
}
