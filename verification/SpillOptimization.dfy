/** Removal of loads that are spilled before anyone has used them, on the schedule vector. */
module SpillOptimization {
  import opened ScheduleProgram
  import opened TimelineModule
  import opened SpillReplay
  import opened DataOpSpills
  import opened SpillWaste

  // Loads and spill writes of a data operation alternate

  /** Entry `l` is the last one of its operation before `k`. */
  ghost predicate Last(s: seq<HeapElement>, l: nat, k: nat) {
    l < k <= |s| && forall x :: l < x < k ==> s[x].op != s[l].op
  }

  /** After a load the buffer is in memory, or another operation has spilled it; after a spill write
      it is not, or another operation has written it. */
  ghost predicate LastIsKnown(program: Program, s: seq<HeapElement>, k: nat, m: Memory, l: nat, b: nat)
    requires l < |s|
  {
    if IsLoad(s[l]) then b in m.buffers || (b in m.spilled && m.spilled[b].op != s[l].op)
    else b !in m.buffers || m.buffers[b].op != s[l].op
  }

  ghost predicate LastsAreKnown(program: Program, s: seq<HeapElement>, k: nat, m: Memory)
    requires program.WellFormed()
  {
    forall l: nat, b: nat {:trigger LastIsKnown(program, s, k, m, l, b)} ::
      l < |s| && Last(s, l, k) && Optimizable(program, s[l].op) && program.tasks[s[l].op].outputs == {b} ==>
        LastIsKnown(program, s, k, m, l, b)
  }

  /** A load is followed by a spill write of the same operation, and a spill write by a load. */
  ghost predicate Alternates(program: Program, s: seq<HeapElement>, k: nat)
    requires program.WellFormed()
  {
    forall l: nat, w: nat {:trigger Next(s, l, w)} :: k <= w && Next(s, l, w) && Optimizable(program, s[l].op) ==>
      (IsLoad(s[l]) <==> s[w].IsSpillWriteOp()) && !s[w].IsOriginalOp()
  }

  lemma LastsNext(program: Program, s: seq<HeapElement>, k: nat, m: Memory)
    requires Cleanable(program, s) && k < |s| && Known(program, s, k, m) && CanStep(program, m, s[k])
    requires LastsAreKnown(program, s, k, m)
    ensures LastsAreKnown(program, s, k + 1, Step(program, m, s[k]))
  {
    hide Program.WellFormed, History, AllRan, LoadsAreFixed, LoadsFromOutside, OnceEach;
    var after := Step(program, m, s[k]);
    forall l: nat, b: nat | l < |s| && Last(s, l, k + 1) && Optimizable(program, s[l].op) &&
        program.tasks[s[l].op].outputs == {b}
      ensures LastIsKnown(program, s, k + 1, after, l, b)
    {
      if l < k {
        assert Last(s, l, k);
        assert LastIsKnown(program, s, k, m, l, b);
        assert s[k].op != s[l].op;
      }
    }
  }

  lemma NextIsOther(program: Program, s: seq<HeapElement>, k: nat, m: Memory, l: nat)
    requires Cleanable(program, s) && k < |s| && Known(program, s, k, m) && CanStep(program, m, s[k])
    requires LastsAreKnown(program, s, k, m)
    requires s[k].IsSpillReadOp() ==> s[k].buffer !in m.buffers
    requires Next(s, l, k) && Optimizable(program, s[l].op)
    ensures (IsLoad(s[l]) <==> s[k].IsSpillWriteOp()) && !s[k].IsOriginalOp()
  {
    hide Program.WellFormed, History, LoadsAreFixed, LoadsFromOutside, OutputsOnly;
    var outputs := program.tasks[s[l].op].outputs;
    var b :| b in outputs;
    OneOutput(outputs, b, b);
    assert Last(s, l, k);
    assert LastIsKnown(program, s, k, m, l, b);
    if s[k].IsOriginalOp() {
      RunsOnce(s, k);
    }
  }

  lemma {:induction false} RunAlternates(program: Program, s: seq<HeapElement>, k: nat, m: Memory)
    requires Cleanable(program, s) && k <= |s| && Known(program, s, k, m) && LastsAreKnown(program, s, k, m)
    requires StrictlyRuns(program, s, k, m)
    ensures Alternates(program, s, k)
    decreases |s| - k
  {
    hide Known, CanStep, Step, LastsAreKnown, Program.WellFormed, Optimizable, OnceEach, SpillsOutputs, TasksOnly;
    if k < |s| {
      KnownNext(program, s, k, m);
      LastsNext(program, s, k, m);
      RunAlternates(program, s, k + 1, Step(program, m, s[k]));
      forall l: nat | Next(s, l, k) && Optimizable(program, s[l].op)
        ensures (IsLoad(s[l]) <==> s[k].IsSpillWriteOp()) && !s[k].IsOriginalOp()
      {
        NextIsOther(program, s, k, m, l);
      }
    } else {
      NextInRange(s);
    }
  }

  lemma NextInRange(s: seq<HeapElement>)
    ensures forall l: nat, w: nat :: Next(s, l, w) ==> l < w < |s|
  {
  }

  // The entries of one operation

  ghost function Positions(s: seq<HeapElement>, d: nat, n: nat): seq<nat>
    requires n <= |s|
  {
    if n == 0 then [] else if s[n - 1].op == d then Positions(s, d, n - 1) + [n - 1] else Positions(s, d, n - 1)
  }

  ghost predicate Ascending(xs: seq<nat>) {
    forall i, j :: 0 <= i < j < |xs| ==> xs[i] < xs[j]
  }

  lemma {:induction false} PositionsAre(s: seq<HeapElement>, d: nat, n: nat)
    requires n <= |s|
    ensures Ascending(Positions(s, d, n)) && forall k :: k in Positions(s, d, n) <==> 0 <= k < n && s[k].op == d
  {
    if n > 0 {
      PositionsAre(s, d, n - 1);
      var before := Positions(s, d, n - 1);
      assert forall i :: 0 <= i < |before| ==> before[i] in before;
    }
  }

  /** Of an operation that has only run once, the only entry is the original one. */
  lemma OnlyPosition(s: seq<HeapElement>, d: nat, n: nat, orig: nat)
    requires n <= |s| && orig < n && OnceEach(s) && s[orig].IsOriginalOp() && s[orig].op == d
    requires forall k :: 0 <= k < n && s[k].op == d ==> s[k].IsOriginalOp()
    ensures Positions(s, d, n) == [orig]
  {
    PositionsAre(s, d, n);
    var xs := Positions(s, d, n);
    assert orig in xs;
    if |xs| > 1 {
      TwoDiffer(xs, orig);
      assert false;
    }
  }

  lemma TwoDiffer(xs: seq<nat>, v: nat)
    requires Ascending(xs) && |xs| > 1
    ensures exists x :: x in xs && x != v
  {
    assert xs[0] in xs && xs[1] in xs && xs[0] < xs[1];
  }

  /** Neighbours among the positions follow each other. */
  lemma PositionsNext(s: seq<HeapElement>, d: nat, xs: seq<nat>, i: nat)
    requires xs == Positions(s, d, |s|) && i + 1 < |xs|
    ensures xs[i] < xs[i + 1] < |s| && Next(s, xs[i], xs[i + 1]) && s[xs[i]].op == d == s[xs[i + 1]].op
  {
    PositionsAre(s, d, |s|);
    assert xs[i] in xs && xs[i + 1] in xs;
    forall x | xs[i] < x < xs[i + 1]
      ensures s[x].op != d
    {
      assert x !in xs;
    }
  }

  // Phase 1

  /** The first of several entries is the original one. */
  ghost predicate Spilled(s: seq<HeapElement>, xs: seq<nat>) {
    |xs| > 1 && xs[0] < |s| && s[xs[0]].IsOriginalOp()
  }

  /** The entries of each data operation that has been spilled. */
  ghost predicate Tree(program: Program, s: seq<HeapElement>, n: nat, tree: map<nat, seq<nat>>)
    requires n <= |s| && program.WellFormed()
  {
    && (forall d :: d in tree ==> Optimizable(program, d) && tree[d] == Positions(s, d, n) && Spilled(s, tree[d]))
    && (forall k :: 0 <= k < n && !s[k].IsOriginalOp() && Optimizable(program, s[k].op) ==> s[k].op in tree)
  }

  lemma TreeSkips(program: Program, s: seq<HeapElement>, n: nat, tree: map<nat, seq<nat>>)
    requires n < |s| && OnceEach(s) && program.WellFormed() && Tree(program, s, n, tree)
    requires s[n].IsOriginalOp() ==> s[n].op !in tree
    requires s[n].IsOriginalOp() || !Optimizable(program, s[n].op)
    ensures Tree(program, s, n + 1, tree)
  {
  }

  lemma PositionsStep(s: seq<HeapElement>, d: nat, n: nat)
    requires n < |s|
    ensures Positions(s, d, n + 1) == if s[n].op == d then Positions(s, d, n) + [n] else Positions(s, d, n)
  {
  }

  lemma TreeEntry(s: seq<HeapElement>, d: nat, n: nat, xs: seq<nat>)
    requires n < |s| && s[n].op == d && xs == Positions(s, d, n) && xs != [] && xs[0] < |s| && s[xs[0]].IsOriginalOp()
    ensures xs + [n] == Positions(s, d, n + 1) && Spilled(s, xs + [n])
  {
  }

  lemma TreeGrows(program: Program, s: seq<HeapElement>, n: nat, tree: map<nat, seq<nat>>, xs: seq<nat>)
    requires n < |s| && program.WellFormed() && Tree(program, s, n, tree) && Optimizable(program, s[n].op)
    requires xs == Positions(s, s[n].op, n)
    requires xs != [] && xs[0] < |s| && s[xs[0]].IsOriginalOp()
    ensures Tree(program, s, n + 1, tree[s[n].op := xs + [n]])
  {
    hide Program.WellFormed, Optimizable, Positions, Spilled, Tree;
    TreeEntry(s, s[n].op, n, xs);
    TreeOthers(program, s, n, tree);
    TreeUnfolds(program, s, n + 1, tree[s[n].op := xs + [n]]);
  }

  lemma TreeUnfolds(program: Program, s: seq<HeapElement>, n: nat, tree: map<nat, seq<nat>>)
    requires n <= |s| && program.WellFormed()
    requires forall d :: d in tree ==> Optimizable(program, d) && tree[d] == Positions(s, d, n) && Spilled(s, tree[d])
    requires forall k :: 0 <= k < n && !s[k].IsOriginalOp() && Optimizable(program, s[k].op) ==> s[k].op in tree
    ensures Tree(program, s, n, tree)
  {
    hide Program.WellFormed, Optimizable, Positions, Spilled;
  }

  lemma TreeOthers(program: Program, s: seq<HeapElement>, n: nat, tree: map<nat, seq<nat>>)
    requires n < |s| && program.WellFormed() && Tree(program, s, n, tree)
    ensures forall d :: d in tree && d != s[n].op ==>
      Optimizable(program, d) && tree[d] == Positions(s, d, n + 1) && Spilled(s, tree[d])
    ensures forall k :: 0 <= k < n && !s[k].IsOriginalOp() && Optimizable(program, s[k].op) ==> s[k].op in tree
  {
    hide Program.WellFormed, Optimizable, Positions, Spilled;
    forall d | d in tree && d != s[n].op
      ensures tree[d] == Positions(s, d, n + 1)
    {
      PositionsStep(s, d, n);
    }
  }

  /** What the run tells about a spill of a data operation: the operation has run before. */
  ghost predicate SpillsAfterRun(s: seq<HeapElement>) {
    forall k: nat :: k < |s| && !s[k].IsOriginalOp() ==> RanBefore(s, k, s[k].op)
  }

  lemma {:induction false} RunSpillsAfter(program: Program, s: seq<HeapElement>, k: nat, m: Memory)
    requires Cleanable(program, s) && k <= |s| && Known(program, s, k, m) && StrictlyRuns(program, s, k, m)
    ensures forall j: nat :: k <= j < |s| && !s[j].IsOriginalOp() ==> RanBefore(s, j, s[j].op)
    decreases |s| - k
  {
    hide Cleanable, Step, LoadsAreFixed, AllRan, OutputsOnly, RanBefore, WrittenBefore, Program.WellFormed;
    if k < |s| {
      KnownNext(program, s, k, m);
      RunSpillsAfter(program, s, k + 1, Step(program, m, s[k]));
    }
  }

  method FindOriginal(s: seq<HeapElement>, opIndex: nat) returns (origOpIndex: nat)
    requires opIndex < |s| && RanBefore(s, opIndex, s[opIndex].op)
    ensures origOpIndex < opIndex && s[origOpIndex].IsOriginalOp() && s[origOpIndex].op == s[opIndex].op
  {
    var i := opIndex;
    while i > 0
      invariant 0 <= i <= opIndex && forall j :: i <= j < opIndex ==> !(s[j].IsOriginalOp() && s[j].op == s[opIndex].op)
    {
      i := i - 1;
      if s[i].IsOriginalOp() && s[i].op == s[opIndex].op {
        return i;
      }
    }
    assert false;
  }

  method DataOpSpillTree(program: Program, s: seq<HeapElement>) returns (tree: map<nat, seq<nat>>)
    requires Cleanable(program, s) && SpillsAfterRun(s)
    ensures Tree(program, s, |s|, tree)
  {
    hide Program.WellFormed, Optimizable, RanBefore, Positions, LoadsFromOutside, SpillsOutputs;
    tree := map[];
    for opIndex := 0 to |s|
      invariant Tree(program, s, opIndex, tree) && forall d :: d in tree ==> RanBefore(s, opIndex, d)
    {
      var op := s[opIndex];
      forall d
        ensures RanBefore(s, opIndex + 1, d) <==> RanBefore(s, opIndex, d) || (op.IsOriginalOp() && op.op == d)
      {
        RanNext(s, opIndex, d);
      }
      if !op.IsOriginalOp() && Optimizable(program, op.op) {
        if op.op in tree {
          TreeGrows(program, s, opIndex, tree, tree[op.op]);
          tree := tree[op.op := tree[op.op] + [opIndex]];
        } else {
          var origOpIndex := FindOriginal(s, opIndex);
          OnlyPosition(s, op.op, opIndex, origOpIndex);
          TreeGrows(program, s, opIndex, tree, [origOpIndex]);
          tree := tree[op.op := [origOpIndex] + [opIndex]];
        }
      } else {
        if op.IsOriginalOp() {
          RunsOnce(s, opIndex);
        }
        TreeSkips(program, s, opIndex, tree);
      }
    }
  }

  // Phase 2

  /** Whether an entry strictly between two entries uses the buffer. */
  method BufferUsed(program: Program, s: seq<HeapElement>, k: nat, w: nat, buffer: nat) returns (used: bool)
    requires TasksOnly(program, s) && k < w < |s| && program.tasks[s[k].op].outputs == {buffer}
    ensures used <==> !Idle(program, s, k, w)
  {
    used := false;
    var schedOpIdx := k + 1;
    while schedOpIdx < w && !used
      invariant k < schedOpIdx <= w
      invariant used ==> exists x :: k < x < w && UsesBuffer(program, s[x], buffer)
      invariant !used ==> forall x :: k < x < schedOpIdx ==> !UsesBuffer(program, s[x], buffer)
    {
      used := UsesBuffer(program, s[schedOpIdx], buffer);
      schedOpIdx := schedOpIdx + 1;
    }
  }

  /** `xs` are the entries of the data operation `d`, which is loaded and spilled in turn. */
  ghost predicate Turns(program: Program, s: seq<HeapElement>, d: nat, xs: seq<nat>) {
    && Cleanable(program, s) && Optimizable(program, d) && xs == Positions(s, d, |s|) && |xs| > 1
    && (forall i :: 0 <= i < |xs| ==> xs[i] < |s| && s[xs[i]].op == d) && s[xs[0]].IsOriginalOp()
    && forall i :: 0 < i < |xs| ==> if i % 2 == 1 then s[xs[i]].IsSpillWriteOp() else s[xs[i]].IsSpillReadOp()
  }

  /** The `i`th entry of the operation is a wasted load. */
  ghost predicate WastedAt(program: Program, s: seq<HeapElement>, xs: seq<nat>, i: nat)
    requires program.WellFormed() && TasksOnly(program, s)
  {
    i + 1 < |xs| && Wasted(program, s, xs[i], xs[i + 1])
  }

  lemma NextIsUnique(s: seq<HeapElement>)
    ensures forall k: nat, a: nat, b: nat {:trigger Next(s, k, a), Next(s, k, b)} ::
      Next(s, k, a) && Next(s, k, b) ==> a == b
    ensures forall k: nat, a: nat, b: nat {:trigger Next(s, a, k), Next(s, b, k)} ::
      Next(s, a, k) && Next(s, b, k) ==> a == b
  {
  }

  /** Only neighbours among the entries of an operation make a wasted load. */
  lemma WastedNeighbours(program: Program, s: seq<HeapElement>, d: nat, xs: seq<nat>, i: nat, j: nat)
    requires Turns(program, s, d, xs) && i < |xs|
    ensures Wasted(program, s, xs[i], j) ==> i + 1 < |xs| && j == xs[i + 1]
    ensures Wasted(program, s, j, xs[i]) ==> i > 0 && j == xs[i - 1]
  {
    hide Program.WellFormed, Optimizable, Idle, OnceEach, SpillsOutputs, LoadsFromOutside, Positions;
    PositionsAre(s, d, |s|);
    NextIsUnique(s);
    if i + 1 < |xs| {
      PositionsNext(s, d, xs, i);
    }
    if i > 0 {
      PositionsNext(s, d, xs, i - 1);
    }
    if Next(s, xs[i], j) {
      assert j in xs;
    }
    if Next(s, j, xs[i]) {
      assert j in xs;
    }
  }

  lemma RemovedAt(program: Program, s: seq<HeapElement>, d: nat, xs: seq<nat>, i: nat)
    requires Turns(program, s, d, xs) && i < |xs|
    ensures Removed(program, s, xs[i]) <==>
      if i % 2 == 0 then WastedAt(program, s, xs, i) else WastedAt(program, s, xs, i - 1)
  {
    hide Program.WellFormed, Wasted, Positions;
    WastedIsEven(program, s, d, xs);
    forall j
      ensures Wasted(program, s, xs[i], j) ==> i + 1 < |xs| && j == xs[i + 1]
      ensures Wasted(program, s, j, xs[i]) ==> i > 0 && j == xs[i - 1]
    {
      WastedNeighbours(program, s, d, xs, i, j);
    }
    assert i % 2 == 0 && i > 0 ==> !WastedAt(program, s, xs, i - 1);
    assert i % 2 == 1 ==> !WastedAt(program, s, xs, i);
  }

  lemma NoneKeptAt(program: Program, s: seq<HeapElement>, d: nat, xs: seq<nat>, i: nat)
    requires Turns(program, s, d, xs) && i + 2 < |xs| && i % 2 == 0
    ensures NoneKept(program, s, xs[0], d)
    ensures NoneKept(program, s, xs[i + 2], d) <==> NoneKept(program, s, xs[i], d) && WastedAt(program, s, xs, i)
  {
    hide Program.WellFormed, Optimizable, Removed, WastedAt, OnceEach, SpillsOutputs, LoadsFromOutside, Positions;
    PositionsAre(s, d, |s|);
    RemovedAt(program, s, d, xs, i);
    RemovedAt(program, s, d, xs, i + 1);
    forall j: nat | j < |s| && s[j].op == d
      ensures j < xs[i + 2] ==> j < xs[i] || j == xs[i] || j == xs[i + 1]
      ensures j >= xs[0]
    {
      assert j in xs;
      var y :| 0 <= y < |xs| && xs[y] == j;
    }
    assert xs[i] in xs && xs[i + 1] in xs && xs[i] < xs[i + 1] < xs[i + 2];
  }

  /** What the loop over the entries of `d` has made of entry `x` when `i` entries have been looked at. */
  ghost predicate TypeAt(program: Program, s: seq<HeapElement>, xs: seq<nat>, d: nat, i: nat, ops: seq<HeapElement>,
                         x: nat)
    requires Turns(program, s, d, xs) && |ops| == |s| && x < |xs|
  {
    if x >= 2 && x - 2 < i && x % 2 == 0 && NoneKept(program, s, xs[x], d) then
      ops[xs[x]] == s[xs[x]].(opType := s[xs[0]].opType)
    else ops[xs[x]] == s[xs[x]]
  }

  ghost predicate Types(program: Program, s: seq<HeapElement>, xs: seq<nat>, d: nat, i: nat, ops: seq<HeapElement>)
    requires Turns(program, s, d, xs) && |ops| == |s|
  {
    forall x: nat :: x < |xs| ==> TypeAt(program, s, xs, d, i, ops, x)
  }

  /** The wasted loads found so far, with their spill writes. */
  ghost predicate Gone(program: Program, s: seq<HeapElement>, xs: seq<nat>, i: nat, removed: set<nat>, start: set<nat>)
    requires program.WellFormed() && TasksOnly(program, s)
  {
    forall k :: k in removed <==>
      k in start || exists x: nat :: x < i && WastedAt(program, s, xs, x) && (k == xs[x] || k == xs[x + 1])
  }

  /** The state of that loop. */
  ghost predicate Looked(program: Program, s: seq<HeapElement>, xs: seq<nat>, d: nat, i: nat, ops: seq<HeapElement>,
                         before: seq<HeapElement>, removed: set<nat>, start: set<nat>)
    requires Turns(program, s, d, xs)
  {
    && |ops| == |before| == |s| && (forall k :: 0 <= k < |s| && s[k].op != d ==> ops[k] == before[k])
    && Gone(program, s, xs, i, removed, start) && Types(program, s, xs, d, i, ops)
  }

  lemma LookedAt(program: Program, s: seq<HeapElement>, xs: seq<nat>, d: nat, ops: seq<HeapElement>,
                 before: seq<HeapElement>, removed: set<nat>, start: set<nat>, y: nat)
    requires Turns(program, s, d, xs) && Looked(program, s, xs, d, |xs| - 1, ops, before, removed, start) && y < |xs|
    ensures Becomes(program, s, xs[y], ops[xs[y]])
    ensures xs[y] in removed <==> xs[y] in start || Removed(program, s, xs[y])
  {
    hide Program.WellFormed, Optimizable, Removed, WastedAt, NoneKept, Positions;
    RemovedAt(program, s, d, xs, y);
    WastedIsEven(program, s, d, xs);
    PositionsAre(s, d, |s|);
    assert TypeAt(program, s, xs, d, |xs| - 1, ops, y);
    assert OriginalType(s, d, s[xs[0]].opType);
  }

  lemma LookedDone(program: Program, s: seq<HeapElement>, xs: seq<nat>, d: nat, ops: seq<HeapElement>,
                   before: seq<HeapElement>, removed: set<nat>, start: set<nat>)
    requires Turns(program, s, d, xs) && Looked(program, s, xs, d, |xs| - 1, ops, before, removed, start)
    ensures forall k :: k in removed <==> k in start || (0 <= k < |s| && s[k].op == d && Removed(program, s, k))
    ensures forall k :: 0 <= k < |s| && s[k].op == d ==> Becomes(program, s, k, ops[k])
  {
    hide Program.WellFormed, Optimizable, Removed, WastedAt, NoneKept, Positions, Becomes;
    PositionsAre(s, d, |s|);
    forall k | 0 <= k < |s| && s[k].op == d
      ensures Becomes(program, s, k, ops[k])
      ensures k in removed <==> k in start || Removed(program, s, k)
    {
      assert k in xs;
      var y: nat :| y < |xs| && xs[y] == k;
      LookedAt(program, s, xs, d, ops, before, removed, start, y);
    }
  }

  lemma WastedIsEven(program: Program, s: seq<HeapElement>, d: nat, xs: seq<nat>)
    requires Turns(program, s, d, xs)
    ensures forall x: nat {:trigger WastedAt(program, s, xs, x)} :: WastedAt(program, s, xs, x) ==>
      x % 2 == 0 && x + 1 < |xs|
  {
    hide Program.WellFormed, Optimizable, Idle, OnceEach, SpillsOutputs, LoadsFromOutside, Positions, Next;
  }

  /** In a schedule that runs, the entries of a data operation are its load, and spill writes and reads in turn. */
  lemma {:induction false} TurnAt(program: Program, s: seq<HeapElement>, d: nat, xs: seq<nat>, i: nat)
    requires Cleanable(program, s) && Alternates(program, s, 0) && Optimizable(program, d)
    requires xs == Positions(s, d, |s|) && Spilled(s, xs) && i < |xs|
    ensures xs[i] < |s| && s[xs[i]].op == d
    ensures (i > 0 ==> if i % 2 == 1 then s[xs[i]].IsSpillWriteOp() else s[xs[i]].IsSpillReadOp())
  {
    hide Program.WellFormed, Optimizable, Positions, OnceEach, SpillsOutputs, LoadsFromOutside, TasksOnly, Next;
    PositionsAre(s, d, |s|);
    assert xs[i] in xs;
    if i > 0 {
      TurnAt(program, s, d, xs, i - 1);
      PositionsNext(s, d, xs, i - 1);
    }
  }

  lemma LookedStart(program: Program, s: seq<HeapElement>, d: nat, xs: seq<nat>, ops: seq<HeapElement>,
                    removed: set<nat>)
    requires Turns(program, s, d, xs) && |ops| == |s| && forall k :: 0 <= k < |s| && s[k].op == d ==> ops[k] == s[k]
    ensures Looked(program, s, xs, d, 0, ops, ops, removed, removed)
  {
    hide Program.WellFormed, Optimizable, Removed, WastedAt, NoneKept, Positions, OnceEach, SpillsOutputs,
      LoadsFromOutside;
  }

  /** An entry that is no wasted load changes nothing. */
  lemma LookedOn(program: Program, s: seq<HeapElement>, d: nat, xs: seq<nat>, i: nat, ops: seq<HeapElement>,
                 before: seq<HeapElement>, removed: set<nat>, start: set<nat>)
    requires Turns(program, s, d, xs) && i + 1 < |xs| && Looked(program, s, xs, d, i, ops, before, removed, start)
    requires !WastedAt(program, s, xs, i)
    ensures Looked(program, s, xs, d, i + 1, ops, before, removed, start)
  {
    hide Program.WellFormed, Optimizable, Removed, WastedAt, NoneKept, Positions, OnceEach, SpillsOutputs,
      LoadsFromOutside;
    var after := i + 1;
    forall x: nat {:trigger TypeAt(program, s, xs, d, after, ops, x)} | x < |xs|
      ensures TypeAt(program, s, xs, d, after, ops, x)
    {
      assert TypeAt(program, s, xs, d, i, ops, x);
      if x == i + 2 && i % 2 == 0 {
        NoneKeptAt(program, s, d, xs, i);
      }
    }
  }

  /** Of the types only the one of the next load changes. */
  lemma TypesWasted(program: Program, s: seq<HeapElement>, d: nat, xs: seq<nat>, i: nat, ops: seq<HeapElement>,
                    next: seq<HeapElement>)
    requires Turns(program, s, d, xs) && i + 1 < |xs| && i % 2 == 0 && |ops| == |s|
    requires Types(program, s, xs, d, i, ops) && WastedAt(program, s, xs, i)
    requires next == if ops[xs[i]].IsOriginalOp() && i + 2 < |xs| then
      ops[xs[i + 2] := ops[xs[i + 2]].(opType := ops[xs[i]].opType)] else ops
    ensures Types(program, s, xs, d, i + 1, next)
  {
    hide Program.WellFormed, Optimizable, Removed, WastedAt, NoneKept, Positions, OnceEach, SpillsOutputs,
      LoadsFromOutside, TasksOnly;
    assert TypeAt(program, s, xs, d, i, ops, i);
    var after := i + 1;
    forall x: nat {:trigger TypeAt(program, s, xs, d, after, next, x)} | x < |xs|
      ensures TypeAt(program, s, xs, d, after, next, x)
    {
      assert TypeAt(program, s, xs, d, i, ops, x);
      if x == i + 2 {
        NoneKeptAt(program, s, d, xs, i);
      } else {
        PositionsDiffer(s, d, xs, x, i + 2);
        assert next[xs[x]] == ops[xs[x]];
      }
    }
  }

  lemma PositionsDiffer(s: seq<HeapElement>, d: nat, xs: seq<nat>, x: nat, y: nat)
    requires xs == Positions(s, d, |s|) && x < |xs| && x != y
    ensures y < |xs| ==> xs[x] != xs[y]
  {
    PositionsAre(s, d, |s|);
  }

  lemma GoneNext(program: Program, s: seq<HeapElement>, d: nat, xs: seq<nat>, i: nat, removed: set<nat>,
                 start: set<nat>)
    requires Turns(program, s, d, xs) && i + 1 < |xs| && WastedAt(program, s, xs, i)
    requires Gone(program, s, xs, i, removed, start)
    ensures Gone(program, s, xs, i + 1, removed + {xs[i], xs[i + 1]}, start)
  {
    hide Turns, Program.WellFormed, WastedAt;
  }

  /** A wasted load goes with its spill write; if it was the original one, the next load takes its place. */
  lemma LookedWasted(program: Program, s: seq<HeapElement>, d: nat, xs: seq<nat>, i: nat, ops: seq<HeapElement>,
                     before: seq<HeapElement>, removed: set<nat>, start: set<nat>, next: seq<HeapElement>)
    requires Turns(program, s, d, xs) && i + 1 < |xs| && i % 2 == 0
    requires Looked(program, s, xs, d, i, ops, before, removed, start) && WastedAt(program, s, xs, i)
    requires next == if ops[xs[i]].IsOriginalOp() && i + 2 < |xs| then
      ops[xs[i + 2] := ops[xs[i + 2]].(opType := ops[xs[i]].opType)] else ops
    ensures Looked(program, s, xs, d, i + 1, next, before, removed + {xs[i], xs[i + 1]}, start)
  {
    hide Program.WellFormed, Optimizable, WastedAt, Positions, OnceEach, SpillsOutputs, LoadsFromOutside, TasksOnly,
      Gone, Types;
    GoneNext(program, s, d, xs, i, removed, start);
    TypesWasted(program, s, d, xs, i, ops, next);
  }

  /** What the types are while entry `i` is looked at. */
  lemma TypesNow(program: Program, s: seq<HeapElement>, d: nat, xs: seq<nat>, i: nat, ops: seq<HeapElement>)
    requires Turns(program, s, d, xs) && i + 1 < |xs| && |ops| == |s| && Types(program, s, xs, d, i, ops)
    ensures ops[xs[i]].IsSpillWriteOp() <==> i % 2 == 1
    ensures i % 2 == 0 ==> ops[xs[i + 1]].IsSpillWriteOp()
  {
    hide Program.WellFormed, Optimizable, Removed, NoneKept, Positions, OnceEach, SpillsOutputs, LoadsFromOutside,
      TasksOnly;
    assert TypeAt(program, s, xs, d, i, ops, i) && TypeAt(program, s, xs, d, i, ops, i + 1);
  }

  lemma NextIsRead(program: Program, s: seq<HeapElement>, d: nat, xs: seq<nat>, i: nat, ops: seq<HeapElement>)
    requires Turns(program, s, d, xs) && i + 2 < |xs| && i % 2 == 0 && |ops| == |s| && Types(program, s, xs, d, i, ops)
    ensures ops[xs[i + 2]].IsSpillReadOp()
  {
    hide Program.WellFormed, Optimizable, Removed, NoneKept, Positions, OnceEach, SpillsOutputs, LoadsFromOutside,
      TasksOnly;
    assert TypeAt(program, s, xs, d, i, ops, i + 2);
  }

  /** The entries of one data operation are looked at: wasted loads are marked, and the first load
      that is left becomes the original one. */
  method OptimizeOne(program: Program, s: seq<HeapElement>, d: nat, xs: seq<nat>, before: seq<HeapElement>,
                     start: set<nat>)
    returns (ops: seq<HeapElement>, removed: set<nat>)
    requires Turns(program, s, d, xs) && |before| == |s|
    requires forall k :: 0 <= k < |s| && s[k].op == d ==> before[k] == s[k]
    requires forall k :: 0 <= k < |s| && s[k].op == d ==> k !in start
    ensures |ops| == |s| && forall k :: 0 <= k < |s| && s[k].op != d ==> ops[k] == before[k]
    ensures forall k :: k in removed <==> k in start || (0 <= k < |s| && s[k].op == d && Removed(program, s, k))
    ensures forall k :: 0 <= k < |s| && s[k].op == d ==> Becomes(program, s, k, ops[k])
  {
    hide Program.WellFormed, Optimizable, Removed, NoneKept, Positions, OnceEach, SpillsOutputs, LoadsFromOutside,
      Becomes, Idle, Next, Gone, Types;
    ops, removed := before, start;
    LookedStart(program, s, d, xs, before, start);
    HasOutput(program, d);
    var buffer :| buffer in program.tasks[d].outputs;
    SingleOutput(program, d, buffer);
    var i := 0;
    while i + 1 < |xs|
      invariant i < |xs| && Looked(program, s, xs, d, i, ops, before, removed, start)
    {
      PositionsNext(s, d, xs, i);
      TypesNow(program, s, d, xs, i, ops);
      if ops[xs[i]].IsSpillWriteOp() || !ops[xs[i + 1]].IsSpillWriteOp() {
        WastedIsEven(program, s, d, xs);
        LookedOn(program, s, d, xs, i, ops, before, removed, start);
      } else {
        var used := BufferUsed(program, s, xs[i], xs[i + 1], buffer);
        if used {
          LookedOn(program, s, d, xs, i, ops, before, removed, start);
        } else {
          assert WastedAt(program, s, xs, i);
          ghost var ops0, removed0 := ops, removed;
          removed := removed + {xs[i], xs[i + 1]};
          if ops[xs[i]].IsOriginalOp() {
            var j := i + 2;
            while j < |xs| && !ops[xs[j]].IsSpillReadOp()
              invariant i + 2 <= j && (j > i + 2 ==> i + 2 < |xs| && !ops[xs[i + 2]].IsSpillReadOp())
            {
              j := j + 1;
            }
            if i + 2 < |xs| {
              NextIsRead(program, s, d, xs, i, ops);
            }
            if j < |xs| {
              ops := ops[xs[j] := ops[xs[j]].(opType := ops[xs[i]].opType)];
            }
          }
          LookedWasted(program, s, d, xs, i, ops0, before, removed0, start, ops);
        }
      }
      i := i + 1;
    }
    LookedDone(program, s, xs, d, ops, before, removed, start);
  }

  lemma HasOutput(program: Program, d: nat)
    requires program.WellFormed() && Optimizable(program, d)
    ensures program.tasks[d].outputs != {}
  {
  }

  lemma SingleOutput(program: Program, d: nat, b: nat)
    requires program.WellFormed() && Optimizable(program, d) && b in program.tasks[d].outputs
    ensures program.tasks[d].outputs == {b}
  {
    OneOutput(program.tasks[d].outputs, b, b);
  }

  // Phase 3

  /** The entries from `k` on that are not removed. */
  ghost function Remaining(ops: seq<HeapElement>, removed: set<nat>, k: nat): seq<HeapElement>
    requires k <= |ops|
    decreases |ops| - k
  {
    if k == |ops| then []
    else if k in removed then Remaining(ops, removed, k + 1)
    else [ops[k]] + Remaining(ops, removed, k + 1)
  }

  lemma {:induction false} RemainingAll(ops: seq<HeapElement>, removed: set<nat>, k: nat, x: nat)
    requires k <= x <= |ops| && forall r :: k <= r < x ==> r !in removed
    ensures Remaining(ops, removed, k) == ops[k..x] + Remaining(ops, removed, x)
    decreases x - k
  {
    if k < x {
      RemainingAll(ops, removed, k + 1, x);
      assert k !in removed;
      assert ops[k..x] == [ops[k]] + ops[k + 1..x];
      assert [ops[k]] + (ops[k + 1..x] + Remaining(ops, removed, x)) ==
        ([ops[k]] + ops[k + 1..x]) + Remaining(ops, removed, x);
    }
  }

  /** Entries are erased from the last to the first, so that indexes stay valid. */
  method EraseAll(ops: seq<HeapElement>, indexes: set<nat>) returns (scheduledOps: seq<HeapElement>)
    requires forall k :: k in indexes ==> k < |ops|
    ensures scheduledOps == Remaining(ops, indexes, 0)
  {
    hide Remaining;
    scheduledOps := ops;
    var left, bound := indexes, |ops|;
    RemainingEnd(ops, indexes);
    assert ops[..bound] + [] == ops;
    while left != {}
      invariant left <= indexes && bound <= |ops| && (forall k :: k in left ==> k < bound)
      invariant forall k :: k in indexes && k !in left ==> k >= bound
      invariant scheduledOps == ops[..bound] + Remaining(ops, indexes, bound)
      decreases |left|
    {
      var last := Largest(left);
      RemainingAll(ops, indexes, last + 1, bound);
      RemainingSkips(ops, indexes, last);
      assert scheduledOps == ops[..last + 1] + Remaining(ops, indexes, last + 1);
      scheduledOps := scheduledOps[..last] + scheduledOps[last + 1..];
      assert scheduledOps == ops[..last] + Remaining(ops, indexes, last);
      left, bound := left - {last}, last;
    }
    RemainingAll(ops, indexes, 0, bound);
    assert ops[0..bound] == ops[..bound];
  }

  lemma RemainingEnd(ops: seq<HeapElement>, removed: set<nat>)
    ensures Remaining(ops, removed, |ops|) == []
  {
  }

  lemma RemainingSkips(ops: seq<HeapElement>, removed: set<nat>, k: nat)
    requires k < |ops| && k in removed
    ensures Remaining(ops, removed, k) == Remaining(ops, removed, k + 1)
  {
  }

  method Largest(xs: set<nat>) returns (last: nat)
    requires xs != {}
    ensures last in xs && forall x :: x in xs ==> x <= last
  {
    last :| last in xs;
    var left := xs;
    while left != {}
      invariant left <= xs && last in xs && forall x :: x in xs && x !in left ==> x <= last
    {
      var x :| x in left;
      if x > last {
        last := x;
      }
      left := left - {x};
    }
  }

  lemma {:induction false} RemainingIsKept(program: Program, s: seq<HeapElement>, ops: seq<HeapElement>,
                                           removed: set<nat>, k: nat)
    requires Cleanable(program, s) && |ops| == |s| && k <= |s|
    requires forall j :: j in removed <==> 0 <= j < |s| && Removed(program, s, j)
    requires forall j :: 0 <= j < |s| && !Removed(program, s, j) ==> Becomes(program, s, j, ops[j])
    ensures Kept(program, s, k, Remaining(ops, removed, k))
    decreases |s| - k
  {
    hide Program.WellFormed, Removed, Becomes, OnceEach, LoadsFromOutside, SpillsOutputs;
    if k < |s| {
      RemainingIsKept(program, s, ops, removed, k + 1);
    }
  }

  /** Entries that are removed belong to data operations that have been spilled. */
  lemma RemovedInTree(program: Program, s: seq<HeapElement>, tree: map<nat, seq<nat>>, k: nat)
    requires Cleanable(program, s) && Tree(program, s, |s|, tree) && k < |s|
    ensures Removed(program, s, k) ==> s[k].op in tree
    ensures s[k].IsSpillReadOp() && Optimizable(program, s[k].op) ==> s[k].op in tree
  {
    hide Program.WellFormed, Optimizable, Idle, Positions, OnceEach, LoadsFromOutside, SpillsOutputs;
  }

  lemma KeptAsIs(program: Program, s: seq<HeapElement>, tree: map<nat, seq<nat>>, k: nat)
    requires Cleanable(program, s) && Tree(program, s, |s|, tree) && k < |s| && s[k].op !in tree
    ensures !Removed(program, s, k) && Becomes(program, s, k, s[k])
  {
    hide Program.WellFormed, Optimizable, Removed, Tree, Positions, OnceEach, LoadsFromOutside, SpillsOutputs;
    RemovedInTree(program, s, tree, k);
  }

  lemma TurnsHold(program: Program, s: seq<HeapElement>, tree: map<nat, seq<nat>>, d: nat)
    requires Cleanable(program, s) && Alternates(program, s, 0) && Tree(program, s, |s|, tree) && d in tree
    ensures Turns(program, s, d, tree[d])
  {
    hide Program.WellFormed, Optimizable, Alternates, Positions, OnceEach, LoadsFromOutside, SpillsOutputs;
    forall i | 0 <= i < |tree[d]|
      ensures tree[d][i] < |s| && s[tree[d][i]].op == d
      ensures (i > 0 ==> if i % 2 == 1 then s[tree[d][i]].IsSpillWriteOp() else s[tree[d][i]].IsSpillReadOp())
    {
      TurnAt(program, s, d, tree[d], i);
    }
  }

  /** What holds of a schedule that runs from empty memories. */
  lemma RunFacts(program: Program, s: seq<HeapElement>)
    requires Cleanable(program, s) && StrictlyRuns(program, s, 0, Memory(map[], map[]))
    ensures Known(program, s, 0, Memory(map[], map[]))
    ensures AsGood(program, s, 0, Memory(map[], map[]), Memory(map[], map[]))
    ensures Alternates(program, s, 0) && SpillsAfterRun(s) && Runs(program, s, 0, Memory(map[], map[]))
  {
    hide Program.WellFormed, Optimizable, Wasted, CanStep, Step, OnceEach, LoadsFromOutside, SpillsOutputs,
      StrictlyRuns, Runs, Alternates;
    var m := Memory(map[], map[]);
    HistoryStarts(program, s);
    assert Known(program, s, 0, m);
    assert AsGood(program, s, 0, m, m);
    assert LastsAreKnown(program, s, 0, m);
    RunAlternates(program, s, 0, m);
    RunSpillsAfter(program, s, 0, m);
    StrictlyRunsRuns(program, s, 0, m);
  }

  /** Entry `j` is where operation `o` is loaded originally after the clean-up. */
  ghost predicate Source(program: Program, s: seq<HeapElement>, j: nat, o: nat)
    requires Cleanable(program, s)
  {
    j < |s| && s[j].op == o && !Removed(program, s, j) && (s[j].IsOriginalOp() || NoneKept(program, s, j, o))
  }

  lemma SourceIsUnique(program: Program, s: seq<HeapElement>, i: nat, j: nat, o: nat)
    requires Cleanable(program, s) && SpillsAfterRun(s) && Source(program, s, i, o) && Source(program, s, j, o)
    ensures i >= j
  {
    hide Program.WellFormed, Optimizable, Removed, LoadsFromOutside, SpillsOutputs;
  }

  ghost predicate SourceFrom(program: Program, s: seq<HeapElement>, k: nat, o: nat)
    requires Cleanable(program, s)
  {
    exists j: nat :: k <= j && Source(program, s, j, o)
  }

  /** After the clean-up no operation runs twice. */
  lemma {:induction false} KeptOnce(program: Program, s: seq<HeapElement>, k: nat, t: seq<HeapElement>)
    requires Cleanable(program, s) && SpillsAfterRun(s) && k <= |s| && Kept(program, s, k, t)
    ensures OnceEach(t) && forall i :: 0 <= i < |t| && t[i].IsOriginalOp() ==> SourceFrom(program, s, k, t[i].op)
    decreases |s| - k
  {
    hide Program.WellFormed, Optimizable, Removed, LoadsFromOutside, SpillsOutputs, TasksOnly, NoneKept,
      SpillsAfterRun, OriginalType;
    if k < |s| {
      if Removed(program, s, k) {
        KeptOnce(program, s, k + 1, t);
      } else {
        var rest := t[1..];
        KeptOnce(program, s, k + 1, rest);
        assert t == [t[0]] + rest;
        if t[0].IsOriginalOp() {
          assert Source(program, s, k, t[0].op);
          forall i | 0 <= i < |rest| && rest[i].IsOriginalOp()
            ensures rest[i].op != t[0].op
          {
            var j: nat :| k + 1 <= j && Source(program, s, j, rest[i].op);
            if rest[i].op == t[0].op {
              SourceIsUnique(program, s, k, j, rest[i].op);
            }
          }
        }
      }
    }
  }

  /** The next entry of a kept load is kept too. */
  lemma KeptWithNext(program: Program, s: seq<HeapElement>, l: nat, v: nat) returns (w: nat)
    requires Cleanable(program, s) && Alternates(program, s, 0) && !Removed(program, s, l) && l < v < |s|
    requires Optimizable(program, s[l].op) && IsLoad(s[l]) && s[v].op == s[l].op
    ensures Next(s, l, w) && w <= v && s[w].IsSpillWriteOp() && !Removed(program, s, w)
    ensures !Idle(program, s, l, w)
  {
    hide Program.WellFormed, Optimizable, OnceEach, SpillsOutputs, LoadsFromOutside, Idle;
    w := FirstAfter(s, l, v);
    if Removed(program, s, w) {
      RemovedWrite(program, s, l, w);
    }
    assert !Wasted(program, s, l, w);
  }

  /** A spill write goes only with the load before it. */
  lemma RemovedWrite(program: Program, s: seq<HeapElement>, l: nat, w: nat)
    requires Cleanable(program, s) && Next(s, l, w) && s[w].IsSpillWriteOp() && Removed(program, s, w)
    ensures Removed(program, s, l)
  {
    hide Program.WellFormed, Optimizable, OnceEach, SpillsOutputs, LoadsFromOutside, Idle;
    NextIsUnique(s);
    var j: nat :| Wasted(program, s, j, w);
    assert j == l;
  }

  lemma FirstAfter(s: seq<HeapElement>, l: nat, v: nat) returns (w: nat)
    requires l < v < |s| && s[v].op == s[l].op
    ensures Next(s, l, w) && w <= v
  {
    w := l + 1;
    while s[w].op != s[l].op
      invariant l < w <= v && forall x :: l < x < w ==> s[x].op != s[l].op
      decreases v - w
    {
      w := w + 1;
    }
  }

  /** Whatever uses the buffer of a kept load is kept. */
  lemma KeptIsUsed(program: Program, s: seq<HeapElement>, l: nat, w: nat) returns (x: nat)
    requires Cleanable(program, s) && Runs(program, s, 0, Memory(map[], map[])) && Next(s, l, w)
    requires Optimizable(program, s[l].op) && s[w].IsSpillWriteOp() && !Idle(program, s, l, w)
    ensures l < x < w && !Removed(program, s, x) && program.tasks[s[l].op].outputs == {s[w].buffer}
    ensures UsesBuffer(program, s[x], s[w].buffer)
  {
    hide Program.WellFormed, Program.IsDataOp, OnceEach, LoadsFromOutside, Runs, Removed;
    var y, b :| l < y < w && b in program.tasks[s[l].op].outputs && UsesBuffer(program, s[y], b);
    OneOutput(program.tasks[s[l].op].outputs, b, s[w].buffer);
    x := y;
    if Removed(program, s, x) {
      RemovedUsesOther(program, s, 0, Memory(map[], map[]), w, x);
    }
  }

  /** After the first clean-up nothing is wasted. */
  lemma KeptIsNotWasted(program: Program, s: seq<HeapElement>, t: seq<HeapElement>)
    requires Cleanable(program, s) && Alternates(program, s, 0) && Runs(program, s, 0, Memory(map[], map[]))
    requires Kept(program, s, 0, t)
    ensures TasksOnly(program, t) && SpillsOutputs(program, t) && NothingWasted(program, t)
  {
    hide Program.WellFormed, Optimizable, OnceEach, LoadsFromOutside, Runs, Removed, Kept, Alternates;
    var at := KeptPositions(program, s, 0, t);
    PickedTasks(program, s, t, at);
    forall i: nat, w: nat
      ensures !Wasted(program, t, i, w)
    {
      if Wasted(program, t, i, w) {
        assert at[i] in at && at[w] in at && at[i] < at[w];
        var v := KeptWithNext(program, s, at[i], at[w]);
        assert v in at;
        if v < at[w] {
          var y := PickedBetween(s, t, at, i, w, v);
        }
        var x := KeptIsUsed(program, s, at[i], v);
        assert x in at;
        var y := PickedBetween(s, t, at, i, w, x);
      }
    }
  }

  /** `optimizeDataOpsSpills`: a load that is spilled before anyone has used it goes with its spill
      write, and the first load that is left becomes the original one.  What is left runs, every
      operation that reads anything finds what it found before, and whatever is still read has
      been left by an operation that runs exactly once, earlier.  Nothing is wasted any more. */
  method OptimizeDataOpsSpills(program: Program, scheduledOps: seq<HeapElement>) returns (optimized: seq<HeapElement>)
    requires Cleanable(program, scheduledOps) && StrictlyRuns(program, scheduledOps, 0, Memory(map[], map[]))
    ensures Kept(program, scheduledOps, 0, optimized) && Runs(program, scheduledOps, 0, Memory(map[], map[]))
    ensures OnceEach(optimized) && Cleanable(program, optimized) && NothingWasted(program, optimized)
    ensures Runs(program, optimized, 0, Memory(map[], map[])) && AllSourcesAhead(program, optimized)
    ensures Reads(program, optimized, 0, Memory(map[], map[])) == Reads(program, scheduledOps, 0, Memory(map[], map[]))
  {
    hide Program.WellFormed, Optimizable, Removed, Becomes, Known, AsGood, Alternates, SpillsAfterRun, Runs, Reads,
      StrictlyRuns, Tree, Turns, OnceEach, LoadsFromOutside, SpillsOutputs, Kept, AllSourcesAhead;
    RunFacts(program, scheduledOps);
    var dataOpSpillTree := DataOpSpillTree(program, scheduledOps);
    var ops, operationIndexesToRemove := scheduledOps, {};
    var left := dataOpSpillTree.Keys;
    while left != {}
      invariant left <= dataOpSpillTree.Keys && |ops| == |scheduledOps|
      invariant forall k :: k in operationIndexesToRemove <==>
        && 0 <= k < |scheduledOps| && scheduledOps[k].op in dataOpSpillTree && scheduledOps[k].op !in left
        && Removed(program, scheduledOps, k)
      invariant forall k :: 0 <= k < |ops| ==>
        if scheduledOps[k].op in dataOpSpillTree && scheduledOps[k].op !in left then
          Becomes(program, scheduledOps, k, ops[k])
        else ops[k] == scheduledOps[k]
    {
      var dataOp :| dataOp in left;
      TurnsHold(program, scheduledOps, dataOpSpillTree, dataOp);
      ops, operationIndexesToRemove :=
        OptimizeOne(program, scheduledOps, dataOp, dataOpSpillTree[dataOp], ops, operationIndexesToRemove);
      left := left - {dataOp};
    }
    forall k | 0 <= k < |scheduledOps|
      ensures k in operationIndexesToRemove <==> Removed(program, scheduledOps, k)
      ensures !Removed(program, scheduledOps, k) ==> Becomes(program, scheduledOps, k, ops[k])
    {
      if scheduledOps[k].op !in dataOpSpillTree {
        KeptAsIs(program, scheduledOps, dataOpSpillTree, k);
      }
    }
    optimized := EraseAll(ops, operationIndexesToRemove);
    RemainingIsKept(program, scheduledOps, ops, operationIndexesToRemove, 0);
    KeptOnce(program, scheduledOps, 0, optimized);
    KeptIsNotWasted(program, scheduledOps, optimized);
    WastedLoadsNotNeeded(program, scheduledOps, 0, Memory(map[], map[]), Memory(map[], map[]), optimized);
    RunHasSources(program, optimized);
  }

  /** `cleaned` is what the second clean-up makes of `optimized`, in which nothing is wasted.  No spill write
      is redundant any more; something is wasted again exactly when all that used it was. */
  ghost predicate CleanedUp(program: Program, optimized: seq<HeapElement>, cleaned: seq<HeapElement>)
    requires program.WellFormed()
  {
    && TasksOnly(program, optimized) && NothingWasted(program, optimized)
    && cleaned == WithoutDuplicates(optimized, 0) && NoDuplicates(cleaned)
    && TasksOnly(program, cleaned) && (NothingWasted(program, cleaned) <==> NoneSpared(program, optimized))
  }

  /** Both clean-ups, one after the other. */
  method CleanUpSpills(program: Program, scheduledOps: seq<HeapElement>) returns (cleaned: seq<HeapElement>)
    requires Cleanable(program, scheduledOps) && StrictlyRuns(program, scheduledOps, 0, Memory(map[], map[]))
    ensures Runs(program, scheduledOps, 0, Memory(map[], map[])) && Runs(program, cleaned, 0, Memory(map[], map[]))
    ensures Reads(program, cleaned, 0, Memory(map[], map[])) == Reads(program, scheduledOps, 0, Memory(map[], map[]))
    ensures OnceEach(cleaned) && AllSourcesAhead(program, cleaned)
    ensures exists optimized :: Kept(program, scheduledOps, 0, optimized) && CleanedUp(program, optimized, cleaned)
  {
    hide Cleanable, StrictlyRuns, Runs, Reads, OnceEach, Kept, AllSourcesAhead, NothingWasted, NoDuplicates, NoneSpared,
      WithoutDuplicates;
    var optimized := OptimizeDataOpsSpills(program, scheduledOps);
    cleaned := RemoveRedundantSpillWrites(program, optimized);
    RunHasSources(program, cleaned);
    RestHasNoDuplicates(optimized);
    WasteIsExact(program, optimized);
    CleanableTasks(program, optimized);
    assert CleanedUp(program, optimized, cleaned);
  }
}
