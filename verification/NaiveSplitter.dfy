/** The splitter that cuts a function into slices at given distances from its arguments. */
module NaiveSplitterModule {
  import opened OutliningIr
  import opened OpDistances
  import opened OutliningSlices

  ghost predicate Covers(covered: set<nat>, slice: IRSlice) {
    forall o :: o in covered <==> o in slice.operations
  }

  /** The slice has only been added to; its new operations are not behind `top`. */
  ghost predicate Extends(slice: IRSlice, next: IRSlice, top: nat) {
    && slice.inputs <= next.inputs && slice.operations <= next.operations && next.outputs == slice.outputs
    && forall o :: o in next.operations ==> o in slice.operations || o <= top
  }

  /** The value is an input of the slice or computed in it. */
  ghost predicate AtHand(slice: IRSlice, v: Value) {
    v in slice.inputs || (v.Result? && v.op in slice.operations)
  }

  lemma ExtendsTransitive(a: IRSlice, b: IRSlice, c: IRSlice, low: nat, high: nat)
    requires Extends(a, b, high) && Extends(b, c, low) && low <= high
    ensures Extends(a, c, high)
  {
  }

  lemma AtHandStays(slice: IRSlice, next: IRSlice, top: nat, v: Value)
    requires Extends(slice, next, top) && AtHand(slice, v)
    ensures AtHand(next, v)
  {
    if v in slice.inputs {
      var i :| 0 <= i < |slice.inputs| && slice.inputs[i] == v;
      assert next.inputs[i] == v;
    } else {
      var i :| 0 <= i < |slice.operations| && slice.operations[i] == v.op;
      assert next.operations[i] == v.op;
    }
  }

  lemma InputAdded(plan: Plan, slice: IRSlice, idx: nat, v: Value)
    requires plan.f.WellFormed() && plan.SliceValid(slice, idx) && plan.InputAllowed(v, idx)
    ensures plan.SliceValid(slice.(inputs := slice.inputs + [v]), idx)
  {
    var next := slice.(inputs := slice.inputs + [v]);
    forall j, u | 0 <= j < |next.operations| && next.operations[j] < |plan.f.ops| && plan.f.Uses(next.operations[j], u)
      ensures plan.Available(next, j, u)
    {
      assert plan.Available(slice, j, u);
    }
  }

  lemma OperationAdded(plan: Plan, slice: IRSlice, idx: nat, o: nat)
    requires plan.f.WellFormed() && plan.SliceValid(slice, idx) && plan.Placeable(o, idx) && o !in slice.operations
    requires forall v :: plan.f.Uses(o, v) ==> AtHand(slice, v)
    ensures plan.SliceValid(slice.(operations := slice.operations + [o]), idx)
  {
    var next := slice.(operations := slice.operations + [o]);
    forall j, u | 0 <= j < |next.operations| && next.operations[j] < |plan.f.ops| && plan.f.Uses(next.operations[j], u)
      ensures plan.Available(next, j, u)
    {
      assert next.operations[..j] == slice.operations[..j];
      if j < |slice.operations| {
        assert plan.Available(slice, j, u);
      } else {
        assert slice.operations[..j] == slice.operations;
        assert AtHand(slice, u);
      }
    }
  }

  lemma OutputAdded(plan: Plan, slice: IRSlice, idx: nat, v: Value)
    requires plan.f.WellFormed() && plan.SliceValid(slice, idx)
    requires plan.OutputNeeded(v) && plan.Split(v.op) == Some(idx) && v.op in slice.operations
    ensures plan.SliceValid(slice.(outputs := slice.outputs + [v]), idx)
  {
    var next := slice.(outputs := slice.outputs + [v]);
    forall j, u | 0 <= j < |next.operations| && next.operations[j] < |plan.f.ops| && plan.f.Uses(next.operations[j], u)
      ensures plan.Available(next, j, u)
    {
      assert plan.Available(slice, j, u);
    }
  }

  class NaiveSplitter {
    const numSplits: nat
    var distances: map<nat, nat>
    var splittingPoints: seq<nat>

    constructor (numSplits: nat)
      ensures this.numSplits == numSplits
    {
      this.numSplits := numSplits;
      distances, splittingPoints := map[], [];
    }

    ghost function Plan(f: Function): Plan
      reads this
    {
      OutliningSlices.Plan(f, distances, splittingPoints)
    }

    /** `findSplitIdx`. */
    method FindSplitIdx(o: nat) returns (idx: Option<nat>)
      ensures forall f :: idx == Plan(f).Split(o)
    {
      if o !in distances {
        return None;
      }
      var i := 0;
      while i < |splittingPoints|
        invariant i <= |splittingPoints|
        invariant SplitAt(splittingPoints, distances[o], 0) == SplitAt(splittingPoints, distances[o], i)
      {
        if distances[o] <= splittingPoints[i] {
          return Some(i);
        }
        i := i + 1;
      }
      return Some(|splittingPoints|);
    }

    /** `addOperandToSplitIfInput`. */
    method AddOperandToSplitIfInput(f: Function, operand: Value, slice: IRSlice, idx: nat) returns (next: IRSlice)
      requires Plan(f).Valid() && f.DefinedBefore(operand, |f.ops|) && Plan(f).SliceValid(slice, idx)
      requires Plan(f).IsInput(operand, idx) ==> Plan(f).InputAllowed(operand, idx)
      ensures Plan(f).SliceValid(next, idx) && next.operations == slice.operations && next.outputs == slice.outputs
      ensures slice.inputs <= next.inputs
      ensures Plan(f).IsInput(operand, idx) ==> operand in next.inputs
      ensures !Plan(f).IsInput(operand, idx) ==> next == slice
    {
      next := slice;
      if operand in slice.inputs {
        InputsAreInputs(Plan(f), slice, idx, operand);
        return;
      }
      if operand.Result? {
        var parentSplit := FindSplitIdx(operand.op);
        assert parentSplit == Plan(f).Split(operand.op);
        if parentSplit == None || parentSplit.value == idx {
          return;
        }
        if f.PreprocessesArgument(operand.op) {
          return;
        }
      }
      InputAdded(Plan(f), slice, idx, operand);
      next := slice.(inputs := slice.inputs + [operand]);
    }

    /** `addParentOpsToSplit`: the operation and what it needs are copied into the slice, unless it
        belongs to another one. */
    method AddParentOpsToSplit(f: Function, o: nat, slice: IRSlice, covered: set<nat>, idx: nat)
      returns (next: IRSlice, nextCovered: set<nat>)
      requires Plan(f).Valid() && o < |f.ops| && Plan(f).SliceValid(slice, idx) && Covers(covered, slice)
      ensures Plan(f).SliceValid(next, idx) && Covers(nextCovered, next) && Extends(slice, next, o)
      ensures Plan(f).Placeable(o, idx) ==> o in next.operations
      decreases o
    {
      next, nextCovered := slice, covered;
      if o in covered {
        return;
      }
      var split := FindSplitIdx(o);
      assert split == Plan(f).Split(o);
      if !f.PreprocessesArgument(o) && split.Some? && split.value != idx {
        return;
      }
      next, nextCovered := AddOperands(f, o, next, nextCovered, idx);
      OperationAdded(Plan(f), next, idx, o);
      next := next.(operations := next.operations + [o]);
      nextCovered := nextCovered + {o};
    }

    /** The operands of an operation of the slice become inputs, or their operations are copied into it. */
    method AddOperands(f: Function, o: nat, slice: IRSlice, covered: set<nat>, idx: nat)
      returns (next: IRSlice, nextCovered: set<nat>)
      requires Plan(f).Valid() && Plan(f).Placeable(o, idx) && o !in slice.operations
      requires Plan(f).SliceValid(slice, idx) && Covers(covered, slice)
      ensures Plan(f).SliceValid(next, idx) && Covers(nextCovered, next) && Extends(slice, next, o)
      ensures o !in next.operations && forall v :: f.Uses(o, v) ==> AtHand(next, v)
      decreases o, 0
    {
      next, nextCovered := slice, covered;
      var j := 0;
      while j < |f.ops[o].operands|
        invariant j <= |f.ops[o].operands| && Plan(f).SliceValid(next, idx) && Covers(nextCovered, next)
        invariant Extends(slice, next, o) && o !in next.operations
        invariant forall i :: 0 <= i < j ==> AtHand(next, f.ops[o].operands[i])
      {
        ghost var before := next;
        next, nextCovered := AddOperand(f, o, f.ops[o].operands[j], next, nextCovered, idx);
        ExtendsTransitive(slice, before, next, o, o);
        forall i | 0 <= i < j
          ensures AtHand(next, f.ops[o].operands[i])
        {
          AtHandStays(before, next, o, f.ops[o].operands[i]);
        }
        j := j + 1;
      }
    }

    method AddOperand(f: Function, o: nat, operand: Value, slice: IRSlice, covered: set<nat>, idx: nat)
      returns (next: IRSlice, nextCovered: set<nat>)
      requires Plan(f).Valid() && Plan(f).Placeable(o, idx) && f.Uses(o, operand)
      requires Plan(f).SliceValid(slice, idx) && Covers(covered, slice)
      ensures Plan(f).SliceValid(next, idx) && Covers(nextCovered, next) && Extends(slice, next, o)
      ensures AtHand(next, operand)
      ensures o !in slice.operations ==> o !in next.operations
      decreases o, 0, 0
    {
      Plan(f).OperandAllowed(o, operand, idx);
      next := AddOperandToSplitIfInput(f, operand, slice, idx);
      nextCovered := covered;
      if operand.Result? {
        ghost var before := next;
        next, nextCovered := AddParentOpsToSplit(f, operand.op, next, nextCovered, idx);
        ExtendsTransitive(slice, before, next, operand.op, o);
        assert operand in before.inputs ==> AtHand(before, operand);
        if operand in before.inputs {
          AtHandStays(before, next, operand.op, operand);
        }
      }
    }

    /** Whether a use of `v` lies outside of slice `idx`. */
    method IsUsedOutside(f: Function, v: Value, idx: nat) returns (outside: bool)
      requires Plan(f).Valid()
      ensures outside <==>
        v in f.returned || exists c :: c in distances && c < |f.ops| && f.Uses(c, v) && Plan(f).Split(c) != Some(idx)
    {
      if v in f.returned {
        return true;
      }
      var left := UsersOf(f, v);
      outside := false;
      while left != {}
        invariant left <= UsersOf(f, v)
        invariant forall c :: c in UsersOf(f, v) && c !in left && c in distances ==> Plan(f).Split(c) == Some(idx)
      {
        var c :| c in left;
        var userSplit := FindSplitIdx(c);
        assert userSplit == Plan(f).Split(c);
        if userSplit.Some? && userSplit.value != idx {
          return true;
        }
        left := left - {c};
      }
    }

    /** `addResultToSplitIfOutput`. */
    method AddResultToSplitIfOutput(f: Function, v: Value, slice: IRSlice, idx: nat) returns (next: IRSlice)
      requires Plan(f).Valid() && Plan(f).SliceValid(slice, idx)
      requires v.Result? && v.op < |f.ops| && v.number < f.ops[v.op].results && Plan(f).Split(v.op) == Some(idx)
      requires v.op in slice.operations
      ensures Plan(f).SliceValid(next, idx) && next.operations == slice.operations && slice.outputs <= next.outputs
      ensures Plan(f).OutputNeeded(v) ==> v in next.outputs
    {
      next := slice;
      if v in slice.outputs {
        return;
      }
      var isOutput := IsUsedOutside(f, v, idx);
      if isOutput && !f.PreprocessesArgument(v.op) {
        OutputAdded(Plan(f), slice, idx, v);
        next := slice.(outputs := slice.outputs + [v]);
      }
    }

    /** One step of the walk over the function: an operation of slice `idx`. */
    method PlaceOp(f: Function, o: nat, slice: IRSlice, covered: set<nat>, idx: nat)
      returns (next: IRSlice, nextCovered: set<nat>)
      requires Plan(f).Valid() && o < |f.ops| && Plan(f).Split(o) == Some(idx) && Plan(f).SliceValid(slice, idx)
      requires Covers(covered, slice)
      ensures Plan(f).SliceValid(next, idx) && Covers(nextCovered, next)
      ensures slice.operations <= next.operations && slice.outputs <= next.outputs && o in next.operations
      ensures forall k :: Plan(f).OutputNeeded(Result(o, k)) ==> Result(o, k) in next.outputs
    {
      next, nextCovered := slice, covered;
      if o !in covered {
        next, nextCovered := AddOperands(f, o, next, nextCovered, idx);
        OperationAdded(Plan(f), next, idx, o);
        next := next.(operations := next.operations + [o]);
        nextCovered := nextCovered + {o};
      }
      next := AddOutputs(f, o, next, idx);
      PrefixKeeps(slice.operations, next.operations);
    }

    method AddOutputs(f: Function, o: nat, slice: IRSlice, idx: nat) returns (next: IRSlice)
      requires Plan(f).Valid() && o < |f.ops| && Plan(f).Split(o) == Some(idx) && Plan(f).SliceValid(slice, idx)
      requires o in slice.operations
      ensures Plan(f).SliceValid(next, idx) && next.operations == slice.operations && slice.outputs <= next.outputs
      ensures forall k :: Plan(f).OutputNeeded(Result(o, k)) ==> Result(o, k) in next.outputs
    {
      next := slice;
      var k := 0;
      while k < f.ops[o].results
        invariant k <= f.ops[o].results && Plan(f).SliceValid(next, idx)
        invariant next.operations == slice.operations && slice.outputs <= next.outputs
        invariant OutputsBelow(Plan(f), next, o, k)
      {
        ghost var before := next;
        next := AddResultToSplitIfOutput(f, Result(o, k), next, idx);
        OutputsStep(Plan(f), before, next, o, k);
        k := k + 1;
      }
    }

    /** The walk over the function: every operation on an activation path is placed in its slice. */
    method PlaceAll(f: Function) returns (splits: seq<IRSlice>)
      requires Plan(f).Valid() && numSplits == |splittingPoints| + 1
      ensures Plan(f).Outlined(splits)
    {
      splits := seq(numSplits, _ => IRSlice([], [], []));
      var coveredOps: seq<set<nat>> := seq(numSplits, _ => {});
      var o := 0;
      while o < |f.ops|
        invariant o <= |f.ops| && |splits| == |coveredOps| == numSplits
        invariant forall s :: 0 <= s < numSplits ==>
          Plan(f).SliceValid(splits[s], s) && Covers(coveredOps[s], splits[s])
        invariant forall p {:trigger Plan(f).Contained(splits, p)} :: 0 <= p < o ==> Plan(f).Contained(splits, p)
      {
        var split := FindSplitIdx(o);
        assert split == Plan(f).Split(o);
        if split.Some? {
          var idx := split.value;
          var slice, covered := PlaceOp(f, o, splits[idx], coveredOps[idx], idx);
          PlacedStep(Plan(f), splits, slice, idx, o);
          splits := splits[idx := slice];
          coveredOps := coveredOps[idx := covered];
        }
        o := o + 1;
      }
    }

    /** `findSplittingPoints`: points at equal distances, or none when the function is too short. */
    method FindSplittingPoints(f: Function) returns (points: seq<nat>)
      requires f.WellFormed() && numSplits >= 1
      modifies `distances
      ensures forall o {:trigger o in distances} :: o in distances <==> f.OnActivationPath(o)
      ensures forall o {:trigger o in distances} :: o in distances ==> o < |f.ops| && IsLongestChain(f, o, distances[o])
      ensures points == [] || EvenlySpaced(distances, points, numSplits)
      ensures points == [] <==> numSplits == 1 || TooShort(distances, numSplits)
    {
      var maxDistance;
      distances, maxDistance := GetOpDistances(f);
      points := [];
      if maxDistance < numSplits {
        return;
      }
      var start := 0;
      var splitSize := maxDistance / numSplits;
      DivisionBound(maxDistance, numSplits);
      var split := 0;
      while split < numSplits - 1
        invariant split <= numSplits - 1 && |points| == split && start == split * splitSize
        invariant forall i :: 0 <= i < split ==> points[i] == (i + 1) * splitSize
      {
        assert (split + 1) * splitSize == split * splitSize + splitSize;
        points := points + [start + splitSize];
        start := start + splitSize;
        split := split + 1;
      }
      assert SpacedBy(points, numSplits, splitSize, maxDistance);
      assert points != [] ==> IsFurthest(distances, maxDistance);
    }

    /** `getOutliningInstances`: no slices, or slices that can be run in order instead of the
        function, none of them empty and each as long as it should be. */
    method GetOutliningInstances(f: Function) returns (splits: seq<IRSlice>)
      requires f.WellFormed() && f.OneActivationPerPreprocessing() && numSplits >= 1
      modifies this
      ensures splits == [] || (|splits| == numSplits && Plan(f).Outlined(splits))
      ensures splits == [] <==> numSplits == 1 || TooShort(distances, numSplits)
      ensures forall s :: 0 <= s < |splits| ==> splits[s].operations != []
      ensures splits != [] ==> exists step: nat, furthest: nat :: EvenSlices(Plan(f), numSplits, step, furthest)
    {
      splittingPoints := FindSplittingPoints(f);
      if splittingPoints == [] || |splittingPoints| + 1 != numSplits {
        return [];
      }
      splits := PlaceAll(f);
      forall s | 0 <= s < |splits|
        ensures splits[s].operations != []
      {
        SliceNotEmpty(Plan(f), numSplits, splits, s);
      }
      SlicesAreEven(Plan(f), numSplits);
    }
  }

  /** Those of the first `n` results that are needed elsewhere are outputs. */
  ghost predicate OutputsBelow(plan: Plan, slice: IRSlice, o: nat, n: nat)
    requires plan.f.WellFormed()
  {
    forall k: nat :: k < n && plan.OutputNeeded(Result(o, k)) ==> Result(o, k) in slice.outputs
  }

  lemma OutputsStep(plan: Plan, slice: IRSlice, next: IRSlice, o: nat, n: nat)
    requires plan.f.WellFormed() && OutputsBelow(plan, slice, o, n) && slice.outputs <= next.outputs
    requires plan.OutputNeeded(Result(o, n)) ==> Result(o, n) in next.outputs
    ensures OutputsBelow(plan, next, o, n + 1)
  {
    PrefixKeeps(slice.outputs, next.outputs);
  }

  lemma PlacedStep(plan: Plan, splits: seq<IRSlice>, slice: IRSlice, idx: nat, o: nat)
    requires plan.Valid() && idx < |splits| && o < |plan.f.ops| && plan.Split(o) == Some(idx)
    requires splits[idx].operations <= slice.operations && splits[idx].outputs <= slice.outputs && o in slice.operations
    requires forall k :: plan.OutputNeeded(Result(o, k)) ==> Result(o, k) in slice.outputs
    requires forall p {:trigger plan.Contained(splits, p)} :: 0 <= p < o ==> plan.Contained(splits, p)
    ensures forall p {:trigger plan.Contained(splits[idx := slice], p)} :: 0 <= p <= o ==>
      plan.Contained(splits[idx := slice], p)
  {
    var next := splits[idx := slice];
    forall p | 0 <= p <= o
      ensures plan.Contained(next, p)
    {
      if p < o {
        assert plan.Contained(splits, p);
        PrefixKeeps(splits[idx].operations, slice.operations);
        PrefixKeeps(splits[idx].outputs, slice.outputs);
      }
    }
  }

  lemma PrefixKeeps<T>(s: seq<T>, t: seq<T>)
    requires s <= t
    ensures forall x :: x in s ==> x in t
  {
    forall x | x in s
      ensures x in t
    {
      var i :| 0 <= i < |s| && s[i] == x;
      assert t[i] == x;
    }
  }

  /** No operation lies far enough from the arguments. */
  ghost predicate TooShort(distances: map<nat, nat>, numSplits: nat) {
    forall o :: o in distances ==> distances[o] < numSplits
  }

  /** The points are the multiples of the largest step that fits the distance as often as there are slices. */
  ghost predicate SpacedBy(points: seq<nat>, numSplits: nat, step: nat, distance: nat) {
    && step >= 1 && |points| + 1 == numSplits && numSplits * step <= distance < numSplits * (step + 1)
    && forall i :: 0 <= i < |points| ==> points[i] == (i + 1) * step
  }

  ghost predicate EvenlySpaced(distances: map<nat, nat>, points: seq<nat>, numSplits: nat) {
    exists step: nat, furthest: nat :: SpacedBy(points, numSplits, step, furthest) && IsFurthest(distances, furthest)
  }

  ghost predicate IsFurthest(distances: map<nat, nat>, furthest: nat) {
    furthest in distances.Values && forall o :: o in distances ==> distances[o] <= furthest
  }

  /** Slice `s` takes the distances behind `s` steps up to `s + 1` steps, the first one those before them as
      well, and the last one all that are left. */
  ghost predicate InSlice(numSplits: nat, step: nat, d: nat, s: nat) {
    s < numSplits && (s > 0 ==> s * step < d) && (s + 1 < numSplits ==> d <= (s + 1) * step)
  }

  ghost predicate EvenSlices(plan: Plan, numSplits: nat, step: nat, furthest: nat) {
    && SpacedBy(plan.points, numSplits, step, furthest) && IsFurthest(plan.distances, furthest)
    && forall o, s: nat :: o in plan.distances ==>
         (plan.Split(o) == Some(s) <==> InSlice(numSplits, step, plan.distances[o], s))
  }

  /** Each slice but the first and the last spans exactly `step` distances, and the last one as many and
      fewer than one more for each slice. */
  lemma SlicesSpan(points: seq<nat>, numSplits: nat, step: nat, furthest: nat, s: nat)
    requires SpacedBy(points, numSplits, step, furthest) && s < numSplits
    ensures 0 < s < numSplits - 1 ==>
      forall d: nat :: InSlice(numSplits, step, d, s) <==> s * step + 1 <= d <= s * step + step
    ensures 0 < s == numSplits - 1 ==>
      (forall d: nat :: d <= furthest ==> (InSlice(numSplits, step, d, s) <==> s * step + 1 <= d <= furthest)) &&
      step <= furthest - s * step < step + numSplits
    ensures s == 0 ==> InSlice(numSplits, step, 0, s)
  {
    MultipleBelow(s, s + 1, step);
    if s == numSplits - 1 {
      assert numSplits * step == s * step + step;
      assert numSplits * (step + 1) == numSplits * step + numSplits;
    }
  }

  lemma SplitIsSlice(points: seq<nat>, numSplits: nat, step: nat, furthest: nat, d: nat, s: nat)
    requires SpacedBy(points, numSplits, step, furthest)
    ensures SplitAt(points, d, 0) == s <==> InSlice(numSplits, step, d, s)
  {
    var i := SplitAt(points, d, 0);
    if i > 0 {
      assert points[i - 1] == i * step;
    }
    assert InSlice(numSplits, step, d, i);
    if InSlice(numSplits, step, d, s) && i != s {
      MultipleBelow(if i < s then i else s, if i < s then s else i, step);
    }
  }

  lemma DivisionBound(max: nat, n: nat)
    requires 1 <= n <= max
    ensures max / n >= 1 && n * (max / n) <= max < n * (max / n + 1)
  {
    assert max == max / n * n + max % n;
    assert n * (max / n + 1) == n * (max / n) + n;
  }

  /** There is an operation at every distance up to the greatest. */
  lemma {:induction false} DistancesWithoutGaps(plan: Plan, o: nat, d: nat) returns (p: nat)
    requires plan.Valid() && o in plan.distances && d <= plan.distances[o]
    ensures p in plan.distances && plan.distances[p] == d
    decreases plan.distances[o]
  {
    p := o;
    if d < plan.distances[o] {
      var q: nat :| q < o && plan.f.Feeds(q, o) && plan.f.HasChain(q, plan.distances[o] - 1);
      assert q in plan.distances;
      DistanceIncreases(plan.f, plan.distances, q, o);
      p := DistancesWithoutGaps(plan, q, d);
    }
  }

  /** Some distance belongs to slice `s`. */
  lemma DistanceOfSlice(points: seq<nat>, numSplits: nat, step: nat, furthest: nat, s: nat) returns (d: nat)
    requires SpacedBy(points, numSplits, step, furthest) && s < numSplits
    ensures d <= furthest && SplitAt(points, d, 0) == s
  {
    d := if s == 0 then 0 else s * step + 1;
    MultipleBelow(s, numSplits, step);
    forall j | 0 <= j < s
      ensures points[j] < d
    {
      MultipleBelow(j, s, step);
    }
    assert s < |points| ==> points[s] == (s + 1) * step;
  }

  lemma MultipleBelow(j: nat, k: nat, step: nat)
    requires j < k
    ensures j * step + step == (j + 1) * step <= k * step
  {
    assert (k - j - 1) * step >= 0;
    assert k * step == (j + 1) * step + (k - j - 1) * step;
  }

  lemma SliceNotEmpty(plan: Plan, numSplits: nat, splits: seq<IRSlice>, s: nat)
    requires plan.Outlined(splits) && EvenlySpaced(plan.distances, plan.points, numSplits) && s < |splits|
    ensures splits[s].operations != []
  {
    var step: nat, furthest: nat :| SpacedBy(plan.points, numSplits, step, furthest) &&
      IsFurthest(plan.distances, furthest);
    var last :| last in plan.distances && plan.distances[last] == furthest;
    var d := DistanceOfSlice(plan.points, numSplits, step, furthest, s);
    var o := DistancesWithoutGaps(plan, last, d);
    assert plan.Split(o) == Some(s);
    assert plan.Contained(splits, o);
  }

  lemma SlicesAreEven(plan: Plan, numSplits: nat)
    requires EvenlySpaced(plan.distances, plan.points, numSplits)
    ensures exists step: nat, furthest: nat :: EvenSlices(plan, numSplits, step, furthest)
  {
    var step: nat, furthest: nat :| SpacedBy(plan.points, numSplits, step, furthest) &&
      IsFurthest(plan.distances, furthest);
    forall o, s: nat | o in plan.distances
      ensures plan.Split(o) == Some(s) <==> InSlice(numSplits, step, plan.distances[o], s)
    {
      SplitIsSlice(plan.points, numSplits, step, furthest, plan.distances[o], s);
    }
    assert EvenSlices(plan, numSplits, step, furthest);
  }

  lemma InputsAreInputs(plan: Plan, slice: IRSlice, idx: nat, v: Value)
    requires plan.f.WellFormed() && plan.SliceValid(slice, idx) && v in slice.inputs
    requires plan.f.DefinedBefore(v, |plan.f.ops|)
    ensures plan.IsInput(v, idx)
  {
    assert plan.InputAllowed(v, idx);
  }
}
