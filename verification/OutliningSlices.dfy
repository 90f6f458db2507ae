/** Slices of a function, what it takes for them to be run on their own, and what running them one
    after the other computes. */
module OutliningSlices {
  import opened OutliningIr
  import opened OpDistances

  datatype Option<T> = None | Some(value: T)

  datatype IRSlice = IRSlice(inputs: seq<Value>, outputs: seq<Value>, operations: seq<nat>)

  /** First splitting point from `from` on that is not below `d`, or their number. */
  function SplitAt(points: seq<nat>, d: nat, from: nat): (i: nat)
    requires from <= |points|
    ensures from <= i <= |points| && (i < |points| ==> d <= points[i])
    ensures forall j :: from <= j < i ==> points[j] < d
    decreases |points| - from
  {
    if from == |points| || d <= points[from] then from else SplitAt(points, d, from + 1)
  }

  /** The distances in a function and the points where it is to be split. */
  datatype Plan = Plan(f: Function, distances: map<nat, nat>, points: seq<nat>) {

    ghost predicate Valid() {
      && f.WellFormed() && f.OneActivationPerPreprocessing()
      && (forall o {:trigger o in distances} :: o in distances <==> f.OnActivationPath(o))
      && (forall o {:trigger o in distances} :: o in distances ==> o < |f.ops| && IsLongestChain(f, o, distances[o]))
    }

    function Split(o: nat): (split: Option<nat>)
      ensures split.Some? ==> split.value <= |points|
    {
      if o in distances then Some(SplitAt(points, distances[o], 0)) else None
    }

    lemma SplitsAscend(p: nat, c: nat)
      requires Valid() && f.Feeds(p, c) && p in distances
      ensures c in distances && Split(p).value <= Split(c).value
    {
      DistanceIncreases(f, distances, p, c);
    }

    /** The operation belongs to slice `idx`, or may be copied into it. */
    ghost predicate Placeable(o: nat, idx: nat)
      requires f.WellFormed()
    {
      o < |f.ops| && (o !in distances || Split(o) == Some(idx) || f.PreprocessesArgument(o))
    }

    /** The value comes from outside of slice `idx`. */
    predicate IsInput(v: Value, idx: nat)
      requires f.WellFormed() && f.DefinedBefore(v, |f.ops|)
    {
      match v
      case Argument(_) => true
      case Result(p, _) => p in distances && Split(p) != Some(idx) && !f.PreprocessesArgument(p)
    }

    /** An operation of slice `idx` takes `v` from an earlier slice. */
    ghost predicate TakenFromEarlier(v: Value, idx: nat)
      requires f.WellFormed()
    {
      && v.Result? && v.op < |f.ops| && v.number < f.ops[v.op].results && !f.PreprocessesArgument(v.op)
      && v.op in distances && Split(v.op).value < idx
      && exists c :: c in distances && Split(c) == Some(idx) && c < |f.ops| && f.Uses(c, v)
    }

    ghost predicate InputAllowed(v: Value, idx: nat)
      requires f.WellFormed()
    {
      (v.Argument? && v.index < f.arguments) || TakenFromEarlier(v, idx)
    }

    /** What an operation in a slice uses from outside may be an input. */
    lemma OperandAllowed(o: nat, v: Value, idx: nat)
      requires Valid() && Placeable(o, idx) && f.Uses(o, v)
      ensures f.DefinedBefore(v, o)
      ensures IsInput(v, idx) ==> InputAllowed(v, idx)
    {
      f.OperandDefined(o, v);
      if v.Result? && IsInput(v, idx) {
        assert f.Feeds(v.op, o);
        SplitsAscend(v.op, o);
        if Split(o) != Some(idx) {
          PreprocessingTakesNothing(o, v);
        }
      }
    }

    lemma PreprocessingTakesNothing(o: nat, v: Value)
      requires Valid() && o < |f.ops| && f.PreprocessesArgument(o) && f.Uses(o, v) && v.Result?
      ensures v.op < |f.ops| && (v.op !in distances || f.PreprocessesArgument(v.op))
    {
      f.OperandDefined(o, v);
      var j :| 0 <= j < |f.ops[o].operands| && f.ops[o].operands[j] == v;
      if j > 0 {
        assert f.ops[o].operands[j].Result? && !f.OnActivationPath(f.ops[o].operands[j].op);
      }
    }

    /** A later slice or the end of the function needs `v`. */
    ghost predicate OutputNeeded(v: Value)
      requires f.WellFormed()
    {
      && v.Result? && v.op < |f.ops| && v.number < f.ops[v.op].results && v.op in distances
      && !f.PreprocessesArgument(v.op)
      && (v in f.returned || exists c :: c in distances && c < |f.ops| && f.Uses(c, v) && Split(c) != Split(v.op))
    }

    /** What the operations of a slice use is at hand. */
    ghost predicate Available(slice: IRSlice, n: nat, v: Value)
      requires n <= |slice.operations|
    {
      v in slice.inputs || (v.Result? && v.op in slice.operations[..n])
    }

    ghost predicate Closed(slice: IRSlice) {
      forall j, v :: 0 <= j < |slice.operations| && slice.operations[j] < |f.ops| && f.Uses(slice.operations[j], v) ==>
        Available(slice, j, v)
    }

    ghost predicate SliceValid(slice: IRSlice, idx: nat)
      requires f.WellFormed()
    {
      && (forall i, j :: 0 <= i < j < |slice.operations| ==> slice.operations[i] != slice.operations[j])
      && (forall o :: o in slice.operations ==> Placeable(o, idx))
      && Closed(slice)
      && (forall v :: v in slice.inputs ==> InputAllowed(v, idx))
      && (forall v :: v in slice.outputs ==> OutputNeeded(v) && Split(v.op) == Some(idx) && v.op in slice.operations)
    }

    /** Every operation on an activation path is in its slice, and what others need is put out. */
    ghost predicate Contained(slices: seq<IRSlice>, o: nat)
      requires f.WellFormed()
    {
      o in distances ==>
        && Split(o).value < |slices| && o in slices[Split(o).value].operations
        && forall k :: OutputNeeded(Result(o, k)) ==> Result(o, k) in slices[Split(o).value].outputs
    }

    ghost predicate Outlined(slices: seq<IRSlice>) {
      && Valid() && |slices| == |points| + 1
      && (forall s :: 0 <= s < |slices| ==> SliceValid(slices[s], s))
      && (forall o {:trigger Contained(slices, o)} :: 0 <= o < |f.ops| ==> Contained(slices, o))
    }
  }

  type Environment<D> = map<Value, D>

  /** The operation is executed when its operands are known. */
  ghost function RunOp<D>(f: Function, meaning: Meaning<D>, env: Environment<D>, o: nat): Option<Environment<D>> {
    if o >= |f.ops| || exists v :: v in f.ops[o].operands && v !in env then None
    else
      var values := seq(|f.ops[o].operands|, j requires 0 <= j < |f.ops[o].operands| =>
        assert f.ops[o].operands[j] in f.ops[o].operands; env[f.ops[o].operands[j]]);
      Some(env + map k: nat | k < f.ops[o].results :: Result(o, k) := meaning(o, k, values))
  }

  ghost function RunOps<D>(f: Function, meaning: Meaning<D>, env: Environment<D>,
                           ops: seq<nat>): Option<Environment<D>> {
    if ops == [] then Some(env) else
      match RunOps(f, meaning, env, ops[..|ops| - 1])
      case None => None
      case Some(reached) => RunOp(f, meaning, reached, ops[|ops| - 1])
  }

  /** A slice is run on its inputs alone, and only its outputs are seen afterwards. */
  ghost function RunSlice<D>(f: Function, meaning: Meaning<D>, env: Environment<D>,
                             slice: IRSlice): Option<Environment<D>> {
    if exists v :: v in slice.inputs && v !in env then None
    else
      match RunOps(f, meaning, map v | v in slice.inputs :: env[v], slice.operations)
      case None => None
      case Some(local) =>
        if exists v :: v in slice.outputs && v !in local then None
        else Some(env + map v | v in slice.outputs :: local[v])
  }

  ghost function RunSlices<D>(f: Function, meaning: Meaning<D>, arguments: seq<D>,
                              slices: seq<IRSlice>): Option<Environment<D>>
    requires |arguments| == f.arguments
  {
    if slices == [] then Some(map a: nat | a < f.arguments :: Argument(a) := arguments[a]) else
      match RunSlices(f, meaning, arguments, slices[..|slices| - 1])
      case None => None
      case Some(env) => RunSlice(f, meaning, env, slices[|slices| - 1])
  }

  /** Every known value is the one of the original function. */
  ghost predicate Faithful<D>(f: Function, meaning: Meaning<D>, arguments: seq<D>, env: Environment<D>)
    requires f.WellFormed() && |arguments| == f.arguments
  {
    forall v :: v in env ==> f.DefinedBefore(v, |f.ops|) && env[v] == ValueOf(f, meaning, arguments, v)
  }

  lemma RunOpFaithful<D>(f: Function, meaning: Meaning<D>, arguments: seq<D>, env: Environment<D>, o: nat)
    requires f.WellFormed() && |arguments| == f.arguments && Faithful(f, meaning, arguments, env)
    requires o < |f.ops| && forall v :: f.Uses(o, v) ==> v in env
    ensures RunOp(f, meaning, env, o).Some?
    ensures var next := RunOp(f, meaning, env, o).value;
      && Faithful(f, meaning, arguments, next) && env.Keys <= next.Keys
      && forall k: nat :: k < f.ops[o].results ==> Result(o, k) in next
  {
    assert forall v :: v in f.ops[o].operands ==> f.Uses(o, v);
    var values := seq(|f.ops[o].operands|, j requires 0 <= j < |f.ops[o].operands| =>
      assert f.ops[o].operands[j] in f.ops[o].operands; env[f.ops[o].operands[j]]);
    forall j | 0 <= j < |f.ops[o].operands|
      ensures values[j] == OperandValues(f, meaning, arguments, o)[j]
    {
      assert f.DefinedBefore(f.ops[o].operands[j], o);
      assert f.ops[o].operands[j] in f.ops[o].operands;
    }
    assert values == OperandValues(f, meaning, arguments, o);
  }

  lemma {:induction false} RunOpsFaithful<D>(plan: Plan, slice: IRSlice, idx: nat, meaning: Meaning<D>,
                                             arguments: seq<D>, env: Environment<D>, n: nat)
    requires plan.Valid() && plan.SliceValid(slice, idx) && |arguments| == plan.f.arguments && n <= |slice.operations|
    requires Faithful(plan.f, meaning, arguments, env) && forall v :: v in slice.inputs ==> v in env
    ensures RunOps(plan.f, meaning, env, slice.operations[..n]).Some?
    ensures var reached := RunOps(plan.f, meaning, env, slice.operations[..n]).value;
      && Faithful(plan.f, meaning, arguments, reached) && env.Keys <= reached.Keys
      && forall o, k: nat :: o in slice.operations[..n] && o < |plan.f.ops| && k < plan.f.ops[o].results ==>
           Result(o, k) in reached
  {
    if n > 0 {
      var o := slice.operations[n - 1];
      RunOpsFaithful(plan, slice, idx, meaning, arguments, env, n - 1);
      assert slice.operations[..n][..n - 1] == slice.operations[..n - 1];
      var reached := RunOps(plan.f, meaning, env, slice.operations[..n - 1]).value;
      assert o in slice.operations;
      forall v | plan.f.Uses(o, v)
        ensures v in reached
      {
        assert plan.Available(slice, n - 1, v);
        plan.f.OperandDefined(o, v);
      }
      RunOpFaithful(plan.f, meaning, arguments, reached, o);
    }
  }

  lemma RunSliceFaithful<D>(plan: Plan, slice: IRSlice, idx: nat, meaning: Meaning<D>, arguments: seq<D>,
                            env: Environment<D>)
    requires plan.Valid() && plan.SliceValid(slice, idx) && |arguments| == plan.f.arguments
    requires Faithful(plan.f, meaning, arguments, env) && forall v :: v in slice.inputs ==> v in env
    ensures RunSlice(plan.f, meaning, env, slice).Some?
    ensures var next := RunSlice(plan.f, meaning, env, slice).value;
      Faithful(plan.f, meaning, arguments, next) && forall v :: v in next <==> v in env || v in slice.outputs
  {
    var inputs := map v | v in slice.inputs :: env[v];
    RunOpsFaithful(plan, slice, idx, meaning, arguments, inputs, |slice.operations|);
    assert slice.operations[..|slice.operations|] == slice.operations;
    var local := RunOps(plan.f, meaning, inputs, slice.operations).value;
    forall v | v in slice.outputs
      ensures v in local
    {
      assert plan.OutputNeeded(v) && v.op in slice.operations;
    }
  }

  /** What is known after the first `n` slices: the arguments and what these slices put out. */
  ghost predicate KnownAfter(f: Function, slices: seq<IRSlice>, n: nat, v: Value)
    requires n <= |slices|
  {
    (v.Argument? && v.index < f.arguments) || exists s :: 0 <= s < n && v in slices[s].outputs
  }

  lemma InputsKnown(plan: Plan, slices: seq<IRSlice>, n: nat, v: Value)
    requires plan.Outlined(slices) && n < |slices| && v in slices[n].inputs
    ensures KnownAfter(plan.f, slices, n, v)
  {
    assert plan.SliceValid(slices[n], n) && plan.InputAllowed(v, n);
    if v.Result? {
      assert plan.Contained(slices, v.op);
      assert plan.OutputNeeded(Result(v.op, v.number));
      assert v in slices[plan.Split(v.op).value].outputs;
    }
  }

  ghost predicate KnowsExactly<D>(f: Function, slices: seq<IRSlice>, n: nat, env: Environment<D>)
    requires n <= |slices|
  {
    forall v :: v in env <==> KnownAfter(f, slices, n, v)
  }

  lemma KnownAfterNext(f: Function, slices: seq<IRSlice>, n: nat, v: Value)
    requires n < |slices|
    ensures KnownAfter(f, slices, n + 1, v) <==> KnownAfter(f, slices, n, v) || v in slices[n].outputs
  {
  }

  lemma RunNextSlice<D>(plan: Plan, slices: seq<IRSlice>, meaning: Meaning<D>, arguments: seq<D>, n: nat,
                        env: Environment<D>)
    requires plan.Outlined(slices) && |arguments| == plan.f.arguments && n < |slices|
    requires Faithful(plan.f, meaning, arguments, env) && KnowsExactly(plan.f, slices, n, env)
    ensures RunSlice(plan.f, meaning, env, slices[n]).Some?
    ensures var next := RunSlice(plan.f, meaning, env, slices[n]).value;
      Faithful(plan.f, meaning, arguments, next) && KnowsExactly(plan.f, slices, n + 1, next)
  {
    forall v | v in slices[n].inputs
      ensures v in env
    {
      InputsKnown(plan, slices, n, v);
    }
    assert plan.SliceValid(slices[n], n);
    RunSliceFaithful(plan, slices[n], n, meaning, arguments, env);
    forall v
      ensures KnownAfter(plan.f, slices, n + 1, v) <==> KnownAfter(plan.f, slices, n, v) || v in slices[n].outputs
    {
      KnownAfterNext(plan.f, slices, n, v);
    }
  }

  lemma {:induction false} RunSlicesFaithful<D>(plan: Plan, slices: seq<IRSlice>, meaning: Meaning<D>,
                                                arguments: seq<D>, n: nat)
    requires plan.Outlined(slices) && |arguments| == plan.f.arguments && n <= |slices|
    ensures RunSlices(plan.f, meaning, arguments, slices[..n]).Some?
    ensures var env := RunSlices(plan.f, meaning, arguments, slices[..n]).value;
      Faithful(plan.f, meaning, arguments, env) && KnowsExactly(plan.f, slices, n, env)
  {
    if n > 0 {
      RunSlicesFaithful(plan, slices, meaning, arguments, n - 1);
      assert slices[..n][..n - 1] == slices[..n - 1];
      RunNextSlice(plan, slices, meaning, arguments, n - 1,
        RunSlices(plan.f, meaning, arguments, slices[..n - 1]).value);
    }
  }

  /** Running the slices in order never lacks a value, and gives every value it hands on the one
      it has in the function. */
  lemma SlicesMeanTheSame<D>(plan: Plan, slices: seq<IRSlice>, meaning: Meaning<D>, arguments: seq<D>)
    requires plan.Outlined(slices) && |arguments| == plan.f.arguments
    ensures RunSlices(plan.f, meaning, arguments, slices).Some?
    ensures var env := RunSlices(plan.f, meaning, arguments, slices).value;
      Faithful(plan.f, meaning, arguments, env) && KnowsExactly(plan.f, slices, |slices|, env)
  {
    RunSlicesFaithful(plan, slices, meaning, arguments, |slices|);
    assert slices[..|slices|] == slices;
  }

  /** A value that the function returns is handed on exactly when it is an argument, or computed on
      an activation path by something else than the preprocessing of an argument. */
  lemma ReturnedValuesKnown(plan: Plan, slices: seq<IRSlice>, v: Value)
    requires plan.Outlined(slices) && v in plan.f.returned
    ensures KnownAfter(plan.f, slices, |slices|, v) <==>
      v.Argument? || (plan.f.OnActivationPath(v.op) && v.op < |plan.f.ops| && !plan.f.PreprocessesArgument(v.op))
  {
    var j :| 0 <= j < |plan.f.returned| && plan.f.returned[j] == v;
    assert plan.f.DefinedBefore(v, |plan.f.ops|);
    if v.Result? {
      assert v.op in plan.distances <==> plan.f.OnActivationPath(v.op);
      assert plan.Contained(slices, v.op);
      assert v == Result(v.op, v.number);
      if s :| 0 <= s < |slices| && v in slices[s].outputs {
        assert plan.SliceValid(slices[s], s);
      }
    }
  }
}
