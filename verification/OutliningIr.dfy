/** A function as the outliner sees it: operations in program order, the values they use, and
    what they compute. */
module OutliningIr {

  datatype Value = Argument(index: nat) | Result(op: nat, number: nat)

  /** `preprocessing` holds for the operations that are copied into every slice that uses them,
      when they work on an argument of the function. */
  datatype Op = Op(operands: seq<Value>, results: nat, preprocessing: bool)

  datatype Function = Function(arguments: nat, ops: seq<Op>, returned: seq<Value>) {

    /** Values are defined before they are used. */
    ghost predicate WellFormed() {
      && (forall o, j {:trigger ops[o].operands[j]} :: 0 <= o < |ops| && 0 <= j < |ops[o].operands| ==>
            DefinedBefore(ops[o].operands[j], o))
      && (forall j :: 0 <= j < |returned| ==> DefinedBefore(returned[j], |ops|))
      && (forall o :: 0 <= o < |ops| && ops[o].preprocessing ==> |ops[o].operands| >= 1)
    }

    ghost predicate DefinedBefore(v: Value, o: nat) {
      match v
      case Argument(a) => a < arguments
      case Result(p, k) => p < o && p < |ops| && k < ops[p].results
    }

    predicate Uses(o: nat, v: Value)
      requires o < |ops|
    {
      v in ops[o].operands
    }

    /** Operation `c` uses a result of operation `p`. */
    ghost predicate Feeds(p: nat, c: nat) {
      c < |ops| && exists k: nat :: Uses(c, Result(p, k))
    }

    ghost predicate UsesArgument(o: nat) {
      o < |ops| && exists a: nat :: Uses(o, Argument(a))
    }

    /** A chain of `d` uses leads from an operation on an argument to operation `o`. */
    ghost predicate HasChain(o: nat, d: nat) {
      if d == 0 then UsesArgument(o) else exists p: nat :: p < o && Feeds(p, o) && HasChain(p, d - 1)
    }

    /** The operation lies on a path from an argument. */
    ghost predicate OnActivationPath(o: nat) {
      exists d: nat :: HasChain(o, d)
    }

    /** `isPreprocessingOpAndHasBlockArgParent`. */
    predicate PreprocessesArgument(o: nat)
      requires WellFormed() && o < |ops|
      decreases o
    {
      ops[o].preprocessing &&
      match ops[o].operands[0]
      case Argument(_) => true
      case Result(p, _) =>
        assert DefinedBefore(ops[o].operands[0], o);
        PreprocessesArgument(p)
    }

    /** Operands of such operations other than the first one do not depend on arguments. */
    ghost predicate OneActivationPerPreprocessing()
      requires WellFormed()
    {
      forall o, j {:trigger ops[o].operands[j]} ::
        0 <= o < |ops| && PreprocessesArgument(o) && 1 <= j < |ops[o].operands| ==>
        ops[o].operands[j].Result? && !OnActivationPath(ops[o].operands[j].op)
    }

    lemma OperandDefined(o: nat, v: Value)
      requires WellFormed() && o < |ops| && Uses(o, v)
      ensures DefinedBefore(v, o)
    {
      var j :| 0 <= j < |ops[o].operands| && ops[o].operands[j] == v;
    }

    lemma FeedsForward(p: nat, c: nat)
      requires WellFormed() && Feeds(p, c)
      ensures p < c < |ops|
    {
      var k :| Uses(c, Result(p, k));
      OperandDefined(c, Result(p, k));
    }

    lemma ChainGoesOn(p: nat, c: nat, d: nat)
      requires WellFormed() && Feeds(p, c) && HasChain(p, d)
      ensures HasChain(c, d + 1)
    {
      FeedsForward(p, c);
    }
  }

  /** What result `number` of operation `op` is, given its operands. */
  type Meaning<!D> = (nat, nat, seq<D>) -> D

  /** The value that `v` has in a run of the function. */
  ghost function ValueOf<D>(f: Function, meaning: Meaning<D>, arguments: seq<D>, v: Value): D
    requires f.WellFormed() && |arguments| == f.arguments && f.DefinedBefore(v, |f.ops|)
    decreases if v.Result? then v.op + 1 else 0, 0
  {
    match v
    case Argument(a) => arguments[a]
    case Result(o, k) => meaning(o, k, OperandValues(f, meaning, arguments, o))
  }

  ghost function OperandValues<D>(f: Function, meaning: Meaning<D>, arguments: seq<D>, o: nat): seq<D>
    requires f.WellFormed() && |arguments| == f.arguments && o < |f.ops|
    decreases o, 1
  {
    seq(|f.ops[o].operands|, j requires 0 <= j < |f.ops[o].operands| =>
      assert f.DefinedBefore(f.ops[o].operands[j], o);
      ValueOf(f, meaning, arguments, f.ops[o].operands[j]))
  }
}
