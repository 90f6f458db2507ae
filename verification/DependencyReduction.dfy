/** Which dependencies of a dependency map are redundant, and what is left without them. */
module DependencyReduction {
  import opened Reachability

  /** `deps[i]` are the operations that operation `i` depends on. */
  type DepsMap = seq<set<nat>>

  ghost function DepEdges(deps: DepsMap): Edges {
    set i, a | 0 <= i < |deps| && a in deps[i] :: (a, i)
  }

  /** Operations depend on earlier ones only. */
  ghost predicate Topological(deps: DepsMap) {
    forall i, a {:trigger a in deps[i]} :: 0 <= i < |deps| && a in deps[i] ==> a < i
  }

  /** `a` is a dependency of a dependency of `i`. */
  ghost predicate SecondOrder(deps: DepsMap, a: nat, i: nat) {
    exists d :: i < |deps| && d in deps[i] && d < |deps| && a in deps[d]
  }

  /** Some dependency of `i` already implies `a`. */
  ghost predicate Implied(deps: DepsMap, closure: DepsMap, a: nat, i: nat) {
    exists d :: i < |deps| && d in deps[i] && d < |closure| && a in closure[d]
  }

  /** Without the dependencies that are implied. */
  ghost function Reduced(deps: DepsMap, closure: DepsMap): DepsMap {
    seq(|deps|, i requires 0 <= i < |deps| => set a | a in deps[i] && !Implied(deps, closure, a, i))
  }

  /** What is listed for an operation does precede it. */
  ghost predicate Sound(deps: DepsMap, closure: DepsMap) {
    forall d, a {:trigger a in closure[d]} :: 0 <= d < |closure| && a in closure[d] ==> Reaches(DepEdges(deps), a, d)
  }

  /** For all operations but the last, exactly what precedes them is listed. */
  ghost predicate Complete(deps: DepsMap, closure: DepsMap) {
    && |closure| == |deps|
    && forall d: nat, a {:trigger a in closure[d]} :: d + 1 < |closure| ==>
         (a in closure[d] <==> Reaches(DepEdges(deps), a, d))
  }

  /** No graph with the same reachability lacks any of these edges. */
  ghost predicate Least(edges: Edges) {
    forall other: Edges :: SameReachability(edges, other) ==> edges <= other
  }

  lemma EdgesIncrease(deps: DepsMap)
    requires Topological(deps)
    ensures Increasing(DepEdges(deps))
  {
  }

  /** A dependency stays implied by what is left, however many others have been dropped. */
  lemma {:induction false} ReductionKeepsEdge(deps: DepsMap, closure: DepsMap, a: nat, i: nat)
    requires Topological(deps) && Sound(deps, closure) && i < |deps| && a in deps[i]
    ensures Reaches(DepEdges(Reduced(deps, closure)), a, i)
    decreases i - a
  {
    var reduced := DepEdges(Reduced(deps, closure));
    if Implied(deps, closure, a, i) {
      var d :| d in deps[i] && d < |closure| && a in closure[d];
      EdgesIncrease(deps);
      ReachesIncreases(DepEdges(deps), a, d);
      ReductionKeepsWithin(deps, closure, a, d, i - a);
      ReductionKeepsEdge(deps, closure, d, i);
      ReachesTransitive(reduced, a, d, i);
    } else {
      EdgeReaches(reduced, a, i);
    }
  }

  lemma {:induction false} ReductionKeepsWithin(deps: DepsMap, closure: DepsMap, a: nat, c: nat, span: nat)
    requires Topological(deps) && Sound(deps, closure) && Reaches(DepEdges(deps), a, c) && c - a < span
    ensures Reaches(DepEdges(Reduced(deps, closure)), a, c)
    decreases span, 0, c - a
  {
    EdgesIncrease(deps);
    var reduced := DepEdges(Reduced(deps, closure));
    var mid := FirstStep(DepEdges(deps), a, c);
    if mid != c {
      ReachesIncreases(DepEdges(deps), mid, c);
      ReductionKeepsWithin(deps, closure, mid, c, span);
    }
    ReductionKeepsEdge(deps, closure, a, mid);
    ChainReaches(reduced, a, mid, c);
  }

  /** Dropping implied dependencies changes no ordering, whichever part of the closure is known. */
  lemma ReductionKeepsOrder(deps: DepsMap, closure: DepsMap)
    requires Topological(deps) && Sound(deps, closure)
    ensures SameReachability(DepEdges(deps), DepEdges(Reduced(deps, closure)))
  {
    var edges, reduced := DepEdges(deps), DepEdges(Reduced(deps, closure));
    forall a, i | (a, i) in edges
      ensures Reaches(reduced, a, i)
    {
      ReductionKeepsEdge(deps, closure, a, i);
    }
    SimulatesAll(edges, reduced);
    assert reduced <= edges;
    ReachesMonotone(reduced, edges);
  }

  lemma DetourImplies(deps: DepsMap, closure: DepsMap, a: nat, mid: nat, i: nat)
    requires Topological(deps) && Complete(deps, closure)
    requires Reaches(DepEdges(deps), a, mid) && Reaches(DepEdges(deps), mid, i)
    ensures Implied(deps, closure, a, i)
  {
    var d := LastStep(DepEdges(deps), mid, i);
    ChainReaches(DepEdges(deps), a, mid, d);
    assert d in deps[i] && d + 1 < |deps| && a in closure[d];
  }

  /** With the whole closure at hand, every edge that is left is part of every equivalent graph. */
  lemma ReductionIsLeast(deps: DepsMap, closure: DepsMap)
    requires Topological(deps) && Sound(deps, closure) && Complete(deps, closure)
    ensures Least(DepEdges(Reduced(deps, closure)))
  {
    ReductionKeepsOrder(deps, closure);
    var edges, reduced := DepEdges(deps), DepEdges(Reduced(deps, closure));
    forall other: Edges, a: nat, i: nat | SameReachability(reduced, other) && (a, i) in reduced
      ensures (a, i) in other
    {
      EdgeReaches(reduced, a, i);
      var mid := FirstStep(other, a, i);
      if mid != i {
        EdgeReaches(other, a, mid);
        DetourImplies(deps, closure, a, mid, i);
      }
    }
  }

  /** A least graph has no edge that the others imply. */
  lemma NoRemovableEdge(edges: Edges, a: nat, i: nat)
    requires Least(edges) && (a, i) in edges
    ensures !Reaches(edges - {(a, i)}, a, i)
  {
    var fewer := edges - {(a, i)};
    assert (a, i) !in fewer;
    if Reaches(fewer, a, i) {
      RedundantEdgeDropped(edges, a, i);
    }
  }

  lemma RedundantEdgeDropped(edges: Edges, a: nat, i: nat)
    requires Reaches(edges - {(a, i)}, a, i)
    ensures SameReachability(edges, edges - {(a, i)})
  {
    var fewer := edges - {(a, i)};
    forall x: nat, y: nat | (x, y) in edges
      ensures Reaches(fewer, x, y)
    {
      if (x, y) in fewer {
        EdgeReaches(fewer, x, y);
      }
    }
    SimulatesAll(edges, fewer);
    ReachesMonotone(fewer, edges);
  }

  /** There is only one least graph. */
  lemma LeastIsUnique(e: Edges, f: Edges)
    requires Least(e) && Least(f) && SameReachability(e, f)
    ensures e == f
  {
    assert SameReachability(f, e);
  }
}
