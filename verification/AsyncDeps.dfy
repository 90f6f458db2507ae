/** Dependencies between asynchronous operations: the dependency and consumer maps, and the
    removal of redundant dependencies. */
module AsyncDeps {
  import opened Reachability
  import opened DependencyReduction
  import opened BarrierInfoModule

  /** Above this many operations only dependencies of dependencies are looked at. */
  const SIMPLIFIED_OPTIMIZATION_OP_COUNT_THRESHOLD: nat := 10000

  ghost predicate InverseOf(deps: DepsMap, consumers: DepsMap) {
    && |consumers| == |deps|
    && (forall i: nat, a: nat {:trigger a in deps[i]} :: i < |deps| && a in deps[i] ==>
          a < |consumers| && i in consumers[a])
    && (forall i: nat, a: nat {:trigger i in consumers[a]} :: a < |consumers| && i in consumers[a] ==>
          i < |deps| && a in deps[i])
  }

  /** Sum of the sizes of the first `n` sets. */
  ghost function TotalDegree(sets: DepsMap, n: nat): nat
    requires n <= |sets|
  {
    if n == 0 then 0 else TotalDegree(sets, n - 1) + |sets[n - 1]|
  }

  ghost function PairsBelow(sets: DepsMap, n: nat): set<(nat, nat)>
    requires n <= |sets|
  {
    set i: nat, a | i < n && a in sets[i] :: (i, a)
  }

  ghost function PairsOf(i: nat, s: set<nat>): set<(nat, nat)> {
    set a | a in s :: (i, a)
  }

  lemma {:induction false} PairsOfCount(i: nat, s: set<nat>)
    ensures |PairsOf(i, s)| == |s|
    decreases |s|
  {
    if s != {} {
      var x :| x in s;
      PairsOfCount(i, s - {x});
      assert PairsOf(i, s) == PairsOf(i, s - {x}) + {(i, x)};
    }
  }

  lemma {:induction false} TotalCountsPairs(sets: DepsMap, n: nat)
    requires n <= |sets|
    ensures TotalDegree(sets, n) == |PairsBelow(sets, n)|
  {
    if n > 0 {
      TotalCountsPairs(sets, n - 1);
      PairsOfCount(n - 1, sets[n - 1]);
      assert PairsBelow(sets, n) == PairsBelow(sets, n - 1) + PairsOf(n - 1, sets[n - 1]);
      assert PairsBelow(sets, n - 1) !! PairsOf(n - 1, sets[n - 1]);
    }
  }

  ghost function Flipped(pairs: set<(nat, nat)>): set<(nat, nat)> {
    set p | p in pairs :: (p.1, p.0)
  }

  lemma {:induction false} FlipKeepsCount(pairs: set<(nat, nat)>)
    ensures |Flipped(pairs)| == |pairs|
    decreases |pairs|
  {
    if pairs != {} {
      var p :| p in pairs;
      FlipKeepsCount(pairs - {p});
      assert Flipped(pairs) == Flipped(pairs - {p}) + {(p.1, p.0)};
    }
  }

  /** As many dependencies arrive as leave. */
  lemma DegreesBalance(deps: DepsMap, consumers: DepsMap)
    requires InverseOf(deps, consumers)
    ensures TotalDegree(deps, |deps|) == TotalDegree(consumers, |consumers|)
  {
    TotalCountsPairs(deps, |deps|);
    TotalCountsPairs(consumers, |consumers|);
    FlipKeepsCount(PairsBelow(deps, |deps|));
    assert Flipped(PairsBelow(deps, |deps|)) == PairsBelow(consumers, |consumers|);
  }

  class AsyncDepsInfo {
    var depsMap: DepsMap
    /** Empty until built. */
    var consumerMap: DepsMap

    ghost predicate Valid()
      reads this
    {
      && (forall i: nat, a: nat {:trigger a in depsMap[i]} :: i < |depsMap| && a in depsMap[i] ==> a < |depsMap|)
      && (consumerMap != [] ==> InverseOf(depsMap, consumerMap))
    }

    /** Operation `i` has operands produced by the operations `operands[i]`. */
    constructor (operands: DepsMap)
      requires Topological(operands)
      ensures Valid() && Topological(depsMap) && depsMap == operands && consumerMap == []
    {
      depsMap, consumerMap := operands, [];
    }

    method AddDependency(from: nat, to: nat)
      requires Valid() && from < |depsMap| && to < |depsMap|
      modifies this
      ensures Valid() && depsMap == old(depsMap)[to := old(depsMap)[to] + {from}]
      ensures (consumerMap == []) == (old(consumerMap) == [])
      ensures DepEdges(depsMap) == DepEdges(old(depsMap)) + {(from, to)}
      ensures from < to && old(Topological(depsMap)) ==> Topological(depsMap)
    {
      depsMap := depsMap[to := depsMap[to] + {from}];
      if consumerMap != [] {
        consumerMap := consumerMap[from := consumerMap[from] + {to}];
      }
    }

    /** On a map that is already built this changes nothing. */
    method BuildConsMap()
      requires Valid()
      modifies `consumerMap
      ensures Valid() && InverseOf(depsMap, consumerMap)
      ensures old(consumerMap) != [] ==> consumerMap == old(consumerMap)
    {
      while |consumerMap| < |depsMap|
        invariant |consumerMap| <= |depsMap|
        invariant old(consumerMap) != [] ==> consumerMap == old(consumerMap)
        invariant old(consumerMap) == [] ==> forall a :: 0 <= a < |consumerMap| ==> consumerMap[a] == {}
      {
        consumerMap := consumerMap + [{}];
      }
      ghost var start := consumerMap;
      var idx := 0;
      while idx < |depsMap|
        invariant idx <= |depsMap| == |consumerMap|
        invariant forall a: nat, i: nat {:trigger i in consumerMap[a]} :: a < |consumerMap| ==>
          (i in consumerMap[a] <==> i in start[a] || (i < idx && a in depsMap[i]))
      {
        AddConsumersOf(idx);
        idx := idx + 1;
      }
      if old(consumerMap) != [] {
        forall a | 0 <= a < |consumerMap|
          ensures consumerMap[a] == old(consumerMap)[a]
        {
          assert forall i: nat :: i in consumerMap[a] <==> i in start[a];
        }
      }
    }

    method AddConsumersOf(idx: nat)
      requires idx < |depsMap| == |consumerMap| && forall a :: a in depsMap[idx] ==> a < |depsMap|
      modifies `consumerMap
      ensures |consumerMap| == |depsMap|
      ensures forall a :: 0 <= a < |consumerMap| ==>
        consumerMap[a] == old(consumerMap)[a] + if a in depsMap[idx] then {idx} else {}
    {
      var left := depsMap[idx];
      while left != {}
        invariant left <= depsMap[idx] && |consumerMap| == |depsMap|
        invariant forall a :: 0 <= a < |consumerMap| ==>
          consumerMap[a] == old(consumerMap)[a] + if a in depsMap[idx] && a !in left then {idx} else {}
      {
        var bit :| bit in left;
        consumerMap := consumerMap[bit := consumerMap[bit] + {idx}];
        left := left - {bit};
      }
    }

    /** Step 1: a copy of the map in which dependencies are closed, fully or to second order.  The
        last operation is left out, as nothing depends on it. */
    method CloseDeps(simplified: bool) returns (closure: DepsMap)
      requires Valid() && Topological(depsMap)
      ensures ClosedBelow(depsMap, closure, simplified, if |depsMap| == 0 then 0 else |depsMap| - 1)
    {
      closure := depsMap;
      var i := 0;
      while i < |closure|
        invariant i <= |closure| == |depsMap| && (i < |closure| || i == 0)
        invariant ClosedBelow(depsMap, closure, simplified, i)
      {
        if i == |closure| - 1 {
          break;
        }
        closure := CloseOne(closure, simplified, i);
        i := i + 1;
      }
    }

    method CloseOne(before: DepsMap, simplified: bool, i: nat) returns (closure: DepsMap)
      requires Valid() && Topological(depsMap) && i < |depsMap| && ClosedBelow(depsMap, before, simplified, i)
      ensures ClosedBelow(depsMap, closure, simplified, i + 1)
    {
      closure := before;
      var left := closure[i];
      while left != {}
        invariant left <= depsMap[i] && |closure| == |depsMap| && closure == before[i := closure[i]]
        invariant forall a :: a in closure[i] <==>
          a in depsMap[i] || Gathered(depsMap[i] - left, if simplified then depsMap else before, a)
      {
        var d :| d in left;
        assert d < i;
        var depOfDeps := if simplified then depsMap[d] else closure[d];
        GatherOne(depsMap[i], left, d, if simplified then depsMap else before);
        closure := closure[i := closure[i] + depOfDeps];
        left := left - {d};
      }
      assert depsMap[i] - {} == depsMap[i];
      CloseStep(depsMap, before, closure, simplified, i);
    }

    /** Step 2 for one operation: what its dependencies imply is erased. */
    method ReduceOne(i: nat, closure: DepsMap)
      requires i < |depsMap| == |closure| && Topological(depsMap)
      requires forall d, a :: 0 <= d < |closure| && a in closure[d] ==> a < d
      modifies `depsMap
      ensures depsMap == old(depsMap)[i := Reduced(old(depsMap), closure)[i]]
    {
      if |depsMap[i]| <= 1 {
        OnlyDependencyStays(depsMap, closure, i);
        return;
      }
      ghost var before := depsMap[i];
      var left := depsMap[i];
      while left != {}
        invariant left <= before && |depsMap| == |closure| && depsMap == old(depsMap)[i := depsMap[i]]
        invariant depsMap[i] == set a | a in before && !Gathered(before - left, closure, a)
      {
        var d :| d in left;
        GatherOne(before, left, d, closure);
        depsMap := depsMap[i := depsMap[i] - closure[d]];
        left := left - {d};
      }
      assert before - {} == before;
      assert forall a :: Gathered(before, closure, a) <==> Implied(old(depsMap), closure, a, i);
      assert depsMap[i] == Reduced(old(depsMap), closure)[i];
    }

    /** `optimizeDepsMap`.  The order of the operations stays exactly the same.  In full mode no
        map with that order has fewer dependencies; in simplified mode the dependencies that go are
        those that a dependency of an operation has, or a dependency of such a dependency. */
    method OptimizeDepsMap()
      requires Valid() && Topological(depsMap)
      modifies this
      ensures Valid() && Topological(depsMap) && |depsMap| == |old(depsMap)|
      ensures SameReachability(DepEdges(old(depsMap)), DepEdges(depsMap)) && DepEdges(depsMap) <= DepEdges(old(depsMap))
      ensures |depsMap| <= SIMPLIFIED_OPTIMIZATION_OP_COUNT_THRESHOLD ==> Least(DepEdges(depsMap))
      ensures |depsMap| > SIMPLIFIED_OPTIMIZATION_OP_COUNT_THRESHOLD ==>
        forall i, a :: 0 <= i < |depsMap| ==>
          (a in depsMap[i] <==> a in old(depsMap)[i] && !ImpliedNearby(old(depsMap), a, i))
      ensures (consumerMap == []) == (old(consumerMap) == [])
    {
      var simplified := |depsMap| > SIMPLIFIED_OPTIMIZATION_OP_COUNT_THRESHOLD;
      var closure := CloseDeps(simplified);
      ClosureIsSound(depsMap, closure, simplified);
      var depInd := |depsMap|;
      while depInd > 0
        invariant depInd <= |depsMap| == |old(depsMap)| == |closure| && consumerMap == old(consumerMap)
        invariant forall i :: 0 <= i < |depsMap| ==>
          depsMap[i] == if i < depInd then old(depsMap)[i] else Reduced(old(depsMap), closure)[i]
      {
        depInd := depInd - 1;
        ghost var before := depsMap;
        ReduceOne(depInd, closure);
        assert Reduced(before, closure)[depInd] == Reduced(old(depsMap), closure)[depInd];
      }
      assert depsMap == Reduced(old(depsMap), closure);
      ReductionKeepsOrder(old(depsMap), closure);
      if simplified {
        SimplifiedDrops(old(depsMap), closure);
      } else {
        ReductionIsLeast(old(depsMap), closure);
      }
      if consumerMap != [] {
        consumerMap := [];
        BuildConsMap();
      }
    }

    method CalculateOpInDegreeTable() returns (degrees: map<nat, nat>)
      ensures forall i :: i in degrees <==> 0 <= i < |depsMap|
      ensures forall i :: i in degrees ==> degrees[i] == |depsMap[i]|
    {
      degrees := map[];
      for i := 0 to |depsMap|
        invariant forall j :: j in degrees <==> 0 <= j < i
        invariant forall j :: j in degrees ==> degrees[j] == |depsMap[j]|
      {
        degrees := degrees[i := |depsMap[i]|];
      }
    }

    method CalculateOpOutDegreeTable() returns (outcome: Outcome, degrees: map<nat, nat>)
      requires Valid()
      ensures outcome.Thrown? <==> consumerMap == []
      ensures outcome == Done ==> (forall i :: i in degrees <==> 0 <= i < |consumerMap|)
      ensures outcome == Done ==> forall i :: i in degrees ==> degrees[i] == |consumerMap[i]|
    {
      degrees := map[];
      if consumerMap == [] {
        return Thrown("Consumer map was not build"), degrees;
      }
      for i := 0 to |depsMap|
        invariant forall j :: j in degrees <==> 0 <= j < i
        invariant forall j :: j in degrees ==> degrees[j] == |consumerMap[j]|
      {
        degrees := degrees[i := |consumerMap[i]|];
      }
      outcome := Done;
    }
  }

  ghost predicate Gathered(from: set<nat>, reference: DepsMap, a: nat) {
    exists d :: d in from && d < |reference| && a in reference[d]
  }

  lemma GatherOne(all: set<nat>, left: set<nat>, d: nat, reference: DepsMap)
    requires d in left && left <= all && d < |reference|
    ensures forall a :: Gathered(all - (left - {d}), reference, a) <==>
      Gathered(all - left, reference, a) || a in reference[d]
  {
    assert all - (left - {d}) == (all - left) + {d};
  }

  /** Below `i` the closure has what it is to have, from `i` on it is still the map itself. */
  ghost predicate ClosedBelow(deps: DepsMap, closure: DepsMap, simplified: bool, i: nat) {
    && |closure| == |deps|
    && (forall j :: i <= j < |deps| ==> closure[j] == deps[j])
    && (forall j, a {:trigger a in closure[j]} :: 0 <= j < i && j < |deps| ==>
          (a in closure[j] <==>
            if simplified then a in deps[j] || SecondOrder(deps, a, j) else Reaches(DepEdges(deps), a, j)))
  }

  lemma CloseStep(deps: DepsMap, before: DepsMap, closure: DepsMap, simplified: bool, i: nat)
    requires Topological(deps) && i < |deps| && ClosedBelow(deps, before, simplified, i)
    requires |closure| == |deps| && closure == before[i := closure[i]]
    requires forall a :: a in closure[i] <==> a in deps[i] || Gathered(deps[i], if simplified then deps else before, a)
    ensures ClosedBelow(deps, closure, simplified, i + 1)
  {
    if simplified {
      assert forall a :: Gathered(deps[i], deps, a) <==> SecondOrder(deps, a, i);
    } else {
      forall a: nat
        ensures a in closure[i] <==> Reaches(DepEdges(deps), a, i)
      {
        ClosedAt(deps, before, a, i);
      }
    }
    assert forall j :: 0 <= j < i ==> closure[j] == before[j];
  }

  lemma ClosedAt(deps: DepsMap, before: DepsMap, a: nat, i: nat)
    requires Topological(deps) && i < |deps| && ClosedBelow(deps, before, false, i)
    ensures Reaches(DepEdges(deps), a, i) <==> a in deps[i] || Gathered(deps[i], before, a)
  {
    var edges := DepEdges(deps);
    if Reaches(edges, a, i) {
      var d := LastStep(edges, a, i);
      assert d == a || a in before[d];
    }
    if a in deps[i] {
      EdgeReaches(edges, a, i);
    }
    if d :| d in deps[i] && d < |before| && a in before[d] {
      EdgeReaches(edges, d, i);
      ReachesTransitive(edges, a, d, i);
    }
  }

  lemma ClosureIsSound(deps: DepsMap, closure: DepsMap, simplified: bool)
    requires Topological(deps) && ClosedBelow(deps, closure, simplified, if |deps| == 0 then 0 else |deps| - 1)
    ensures Sound(deps, closure) && (!simplified ==> Complete(deps, closure))
    ensures forall d, a :: 0 <= d < |closure| && a in closure[d] ==> a < d
  {
    var edges := DepEdges(deps);
    EdgesIncrease(deps);
    forall d: nat, a | d < |closure| && a in closure[d]
      ensures Reaches(edges, a, d) && a < d
    {
      if a in deps[d] {
        EdgeReaches(edges, a, d);
      } else if simplified {
        var m :| m in deps[d] && m < |deps| && a in deps[m];
        EdgeReaches(edges, a, m);
        EdgeReaches(edges, m, d);
        ReachesTransitive(edges, a, m, d);
      }
      ReachesIncreases(edges, a, d);
    }
  }

  lemma OnlyDependencyStays(deps: DepsMap, closure: DepsMap, i: nat)
    requires i < |deps| == |closure| && |deps[i]| <= 1 && forall d, a :: 0 <= d < |closure| && a in closure[d] ==> a < d
    ensures Reduced(deps, closure)[i] == deps[i]
  {
    forall a, d | a in deps[i] && d in deps[i]
      ensures a == d
    {
      assert |deps[i] - {a}| == |deps[i]| - 1;
      assert deps[i] - {a} == {};
    }
  }

  /** `a` is a dependency of a dependency `d` of `i`, or of a dependency of `d`. */
  ghost predicate ImpliedNearby(deps: DepsMap, a: nat, i: nat) {
    exists d :: i < |deps| && d in deps[i] && d < |deps| && (a in deps[d] || SecondOrder(deps, a, d))
  }

  lemma SimplifiedDrops(deps: DepsMap, closure: DepsMap)
    requires Topological(deps) && ClosedBelow(deps, closure, true, if |deps| == 0 then 0 else |deps| - 1)
    ensures forall i: nat, a :: i < |deps| ==> (Implied(deps, closure, a, i) <==> ImpliedNearby(deps, a, i))
  {
    forall i: nat, a: nat | i < |deps|
      ensures Implied(deps, closure, a, i) <==> ImpliedNearby(deps, a, i)
    {
      forall d | d in deps[i]
        ensures a in closure[d] <==> a in deps[d] || SecondOrder(deps, a, d)
      {
        assert d < i;
      }
    }
  }
}
