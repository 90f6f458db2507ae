/** Directed graphs over task indices, given by their finite set of edges, and the
    transitive closure that every pass of the compiler core is judged by. */
module Reachability {

  type Edges = set<(nat, nat)>

  ghost predicate IsPath(edges: Edges, path: seq<nat>) {
    |path| >= 2 && forall i :: 0 <= i < |path| - 1 ==> (path[i], path[i + 1]) in edges
  }

  ghost predicate IsPathBetween(edges: Edges, path: seq<nat>, a: nat, b: nat) {
    IsPath(edges, path) && path[0] == a && path[|path| - 1] == b
  }

  /** `b` comes after `a`: there is a non-empty chain of edges from `a` to `b`. */
  ghost predicate Reaches(edges: Edges, a: nat, b: nat) {
    exists path :: IsPathBetween(edges, path, a, b)
  }

  ghost predicate ReachesOrIs(edges: Edges, a: nat, b: nat) {
    a == b || Reaches(edges, a, b)
  }

  /** Program order is a topological order: every edge goes to a higher index. */
  ghost predicate Increasing(edges: Edges) {
    forall a, b :: (a, b) in edges ==> a < b
  }

  ghost predicate SameReachability(e: Edges, f: Edges) {
    forall a, b :: Reaches(e, a, b) <==> Reaches(f, a, b)
  }

  lemma EdgeReaches(edges: Edges, a: nat, b: nat)
    requires (a, b) in edges
    ensures Reaches(edges, a, b)
  {
    assert IsPathBetween(edges, [a, b], a, b);
  }

  lemma ReachesTransitive(edges: Edges, a: nat, b: nat, c: nat)
    requires Reaches(edges, a, b) && Reaches(edges, b, c)
    ensures Reaches(edges, a, c)
  {
    var p :| IsPathBetween(edges, p, a, b);
    var q :| IsPathBetween(edges, q, b, c);
    var r := p + q[1..];
    forall i | 0 <= i < |r| - 1
      ensures (r[i], r[i + 1]) in edges
    {
      if i < |p| - 1 {
      } else {
        assert r[i] == q[i - (|p| - 1)];
        assert r[i + 1] == q[i + 1 - (|p| - 1)];
      }
    }
    assert IsPathBetween(edges, r, a, c);
  }

  /** The first edge of a path, and what is left of the path behind it. */
  lemma FirstStep(edges: Edges, a: nat, b: nat) returns (mid: nat)
    requires Reaches(edges, a, b)
    ensures (a, mid) in edges && ReachesOrIs(edges, mid, b)
  {
    var p :| IsPathBetween(edges, p, a, b);
    mid := p[1];
    assert (p[0], p[1]) in edges;
    if |p| > 2 {
      forall i | 0 <= i < |p[1..]| - 1
        ensures (p[1..][i], p[1..][i + 1]) in edges
      {
        assert (p[i + 1], p[i + 2]) in edges;
      }
      assert IsPathBetween(edges, p[1..], mid, b);
    }
  }

  /** The last edge of a path, and the path that leads to it. */
  lemma LastStep(edges: Edges, a: nat, b: nat) returns (mid: nat)
    requires Reaches(edges, a, b)
    ensures (mid, b) in edges && ReachesOrIs(edges, a, mid)
  {
    var p :| IsPathBetween(edges, p, a, b);
    var n := |p|;
    mid := p[n - 2];
    assert (p[n - 2], p[n - 1]) in edges;
    if n > 2 {
      assert IsPathBetween(edges, p[..n - 1], a, mid);
    }
  }

  lemma ReachesIncreases(edges: Edges, a: nat, b: nat)
    requires Increasing(edges) && Reaches(edges, a, b)
    ensures a < b
  {
    var p :| IsPathBetween(edges, p, a, b);
    PathIncreases(edges, p);
  }

  lemma {:induction false} PathIncreases(edges: Edges, p: seq<nat>)
    requires Increasing(edges) && IsPath(edges, p)
    ensures p[0] < p[|p| - 1]
    decreases |p|
  {
    var n := |p|;
    assert (p[n - 2], p[n - 1]) in edges;
    if n > 2 {
      PathIncreases(edges, p[..n - 1]);
    }
  }

  /** If every edge of `e` is matched by a path of `f`, then so is every path of `e`. */
  lemma SimulatesAll(e: Edges, f: Edges)
    requires forall a, b :: (a, b) in e ==> Reaches(f, a, b)
    ensures forall a, b :: Reaches(e, a, b) ==> Reaches(f, a, b)
  {
    forall a, b | Reaches(e, a, b)
      ensures Reaches(f, a, b)
    {
      var p :| IsPathBetween(e, p, a, b);
      SimulatesPath(e, f, p);
    }
  }

  lemma {:induction false} SimulatesPath(e: Edges, f: Edges, p: seq<nat>)
    requires forall a, b :: (a, b) in e ==> Reaches(f, a, b)
    requires IsPath(e, p)
    ensures Reaches(f, p[0], p[|p| - 1])
    decreases |p|
  {
    var n := |p|;
    assert (p[n - 2], p[n - 1]) in e;
    if n > 2 {
      SimulatesPath(e, f, p[..n - 1]);
      ReachesTransitive(f, p[0], p[n - 2], p[n - 1]);
    }
  }

  lemma ReachesMonotone(e: Edges, f: Edges)
    requires e <= f
    ensures forall a, b :: Reaches(e, a, b) ==> Reaches(f, a, b)
  {
    forall a, b | (a, b) in e
      ensures Reaches(f, a, b)
    {
      EdgeReaches(f, a, b);
    }
    SimulatesAll(e, f);
  }

  lemma ChainReaches(edges: Edges, a: nat, b: nat, c: nat)
    requires ReachesOrIs(edges, a, b) && ReachesOrIs(edges, b, c)
    ensures ReachesOrIs(edges, a, c)
    ensures a != b || b != c ==> Reaches(edges, a, c)
  {
    if a != b && b != c {
      ReachesTransitive(edges, a, b, c);
    }
  }
}
