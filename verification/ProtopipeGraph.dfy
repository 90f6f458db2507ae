/** The graph of an inference pipeline: nodes and edges that come and go, and its depth-first
    topological sort. */
module ProtopipeGraph {
  import opened Reachability
  import opened Sequences

  datatype Edge = Edge(src: nat, dst: nat)

  ghost predicate Acyclic(arcs: Edges) {
    forall n :: !Reaches(arcs, n, n)
  }

  ghost predicate Before(s: seq<nat>, a: nat, b: nat) {
    exists i, j :: 0 <= i < j < |s| && s[i] == a && s[j] == b
  }

  ghost predicate InOrder(s: seq<nat>, arcs: Edges) {
    forall a, b :: (a, b) in arcs ==> Before(s, a, b)
  }

  /** What is on the stack has its successors below it, unless they lead back to it. */
  ghost predicate Finished(arcs: Edges, stack: seq<nat>) {
    forall i, d {:trigger (stack[i], d) in arcs} :: 0 <= i < |stack| && (stack[i], d) in arcs ==>
      d in stack[..i] || ReachesOrIs(arcs, d, stack[i])
  }

  /** Nodes that have been visited but are not on the stack yet are those on the way to `n`. */
  ghost predicate OnTheWay(arcs: Edges, visited: set<nat>, stack: seq<nat>, n: nat) {
    forall g :: g in visited && g !in stack ==> ReachesOrIs(arcs, g, n)
  }

  ghost function Reversed(s: seq<nat>): (r: seq<nat>)
    ensures |r| == |s| && forall i :: 0 <= i < |s| ==> r[i] == s[|s| - 1 - i]
  {
    if s == [] then [] else [s[|s| - 1]] + Reversed(s[..|s| - 1])
  }

  lemma PushFinished(arcs: Edges, stack: seq<nat>, n: nat)
    requires Finished(arcs, stack) && forall d :: (n, d) in arcs ==> d in Elements(stack) || ReachesOrIs(arcs, d, n)
    ensures Finished(arcs, stack + [n])
  {
    var next := stack + [n];
    forall i, d | 0 <= i < |next| && (next[i], d) in arcs
      ensures d in next[..i] || ReachesOrIs(arcs, d, next[i])
    {
      assert next[..i] == stack[..i];
      assert i < |stack| ==> (stack[i], d) in arcs;
      assert stack[..|stack|] == stack;
    }
  }

  /** Read from the top of the stack down, an edge is out of order only if it lies on a cycle. */
  lemma TopDownInOrder(arcs: Edges, stack: seq<nat>, a: nat, b: nat)
    requires Finished(arcs, stack) && a in stack && (a, b) in arcs
    ensures Before(Reversed(stack), a, b) || ReachesOrIs(arcs, b, a)
  {
    var n, s := |stack|, Reversed(stack);
    var i :| 0 <= i < n && stack[i] == a;
    assert (stack[i], b) in arcs;
    if b in stack[..i] {
      var j :| 0 <= j < i && stack[j] == b;
      assert s[n - 1 - i] == a && s[n - 1 - j] == b;
    }
  }

  /** Only the edges of an acyclic graph can all be in order. */
  lemma InOrderMeansAcyclic(arcs: Edges, s: seq<nat>)
    requires Distinct(s) && InOrder(s, arcs)
    ensures Acyclic(arcs)
  {
    forall n | Reaches(arcs, n, n)
      ensures false
    {
      var path :| IsPathBetween(arcs, path, n, n);
      PathInOrder(arcs, s, path);
    }
  }

  lemma {:induction false} PathInOrder(arcs: Edges, s: seq<nat>, path: seq<nat>)
    requires Distinct(s) && InOrder(s, arcs) && IsPath(arcs, path)
    ensures Before(s, path[0], path[|path| - 1])
    decreases |path|
  {
    var n := |path|;
    assert (path[n - 2], path[n - 1]) in arcs;
    if n > 2 {
      PathInOrder(arcs, s, path[..n - 1]);
      BeforeTransitive(s, path[0], path[n - 2], path[n - 1]);
    }
  }

  lemma BeforeTransitive(s: seq<nat>, a: nat, b: nat, c: nat)
    requires Distinct(s) && Before(s, a, b) && Before(s, b, c)
    ensures Before(s, a, c)
  {
    var i, j :| 0 <= i < j < |s| && s[i] == a && s[j] == b;
    var k, l :| 0 <= k < l < |s| && s[k] == b && s[l] == c;
    assert j == k;
  }

  lemma AcyclicInOrder(arcs: Edges, s: seq<nat>)
    requires Acyclic(arcs) && forall a, b :: (a, b) in arcs ==> Before(s, a, b) || ReachesOrIs(arcs, b, a)
    ensures InOrder(s, arcs)
  {
    forall a, b | (a, b) in arcs
      ensures Before(s, a, b)
    {
      EdgeReaches(arcs, a, b);
      if ReachesOrIs(arcs, b, a) {
        ChainReaches(arcs, a, b, a);
        assert Reaches(arcs, a, a);
      }
    }
  }

  /** Every edge is known to the nodes at both its ends, and the nodes know no other edges. */
  ghost predicate Consistent(nodes: set<nat>, edges: map<nat, Edge>, srcEdges: map<nat, set<nat>>,
                             dstEdges: map<nat, set<nat>>) {
    && srcEdges.Keys == dstEdges.Keys == nodes
    && (forall e :: e in edges ==> edges[e].src in nodes && edges[e].dst in nodes)
    && (forall n, e :: n in nodes ==> (e in srcEdges[n] <==> e in edges && edges[e].dst == n))
    && (forall n, e :: n in nodes ==> (e in dstEdges[n] <==> e in edges && edges[e].src == n))
  }

  ghost predicate BelowHandle(nodes: set<nat>, edges: map<nat, Edge>, handle: nat) {
    (forall n :: n in nodes ==> n < handle) && forall e :: e in edges ==> e < handle
  }

  lemma BelowStays(nodes: set<nat>, edges: map<nat, Edge>, handle: nat, left: set<nat>)
    requires BelowHandle(nodes, edges, handle) && left <= nodes
    ensures BelowHandle(left, edges, handle)
  {
  }

  lemma LinkKeeps(nodes: set<nat>, edges: map<nat, Edge>, srcEdges: map<nat, set<nat>>, dstEdges: map<nat, set<nat>>,
                  eh: nat, src: nat, dst: nat)
    requires Consistent(nodes, edges, srcEdges, dstEdges) && src in nodes && dst in nodes && eh !in edges
    ensures Consistent(nodes, edges[eh := Edge(src, dst)], srcEdges[dst := srcEdges[dst] + {eh}],
      dstEdges[src := dstEdges[src] + {eh}])
  {
    var src2 := srcEdges[dst := srcEdges[dst] + {eh}];
    assert src2.Keys == nodes;
    assert dstEdges[src := dstEdges[src] + {eh}].Keys == nodes;
  }

  lemma RemoveEdgeKeeps(nodes: set<nat>, edges: map<nat, Edge>, srcEdges: map<nat, set<nat>>,
                        dstEdges: map<nat, set<nat>>, eh: nat)
    requires Consistent(nodes, edges, srcEdges, dstEdges) && eh in edges
    ensures var e := edges[eh];
      Consistent(nodes, edges - {eh}, srcEdges[e.dst := srcEdges[e.dst] - {eh}],
        dstEdges[e.src := dstEdges[e.src] - {eh}])
  {
    var e := edges[eh];
    assert srcEdges[e.dst := srcEdges[e.dst] - {eh}].Keys == nodes;
    assert dstEdges[e.src := dstEdges[e.src] - {eh}].Keys == nodes;
  }

  lemma RemoveNodeKeeps(nodes: set<nat>, edges: map<nat, Edge>, srcEdges: map<nat, set<nat>>,
                        dstEdges: map<nat, set<nat>>, nh: nat)
    requires Consistent(nodes, edges, srcEdges, dstEdges) && nh in nodes && srcEdges[nh] == dstEdges[nh] == {}
    ensures Consistent(nodes - {nh}, edges, srcEdges - {nh}, dstEdges - {nh})
  {
    assert (srcEdges - {nh}).Keys == nodes - {nh} == (dstEdges - {nh}).Keys;
    forall e | e in edges
      ensures edges[e].src in nodes - {nh} && edges[e].dst in nodes - {nh}
    {
      assert e in dstEdges[edges[e].src] && e in srcEdges[edges[e].dst];
    }
  }

  lemma CreateKeeps(nodes: set<nat>, edges: map<nat, Edge>, srcEdges: map<nat, set<nat>>,
                    dstEdges: map<nat, set<nat>>, nh: nat)
    requires Consistent(nodes, edges, srcEdges, dstEdges) && nh !in nodes
    ensures Consistent(nodes + {nh}, edges, srcEdges[nh := {}], dstEdges[nh := {}])
  {
    assert srcEdges[nh := {}].Keys == nodes + {nh} == dstEdges[nh := {}].Keys;
  }

  ghost function ArcsOf(edges: map<nat, Edge>): Edges {
    set e | e in edges :: (edges[e].src, edges[e].dst)
  }

  /** The edges a node knows are those that name it. */
  lemma KnownEdges(nodes: set<nat>, edges: map<nat, Edge>, srcEdges: map<nat, set<nat>>, dstEdges: map<nat, set<nat>>,
                   n: nat)
    requires Consistent(nodes, edges, srcEdges, dstEdges) && n in nodes
    ensures srcEdges[n] <= edges.Keys && dstEdges[n] <= edges.Keys
    ensures forall e :: e in edges ==>
      (e in srcEdges[n] <==> edges[e].dst == n) && (e in dstEdges[n] <==> edges[e].src == n)
    ensures forall e :: e in dstEdges[n] ==> edges[e].dst in nodes && (n, edges[e].dst) in ArcsOf(edges)
  {
  }

  lemma ArcsFrom(edges: map<nat, Edge>, known: set<nat>, n: nat, d: nat) returns (e: nat)
    requires (forall e :: e in edges ==> (e in known <==> edges[e].src == n)) && (n, d) in ArcsOf(edges)
    ensures e in known && e in edges && edges[e].dst == d
  {
    e :| e in edges && (edges[e].src, edges[e].dst) == (n, d);
  }

  lemma ArcEnds(nodes: set<nat>, edges: map<nat, Edge>, srcEdges: map<nat, set<nat>>, dstEdges: map<nat, set<nat>>)
    requires Consistent(nodes, edges, srcEdges, dstEdges)
    ensures forall a, b :: (a, b) in ArcsOf(edges) ==> a in nodes && b in nodes
  {
  }

  /** Nodes below `n` may still be visited on the way from `g`. */
  lemma OnTheWayDown(arcs: Edges, visited: set<nat>, stack: seq<nat>, n: nat, d: nat)
    requires OnTheWay(arcs, visited, stack, n) && (n, d) in arcs
    ensures OnTheWay(arcs, visited, stack, d)
  {
    EdgeReaches(arcs, n, d);
    forall g | g in visited && g !in stack
      ensures ReachesOrIs(arcs, g, d)
    {
      ChainReaches(arcs, g, n, d);
    }
  }

  lemma OneMoreOnTheWay(arcs: Edges, visited: set<nat>, stack: seq<nat>, n: nat)
    requires OnTheWay(arcs, visited, stack, n)
    ensures OnTheWay(arcs, visited + {n}, stack, n)
  {
  }

  lemma VisitedReaches(arcs: Edges, visited: set<nat>, stack: seq<nat>, n: nat, d: nat)
    requires OnTheWay(arcs, visited, stack, n) && d in visited
    ensures d in Elements(stack) || ReachesOrIs(arcs, d, n)
  {
  }

  lemma PushDistinct(stack: seq<nat>, n: nat)
    requires Distinct(stack) && n !in Elements(stack)
    ensures Distinct(stack + [n]) && Elements(stack + [n]) == Elements(stack) + {n}
  {
  }

  lemma SameOnTheWay(arcs: Edges, before: set<nat>, below: seq<nat>, visited: set<nat>, stack: seq<nat>, n: nat)
    requires OnTheWay(arcs, before, below, n) && visited - Elements(stack) == before - Elements(below)
    ensures OnTheWay(arcs, visited, stack, n)
  {
    forall g | g in visited && g !in stack
      ensures ReachesOrIs(arcs, g, n)
    {
      assert g in visited - Elements(stack);
      assert g in before && g !in below;
    }
  }

  lemma Smaller(a: set<nat>, b: set<nat>, x: nat)
    requires a <= b && x in b && x !in a
    ensures |a| < |b|
  {
    assert b == a + (b - a) && x in b - a;
  }

  /** Handles of nodes and edges are numbers; the edge sets of the nodes are kept by handle. */
  class Graph {
    var nodes: set<nat>
    var edges: map<nat, Edge>
    var srcEdges: map<nat, set<nat>>
    var dstEdges: map<nat, set<nat>>
    var nextHandle: nat

    ghost predicate Valid()
      reads this
    {
      Consistent(nodes, edges, srcEdges, dstEdges) && BelowHandle(nodes, edges, nextHandle)
    }

    ghost function Arcs(): Edges
      reads this
    {
      ArcsOf(edges)
    }

    constructor ()
      ensures Valid() && nodes == {} && edges == map[]
    {
      nodes, edges, srcEdges, dstEdges, nextHandle := {}, map[], map[], map[], 0;
    }

    method Create() returns (nh: nat)
      requires Valid()
      modifies this
      ensures Valid() && nh !in old(nodes) && nodes == old(nodes) + {nh} && edges == old(edges)
    {
      hide Consistent;
      nh := nextHandle;
      CreateKeeps(nodes, edges, srcEdges, dstEdges, nh);
      nodes, srcEdges, dstEdges, nextHandle := nodes + {nh}, srcEdges[nh := {}], dstEdges[nh := {}], nextHandle + 1;
    }

    method Link(src: nat, dst: nat) returns (eh: nat)
      requires Valid() && src in nodes && dst in nodes
      modifies `edges, `srcEdges, `dstEdges, `nextHandle
      ensures Valid() && eh !in old(edges) && edges == old(edges)[eh := Edge(src, dst)]
    {
      hide Consistent;
      eh := nextHandle;
      Ends();
      LinkKeeps(nodes, edges, srcEdges, dstEdges, eh, src, dst);
      edges, nextHandle := edges[eh := Edge(src, dst)], nextHandle + 1;
      dstEdges := dstEdges[src := dstEdges[src] + {eh}];
      srcEdges := srcEdges[dst := srcEdges[dst] + {eh}];
    }

    lemma Ends()
      requires Valid()
      ensures srcEdges.Keys == dstEdges.Keys == nodes
      ensures forall e :: e in edges ==> edges[e].src in nodes && edges[e].dst in nodes
    {
    }

    method RemoveEdge(eh: nat)
      requires Valid() && eh in edges
      modifies `edges, `srcEdges, `dstEdges
      ensures Valid() && edges == old(edges) - {eh}
    {
      hide Consistent;
      Ends();
      var src, dst := edges[eh].src, edges[eh].dst;
      RemoveEdgeKeeps(nodes, edges, srcEdges, dstEdges, eh);
      dstEdges := dstEdges[src := dstEdges[src] - {eh}];
      srcEdges := srcEdges[dst := srcEdges[dst] - {eh}];
      edges := edges - {eh};
    }

    method RemoveEdges(handles: set<nat>)
      requires Valid() && handles <= edges.Keys
      modifies `edges, `srcEdges, `dstEdges
      ensures Valid() && edges == old(edges) - handles
    {
      hide Consistent, BelowHandle;
      var left := handles;
      assert edges == edges - {};
      while left != {}
        invariant Valid() && left <= handles && left <= edges.Keys && edges == old(edges) - (handles - left)
      {
        var eh :| eh in left;
        RemoveEdge(eh);
        left := left - {eh};
      }
    }

    /** `remove` of a node takes every edge that names it along, and nothing else. */
    method RemoveNode(nh: nat)
      requires Valid() && nh in nodes
      modifies `nodes, `edges, `srcEdges, `dstEdges
      ensures Valid() && nodes == old(nodes) - {nh}
      ensures forall e :: e in edges <==> e in old(edges) && old(edges)[e].src != nh && old(edges)[e].dst != nh
      ensures forall e :: e in edges ==> edges[e] == old(edges)[e]
    {
      hide Consistent, BelowHandle;
      Ends();
      KnownEdges(nodes, edges, srcEdges, dstEdges, nh);
      RemoveEdges(srcEdges[nh]);
      Ends();
      KnownEdges(nodes, edges, srcEdges, dstEdges, nh);
      RemoveEdges(dstEdges[nh]);
      Ends();
      KnownEdges(nodes, edges, srcEdges, dstEdges, nh);
      RemoveNodeKeeps(nodes, edges, srcEdges, dstEdges, nh);
      BelowStays(nodes, edges, nextHandle, nodes - {nh});
      nodes, srcEdges, dstEdges := nodes - {nh}, srcEdges - {nh}, dstEdges - {nh};
    }

    method Dfs(nh: nat, visited0: set<nat>, stack0: seq<nat>) returns (visited: set<nat>, stack: seq<nat>)
      requires Valid() && nh in nodes && nh !in visited0 && visited0 <= nodes
      requires Distinct(stack0) && Elements(stack0) <= visited0 && Finished(Arcs(), stack0)
      requires OnTheWay(Arcs(), visited0, stack0, nh)
      ensures visited0 + {nh} <= visited <= nodes && Distinct(stack) && Elements(stack) <= visited
      ensures Finished(Arcs(), stack)
      ensures Elements(stack0) <= Elements(stack) && visited - Elements(stack) == visited0 - Elements(stack0)
      decreases |nodes - visited0|
    {
      hide Consistent, BelowHandle, Finished, ReachesOrIs, Reaches, ArcsOf, OnTheWay, Distinct, Elements;
      visited, stack := visited0 + {nh}, stack0;
      ghost var arcs := Arcs();
      Ends();
      KnownEdges(nodes, edges, srcEdges, dstEdges, nh);
      OneMoreOnTheWay(arcs, visited0, stack0, nh);
      var left := dstEdges[nh];
      while left != {}
        invariant left <= dstEdges[nh] && visited0 + {nh} <= visited <= nodes
        invariant Distinct(stack) && Elements(stack) <= visited && Finished(arcs, stack)
        invariant Elements(stack0) <= Elements(stack)
        invariant visited - Elements(stack) == visited0 - Elements(stack0) + {nh}
        invariant OnTheWay(arcs, visited, stack, nh)
        invariant forall e :: e in dstEdges[nh] - left ==> edges[e].dst in visited
      {
        var e :| e in left;
        left := left - {e};
        var dst := edges[e].dst;
        if dst !in visited {
          OnTheWayDown(arcs, visited, stack, nh, dst);
          Smaller(nodes - visited, nodes - visited0, nh);
          ghost var before, below := visited, stack;
          visited, stack := Dfs(dst, visited, stack);
          SameOnTheWay(arcs, before, below, visited, stack, nh);
        }
      }
      forall d | (nh, d) in arcs
        ensures d in Elements(stack) || ReachesOrIs(arcs, d, nh)
      {
        var e := ArcsFrom(edges, dstEdges[nh], nh, d);
        VisitedReaches(arcs, visited, stack, nh, d);
      }
      PushFinished(arcs, stack, nh);
      assert nh in visited - Elements(stack);
      PushDistinct(stack, nh);
      stack := stack + [nh];
    }

    /** `sorted`, for any order in which nodes and edges are visited: every node exactly once, an
        edge out of order only if it lies on a cycle, hence all in order exactly when there is none. */
    method Sorted() returns (sorted: seq<nat>)
      requires Valid()
      ensures Distinct(sorted) && Elements(sorted) == nodes
      ensures forall a, b :: (a, b) in Arcs() ==> Before(sorted, a, b) || ReachesOrIs(Arcs(), b, a)
      ensures InOrder(sorted, Arcs()) <==> Acyclic(Arcs())
    {
      hide Consistent, BelowHandle, Finished, ReachesOrIs, Reaches, ArcsOf;
      Ends();
      ArcEnds(nodes, edges, srcEdges, dstEdges);
      var visited: set<nat>, stack: seq<nat> := {}, [];
      NothingFinished(Arcs());
      var left := nodes;
      while left != {}
        invariant left <= nodes && visited <= nodes && Distinct(stack) && Finished(Arcs(), stack)
        invariant visited == Elements(stack) && nodes - left <= visited
      {
        var nh :| nh in left;
        left := left - {nh};
        if nh !in visited {
          assert OnTheWay(Arcs(), visited, stack, nh);
          visited, stack := Dfs(nh, visited, stack);
          assert visited - Elements(stack) == {};
        }
      }
      sorted := [];
      ghost var whole := stack;
      while stack != []
        invariant |stack| + |sorted| == |whole| && stack == whole[..|stack|]
        invariant forall i :: 0 <= i < |sorted| ==> sorted[i] == whole[|whole| - 1 - i]
      {
        sorted := sorted + [stack[|stack| - 1]];
        stack := stack[..|stack| - 1];
      }
      assert sorted == Reversed(whole);
      SameElements(whole);
      forall a, b | (a, b) in Arcs()
        ensures Before(sorted, a, b) || ReachesOrIs(Arcs(), b, a)
      {
        assert a in Elements(whole);
        TopDownInOrder(Arcs(), whole, a, b);
      }
      if Acyclic(Arcs()) {
        AcyclicInOrder(Arcs(), sorted);
      }
      if InOrder(sorted, Arcs()) {
        InOrderMeansAcyclic(Arcs(), sorted);
      }
    }
  }

  lemma NothingFinished(arcs: Edges)
    ensures Finished(arcs, [])
  {
  }

  lemma SameElements(s: seq<nat>)
    ensures Elements(Reversed(s)) == Elements(s)
  {
    var r := Reversed(s);
    forall x | x in s
      ensures x in r
    {
      var i :| 0 <= i < |s| && s[i] == x;
      assert r[|s| - 1 - i] == x;
    }
  }
}
