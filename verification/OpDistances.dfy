/** The distance of every operation from the arguments, found by a work list. */
module OpDistances {
  import opened OutliningIr

  ghost function UserOps(f: Function, o: nat): set<nat> {
    set c | 0 <= c < |f.ops| && f.Feeds(o, c)
  }

  /** Number of chains of uses that start at operation `o`. */
  ghost function ChainsFrom(f: Function, o: nat): nat
    decreases |f.ops| - o, 1
  {
    if o >= |f.ops| then 0 else 1 + TotalChains(f, UserOps(f, o), o + 1)
  }

  /** Sum of these numbers for the members of `s` from `from` on. */
  ghost function TotalChains(f: Function, s: set<nat>, from: nat): nat
    decreases |f.ops| - from, 2
  {
    if from >= |f.ops| then 0 else (if from in s then ChainsFrom(f, from) else 0) + TotalChains(f, s, from + 1)
  }

  lemma {:induction false} TotalOfParts(f: Function, s: set<nat>, a: set<nat>, b: set<nat>, from: nat)
    requires s <= a + b
    ensures TotalChains(f, s, from) <= TotalChains(f, a, from) + TotalChains(f, b, from)
    decreases |f.ops| - from
  {
    if from < |f.ops| {
      TotalOfParts(f, s, a, b, from + 1);
    }
  }

  lemma {:induction false} TotalWithout(f: Function, s: set<nat>, o: nat, from: nat)
    requires o in s && o < |f.ops|
    ensures TotalChains(f, s - {o}, from) + (if from <= o then ChainsFrom(f, o) else 0) == TotalChains(f, s, from)
    decreases |f.ops| - from
  {
    if from < |f.ops| {
      TotalWithout(f, s, o, from + 1);
    }
  }

  lemma {:induction false} TotalFrom(f: Function, s: set<nat>, from: nat, to: nat)
    requires from <= to && forall c :: c in s ==> to <= c
    ensures TotalChains(f, s, from) == TotalChains(f, s, to)
    decreases if from <= to then to - from else 0
  {
    if from < to {
      TotalFrom(f, s, from + 1, to);
    }
  }

  /** Exchanging an operation for its users leaves fewer chains to follow. */
  lemma UsersWeighLess(f: Function, queued: set<nat>, next: set<nat>, o: nat)
    requires f.WellFormed() && o in queued && o < |f.ops| && next <= (queued - {o}) + UserOps(f, o)
    ensures TotalChains(f, next, 0) < TotalChains(f, queued, 0)
  {
    TotalOfParts(f, next, queued - {o}, UserOps(f, o), 0);
    TotalWithout(f, queued, o, 0);
    forall c | c in UserOps(f, o)
      ensures o + 1 <= c
    {
      f.FeedsForward(o, c);
    }
    TotalFrom(f, UserOps(f, o), 0, o + 1);
  }

  /** The work list, with the set of operations on it, and the distances found so far. */
  datatype Search = Search(distances: map<nat, nat>, queue: seq<nat>, queued: set<nat>, maxDistance: nat) {

    ghost predicate Valid() {
      && (forall o :: o in queued <==> o in queue)
      && (forall i, j :: 0 <= i < j < |queue| ==> queue[i] != queue[j])
    }

    function Push(o: nat): Search {
      if o in queued then this else this.(queue := queue + [o], queued := queued + {o})
    }

    function Pop(): Search
      requires queue != []
    {
      this.(queue := queue[1..], queued := queued - {queue[0]})
    }

    /** User `c` of operation `o` is at least one further away. */
    function Relax(o: nat, c: nat): Search
      requires o in distances
    {
      var known := if c in distances then distances[c] else 0;
      var distance := if known >= distances[o] + 1 then known else distances[o] + 1;
      this.(distances := distances[c := distance],
            maxDistance := if maxDistance >= distance then maxDistance else distance).Push(c)
    }
  }

  function UsersOf(f: Function, v: Value): set<nat> {
    set c | 0 <= c < |f.ops| && f.Uses(c, v)
  }

  /** Every user of `o` has been seen at a greater distance. */
  ghost predicate Settled(f: Function, s: Search, o: nat) {
    && o in s.distances
    && forall c {:trigger f.Feeds(o, c)} :: f.Feeds(o, c) ==> c in s.distances && s.distances[c] >= s.distances[o] + 1
  }

  /** The distance of `o` is the length of a chain. */
  ghost predicate Measured(f: Function, s: Search, o: nat) {
    o in s.distances && o < |f.ops| && f.HasChain(o, s.distances[o]) && s.distances[o] <= s.maxDistance
  }

  ghost predicate MaxReached(s: Search) {
    s.maxDistance == 0 || exists o :: o in s.distances && s.distances[o] == s.maxDistance
  }

  /** Distances are lengths of chains, and only operations on the list and `current` are unsettled. */
  ghost predicate Exploring(f: Function, s: Search, current: set<nat>) {
    && s.Valid() && s.queued <= s.distances.Keys && current <= s.distances.Keys && MaxReached(s)
    && (forall o {:trigger Measured(f, s, o)} :: o in s.distances ==> Measured(f, s, o))
    && (forall o {:trigger Settled(f, s, o)} :: o in s.distances && o !in s.queued && o !in current ==>
          Settled(f, s, o))
  }

  lemma PushValid(s: Search, o: nat)
    requires s.Valid()
    ensures s.Push(o).Valid()
  {
  }

  lemma PopValid(s: Search)
    requires s.Valid() && s.queue != []
    ensures s.Pop().Valid()
  {
    var q := s.queue;
    assert q == [q[0]] + q[1..];
    assert forall i :: 1 <= i < |q| ==> q[i] == q[1..][i - 1];
  }

  lemma RelaxGrows(s: Search, o: nat, c: nat)
    requires s.Valid() && o in s.distances && o != c && MaxReached(s)
    ensures var t := s.Relax(o, c);
      && t.Valid() && MaxReached(t) && c in t.queued && t.queued == s.queued + {c}
      && t.distances.Keys == s.distances.Keys + {c}
      && t.maxDistance >= s.maxDistance && t.distances[c] <= t.maxDistance
      && t.distances[o] == s.distances[o] && t.distances[c] >= s.distances[o] + 1
      && (forall x :: x in s.distances ==> t.distances[x] >= s.distances[x])
      && (forall x :: x in s.distances && x != c ==> t.distances[x] == s.distances[x])
      && t.distances[c] == if c in s.distances && s.distances[c] >= s.distances[o] + 1 then
           s.distances[c] else s.distances[o] + 1
  {
    var t := s.Relax(o, c);
    PushValid(s.(distances := t.distances, maxDistance := t.maxDistance), c);
    if t.maxDistance != s.maxDistance {
      assert t.distances[c] == t.maxDistance;
    } else if s.maxDistance != 0 {
      var x :| x in s.distances && s.distances[x] == s.maxDistance;
      assert x != c ==> t.distances[x] == t.maxDistance;
      assert x == c ==> t.distances[c] == t.maxDistance;
    }
  }

  lemma RelaxMeasures(f: Function, s: Search, o: nat, c: nat, x: nat)
    requires f.WellFormed() && s.Valid() && MaxReached(s) && f.Feeds(o, c) && Measured(f, s, o)
    requires x in s.Relax(o, c).distances && (x in s.distances ==> Measured(f, s, x))
    ensures Measured(f, s.Relax(o, c), x)
  {
    f.FeedsForward(o, c);
    RelaxGrows(s, o, c);
    if x == c {
      f.ChainGoesOn(o, c, s.distances[o]);
    }
  }

  lemma RelaxExplores(f: Function, s: Search, o: nat, c: nat)
    requires f.WellFormed() && Exploring(f, s, {o}) && f.Feeds(o, c)
    ensures Exploring(f, s.Relax(o, c), {o})
  {
    var t := s.Relax(o, c);
    assert Measured(f, s, o);
    f.FeedsForward(o, c);
    RelaxGrows(s, o, c);
    forall x | x in t.distances
      ensures Measured(f, t, x)
    {
      assert x in s.distances ==> Measured(f, s, x);
      RelaxMeasures(f, s, o, c, x);
    }
    forall x | x in t.distances && x !in t.queued && x != o
      ensures Settled(f, t, x)
    {
      assert Settled(f, s, x);
    }
  }

  /** Users of `o` that have been visited are at a greater distance. */
  ghost predicate Visited(f: Function, s: Search, o: nat, users: set<nat>) {
    o in s.distances && forall c :: c in users ==> c in s.distances && s.distances[c] >= s.distances[o] + 1
  }

  /** All users of one value. The use list may name them in any order. */
  method VisitUsers(f: Function, start: Search, o: nat, k: nat, ghost seen: set<nat>) returns (s: Search)
    requires f.WellFormed() && Exploring(f, start, {o}) && Visited(f, start, o, seen)
    ensures Exploring(f, s, {o}) && Visited(f, s, o, seen + UsersOf(f, Result(o, k)))
    ensures s.queued <= start.queued + UserOps(f, o) && start.distances.Keys <= s.distances.Keys
  {
    s := start;
    var users := UsersOf(f, Result(o, k));
    var left := users;
    assert seen + (users - left) == seen;
    while left != {}
      invariant left <= users && Exploring(f, s, {o}) && Visited(f, s, o, seen + (users - left))
      invariant s.queued <= start.queued + UserOps(f, o) && start.distances.Keys <= s.distances.Keys
    {
      var c :| c in left;
      assert f.Feeds(o, c);
      f.FeedsForward(o, c);
      RelaxGrows(s, o, c);
      RelaxExplores(f, s, o, c);
      s := s.Relax(o, c);
      left := left - {c};
    }
    assert users - {} == users;
  }

  ghost function UsersOfResults(f: Function, o: nat, n: nat): set<nat> {
    set k: nat, c | k < n && c in UsersOf(f, Result(o, k)) :: c
  }

  lemma PopExplores(f: Function, s: Search)
    requires Exploring(f, s, {}) && s.queue != []
    ensures s.queue[0] < |f.ops| && s.queue[0] in s.queued && Exploring(f, s.Pop(), {s.queue[0]})
  {
    var o, t := s.queue[0], s.Pop();
    PopValid(s);
    assert o in s.queued && Measured(f, s, o);
    forall x | x in t.distances
      ensures Measured(f, t, x)
    {
      assert Measured(f, s, x);
    }
    forall x | x in t.distances && x !in t.queued && x != o
      ensures Settled(f, t, x)
    {
      assert Settled(f, s, x);
    }
  }

  method VisitOp(f: Function, start: Search) returns (s: Search)
    requires f.WellFormed() && Exploring(f, start, {}) && start.queue != []
    ensures Exploring(f, s, {})
    ensures TotalChains(f, s.queued, 0) < TotalChains(f, start.queued, 0) && start.distances.Keys <= s.distances.Keys
  {
    var o := start.queue[0];
    s := start.Pop();
    PopExplores(f, start);
    ghost var rest := s.queued;
    var k := 0;
    while k < f.ops[o].results
      invariant k <= f.ops[o].results && Exploring(f, s, {o}) && Visited(f, s, o, UsersOfResults(f, o, k))
      invariant s.queued <= rest + UserOps(f, o) && start.distances.Keys <= s.distances.Keys
    {
      s := VisitUsers(f, s, o, k, UsersOfResults(f, o, k));
      assert UsersOfResults(f, o, k + 1) == UsersOfResults(f, o, k) + UsersOf(f, Result(o, k));
      k := k + 1;
    }
    forall c | f.Feeds(o, c)
      ensures c in UsersOfResults(f, o, f.ops[o].results)
    {
      var j: nat :| f.Uses(c, Result(o, j));
      f.OperandDefined(c, Result(o, j));
      assert c in UsersOf(f, Result(o, j));
    }
    assert Settled(f, s, o);
    UsersWeighLess(f, start.queued, s.queued, o);
  }

  lemma SeedExplores(f: Function, s: Search, o: nat)
    requires Exploring(f, s, {}) && s.maxDistance == 0 && s.queued == s.distances.Keys && f.UsesArgument(o)
    ensures var t := s.Push(o).(distances := s.distances[o := 0]); Exploring(f, t, {}) && t.queued == t.distances.Keys
  {
    var t := s.Push(o).(distances := s.distances[o := 0]);
    PushValid(s, o);
    assert f.HasChain(o, 0);
    forall x | x in t.distances
      ensures Measured(f, t, x)
    {
      assert x != o ==> Measured(f, s, x);
    }
  }

  /** Operations on an argument are at distance 0 and wait on the list. */
  method SeedSearch(f: Function) returns (s: Search)
    requires f.WellFormed()
    ensures Exploring(f, s, {})
    ensures forall o :: f.UsesArgument(o) ==> o in s.distances
  {
    s := Search(map[], [], {}, 0);
    var a := 0;
    while a < f.arguments
      invariant a <= f.arguments && Exploring(f, s, {}) && s.maxDistance == 0 && s.queued == s.distances.Keys
      invariant forall o, b: nat :: b < a && o in UsersOf(f, Argument(b)) ==> o in s.distances
    {
      var users := UsersOf(f, Argument(a));
      var left := users;
      while left != {}
        invariant left <= users && Exploring(f, s, {}) && s.maxDistance == 0 && s.queued == s.distances.Keys
        invariant forall o, b: nat :: b < a && o in UsersOf(f, Argument(b)) ==> o in s.distances
        invariant forall o :: o in users && o !in left ==> o in s.distances
      {
        var o :| o in left;
        assert f.Uses(o, Argument(a));
        SeedExplores(f, s, o);
        s := s.Push(o);
        s := s.(distances := s.distances[o := 0]);
        left := left - {o};
      }
      a := a + 1;
    }
    forall o | f.UsesArgument(o)
      ensures o in s.distances
    {
      var b: nat :| f.Uses(o, Argument(b));
      f.OperandDefined(o, Argument(b));
      assert o in UsersOf(f, Argument(b));
    }
  }

  /** `d` is the length of the longest chain from an argument to `o`. */
  ghost predicate IsLongestChain(f: Function, o: nat, d: nat) {
    f.HasChain(o, d) && forall e: nat :: f.HasChain(o, e) ==> e <= d
  }

  lemma {:induction false} ChainsBounded(f: Function, s: Search, o: nat, d: nat)
    requires f.WellFormed() && Exploring(f, s, {}) && s.queue == [] && f.HasChain(o, d)
    requires forall x :: f.UsesArgument(x) ==> x in s.distances
    ensures o in s.distances && d <= s.distances[o]
    decreases d
  {
    if d > 0 {
      var p: nat :| p < o && f.Feeds(p, o) && f.HasChain(p, d - 1);
      ChainsBounded(f, s, p, d - 1);
      assert Settled(f, s, p);
    }
  }

  /** `getOpDistances`: the work list empties, and the distances of the operations on an activation
      path are the lengths of their longest chains. */
  method GetOpDistances(f: Function) returns (distances: map<nat, nat>, maxDistance: nat)
    requires f.WellFormed()
    ensures forall o :: o in distances <==> f.OnActivationPath(o)
    ensures forall o :: o in distances ==>
      o < |f.ops| && IsLongestChain(f, o, distances[o]) && distances[o] <= maxDistance
    ensures maxDistance == 0 || exists o :: o in distances && distances[o] == maxDistance
  {
    var s := SeedSearch(f);
    while s.queue != []
      invariant Exploring(f, s, {}) && forall o :: f.UsesArgument(o) ==> o in s.distances
      decreases TotalChains(f, s.queued, 0)
    {
      s := VisitOp(f, s);
    }
    forall o: nat, d: nat | f.HasChain(o, d)
      ensures o in s.distances && d <= s.distances[o]
    {
      ChainsBounded(f, s, o, d);
    }
    forall o | o in s.distances
      ensures o < |f.ops| && f.HasChain(o, s.distances[o]) && s.distances[o] <= s.maxDistance
    {
      assert Measured(f, s, o);
    }
    distances, maxDistance := s.distances, s.maxDistance;
  }

  /** A use leads to a greater distance. */
  lemma DistanceIncreases(f: Function, distances: map<nat, nat>, p: nat, c: nat)
    requires f.WellFormed() && f.Feeds(p, c)
    requires forall o :: o in distances <==> f.OnActivationPath(o)
    requires forall o :: o in distances ==> IsLongestChain(f, o, distances[o])
    requires p in distances
    ensures c in distances && distances[p] < distances[c]
  {
    f.ChainGoesOn(p, c, distances[p]);
  }
}
