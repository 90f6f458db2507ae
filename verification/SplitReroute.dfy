/** Step 3 of the split: barriers whose producers and consumers lie in several blocks are cut
    up, and what crossed a block boundary is routed through the sync tasks. */
module SplitReroute {
  import opened BarrierGraph
  import opened VariantBatches
  import opened SplitLayout
  import opened SplitOrder
  import opened SplitSyncBarriers

  ghost function InBlock(l: Layout, tasks: set<nat>, k: nat): set<nat> {
    set t | t in tasks && t < |l.block| && l.block[t] == k
  }

  ghost function NonSync(l: Layout, tasks: set<nat>): set<nat> {
    set t | t in tasks && t < |l.block| && !l.IsSync(t)
  }

  /** Barriers below `i` are settled: in use, with dependencies that the split allows. */
  ghost predicate SettledBelow(l: Layout, g: Graph, i: nat)
    requires Fitting(l, g) && i <= l.bars
  {
    && (forall b: nat {:trigger g.producers[b]} :: b < i ==> g.producers[b] != {})
    && (forall b: nat, p: nat, c: nat :: b < i && g.Linked(b, p, c) ==> Allowed(l, p, c))
    && (forall b: nat, p: nat {:trigger p in g.producers[b]} ::
          b < i && g.consumers[b] == {} && p in g.producers[b] ==> l.block[p] < |l.sync|)
  }

  /** The state when the barriers below `i` have been dealt with. */
  ghost predicate ReroutedTo(l: Layout, g0: Graph, g: Graph, queue: seq<nat>, i: nat) {
    && Shaped(l, g) && g0.WellFormed() && g0.InProgramOrder() && l.bars == |g0.producers| && i <= l.bars
    && |queue| == g.tasks
    && SameFrom(l, g0, g, i) && SettledBelow(l, g, i)
    && ReroutedBelow(l, g0, g, i) && LateProducersFollowSync(l, g0, g, i)
    && IdleTasksDrained(l, g0, g, queue) && IdleTasksReleased(l, g0, g, queue)
  }

  lemma LinkedNowGrows(l: Layout, g: Graph, h: Graph, b: nat, i: nat, j: nat, p: nat, c: nat)
    requires |g.producers| == |g.consumers| && Grew(l, g, h, b) && i <= b && i <= j
    requires LinkedNow(l, g, i, p, c)
    ensures LinkedNow(l, h, j, p, c)
  {
    var n: nat :| (n < i || n >= l.bars) && g.Linked(n, p, c);
    assert h.producers[n] == h.producers[n];
    assert h.Linked(n, p, c);
  }

  lemma ReroutedGrows(l: Layout, g0: Graph, g: Graph, h: Graph, i: nat, b: nat)
    requires Fitting(l, g) && Fitting(l, h) && g0.WellFormed() && g0.tasks == g.tasks == h.tasks
    requires Grew(l, g, h, b) && i <= b && ReroutedBelow(l, g0, g, i)
    ensures ReroutedBelow(l, g0, h, i)
  {
    forall x: nat, p: nat, c: nat | x < i && g0.Linked(x, p, c)
      ensures Rerouted(l, g0, h, i, x, p, c)
    {
      assert Rerouted(l, g0, g, i, x, p, c);
      if l.block[p] == l.block[c] {
        LinkedNowGrows(l, g, h, b, i, i, p, c);
      } else {
        FollowsSyncGrows(l, g, h, b, c);
        var k := l.block[p];
        if LinkedNow(l, g, i, p, l.sync[k]) {
          LinkedNowGrows(l, g, h, b, i, i, p, l.sync[k]);
        }
        assert g.producers[l.WaitBarrier(k)] <= h.producers[l.WaitBarrier(k)];
      }
    }
  }

  lemma FollowsSyncGrows(l: Layout, g: Graph, h: Graph, b: nat, c: nat)
    requires Fitting(l, g) && Fitting(l, h) && h.tasks == g.tasks && Grew(l, g, h, b) && c < g.tasks
    requires FollowsSync(l, g, c)
    ensures FollowsSync(l, h, c)
  {
    var u := l.UpdateBarrier(l.block[c] - 1);
    assert g.consumers[u] <= h.consumers[u];
  }

  lemma IdleFactsGrow(l: Layout, g0: Graph, g: Graph, h: Graph, queue: seq<nat>, b: nat)
    requires Fitting(l, g) && Fitting(l, h) && g0.WellFormed() && h.tasks == g.tasks == |queue| && Grew(l, g, h, b)
    requires IdleTasksDrained(l, g0, g, queue) && IdleTasksReleased(l, g0, g, queue)
    ensures IdleTasksDrained(l, g0, h, queue) && IdleTasksReleased(l, g0, h, queue)
  {
    forall t: nat | t < h.tasks && l.block[t] < |l.sync| && !l.IsSync(t) && UpdatesNothing(g0, t)
      ensures exists y :: DrainedBy(l, h, queue, t, y)
    {
      var y :| DrainedBy(l, g, queue, t, y);
      assert g.producers[l.WaitBarrier(l.block[t])] <= h.producers[l.WaitBarrier(l.block[t])];
      assert DrainedBy(l, h, queue, t, y);
    }
    forall t: nat | t + 1 < h.tasks && l.block[t] >= 1 && !l.IsSync(t) && AwaitsNothing(g0, t)
      ensures exists y :: ReleasedBy(l, h, queue, t, y)
    {
      var y :| ReleasedBy(l, g, queue, t, y);
      assert g.consumers[l.UpdateBarrier(l.block[t] - 1)] <= h.consumers[l.UpdateBarrier(l.block[t] - 1)];
      assert ReleasedBy(l, h, queue, t, y);
    }
  }

  lemma LateProducersGrow(l: Layout, g0: Graph, g: Graph, h: Graph, i: nat, b: nat)
    requires Fitting(l, g) && Fitting(l, h) && g0.WellFormed() && g0.tasks == g.tasks == h.tasks && Grew(l, g, h, b)
    requires LateProducersFollowSync(l, g0, g, i)
    ensures LateProducersFollowSync(l, g0, h, i)
  {
    forall x: nat, p: nat, q: nat | x < i && x < |g0.producers| && p in g0.producers[x] && q in g0.producers[x] &&
        l.block[q] < l.block[p]
      ensures FollowsSync(l, h, p)
    {
      FollowsSyncGrows(l, g, h, b, p);
    }
  }

  lemma SettledGrows(l: Layout, g: Graph, h: Graph, i: nat, b: nat)
    requires Fitting(l, g) && Fitting(l, h) && h.tasks == g.tasks && Grew(l, g, h, b) && i <= b && i <= l.bars
    requires SettledBelow(l, g, i)
    ensures SettledBelow(l, h, i)
  {
    forall x: nat | x < i
      ensures h.producers[x] == g.producers[x] && h.consumers[x] == g.consumers[x]
    {
    }
    forall x: nat, p: nat, c: nat | x < i && h.Linked(x, p, c)
      ensures Allowed(l, p, c)
    {
      assert g.Linked(x, p, c);
    }
  }

  ghost predicate TasksOf(g: Graph, tasks: set<nat>) {
    forall t :: t in tasks ==> t < g.tasks
  }

  /** What has become of a producer of a barrier that lies behind the barrier's first block. */
  ghost predicate ProducerMoved(l: Layout, g: Graph, consumers: set<nat>, p: nat)
    requires Fitting(l, g) && p < g.tasks && TasksOf(g, consumers)
  {
    var k := l.block[p];
    && FollowsSync(l, g, p)
    && (k < |l.sync| ==>
          l.IsSync(p) || p in g.producers[l.WaitBarrier(k)] || exists c :: c in consumers && l.block[c] == k)
    && (forall c :: c in consumers && l.block[c] == k ==> LinkedNow(l, g, 0, p, c))
  }

  /** The producers in blocks behind `first` and before `i` have been moved. */
  ghost predicate ProducersMoved(l: Layout, g: Graph, producers: set<nat>, consumers: set<nat>, first: nat, i: nat)
    requires Fitting(l, g) && TasksOf(g, producers) && TasksOf(g, consumers)
  {
    forall p: nat {:trigger p in producers} :: p in producers && first < l.block[p] < i ==>
      ProducerMoved(l, g, consumers, p)
  }

  /** The consumers in blocks behind `first` and before `i` follow the sync task before their block. */
  ghost predicate ConsumersMoved(l: Layout, g: Graph, consumers: set<nat>, first: nat, i: nat)
    requires Fitting(l, g) && TasksOf(g, consumers)
  {
    forall c: nat {:trigger c in consumers} :: c in consumers && first < l.block[c] < i ==> FollowsSync(l, g, c)
  }

  /** Everything about barrier `b` once its producers and consumers have been moved. */
  ghost predicate BarrierRerouted(l: Layout, g0: Graph, g: Graph, b: nat, first: nat)
    requires Fitting(l, g) && g0.WellFormed() && g0.tasks == g.tasks && b < |g0.producers| && b < l.bars
  {
    && first < |l.sync|
    && (forall p: nat {:trigger p in g0.producers[b]} :: p in g0.producers[b] ==> l.block[p] >= first)
    && ProducersMoved(l, g, g0.producers[b], g0.consumers[b], first, |l.sync| + 1)
    && ConsumersMoved(l, g, g0.consumers[b], first, |l.sync| + 1)
    && (if IsFirst(l.sync[first], InBlock(l, g0.producers[b], first))
        then g.producers[b] == {l.sync[first]} && g.consumers[b] == {}
        else g.producers[b] == InBlock(l, g0.producers[b], first) - {l.sync[first]} &&
             g.consumers[b] == InBlock(l, g0.consumers[b], first) + {l.sync[first]})
  }

  lemma OnlyTaskIsFirst(s: nat, tasks: set<nat>)
    requires tasks != {} && !IsFirst(s, tasks)
    ensures tasks - {s} != {}
  {
    assert exists t :: t in tasks;
    assert forall t :: t in tasks && t != s ==> t in tasks - {s};
  }

  lemma BarrierRoutesAllowed(l: Layout, g0: Graph, g: Graph, b: nat, first: nat)
    requires Fitting(l, g) && g0.WellFormed() && g0.tasks == g.tasks && b < |g0.producers| && b < l.bars
    requires g0.InProgramOrder()
    requires InBlock(l, g0.producers[b], first) != {}
    requires BarrierRerouted(l, g0, g, b, first)
    ensures g.producers[b] != {}
    ensures forall p: nat, c: nat :: g.Linked(b, p, c) ==> Allowed(l, p, c)
    ensures forall p :: p in g.producers[b] ==> l.block[p] < |l.sync|
  {
    var s := l.sync[first];
    var producers := InBlock(l, g0.producers[b], first);
    if !IsFirst(s, producers) {
      OnlyTaskIsFirst(s, producers);
      forall p: nat, c: nat | g.Linked(b, p, c)
        ensures Allowed(l, p, c)
      {
        if c != s {
          assert g0.Linked(b, p, c);
        }
      }
    }
  }

  lemma BarrierRoutesKept(l: Layout, g0: Graph, g: Graph, b: nat, first: nat, p: nat, c: nat)
    requires Fitting(l, g) && g0.WellFormed() && g0.tasks == g.tasks && b < |g0.producers| && b < l.bars
    requires g0.InProgramOrder()
    requires BarrierRerouted(l, g0, g, b, first) && g0.Linked(b, p, c)
    ensures Rerouted(l, g0, g, b + 1, b, p, c)
  {
    var s := l.sync[first];
    assert p in g0.producers[b] && c in g0.consumers[b] && p < c;
    if l.block[p] == first {
      assert p in InBlock(l, g0.producers[b], first);
      if l.block[c] == first {
        assert c in InBlock(l, g0.consumers[b], first);
        assert p != s;
        assert g.Linked(b, p, c);
        assert LinkedNow(l, g, b + 1, p, c);
      } else if p != s {
        assert g.Linked(b, p, s);
        assert LinkedNow(l, g, b + 1, p, s);
      }
    } else {
      assert ProducerMoved(l, g, g0.consumers[b], p);
      if l.block[p] == l.block[c] {
        var n: nat :| n >= l.bars && g.Linked(n, p, c);
        assert LinkedNow(l, g, b + 1, p, c);
      }
    }
  }

  /** Moving one barrier carries the state on to the next. */
  lemma RerouteStep(l: Layout, g0: Graph, g: Graph, h: Graph, queue: seq<nat>, b: nat, first: nat)
    requires ReroutedTo(l, g0, g, queue, b) && b < l.bars && Shaped(l, h) && h.tasks == g.tasks && Grew(l, g, h, b)
    requires InBlock(l, g0.producers[b], first) != {}
    requires BarrierRerouted(l, g0, h, b, first)
    ensures ReroutedTo(l, g0, h, queue, b + 1)
  {
    ReroutedGrows(l, g0, g, h, b, b);
    IdleFactsGrow(l, g0, g, h, queue, b);
    LateProducersGrow(l, g0, g, h, b, b);
    SettledGrows(l, g, h, b, b);
    BarrierRoutesAllowed(l, g0, h, b, first);
    forall x: nat, p: nat, c: nat | x < b + 1 && g0.Linked(x, p, c)
      ensures Rerouted(l, g0, h, b + 1, x, p, c)
    {
      if x < b {
        assert Rerouted(l, g0, h, b, x, p, c);
        ReroutedLater(l, g0, h, b, x, p, c);
      } else {
        BarrierRoutesKept(l, g0, h, b, first, p, c);
      }
    }
    StepSameFrom(l, g0, g, h, b);
    StepLateProducers(l, g0, h, b, first);
  }

  lemma ReroutedLater(l: Layout, g0: Graph, h: Graph, b: nat, x: nat, p: nat, c: nat)
    requires Fitting(l, h) && g0.WellFormed() && g0.tasks == h.tasks && g0.Linked(x, p, c)
    requires Rerouted(l, g0, h, b, x, p, c)
    ensures Rerouted(l, g0, h, b + 1, x, p, c)
  {
    if LinkedNow(l, h, b, p, c) {
      var n: nat :| (n < b || n >= l.bars) && h.Linked(n, p, c);
      assert LinkedNow(l, h, b + 1, p, c);
    }
    var k := l.block[p];
    if k < |l.sync| && LinkedNow(l, h, b, p, l.sync[k]) {
      var n: nat :| (n < b || n >= l.bars) && h.Linked(n, p, l.sync[k]);
      assert LinkedNow(l, h, b + 1, p, l.sync[k]);
    }
  }

  lemma StepSameFrom(l: Layout, g0: Graph, g: Graph, h: Graph, b: nat)
    requires SameFrom(l, g0, g, b) && Grew(l, g, h, b)
    ensures SameFrom(l, g0, h, b + 1)
  {
    forall x | b + 1 <= x < l.bars
      ensures h.producers[x] == g0.producers[x] && h.consumers[x] == g0.consumers[x]
    {
      assert g.producers[x] == g0.producers[x] && g.consumers[x] == g0.consumers[x];
      assert h.producers[x] == g.producers[x] && h.consumers[x] == g.consumers[x];
    }
  }

  lemma StepLateProducers(l: Layout, g0: Graph, h: Graph, b: nat, first: nat)
    requires Fitting(l, h) && g0.WellFormed() && g0.tasks == h.tasks && b < |g0.producers| && b < l.bars
    requires LateProducersFollowSync(l, g0, h, b) && BarrierRerouted(l, g0, h, b, first)
    ensures LateProducersFollowSync(l, g0, h, b + 1)
  {
  }

  /** A barrier within one block needs no change. */
  lemma KeepStep(l: Layout, g0: Graph, g: Graph, queue: seq<nat>, b: nat, k: nat)
    requires ReroutedTo(l, g0, g, queue, b) && b < l.bars
    requires g0.producers[b] != {} && g0.consumers[b] != {}
    requires forall t :: t in g0.producers[b] || t in g0.consumers[b] ==> l.block[t] == k
    ensures ReroutedTo(l, g0, g, queue, b + 1)
  {
    BarrierAllowed(l, g0, g, b, k);
    forall x: nat, p: nat, c: nat | x < b && g0.Linked(x, p, c)
      ensures Rerouted(l, g0, g, b + 1, x, p, c)
    {
      assert Rerouted(l, g0, g, b, x, p, c);
      ReroutedLater(l, g0, g, b, x, p, c);
    }
    assert g.producers[b] == g0.producers[b] && g.consumers[b] == g0.consumers[b];
    assert forall p: nat, c: nat :: g.Linked(b, p, c) ==> g0.Linked(b, p, c);
  }

  lemma BarrierAllowed(l: Layout, g0: Graph, g: Graph, b: nat, k: nat)
    requires Fitting(l, g) && g0.WellFormed() && g0.tasks == g.tasks && g0.InProgramOrder()
    requires b < l.bars == |g0.producers|
    requires g.producers[b] == g0.producers[b] && g.consumers[b] == g0.consumers[b]
    requires forall t :: t in g0.producers[b] || t in g0.consumers[b] ==> l.block[t] == k
    ensures forall p: nat, c: nat :: g0.Linked(b, p, c) ==> Rerouted(l, g0, g, b + 1, b, p, c) && Allowed(l, p, c)
  {
    forall p: nat, c: nat | g0.Linked(b, p, c)
      ensures Rerouted(l, g0, g, b + 1, b, p, c) && Allowed(l, p, c)
    {
      assert g.Linked(b, p, c);
      assert l.block[p] < |l.sync| ==> c <= l.sync[l.block[c]];
      assert LinkedNow(l, g, b + 1, p, c);
    }
  }
}
