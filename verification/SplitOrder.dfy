/** Why no ordering is lost when dependencies across blocks are routed through sync tasks. */
module SplitOrder {
  import opened Reachability
  import opened BarrierGraph
  import opened SplitLayout

  /** Tasks of one queue are issued in program order. */
  ghost function Fifo(queue: seq<nat>): Edges {
    set a: nat, b: nat | a < |queue| && b < |queue| && a < b && queue[a] == queue[b] :: (a, b)
  }

  /** Ordering by barriers together with the order within each queue. */
  ghost function Order(g: Graph, queue: seq<nat>): Edges
    requires |g.producers| == |g.consumers|
  {
    g.Deps() + Fifo(queue)
  }

  /** The graph belongs to the layout: tasks have blocks, and sync tasks their barriers. */
  ghost predicate Fitting(l: Layout, g: Graph) {
    l.Valid() && g.WellFormed() && g.tasks == |l.block| && l.Base() <= |g.producers|
  }

  /** Some barrier that is not among the original ones from `i` on links `p` to `c`. */
  ghost predicate LinkedNow(l: Layout, g: Graph, i: nat, p: nat, c: nat) {
    exists b: nat :: (b < i || b >= l.bars) && g.Linked(b, p, c)
  }

  /** Task `p` precedes the sync task of its block, possibly by way of a consumer in its block. */
  ghost predicate LeadsToSync(l: Layout, g0: Graph, g: Graph, i: nat, b: nat, p: nat)
    requires Fitting(l, g) && b < |g0.consumers| && p < g.tasks && (forall c :: c in g0.consumers[b] ==> c < g.tasks)
  {
    var k := l.block[p];
    k < |l.sync| &&
    (l.IsSync(p) || p in g.producers[l.WaitBarrier(k)] || LinkedNow(l, g, i, p, l.sync[k]) ||
     exists c :: c in g0.consumers[b] && l.block[c] == k)
  }

  /** Task `c` follows the sync task of the previous block. */
  ghost predicate FollowsSync(l: Layout, g: Graph, c: nat)
    requires Fitting(l, g) && c < g.tasks
  {
    l.block[c] >= 1 && (l.IsSync(c) || c in g.consumers[l.UpdateBarrier(l.block[c] - 1)])
  }

  /** What has become of the dependency of `c` on `p` through barrier `b`. */
  ghost predicate Rerouted(l: Layout, g0: Graph, g: Graph, i: nat, b: nat, p: nat, c: nat)
    requires Fitting(l, g) && g0.WellFormed() && g0.tasks == g.tasks && g0.Linked(b, p, c)
  {
    if l.block[p] == l.block[c] then LinkedNow(l, g, i, p, c)
    else LeadsToSync(l, g0, g, i, b, p) && FollowsSync(l, g, c)
  }

  ghost predicate ReroutedBelow(l: Layout, g0: Graph, g: Graph, i: nat)
    requires Fitting(l, g) && g0.WellFormed() && g0.tasks == g.tasks
  {
    forall b: nat, p: nat, c: nat :: b < i && g0.Linked(b, p, c) ==> Rerouted(l, g0, g, i, b, p, c)
  }

  /** Barriers of the sync tasks: producers of a wait barrier precede the sync task, which
      precedes the consumers of its update barrier. */
  ghost predicate SyncBarriersLinked(l: Layout, g: Graph)
    requires Fitting(l, g)
  {
    && (forall k: nat, p: nat :: k < |l.sync| && p in g.producers[l.WaitBarrier(k)] ==>
          l.sync[k] in g.consumers[l.WaitBarrier(k)])
    && (forall k: nat :: k < |l.sync| ==> l.sync[k] in g.producers[l.UpdateBarrier(k)])
  }

  /** Each sync task precedes the next one. */
  ghost predicate SyncTasksChained(l: Layout, g: Graph)
    requires Fitting(l, g)
  {
    forall k: nat :: k + 1 < |l.sync| ==> l.sync[k + 1] in g.consumers[l.UpdateBarrier(k)]
  }

  /** Task `y` is at or behind `t` in the queue and block of `t`, and precedes the sync task. */
  ghost predicate DrainedBy(l: Layout, g: Graph, queue: seq<nat>, t: nat, y: nat)
    requires Fitting(l, g) && |queue| == g.tasks && t < g.tasks
  {
    t <= y < g.tasks && l.block[y] == l.block[t] < |l.sync| && queue[y] == queue[t] &&
    y in g.producers[l.WaitBarrier(l.block[t])]
  }

  /** A task that updated no barrier has a task like that. */
  ghost predicate IdleTasksDrained(l: Layout, g0: Graph, g: Graph, queue: seq<nat>)
    requires Fitting(l, g) && |queue| == g.tasks && g0.WellFormed()
  {
    forall t: nat {:trigger UpdatesNothing(g0, t)} ::
      t < g.tasks && l.block[t] < |l.sync| && !l.IsSync(t) && UpdatesNothing(g0, t) ==>
      exists y :: DrainedBy(l, g, queue, t, y)
  }

  ghost predicate UpdatesNothing(g0: Graph, t: nat) {
    forall b: nat {:trigger g0.producers[b]} :: b < |g0.producers| ==> t !in g0.producers[b]
  }

  /** Task `y` is at or before `t` in the queue and block of `t`, and follows the previous sync task. */
  ghost predicate ReleasedBy(l: Layout, g: Graph, queue: seq<nat>, t: nat, y: nat)
    requires Fitting(l, g) && |queue| == g.tasks && t < g.tasks
  {
    y <= t && 1 <= l.block[y] == l.block[t] && queue[y] == queue[t] &&
    y in g.consumers[l.UpdateBarrier(l.block[t] - 1)]
  }

  /** A task that waited for no barrier has a task like that, the very last task excepted. */
  ghost predicate IdleTasksReleased(l: Layout, g0: Graph, g: Graph, queue: seq<nat>)
    requires Fitting(l, g) && |queue| == g.tasks && g0.WellFormed()
  {
    forall t: nat {:trigger AwaitsNothing(g0, t)} ::
      t + 1 < g.tasks && l.block[t] >= 1 && !l.IsSync(t) && AwaitsNothing(g0, t) ==>
      exists y :: ReleasedBy(l, g, queue, t, y)
  }

  ghost predicate AwaitsNothing(g0: Graph, t: nat) {
    forall b: nat {:trigger g0.consumers[b]} :: b < |g0.consumers| ==> t !in g0.consumers[b]
  }

  /** Producers of a barrier that come in a later block than another one follow the sync task
      before their block. */
  ghost predicate LateProducersFollowSync(l: Layout, g0: Graph, g: Graph, i: nat)
    requires Fitting(l, g) && g0.WellFormed() && g0.tasks == g.tasks
  {
    forall b: nat, p: nat, q: nat {:trigger p in g0.producers[b], q in g0.producers[b]} ::
      b < i && b < |g0.producers| && p in g0.producers[b] && q in g0.producers[b] && l.block[q] < l.block[p] ==>
        FollowsSync(l, g, p)
  }

  /** Every barrier has producers and consumers. */
  ghost predicate Connected(g: Graph) {
    && |g.producers| == |g.consumers|
    && forall b: nat :: b < |g.producers| ==> g.producers[b] != {} && g.consumers[b] != {}
  }

  /** What the steps of the split establish. */
  ghost predicate SplitDone(l: Layout, g0: Graph, g: Graph, queue: seq<nat>) {
    && Fitting(l, g) && g0.WellFormed() && g0.tasks == g.tasks == |queue| && l.bars == |g0.producers|
    && g0.InProgramOrder() && Connected(g0)
    && ReroutedBelow(l, g0, g, l.bars) && SyncBarriersLinked(l, g) && SyncTasksChained(l, g)
    && IdleTasksDrained(l, g0, g, queue) && IdleTasksReleased(l, g0, g, queue)
    && LateProducersFollowSync(l, g0, g, l.bars)
  }

  lemma LinkedIsOrdered(g: Graph, queue: seq<nat>, b: nat, p: nat, c: nat)
    requires |g.producers| == |g.consumers| && g.Linked(b, p, c)
    ensures Reaches(Order(g, queue), p, c)
  {
    assert (p, c) in g.Deps();
    EdgeReaches(Order(g, queue), p, c);
  }

  lemma QueueIsOrdered(g: Graph, queue: seq<nat>, a: nat, c: nat)
    requires |g.producers| == |g.consumers| && a < c < |queue| && queue[a] == queue[c]
    ensures Reaches(Order(g, queue), a, c)
  {
    assert (a, c) in Fifo(queue);
    EdgeReaches(Order(g, queue), a, c);
  }

  lemma ThroughSyncTasks(order: Edges, p: nat, first: nat, last: nat, c: nat)
    requires ReachesOrIs(order, p, first) && ReachesOrIs(order, first, last) && Reaches(order, last, c)
    ensures Reaches(order, p, c)
  {
    ChainReaches(order, first, last, c);
    ChainReaches(order, p, first, c);
  }

  lemma WaitBarrierLeadsToSync(l: Layout, g0: Graph, g: Graph, queue: seq<nat>, k: nat, p: nat)
    requires SplitDone(l, g0, g, queue) && k < |l.sync| && p in g.producers[l.WaitBarrier(k)]
    ensures Reaches(Order(g, queue), p, l.sync[k])
  {
    LinkedIsOrdered(g, queue, l.WaitBarrier(k), p, l.sync[k]);
  }

  /** Every task precedes the sync task that closes its block, by barriers and queue order. */
  lemma {:induction false} ReachesSync(l: Layout, g0: Graph, g: Graph, queue: seq<nat>, t: nat)
    requires SplitDone(l, g0, g, queue) && t < g.tasks && l.block[t] < |l.sync|
    ensures ReachesOrIs(Order(g, queue), t, l.sync[l.block[t]])
    decreases l.sync[l.block[t]] - t
  {
    var order := Order(g, queue);
    var k := l.block[t];
    if !l.IsSync(t) {
      if b: nat :| b < |g0.producers| && t in g0.producers[b] {
        var c: nat :| c in g0.consumers[b];
        assert g0.Linked(b, t, c) && Rerouted(l, g0, g, l.bars, b, t, c);
        if l.block[c] == k {
          ReachesSyncThrough(l, g0, g, queue, b, t, c);
        } else if p :| p in g0.consumers[b] && l.block[p] == k {
          assert g0.Linked(b, t, p);
          ReachesSyncThrough(l, g0, g, queue, b, t, p);
        } else if t in g.producers[l.WaitBarrier(k)] {
          WaitBarrierLeadsToSync(l, g0, g, queue, k, t);
        } else {
          var n: nat :| g.Linked(n, t, l.sync[k]);
          LinkedIsOrdered(g, queue, n, t, l.sync[k]);
        }
      } else {
        assert UpdatesNothing(g0, t);
        var y :| DrainedBy(l, g, queue, t, y);
        WaitBarrierLeadsToSync(l, g0, g, queue, k, y);
        if y != t {
          QueueIsOrdered(g, queue, t, y);
          ReachesTransitive(order, t, y, l.sync[k]);
        }
      }
    }
  }

  lemma {:induction false} ReachesSyncThrough(l: Layout, g0: Graph, g: Graph, queue: seq<nat>, b: nat, t: nat, c: nat)
    requires SplitDone(l, g0, g, queue) && t < g.tasks && l.block[t] < |l.sync|
    requires g0.Linked(b, t, c) && l.block[c] == l.block[t]
    ensures Reaches(Order(g, queue), t, l.sync[l.block[t]])
    decreases l.sync[l.block[t]] - t, 0
  {
    assert Rerouted(l, g0, g, l.bars, b, t, c);
    var n: nat :| g.Linked(n, t, c);
    LinkedIsOrdered(g, queue, n, t, c);
    ReachesSync(l, g0, g, queue, c);
    ChainReaches(Order(g, queue), t, c, l.sync[l.block[t]]);
  }

  lemma {:induction false} SyncChain(l: Layout, g0: Graph, g: Graph, queue: seq<nat>, j: nat, k: nat)
    requires SplitDone(l, g0, g, queue) && j <= k < |l.sync|
    ensures ReachesOrIs(Order(g, queue), l.sync[j], l.sync[k])
    decreases k - j
  {
    if j < k {
      SyncChain(l, g0, g, queue, j, k - 1);
      assert l.sync[(k - 1) + 1] in g.consumers[l.UpdateBarrier(k - 1)];
      LinkedIsOrdered(g, queue, l.UpdateBarrier(k - 1), l.sync[k - 1], l.sync[k]);
      ChainReaches(Order(g, queue), l.sync[j], l.sync[k - 1], l.sync[k]);
    }
  }

  lemma PreviousSyncReaches(l: Layout, g0: Graph, g: Graph, queue: seq<nat>, c: nat)
    requires SplitDone(l, g0, g, queue) && c < g.tasks && FollowsSync(l, g, c)
    ensures Reaches(Order(g, queue), l.sync[l.block[c] - 1], c)
  {
    var j := l.block[c];
    if l.IsSync(c) {
      SyncChain(l, g0, g, queue, j - 1, j);
    } else {
      LinkedIsOrdered(g, queue, l.UpdateBarrier(j - 1), l.sync[j - 1], c);
    }
  }

  /** A direct dependency of the original graph is still respected. */
  lemma DependencyKept(l: Layout, g0: Graph, g: Graph, queue: seq<nat>, b: nat, p: nat, c: nat)
    requires SplitDone(l, g0, g, queue) && g0.Linked(b, p, c)
    ensures Reaches(Order(g, queue), p, c)
  {
    assert Rerouted(l, g0, g, l.bars, b, p, c);
    if l.block[p] == l.block[c] {
      var n: nat :| g.Linked(n, p, c);
      LinkedIsOrdered(g, queue, n, p, c);
    } else {
      var i, j := l.block[p], l.block[c];
      assert i < j;
      ReachesSync(l, g0, g, queue, p);
      SyncChain(l, g0, g, queue, i, j - 1);
      PreviousSyncReaches(l, g0, g, queue, c);
      ThroughSyncTasks(Order(g, queue), p, l.sync[i], l.sync[j - 1], c);
    }
  }

  /** Whatever ran before something else by barriers and queue order still does, across any
      number of blocks. */
  lemma SplitKeepsOrder(l: Layout, g0: Graph, g: Graph, queue: seq<nat>)
    requires SplitDone(l, g0, g, queue)
    ensures forall a, c :: Reaches(Order(g0, queue), a, c) ==> Reaches(Order(g, queue), a, c)
  {
    forall a: nat, c: nat | (a, c) in Order(g0, queue)
      ensures Reaches(Order(g, queue), a, c)
    {
      if (a, c) in g0.Deps() {
        g0.DepsMeansLinked(a, c);
        var b :| g0.Linked(b, a, c);
        DependencyKept(l, g0, g, queue, b, a, c);
      } else {
        EdgeReaches(Order(g, queue), a, c);
      }
    }
    SimulatesAll(Order(g0, queue), Order(g, queue));
  }

  /** Every task of a block follows the sync task that opens it, by barriers and queue order;
      only the very last task is exempt, when it waits for nothing. */
  lemma {:induction false} SyncReaches(l: Layout, g0: Graph, g: Graph, queue: seq<nat>, t: nat)
    requires SplitDone(l, g0, g, queue) && t < g.tasks && l.block[t] >= 1
    requires t + 1 < g.tasks || !AwaitsNothing(g0, t)
    ensures Reaches(Order(g, queue), l.sync[l.block[t] - 1], t)
    decreases t
  {
    var k := l.block[t] - 1;
    if l.IsSync(t) {
      SyncChain(l, g0, g, queue, k, k + 1);
    } else if b: nat :| b < |g0.consumers| && t in g0.consumers[b] {
      SyncReachesConsumer(l, g0, g, queue, b, t);
    } else {
      assert AwaitsNothing(g0, t);
      var y :| ReleasedBy(l, g, queue, t, y);
      LinkedIsOrdered(g, queue, l.UpdateBarrier(k), l.sync[k], y);
      if y != t {
        QueueIsOrdered(g, queue, y, t);
        ReachesTransitive(Order(g, queue), l.sync[k], y, t);
      }
    }
  }

  lemma {:induction false} SyncReachesConsumer(l: Layout, g0: Graph, g: Graph, queue: seq<nat>, b: nat, t: nat)
    requires SplitDone(l, g0, g, queue) && t < g.tasks && l.block[t] >= 1 && b < |g0.consumers| && t in g0.consumers[b]
    ensures Reaches(Order(g, queue), l.sync[l.block[t] - 1], t)
    decreases t, 0
  {
    var k := l.block[t] - 1;
    var p: nat :| p in g0.producers[b];
    assert g0.Linked(b, p, t) && Rerouted(l, g0, g, l.bars, b, p, t);
    if l.block[p] == l.block[t] {
      SyncReaches(l, g0, g, queue, p);
      var n: nat :| g.Linked(n, p, t);
      LinkedIsOrdered(g, queue, n, p, t);
      ReachesTransitive(Order(g, queue), l.sync[k], p, t);
    } else {
      PreviousSyncReaches(l, g0, g, queue, t);
    }
  }
}
