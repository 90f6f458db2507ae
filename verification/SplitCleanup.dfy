/** Steps 5 and 6 of the split: barriers that lost their consumers, and unused sync barriers. */
module SplitCleanup {
  import opened BarrierGraph
  import opened BarrierInfoModule
  import opened SplitLayout
  import opened SplitOrder
  import opened SplitSyncBarriers
  import opened SplitIdleTasks
  import opened SplitReroute
  import opened SplitMoves

  /** What steps 2 to 4 have established about ordering. */
  ghost predicate Routed(l: Layout, g0: Graph, g: Graph, queue: seq<nat>) {
    && Fitting(l, g) && g0.WellFormed() && g0.InProgramOrder() && g0.tasks == g.tasks == |queue|
    && l.bars == |g0.producers|
    && ReroutedBelow(l, g0, g, l.bars) && LateProducersFollowSync(l, g0, g, l.bars)
    && IdleTasksDrained(l, g0, g, queue) && IdleTasksReleased(l, g0, g, queue)
  }

  ghost predicate OriginalsAllowed(l: Layout, g: Graph)
    requires Fitting(l, g)
  {
    forall b: nat, p: nat, c: nat :: b < l.bars && g.Linked(b, p, c) ==> Allowed(l, p, c)
  }

  /** Barriers from `i` on still have producers, which lie before the last sync task when there are
      no consumers. */
  ghost predicate Pending(l: Layout, g: Graph, i: nat)
    requires Fitting(l, g)
  {
    forall b: nat {:trigger g.producers[b]} :: i <= b < l.bars ==>
      g.producers[b] != {} && (g.consumers[b] == {} ==> forall p :: p in g.producers[b] ==> l.block[p] < |l.sync|)
  }

  ghost predicate Cleaned(l: Layout, g0: Graph, g: Graph, queue: seq<nat>, i: nat) {
    Shaped(l, g) && Routed(l, g0, g, queue) && SyncTasksChained(l, g) && OriginalsAllowed(l, g) && Pending(l, g, i)
  }

  /** Step 4 leaves the work of step 3 intact. */
  lemma ReadyToClean(l: Layout, g0: Graph, g: Graph, h: Graph, queue: seq<nat>)
    requires ReroutedTo(l, g0, g, queue, l.bars) && Shaped(l, h) && Grew(l, g, h, l.bars) && SyncTasksChained(l, h)
    ensures Cleaned(l, g0, h, queue, 0)
  {
    ReroutedGrows(l, g0, g, h, l.bars, l.bars);
    IdleFactsGrow(l, g0, g, h, queue, l.bars);
    LateProducersGrow(l, g0, g, h, l.bars, l.bars);
    SettledGrows(l, g, h, l.bars, l.bars);
  }

  /** Task `p` is the sync task that closes its block, or updates the wait barrier of that. */
  ghost predicate Tied(l: Layout, g: Graph, p: nat)
    requires Fitting(l, g)
  {
    p < |l.block| && l.block[p] < |l.sync| &&
    (p == l.sync[l.block[p]] || p in g.producers[l.WaitBarrier(l.block[p])])
  }

  /** Of the original barriers before `b` those without consumers are detached, their producers tied to the sync
      task behind; the other original barriers are as they were. */
  ghost predicate DetachedBelow(l: Layout, g: Graph, h: Graph, b: nat)
    requires Fitting(l, g) && Fitting(l, h)
  {
    forall x: nat {:trigger h.producers[x]} {:trigger h.consumers[x]} :: x < l.bars ==>
      if x < b && g.consumers[x] == {} then
        h.producers[x] == h.consumers[x] == {} && forall p :: p in g.producers[x] ==> Tied(l, h, p)
      else h.producers[x] == g.producers[x] && h.consumers[x] == g.consumers[x]
  }

  lemma TiedGrows(l: Layout, g: Graph, h: Graph, b: nat, p: nat)
    requires Fitting(l, g) && Fitting(l, h) && Grew(l, g, h, b) && Tied(l, g, p)
    ensures Tied(l, h, p)
  {
    assert g.producers[l.WaitBarrier(l.block[p])] <= h.producers[l.WaitBarrier(l.block[p])];
  }

  lemma TiedAllGrow(l: Layout, g: Graph, h: Graph, b: nat, tasks: set<nat>)
    requires Fitting(l, g) && Fitting(l, h) && Grew(l, g, h, b) && forall p :: p in tasks ==> Tied(l, g, p)
    ensures forall p :: p in tasks ==> Tied(l, h, p)
  {
    forall p | p in tasks
      ensures Tied(l, h, p)
    {
      TiedGrows(l, g, h, b, p);
    }
  }

  lemma NothingDetached(l: Layout, g: Graph)
    requires Fitting(l, g)
    ensures DetachedBelow(l, g, g, 0)
  {
  }

  lemma CleanedFits(l: Layout, g0: Graph, g: Graph, queue: seq<nat>, i: nat)
    requires Cleaned(l, g0, g, queue, i)
    ensures Fitting(l, g)
  {
  }

  lemma DetachedStep(l: Layout, g0: Graph, g: Graph, h: Graph, b: nat)
    requires Fitting(l, g0) && Fitting(l, g) && Fitting(l, h) && b < l.bars
    requires DetachedBelow(l, g0, g, b) && Grew(l, g, h, b)
    requires if g.consumers[b] == {} then
      h.producers[b] == h.consumers[b] == {} && forall p :: p in g.producers[b] ==> Tied(l, h, p) else
      h.producers[b] == g.producers[b] && h.consumers[b] == g.consumers[b]
    ensures DetachedBelow(l, g0, h, b + 1)
  {
    forall x: nat | x < l.bars
      ensures if x <= b && g0.consumers[x] == {} then
        h.producers[x] == h.consumers[x] == {} && forall p :: p in g0.producers[x] ==> Tied(l, h, p) else
        h.producers[x] == g0.producers[x] && h.consumers[x] == g0.consumers[x]
    {
      assert g.producers[x] == g.producers[x];
      if x < b && g0.consumers[x] == {} {
        forall p | p in g0.producers[x]
          ensures Tied(l, h, p)
        {
          TiedGrows(l, g, h, b, p);
        }
      }
    }
  }

  /** Task `t` now updates the wait barrier of the sync task behind it. */
  method LinkDetached(info: BarrierInfo, size: nat, syncBars: SyncBars, b: nat, t: nat, ghost l: Layout)
    requires Splitting(info, size, syncBars, l) && Shaped(l, info.Graph()) && b < l.bars && t < |l.block|
    requires l.block[t] < |l.sync|
    modifies info`barrierProducerMap, info`taskUpdateBarriers
    ensures Splitting(info, size, syncBars, l) && Shaped(l, info.Graph()) && Grew(l, old(info.Graph()), info.Graph(), b)
    ensures info.barrierProducerMap[b] == old(info.barrierProducerMap[b]) && Tied(l, info.Graph(), t)
  {
    assert PositionOf(l, size, t);
    GrewAlready(l, info.Graph(), b);
    var block := t / size;
    var syncTask := block * size + size - 1;
    if syncTask < |info.taskWaitBarriers| {
      if t != syncTask {
        AddToWaitBarrier(l, info.Graph(), block, {t}, b);
        info.AddProducer(syncBars[syncTask].0, t);
      }
    }
  }

  /** Producers of a barrier without consumers are linked to the sync task behind them. */
  method DetachBarrier(info: BarrierInfo, size: nat, syncBars: SyncBars, b: nat, ghost l: Layout)
    requires Splitting(info, size, syncBars, l) && Shaped(l, info.Graph()) && b < l.bars
    requires info.barrierConsumerMap[b] == {}
    requires forall p :: p in info.barrierProducerMap[b] ==> p < |l.block| && l.block[p] < |l.sync|
    modifies info`barrierProducerMap, info`taskUpdateBarriers, info`barrierConsumerMap, info`taskWaitBarriers
    ensures Splitting(info, size, syncBars, l) && Shaped(l, info.Graph()) && Grew(l, old(info.Graph()), info.Graph(), b)
    ensures info.barrierProducerMap[b] == {} && info.barrierConsumerMap[b] == {}
    ensures forall p :: p in old(info.barrierProducerMap[b]) ==> Tied(l, info.Graph(), p)
  {
    hide Tied;
    ghost var g := info.Graph();
    GrewAlready(l, g, b);
    var left := info.barrierProducerMap[b];
    while left != {}
      invariant left <= g.producers[b] && Splitting(info, size, syncBars, l) && Shaped(l, info.Graph())
      invariant Grew(l, g, info.Graph(), b)
      invariant info.barrierProducerMap[b] == g.producers[b] && info.barrierConsumerMap[b] == {}
      invariant forall p :: p in g.producers[b] && p !in left ==> Tied(l, info.Graph(), p)
    {
      var t :| t in left;
      ghost var h := info.Graph();
      LinkDetached(info, size, syncBars, b, t, l);
      GrewTransitive(l, g, h, info.Graph(), b);
      TiedAllGrow(l, h, info.Graph(), b, g.producers[b] - left);
      left := left - {t};
    }
    ghost var h := info.Graph();
    info.ResetBarrier(b);
    OriginalChanged(l, h, info.Graph(), b);
    GrewTransitive(l, g, h, info.Graph(), b);
    TiedAllGrow(l, h, info.Graph(), b, g.producers[b]);
  }

  /** A barrier without consumers links nothing, so that links survive its reset. */
  lemma LinkSurvives(l: Layout, g: Graph, h: Graph, b: nat, p: nat, c: nat)
    requires |g.producers| == |g.consumers| && b < l.bars <= |g.producers| && Grew(l, g, h, b) && g.consumers[b] == {}
    requires LinkedNow(l, g, l.bars, p, c)
    ensures LinkedNow(l, h, l.bars, p, c)
  {
    var n: nat :| g.Linked(n, p, c);
    assert h.producers[n] == h.producers[n];
    assert h.Linked(n, p, c);
  }

  lemma ReroutesSurvive(l: Layout, g0: Graph, g: Graph, h: Graph, b: nat)
    requires Fitting(l, g) && Fitting(l, h) && g0.WellFormed() && g0.tasks == g.tasks == h.tasks
    requires b < l.bars && Grew(l, g, h, b) && g.consumers[b] == {} && ReroutedBelow(l, g0, g, l.bars)
    ensures ReroutedBelow(l, g0, h, l.bars)
  {
    forall x: nat, p: nat, c: nat | x < l.bars && g0.Linked(x, p, c)
      ensures Rerouted(l, g0, h, l.bars, x, p, c)
    {
      assert Rerouted(l, g0, g, l.bars, x, p, c);
      if l.block[p] == l.block[c] {
        LinkSurvives(l, g, h, b, p, c);
      } else {
        FollowsSyncGrows(l, g, h, b, c);
        var k := l.block[p];
        if LinkedNow(l, g, l.bars, p, l.sync[k]) {
          LinkSurvives(l, g, h, b, p, l.sync[k]);
        }
        assert g.producers[l.WaitBarrier(k)] <= h.producers[l.WaitBarrier(k)];
      }
    }
  }

  lemma ChainGrows(l: Layout, g: Graph, h: Graph, b: nat)
    requires Fitting(l, g) && Fitting(l, h) && Grew(l, g, h, b) && SyncTasksChained(l, g)
    ensures SyncTasksChained(l, h)
  {
    forall k: nat | k + 1 < |l.sync|
      ensures l.sync[k + 1] in h.consumers[l.UpdateBarrier(k)]
    {
      assert g.consumers[l.UpdateBarrier(k)] <= h.consumers[l.UpdateBarrier(k)];
    }
  }

  lemma DetachStep(l: Layout, g0: Graph, g: Graph, h: Graph, queue: seq<nat>, b: nat)
    requires Cleaned(l, g0, g, queue, b) && b < l.bars && g.consumers[b] == {}
    requires Shaped(l, h) && Grew(l, g, h, b) && h.producers[b] == {} && h.consumers[b] == {}
    ensures Cleaned(l, g0, h, queue, b + 1)
  {
    ReroutesSurvive(l, g0, g, h, b);
    IdleFactsGrow(l, g0, g, h, queue, b);
    LateProducersGrow(l, g0, g, h, l.bars, b);
    ChainGrows(l, g, h, b);
    forall x: nat, p: nat, c: nat | x < l.bars && h.Linked(x, p, c)
      ensures Allowed(l, p, c)
    {
      assert g.Linked(x, p, c);
    }
    forall x: nat | b + 1 <= x < l.bars
      ensures h.producers[x] == g.producers[x] && h.consumers[x] == g.consumers[x]
    {
    }
  }

  /** The original barriers below `i` have both producers and consumers, or neither. */
  ghost predicate NoneDangling(l: Layout, g: Graph, i: nat)
    requires Fitting(l, g)
  {
    forall b: nat :: b < i && b < l.bars ==> (g.producers[b] == {} <==> g.consumers[b] == {})
  }

  lemma NoneDanglesYet(l: Layout, g: Graph)
    requires Fitting(l, g)
    ensures NoneDangling(l, g, 0)
  {
  }

  lemma DanglingStep(l: Layout, g: Graph, h: Graph, b: nat)
    requires Fitting(l, g) && Fitting(l, h) && Grew(l, g, h, b) && NoneDangling(l, g, b)
    requires b < l.bars ==> (h.producers[b] == {} <==> h.consumers[b] == {})
    ensures NoneDangling(l, h, b + 1)
  {
  }

  /** The check that ends an iteration of step 5. */
  method CheckBarrier(info: BarrierInfo, b: nat) returns (outcome: Outcome)
    requires info.Valid() && b < |info.barrierProducerMap|
    ensures outcome == Done <==> info.barrierProducerMap[b] != {} || info.barrierConsumerMap[b] == {}
  {
    if info.barrierProducerMap[b] == {} {
      if info.barrierConsumerMap[b] != {} {
        return Thrown("Barrier has no producers but has consumers");
      }
    }
    return Done;
  }

  method CleanBarrier(info: BarrierInfo, size: nat, syncBars: SyncBars, b: nat, ghost l: Layout, ghost g0: Graph)
    requires Splitting(info, size, syncBars, l) && b < l.bars && Cleaned(l, g0, info.Graph(), info.queue, b)
    modifies info`barrierProducerMap, info`taskUpdateBarriers, info`barrierConsumerMap, info`taskWaitBarriers
    ensures Splitting(info, size, syncBars, l) && Cleaned(l, g0, info.Graph(), info.queue, b + 1)
    ensures old(NoneDangling(l, info.Graph(), b)) ==> NoneDangling(l, info.Graph(), b + 1)
    ensures b < |info.barrierProducerMap| == |info.barrierConsumerMap|
    ensures (info.barrierProducerMap[b] != {} || info.barrierConsumerMap[b] == {})
    ensures Grew(l, old(info.Graph()), info.Graph(), b)
    ensures if old(info.barrierConsumerMap[b]) == {} then
      info.barrierProducerMap[b] == info.barrierConsumerMap[b] == {} &&
      forall p :: p in old(info.barrierProducerMap[b]) ==> Tied(l, info.Graph(), p) else
      info.Graph() == old(info.Graph())
  {
    hide Tied;
    ghost var g := info.Graph();
    GrewAlready(l, g, b);
    assert g.producers[b] != {};
    if info.barrierConsumerMap[b] == {} && info.barrierProducerMap[b] != {} {
      DetachBarrier(info, size, syncBars, b, l);
      DetachStep(l, g0, g, info.Graph(), info.queue, b);
    }
    if NoneDangling(l, g, b) {
      DanglingStep(l, g, info.Graph(), b);
    }
  }

  /** Step 5. Its check never fails, and no original barrier is left with producers or consumers alone. */
  method CleanBarriers(info: BarrierInfo, size: nat, barriersCount: nat, syncBars: SyncBars, ghost l: Layout,
                       ghost g0: Graph)
    requires Splitting(info, size, syncBars, l) && barriersCount == l.bars
    requires Cleaned(l, g0, info.Graph(), info.queue, 0)
    modifies info`barrierProducerMap, info`taskUpdateBarriers, info`barrierConsumerMap, info`taskWaitBarriers
    ensures Splitting(info, size, syncBars, l) && Cleaned(l, g0, info.Graph(), info.queue, l.bars)
    ensures NoneDangling(l, info.Graph(), l.bars)
    ensures DetachedBelow(l, old(info.Graph()), info.Graph(), l.bars)
  {
    hide Tied, DetachedBelow, Grew, Cleaned, NoneDangling;
    ghost var start := info.Graph();
    CleanedFits(l, g0, start, info.queue, 0);
    NothingDetached(l, start);
    NoneDanglesYet(l, start);
    var b := 0;
    while b < barriersCount
      invariant b <= barriersCount && Splitting(info, size, syncBars, l) && Cleaned(l, g0, info.Graph(), info.queue, b)
      invariant Fitting(l, info.Graph()) && DetachedBelow(l, start, info.Graph(), b)
      invariant NoneDangling(l, info.Graph(), b)
    {
      ghost var g := info.Graph();
      CleanBarrier(info, size, syncBars, b, l, g0);
      var outcome := CheckBarrier(info, b);
      assert outcome == Done;
      CleanedFits(l, g0, info.Graph(), info.queue, b + 1);
      DetachedStep(l, start, g, info.Graph(), b);
      b := b + 1;
    }
  }

  /** From `g` to `h`, only barriers without producers have changed, and only lost their consumers. */
  ghost predicate Trimmed(g: Graph, h: Graph) {
    && h.tasks == g.tasks && h.producers == g.producers && |h.consumers| == |g.consumers| == |g.producers|
    && forall b {:trigger h.consumers[b]} :: 0 <= b < |g.consumers| ==>
         h.consumers[b] == g.consumers[b] || (g.producers[b] == {} && h.consumers[b] == {})
  }

  /** The wait barriers from `k` on still have their sync task as consumer. */
  ghost predicate WaitsFrom(l: Layout, h: Graph, k: nat)
    requires l.Base() <= |h.consumers|
  {
    forall j: nat {:trigger l.sync[j]} :: k <= j < |l.sync| ==> h.consumers[l.WaitBarrier(j)] == {l.sync[j]}
  }

  /** Of the first `n` sync tasks, those that nothing leads to wait for nothing. */
  ghost predicate WaitsTrimmed(l: Layout, h: Graph, n: nat)
    requires l.Base() <= |h.consumers| == |h.producers|
  {
    forall j: nat {:trigger l.sync[j]} :: j < n && j < |l.sync| ==>
      h.consumers[l.WaitBarrier(j)] == if h.producers[l.WaitBarrier(j)] == {} then {} else {l.sync[j]}
  }

  lemma TrimStep(g: Graph, h: Graph, b: nat)
    requires Trimmed(g, h) && b < |h.producers| && h.producers[b] == {}
    ensures Trimmed(g, h.ResetBarrier(b))
  {
    assert h.producers[b := {}] == h.producers;
  }

  /** Step 6 for one sync task: both tests are made on the wait barrier. */
  method TrimPair(info: BarrierInfo, pair: (nat, nat), ghost s: nat, ghost g: Graph)
    requires info.Valid() && pair.0 < |info.barrierProducerMap| && info.barrierConsumerMap[pair.0] == {s}
    requires Trimmed(g, info.Graph())
    modifies info`barrierProducerMap, info`taskUpdateBarriers, info`barrierConsumerMap, info`taskWaitBarriers
    ensures info.Valid() && Trimmed(g, info.Graph())
    ensures info.barrierProducerMap == old(info.barrierProducerMap)
    ensures info.barrierConsumerMap[pair.0] == if info.barrierProducerMap[pair.0] == {} then {} else {s}
    ensures forall b :: 0 <= b < |info.barrierConsumerMap| && b != pair.0 ==>
      info.barrierConsumerMap[b] == old(info.barrierConsumerMap[b])
  {
    var waitBar, updateBar := pair.0, pair.0;
    if info.barrierProducerMap[waitBar] == {} {
      TrimStep(g, info.Graph(), waitBar);
      info.ResetBarrier(waitBar);
    }
    if info.barrierConsumerMap[updateBar] == {} {
      TrimStep(g, info.Graph(), updateBar);
      info.ResetBarrier(updateBar);
    }
  }

  /** Step 6. */
  method TrimSyncBarriers(info: BarrierInfo, size: nat, numOfBlocks: nat, syncBars: SyncBars, ghost l: Layout)
    requires Splitting(info, size, syncBars, l) && numOfBlocks == |l.sync| + 1 && Shaped(l, info.Graph())
    modifies info`barrierProducerMap, info`taskUpdateBarriers, info`barrierConsumerMap, info`taskWaitBarriers
    ensures info.Valid() && Trimmed(old(info.Graph()), info.Graph())
    ensures WaitsTrimmed(l, info.Graph(), |l.sync|)
  {
    ghost var g := info.Graph();
    forall k: nat | k < |l.sync|
      ensures g.consumers[l.WaitBarrier(k)] == {l.sync[k]}
    {
      assert WaitShape(l, g, k);
    }
    var block := 1;
    while block < numOfBlocks
      invariant 1 <= block <= numOfBlocks && Splitting(info, size, syncBars, l)
      invariant Trimmed(g, info.Graph()) && WaitsFrom(l, info.Graph(), block - 1)
      invariant WaitsTrimmed(l, info.Graph(), block - 1)
    {
      assert BlockAt(l, size, block);
      assert block * size - 1 == l.sync[block - 1];
      TrimPair(info, syncBars[block * size - 1], l.sync[block - 1], g);
      block := block + 1;
    }
  }

  lemma TrimmedLinks(g: Graph, h: Graph, b: int, p: nat, c: nat)
    requires Trimmed(g, h)
    ensures g.Linked(b, p, c) <==> h.Linked(b, p, c)
  {
  }

  lemma ReroutesTrimmed(l: Layout, g0: Graph, g: Graph, h: Graph)
    requires Shaped(l, g) && Fitting(l, h) && g0.WellFormed() && g0.tasks == g.tasks == h.tasks && Trimmed(g, h)
    requires ReroutedBelow(l, g0, g, l.bars)
    ensures ReroutedBelow(l, g0, h, l.bars)
  {
    forall b: nat, p: nat, c: nat | b < l.bars && g0.Linked(b, p, c)
      ensures Rerouted(l, g0, h, l.bars, b, p, c)
    {
      assert Rerouted(l, g0, g, l.bars, b, p, c);
      if l.block[p] == l.block[c] {
        var n: nat :| g.Linked(n, p, c);
        assert h.Linked(n, p, c);
      } else {
        FollowsTrimmed(l, g, h, c);
        var k := l.block[p];
        if n: nat :| g.Linked(n, p, l.sync[k]) {
          assert h.Linked(n, p, l.sync[k]);
        }
      }
    }
  }

  lemma UpdatesTrimmed(l: Layout, g: Graph, h: Graph, k: nat)
    requires Shaped(l, g) && Fitting(l, h) && Trimmed(g, h) && k < |l.sync|
    ensures h.consumers[l.UpdateBarrier(k)] == g.consumers[l.UpdateBarrier(k)]
    ensures h.producers[l.UpdateBarrier(k)] == {l.sync[k]}
  {
    assert UpdateShape(l, g, k);
  }

  lemma FollowsTrimmed(l: Layout, g: Graph, h: Graph, c: nat)
    requires Shaped(l, g) && Fitting(l, h) && Trimmed(g, h) && c < g.tasks && FollowsSync(l, g, c)
    ensures FollowsSync(l, h, c)
  {
    UpdatesTrimmed(l, g, h, l.block[c] - 1);
  }

  lemma IdleTrimmed(l: Layout, g0: Graph, g: Graph, h: Graph, queue: seq<nat>)
    requires Shaped(l, g) && Fitting(l, h) && Trimmed(g, h) && g0.WellFormed() && |queue| == g.tasks
    requires IdleTasksDrained(l, g0, g, queue) && IdleTasksReleased(l, g0, g, queue)
    ensures IdleTasksDrained(l, g0, h, queue) && IdleTasksReleased(l, g0, h, queue)
  {
    forall t: nat | t < h.tasks && l.block[t] < |l.sync| && !l.IsSync(t) && UpdatesNothing(g0, t)
      ensures exists y :: DrainedBy(l, h, queue, t, y)
    {
      var y :| DrainedBy(l, g, queue, t, y);
      assert DrainedBy(l, h, queue, t, y);
    }
    forall t: nat | t + 1 < h.tasks && l.block[t] >= 1 && !l.IsSync(t) && AwaitsNothing(g0, t)
      ensures exists y :: ReleasedBy(l, h, queue, t, y)
    {
      var y :| ReleasedBy(l, g, queue, t, y);
      UpdatesTrimmed(l, g, h, l.block[t] - 1);
      assert ReleasedBy(l, h, queue, t, y);
    }
  }

  lemma SyncBarriersTrimmed(l: Layout, g: Graph, h: Graph)
    requires Shaped(l, g) && Fitting(l, h) && Trimmed(g, h) && SyncTasksChained(l, g)
    ensures SyncBarriersLinked(l, h) && SyncTasksChained(l, h)
  {
    forall k: nat | k < |l.sync|
      ensures l.sync[k] in h.producers[l.UpdateBarrier(k)]
      ensures forall p: nat :: p in h.producers[l.WaitBarrier(k)] ==> l.sync[k] in h.consumers[l.WaitBarrier(k)]
    {
      assert WaitShape(l, g, k);
      UpdatesTrimmed(l, g, h, k);
    }
    forall k: nat | k + 1 < |l.sync|
      ensures l.sync[k + 1] in h.consumers[l.UpdateBarrier(k)]
    {
      UpdatesTrimmed(l, g, h, k);
    }
  }

  lemma TrimmedWellFormed(g: Graph, h: Graph)
    requires g.WellFormed() && Trimmed(g, h)
    ensures h.WellFormed()
  {
  }

  /** What steps 1 to 6 have achieved. */
  lemma TrimmedDone(l: Layout, g0: Graph, g: Graph, h: Graph, queue: seq<nat>)
    requires Cleaned(l, g0, g, queue, l.bars) && Connected(g0) && Trimmed(g, h)
    ensures SplitDone(l, g0, h, queue)
  {
    TrimmedWellFormed(g, h);
    ReroutesTrimmed(l, g0, g, h);
    IdleTrimmed(l, g0, g, h, queue);
    SyncBarriersTrimmed(l, g, h);
    forall b: nat, p: nat, q: nat | b < l.bars && p in g0.producers[b] && q in g0.producers[b] &&
        l.block[q] < l.block[p]
      ensures FollowsSync(l, h, p)
    {
      FollowsTrimmed(l, g, h, p);
    }
  }

  /** Every link stays in its block, or leads from a sync task into the next one. */
  lemma LinksAllowed(l: Layout, g0: Graph, g: Graph, h: Graph, queue: seq<nat>, b: int, p: nat, c: nat)
    requires Cleaned(l, g0, g, queue, l.bars) && Trimmed(g, h) && h.Linked(b, p, c)
    ensures p < |l.block| && c < |l.block| && Allowed(l, p, c)
  {
    TrimmedLinks(g, h, b, p, c);
    if l.bars <= b < l.Base() {
      var k := (b - l.bars) / 2;
      assert WaitShape(l, g, k) && UpdateShape(l, g, k);
      assert b == l.WaitBarrier(k) || b == l.UpdateBarrier(k);
      SyncLinkAllowed(l, g, k, p, c);
    }
  }

  lemma SyncLinkAllowed(l: Layout, g: Graph, k: nat, p: nat, c: nat)
    requires Shaped(l, g) && k < |l.sync| && WaitShape(l, g, k) && UpdateShape(l, g, k)
    requires g.Linked(l.WaitBarrier(k), p, c) || g.Linked(l.UpdateBarrier(k), p, c)
    ensures p < |l.block| && c < |l.block| && Allowed(l, p, c)
  {
    if !g.Linked(l.WaitBarrier(k), p, c) {
      assert p == l.sync[k] && l.block[c] == k + 1;
    }
  }
}
