/** The split of the control graph into blocks, from its check of the block size to the marks on
    the sync tasks. */
module ControlGraphSplit {
  import opened Reachability
  import opened BarrierGraph
  import opened BarrierInfoModule
  import opened ControlBlocks
  import opened SplitLayout
  import opened SplitOrder
  import opened SplitSyncBarriers
  import opened SplitIdleTasks
  import opened SplitReroute
  import opened SplitMoves
  import opened SplitWalk
  import opened SplitCleanup

  /** A task precedes the sync task that closes its block and follows the one that opens it; only
      the very last task is exempt from the latter, when it waits for nothing. */
  ghost predicate Fenced(g0: Graph, g: Graph, queue: seq<nat>, size: nat, t: nat)
    requires |g.producers| == |g.consumers| && size > 0
  {
    && (t / size + 1 < NumOfBlocks(g.tasks, size) ==> ReachesOrIs(Order(g, queue), t, SyncTask(t / size, size)))
    && (t / size >= 1 && (t + 1 < g.tasks || !AwaitsNothing(g0, t)) ==>
          Reaches(Order(g, queue), SyncTask(t / size - 1, size), t))
  }

  /** No barrier that was there keeps producers or consumers alone, and no sync task waits for a barrier
      that nobody produces. */
  ghost predicate NothingDangles(g0: Graph, g: Graph, size: nat)
    requires size > 0 && |g.producers| == |g.consumers|
  {
    && |g.producers| >= |g0.producers|
    && |g.producers| >= |g0.producers| + 2 * (NumOfBlocks(g.tasks, size) - 1)
    && (forall b :: 0 <= b < |g0.producers| ==> (g.producers[b] == {} <==> g.consumers[b] == {}))
    && forall b :: |g0.producers| <= b < |g0.producers| + 2 * (NumOfBlocks(g.tasks, size) - 1) ==>
         g.producers[b] == {} ==> g.consumers[b] == {}
  }

  /** What a split of `g0` into blocks of `size` tasks has to achieve. */
  ghost predicate IsSplitOf(g0: Graph, g: Graph, queue: seq<nat>, size: nat)
    requires |g0.producers| == |g0.consumers|
  {
    && g.WellFormed() && g.tasks == g0.tasks && size > 0 && g.InProgramOrder() && RespectsBlocks(g.Deps(), size)
    && NothingDangles(g0, g, size)
    && (forall a, c :: Reaches(Order(g0, queue), a, c) ==> Reaches(Order(g, queue), a, c))
    && (forall t: nat {:trigger Fenced(g0, g, queue, size, t)} :: t < g.tasks ==> Fenced(g0, g, queue, size, t))
  }

  /** Dependencies that the layout allows are those that the check of a split accepts. */
  lemma AllowedRespectsBlocks(l: Layout, size: nat, g: Graph)
    requires Walkable(l, size) && l.Valid() && g.WellFormed() && g.tasks == |l.block|
    requires forall b, p: nat, c: nat :: g.Linked(b, p, c) ==> Allowed(l, p, c)
    ensures g.InProgramOrder() && RespectsBlocks(g.Deps(), size)
  {
    forall p: nat, c: nat | (p, c) in g.Deps()
      ensures c / size == if (p + 1) % size == 0 then p / size + 1 else p / size
    {
      g.DepsMeansLinked(p, c);
      var b :| g.Linked(b, p, c);
      assert PositionOf(l, size, p) && PositionOf(l, size, c) && SyncPointAt(l, size, p);
    }
  }

  lemma FencedByLayout(l: Layout, g0: Graph, g: Graph, queue: seq<nat>, size: nat, t: nat)
    requires |g.producers| == |g.consumers| && size > 0 && Positions(l, size) && l.For(g.tasks, size) && t < g.tasks
    requires l.block[t] <= |l.sync|
    requires l.block[t] < |l.sync| ==> ReachesOrIs(Order(g, queue), t, l.sync[l.block[t]])
    requires l.block[t] >= 1 && (t + 1 < g.tasks || !AwaitsNothing(g0, t)) ==>
      Reaches(Order(g, queue), l.sync[l.block[t] - 1], t)
    ensures Fenced(g0, g, queue, size, t)
  {
    assert PositionOf(l, size, t);
    if t / size >= 1 {
      assert l.sync[t / size - 1] == SyncTask(t / size - 1, size);
    }
  }

  lemma TaskFenced(l: Layout, g0: Graph, g: Graph, queue: seq<nat>, size: nat, t: nat)
    requires SplitDone(l, g0, g, queue) && size > 0 && Positions(l, size) && l.For(g.tasks, size) && t < g.tasks
    ensures Fenced(g0, g, queue, size, t)
  {
    if l.block[t] < |l.sync| {
      ReachesSync(l, g0, g, queue, t);
    }
    if l.block[t] >= 1 && (t + 1 < g.tasks || !AwaitsNothing(g0, t)) {
      SyncReaches(l, g0, g, queue, t);
    }
    FencedByLayout(l, g0, g, queue, size, t);
  }

  lemma NothingIsLeft(l: Layout, g0: Graph, g: Graph, h: Graph, queue: seq<nat>, size: nat)
    requires Walkable(l, size) && l.For(g.tasks, size)
    requires Cleaned(l, g0, g, queue, l.bars) && Trimmed(g, h)
    requires NoneDangling(l, g, l.bars) && WaitsTrimmed(l, h, |l.sync|)
    ensures NothingDangles(g0, h, size)
  {
    hide Routed, OriginalsAllowed, SyncTasksChained, SplitCleanup.Pending;
    CleanedFits(l, g0, g, queue);
    forall b | l.bars <= b < l.Base() && h.producers[b] == {}
      ensures h.consumers[b] == {}
    {
      SyncBarrierTrimmed(l, g, h, b, (b - l.bars) / 2);
    }
  }

  lemma SyncBarrierTrimmed(l: Layout, g: Graph, h: Graph, b: nat, k: nat)
    requires Shaped(l, g) && Trimmed(g, h) && WaitsTrimmed(l, h, |l.sync|) && k < |l.sync| && b < |h.producers|
    requires b == l.WaitBarrier(k) || b == l.UpdateBarrier(k)
    ensures h.producers[b] == {} ==> h.consumers[b] == {}
  {
    assert WaitShape(l, g, k) && UpdateShape(l, g, k);
    assert l.sync[k] in l.sync;
  }

  lemma CleanedFits(l: Layout, g0: Graph, g: Graph, queue: seq<nat>)
    requires Cleaned(l, g0, g, queue, l.bars)
    ensures l.bars == |g0.producers| && Fitting(l, g) && Shaped(l, g)
  {
  }

  lemma DoneIsSplit(l: Layout, g0: Graph, g: Graph, h: Graph, queue: seq<nat>, size: nat)
    requires Walkable(l, size) && l.For(g.tasks, size)
    requires Cleaned(l, g0, g, queue, l.bars) && Connected(g0) && Trimmed(g, h)
    requires NoneDangling(l, g, l.bars) && WaitsTrimmed(l, h, |l.sync|)
    ensures IsSplitOf(g0, h, queue, size)
  {
    TrimmedDone(l, g0, g, h, queue);
    NothingIsLeft(l, g0, g, h, queue, size);
    forall b, p: nat, c: nat | h.Linked(b, p, c)
      ensures Allowed(l, p, c)
    {
      LinksAllowed(l, g0, g, h, queue, b, p, c);
    }
    AllowedRespectsBlocks(l, size, h);
    SplitKeepsOrder(l, g0, h, queue);
    forall t: nat | t < h.tasks
      ensures Fenced(g0, h, queue, size, t)
    {
      TaskFenced(l, g0, h, queue, size, t);
    }
  }

  lemma SyncTasksInRange(l: Layout, n: nat, size: nat)
    requires size > 0 && l.Valid() && l.For(n, size)
    ensures SyncTasksAt(l, n, size)
  {
  }

  /** Steps 1 and 2. */
  method PrepareSplit(info: BarrierInfo, size: nat, ghost l: Layout) returns (syncBars: SyncBars)
    requires info.Valid() && size >= 2 && info.controlGraphBlockSize == size && info.Graph().InProgramOrder()
    requires l.Valid() && l.For(|info.taskWaitBarriers|, size) && l.bars == |info.barrierProducerMap|
    requires Walkable(l, size)
    modifies info`barrierProducerMap, info`taskUpdateBarriers, info`barrierConsumerMap, info`taskWaitBarriers
    ensures Splitting(info, size, syncBars, l)
    ensures ReroutedTo(l, old(info.Graph()), info.Graph(), info.queue, 0)
  {
    ghost var g0 := info.Graph();
    SyncTasksInRange(l, |info.taskWaitBarriers|, size);
    syncBars := AddSyncBarriers(info, size, l);
    ReadyToLink(l, g0, info.queue);
    LinkIdleTasks(info, size, syncBars, l, g0);
    ReadyToReroute(l, g0, info.Graph(), info.queue);
  }

  lemma ReadyToReroute(l: Layout, g0: Graph, g: Graph, queue: seq<nat>)
    requires Shaped(l, g) && SameFrom(l, g0, g, 0) && g0.WellFormed() && g0.InProgramOrder()
    requires l.bars == |g0.producers| && |queue| == g.tasks
    requires IdleTasksDrained(l, g0, g, queue) && IdleTasksReleased(l, g0, g, queue)
    ensures ReroutedTo(l, g0, g, queue, 0)
  {
  }

  lemma ReadyToLink(l: Layout, g0: Graph, queue: seq<nat>)
    requires l.Valid() && g0.WellFormed() && g0.tasks == |l.block| == |queue| && l.bars == |g0.producers|
    ensures var g := AddPairs(g0, l.sync, |l.sync|);
      Shaped(l, g) && SameFrom(l, g0, g, 0) && Linking(l, g0, g, queue, 0)
  {
    PairsShaped(l, g0);
    PairsAreUnlinked(l, g0, AddPairs(g0, l.sync, |l.sync|), queue);
  }

  lemma PairsAreUnlinked(l: Layout, g0: Graph, g: Graph, queue: seq<nat>)
    requires Shaped(l, g) && SameFrom(l, g0, g, 0) && |g.producers| == l.Base() && g0.WellFormed()
    requires |queue| == g.tasks && PairsAt(l, g)
    ensures Linking(l, g0, g, queue, 0)
  {
    forall k: nat | k < |l.sync|
      ensures g.producers[l.WaitBarrier(k)] == {} && g.consumers[l.UpdateBarrier(k)] == {}
    {
      assert PairAt(g, l.WaitBarrier(k), l.sync[k]);
    }
  }

  /** Steps 4 to 6. */
  method FinishSplit(info: BarrierInfo, size: nat, numOfBlocks: nat, barriersCount: nat, syncBars: SyncBars,
                     ghost l: Layout, ghost g0: Graph)
    requires Splitting(info, size, syncBars, l) && size >= 2 && l.For(|info.taskWaitBarriers|, size)
    requires numOfBlocks == |l.sync| + 1
    requires barriersCount == l.bars && ReroutedTo(l, g0, info.Graph(), info.queue, l.bars) && Connected(g0)
    modifies info`barrierProducerMap, info`taskUpdateBarriers, info`barrierConsumerMap, info`taskWaitBarriers
    ensures info.Valid() && IsSplitOf(g0, info.Graph(), info.queue, size)
  {
    ghost var g3 := info.Graph();
    ChainSyncTasks(info, size, syncBars, l);
    ReadyToClean(l, g0, g3, info.Graph(), info.queue);
    CleanBarriers(info, size, barriersCount, syncBars, l, g0);
    ghost var g5 := info.Graph();
    TrimSyncBarriers(info, size, numOfBlocks, syncBars, l);
    DoneIsSplit(l, g0, g5, info.Graph(), info.queue, size);
  }

  /** Step 7. */
  method MarkSyncTasks(info: BarrierInfo, size: nat, numOfBlocks: nat, ghost l: Layout)
    requires size >= 2 && numOfBlocks == |l.sync| + 1 && Walkable(l, size)
    modifies info`syncTaskAttr
    ensures forall t :: t in info.syncTaskAttr <==> t in old(info.syncTaskAttr) || t in l.sync
  {
    var block := 1;
    while block < numOfBlocks
      invariant 1 <= block <= numOfBlocks
      invariant forall t :: t in info.syncTaskAttr <==> t in old(info.syncTaskAttr) || t in l.sync[..block - 1]
    {
      assert BlockAt(l, size, block);
      assert block * size - 1 == l.sync[block - 1];
      assert l.sync[..block] == l.sync[..block - 1] + [l.sync[block - 1]];
      info.syncTaskAttr := info.syncTaskAttr + {block * size - 1};
      block := block + 1;
    }
    assert l.sync[..numOfBlocks - 1] == l.sync;
  }

  ghost predicate MarkedAt(before: set<nat>, after: set<nat>, size: nat, n: nat, t: nat) {
    t in after <==> t in before || (t < n && IsSyncPosition(size, n, t))
  }

  lemma SyncTaskIsMarked(l: Layout, size: nat, t: nat)
    requires l.Valid() && Walkable(l, size)
    ensures t in l.sync <==> t < |l.block| && IsSyncPosition(size, |l.block|, t)
  {
    if t < |l.block| {
      assert SyncPointAt(l, size, t);
    }
    if t in l.sync {
      var k :| 0 <= k < |l.sync| && l.sync[k] == t;
      assert l.block[t] == k;
      assert SyncPointAt(l, size, t);
    }
  }

  /** Steps 1 to 7 on a graph that has more tasks than one block. */
  method SplitIntoBlocks(info: BarrierInfo, size: nat) returns (outcome: Outcome)
    requires info.Valid() && info.Graph().InProgramOrder() && 2 <= size < |info.taskWaitBarriers|
    modifies info`controlGraphBlockSize, info`syncTaskAttr
    modifies info`barrierProducerMap, info`taskUpdateBarriers, info`barrierConsumerMap, info`taskWaitBarriers
    ensures info.Valid() && info.controlGraphBlockSize == size
    ensures outcome == Done <==> Connected(old(info.Graph()))
    ensures outcome == Done ==> IsSplitOf(old(info.Graph()), info.Graph(), info.queue, size)
    ensures outcome == Done ==>
      forall t: nat :: MarkedAt(old(info.syncTaskAttr), info.syncTaskAttr, size, |info.taskWaitBarriers|, t)
  {
    ghost var g0 := info.Graph();
    info.controlGraphBlockSize := size;
    var numOfBlocks := NumOfBlocks(|info.taskWaitBarriers|, size);
    var barriersCount := |info.barrierProducerMap|;
    ghost var l := MakeLayout(|info.taskWaitBarriers|, size, barriersCount);
    LayoutIsWalkable(l, size);
    var syncBars := PrepareSplit(info, size, l);
    outcome := RerouteBarriers(info, size, numOfBlocks, barriersCount, syncBars, l, g0);
    if outcome == Done {
      FinishSplit(info, size, numOfBlocks, barriersCount, syncBars, l, g0);
      MarkSyncTasks(info, size, numOfBlocks, l);
      forall t: nat
        ensures t in l.sync <==> t < |info.taskWaitBarriers| && IsSyncPosition(size, |info.taskWaitBarriers|, t)
      {
        SyncTaskIsMarked(l, size, t);
      }
    }
  }

  /** `splitControlGraphToBlocks`.  The sync tasks are marked, but the list of sync tasks is not
      refreshed.  A graph in which some barrier has no producer or no consumer makes it throw half
      way. */
  method SplitControlGraphToBlocks(info: BarrierInfo, size: nat) returns (outcome: Outcome)
    requires info.Valid() && info.Graph().InProgramOrder()
    modifies info`controlGraphBlockSize, info`syncTaskAttr
    modifies info`barrierProducerMap, info`taskUpdateBarriers, info`barrierConsumerMap, info`taskWaitBarriers
    ensures info.Valid()
    ensures size < 2 || old(info.controlGraphBlockSize) > 0 ==> outcome.Thrown?
    ensures size < 2 || old(info.controlGraphBlockSize) > 0 || size >= |info.taskWaitBarriers| ==>
      && info.Graph() == old(info.Graph()) && info.syncTaskAttr == old(info.syncTaskAttr)
      && info.controlGraphBlockSize == old(info.controlGraphBlockSize)
    ensures size >= 2 && old(info.controlGraphBlockSize) == 0 && size >= |info.taskWaitBarriers| ==> outcome == Done
    ensures 2 <= size < |info.taskWaitBarriers| && old(info.controlGraphBlockSize) == 0 ==>
      info.controlGraphBlockSize == size && (outcome == Done <==> Connected(old(info.Graph())))
    ensures 2 <= size < |info.taskWaitBarriers| && outcome == Done ==>
      IsSplitOf(old(info.Graph()), info.Graph(), info.queue, size) &&
      forall t: nat :: MarkedAt(old(info.syncTaskAttr), info.syncTaskAttr, size, |info.taskWaitBarriers|, t)
  {
    if size < 2 {
      return Thrown("Minimal block size is 2");
    }
    if info.controlGraphBlockSize > 0 {
      return Thrown("Partitioning on control graph was already performed");
    }
    if size >= |info.taskWaitBarriers| {
      return Done;
    }
    outcome := SplitIntoBlocks(info, size);
  }
}
