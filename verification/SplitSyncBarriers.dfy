/** Steps 1, 2 and 4 of the split: barriers for the sync tasks, links for tasks without
    barriers, and the chain of the sync tasks. */
module SplitSyncBarriers {
  import opened BarrierGraph
  import opened BarrierInfoModule
  import opened SplitLayout
  import opened SplitOrder

  /** Wait and update barrier of each sync task. */
  type SyncBars = map<nat, (nat, nat)>

  ghost predicate SyncBarsFor(l: Layout, syncBars: SyncBars) {
    forall k: nat {:trigger l.sync[k]} :: k < |l.sync| ==>
      l.sync[k] in syncBars && syncBars[l.sync[k]] == (l.WaitBarrier(k), l.UpdateBarrier(k))
  }

  /** `c` may depend on `p`: it is in the same block, or in the next one behind a sync task. */
  ghost predicate Allowed(l: Layout, p: nat, c: nat)
    requires p < |l.block| && c < |l.block|
  {
    p < c && l.block[c] == if l.IsSync(p) then l.block[p] + 1 else l.block[p]
  }

  ghost predicate WaitShape(l: Layout, g: Graph, k: nat)
    requires Fitting(l, g) && k < |l.sync|
  {
    g.consumers[l.WaitBarrier(k)] == {l.sync[k]} &&
    forall p :: p in g.producers[l.WaitBarrier(k)] ==> p < |l.block| && l.block[p] == k && !l.IsSync(p)
  }

  ghost predicate UpdateShape(l: Layout, g: Graph, k: nat)
    requires Fitting(l, g) && k < |l.sync|
  {
    g.producers[l.UpdateBarrier(k)] == {l.sync[k]} &&
    forall c :: c in g.consumers[l.UpdateBarrier(k)] ==> c < |l.block| && l.block[c] == k + 1
  }

  /** Barriers of sync tasks stay within the blocks on both sides, other new ones in one block. */
  ghost predicate Shaped(l: Layout, g: Graph) {
    && Fitting(l, g)
    && (forall k: nat :: k < |l.sync| ==> WaitShape(l, g, k) && UpdateShape(l, g, k))
    && (forall b: nat, p: nat, c: nat :: b >= l.Base() && g.Linked(b, p, c) ==> Allowed(l, p, c))
  }

  /** The original barriers from `i` on are as they were. */
  ghost predicate SameFrom(l: Layout, g0: Graph, g: Graph, i: nat) {
    && |g0.producers| == |g0.consumers| == l.bars <= |g.producers| == |g.consumers| && g0.tasks == g.tasks
    && forall b {:trigger g.producers[b]} {:trigger g.consumers[b]} :: i <= b < l.bars ==>
         g.producers[b] == g0.producers[b] && g.consumers[b] == g0.consumers[b]
  }

  /** From `g` to `h`, no original barrier but `b` has changed, and no other barrier lost links. */
  ghost predicate Grew(l: Layout, g: Graph, h: Graph, b: nat)
    requires |g.producers| == |g.consumers|
  {
    && h.tasks == g.tasks && |g.producers| <= |h.producers| == |h.consumers|
    && (forall x {:trigger h.producers[x]} {:trigger h.consumers[x]} ::
      0 <= x < |g.producers| && x < l.bars && x != b ==>
          h.producers[x] == g.producers[x] && h.consumers[x] == g.consumers[x])
    && (forall x {:trigger h.producers[x]} {:trigger h.consumers[x]} :: l.bars <= x < |g.producers| ==>
          g.producers[x] <= h.producers[x] && g.consumers[x] <= h.consumers[x])
  }

  lemma GrewTransitive(l: Layout, g: Graph, h: Graph, k: Graph, b: nat)
    requires |g.producers| == |g.consumers| && Grew(l, g, h, b) && Grew(l, h, k, b)
    ensures Grew(l, g, k, b)
  {
    forall x | 0 <= x < |g.producers|
      ensures x < l.bars && x != b ==> k.producers[x] == g.producers[x] && k.consumers[x] == g.consumers[x]
      ensures l.bars <= x ==> g.producers[x] <= k.producers[x] && g.consumers[x] <= k.consumers[x]
    {
      assert h.producers[x] == h.producers[x] && h.consumers[x] == h.consumers[x];
    }
  }

  /** Tasks of the next block may be added to the consumers of a sync task's update barrier. */
  lemma AddToUpdateBarrier(l: Layout, g: Graph, k: nat, tasks: set<nat>, b: nat)
    requires Shaped(l, g) && k < |l.sync| && forall c :: c in tasks ==> c < |l.block| && l.block[c] == k + 1
    ensures var h := g.AddConsumers(l.UpdateBarrier(k), tasks); Shaped(l, h) && Grew(l, g, h, b)
  {
    var h := g.AddConsumers(l.UpdateBarrier(k), tasks);
    forall j: nat | j < |l.sync|
      ensures WaitShape(l, h, j) && UpdateShape(l, h, j)
    {
      assert WaitShape(l, g, j) && UpdateShape(l, g, j);
    }
    forall x: nat, p: nat, c: nat | x >= l.Base() && h.Linked(x, p, c)
      ensures Allowed(l, p, c)
    {
      assert g.Linked(x, p, c);
    }
  }

  /** Tasks of a block may be added to the producers of its sync task's wait barrier. */
  lemma AddToWaitBarrier(l: Layout, g: Graph, k: nat, tasks: set<nat>, b: nat)
    requires Shaped(l, g) && k < |l.sync|
    requires forall p :: p in tasks ==> p < |l.block| && l.block[p] == k && !l.IsSync(p)
    ensures var h := g.AddProducers(l.WaitBarrier(k), tasks); Shaped(l, h) && Grew(l, g, h, b)
  {
    var h := g.AddProducers(l.WaitBarrier(k), tasks);
    forall j: nat | j < |l.sync|
      ensures WaitShape(l, h, j) && UpdateShape(l, h, j)
    {
      assert WaitShape(l, g, j) && UpdateShape(l, g, j);
    }
    forall x: nat, p: nat, c: nat | x >= l.Base() && h.Linked(x, p, c)
      ensures Allowed(l, p, c)
    {
      assert g.Linked(x, p, c);
    }
  }

  /** A wait barrier consumed by sync task `s`, and an update barrier produced by it. */
  function AddPair(g: Graph, s: nat): Graph {
    g.(producers := g.producers + [{}, {s}], consumers := g.consumers + [{s}, {}])
  }

  function AddPairs(g: Graph, sync: seq<nat>, k: nat): Graph
    requires k <= |sync|
  {
    if k == 0 then g else AddPair(AddPairs(g, sync, k - 1), sync[k - 1])
  }

  /** Barriers `b` and `b + 1` are the wait and update barrier of sync task `s`. */
  ghost predicate PairAt(g: Graph, b: nat, s: nat) {
    && b + 1 < |g.producers| == |g.consumers|
    && g.producers[b] == {} && g.consumers[b] == {s} && g.producers[b + 1] == {s} && g.consumers[b + 1] == {}
  }

  lemma {:induction false} PairsInPlace(g: Graph, sync: seq<nat>, k: nat)
    requires k <= |sync| && |g.producers| == |g.consumers|
    ensures var h := AddPairs(g, sync, k);
      && h.tasks == g.tasks && |h.producers| == |h.consumers| == |g.producers| + 2 * k
      && g.producers <= h.producers && g.consumers <= h.consumers
      && (forall j: nat {:trigger sync[j]} :: j < k ==> PairAt(h, |g.producers| + 2 * j, sync[j]))
  {
    if k > 0 {
      PairsInPlace(g, sync, k - 1);
      var before, h := AddPairs(g, sync, k - 1), AddPairs(g, sync, k);
      assert PairAt(h, |before.producers|, sync[k - 1]);
      forall j: nat | j < k - 1
        ensures PairAt(h, |g.producers| + 2 * j, sync[j])
      {
        assert PairAt(before, |g.producers| + 2 * j, sync[j]);
      }
    }
  }

  ghost predicate PairsAt(l: Layout, g: Graph) {
    forall k: nat :: k < |l.sync| ==> PairAt(g, l.WaitBarrier(k), l.sync[k])
  }

  lemma PairsAtBarriers(l: Layout, g: Graph)
    requires |g.producers| == |g.consumers| == l.bars
    ensures PairsAt(l, AddPairs(g, l.sync, |l.sync|))
  {
    var h := AddPairs(g, l.sync, |l.sync|);
    PairsInPlace(g, l.sync, |l.sync|);
    forall k: nat | k < |l.sync|
      ensures PairAt(h, l.WaitBarrier(k), l.sync[k])
    {
      var s := l.sync[k];
    }
  }

  lemma PairsShaped(l: Layout, g: Graph)
    requires l.Valid() && g.WellFormed() && g.tasks == |l.block| && l.bars == |g.producers|
    ensures var h := AddPairs(g, l.sync, |l.sync|);
      Shaped(l, h) && SameFrom(l, g, h, 0) && |h.producers| == l.Base() && PairsAt(l, h)
  {
    var h := AddPairs(g, l.sync, |l.sync|);
    PairsInPlace(g, l.sync, |l.sync|);
    PairsAtBarriers(l, g);
    PairsWellFormed(l, g, h);
    PairsHaveShapes(l, h);
  }

  lemma PairsHaveShapes(l: Layout, h: Graph)
    requires Fitting(l, h) && |h.producers| == l.Base() && PairsAt(l, h)
    ensures Shaped(l, h)
  {
    forall k: nat | k < |l.sync|
      ensures WaitShape(l, h, k) && UpdateShape(l, h, k)
    {
      assert PairAt(h, l.WaitBarrier(k), l.sync[k]);
    }
  }

  lemma PairsWellFormed(l: Layout, g: Graph, h: Graph)
    requires l.Valid() && g.WellFormed() && g.tasks == h.tasks == |l.block| && l.bars == |g.producers|
    requires g.producers <= h.producers && g.consumers <= h.consumers && |h.producers| == |h.consumers| == l.Base()
    requires PairsAt(l, h)
    ensures h.WellFormed()
  {
    forall b: nat, t: nat | b < |h.producers| && (t in h.producers[b] || t in h.consumers[b])
      ensures t < h.tasks
    {
      if b >= l.bars {
        var k := (b - l.bars) / 2;
        assert PairAt(h, l.WaitBarrier(k), l.sync[k]);
        assert b == l.WaitBarrier(k) || b == l.UpdateBarrier(k);
      }
    }
  }

  method AddSyncBarrierPair(info: BarrierInfo, syncTask: nat) returns (waitBarrier: nat, updateBarrier: nat)
    requires info.Valid() && syncTask < |info.taskWaitBarriers|
    modifies info`barrierProducerMap, info`taskUpdateBarriers, info`barrierConsumerMap, info`taskWaitBarriers
    ensures info.Valid() && info.Graph() == AddPair(old(info.Graph()), syncTask)
    ensures waitBarrier == |old(info.barrierProducerMap)| && updateBarrier == waitBarrier + 1
  {
    waitBarrier := info.AddNewBarrier();
    info.AddConsumer(waitBarrier, syncTask);
    updateBarrier := info.AddNewBarrier();
    info.AddProducer(updateBarrier, syncTask);
    assert {} + {syncTask} == {syncTask};
    assert info.Graph().consumers == AddPair(old(info.Graph()), syncTask).consumers;
    assert info.Graph().producers == AddPair(old(info.Graph()), syncTask).producers;
  }

  lemma SyncTaskBeforeBlock(block: nat, size: nat)
    requires block >= 1 && size >= 1
    ensures block * size - 1 == SyncTask(block - 1, size)
  {
  }

  lemma {:induction false} SyncTasksDiffer(j: nat, k: nat, size: nat)
    requires size >= 1 && j < k
    ensures SyncTask(j, size) < SyncTask(k, size)
    decreases k
  {
    assert k * size == (k - 1) * size + size;
    if j < k - 1 {
      SyncTasksDiffer(j, k - 1, size);
    }
  }

  ghost predicate SyncTasksAt(l: Layout, n: nat, size: nat) {
    size > 0 && forall k: nat {:trigger l.sync[k]} :: k < |l.sync| ==> l.sync[k] == SyncTask(k, size) && l.sync[k] < n
  }

  /** The first `k` sync tasks have their barriers. */
  ghost predicate SyncBarsBelow(l: Layout, syncBars: SyncBars, k: nat) {
    forall j: nat {:trigger l.sync[j]} :: j < k && j < |l.sync| ==>
      l.sync[j] in syncBars && syncBars[l.sync[j]] == (l.WaitBarrier(j), l.UpdateBarrier(j))
  }

  lemma SyncBarsStep(l: Layout, n: nat, size: nat, syncBars: SyncBars, k: nat)
    requires k < |l.sync| && SyncTasksAt(l, n, size)
    requires SyncBarsBelow(l, syncBars, k)
    ensures SyncBarsBelow(l, syncBars[l.sync[k] := (l.WaitBarrier(k), l.UpdateBarrier(k))], k + 1)
  {
    forall j: nat | j < k
      ensures l.sync[j] != l.sync[k]
    {
      SyncTasksDiffer(j, k, size);
    }
  }

  /** Step 1: a wait and an update barrier for every sync task. */
  method AddSyncBarriers(info: BarrierInfo, size: nat, ghost l: Layout) returns (syncBars: SyncBars)
    requires info.Valid() && size >= 2 && |l.sync| + 1 == NumOfBlocks(|info.taskWaitBarriers|, size)
    requires l.bars == |info.barrierProducerMap|
    requires SyncTasksAt(l, |info.taskWaitBarriers|, size)
    modifies info`barrierProducerMap, info`taskUpdateBarriers, info`barrierConsumerMap, info`taskWaitBarriers
    ensures info.Valid() && info.Graph() == AddPairs(old(info.Graph()), l.sync, |l.sync|)
    ensures SyncBarsFor(l, syncBars)
  {
    ghost var g0 := info.Graph();
    var numOfBlocks := NumOfBlocks(|info.taskWaitBarriers|, size);
    syncBars := map[];
    var block := 1;
    while block < numOfBlocks
      invariant 1 <= block <= numOfBlocks && info.Valid() && |info.taskWaitBarriers| == g0.tasks
      invariant info.Graph() == AddPairs(g0, l.sync, block - 1) && |info.barrierProducerMap| == l.WaitBarrier(block - 1)
      invariant SyncBarsBelow(l, syncBars, block - 1)
    {
      var syncTask := block * size - 1;
      SyncTaskBeforeBlock(block, size);
      assert syncTask == l.sync[block - 1];
      SyncBarsStep(l, g0.tasks, size, syncBars, block - 1);
      var waitBarrier, updateBarrier := AddSyncBarrierPair(info, syncTask);
      syncBars := syncBars[syncTask := (waitBarrier, updateBarrier)];
      block := block + 1;
    }
  }

  method ChainPair(info: BarrierInfo, syncBars: SyncBars, syncTask: nat, nextSyncTask: nat, ghost l: Layout,
                   ghost k: nat)
    requires info.Valid() && Shaped(l, info.Graph()) && SyncBarsFor(l, syncBars)
    requires k + 1 < |l.sync| && syncTask == l.sync[k] && nextSyncTask == l.sync[k + 1]
    requires ChainedBelow(l, info.Graph(), k + 1)
    modifies info`barrierConsumerMap, info`taskWaitBarriers
    ensures info.Valid() && Shaped(l, info.Graph()) && Grew(l, old(info.Graph()), info.Graph(), l.bars)
    ensures ChainedBelow(l, info.Graph(), k + 2)
  {
    AddToUpdateBarrier(l, info.Graph(), k, {nextSyncTask}, l.bars);
    info.AddConsumer(syncBars[syncTask].1, nextSyncTask);
  }

  /** Step 4: each sync task precedes the next one. */
  method ChainSyncTasks(info: BarrierInfo, size: nat, syncBars: SyncBars, ghost l: Layout)
    requires info.Valid() && size >= 2 && l.For(|info.taskWaitBarriers|, size)
    requires Shaped(l, info.Graph()) && SyncBarsFor(l, syncBars)
    modifies info`barrierConsumerMap, info`taskWaitBarriers
    ensures info.Valid() && Shaped(l, info.Graph()) && SyncTasksChained(l, info.Graph())
    ensures Grew(l, old(info.Graph()), info.Graph(), l.bars)
  {
    ghost var g := info.Graph();
    var numOfBlocks := NumOfBlocks(|info.taskWaitBarriers|, size);
    var block := 2;
    while block < numOfBlocks
      invariant 2 <= block && info.Valid() && Shaped(l, info.Graph()) && Grew(l, g, info.Graph(), l.bars)
      invariant ChainedBelow(l, info.Graph(), block - 1)
    {
      SyncTaskBeforeBlock(block - 1, size);
      SyncTaskBeforeBlock(block, size);
      assert l.sync[block - 2] == SyncTask(block - 2, size) && l.sync[block - 1] == SyncTask(block - 1, size);
      ghost var h := info.Graph();
      ChainPair(info, syncBars, (block - 1) * size - 1, block * size - 1, l, block - 2);
      GrewTransitive(l, g, h, info.Graph(), l.bars);
      block := block + 1;
    }
  }

  ghost predicate ChainedBelow(l: Layout, g: Graph, n: nat)
    requires Fitting(l, g)
  {
    forall k: nat :: k + 1 < |l.sync| && k + 1 < n ==> l.sync[k + 1] in g.consumers[l.UpdateBarrier(k)]
  }
}
