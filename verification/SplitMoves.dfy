/** Step 3 of the split: the walk over the original barriers. */
module SplitMoves {
  import opened BarrierGraph
  import opened BarrierInfoModule
  import opened ControlBlocks
  import opened VariantBatches
  import opened ProducerBatches
  import opened SplitLayout
  import opened SplitOrder
  import opened SplitSyncBarriers
  import opened SplitIdleTasks
  import opened SplitReroute

  /** Tasks by block. */
  type BlockTasks = map<nat, set<nat>>

  /** The sync tasks around block `k`, as computed from the block size. */
  ghost predicate BlockAt(l: Layout, size: nat, k: nat) {
    (1 <= k <= |l.sync| ==> k * size - 1 == l.sync[k - 1]) && (k < |l.sync| ==> k * size + size - 1 == l.sync[k])
  }

  ghost predicate SyncPointAt(l: Layout, size: nat, t: nat)
    requires t < |l.block|
  {
    IsSyncPosition(size, |l.block|, t) <==> l.IsSync(t)
  }

  /** The layout that goes with a block size, in the terms the walk uses. */
  ghost predicate Walkable(l: Layout, size: nat) {
    && Positions(l, size)
    && (forall k: nat {:trigger BlockAt(l, size, k)} :: k <= |l.sync| ==> BlockAt(l, size, k))
    && (forall t: nat {:trigger SyncPointAt(l, size, t)} :: t < |l.block| ==> SyncPointAt(l, size, t))
  }

  lemma LayoutIsWalkable(l: Layout, size: nat)
    requires 2 <= size < |l.block| && l.For(|l.block|, size) && l.Valid()
    requires forall t: nat :: t < |l.block| ==> (l.IsSync(t) <==> IsSyncPosition(size, |l.block|, t))
    ensures Walkable(l, size)
  {
    LayoutGivesPositions(l, size);
    forall k: nat | k <= |l.sync|
      ensures BlockAt(l, size, k)
    {
      if k >= 1 {
        SyncTaskBeforeBlock(k, size);
        assert l.sync[k - 1] == SyncTask(k - 1, size);
      }
      if k < |l.sync| {
        assert l.sync[k] == SyncTask(k, size);
      }
    }
  }

  ghost predicate Splitting(info: BarrierInfo, size: nat, syncBars: SyncBars, l: Layout)
    reads info
  {
    && info.Valid() && |info.taskWaitBarriers| == |l.block| && info.controlGraphBlockSize == size
    && SyncBarsFor(l, syncBars) && Walkable(l, size)
  }

  /** The tasks of a set that are not sync points. */
  method WithoutSyncTasks(info: BarrierInfo, size: nat, syncBars: SyncBars, tasks: set<nat>, ghost l: Layout)
    returns (rest: set<nat>)
    requires Splitting(info, size, syncBars, l) && TasksOf(info.Graph(), tasks)
    ensures rest == NonSync(l, tasks)
  {
    rest := {};
    var left := tasks;
    while left != {}
      invariant left <= tasks && rest == NonSync(l, tasks - left)
    {
      var t :| t in left;
      assert SyncPointAt(l, size, t);
      if !info.IsSyncPoint(t) {
        rest := rest + {t};
      }
      left := left - {t};
    }
    assert tasks - {} == tasks;
  }

  method TasksByBlock(tasks: set<nat>, size: nat, ghost l: Layout) returns (byBlock: BlockTasks)
    requires size > 0 && Positions(l, size) && forall t :: t in tasks ==> t < |l.block|
    ensures forall k :: k in byBlock <==> InBlock(l, tasks, k) != {}
    ensures forall k :: k in byBlock ==> byBlock[k] == InBlock(l, tasks, k)
  {
    byBlock := map[];
    var left := tasks;
    while left != {}
      invariant left <= tasks
      invariant forall k :: k in byBlock <==> InBlock(l, tasks - left, k) != {}
      invariant forall k :: k in byBlock ==> byBlock[k] == InBlock(l, tasks - left, k)
    {
      var t :| t in left;
      var block := t / size;
      assert PositionOf(l, size, t);
      forall k: nat
        ensures InBlock(l, tasks - (left - {t}), k) == InBlock(l, tasks - left, k) + if k == l.block[t] then {t} else {}
      {
      }
      byBlock := byBlock[block := (if block in byBlock then byBlock[block] else {}) + {t}];
      left := left - {t};
    }
    assert tasks - {} == tasks;
  }

  /** Changing only original barrier `b` harms no sync task. */
  lemma OriginalChanged(l: Layout, g: Graph, h: Graph, b: nat)
    requires Shaped(l, g) && b < l.bars && h.WellFormed() && h.tasks == g.tasks && |h.producers| == |g.producers|
    requires h.producers == g.producers[b := h.producers[b]] && h.consumers == g.consumers[b := h.consumers[b]]
    ensures Shaped(l, h) && Grew(l, g, h, b)
  {
    forall j: nat | j < |l.sync|
      ensures WaitShape(l, h, j) && UpdateShape(l, h, j)
    {
      assert WaitShape(l, g, j) && UpdateShape(l, g, j);
    }
    forall x: nat, p: nat, c: nat | x >= l.Base() && h.Linked(x, p, c)
      ensures Allowed(l, p, c)
    {
      assert g.Linked(x, p, c);
    }
  }

  /** A new barrier may link tasks of one block. */
  lemma BarrierAdded(l: Layout, g: Graph, h: Graph, b: nat, producers: set<nat>, consumers: set<nat>)
    requires Shaped(l, g) && TasksOf(g, producers) && TasksOf(g, consumers)
    requires forall p, c :: p in producers && c in consumers ==> Allowed(l, p, c)
    requires h.tasks == g.tasks && h.producers == g.producers + [producers] && h.consumers == g.consumers + [consumers]
    ensures Shaped(l, h) && Grew(l, g, h, b)
    ensures forall p, c :: p in producers && c in consumers ==> LinkedNow(l, h, 0, p, c)
  {
    forall j: nat | j < |l.sync|
      ensures WaitShape(l, h, j) && UpdateShape(l, h, j)
    {
      assert WaitShape(l, g, j) && UpdateShape(l, g, j);
    }
    forall x: nat, p: nat, c: nat | x >= l.Base() && h.Linked(x, p, c)
      ensures Allowed(l, p, c)
    {
      assert x < |g.producers| ==> g.Linked(x, p, c);
    }
    forall p, c | p in producers && c in consumers
      ensures LinkedNow(l, h, 0, p, c)
    {
      assert h.Linked(|g.producers|, p, c);
    }
  }

  lemma ProducersMovedGrow(l: Layout, g: Graph, h: Graph, b: nat, producers: set<nat>, consumers: set<nat>,
                           first: nat, i: nat)
    requires Fitting(l, g) && Fitting(l, h) && h.tasks == g.tasks && Grew(l, g, h, b) && TasksOf(g, producers)
    requires TasksOf(g, consumers)
    requires ProducersMoved(l, g, producers, consumers, first, i)
    ensures ProducersMoved(l, h, producers, consumers, first, i)
  {
    forall p: nat | p in producers && first < l.block[p] < i
      ensures ProducerMoved(l, h, consumers, p)
    {
      ProducerMovedGrows(l, g, h, b, consumers, p);
    }
  }

  lemma ProducerMovedGrows(l: Layout, g: Graph, h: Graph, b: nat, consumers: set<nat>, p: nat)
    requires Fitting(l, g) && Fitting(l, h) && h.tasks == g.tasks && Grew(l, g, h, b) && p < g.tasks
    requires TasksOf(g, consumers)
    requires ProducerMoved(l, g, consumers, p)
    ensures ProducerMoved(l, h, consumers, p)
  {
    var k := l.block[p];
    FollowsSyncGrows(l, g, h, b, p);
    assert k < |l.sync| ==> g.producers[l.WaitBarrier(k)] <= h.producers[l.WaitBarrier(k)];
    forall c | c in consumers && l.block[c] == k
      ensures LinkedNow(l, h, 0, p, c)
    {
      LinkedNowGrows(l, g, h, b, 0, 0, p, c);
    }
  }

  lemma ConsumersMovedGrow(l: Layout, g: Graph, h: Graph, b: nat, consumers: set<nat>, first: nat, i: nat)
    requires Fitting(l, g) && Fitting(l, h) && h.tasks == g.tasks && Grew(l, g, h, b) && TasksOf(g, consumers)
    requires ConsumersMoved(l, g, consumers, first, i)
    ensures ConsumersMoved(l, h, consumers, first, i)
  {
    forall c: nat | c in consumers && first < l.block[c] < i
      ensures FollowsSync(l, h, c)
    {
      FollowsSyncGrows(l, g, h, b, c);
    }
  }

  lemma SameBlockAllowed(l: Layout, p: nat, c: nat)
    requires l.Valid() && p < c < |l.block| && l.block[p] == l.block[c]
    ensures Allowed(l, p, c)
  {
  }

  /** `last` is the last block with a producer. */
  ghost predicate LastBlock(l: Layout, producers: set<nat>, last: nat) {
    (exists q: nat :: q in producers && q < |l.block| && l.block[q] == last) &&
    forall q: nat :: q in producers && q < |l.block| ==> l.block[q] <= last
  }

  ghost predicate Precede(producers: set<nat>, consumers: set<nat>) {
    forall p: nat, c: nat :: p in producers && c in consumers ==> p < c
  }

  /** Only the last block with producers can have consumers, and the last block of all then does. */
  lemma ConsumersBehind(l: Layout, producers: set<nat>, consumers: set<nat>, last: nat, k: nat)
    requires l.Valid() && Precede(producers, consumers) && consumers != {} && LastBlock(l, producers, last)
    requires forall t :: t in producers || t in consumers ==> t < |l.block|
    requires InBlock(l, producers, k) != {}
    ensures k <= last && (k != last ==> InBlock(l, consumers, k) == {})
    ensures k >= |l.sync| ==> k == last && InBlock(l, consumers, k) != {}
  {
    var p: nat :| p in InBlock(l, producers, k);
    var q: nat :| q in producers && l.block[q] == last;
    var c: nat :| c in consumers;
    assert p < c && l.block[p] <= l.block[c];
    assert c in InBlock(l, consumers, l.block[c]);
  }

  /** Producers `moved` of block `k` now update the wait barrier of the sync task behind them. */
  method LinkToNextSync(info: BarrierInfo, size: nat, syncBars: SyncBars, b: nat, k: nat, moved: set<nat>,
                        ghost l: Layout)
    requires Splitting(info, size, syncBars, l) && Shaped(l, info.Graph()) && b < l.bars && 1 <= k < |l.sync|
    requires forall p :: p in moved ==> p < |l.block| && l.block[p] == k
    modifies info`barrierProducerMap, info`taskUpdateBarriers
    ensures Splitting(info, size, syncBars, l) && Shaped(l, info.Graph()) && Grew(l, old(info.Graph()), info.Graph(), b)
    ensures info.barrierProducerMap[b] == old(info.barrierProducerMap[b])
    ensures forall p :: p in moved ==> l.IsSync(p) || p in info.barrierProducerMap[l.WaitBarrier(k)]
  {
    assert BlockAt(l, size, k);
    var nextSync := k * size - 1 + size;
    if nextSync < |info.taskWaitBarriers| {
      var rest := WithoutSyncTasks(info, size, syncBars, moved, l);
      AddToWaitBarrier(l, info.Graph(), k, rest, b);
      info.AddProducers(syncBars[nextSync].0, rest);
    }
  }

  /** Producers `moved` and consumers `stay` of one block get a barrier of their own. */
  method GiveOwnBarrier(info: BarrierInfo, size: nat, syncBars: SyncBars, b: nat, moved: set<nat>, stay: set<nat>,
                        ghost l: Layout)
    requires Splitting(info, size, syncBars, l) && Shaped(l, info.Graph()) && b < l.bars
    requires TasksOf(info.Graph(), moved) && TasksOf(info.Graph(), stay)
    requires forall p, c :: p in moved && c in stay ==> Allowed(l, p, c)
    modifies info`barrierProducerMap, info`taskUpdateBarriers, info`barrierConsumerMap, info`taskWaitBarriers
    ensures Splitting(info, size, syncBars, l) && Shaped(l, info.Graph()) && Grew(l, old(info.Graph()), info.Graph(), b)
    ensures info.barrierProducerMap[b] == old(info.barrierProducerMap[b])
    ensures info.barrierConsumerMap[b] == old(info.barrierConsumerMap[b])
    ensures forall p, c :: p in moved && c in stay ==> LinkedNow(l, info.Graph(), 0, p, c)
  {
    ghost var g := info.Graph();
    var newBar := info.AddNewBarrier();
    info.AddProducers(newBar, moved);
    info.AddConsumers(newBar, stay);
    assert {} + moved == moved && {} + stay == stay;
    assert info.Graph().producers == g.producers + [moved];
    assert info.Graph().consumers == g.consumers + [stay];
    BarrierAdded(l, g, info.Graph(), b, moved, stay);
  }

  /** Tasks of block `k` now wait for the update barrier of the sync task before them. */
  method LinkToPreviousSync(info: BarrierInfo, size: nat, syncBars: SyncBars, b: nat, k: nat, tasks: set<nat>,
                            ghost l: Layout)
    requires Splitting(info, size, syncBars, l) && Shaped(l, info.Graph()) && b < l.bars && 1 <= k <= |l.sync|
    requires forall t :: t in tasks ==> t < |l.block| && l.block[t] == k
    modifies info`barrierConsumerMap, info`taskWaitBarriers
    ensures Splitting(info, size, syncBars, l) && Shaped(l, info.Graph()) && Grew(l, old(info.Graph()), info.Graph(), b)
    ensures info.barrierConsumerMap[b] == old(info.barrierConsumerMap[b])
    ensures forall t :: t in tasks ==> FollowsSync(l, info.Graph(), t)
  {
    assert BlockAt(l, size, k);
    var syncTask := k * size - 1;
    var rest := WithoutSyncTasks(info, size, syncBars, tasks, l);
    AddToUpdateBarrier(l, info.Graph(), k - 1, rest, b);
    info.AddConsumers(syncBars[syncTask].1, rest);
  }

  /** The producers of barrier `b` in block `k`, behind the barrier's first block, are moved. */
  method MoveProducers(info: BarrierInfo, size: nat, syncBars: SyncBars, b: nat, k: nat, moved: set<nat>,
                       stay: set<nat>, last: nat,
                       ghost l: Layout, ghost producers: set<nat>, ghost consumers: set<nat>)
    requires Splitting(info, size, syncBars, l) && Shaped(l, info.Graph()) && b < l.bars && 1 <= k <= |l.sync|
    requires TasksOf(info.Graph(), producers) && TasksOf(info.Graph(), consumers) && Precede(producers, consumers)
    requires consumers != {} && LastBlock(l, producers, last)
    requires moved == InBlock(l, producers, k) != {} && stay == InBlock(l, consumers, k)
    modifies info`barrierProducerMap, info`taskUpdateBarriers, info`barrierConsumerMap, info`taskWaitBarriers
    ensures Splitting(info, size, syncBars, l) && Shaped(l, info.Graph()) && Grew(l, old(info.Graph()), info.Graph(), b)
    ensures info.barrierProducerMap[b] == old(info.barrierProducerMap[b]) - moved
    ensures info.barrierConsumerMap[b] == old(info.barrierConsumerMap[b])
    ensures forall p :: p in moved ==> ProducerMoved(l, info.Graph(), consumers, p)
  {
    ghost var g := info.Graph();
    info.RemoveProducers(b, moved);
    ghost var g1 := info.Graph();
    OriginalChanged(l, g, g1, b);
    ConsumersBehind(l, producers, consumers, last, k);
    if k != last || stay == {} {
      LinkToNextSync(info, size, syncBars, b, k, moved, l);
    } else {
      forall p, c | p in moved && c in stay
        ensures Allowed(l, p, c)
      {
        SameBlockAllowed(l, p, c);
      }
      GiveOwnBarrier(info, size, syncBars, b, moved, stay, l);
    }
    ghost var g2 := info.Graph();
    LinkToPreviousSync(info, size, syncBars, b, k, moved, l);
    ghost var g3 := info.Graph();
    ProducersAreMoved(l, g2, g3, b, moved, consumers, k);
    GrewTransitive(l, g, g1, g2, b);
    GrewTransitive(l, g, g2, g3, b);
  }

  lemma ProducersAreMoved(l: Layout, g: Graph, h: Graph, b: nat, moved: set<nat>, consumers: set<nat>, k: nat)
    requires Fitting(l, g) && Fitting(l, h) && h.tasks == g.tasks && Grew(l, g, h, b) && TasksOf(g, moved)
    requires TasksOf(g, consumers)
    requires forall p :: p in moved ==> l.block[p] == k
    requires forall p :: p in moved ==> FollowsSync(l, h, p)
    requires InBlock(l, consumers, k) == {} && k < |l.sync| ==>
               forall p :: p in moved ==> l.IsSync(p) || p in g.producers[l.WaitBarrier(k)]
    requires forall p, c :: p in moved && c in InBlock(l, consumers, k) ==> LinkedNow(l, g, 0, p, c)
    ensures forall p :: p in moved ==> ProducerMoved(l, h, consumers, p)
  {
    forall p | p in moved
      ensures ProducerMoved(l, h, consumers, p)
    {
      if k < |l.sync| {
        assert g.producers[l.WaitBarrier(k)] <= h.producers[l.WaitBarrier(k)];
        if c :| c in InBlock(l, consumers, k) {
          assert c in consumers && l.block[c] == k;
        }
      }
      forall c | c in consumers && l.block[c] == k
        ensures LinkedNow(l, h, 0, p, c)
      {
        assert c in InBlock(l, consumers, k);
        LinkedNowGrows(l, g, h, b, 0, 0, p, c);
      }
    }
  }

  /** The tasks of block `first`, and those in blocks not yet visited. */
  ghost function Remaining(l: Layout, tasks: set<nat>, first: nat, k: nat): set<nat> {
    set t | t in tasks && t < |l.block| && (l.block[t] == first || l.block[t] >= k)
  }

  /** What barrier `b` looked like, and what was found out about it. */
  ghost predicate Crossing(l: Layout, g: Graph, b: nat, producers: set<nat>, consumers: set<nat>, first: nat) {
    && Shaped(l, g) && b < l.bars && TasksOf(g, producers) && TasksOf(g, consumers) && Precede(producers, consumers)
    && consumers != {} && first < |l.sync|
    && (forall p :: p in producers ==> l.block[p] >= first) && (forall c :: c in consumers ==> l.block[c] >= first)
  }

  ghost predicate Grouped(l: Layout, tasks: set<nat>, byBlock: BlockTasks) {
    && (forall k :: k in byBlock <==> InBlock(l, tasks, k) != {})
    && (forall k :: k in byBlock ==> byBlock[k] == InBlock(l, tasks, k))
  }

  /** The state from `g` on when the producers in blocks before `k` have been moved. */
  ghost predicate MovingProducers(l: Layout, g: Graph, h: Graph, b: nat, producers: set<nat>, consumers: set<nat>,
                                  first: nat, k: nat)
    requires |g.producers| == |g.consumers|
  {
    && Crossing(l, h, b, producers, consumers, first) && Grew(l, g, h, b)
    && h.producers[b] == Remaining(l, producers, first, k) && h.consumers[b] == consumers
    && ProducersMoved(l, h, producers, consumers, first, k)
  }

  lemma ProducersStep(l: Layout, g: Graph, h: Graph, next: Graph, b: nat, producers: set<nat>, consumers: set<nat>,
                      first: nat, k: nat)
    requires |g.producers| == |g.consumers| && MovingProducers(l, g, h, b, producers, consumers, first, k) && first < k
    requires Shaped(l, next) && Grew(l, h, next, b)
    requires next.producers[b] == h.producers[b] - InBlock(l, producers, k) && next.consumers[b] == h.consumers[b]
    requires forall p :: p in InBlock(l, producers, k) ==> ProducerMoved(l, next, consumers, p)
    ensures MovingProducers(l, g, next, b, producers, consumers, first, k + 1)
  {
    ProducersMovedGrow(l, h, next, b, producers, consumers, first, k);
    GrewTransitive(l, g, h, next, b);
    assert Remaining(l, producers, first, k) - InBlock(l, producers, k) == Remaining(l, producers, first, k + 1);
    assert forall p :: p in producers && l.block[p] == k ==> p in InBlock(l, producers, k);
  }

  lemma GrewAlready(l: Layout, g: Graph, b: nat)
    requires |g.producers| == |g.consumers|
    ensures Grew(l, g, g, b)
  {
  }

  method MoveProducersOf(info: BarrierInfo, size: nat, syncBars: SyncBars, b: nat, k: nat, byBlock: BlockTasks,
                         consumersByBlock: BlockTasks,
                         last: nat, ghost l: Layout, ghost g: Graph, ghost producers: set<nat>,
                         ghost consumers: set<nat>, ghost first: nat)
    requires Splitting(info, size, syncBars, l) && first < k <= |l.sync| && |g.producers| == |g.consumers|
    requires MovingProducers(l, g, info.Graph(), b, producers, consumers, first, k)
    requires Grouped(l, producers, byBlock) && Grouped(l, consumers, consumersByBlock) && LastBlock(l, producers, last)
    modifies info`barrierProducerMap, info`taskUpdateBarriers, info`barrierConsumerMap, info`taskWaitBarriers
    ensures Splitting(info, size, syncBars, l)
    ensures MovingProducers(l, g, info.Graph(), b, producers, consumers, first, k + 1)
  {
    ghost var h := info.Graph();
    GrewAlready(l, h, b);
    if k in byBlock {
      var stay: set<nat> := if k in consumersByBlock then consumersByBlock[k] else {};
      MoveProducers(info, size, syncBars, b, k, byBlock[k], stay, last, l, producers, consumers);
    }
    ProducersStep(l, g, h, info.Graph(), b, producers, consumers, first, k);
  }

  /** The part of the step that deals with the producers of barrier `b`. */
  method MoveAllProducers(info: BarrierInfo, size: nat, numOfBlocks: nat, syncBars: SyncBars, b: nat,
                          byBlock: BlockTasks, consumersByBlock: BlockTasks,
                          first: nat, last: nat, ghost l: Layout, ghost producers: set<nat>, ghost consumers: set<nat>)
    requires Splitting(info, size, syncBars, l) && Crossing(l, info.Graph(), b, producers, consumers, first)
    requires Grouped(l, producers, byBlock) && Grouped(l, consumers, consumersByBlock) && LastBlock(l, producers, last)
    requires numOfBlocks == |l.sync| + 1
    requires info.barrierProducerMap[b] == producers && info.barrierConsumerMap[b] == consumers
    modifies info`barrierProducerMap, info`taskUpdateBarriers, info`barrierConsumerMap, info`taskWaitBarriers
    ensures Splitting(info, size, syncBars, l)
    ensures MovingProducers(l, old(info.Graph()), info.Graph(), b, producers, consumers, first, |l.sync| + 1)
  {
    ghost var g := info.Graph();
    GrewAlready(l, g, b);
    var k := first + 1;
    assert producers == Remaining(l, producers, first, k);
    while k < numOfBlocks
      invariant first < k <= numOfBlocks && Splitting(info, size, syncBars, l)
      invariant MovingProducers(l, g, info.Graph(), b, producers, consumers, first, k)
    {
      MoveProducersOf(info, size, syncBars, b, k, byBlock, consumersByBlock, last, l, g, producers, consumers, first);
      k := k + 1;
    }
  }

  /** From `g` to `h`, only original barrier `b` has changed, and only its consumers. */
  ghost predicate DroppingConsumers(l: Layout, g: Graph, h: Graph, b: nat, consumers: set<nat>, first: nat, k: nat)
    requires |g.producers| == |g.consumers|
  {
    && Shaped(l, h) && Grew(l, g, h, b) && b < l.bars <= |g.producers|
    && h.producers[b] == g.producers[b] && h.consumers[b] == Remaining(l, consumers, first, k)
  }

  lemma DropStep(l: Layout, g: Graph, h: Graph, b: nat, consumers: set<nat>, first: nat, k: nat)
    requires |g.producers| == |g.consumers| && DroppingConsumers(l, g, h, b, consumers, first, k) && first < k
    ensures DroppingConsumers(l, g, h.RemoveConsumers(b, InBlock(l, consumers, k)), b, consumers, first, k + 1)
    ensures InBlock(l, consumers, k) == {} ==> DroppingConsumers(l, g, h, b, consumers, first, k + 1)
  {
    var next := h.RemoveConsumers(b, InBlock(l, consumers, k));
    OriginalChanged(l, h, next, b);
    GrewTransitive(l, g, h, next, b);
    assert Remaining(l, consumers, first, k) - InBlock(l, consumers, k) == Remaining(l, consumers, first, k + 1);
  }

  /** Consumers in other blocks no longer wait for barrier `b`. */
  method DropConsumers(info: BarrierInfo, size: nat, numOfBlocks: nat, syncBars: SyncBars, b: nat,
                       byBlock: BlockTasks, first: nat,
                       ghost l: Layout, ghost consumers: set<nat>)
    requires Splitting(info, size, syncBars, l) && Shaped(l, info.Graph()) && b < l.bars
    requires first + 1 < numOfBlocks == |l.sync| + 1
    requires TasksOf(info.Graph(), consumers) && Grouped(l, consumers, byBlock)
    requires info.barrierConsumerMap[b] == consumers
    requires forall c :: c in consumers ==> l.block[c] >= first
    modifies info`barrierConsumerMap, info`taskWaitBarriers
    ensures Splitting(info, size, syncBars, l)
    ensures DroppingConsumers(l, old(info.Graph()), info.Graph(), b, consumers, first, |l.sync| + 1)
  {
    ghost var g := info.Graph();
    GrewAlready(l, g, b);
    var k := first + 1;
    assert consumers == Remaining(l, consumers, first, k);
    while k < numOfBlocks
      invariant first < k <= numOfBlocks && Splitting(info, size, syncBars, l)
      invariant DroppingConsumers(l, g, info.Graph(), b, consumers, first, k)
    {
      DropStep(l, g, info.Graph(), b, consumers, first, k);
      if k in byBlock {
        info.RemoveConsumers(b, byBlock[k]);
      }
      k := k + 1;
    }
  }

  /** The sync task of the first block becomes a consumer of barrier `b`, unless it is the
      earliest producer. */
  method LinkOwnSync(info: BarrierInfo, size: nat, syncBars: SyncBars, b: nat, first: nat, producers: set<nat>,
                     ghost l: Layout)
    requires Splitting(info, size, syncBars, l) && Shaped(l, info.Graph()) && b < l.bars && first < |l.sync|
    requires producers != {}
    modifies info`barrierProducerMap, info`taskUpdateBarriers, info`barrierConsumerMap, info`taskWaitBarriers
    ensures Splitting(info, size, syncBars, l) && Shaped(l, info.Graph()) && Grew(l, old(info.Graph()), info.Graph(), b)
    ensures if IsFirst(l.sync[first], producers)
      then info.barrierProducerMap[b] == old(info.barrierProducerMap[b]) &&
        info.barrierConsumerMap[b] == old(info.barrierConsumerMap[b])
      else info.barrierProducerMap[b] == old(info.barrierProducerMap[b]) - {l.sync[first]} &&
           info.barrierConsumerMap[b] == old(info.barrierConsumerMap[b]) + {l.sync[first]}
  {
    ghost var g := info.Graph();
    assert BlockAt(l, size, first);
    var syncTask := first * size + size - 1;
    var earliest := GetMinEntry(producers);
    if earliest != syncTask {
      info.RemoveProducer(b, syncTask);
      info.AddConsumer(b, syncTask);
    }
    OriginalChanged(l, g, info.Graph(), b);
  }

  /** The state from `g` on when the consumers in blocks before `k` have been linked. */
  ghost predicate LinkingConsumers(l: Layout, g: Graph, h: Graph, b: nat, consumers: set<nat>, first: nat, k: nat)
    requires |g.producers| == |g.consumers|
  {
    && Shaped(l, h) && Grew(l, g, h, b) && b < l.bars <= |g.producers| && TasksOf(h, consumers)
    && h.producers[b] == g.producers[b] && h.consumers[b] == g.consumers[b] && ConsumersMoved(l, h, consumers, first, k)
  }

  lemma LinkStep(l: Layout, g: Graph, h: Graph, next: Graph, b: nat, consumers: set<nat>, first: nat, k: nat)
    requires |g.producers| == |g.consumers| && LinkingConsumers(l, g, h, b, consumers, first, k)
    requires Shaped(l, next) && Grew(l, h, next, b) && next.producers[b] == h.producers[b]
    requires next.consumers[b] == h.consumers[b]
    requires forall c :: c in InBlock(l, consumers, k) ==> FollowsSync(l, next, c)
    ensures LinkingConsumers(l, g, next, b, consumers, first, k + 1)
  {
    GrewTransitive(l, g, h, next, b);
    ConsumersMovedGrow(l, h, next, b, consumers, first, k);
    assert forall c :: c in consumers && l.block[c] == k ==> c in InBlock(l, consumers, k);
  }

  /** Consumers in other blocks wait for the sync task before their block. */
  method LinkConsumersToSync(info: BarrierInfo, size: nat, numOfBlocks: nat, syncBars: SyncBars, b: nat,
                             byBlock: BlockTasks, first: nat,
                             ghost l: Layout, ghost consumers: set<nat>)
    requires Splitting(info, size, syncBars, l) && Shaped(l, info.Graph()) && b < l.bars
    requires first + 1 < numOfBlocks == |l.sync| + 1
    requires TasksOf(info.Graph(), consumers) && Grouped(l, consumers, byBlock)
    modifies info`barrierConsumerMap, info`taskWaitBarriers
    ensures Splitting(info, size, syncBars, l)
    ensures LinkingConsumers(l, old(info.Graph()), info.Graph(), b, consumers, first, |l.sync| + 1)
  {
    ghost var g := info.Graph();
    GrewAlready(l, g, b);
    var k := first + 1;
    while k < numOfBlocks
      invariant first < k <= numOfBlocks && Splitting(info, size, syncBars, l)
      invariant LinkingConsumers(l, g, info.Graph(), b, consumers, first, k)
    {
      ghost var h := info.Graph();
      GrewAlready(l, h, b);
      if k in byBlock {
        LinkToPreviousSync(info, size, syncBars, b, k, byBlock[k], l);
      }
      LinkStep(l, g, h, info.Graph(), b, consumers, first, k);
      k := k + 1;
    }
  }

  lemma AllVisited(l: Layout, tasks: set<nat>, first: nat)
    requires l.Valid() && first <= |l.sync|
    ensures Remaining(l, tasks, first, |l.sync| + 1) == InBlock(l, tasks, first)
  {
  }

  lemma MovesComplete(l: Layout, g0: Graph, g: Graph, h1: Graph, h2: Graph, h3: Graph, h4: Graph, b: nat, first: nat)
    requires Fitting(l, g) && g0.WellFormed() && g0.tasks == g.tasks && b < |g0.producers| && b < l.bars
    requires g0.InProgramOrder()
    requires Crossing(l, g, b, g0.producers[b], g0.consumers[b], first) && InBlock(l, g0.producers[b], first) != {}
    requires MovingProducers(l, g, h1, b, g0.producers[b], g0.consumers[b], first, |l.sync| + 1)
    requires DroppingConsumers(l, h1, h2, b, g0.consumers[b], first, |l.sync| + 1)
    requires Shaped(l, h3) && Grew(l, h2, h3, b)
    requires var s := l.sync[first]; if IsFirst(s, InBlock(l, g0.producers[b], first))
      then h3.producers[b] == h2.producers[b] && h3.consumers[b] == h2.consumers[b]
      else h3.producers[b] == h2.producers[b] - {s} && h3.consumers[b] == h2.consumers[b] + {s}
    requires LinkingConsumers(l, h3, h4, b, g0.consumers[b], first, |l.sync| + 1)
    ensures Shaped(l, h4) && h4.tasks == g.tasks && Grew(l, g, h4, b) && BarrierRerouted(l, g0, h4, b, first)
  {
    GrewTransitive(l, h1, h2, h3, b);
    GrewTransitive(l, h1, h3, h4, b);
    GrewTransitive(l, g, h1, h4, b);
    ProducersMovedGrow(l, h1, h4, b, g0.producers[b], g0.consumers[b], first, |l.sync| + 1);
    AllVisited(l, g0.producers[b], first);
    AllVisited(l, g0.consumers[b], first);
    var s := l.sync[first];
    if IsFirst(s, InBlock(l, g0.producers[b], first)) {
      SyncProducerAlone(l, g0, b, first);
    }
  }

  /** A sync task that is the earliest producer of its block is the only one, and the barrier has no
      consumer in that block. */
  lemma SyncProducerAlone(l: Layout, g0: Graph, b: nat, first: nat)
    requires l.Valid() && g0.WellFormed() && g0.tasks == |l.block| && b < |g0.producers| && g0.InProgramOrder()
    requires first < |l.sync|
    requires IsFirst(l.sync[first], InBlock(l, g0.producers[b], first))
    ensures InBlock(l, g0.producers[b], first) == {l.sync[first]} && InBlock(l, g0.consumers[b], first) == {}
  {
    forall c | c in InBlock(l, g0.consumers[b], first)
      ensures false
    {
      assert g0.Linked(b, l.sync[first], c);
    }
  }
}
