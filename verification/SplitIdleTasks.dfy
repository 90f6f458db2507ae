/** Step 2 of the split: on each queue of a block, the last task that updates no barrier is
    linked to the sync task behind it, and the first one that waits for none to the sync task
    before it. */
module SplitIdleTasks {
  import opened BarrierGraph
  import opened BarrierInfoModule
  import opened SplitLayout
  import opened SplitOrder
  import opened SplitSyncBarriers

  /** One task per queue. */
  type QueueTasks = map<nat, nat>

  /** What is known at every task of the walk: only tasks below `t` have been linked. */
  ghost predicate Linking(l: Layout, g0: Graph, g: Graph, queue: seq<nat>, t: nat) {
    && Shaped(l, g) && SameFrom(l, g0, g, 0) && |g.producers| == l.Base() && g0.WellFormed() && |queue| == g.tasks
    && t <= g.tasks
    && (forall k: nat, p: nat :: k < |l.sync| && p in g.producers[l.WaitBarrier(k)] ==> p < t)
    && (forall k: nat, c: nat :: k < |l.sync| && c in g.consumers[l.UpdateBarrier(k)] ==> c < t)
  }

  /** `last` holds, for the block of `t`, the last task so far of each queue with no update barrier. */
  ghost predicate LastTasks(l: Layout, g0: Graph, g: Graph, queue: seq<nat>, last: QueueTasks, t: nat)
    requires Linking(l, g0, g, queue, t)
  {
    && (forall q {:trigger last[q]} :: q in last ==>
          last[q] < t && queue[last[q]] == q && l.block[last[q]] < |l.sync| && !l.IsSync(last[q]) &&
          t < g.tasks && l.block[last[q]] == l.block[t])
    && (forall u: nat {:trigger UpdatesNothing(g0, u)} ::
      u < t && l.block[u] < |l.sync| && !l.IsSync(u) && UpdatesNothing(g0, u) ==>
          (exists y :: DrainedBy(l, g, queue, u, y)) || Pending(l, queue, last, u))
  }

  ghost predicate Pending(l: Layout, queue: seq<nat>, last: QueueTasks, u: nat)
    requires u < |queue| == |l.block|
  {
    queue[u] in last && u <= last[queue[u]] < |l.block| && l.block[last[queue[u]]] == l.block[u]
  }

  /** `first` holds, for the block of `t`, the first task of each queue with no wait barrier. */
  ghost predicate FirstTasks(l: Layout, g0: Graph, g: Graph, queue: seq<nat>, first: QueueTasks, t: nat)
    requires Linking(l, g0, g, queue, t)
  {
    && (forall q {:trigger first[q]} :: q in first ==>
          first[q] < t && queue[first[q]] == q && l.block[first[q]] >= 1 &&
          t < g.tasks && l.block[first[q]] == l.block[t])
    && (forall u: nat {:trigger AwaitsNothing(g0, u)} ::
      u < t && u + 1 < g.tasks && l.block[u] >= 1 && !l.IsSync(u) && AwaitsNothing(g0, u) ==>
          (exists y :: ReleasedBy(l, g, queue, u, y)) || Awaited(l, queue, first, u))
  }

  ghost predicate Awaited(l: Layout, queue: seq<nat>, first: QueueTasks, u: nat)
    requires u < |queue| == |l.block|
  {
    queue[u] in first && first[queue[u]] <= u && l.block[first[queue[u]]] == l.block[u]
  }

  /** Position of a task in the layout, as the walk computes it from the block size. */
  ghost predicate At(l: Layout, t: nat, block: nat, syncTask: nat, numOfBlocks: nat) {
    && t < |l.block| && block == l.block[t] && numOfBlocks == |l.sync| + 1
    && (block < |l.sync| ==> syncTask == l.sync[block])
    && (block == |l.sync| && t == syncTask ==> t == |l.block| - 1)
  }

  lemma LastTaskInLastBlock(l: Layout)
    requires l.Valid() && |l.block| > 0
    ensures l.block[|l.block| - 1] == |l.sync|
  {
    var last := l.block[|l.block| - 1];
  }

  lemma NextInSameBlock(l: Layout, t: nat)
    requires l.Valid() && t + 1 < |l.block| && l.block[t] < |l.sync| && !l.IsSync(t)
    ensures l.block[t + 1] == l.block[t]
  {
    assert t + 1 <= l.sync[l.block[t]];
  }

  method LinkProducers(info: BarrierInfo, b: nat, tasks: QueueTasks)
    requires info.Valid() && b < |info.barrierProducerMap|
    requires forall q :: q in tasks ==> tasks[q] < |info.taskUpdateBarriers|
    modifies info`barrierProducerMap, info`taskUpdateBarriers
    ensures info.Valid() && info.Graph() == old(info.Graph()).AddProducers(b, tasks.Values)
  {
    var left: set<nat> := tasks.Keys;
    var done: set<nat> := {};
    ghost var g := info.Graph();
    assert g.producers[b] + {} == g.producers[b];
    while left != {}
      invariant left <= tasks.Keys && info.Valid() && info.Graph() == g.AddProducers(b, done)
      invariant |info.taskUpdateBarriers| == g.tasks
      invariant forall v :: v in done <==> exists q :: q in tasks && q !in left && tasks[q] == v
    {
      var q :| q in left;
      info.AddProducer(b, tasks[q]);
      assert g.producers[b] + done + {tasks[q]} == g.producers[b] + (done + {tasks[q]});
      done := done + {tasks[q]};
      left := left - {q};
    }
    assert done == tasks.Values;
  }

  method LinkConsumers(info: BarrierInfo, b: nat, tasks: QueueTasks)
    requires info.Valid() && b < |info.barrierConsumerMap|
    requires forall q :: q in tasks ==> tasks[q] < |info.taskWaitBarriers|
    modifies info`barrierConsumerMap, info`taskWaitBarriers
    ensures info.Valid() && info.Graph() == old(info.Graph()).AddConsumers(b, tasks.Values)
  {
    var left: set<nat> := tasks.Keys;
    var done: set<nat> := {};
    ghost var g := info.Graph();
    assert g.consumers[b] + {} == g.consumers[b];
    while left != {}
      invariant left <= tasks.Keys && info.Valid() && info.Graph() == g.AddConsumers(b, done)
      invariant |info.taskWaitBarriers| == g.tasks
      invariant forall v :: v in done <==> exists q :: q in tasks && q !in left && tasks[q] == v
    {
      var q :| q in left;
      info.AddConsumer(b, tasks[q]);
      assert g.consumers[b] + done + {tasks[q]} == g.consumers[b] + (done + {tasks[q]});
      done := done + {tasks[q]};
      left := left - {q};
    }
    assert done == tasks.Values;
  }

  /** Linking the last tasks of a block to its sync task `t` drains the block. */
  lemma FlushLast(l: Layout, g0: Graph, g: Graph, queue: seq<nat>, last: QueueTasks, first: QueueTasks, t: nat)
    requires Linking(l, g0, g, queue, t) && LastTasks(l, g0, g, queue, last, t) && FirstTasks(l, g0, g, queue, first, t)
    requires t < g.tasks && l.IsSync(t)
    ensures var h := g.AddProducers(l.WaitBarrier(l.block[t]), last.Values);
      && Linking(l, g0, h, queue, t) && FirstTasks(l, g0, h, queue, first, t)
      && forall u: nat {:trigger UpdatesNothing(g0, u)} ::
        u < t && l.block[u] < |l.sync| && !l.IsSync(u) && UpdatesNothing(g0, u) ==>
          exists y :: DrainedBy(l, h, queue, u, y)
  {
    var k := l.block[t];
    var h := g.AddProducers(l.WaitBarrier(k), last.Values);
    AddToWaitBarrier(l, g, k, last.Values, l.bars);
    assert WaitShape(l, g, k);
    forall u: nat | u < t && l.block[u] < |l.sync| && !l.IsSync(u) && UpdatesNothing(g0, u)
      ensures exists y :: DrainedBy(l, h, queue, u, y)
    {
      if y :| DrainedBy(l, g, queue, u, y) {
        assert DrainedBy(l, h, queue, u, y);
      } else {
        assert Pending(l, queue, last, u);
        assert last[queue[u]] in last.Values;
        assert DrainedBy(l, h, queue, u, last[queue[u]]);
      }
    }
    forall u: nat, y: nat | u < g.tasks && ReleasedBy(l, g, queue, u, y)
      ensures ReleasedBy(l, h, queue, u, y)
    {
    }
  }

  /** Linking the first tasks of a block to the previous sync task releases the block. */
  lemma FlushFirst(l: Layout, g0: Graph, g: Graph, queue: seq<nat>, first: QueueTasks, t: nat)
    requires Linking(l, g0, g, queue, t) && FirstTasks(l, g0, g, queue, first, t)
    requires t < g.tasks && l.block[t] >= 1
    ensures var h := g.AddConsumers(l.UpdateBarrier(l.block[t] - 1), first.Values);
      && Linking(l, g0, h, queue, t)
      && (forall u: nat, y: nat :: u < g.tasks && DrainedBy(l, g, queue, u, y) ==> DrainedBy(l, h, queue, u, y))
      && forall u: nat {:trigger AwaitsNothing(g0, u)} ::
        u < t && l.block[u] >= 1 && !l.IsSync(u) && AwaitsNothing(g0, u) ==> exists y :: ReleasedBy(l, h, queue, u, y)
  {
    var k := l.block[t] - 1;
    var h := g.AddConsumers(l.UpdateBarrier(k), first.Values);
    AddToUpdateBarrier(l, g, k, first.Values, l.bars);
    assert UpdateShape(l, g, k);
    forall u: nat | u < t && l.block[u] >= 1 && !l.IsSync(u) && AwaitsNothing(g0, u)
      ensures exists y :: ReleasedBy(l, h, queue, u, y)
    {
      FlushReleases(l, g0, g, h, queue, first, t, u);
    }
  }

  /** A task whose queue waited for a sync task waits for one when the first tasks have been flushed. */
  lemma FlushReleases(l: Layout, g0: Graph, g: Graph, h: Graph, queue: seq<nat>, first: QueueTasks, t: nat, u: nat)
    requires Linking(l, g0, g, queue, t) && FirstTasks(l, g0, g, queue, first, t)
    requires t < g.tasks && l.block[t] >= 1
    requires u < t && l.block[u] >= 1 && !l.IsSync(u) && AwaitsNothing(g0, u)
    requires h == g.AddConsumers(l.UpdateBarrier(l.block[t] - 1), first.Values) && Linking(l, g0, h, queue, t)
    ensures exists y :: ReleasedBy(l, h, queue, u, y)
  {
    if y :| ReleasedBy(l, g, queue, u, y) {
      assert ReleasedBy(l, h, queue, u, y);
    } else {
      assert Awaited(l, queue, first, u);
      assert first[queue[u]] in first.Values;
      assert ReleasedBy(l, h, queue, u, first[queue[u]]);
    }
  }

  /** At the time of the walk, a task without update barriers is one that never had any. */
  lemma UpdatesNothingYet(l: Layout, g0: Graph, g: Graph, queue: seq<nat>, t: nat)
    requires Linking(l, g0, g, queue, t) && t < g.tasks && !l.IsSync(t) && l.bars == |g0.producers|
    ensures UpdatesNothing(g0, t) <==> UpdatesNothing(g, t)
  {
    forall b: nat | b < |g.producers| && b >= l.bars
      ensures t !in g.producers[b]
    {
      var k := (b - l.bars) / 2;
      assert WaitShape(l, g, k) && UpdateShape(l, g, k);
      assert b == l.WaitBarrier(k) || b == l.UpdateBarrier(k);
    }
    forall b: nat | b < |g0.producers|
      ensures g.producers[b] == g0.producers[b]
    {
    }
  }

  /** At the time of the walk, a task without wait barriers is one that never had any. */
  lemma AwaitsNothingYet(l: Layout, g0: Graph, g: Graph, queue: seq<nat>, t: nat)
    requires Linking(l, g0, g, queue, t) && t < g.tasks && !l.IsSync(t) && l.bars == |g0.consumers|
    ensures AwaitsNothing(g0, t) <==> AwaitsNothing(g, t)
  {
    forall b: nat | b < |g.consumers| && b >= l.bars
      ensures t !in g.consumers[b]
    {
      var k := (b - l.bars) / 2;
      assert WaitShape(l, g, k) && UpdateShape(l, g, k);
      assert l.block[l.sync[k]] == k;
      assert b == l.WaitBarrier(k) || b == l.UpdateBarrier(k);
    }
    forall b: nat | b < |g0.consumers|
      ensures g.consumers[b] == g0.consumers[b]
    {
    }
  }

  /** The part of the step that looks at update barriers. */
  method VisitLast(info: BarrierInfo, t: nat, block: nat, syncTask: nat, numOfBlocks: nat, syncBars: SyncBars,
                   last: QueueTasks,
                   ghost first: QueueTasks, ghost l: Layout, ghost g0: Graph) returns (next: QueueTasks)
    requires info.Valid() && SyncBarsFor(l, syncBars) && l.bars == |g0.producers|
    requires At(l, t, block, syncTask, numOfBlocks)
    requires t < |info.taskWaitBarriers| && Linking(l, g0, info.Graph(), info.queue, t)
    requires LastTasks(l, g0, info.Graph(), info.queue, last, t)
    requires FirstTasks(l, g0, info.Graph(), info.queue, first, t)
    modifies info`barrierProducerMap, info`taskUpdateBarriers
    ensures info.Valid() && Linking(l, g0, info.Graph(), info.queue, t)
    ensures FirstTasks(l, g0, info.Graph(), info.queue, first, t)
    ensures Linking(l, g0, info.Graph(), info.queue, t + 1) && LastTasks(l, g0, info.Graph(), info.queue, next, t + 1)
  {
    ghost var g := info.Graph();
    next := last;
    if block < numOfBlocks - 1 {
      if t == syncTask {
        FlushLast(l, g0, g, info.queue, last, first, t);
        LinkProducers(info, syncBars[syncTask].0, last);
        next := map[];
      } else if info.taskUpdateBarriers[t] == {} {
        next := next[info.queue[t] := t];
      }
    }
    LastStep(l, g0, g, info.Graph(), info.queue, last, next, t);
  }

  lemma LastStep(l: Layout, g0: Graph, g: Graph, h: Graph, queue: seq<nat>, last: QueueTasks, next: QueueTasks, t: nat)
    requires Linking(l, g0, g, queue, t) && LastTasks(l, g0, g, queue, last, t) && l.bars == |g0.producers|
    requires Linking(l, g0, h, queue, t) && t < g.tasks == h.tasks
    requires if l.IsSync(t) then
        next == map[] &&
        forall u: nat {:trigger UpdatesNothing(g0, u)} ::
          u < t && l.block[u] < |l.sync| && !l.IsSync(u) && UpdatesNothing(g0, u) ==>
          exists y :: DrainedBy(l, h, queue, u, y)
      else
        h == g && next == if l.block[t] < |l.sync| && UpdatesNothing(g, t) then last[queue[t] := t] else last
    ensures Linking(l, g0, h, queue, t + 1) && LastTasks(l, g0, h, queue, next, t + 1)
  {
    if !l.IsSync(t) {
      LastStepWithin(l, g0, g, queue, last, next, t);
    }
  }

  lemma LastStepWithin(l: Layout, g0: Graph, g: Graph, queue: seq<nat>, last: QueueTasks, next: QueueTasks, t: nat)
    requires Linking(l, g0, g, queue, t) && LastTasks(l, g0, g, queue, last, t) && l.bars == |g0.producers|
    requires t < g.tasks && !l.IsSync(t)
    requires next == if l.block[t] < |l.sync| && UpdatesNothing(g, t) then last[queue[t] := t] else last
    ensures Linking(l, g0, g, queue, t + 1) && LastTasks(l, g0, g, queue, next, t + 1)
  {
    UpdatesNothingYet(l, g0, g, queue, t);
    forall u: nat | u < t + 1 && l.block[u] < |l.sync| && !l.IsSync(u) && UpdatesNothing(g0, u)
      ensures (exists y :: DrainedBy(l, g, queue, u, y)) || Pending(l, queue, next, u)
    {
      LastStepPending(l, g0, g, queue, last, next, t, u);
    }
    LastTaskInLastBlock(l);
    if l.block[t] < |l.sync| && t + 1 < g.tasks {
      NextInSameBlock(l, t);
    }
  }

  lemma LastStepPending(l: Layout, g0: Graph, g: Graph, queue: seq<nat>, last: QueueTasks, next: QueueTasks, t: nat,
                        u: nat)
    requires Linking(l, g0, g, queue, t) && LastTasks(l, g0, g, queue, last, t) && l.bars == |g0.producers|
    requires t < g.tasks && !l.IsSync(t) && (UpdatesNothing(g0, t) <==> UpdatesNothing(g, t))
    requires next == if l.block[t] < |l.sync| && UpdatesNothing(g, t) then last[queue[t] := t] else last
    requires u < t + 1 && l.block[u] < |l.sync| && !l.IsSync(u) && UpdatesNothing(g0, u)
    ensures (exists y :: DrainedBy(l, g, queue, u, y)) || Pending(l, queue, next, u)
  {
    if u < t && !(exists y :: DrainedBy(l, g, queue, u, y)) {
      assert Pending(l, queue, last, u);
    }
  }

  /** The part of the step that looks at wait barriers. */
  method VisitFirst(info: BarrierInfo, t: nat, block: nat, syncTask: nat, prevSyncTask: int, syncBars: SyncBars,
                    first: QueueTasks,
                    ghost last: QueueTasks, ghost l: Layout, ghost g0: Graph) returns (next: QueueTasks)
    requires info.Valid() && SyncBarsFor(l, syncBars) && l.bars == |g0.producers|
    requires At(l, t, block, syncTask, |l.sync| + 1)
    requires Linking(l, g0, info.Graph(), info.queue, t) && FirstTasks(l, g0, info.Graph(), info.queue, first, t)
    requires t < |info.taskWaitBarriers| && block <= |l.sync| && (block > 0 ==> prevSyncTask == l.sync[block - 1])
    requires Linking(l, g0, info.Graph(), info.queue, t + 1) && LastTasks(l, g0, info.Graph(), info.queue, last, t + 1)
    modifies info`barrierConsumerMap, info`taskWaitBarriers
    ensures info.Valid() && Linking(l, g0, info.Graph(), info.queue, t + 1)
    ensures LastTasks(l, g0, info.Graph(), info.queue, last, t + 1)
    ensures FirstTasks(l, g0, info.Graph(), info.queue, next, t + 1)
  {
    ghost var g := info.Graph();
    next := first;
    if block > 0 {
      if t == syncTask || t == |info.taskWaitBarriers| - 1 {
        FlushFirst(l, g0, g, info.queue, first, t);
        LinkConsumers(info, syncBars[prevSyncTask].1, first);
        next := map[];
        FirstFlushed(l, g0, info.Graph(), info.queue, t);
      } else if info.taskWaitBarriers[t] == {} {
        if info.queue[t] !in first {
          next := next[info.queue[t] := t];
        }
      }
    }
    if !(block > 0 && (t == syncTask || t == |info.taskWaitBarriers| - 1)) {
      FirstStep(l, g0, g, info.queue, first, next, t);
    }
    LastTasksKept(l, g0, g, info.Graph(), info.queue, last, t + 1);
  }

  lemma LastTasksKept(l: Layout, g0: Graph, g: Graph, h: Graph, queue: seq<nat>, last: QueueTasks, t: nat)
    requires Linking(l, g0, g, queue, t) && LastTasks(l, g0, g, queue, last, t) && Linking(l, g0, h, queue, t)
    requires h.tasks == g.tasks
    requires forall u: nat, y: nat :: u < g.tasks && DrainedBy(l, g, queue, u, y) ==> DrainedBy(l, h, queue, u, y)
    ensures LastTasks(l, g0, h, queue, last, t)
  {
    forall u: nat | u < t && l.block[u] < |l.sync| && !l.IsSync(u) && UpdatesNothing(g0, u)
      ensures (exists y :: DrainedBy(l, h, queue, u, y)) || Pending(l, queue, last, u)
    {
      if y :| DrainedBy(l, g, queue, u, y) {
        assert DrainedBy(l, h, queue, u, y);
      }
    }
  }

  lemma FirstFlushed(l: Layout, g0: Graph, h: Graph, queue: seq<nat>, t: nat)
    requires Linking(l, g0, h, queue, t) && t < h.tasks && l.block[t] >= 1 && (l.IsSync(t) || t == h.tasks - 1)
    requires forall u: nat {:trigger AwaitsNothing(g0, u)} ::
      u < t && l.block[u] >= 1 && !l.IsSync(u) && AwaitsNothing(g0, u) ==> exists y :: ReleasedBy(l, h, queue, u, y)
    ensures Linking(l, g0, h, queue, t + 1) && FirstTasks(l, g0, h, queue, map[], t + 1)
  {
  }

  lemma FirstStep(l: Layout, g0: Graph, g: Graph, queue: seq<nat>, first: QueueTasks, next: QueueTasks, t: nat)
    requires Linking(l, g0, g, queue, t) && FirstTasks(l, g0, g, queue, first, t) && l.bars == |g0.producers|
    requires t < g.tasks && !(l.block[t] >= 1 && (l.IsSync(t) || t == g.tasks - 1))
    requires next == if l.block[t] >= 1 && AwaitsNothing(g, t) && queue[t] !in first then
      first[queue[t] := t] else first
    ensures Linking(l, g0, g, queue, t + 1) && FirstTasks(l, g0, g, queue, next, t + 1)
  {
    LastTaskInLastBlock(l);
    if l.block[t] >= 1 {
      AwaitsNothingYet(l, g0, g, queue, t);
      if l.block[t] < |l.sync| {
        NextInSameBlock(l, t);
      }
      forall u: nat | u < t + 1 && u + 1 < g.tasks && l.block[u] >= 1 && !l.IsSync(u) && AwaitsNothing(g0, u)
        ensures (exists y :: ReleasedBy(l, g, queue, u, y)) || Awaited(l, queue, next, u)
      {
        if u < t && !(exists y :: ReleasedBy(l, g, queue, u, y)) {
          assert Awaited(l, queue, first, u);
        }
      }
    }
  }

  /** Where the walk finds a task, and the sync task before its block. */
  ghost predicate PositionOf(l: Layout, size: nat, t: nat)
    requires size > 0
  {
    && At(l, t, t / size, t / size * size + size - 1, NumOfBlocks(|l.block|, size))
    && t / size <= |l.sync| && (t / size > 0 ==> t / size * size - 1 == l.sync[t / size - 1])
  }

  ghost predicate Positions(l: Layout, size: nat) {
    size > 0 && forall t: nat {:trigger PositionOf(l, size, t)} :: t < |l.block| ==> PositionOf(l, size, t)
  }

  lemma LayoutGivesPositions(l: Layout, size: nat)
    requires 2 <= size < |l.block| && l.For(|l.block|, size) && l.Valid()
    ensures Positions(l, size)
  {
    forall t: nat | t < |l.block|
      ensures PositionOf(l, size, t)
    {
      var block := t / size;
      assert block == l.block[t];
      if block > 0 {
        SyncTaskBeforeBlock(block, size);
        assert l.sync[block - 1] == SyncTask(block - 1, size);
      }
      if block == |l.sync| && t == SyncTask(block, size) {
        LastBlockSyncPosition(|l.block|, size, t);
      }
    }
  }

  /** The state of the walk when it reaches task `t`. */
  ghost predicate Walking(l: Layout, g0: Graph, g: Graph, queue: seq<nat>, last: QueueTasks, first: QueueTasks,
                          t: nat) {
    Linking(l, g0, g, queue, t) && LastTasks(l, g0, g, queue, last, t) && FirstTasks(l, g0, g, queue, first, t)
  }

  method VisitTask(info: BarrierInfo, size: nat, t: nat, numOfBlocks: nat, syncBars: SyncBars, last: QueueTasks,
                   first: QueueTasks,
                   ghost l: Layout, ghost g0: Graph) returns (nextLast: QueueTasks, nextFirst: QueueTasks)
    requires info.Valid() && size > 0 && numOfBlocks == NumOfBlocks(|l.block|, size)
    requires t < |info.taskWaitBarriers| == |l.block|
    requires SyncBarsFor(l, syncBars) && l.bars == |g0.producers| && PositionOf(l, size, t)
    requires Walking(l, g0, info.Graph(), info.queue, last, first, t)
    modifies info`barrierProducerMap, info`taskUpdateBarriers, info`barrierConsumerMap, info`taskWaitBarriers
    ensures info.Valid() && |info.taskWaitBarriers| == |l.block|
    ensures Walking(l, g0, info.Graph(), info.queue, nextLast, nextFirst, t + 1)
  {
    var block := t / size;
    var syncTask := block * size + size - 1;
    nextLast := VisitLast(info, t, block, syncTask, numOfBlocks, syncBars, last, first, l, g0);
    nextFirst := VisitFirst(info, t, block, syncTask, block * size - 1, syncBars, first, nextLast, l, g0);
  }

  /** Step 2: one walk over all tasks in program order. */
  method LinkIdleTasks(info: BarrierInfo, size: nat, syncBars: SyncBars, ghost l: Layout, ghost g0: Graph)
    requires info.Valid() && Positions(l, size) && |info.taskWaitBarriers| == |l.block|
    requires SyncBarsFor(l, syncBars) && l.bars == |g0.producers| && Linking(l, g0, info.Graph(), info.queue, 0)
    modifies info`barrierProducerMap, info`taskUpdateBarriers, info`barrierConsumerMap, info`taskWaitBarriers
    ensures info.Valid() && |info.taskWaitBarriers| == |l.block|
    ensures Shaped(l, info.Graph()) && SameFrom(l, g0, info.Graph(), 0)
    ensures IdleTasksDrained(l, g0, info.Graph(), info.queue) && IdleTasksReleased(l, g0, info.Graph(), info.queue)
  {
    var first: QueueTasks := map[];
    var last: QueueTasks := map[];
    var numOfBlocks := NumOfBlocks(|info.taskWaitBarriers|, size);
    var t := 0;
    while t < |info.taskWaitBarriers|
      invariant t <= |info.taskWaitBarriers| == |l.block| && info.Valid()
      invariant Walking(l, g0, info.Graph(), info.queue, last, first, t)
    {
      assert PositionOf(l, size, t);
      last, first := VisitTask(info, size, t, numOfBlocks, syncBars, last, first, l, g0);
      t := t + 1;
    }
    WalkComplete(l, g0, info.Graph(), info.queue, last, first);
  }

  /** After the walk nothing is pending any more. */
  lemma WalkComplete(l: Layout, g0: Graph, g: Graph, queue: seq<nat>, last: QueueTasks, first: QueueTasks)
    requires Walking(l, g0, g, queue, last, first, g.tasks)
    ensures IdleTasksDrained(l, g0, g, queue) && IdleTasksReleased(l, g0, g, queue)
  {
  }
}
