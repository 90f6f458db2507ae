/** Removal of redundant wait barriers in one block of the control graph. */
module ConsumerOptimization {
  import opened Reachability
  import opened BarrierGraph
  import opened BarrierInfoModule
  import opened BarrierPruning

  /** Every dependency that ends in `start..end` also starts there, the opening sync task exempt. */
  ghost predicate ClosedForConsumers(g: Graph, start: nat, end: nat, startIsSync: bool)
    requires |g.producers| == |g.consumers|
  {
    forall p, t :: (p, t) in g.Deps() && start <= t <= end && !(t == start && startIsSync) ==> start <= p <= end
  }

  /** The union of `masks` over those tasks of `start..end` that `t` directly depends on, and
      whether all tasks that it depends on are in that range. */
  method UniteParents(info: BarrierInfo, t: nat, start: nat, end: nat, masks: seq<set<nat>>)
    returns (inRange: bool, mask: set<nat>)
    requires info.Valid() && |masks| == end + 1 - start && start <= end && t < |info.taskWaitBarriers|
    ensures inRange <==> forall p :: (p, t) in info.Graph().Deps() ==> start <= p <= end
    ensures forall x :: x in mask <==> exists p :: (p, t) in info.Graph().Deps() && HasBit(masks, start, end, p, x)
  {
    ghost var g := info.Graph();
    inRange, mask := true, {};
    ghost var seen: set<nat> := {};
    var bars := info.taskWaitBarriers[t];
    while bars != {}
      invariant bars <= info.taskWaitBarriers[t]
      invariant forall b, p :: b in info.taskWaitBarriers[t] && b !in bars && p in g.producers[b] ==> p in seen
      invariant forall p :: p in seen ==> (p, t) in g.Deps()
      invariant inRange <==> forall p :: p in seen ==> start <= p <= end
      invariant forall x :: x in mask <==> exists p :: p in seen && HasBit(masks, start, end, p, x)
    {
      var b :| b in bars;
      var parents := info.barrierProducerMap[b];
      while parents != {}
        invariant parents <= info.barrierProducerMap[b]
        invariant forall b, p :: b in info.taskWaitBarriers[t] && b !in bars && p in g.producers[b] ==> p in seen
        invariant forall p :: p in info.barrierProducerMap[b] && p !in parents ==> p in seen
        invariant forall p :: p in seen ==> (p, t) in g.Deps()
        invariant inRange <==> forall p :: p in seen ==> start <= p <= end
        invariant forall x :: x in mask <==> exists p :: p in seen && HasBit(masks, start, end, p, x)
      {
        var p :| p in parents;
        assert g.Linked(b, p, t);
        if start <= p <= end {
          assert forall x :: x in masks[p - start] <==> HasBit(masks, start, end, p, x);
          mask := mask + masks[p - start];
        } else {
          inRange := false;
        }
        seen := seen + {p};
        parents := parents - {p};
      }
      bars := bars - {b};
    }
    forall p | (p, t) in g.Deps()
      ensures p in seen
    {
      g.DepsMeansLinked(p, t);
      var b :| g.Linked(b, p, t);
    }
  }

  /** `masks` holds, for each task of `start..end` below `upto`, the barriers that it or a task
      before it in the range waits for. */
  ghost predicate Collected(g: Graph, start: nat, upto: nat, end: nat, masks: seq<set<nat>>)
    requires |g.producers| == |g.consumers|
  {
    && start <= upto <= end + 1 && |masks| == end + 1 - start
    && (forall t: nat, b: nat :: t < upto && HasBit(masks, start, end, t, b) ==>
          (b < |g.consumers| && (t in g.consumers[b] || AwaitedEarlier(g, t, b, start))))
    && (forall t: nat, b: nat {:trigger t in g.consumers[b]} ::
          start <= t < upto && b < |g.consumers| && t in g.consumers[b] ==> HasBit(masks, start, end, t, b))
    && (forall p: nat, t: nat, b: nat ::
      start <= p < t < upto && (p, t) in g.Deps() && HasBit(masks, start, end, p, b) ==>
          HasBit(masks, start, end, t, b))
  }

  lemma {:induction false} MasksGrowForwards(g: Graph, start: nat, end: nat, masks: seq<set<nat>>, p: nat, t: nat,
                                             b: nat)
    requires |g.producers| == |g.consumers| && g.InProgramOrder() && Collected(g, start, end + 1, end, masks)
    requires start <= p && t <= end && ReachesOrIs(g.Deps(), p, t) && HasBit(masks, start, end, p, b)
    ensures p <= t && HasBit(masks, start, end, t, b)
    decreases t - p
  {
    g.DepsIncrease();
    if p != t {
      ReachesIncreases(g.Deps(), p, t);
      var mid := LastStep(g.Deps(), p, t);
      if mid != p {
        ReachesIncreases(g.Deps(), p, mid);
      }
      MasksGrowForwards(g, start, end, masks, p, mid, b);
    }
  }

  /** The bits that the second phase clears for `t` are those of the barriers awaited earlier. */
  lemma ClearedMeansAwaitedEarlier(g: Graph, start: nat, end: nat, masks: seq<set<nat>>, t: nat, b: nat)
    requires |g.producers| == |g.consumers| && g.InProgramOrder() && Collected(g, start, end + 1, end, masks)
    requires start <= t <= end && b < |g.consumers|
    ensures AwaitedEarlier(g, t, b, start) <==> exists p :: (p, t) in g.Deps() && HasBit(masks, start, end, p, b)
  {
    g.DepsIncrease();
    if AwaitedEarlier(g, t, b, start) {
      var q: nat :| start <= q && Reaches(g.Deps(), q, t) && q in g.consumers[b];
      ReachesIncreases(g.Deps(), q, t);
      var p := LastStep(g.Deps(), q, t);
      MasksGrowForwards(g, start, end, masks, q, p, b);
      assert HasBit(masks, start, end, p, b);
    }
    if p :| (p, t) in g.Deps() && HasBit(masks, start, end, p, b) {
      EdgeReaches(g.Deps(), p, t);
      if p !in g.consumers[b] {
        var q: nat :| start <= q && Reaches(g.Deps(), q, p) && q in g.consumers[b];
        ReachesTransitive(g.Deps(), q, p, t);
      }
    }
  }

  /** One step of the first phase extends the collected masks by task `t`. */
  lemma CollectStep(g: Graph, start: nat, t: nat, end: nat, masks: seq<set<nat>>, mask: set<nat>, waits: set<nat>)
    requires |g.producers| == |g.consumers| && g.InProgramOrder() && Collected(g, start, t, end, masks)
    requires t <= end
    requires forall b: nat :: b in waits <==> b < |g.consumers| && t in g.consumers[b]
    requires waits <= mask
    requires forall b: nat :: b in mask ==>
      b in waits || exists p :: (p, t) in g.Deps() && HasBit(masks, start, end, p, b)
    requires forall p, b :: (p, t) in g.Deps() && HasBit(masks, start, end, p, b) ==> b in mask
    ensures Collected(g, start, t + 1, end, masks[t - start := mask])
  {
    g.DepsIncrease();
    var next := masks[t - start := mask];
    assert forall u, b :: HasBit(next, start, end, u, b) <==>
      if u == t then b in mask else HasBit(masks, start, end, u, b);
    forall b: nat | b in mask && b !in waits
      ensures b < |g.consumers| && AwaitedEarlier(g, t, b, start)
    {
      var p :| (p, t) in g.Deps() && HasBit(masks, start, end, p, b);
      EdgeReaches(g.Deps(), p, t);
      if p !in g.consumers[b] {
        var q: nat :| start <= q && Reaches(g.Deps(), q, p) && q in g.consumers[b];
        ReachesTransitive(g.Deps(), q, p, t);
      }
    }
  }

  /** One step of the second phase prunes the wait links of task `t`. */
  lemma PruneConsumersStep(g: Graph, start: nat, t: nat, end: nat, kept: set<nat>)
    requires |g.producers| == |g.consumers| && start <= t <= end
    requires forall b: nat :: b in kept ==> b < |g.consumers|
    requires forall b: nat :: b < |g.consumers| ==>
      (b in kept <==> t in g.consumers[b] && !AwaitedEarlier(g, t, b, start))
    ensures PruneConsumersFrom(g, start, end, t + 1).SetWaitBarriers(t, kept) == PruneConsumersFrom(g, start, end, t)
  {
    var before, after := PruneConsumersFrom(g, start, end, t + 1), PruneConsumersFrom(g, start, end, t);
    forall b | 0 <= b < |g.consumers|
      ensures before.SetWaitBarriers(t, kept).consumers[b] == after.consumers[b]
    {
    }
  }

  /** Tasks that have not been pruned yet have the dependencies they had at the start. */
  lemma DepsOfUnpruned(g: Graph, start: nat, t: nat, end: nat, p: nat)
    requires |g.producers| == |g.consumers|
    ensures (p, t) in PruneConsumersFrom(g, start, end, t + 1).Deps() <==> (p, t) in g.Deps()
  {
    var h := PruneConsumersFrom(g, start, end, t + 1);
    if (p, t) in g.Deps() {
      g.DepsMeansLinked(p, t);
      var b :| g.Linked(b, p, t);
      assert h.Linked(b, p, t);
    }
    if (p, t) in h.Deps() {
      h.DepsMeansLinked(p, t);
      var b :| h.Linked(b, p, t);
      assert g.Linked(b, p, t);
    }
  }

  lemma NothingToPrune(g: Graph, start: nat, end: nat)
    requires |g.producers| == |g.consumers|
    requires forall t: nat, b: nat :: start <= t <= end && b < |g.consumers| ==> t !in g.consumers[b]
    ensures PruneConsumers(g, start, end) == g
    ensures forall startIsSync :: ClosedForConsumers(g, start, end, startIsSync)
  {
    forall b | 0 <= b < |g.consumers|
      ensures PruneConsumers(g, start, end).consumers[b] == g.consumers[b]
    {
    }
  }

  /** First phase: from the first task of the range to the last, each task's mask is the union
      of its own wait barriers and the masks of the tasks it depends on. */
  method CollectWaits(info: BarrierInfo, start: nat, end: nat) returns (closed: bool, masks: seq<set<nat>>)
    requires info.Valid() && info.Graph().InProgramOrder() && start <= end < |info.taskWaitBarriers|
    ensures closed <==> ClosedForConsumers(info.Graph(), start, end, info.IsSyncPoint(start))
    ensures closed ==> Collected(info.Graph(), start, end + 1, end, masks)
  {
    ghost var g := info.Graph();
    g.DepsIncrease();
    masks := seq(end + 1 - start, _ => {});
    var t := start;
    while t <= end
      invariant start <= t <= end + 1 && Collected(g, start, t, end, masks)
      invariant forall p, u :: (p, u) in g.Deps() && start <= u < t && !(u == start && info.IsSyncPoint(start)) ==>
        start <= p <= end
    {
      var mask := info.taskWaitBarriers[t];
      if !(t == start && info.IsSyncPoint(t)) {
        var inRange, parentMask := UniteParents(info, t, start, end, masks);
        if !inRange {
          return false, masks;
        }
        mask := mask + parentMask;
      }
      CollectStep(g, start, t, end, masks, mask, info.taskWaitBarriers[t]);
      masks := masks[t - start := mask];
      t := t + 1;
    }
    closed := true;
  }

  /** Second phase: each task drops the wait barriers found in the masks of the tasks it
      depends on. */
  method RemoveImpliedWaits(info: BarrierInfo, start: nat, end: nat, masks: seq<set<nat>>)
    requires info.Valid() && info.Graph().InProgramOrder() && start <= end < |info.taskWaitBarriers|
    requires Collected(info.Graph(), start, end + 1, end, masks)
    modifies info`barrierConsumerMap, info`taskWaitBarriers
    ensures info.Valid() && info.Graph() == PruneConsumers(old(info.Graph()), start, end)
  {
    ghost var g := info.Graph();
    g.DepsIncrease();
    assert forall b :: 0 <= b < |g.consumers| ==>
      PruneConsumersFrom(g, start, end, end + 1).consumers[b] == g.consumers[b];
    var t := end + 1;
    while t > start
      invariant start <= t <= end + 1 && info.Valid()
      invariant info.Graph() == PruneConsumersFrom(g, start, end, t)
    {
      t := t - 1;
      var inRange, parentMask := UniteParents(info, t, start, end, masks);
      var kept := masks[t - start] - parentMask;
      KeptWaits(info.Graph(), g, start, t, end, masks, parentMask, kept);
      PruneConsumersStep(g, start, t, end, kept);
      info.SetWaitBarriers(t, kept);
    }
  }

  lemma KeptWaits(h: Graph, g: Graph, start: nat, t: nat, end: nat, masks: seq<set<nat>>,
                  parentMask: set<nat>, kept: set<nat>)
    requires |g.producers| == |g.consumers| && g.InProgramOrder() && Collected(g, start, end + 1, end, masks)
    requires start <= t <= end && h == PruneConsumersFrom(g, start, end, t + 1) && kept == masks[t - start] - parentMask
    requires forall x :: x in parentMask <==> exists p :: (p, t) in h.Deps() && HasBit(masks, start, end, p, x)
    ensures forall b: nat :: b in kept <==>
      b < |g.consumers| && t in g.consumers[b] && !AwaitedEarlier(g, t, b, start)
  {
    forall p: nat
      ensures (p, t) in h.Deps() <==> (p, t) in g.Deps()
    {
      DepsOfUnpruned(g, start, t, end, p);
    }
    forall b: nat
      ensures b in kept <==>
        b < |g.consumers| && t in g.consumers[b] && !AwaitedEarlier(g, t, b, start)
    {
      assert b in masks[t - start] <==> HasBit(masks, start, end, t, b);
      if b < |g.consumers| {
        ClearedMeansAwaitedEarlier(g, start, end, masks, t, b);
      }
    }
  }

  /** Wait links of the block's tasks are cut down to those that are not implied by an earlier
      one.  Throws, changing nothing, exactly when a dependency comes from outside of the block. */
  method OptimizeBarrierConsumers(info: BarrierInfo, block: nat) returns (r: Outcome)
    requires info.Valid() && info.ValidBlocks() && info.Graph().InProgramOrder() && block < info.BlockCount()
    modifies info`barrierConsumerMap, info`taskWaitBarriers
    ensures info.Valid()
    ensures var range := old(info.BlockTaskRange(block, true, true));
      r.Done? <==> ClosedForConsumers(old(info.Graph()), range.0, range.1, old(info.IsSyncPoint(range.0)))
    ensures r.Thrown? ==> info.Graph() == old(info.Graph())
    ensures var range := old(info.BlockTaskRange(block, true, true));
      r.Done? ==> info.Graph() == PruneConsumers(old(info.Graph()), range.0, range.1)
  {
    ghost var g := info.Graph();
    var range := info.BlockTaskRange(block, true, true);
    var start, end := range.0, range.1;
    var barriers := info.BarriersForTasks(start, end, false);
    if barriers == [] {
      forall t: nat | start <= t <= end
        ensures info.taskWaitBarriers[t] == {}
      {
        assert forall b :: b in info.BarriersOfTask(t, false) ==> b in barriers;
      }
      assert forall t: nat, b: nat :: start <= t <= end && b < |g.consumers| && t in info.barrierConsumerMap[b] ==>
        b in info.taskWaitBarriers[t];
      NothingToPrune(g, start, end);
      return Done;
    }
    var closed, masks := CollectWaits(info, start, end);
    if !closed {
      return Thrown("task has wait barriers with a producer from outside of the current range");
    }
    RemoveImpliedWaits(info, start, end, masks);
    r := Done;
  }
}
