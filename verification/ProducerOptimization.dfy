/** Removal of redundant update barriers in one block of the control graph. */
module ProducerOptimization {
  import opened Reachability
  import opened BarrierGraph
  import opened BarrierInfoModule
  import opened BarrierPruning

  /** Every dependency that starts in `start..end` also ends there; the sync task that closes
      the range is exempt, because its dependencies lead into the next block. */
  ghost predicate ClosedForProducers(g: Graph, start: nat, end: nat, endIsSync: bool)
    requires |g.producers| == |g.consumers|
  {
    forall t, c :: (t, c) in g.Deps() && start <= t <= end && !(t == end && endIsSync) ==> start <= c <= end
  }

  /** The union of `masks` over those tasks of `start..end` that directly depend on `t`, and
      whether all tasks that do are in that range. */
  method UniteChildren(info: BarrierInfo, t: nat, start: nat, end: nat, masks: seq<set<nat>>)
    returns (inRange: bool, mask: set<nat>)
    requires info.Valid() && |masks| == end + 1 - start && start <= end && t < |info.taskUpdateBarriers|
    ensures inRange <==> forall c :: (t, c) in info.Graph().Deps() ==> start <= c <= end
    ensures forall x :: x in mask <==> exists c :: (t, c) in info.Graph().Deps() && HasBit(masks, start, end, c, x)
  {
    ghost var g := info.Graph();
    inRange, mask := true, {};
    ghost var seen: set<nat> := {};
    var bars := info.taskUpdateBarriers[t];
    while bars != {}
      invariant bars <= info.taskUpdateBarriers[t]
      invariant forall b, c :: b in info.taskUpdateBarriers[t] && b !in bars && c in g.consumers[b] ==> c in seen
      invariant forall c :: c in seen ==> (t, c) in g.Deps()
      invariant inRange <==> forall c :: c in seen ==> start <= c <= end
      invariant forall x :: x in mask <==> exists c :: c in seen && HasBit(masks, start, end, c, x)
    {
      var b :| b in bars;
      var children := info.barrierConsumerMap[b];
      while children != {}
        invariant children <= info.barrierConsumerMap[b]
        invariant forall b, c :: b in info.taskUpdateBarriers[t] && b !in bars && c in g.consumers[b] ==> c in seen
        invariant forall c :: c in info.barrierConsumerMap[b] && c !in children ==> c in seen
        invariant forall c :: c in seen ==> (t, c) in g.Deps()
        invariant inRange <==> forall c :: c in seen ==> start <= c <= end
        invariant forall x :: x in mask <==> exists c :: c in seen && HasBit(masks, start, end, c, x)
      {
        var c :| c in children;
        assert g.Linked(b, t, c);
        if start <= c <= end {
          assert forall x :: x in masks[c - start] <==> HasBit(masks, start, end, c, x);
          mask := mask + masks[c - start];
        } else {
          inRange := false;
        }
        seen := seen + {c};
        children := children - {c};
      }
      bars := bars - {b};
    }
    forall c | (t, c) in g.Deps()
      ensures c in seen
    {
      g.DepsMeansLinked(t, c);
      var b :| g.Linked(b, t, c);
    }
  }

  /** `masks` holds, for each task of `from..end`, the barriers that it or a task after it in
      the range updates. */
  ghost predicate Collected(g: Graph, start: nat, from: nat, end: nat, masks: seq<set<nat>>)
    requires |g.producers| == |g.consumers|
  {
    && start <= from <= end + 1 && |masks| == end + 1 - start
    && (forall t: nat, b: nat :: from <= t && HasBit(masks, start, end, t, b) ==>
          (b < |g.producers| && (t in g.producers[b] || UpdatedLater(g, t, b, end))))
    && (forall t: nat, b: nat {:trigger t in g.producers[b]} ::
          from <= t <= end && b < |g.producers| && t in g.producers[b] ==> HasBit(masks, start, end, t, b))
    && (forall t: nat, c: nat, b: nat ::
      from <= t < c <= end && (t, c) in g.Deps() && HasBit(masks, start, end, c, b) ==>
          HasBit(masks, start, end, t, b))
  }

  lemma {:induction false} MasksGrowBackwards(g: Graph, start: nat, end: nat, masks: seq<set<nat>>, t: nat, d: nat,
                                              b: nat)
    requires |g.producers| == |g.consumers| && g.InProgramOrder() && Collected(g, start, start, end, masks)
    requires start <= t && d <= end && ReachesOrIs(g.Deps(), t, d) && HasBit(masks, start, end, d, b)
    ensures t <= d && HasBit(masks, start, end, t, b)
    decreases d - t
  {
    g.DepsIncrease();
    if t != d {
      ReachesIncreases(g.Deps(), t, d);
      var mid := FirstStep(g.Deps(), t, d);
      if mid != d {
        ReachesIncreases(g.Deps(), mid, d);
      }
      MasksGrowBackwards(g, start, end, masks, mid, d, b);
    }
  }

  /** The bits that the second phase clears for `t` are those of the barriers updated later. */
  lemma ClearedMeansUpdatedLater(g: Graph, start: nat, end: nat, masks: seq<set<nat>>, t: nat, b: nat)
    requires |g.producers| == |g.consumers| && g.InProgramOrder() && Collected(g, start, start, end, masks)
    requires start <= t <= end && b < |g.producers|
    ensures UpdatedLater(g, t, b, end) <==> exists c :: (t, c) in g.Deps() && HasBit(masks, start, end, c, b)
  {
    g.DepsIncrease();
    if UpdatedLater(g, t, b, end) {
      var d: nat :| d <= end && Reaches(g.Deps(), t, d) && d in g.producers[b];
      ReachesIncreases(g.Deps(), t, d);
      var c := FirstStep(g.Deps(), t, d);
      MasksGrowBackwards(g, start, end, masks, c, d, b);
      assert HasBit(masks, start, end, c, b);
    }
    if c :| (t, c) in g.Deps() && HasBit(masks, start, end, c, b) {
      EdgeReaches(g.Deps(), t, c);
      if c !in g.producers[b] {
        var d: nat :| d <= end && Reaches(g.Deps(), c, d) && d in g.producers[b];
        ReachesTransitive(g.Deps(), t, c, d);
      }
    }
  }

  /** One step of the first phase extends the collected masks by task `t`. */
  lemma CollectStep(g: Graph, start: nat, t: nat, end: nat, masks: seq<set<nat>>, mask: set<nat>, updates: set<nat>)
    requires |g.producers| == |g.consumers| && g.InProgramOrder() && Collected(g, start, t + 1, end, masks)
    requires start <= t
    requires forall b: nat :: b in updates <==> b < |g.producers| && t in g.producers[b]
    requires updates <= mask
    requires forall b: nat :: b in mask ==>
      b in updates || exists c :: (t, c) in g.Deps() && HasBit(masks, start, end, c, b)
    requires forall c, b :: (t, c) in g.Deps() && HasBit(masks, start, end, c, b) ==> b in mask
    ensures Collected(g, start, t, end, masks[t - start := mask])
  {
    g.DepsIncrease();
    var next := masks[t - start := mask];
    assert forall u, b :: HasBit(next, start, end, u, b) <==>
      if u == t then b in mask && t <= end else HasBit(masks, start, end, u, b);
    forall b: nat | b in mask && b !in updates
      ensures b < |g.producers| && UpdatedLater(g, t, b, end)
    {
      var c :| (t, c) in g.Deps() && HasBit(masks, start, end, c, b);
      EdgeReaches(g.Deps(), t, c);
      if c !in g.producers[b] {
        var d: nat :| d <= end && Reaches(g.Deps(), c, d) && d in g.producers[b];
        ReachesTransitive(g.Deps(), t, c, d);
      }
    }
  }

  /** One step of the second phase prunes the update links of task `t`. */
  lemma PruneProducersStep(g: Graph, start: nat, t: nat, end: nat, kept: set<nat>)
    requires |g.producers| == |g.consumers| && start <= t <= end
    requires forall b: nat :: b in kept ==> b < |g.producers|
    requires forall b: nat :: b < |g.producers| ==>
      (b in kept <==> t in g.producers[b] && !UpdatedLater(g, t, b, end))
    ensures PruneProducersBefore(g, start, end, t).SetUpdateBarriers(t, kept) ==
      PruneProducersBefore(g, start, end, t + 1)
  {
    var before, after := PruneProducersBefore(g, start, end, t), PruneProducersBefore(g, start, end, t + 1);
    forall b | 0 <= b < |g.producers|
      ensures before.SetUpdateBarriers(t, kept).producers[b] == after.producers[b]
    {
    }
  }

  /** Tasks that have not been pruned yet have the dependencies they had at the start. */
  lemma DepsOfUnpruned(g: Graph, start: nat, t: nat, end: nat, c: nat)
    requires |g.producers| == |g.consumers|
    ensures (t, c) in PruneProducersBefore(g, start, end, t).Deps() <==> (t, c) in g.Deps()
  {
    var h := PruneProducersBefore(g, start, end, t);
    if (t, c) in g.Deps() {
      g.DepsMeansLinked(t, c);
      var b :| g.Linked(b, t, c);
      assert h.Linked(b, t, c);
    }
    if (t, c) in h.Deps() {
      h.DepsMeansLinked(t, c);
      var b :| h.Linked(b, t, c);
      assert g.Linked(b, t, c);
    }
  }

  lemma NothingToPrune(g: Graph, start: nat, end: nat)
    requires |g.producers| == |g.consumers|
    requires forall t: nat, b: nat :: start <= t <= end && b < |g.producers| ==> t !in g.producers[b]
    ensures PruneProducers(g, start, end) == g
    ensures forall endIsSync :: ClosedForProducers(g, start, end, endIsSync)
  {
    forall b | 0 <= b < |g.producers|
      ensures PruneProducers(g, start, end).producers[b] == g.producers[b]
    {
    }
  }

  /** First phase: from the last task of the range to the first, each task's mask is the union
      of its own update barriers and the masks of the tasks that depend on it. */
  method CollectUpdates(info: BarrierInfo, start: nat, end: nat) returns (closed: bool, masks: seq<set<nat>>)
    requires info.Valid() && info.Graph().InProgramOrder() && start <= end < |info.taskWaitBarriers|
    ensures closed <==> ClosedForProducers(info.Graph(), start, end, info.IsSyncPoint(end))
    ensures closed ==> Collected(info.Graph(), start, start, end, masks)
  {
    ghost var g := info.Graph();
    g.DepsIncrease();
    masks := seq(end + 1 - start, _ => {});
    var t := end + 1;
    while t > start
      invariant start <= t <= end + 1 && Collected(g, start, t, end, masks)
      invariant forall u, c :: (u, c) in g.Deps() && t <= u <= end && !(u == end && info.IsSyncPoint(end)) ==>
        start <= c <= end
    {
      t := t - 1;
      var mask := info.taskUpdateBarriers[t];
      if !(t == end && info.IsSyncPoint(t)) {
        var inRange, childMask := UniteChildren(info, t, start, end, masks);
        if !inRange {
          return false, masks;
        }
        mask := mask + childMask;
      }
      CollectStep(g, start, t, end, masks, mask, info.taskUpdateBarriers[t]);
      masks := masks[t - start := mask];
    }
    closed := true;
  }

  /** Second phase: each task drops the update barriers found in the masks of the tasks that
      depend on it. */
  method RemoveImpliedUpdates(info: BarrierInfo, start: nat, end: nat, masks: seq<set<nat>>)
    requires info.Valid() && info.Graph().InProgramOrder() && start <= end < |info.taskWaitBarriers|
    requires Collected(info.Graph(), start, start, end, masks)
    modifies info`barrierProducerMap, info`taskUpdateBarriers
    ensures info.Valid() && info.Graph() == PruneProducers(old(info.Graph()), start, end)
  {
    ghost var g := info.Graph();
    g.DepsIncrease();
    assert forall b :: 0 <= b < |g.producers| ==>
      PruneProducersBefore(g, start, end, start).producers[b] == g.producers[b];
    var t := start;
    while t <= end
      invariant start <= t <= end + 1 && info.Valid()
      invariant info.Graph() == PruneProducersBefore(g, start, end, t)
    {
      var inRange, childMask := UniteChildren(info, t, start, end, masks);
      var kept := masks[t - start] - childMask;
      KeptUpdates(info.Graph(), g, start, t, end, masks, childMask, kept);
      PruneProducersStep(g, start, t, end, kept);
      info.SetUpdateBarriers(t, kept);
      t := t + 1;
    }
  }

  lemma KeptUpdates(h: Graph, g: Graph, start: nat, t: nat, end: nat, masks: seq<set<nat>>,
                    childMask: set<nat>, kept: set<nat>)
    requires |g.producers| == |g.consumers| && g.InProgramOrder() && Collected(g, start, start, end, masks)
    requires start <= t <= end && h == PruneProducersBefore(g, start, end, t) && kept == masks[t - start] - childMask
    requires forall x :: x in childMask <==> exists c :: (t, c) in h.Deps() && HasBit(masks, start, end, c, x)
    ensures forall b: nat :: b in kept <==>
      b < |g.producers| && t in g.producers[b] && !UpdatedLater(g, t, b, end)
  {
    forall c: nat
      ensures (t, c) in h.Deps() <==> (t, c) in g.Deps()
    {
      DepsOfUnpruned(g, start, t, end, c);
    }
    forall b: nat
      ensures b in kept <==>
        b < |g.producers| && t in g.producers[b] && !UpdatedLater(g, t, b, end)
    {
      assert b in masks[t - start] <==> HasBit(masks, start, end, t, b);
      if b < |g.producers| {
        ClearedMeansUpdatedLater(g, start, end, masks, t, b);
      }
    }
  }

  /** Update links of the block's tasks are cut down to those that are not implied by a later
      one.  Throws, changing nothing, exactly when a dependency leaves the block. */
  method OptimizeBarrierProducers(info: BarrierInfo, block: nat) returns (r: Outcome)
    requires info.Valid() && info.ValidBlocks() && info.Graph().InProgramOrder() && block < info.BlockCount()
    modifies info`barrierProducerMap, info`taskUpdateBarriers
    ensures info.Valid()
    ensures var range := old(info.BlockTaskRange(block, true, true));
      r.Done? <==> ClosedForProducers(old(info.Graph()), range.0, range.1, old(info.IsSyncPoint(range.1)))
    ensures r.Thrown? ==> info.Graph() == old(info.Graph())
    ensures var range := old(info.BlockTaskRange(block, true, true));
      r.Done? ==> info.Graph() == PruneProducers(old(info.Graph()), range.0, range.1)
  {
    ghost var g := info.Graph();
    var range := info.BlockTaskRange(block, true, true);
    var start, end := range.0, range.1;
    var barriers := info.BarriersForTasks(start, end, true);
    if barriers == [] {
      forall t: nat | start <= t <= end
        ensures info.taskUpdateBarriers[t] == {}
      {
        assert forall b :: b in info.BarriersOfTask(t, true) ==> b in barriers;
      }
      assert forall t: nat, b: nat :: start <= t <= end && b < |g.producers| && t in info.barrierProducerMap[b] ==>
        b in info.taskUpdateBarriers[t];
      NothingToPrune(g, start, end);
      return Done;
    }
    var closed, masks := CollectUpdates(info, start, end);
    if !closed {
      return Thrown("task has update barriers with a consumer from outside of the current range");
    }
    RemoveImpliedUpdates(info, start, end, masks);
    r := Done;
  }
}
