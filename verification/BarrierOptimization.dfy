/** `optimizeBarriers`: per block, redundant update links are dropped, barriers with the same
    producers are merged, and redundant wait links are dropped. */
module BarrierOptimization {
  import opened Reachability
  import opened BarrierGraph
  import opened ControlBlocks
  import opened BarrierInfoModule
  import opened BarrierPruning
  import opened VariantBatches
  import opened ProducerOptimization
  import opened ConsumerOptimization

  /** Whether one barrier with these producers and consumers fits into `limit` slots. */
  predicate FitsSlots(slots: seq<nat>, producers: set<nat>, consumers: set<nat>, check: bool, limit: nat) {
    check ==> SlotCount(slots, producers) + SlotCount(slots, consumers) <= limit
  }

  function MergeInto(g: Graph, b: nat, child: nat): Graph
    requires b < |g.producers| == |g.consumers| && child < |g.producers|
  {
    g.AddConsumers(b, g.consumers[child]).ResetBarrier(child)
  }

  /** Merging two barriers with the same producers keeps every direct dependency as it is. */
  lemma MergeKeepsDeps(g: Graph, b: nat, child: nat)
    requires b < child < |g.producers| == |g.consumers| && g.producers[b] == g.producers[child]
    ensures MergeInto(g, b, child).Deps() == g.Deps()
  {
    var h := MergeInto(g, b, child);
    forall p: nat, c: nat
      ensures (p, c) in h.Deps() <==> (p, c) in g.Deps()
    {
      g.DepsMeansLinked(p, c);
      h.DepsMeansLinked(p, c);
      if x :| g.Linked(x, p, c) {
        assert h.Linked(if x == child then b else x, p, c);
      }
      if x :| h.Linked(x, p, c) {
        assert g.Linked(x, p, c) || g.Linked(child, p, c);
      }
    }
  }

  /** What merging does to a graph, whatever pairs were merged: dependencies stay as they are,
      a barrier keeps its producers or is emptied, and gains only consumers of barriers with
      the same producers; barriers outside of `list` are not touched. */
  ghost predicate Merged(g: Graph, h: Graph, list: seq<nat>)
    requires |g.producers| == |g.consumers|
  {
    && h.tasks == g.tasks && |h.producers| == |h.consumers| == |g.producers|
    && h.Deps() == g.Deps()
    && (forall b :: 0 <= b < |g.producers| ==>
          (h.producers[b] == g.producers[b] && g.consumers[b] <= h.consumers[b]) ||
            (h.producers[b] == {} && h.consumers[b] == {}))
    && (forall b: nat, c: nat {:trigger c in h.consumers[b]} ::
      b < |g.producers| && c in h.consumers[b] && c !in g.consumers[b] ==>
          && b in list
          && exists x: nat :: x < |g.producers| && x in list && g.producers[x] == g.producers[b] && c in g.consumers[x])
  }

  lemma MergedStep(g: Graph, h: Graph, list: seq<nat>, b: nat, child: nat)
    requires |g.producers| == |g.consumers| && Merged(g, h, list)
    requires b < child < |g.producers| && b in list && child in list
    requires h.producers[b] == h.producers[child] && g.producers[b] != {} && g.producers[child] != {}
    ensures Merged(g, MergeInto(h, b, child), list)
  {
    MergeKeepsDeps(h, b, child);
    var k := MergeInto(h, b, child);
    forall x: nat, c: nat | x < |g.producers| && c in k.consumers[x] && c !in g.consumers[x]
      ensures x in list
      ensures exists y: nat :: y < |g.producers| && y in list && g.producers[y] == g.producers[x] && c in g.consumers[y]
    {
      if c !in h.consumers[x] {
        assert x == b && c in h.consumers[child];
        if c in g.consumers[child] {
          assert child < |g.producers| && g.producers[child] == g.producers[x] && c in g.consumers[child];
        } else {
          var y: nat :| y < |g.producers| && y in list && g.producers[y] == g.producers[child] && c in g.consumers[y];
          assert g.producers[y] == g.producers[x];
        }
      }
    }
  }

  /** Every pair of listed barriers, up to position `i` and with partners below `j` for position
      `i` itself, that still shares its producers would exceed the slot limit when merged. */
  ghost predicate PairsSettled(g: Graph, list: seq<nat>, i: nat, j: nat, slots: seq<nat>, check: bool, limit: nat)
    requires |g.producers| == |g.consumers| && (forall k :: 0 <= k < |list| ==> list[k] < |g.producers|)
  {
    forall x: nat, y: nat :: x < y < |list| && (x < i || (x == i && y < j)) ==>
      MustStayApart(g, list[x], list[y], slots, check, limit)
  }

  ghost predicate MustStayApart(g: Graph, b: nat, child: nat, slots: seq<nat>, check: bool, limit: nat)
    requires |g.producers| == |g.consumers| && b < |g.producers| && child < |g.producers|
  {
    g.producers[b] == g.producers[child] && g.producers[b] != {} ==>
      !FitsSlots(slots, g.producers[b], g.consumers[b] + g.consumers[child], check, limit)
  }

  lemma MergeKeepsApart(g: Graph, b: nat, child: nat, x: nat, y: nat, slots: seq<nat>, check: bool, limit: nat)
    requires b < child < |g.producers| == |g.consumers| && x < |g.producers| && y < |g.producers|
    requires MustStayApart(g, x, y, slots, check, limit)
    requires g.producers[b] == g.producers[child]
    ensures MustStayApart(MergeInto(g, b, child), x, y, slots, check, limit)
  {
    var h := MergeInto(g, b, child);
    if h.producers[x] == h.producers[y] && h.producers[x] != {} {
      SlotCountMonotone(slots, g.consumers[x] + g.consumers[y], h.consumers[x] + h.consumers[y]);
    }
  }

  /** Merging the pair at positions `i` and `j` keeps what earlier pairs established. */
  lemma MergeStep(g: Graph, h: Graph, list: seq<nat>, i: nat, j: nat, slots: seq<nat>, check: bool, limit: nat)
    requires |g.producers| == |g.consumers| && Merged(g, h, list) && i < j < |list|
    requires forall k :: 0 <= k < |list| ==> list[k] in list && list[k] < |g.producers| && g.producers[list[k]] != {}
    requires forall x, y :: 0 <= x < y < |list| ==> list[x] < list[y]
    requires h.producers[list[i]] == h.producers[list[j]]
    requires PairsSettled(h, list, i, j, slots, check, limit)
    ensures Merged(g, MergeInto(h, list[i], list[j]), list)
    ensures PairsSettled(MergeInto(h, list[i], list[j]), list, i, j + 1, slots, check, limit)
  {
    MergedStep(g, h, list, list[i], list[j]);
    forall x: nat, y: nat | x < y < |list| && (x < i || (x == i && y < j))
      ensures MustStayApart(MergeInto(h, list[i], list[j]), list[x], list[y], slots, check, limit)
    {
      MergeKeepsApart(h, list[i], list[j], list[x], list[y], slots, check, limit);
    }
  }

  /** No barrier has more producers than before, and each that has gained consumers fits into the slots. */
  ghost predicate GainsFit(g: Graph, h: Graph, slots: seq<nat>, check: bool, limit: nat)
    requires |g.producers| == |g.consumers|
  {
    && |h.producers| == |h.consumers| == |g.producers|
    && forall b :: 0 <= b < |g.producers| ==>
         && h.producers[b] <= g.producers[b]
         && (h.consumers[b] <= g.consumers[b] || FitsSlots(slots, h.producers[b], h.consumers[b], check, limit))
  }

  lemma GainsTransitive(g: Graph, h: Graph, k: Graph, slots: seq<nat>, check: bool, limit: nat)
    requires |g.producers| == |g.consumers| && GainsFit(g, h, slots, check, limit)
    requires GainsFit(h, k, slots, check, limit)
    ensures GainsFit(g, k, slots, check, limit)
  {
    forall b | 0 <= b < |g.producers|
      ensures k.consumers[b] <= g.consumers[b] || FitsSlots(slots, k.producers[b], k.consumers[b], check, limit)
    {
      SlotCountMonotone(slots, k.producers[b], h.producers[b]);
      if k.consumers[b] <= h.consumers[b] {
        SlotCountMonotone(slots, k.consumers[b], h.consumers[b]);
      }
    }
  }

  lemma MergeGains(g: Graph, h: Graph, b: nat, child: nat, slots: seq<nat>, check: bool, limit: nat)
    requires |g.producers| == |g.consumers| && GainsFit(g, h, slots, check, limit)
    requires b < child < |g.producers|
    requires FitsSlots(slots, h.producers[b], h.consumers[b] + h.consumers[child], check, limit)
    ensures GainsFit(g, MergeInto(h, b, child), slots, check, limit)
  {
  }

  ghost predicate IntersectsRange(tasks: set<nat>, range: (int, int)) {
    exists t :: t in tasks && range.0 <= t <= range.1
  }

  /** Ascending barriers, each with producers. */
  ghost predicate ProducedBarriers(g: Graph, list: seq<nat>) {
    && (forall k :: 0 <= k < |list| ==> list[k] in list && list[k] < |g.producers| && g.producers[list[k]] != {})
    && (forall x, y :: 0 <= x < y < |list| ==> list[x] < list[y])
  }

  /** Exactly the barriers that some task of the range produces for, in ascending order. */
  ghost predicate ListedFor(g: Graph, list: seq<nat>, range: (int, int)) {
    && ProducedBarriers(g, list)
    && forall b: nat :: b in list <==> b < |g.producers| && IntersectsRange(g.producers[b], range)
  }

  /** Barriers of the range with the same producers have been merged as far as the slots allow, and
      nothing else has been. */
  ghost predicate MergedInRange(g: Graph, h: Graph, list: seq<nat>, range: (int, int), slots: seq<nat>, check: bool,
                                limit: nat)
    requires |g.producers| == |g.consumers|
  {
    && Merged(g, h, list) && ListedFor(g, list, range) && GainsFit(g, h, slots, check, limit)
    && PairsSettled(h, list, |list|, 0, slots, check, limit)
  }

  ghost predicate CopyOfProducers(g: Graph, list: seq<nat>, producers: seq<set<nat>>) {
    |producers| == |list| &&
    forall k :: 0 <= k < |list| ==> list[k] < |g.producers| && producers[k] == g.producers[list[k]]
  }

  method MergeBarriers(info: BarrierInfo, b: nat, child: nat)
    requires info.Valid() && b < |info.barrierProducerMap| && child < |info.barrierProducerMap|
    modifies info`barrierProducerMap, info`taskUpdateBarriers, info`barrierConsumerMap, info`taskWaitBarriers
    ensures info.Valid() && info.Graph() == MergeInto(old(info.Graph()), b, child)
  {
    info.AddConsumers(b, info.barrierConsumerMap[child]);
    info.ResetBarrier(child);
  }

  /** The inner loop: barrier `list[i]` takes over later barriers of the list. */
  method MergeWithLater(info: BarrierInfo, list: seq<nat>, i: nat, before: seq<set<nat>>, check: bool, limit: nat,
                        ghost g: Graph)
    returns (producers: seq<set<nat>>)
    requires info.Valid() && i < |list| && |g.producers| == |g.consumers| && ProducedBarriers(g, list)
    requires Merged(g, info.Graph(), list) && CopyOfProducers(info.Graph(), list, before)
    requires PairsSettled(info.Graph(), list, i, 0, info.slots, check, limit)
    requires GainsFit(g, info.Graph(), info.slots, check, limit)
    modifies info`barrierProducerMap, info`taskUpdateBarriers, info`barrierConsumerMap, info`taskWaitBarriers
    ensures info.Valid() && Merged(g, info.Graph(), list) && CopyOfProducers(info.Graph(), list, producers)
    ensures PairsSettled(info.Graph(), list, i + 1, 0, info.slots, check, limit)
    ensures GainsFit(g, info.Graph(), info.slots, check, limit)
  {
    hide Merged, GainsFit, PairsSettled;
    SettledNext(info.Graph(), list, i, info.slots, check, limit);
    MergedSize(g, info.Graph(), list);
    producers := before;
    var j := i + 1;
    while j < |list|
      invariant i < j <= |list| && info.Valid()
      invariant Merged(g, info.Graph(), list) && CopyOfProducers(info.Graph(), list, producers)
      invariant PairsSettled(info.Graph(), list, i, j, info.slots, check, limit)
      invariant GainsFit(g, info.Graph(), info.slots, check, limit)
    {
      var b, child := list[i], list[j];
      var consumers := info.barrierConsumerMap[b] + info.barrierConsumerMap[child];
      if producers[i] == producers[j] && FitsSlots(info.slots, info.barrierProducerMap[b], consumers, check, limit) {
        MergeStep(g, info.Graph(), list, i, j, info.slots, check, limit);
        MergeGains(g, info.Graph(), b, child, info.slots, check, limit);
        MergeBarriers(info, b, child);
        producers := producers[j := {}];
      } else {
        SettledApart(info.Graph(), list, i, j, info.slots, check, limit);
      }
      MergedSize(g, info.Graph(), list);
      j := j + 1;
    }
    SettledAll(info.Graph(), list, i, info.slots, check, limit);
  }

  lemma MergedSize(g: Graph, h: Graph, list: seq<nat>)
    requires |g.producers| == |g.consumers| && Merged(g, h, list)
    ensures |h.producers| == |h.consumers| == |g.producers|
  {
  }

  lemma SettledNext(g: Graph, list: seq<nat>, i: nat, slots: seq<nat>, check: bool, limit: nat)
    requires |g.producers| == |g.consumers| && (forall k :: 0 <= k < |list| ==> list[k] < |g.producers|)
    requires PairsSettled(g, list, i, 0, slots, check, limit)
    ensures PairsSettled(g, list, i, i + 1, slots, check, limit)
  {
  }

  /** The pair at positions `i` and `j` need not or must not be merged. */
  lemma SettledApart(g: Graph, list: seq<nat>, i: nat, j: nat, slots: seq<nat>, check: bool, limit: nat)
    requires |g.producers| == |g.consumers| && (forall k :: 0 <= k < |list| ==> list[k] < |g.producers|)
    requires PairsSettled(g, list, i, j, slots, check, limit) && i < j < |list|
    requires MustStayApart(g, list[i], list[j], slots, check, limit)
    ensures PairsSettled(g, list, i, j + 1, slots, check, limit)
  {
  }

  lemma SettledAll(g: Graph, list: seq<nat>, i: nat, slots: seq<nat>, check: bool, limit: nat)
    requires |g.producers| == |g.consumers| && (forall k :: 0 <= k < |list| ==> list[k] < |g.producers|)
    requires PairsSettled(g, list, i, |list|, slots, check, limit)
    ensures PairsSettled(g, list, i + 1, 0, slots, check, limit)
  {
  }

  /** Barriers of a block that have the same producers are merged, unless the result would
      need more slots than a barrier has. */
  method OptimizeBarriersWithSameProducers(info: BarrierInfo, block: nat, checkValidSlotCount: bool, maxVariantSum: nat)
    returns (list: seq<nat>)
    requires info.Valid() && info.ValidBlocks() && block < info.BlockCount()
    modifies info`barrierProducerMap, info`taskUpdateBarriers, info`barrierConsumerMap, info`taskWaitBarriers
    ensures info.Valid() && MergedInRange(old(info.Graph()), info.Graph(), list,
      old(info.BlockTaskRange(block, true, false)), info.slots, checkValidSlotCount, maxVariantSum)
  {
    ghost var g := info.Graph();
    var range := info.BlockTaskRange(block, true, false);
    list := info.BarriersForTasks(range.0, range.1, true);
    forall b: nat
      ensures b in list <==> b < |g.producers| && IntersectsRange(g.producers[b], range)
    {
      if b in list {
        var t: nat :| range.0 <= t <= range.1 && b in info.BarriersOfTask(t, true);
        assert t in g.producers[b];
      }
      if b < |g.producers| && IntersectsRange(g.producers[b], range) {
        var t :| t in g.producers[b] && range.0 <= t <= range.1;
        assert b in info.BarriersOfTask(t, true);
      }
    }
    assert ProducedBarriers(g, list) by {
      forall k | 0 <= k < |list|
        ensures list[k] in list && list[k] < |g.producers| && g.producers[list[k]] != {}
      {
        assert list[k] in list;
        assert list[k] < |g.producers|;
        assert IntersectsRange(g.producers[list[k]], range);
      }
    }
    var producers: seq<set<nat>> := [];
    while |producers| < |list|
      invariant |producers| <= |list| && forall k :: 0 <= k < |producers| ==> producers[k] == g.producers[list[k]]
      invariant info.Valid() && info.Graph() == g
    {
      producers := producers + [info.barrierProducerMap[list[|producers|]]];
    }
    var i := 0;
    while i < |list|
      invariant i <= |list| && info.Valid()
      invariant Merged(g, info.Graph(), list) && CopyOfProducers(info.Graph(), list, producers)
      invariant PairsSettled(info.Graph(), list, i, 0, info.slots, checkValidSlotCount, maxVariantSum)
      invariant GainsFit(g, info.Graph(), info.slots, checkValidSlotCount, maxVariantSum)
    {
      producers := MergeWithLater(info, list, i, producers, checkValidSlotCount, maxVariantSum, g);
      i := i + 1;
    }
  }

  /** Within `start..end` no producer of a barrier runs before another producer of it. */
  ghost predicate ProducersIndependent(g: Graph, order: Edges, start: nat, end: nat) {
    forall b: nat, p: nat, d: nat {:trigger p in g.producers[b], d in g.producers[b]} ::
      b < |g.producers| && p in g.producers[b] && d in g.producers[b] && start <= p && d <= end ==>
        !Reaches(order, p, d)
  }

  /** Within `start..end` no consumer of a barrier runs before another consumer of it. */
  ghost predicate ConsumersIndependent(g: Graph, order: Edges, start: nat, end: nat) {
    forall b: nat, c: nat, d: nat {:trigger c in g.consumers[b], d in g.consumers[b]} ::
      b < |g.consumers| && c in g.consumers[b] && d in g.consumers[b] && start <= c && d <= end ==>
        !Reaches(order, c, d)
  }

  /** A barrier has producers exactly when it has consumers. */
  ghost predicate Paired(g: Graph, b: nat)
    requires b < |g.producers| == |g.consumers|
  {
    g.producers[b] == {} <==> g.consumers[b] == {}
  }

  ghost predicate BlocksIndependent(g: Graph, order: Edges, sync: seq<nat>, n: nat, blocks: nat)
    requires blocks <= |sync| + 1 && n > 0
  {
    forall k :: 0 <= k < blocks ==>
      ProducersIndependent(g, order, BlockStart(sync, k), BlockEnd(sync, n, k)) &&
      ConsumersIndependent(g, order, BlockStart(sync, k), BlockEnd(sync, n, k))
  }

  /** The latest producer of a barrier is never dropped. */
  lemma PruneProducersKeepsOne(g: Graph, start: nat, end: nat, b: nat)
    requires |g.producers| == |g.consumers| && g.InProgramOrder() && b < |g.producers| && g.producers[b] != {}
    ensures PruneProducers(g, start, end).producers[b] != {}
  {
    var last := Latest(g.producers[b]);
    if UpdatedLater(g, last, b, end) {
      var d: nat :| d <= end && Reaches(g.Deps(), last, d) && d in g.producers[b];
      g.DepsIncrease();
      ReachesIncreases(g.Deps(), last, d);
      assert false;
    }
    assert last in PruneProducers(g, start, end).producers[b];
  }

  /** The earliest consumer of a barrier is never dropped. */
  lemma PruneConsumersKeepsOne(g: Graph, start: nat, end: nat, b: nat)
    requires |g.producers| == |g.consumers| && g.InProgramOrder() && b < |g.consumers| && g.consumers[b] != {}
    ensures PruneConsumers(g, start, end).consumers[b] != {}
  {
    var first := Earliest(g.consumers[b]);
    if AwaitedEarlier(g, first, b, start) {
      var p: nat :| start <= p && Reaches(g.Deps(), p, first) && p in g.consumers[b];
      g.DepsIncrease();
      ReachesIncreases(g.Deps(), p, first);
      assert false;
    }
    assert first in PruneConsumers(g, start, end).consumers[b];
  }

  /** One block: its three passes make its links independent and leave earlier blocks alone. */
  lemma BlockStep(g: Graph, g1: Graph, g2: Graph, g3: Graph, list: seq<nat>, order: Edges,
                  sync: seq<nat>, size: nat, block: nat)
    requires g.WellFormed() && g.InProgramOrder() && SameReachability(order, g.Deps())
    requires EvenlySplit(sync, size, g.tasks) && block <= |sync|
    requires ClosedForProducers(g, BlockStart(sync, block), BlockEnd(sync, g.tasks, block),
                                IsSyncPosition(size, g.tasks, BlockEnd(sync, g.tasks, block)))
    requires g1 == PruneProducers(g, BlockStart(sync, block), BlockEnd(sync, g.tasks, block))
    requires Merged(g1, g2, list)
    requires forall b :: b in list ==> (b < |g1.producers| &&
      IntersectsRange(g1.producers[b],
        (BlockStart(sync, block), if block == |sync| then g.tasks - 1 else BlockEnd(sync, g.tasks, block) - 1)))
    requires g3 == PruneConsumers(g2, BlockStart(sync, block), BlockEnd(sync, g.tasks, block))
    requires BlocksIndependent(g, order, sync, g.tasks, block)
    ensures BlocksIndependent(g3, order, sync, g.tasks, block + 1)
  {
    var start, end := BlockStart(sync, block), BlockEnd(sync, g.tasks, block);
    PruneProducersSameOrder(g, start, end);
    FewerLinksFewerDeps(g, g1);
    forall k | 0 <= k <= block
      ensures ProducersIndependent(g3, order, BlockStart(sync, k), BlockEnd(sync, g.tasks, k))
    {
      ProducersStayIndependent(g, g1, g2, g3, list, order, start, end, BlockStart(sync, k), BlockEnd(sync, g.tasks, k));
    }
    forall b: nat, c: nat | b < |g.producers| && c in g2.consumers[b] && c !in g.consumers[b]
      ensures c > start
    {
      var x: nat :| x < |g1.producers| && x in list && g1.producers[x] == g1.producers[b] && c in g1.consumers[x];
      var t: nat :| t in g1.producers[x] && start <= t <= (if block == |sync| then g.tasks - 1 else end - 1);
      assert g1.Linked(x, t, c);
      assert g.Linked(x, t, c);
    }
    forall k | 0 <= k <= block
      ensures ConsumersIndependent(g3, order, BlockStart(sync, k), BlockEnd(sync, g.tasks, k))
    {
      if k < block {
        BlocksAscend(sync, size, g.tasks, k, block);
      }
      ConsumersStayIndependent(g, g1, g2, g3, list, order, start, end, BlockStart(sync, k), BlockEnd(sync, g.tasks, k));
    }
  }

  lemma ProducersStayIndependent(g: Graph, g1: Graph, g2: Graph, g3: Graph, list: seq<nat>, order: Edges,
                                 start: nat, end: nat, s: nat, e: nat)
    requires g.WellFormed() && g.InProgramOrder() && SameReachability(order, g.Deps())
    requires g1 == PruneProducers(g, start, end) && Merged(g1, g2, list) && g3 == PruneConsumers(g2, start, end)
    requires (s == start && e == end) || ProducersIndependent(g, order, s, e)
    ensures ProducersIndependent(g3, order, s, e)
  {
    forall b: nat, p: nat, d: nat | b < |g.producers| && p in g3.producers[b] && d in g3.producers[b] && s <= p &&
        d <= e
      ensures !Reaches(order, p, d)
    {
      assert p in g1.producers[b] && d in g1.producers[b];
      assert p in g.producers[b] && d in g.producers[b];
      if s == start && e == end && Reaches(order, p, d) {
        g.DepsIncrease();
        ReachesIncreases(g.Deps(), p, d);
        assert UpdatedLater(g, p, b, end);
        assert false;
      }
    }
  }

  lemma ConsumersStayIndependent(g: Graph, g1: Graph, g2: Graph, g3: Graph, list: seq<nat>, order: Edges,
                                 start: nat, end: nat, s: nat, e: nat)
    requires g.WellFormed() && g.InProgramOrder() && SameReachability(order, g.Deps())
    requires g1 == PruneProducers(g, start, end) && Merged(g1, g2, list) && g3 == PruneConsumers(g2, start, end)
    requires SameReachability(g.Deps(), g1.Deps())
    requires forall b: nat, c: nat :: b < |g.producers| && c in g2.consumers[b] && c !in g.consumers[b] ==> c > start
    requires (s == start && e == end) || (ConsumersIndependent(g, order, s, e) && e <= start)
    ensures ConsumersIndependent(g3, order, s, e)
  {
    forall b: nat, c: nat, d: nat | b < |g.consumers| && c in g3.consumers[b] && d in g3.consumers[b] && s <= c &&
        d <= e
      ensures !Reaches(order, c, d)
    {
      assert c in g2.consumers[b] && d in g2.consumers[b];
      if Reaches(order, c, d) {
        assert Reaches(g2.Deps(), c, d);
        g.DepsIncrease();
        ReachesIncreases(g.Deps(), c, d);
        if s == start && e == end {
          assert AwaitedEarlier(g2, d, b, start);
        }
        assert false;
      }
    }
  }

  lemma Latest(tasks: set<nat>) returns (last: nat)
    requires tasks != {}
    ensures last in tasks && forall t :: t in tasks ==> t <= last
  {
    var pick :| pick in tasks;
    var rest := tasks - {pick};
    assert forall t :: t in tasks ==> t == pick || t in rest;
    last := pick;
    if rest != {} {
      var other := Latest(rest);
      if last < other {
        last := other;
      }
    }
  }

  lemma Earliest(tasks: set<nat>) returns (first: nat)
    requires tasks != {}
    ensures first in tasks && forall t :: t in tasks ==> first <= t
  {
    var pick :| pick in tasks;
    var rest := tasks - {pick};
    assert forall t :: t in tasks ==> t == pick || t in rest;
    first := pick;
    if rest != {} {
      var other := Earliest(rest);
      if other < first {
        first := other;
      }
    }
  }

  /** What `verifyControlGraphSplit` accepts: no sync tasks, or blocks that respect them. */
  ghost predicate SplitVerified(g: Graph, sync: seq<nat>, size: nat)
    requires |g.producers| == |g.consumers|
  {
    sync != [] ==> RespectsBlocks(g.Deps(), size)
  }

  ghost predicate Waits(g: Graph, t: int)
    requires |g.producers| == |g.consumers|
  {
    exists p :: (p, t) in g.Deps()
  }

  /** Block `block` is the empty one behind a sync task at the very end, which waits for another task. */
  ghost predicate DeadEnd(g: Graph, sync: seq<nat>, block: nat)
    requires |g.producers| == |g.consumers|
  {
    block == |sync| && EndsWithSync(sync, g.tasks) && Waits(g, g.tasks - 1)
  }

  lemma StillWaits(g: Graph, h: Graph, t: nat)
    requires |g.producers| == |g.consumers| && |h.producers| == |h.consumers|
    requires SameReachability(g.Deps(), h.Deps()) && Waits(g, t)
    ensures Waits(h, t)
  {
    var p :| (p, t) in g.Deps();
    EdgeReaches(g.Deps(), p, t);
    var q := LastStep(h.Deps(), p, t);
    assert (q, t) in h.Deps();
  }

  lemma StillDeadEnd(g: Graph, h: Graph, sync: seq<nat>, block: nat)
    requires |g.producers| == |g.consumers| && |h.producers| == |h.consumers| && g.tasks == h.tasks > 0
    requires SameReachability(g.Deps(), h.Deps())
    ensures DeadEnd(g, sync, block) <==> DeadEnd(h, sync, block)
  {
    hide Waits;
    if Waits(g, g.tasks - 1) {
      StillWaits(g, h, g.tasks - 1);
    }
    if Waits(h, g.tasks - 1) {
      StillWaits(h, g, g.tasks - 1);
    }
  }

  /** Only the empty block behind a sync task at the very end starts at the last task. */
  lemma BlockStartsEarlier(sync: seq<nat>, size: nat, n: nat, block: nat)
    requires EvenlySplit(sync, size, n) && block <= |sync|
    ensures block > 0 && !(block == |sync| && EndsWithSync(sync, n)) ==> sync[block - 1] < n - 1
    ensures block == |sync| && EndsWithSync(sync, n) ==> BlockStart(sync, block) == BlockEnd(sync, n, block) == n - 1
    ensures !IsSyncPosition(size, n, n - 1)
  {
    if 0 < block < |sync| {
      BlocksAscend(sync, size, n, block - 1, block);
      assert sync[block] == (block + 1) * size - 1 && sync[block - 1] == block * size - 1;
    }
  }

  lemma VerifiedBlocksAreClosed(g: Graph, sync: seq<nat>, size: nat, block: nat)
    requires g.WellFormed() && g.InProgramOrder() && EvenlySplit(sync, size, g.tasks) && block <= |sync|
    requires SplitVerified(g, sync, size)
    ensures var start, end := BlockStart(sync, block), BlockEnd(sync, g.tasks, block);
      ClosedForProducers(g, start, end, IsSyncPosition(size, g.tasks, end)) &&
      (ClosedForConsumers(g, start, end, IsSyncPosition(size, g.tasks, start)) <==> !DeadEnd(g, sync, block))
  {
    var start, end := BlockStart(sync, block), BlockEnd(sync, g.tasks, block);
    BlockStartsEarlier(sync, size, g.tasks, block);
    forall p, c | (p, c) in g.Deps()
      ensures start <= p <= end && !(p == end && IsSyncPosition(size, g.tasks, end)) ==> start <= c <= end
      ensures !(block == |sync| && EndsWithSync(sync, g.tasks)) ==>
        (start <= c <= end && !(c == start && IsSyncPosition(size, g.tasks, start)) ==> start <= p <= end)
      ensures p < c
    {
      g.DepsMeansLinked(p, c);
      if start <= p <= end && !(p == end && IsSyncPosition(size, g.tasks, end)) {
        ForwardStaysInBlock(sync, size, g.tasks, g.Deps(), block, p, c);
      }
      if start <= c <= end && !(c == start && IsSyncPosition(size, g.tasks, start)) &&
        !(block == |sync| && EndsWithSync(sync, g.tasks)) {
        BackwardStaysInBlock(sync, size, g.tasks, g.Deps(), block, p, c);
      }
    }
  }

  /** No barrier in use has two producers, or two consumers, that are already ordered. */
  ghost predicate NoRedundantLinks(g: Graph)
    requires |g.producers| == |g.consumers|
  {
    forall b: nat :: b < |g.producers| && g.producers[b] != {} && g.consumers[b] != {} ==>
      (forall p, d :: p in g.producers[b] && d in g.producers[b] ==> !g.HappensBefore(p, d)) &&
      (forall c, d :: c in g.consumers[b] && d in g.consumers[b] ==> !g.HappensBefore(c, d))
  }

  lemma IndependentBlocksSuffice(g: Graph, order: Edges, sync: seq<nat>, size: nat)
    requires g.WellFormed() && g.InProgramOrder() && EvenlySplit(sync, size, g.tasks) && SplitVerified(g, sync, size)
    requires SameReachability(order, g.Deps()) && BlocksIndependent(g, order, sync, g.tasks, |sync| + 1)
    ensures NoRedundantLinks(g)
  {
    forall b: nat | b < |g.producers| && g.producers[b] != {} && g.consumers[b] != {}
      ensures forall p, d :: p in g.producers[b] && d in g.producers[b] ==> !g.HappensBefore(p, d)
      ensures forall c, d :: c in g.consumers[b] && d in g.consumers[b] ==> !g.HappensBefore(c, d)
    {
      var p0: nat :| p0 in g.producers[b];
      var c0: nat :| c0 in g.consumers[b];
      assert g.Linked(b, p0, c0);
      var k := FindBlock(sync, size, g.tasks, c0);
      VerifiedBlocksAreClosed(g, sync, size, k);
      var start, end := BlockStart(sync, k), BlockEnd(sync, g.tasks, k);
      forall p | p in g.producers[b]
        ensures start <= p < c0 <= end
      {
        assert g.Linked(b, p, c0);
        assert (p, c0) in g.Deps();
      }
      forall c | c in g.consumers[b]
        ensures start <= c <= end
      {
        assert g.Linked(b, p0, c);
        assert (p0, c) in g.Deps();
      }
    }
  }

  lemma FewerDepsKeepProgramOrder(g: Graph, h: Graph)
    requires |g.producers| == |g.consumers| && |h.producers| == |h.consumers|
    requires g.InProgramOrder() && h.Deps() <= g.Deps()
    ensures h.InProgramOrder()
  {
    forall b, p, c | h.Linked(b, p, c)
      ensures p < c
    {
      assert (p, c) in h.Deps();
      g.DepsMeansLinked(p, c);
    }
  }

  /** No barrier keeps producers while losing all consumers, or the reverse. */
  ghost predicate KeepsPairs(g: Graph, h: Graph)
    requires |g.producers| == |g.consumers| == |h.producers| == |h.consumers|
  {
    forall b: nat :: b < |g.producers| && Paired(g, b) ==> Paired(h, b)
  }

  /** Dropping links keeps "producers exactly when consumers", as does merging. */
  lemma PairedStaysPaired(g: Graph, g1: Graph, g2: Graph, g3: Graph, list: seq<nat>, start: nat, end: nat, b: nat)
    requires g.WellFormed() && g.InProgramOrder() && b < |g.producers| && Paired(g, b)
    requires g1 == PruneProducers(g, start, end) && Merged(g1, g2, list) && g2.InProgramOrder()
    requires g3 == PruneConsumers(g2, start, end)
    requires forall x :: x in list ==> x < |g1.producers| && g1.producers[x] != {}
    ensures Paired(g3, b)
  {
    if g.producers[b] != {} {
      PruneProducersKeepsOne(g, start, end, b);
    }
    if g2.consumers[b] != {} {
      PruneConsumersKeepsOne(g2, start, end, b);
    }
    if g1.producers[b] == {} {
      assert b !in list;
      assert forall c: nat :: c in g2.consumers[b] ==> c in g1.consumers[b];
    }
  }

  /** What the three passes over one block do. */
  ghost predicate BlockOptimized(g: Graph, h: Graph, sync: seq<nat>, block: nat, slots: seq<nat>, check: bool,
                                 limit: nat)
    requires |g.producers| == |g.consumers| && block <= |sync| && g.tasks > 0
  {
    var start, end := BlockStart(sync, block), BlockEnd(sync, g.tasks, block);
    exists g2: Graph, list: seq<nat> :: MergedAndPruned(g, g2, h, list, sync, block, slots, check, limit)
  }

  ghost predicate MergedAndPruned(g: Graph, g2: Graph, h: Graph, list: seq<nat>, sync: seq<nat>, block: nat,
                                  slots: seq<nat>, check: bool, limit: nat)
    requires |g.producers| == |g.consumers| && block <= |sync| && g.tasks > 0
  {
    var start, end := BlockStart(sync, block), BlockEnd(sync, g.tasks, block);
    var last := if block == |sync| then g.tasks - 1 else end - 1;
    && MergedInRange(PruneProducers(g, start, end), g2, list, (start, last), slots, check, limit)
    && h == PruneConsumers(g2, start, end)
  }

  /** `h` is what becomes of `g` when its first `blocks` blocks have been optimized one after the other. */
  ghost predicate BlocksOptimized(g: Graph, h: Graph, sync: seq<nat>, blocks: nat, slots: seq<nat>, check: bool,
                                  limit: nat)
    requires |g.producers| == |g.consumers| && blocks <= |sync| + 1 && g.tasks > 0
    decreases blocks
  {
    if blocks == 0 then g == h
    else
      exists m: Graph ::
        && |m.producers| == |m.consumers| && m.tasks == g.tasks
        && BlocksOptimized(g, m, sync, blocks - 1, slots, check, limit)
        && BlockOptimized(m, h, sync, blocks - 1, slots, check, limit)
  }

  /** The passes over a block leave no barrier with new consumers beyond its slots. */
  lemma BlockGainsFit(g: Graph, h: Graph, sync: seq<nat>, block: nat, slots: seq<nat>, check: bool, limit: nat)
    requires |g.producers| == |g.consumers| && block <= |sync| && g.tasks > 0
    requires BlockOptimized(g, h, sync, block, slots, check, limit)
    ensures GainsFit(g, h, slots, check, limit)
  {
    hide Merged, ListedFor, PairsSettled, UpdatedLater, AwaitedEarlier, FitsSlots;
    var g2: Graph, list: seq<nat> :| MergedAndPruned(g, g2, h, list, sync, block, slots, check, limit);
    var start, end := BlockStart(sync, block), BlockEnd(sync, g.tasks, block);
    var g1 := PruneProducers(g, start, end);
    assert GainsFit(g, g1, slots, check, limit);
    GainsTransitive(g, g1, g2, slots, check, limit);
    assert GainsFit(g2, h, slots, check, limit);
    GainsTransitive(g, g2, h, slots, check, limit);
  }

  /** `optimizeBarriers`.  Whatever the outcome, the tasks are ordered exactly as before.  On a
      graph that `verifyControlGraphSplit` accepts it throws exactly when the very last task is a
      sync task that waits for another one; otherwise no redundant link is left. */
  method OptimizeBarriers(info: BarrierInfo, checkValidSlotCount: bool, maxVariantSum: nat) returns (r: Outcome)
    requires info.Valid() && info.ValidBlocks() && info.Graph().InProgramOrder()
    modifies info`barrierProducerMap, info`taskUpdateBarriers, info`barrierConsumerMap, info`taskWaitBarriers
    ensures info.Valid() && info.ValidBlocks() && info.Graph().InProgramOrder()
    ensures |info.barrierProducerMap| == |old(info.barrierProducerMap)|
    ensures SameReachability(old(info.Graph()).Deps(), info.Graph().Deps())
    ensures info.Graph().Deps() <= old(info.Graph()).Deps()
    ensures old(SplitVerified(info.Graph(), info.syncTasksIds, info.controlGraphBlockSize)) ==>
      (r.Done? <==> !old(DeadEnd(info.Graph(), info.syncTasksIds, |info.syncTasksIds|))) &&
      (r.Done? ==> NoRedundantLinks(info.Graph()))
    ensures r.Done? ==> KeepsPairs(old(info.Graph()), info.Graph())
    ensures r.Done? ==> GainsFit(old(info.Graph()), info.Graph(), info.slots, checkValidSlotCount, maxVariantSum)
    ensures r.Done? ==> BlocksOptimized(old(info.Graph()), info.Graph(), info.syncTasksIds, |info.syncTasksIds| + 1,
      info.slots, checkValidSlotCount, maxVariantSum)
  {
    hide BlocksIndependent, NoRedundantLinks, DeadEnd, SplitVerified, KeepsPairs, SameReachability, GainsFit,
      BlockOptimized;
    ghost var g, order := info.Graph(), info.Graph().Deps();
    ghost var sync, size := info.syncTasksIds, info.controlGraphBlockSize;
    var block := 0;
    PairsStay(g, g, g);
    NothingYet(g, order, sync);
    NoGains(g, info.slots, checkValidSlotCount, maxVariantSum);
    while block < info.BlockCount()
      invariant block <= info.BlockCount() && info.Valid() && info.ValidBlocks() && info.Graph().InProgramOrder()
      invariant |info.barrierProducerMap| == |old(info.barrierProducerMap)|
      invariant SameReachability(order, info.Graph().Deps()) && info.Graph().Deps() <= order
      invariant BlocksIndependent(info.Graph(), order, info.syncTasksIds, info.Graph().tasks, block)
      invariant KeepsPairs(g, info.Graph()) && info.Graph().tasks == g.tasks
      invariant GainsFit(g, info.Graph(), info.slots, checkValidSlotCount, maxVariantSum)
      invariant BlocksOptimized(g, info.Graph(), sync, block, info.slots, checkValidSlotCount, maxVariantSum)
      invariant SplitVerified(g, sync, size) ==> forall k :: 0 <= k < block ==> !DeadEnd(g, sync, k)
    {
      ghost var before := info.Graph();
      StillDeadEnd(g, before, sync, block);
      StillVerified(g, before, sync, size);
      r := OptimizeBlock(info, block, checkValidSlotCount, maxVariantSum, order);
      if r.Thrown? {
        DeadEndIsLast(g, sync, block);
        return;
      }
      PairsStay(g, before, info.Graph());
      BlockGainsFit(before, info.Graph(), sync, block, info.slots, checkValidSlotCount, maxVariantSum);
      GainsTransitive(g, before, info.Graph(), info.slots, checkValidSlotCount, maxVariantSum);
      block := block + 1;
    }
    if SplitVerified(g, sync, size) {
      StillVerified(g, info.Graph(), sync, size);
      IndependentBlocksSuffice(info.Graph(), order, sync, size);
    }
    r := Done;
  }

  lemma PairsStay(g: Graph, h: Graph, k: Graph)
    requires |g.producers| == |g.consumers| == |h.producers| == |h.consumers| == |k.producers| == |k.consumers|
    ensures KeepsPairs(g, g) && (KeepsPairs(g, h) && KeepsPairs(h, k) ==> KeepsPairs(g, k))
  {
  }

  lemma NoGains(g: Graph, slots: seq<nat>, check: bool, limit: nat)
    requires |g.producers| == |g.consumers|
    ensures GainsFit(g, g, slots, check, limit)
  {
  }

  lemma NothingYet(g: Graph, order: Edges, sync: seq<nat>)
    requires |g.producers| == |g.consumers| && g.tasks > 0
    ensures BlocksIndependent(g, order, sync, g.tasks, 0) && SameReachability(g.Deps(), g.Deps())
  {
  }

  lemma StillVerified(g: Graph, h: Graph, sync: seq<nat>, size: nat)
    requires |g.producers| == |g.consumers| && |h.producers| == |h.consumers| && h.Deps() <= g.Deps()
    ensures SplitVerified(g, sync, size) ==> SplitVerified(h, sync, size)
  {
  }

  lemma DeadEndIsLast(g: Graph, sync: seq<nat>, block: nat)
    requires |g.producers| == |g.consumers|
    ensures DeadEnd(g, sync, block) ==> block == |sync|
  {
  }

  method OptimizeBlock(info: BarrierInfo, block: nat, checkValidSlotCount: bool, maxVariantSum: nat, ghost order: Edges)
    returns (r: Outcome)
    requires info.Valid() && info.ValidBlocks() && info.Graph().InProgramOrder() && block < info.BlockCount()
    requires SameReachability(order, info.Graph().Deps())
    requires BlocksIndependent(info.Graph(), order, info.syncTasksIds, info.Graph().tasks, block)
    modifies info`barrierProducerMap, info`taskUpdateBarriers, info`barrierConsumerMap, info`taskWaitBarriers
    ensures info.Valid() && info.ValidBlocks() && info.Graph().InProgramOrder()
    ensures |info.barrierProducerMap| == |old(info.barrierProducerMap)|
    ensures SameReachability(order, info.Graph().Deps()) && info.Graph().Deps() <= old(info.Graph()).Deps()
    ensures r.Done? ==> BlocksIndependent(info.Graph(), order, info.syncTasksIds, info.Graph().tasks, block + 1)
    ensures old(SplitVerified(info.Graph(), info.syncTasksIds, info.controlGraphBlockSize)) ==>
      (r.Done? <==> !old(DeadEnd(info.Graph(), info.syncTasksIds, block)))
    ensures r.Done? ==> KeepsPairs(old(info.Graph()), info.Graph())
    ensures r.Done? ==> BlockOptimized(old(info.Graph()), info.Graph(), info.syncTasksIds, block, info.slots,
      checkValidSlotCount, maxVariantSum)
  {
    hide BlocksIndependent, DeadEnd, SplitVerified, KeepsPairs, Merged, GainsFit, PairsSettled, PruneProducers,
      PruneConsumers, IsSyncPosition,
      ClosedForProducers, ClosedForConsumers;
    ghost var g := info.Graph();
    ghost var sync, size := info.syncTasksIds, info.controlGraphBlockSize;
    r := OptimizeBarrierProducers(info, block);
    if r.Thrown? {
      BlockClosedWhenVerified(g, sync, size, block);
      return;
    }
    ghost var g1 := info.Graph();
    var list := OptimizeBarriersWithSameProducers(info, block, checkValidSlotCount, maxVariantSum);
    ghost var g2 := info.Graph();
    FirstTwoPasses(g, g1, g2, list, sync, size, block);
    r := OptimizeBarrierConsumers(info, block);
    if r.Done? {
      assert MergedAndPruned(g, g2, info.Graph(), list, sync, block, info.slots, checkValidSlotCount, maxVariantSum);
      ThreePasses(g, g1, g2, info.Graph(), list, order, sync, size, block);
    }
  }

  lemma BlockClosedWhenVerified(g: Graph, sync: seq<nat>, size: nat, block: nat)
    requires g.WellFormed() && g.InProgramOrder() && EvenlySplit(sync, size, g.tasks) && block <= |sync|
    ensures var start, end := BlockStart(sync, block), BlockEnd(sync, g.tasks, block);
      SplitVerified(g, sync, size) ==>
        ClosedForProducers(g, start, end, IsSyncPosition(size, g.tasks, end)) &&
        (ClosedForConsumers(g, start, end, IsSyncPosition(size, g.tasks, start)) <==> !DeadEnd(g, sync, block))
  {
    hide ClosedForProducers, ClosedForConsumers, EvenlySplit, DeadEnd;
    if SplitVerified(g, sync, size) {
      VerifiedBlocksAreClosed(g, sync, size, block);
    }
  }

  lemma FirstTwoPasses(g: Graph, g1: Graph, g2: Graph, list: seq<nat>, sync: seq<nat>, size: nat, block: nat)
    requires g.WellFormed() && g2.WellFormed() && g.InProgramOrder()
    requires EvenlySplit(sync, size, g.tasks) && block <= |sync|
    requires g1 == PruneProducers(g, BlockStart(sync, block), BlockEnd(sync, g.tasks, block))
    requires Merged(g1, g2, list)
    ensures SameReachability(g.Deps(), g2.Deps()) && g2.Deps() <= g.Deps() && g2.InProgramOrder()
    ensures |g2.producers| == |g.producers|
    ensures var start, end := BlockStart(sync, block), BlockEnd(sync, g.tasks, block);
      SplitVerified(g, sync, size) ==>
        (ClosedForConsumers(g2, start, end, IsSyncPosition(size, g.tasks, start)) <==> !DeadEnd(g, sync, block))
  {
    PruneProducersSameOrder(g, BlockStart(sync, block), BlockEnd(sync, g.tasks, block));
    FewerLinksFewerDeps(g, g1);
    FewerDepsKeepProgramOrder(g, g2);
    BlockClosedWhenVerified(g2, sync, size, block);
    StillDeadEnd(g, g2, sync, block);
  }

  lemma ThreePasses(g: Graph, g1: Graph, g2: Graph, g3: Graph, list: seq<nat>, order: Edges,
                    sync: seq<nat>, size: nat, block: nat)
    requires g.WellFormed() && g2.WellFormed() && g.InProgramOrder() && SameReachability(order, g.Deps())
    requires EvenlySplit(sync, size, g.tasks) && block <= |sync|
    requires ClosedForProducers(g, BlockStart(sync, block), BlockEnd(sync, g.tasks, block),
                                IsSyncPosition(size, g.tasks, BlockEnd(sync, g.tasks, block)))
    requires g1 == PruneProducers(g, BlockStart(sync, block), BlockEnd(sync, g.tasks, block))
    requires Merged(g1, g2, list)
    requires forall b :: b in list ==> (b < |g1.producers| &&
      IntersectsRange(g1.producers[b],
        (BlockStart(sync, block), if block == |sync| then g.tasks - 1 else BlockEnd(sync, g.tasks, block) - 1)))
    requires g3 == PruneConsumers(g2, BlockStart(sync, block), BlockEnd(sync, g.tasks, block))
    requires BlocksIndependent(g, order, sync, g.tasks, block)
    ensures |g3.producers| == |g3.consumers| == |g.producers|
    ensures SameReachability(order, g3.Deps()) && g3.Deps() <= g.Deps() && g3.InProgramOrder()
    ensures BlocksIndependent(g3, order, sync, g.tasks, block + 1) && KeepsPairs(g, g3)
  {
    var start, end := BlockStart(sync, block), BlockEnd(sync, g.tasks, block);
    FirstTwoPasses(g, g1, g2, list, sync, size, block);
    PruneConsumersSameOrder(g2, start, end);
    FewerLinksFewerDeps(g2, g3);
    FewerDepsKeepProgramOrder(g, g3);
    BlockStep(g, g1, g2, g3, list, order, sync, size, block);
    forall b: nat | b < |g.producers| && Paired(g, b)
      ensures Paired(g3, b)
    {
      PairedStaysPaired(g, g1, g2, g3, list, start, end, b);
    }
  }

  /** Four tasks, of which the second and the last are sync tasks, and the last waits for the third:
      the split is accepted, but the third pass throws. */
  lemma LastSyncThrows()
    ensures var g, sync := Graph(4, [{2}], [{3}]), [1, 3];
      && g.WellFormed() && g.InProgramOrder() && EvenlySplit(sync, 2, 4) && SplitVerified(g, sync, 2)
      && DeadEnd(g, sync, 2)
      && !ClosedForConsumers(g, BlockStart(sync, 2), BlockEnd(sync, 4, 2), IsSyncPosition(2, 4, BlockStart(sync, 2)))
  {
    var g, sync := Graph(4, [{2}], [{3}]), [1, 3];
    assert g.Linked(0, 2, 3) && (2, 3) in g.Deps();
    forall p, c | (p, c) in g.Deps()
      ensures p == 2 && c == 3
    {
      g.DepsMeansLinked(p, c);
    }
    VerifiedBlocksAreClosed(g, sync, 2, 2);
  }
}
