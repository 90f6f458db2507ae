/** The control map of a block: which task is known to come before which other one. */
module TaskControlMap {
  import opened Reachability
  import opened BarrierGraph
  import opened BarrierInfoModule
  import opened BarrierPruning
  import opened BarrierOptimization
  import opened ProducerOptimization

  /** Two tasks of the same queue, in queue order. */
  ghost function FifoEdges(queues: seq<set<nat>>): Edges {
    set q, a, b | 0 <= q < |queues| && a in queues[q] && b in queues[q] && a < b :: (a, b)
  }

  ghost predicate Direct(g: Graph, fifo: Edges, a: nat, b: nat)
    requires |g.producers| == |g.consumers|
  {
    (a, b) in g.Deps() || (a, b) in fifo
  }

  /** `t` is known to come before `c`: barriers lead from `t` to a task that `c` directly follows. */
  ghost predicate Controls(g: Graph, fifo: Edges, t: nat, c: nat)
    requires |g.producers| == |g.consumers|
  {
    exists d :: ReachesOrIs(g.Deps(), t, d) && Direct(g, fifo, d, c)
  }

  lemma ControlsStep(g: Graph, fifo: Edges, t: nat, c: nat)
    requires |g.producers| == |g.consumers|
    ensures Controls(g, fifo, t, c) <==>
      Direct(g, fifo, t, c) || exists d :: (t, d) in g.Deps() && Controls(g, fifo, d, c)
  {
    if Controls(g, fifo, t, c) {
      var d :| ReachesOrIs(g.Deps(), t, d) && Direct(g, fifo, d, c);
      if t != d {
        var mid := FirstStep(g.Deps(), t, d);
        assert Controls(g, fifo, mid, c);
      }
    }
    if Direct(g, fifo, t, c) {
      assert ReachesOrIs(g.Deps(), t, t);
    }
    if mid :| (t, mid) in g.Deps() && Controls(g, fifo, mid, c) {
      var d :| ReachesOrIs(g.Deps(), mid, d) && Direct(g, fifo, d, c);
      EdgeReaches(g.Deps(), t, mid);
      ChainReaches(g.Deps(), t, mid, d);
    }
  }

  /** Without queues the map is the happens-before relation itself. */
  lemma ControlsWithoutQueues(g: Graph, t: nat, c: nat)
    requires |g.producers| == |g.consumers|
    ensures Controls(g, {}, t, c) <==> g.HappensBefore(t, c)
  {
    if Controls(g, {}, t, c) {
      var d :| ReachesOrIs(g.Deps(), t, d) && Direct(g, {}, d, c);
      EdgeReaches(g.Deps(), d, c);
      ChainReaches(g.Deps(), t, d, c);
    }
    if Reaches(g.Deps(), t, c) {
      var d := LastStep(g.Deps(), t, c);
      assert Direct(g, {}, d, c);
    }
  }

  /** With queues it is sound: whatever it says is an ordering by barriers and queues together. */
  lemma ControlsIsSound(g: Graph, fifo: Edges, t: nat, c: nat)
    requires |g.producers| == |g.consumers| && Controls(g, fifo, t, c)
    ensures Reaches(g.Deps() + fifo, t, c)
  {
    var all := g.Deps() + fifo;
    var d :| ReachesOrIs(g.Deps(), t, d) && Direct(g, fifo, d, c);
    ReachesMonotone(g.Deps(), all);
    EdgeReaches(all, d, c);
    ChainReaches(all, t, d, c);
  }

  /** But not complete: what a task's successor in the queue leads to is not taken over.  Here task 0
      precedes task 1 in the queue, and task 2 waits for task 1. */
  lemma QueueThenBarrierIsMissed()
    ensures var g := Graph(3, [{1}], [{2}]); var fifo := FifoEdges([{0, 1}]);
      g.WellFormed() && g.InProgramOrder() && Reaches(g.Deps() + fifo, 0, 2) && !Controls(g, fifo, 0, 2)
  {
    var g := Graph(3, [{1}], [{2}]);
    var fifo := FifoEdges([{0, 1}]);
    var all := g.Deps() + fifo;
    assert g.Linked(0, 1, 2);
    assert (0, 1) in fifo by {
      assert 0 in [{0, 1}][0] && 1 in [{0, 1}][0];
    }
    EdgeReaches(all, 0, 1);
    EdgeReaches(all, 1, 2);
    ReachesTransitive(all, 0, 1, 2);
    forall p, c | (p, c) in g.Deps()
      ensures p == 1
    {
      g.DepsMeansLinked(p, c);
    }
    if Controls(g, fifo, 0, 2) {
      var d :| ReachesOrIs(g.Deps(), 0, d) && Direct(g, fifo, d, 2);
      if d != 0 {
        var mid := FirstStep(g.Deps(), 0, d);
      }
      assert false;
    }
  }

  ghost predicate Transitive(edges: Edges) {
    forall a, b, c :: (a, b) in edges && (b, c) in edges ==> (a, c) in edges
  }

  /** Every task is on one queue only. */
  ghost predicate QueuesApart(queues: seq<set<nat>>) {
    forall p, q :: 0 <= p < q < |queues| ==> queues[p] !! queues[q]
  }

  lemma QueuesAreTransitive(queues: seq<set<nat>>)
    requires QueuesApart(queues)
    ensures Transitive(FifoEdges(queues)) && Increasing(FifoEdges(queues))
  {
    forall a, b, c | (a, b) in FifoEdges(queues) && (b, c) in FifoEdges(queues)
      ensures (a, c) in FifoEdges(queues)
    {
      var p :| 0 <= p < |queues| && a in queues[p] && b in queues[p] && a < b;
      var q :| 0 <= q < |queues| && b in queues[q] && c in queues[q] && b < c;
      assert p == q;
    }
  }

  /** The map knows everything that barriers and queues order. */
  ghost predicate MapComplete(g: Graph, fifo: Edges)
    requires |g.producers| == |g.consumers|
  {
    forall t: nat, c: nat :: Reaches(g.Deps() + fifo, t, c) <==> Controls(g, fifo, t, c)
  }

  /** The map knows of a step along a queue that is followed by one over a barrier. */
  ghost predicate StepsKnown(g: Graph, fifo: Edges)
    requires |g.producers| == |g.consumers|
  {
    forall a: nat, b: nat, c: nat :: (a, b) in fifo && (b, c) in g.Deps() ==> Controls(g, fifo, a, c)
  }

  /** One more step behind what is known. */
  lemma ControlsOneMore(g: Graph, fifo: Edges, t: nat, mid: nat, c: nat)
    requires |g.producers| == |g.consumers| && Transitive(fifo) && StepsKnown(g, fifo)
    requires Controls(g, fifo, t, mid) && (mid, c) in g.Deps() + fifo
    ensures Controls(g, fifo, t, c)
  {
    var d: nat :| ReachesOrIs(g.Deps(), t, d) && Direct(g, fifo, d, mid);
    if (d, mid) in g.Deps() {
      EdgeReaches(g.Deps(), d, mid);
      ChainReaches(g.Deps(), t, d, mid);
      assert Direct(g, fifo, mid, c);
    } else if (mid, c) in g.Deps() {
      assert Controls(g, fifo, d, c);
      var x: nat :| ReachesOrIs(g.Deps(), d, x) && Direct(g, fifo, x, c);
      ChainReaches(g.Deps(), t, d, x);
    } else {
      assert Direct(g, fifo, d, c);
    }
  }

  lemma {:induction false} OrderedIsKnown(g: Graph, fifo: Edges, t: nat, c: nat)
    requires g.WellFormed() && g.InProgramOrder() && Increasing(fifo) && Transitive(fifo) && StepsKnown(g, fifo)
    requires Reaches(g.Deps() + fifo, t, c)
    ensures Controls(g, fifo, t, c)
    decreases c
  {
    hide Controls, StepsKnown, Transitive;
    var all := g.Deps() + fifo;
    g.DepsIncrease();
    var mid := LastStep(all, t, c);
    if mid == t {
      assert Direct(g, fifo, t, c);
      ControlsStep(g, fifo, t, c);
    } else {
      OrderedIsKnown(g, fifo, t, mid);
      ControlsOneMore(g, fifo, t, mid, c);
    }
  }

  /** When each task is on one queue, the map is complete exactly when it knows of every step along a
      queue that is followed by one over a barrier. */
  lemma CompleteExactlyWhenStepsKnown(g: Graph, queues: seq<set<nat>>)
    requires g.WellFormed() && g.InProgramOrder() && QueuesApart(queues)
    ensures MapComplete(g, FifoEdges(queues)) <==> StepsKnown(g, FifoEdges(queues))
  {
    hide Controls, FifoEdges;
    var fifo := FifoEdges(queues);
    var all := g.Deps() + fifo;
    QueuesAreTransitive(queues);
    if MapComplete(g, fifo) {
      forall a, b, c | (a, b) in fifo && (b, c) in g.Deps()
        ensures Controls(g, fifo, a, c)
      {
        EdgeReaches(all, a, b);
        EdgeReaches(all, b, c);
        ReachesTransitive(all, a, b, c);
      }
    }
    if StepsKnown(g, fifo) {
      forall t, c
        ensures Reaches(all, t, c) <==> Controls(g, fifo, t, c)
      {
        if Reaches(all, t, c) {
          OrderedIsKnown(g, fifo, t, c);
        }
        if Controls(g, fifo, t, c) {
          ControlsIsSound(g, fifo, t, c);
        }
      }
    }
  }

  /** Bits of tasks from `from` on are final, those before it are the direct ones. */
  ghost predicate MappedFrom(g: Graph, fifo: Edges, start: nat, from: nat, end: nat, masks: seq<set<nat>>)
    requires |g.producers| == |g.consumers|
  {
    && start <= from <= end + 1 && |masks| == end + 1 - start
    && (forall t: nat, c: nat {:trigger HasBit(masks, start, end, t, c)} :: from <= t <= end ==>
          (HasBit(masks, start, end, t, c) <==> start <= c <= end && Controls(g, fifo, t, c)))
    && (forall t: nat, c: nat {:trigger HasBit(masks, start, end, t, c)} :: start <= t < from ==>
          (HasBit(masks, start, end, t, c) <==> start <= c <= end && Direct(g, fifo, t, c)))
  }

  /** The first walk sets the bits of direct successors. */
  method DirectSuccessors(info: BarrierInfo, queues: seq<set<nat>>, t: nat, start: nat, end: nat)
    returns (mask: set<nat>)
    requires info.Valid() && start <= t <= end < |info.taskUpdateBarriers|
    ensures forall c: nat :: c in mask <==> start <= c <= end && Direct(info.Graph(), FifoEdges(queues), t, c)
  {
    ghost var g := info.Graph();
    mask := {};
    for q := 0 to |queues|
      invariant forall c: nat :: c in mask <==>
        start <= c <= end && exists p :: 0 <= p < q && t in queues[p] && c in queues[p] && t < c
    {
      if t in queues[q] {
        mask := mask + set c | c in queues[q] && t < c && start <= c <= end;
      }
    }
    forall c: nat
      ensures (t, c) in FifoEdges(queues) <==>
        exists p :: 0 <= p < |queues| && t in queues[p] && c in queues[p] && t < c
    {
    }
    ghost var fifoMask := mask;
    ghost var seen: set<nat> := {};
    var bars := info.taskUpdateBarriers[t];
    while bars != {}
      invariant bars <= info.taskUpdateBarriers[t]
      invariant forall b, c :: b in info.taskUpdateBarriers[t] && b !in bars && c in g.consumers[b] ==> c in seen
      invariant forall c :: c in seen ==> (t, c) in g.Deps()
      invariant forall c :: c in mask <==> c in fifoMask || (c in seen && start <= c <= end)
    {
      var b :| b in bars;
      forall c | c in info.barrierConsumerMap[b]
        ensures (t, c) in g.Deps()
      {
        assert g.Linked(b, t, c);
      }
      mask := mask + set c | c in info.barrierConsumerMap[b] && start <= c <= end;
      seen := seen + info.barrierConsumerMap[b];
      bars := bars - {b};
    }
    forall c | (t, c) in g.Deps()
      ensures c in seen
    {
      g.DepsMeansLinked(t, c);
      var b :| g.Linked(b, t, c);
    }
  }

  lemma MapStep(g: Graph, fifo: Edges, start: nat, t: nat, end: nat, masks: seq<set<nat>>, childMask: set<nat>)
    requires |g.producers| == |g.consumers| && g.InProgramOrder() && start <= t <= end
    requires MappedFrom(g, fifo, start, t + 1, end, masks)
    requires forall c :: (t, c) in g.Deps() ==> start <= c <= end
    requires forall x :: x in childMask <==> exists c :: (t, c) in g.Deps() && HasBit(masks, start, end, c, x)
    ensures MappedFrom(g, fifo, start, t, end, masks[t - start := masks[t - start] + childMask])
  {
    hide Controls, Direct;
    var next := masks[t - start := masks[t - start] + childMask];
    g.DepsIncrease();
    forall u: nat, c: nat | start <= u <= end
      ensures u != t ==> (HasBit(next, start, end, u, c) <==> HasBit(masks, start, end, u, c))
      ensures u == t ==> (HasBit(next, start, end, t, c) <==> start <= c <= end && Controls(g, fifo, t, c))
    {
      if u == t {
        ControlsStep(g, fifo, t, c);
        assert HasBit(next, start, end, t, c) <==> HasBit(masks, start, end, t, c) || c in childMask;
        if d :| (t, d) in g.Deps() && Controls(g, fifo, d, c) {
          assert t < d;
          assert start <= c <= end ==> HasBit(masks, start, end, d, c);
        }
      }
    }
  }

  lemma LastTaskControls(g: Graph, fifo: Edges, end: nat, c: nat)
    requires |g.producers| == |g.consumers| && Increasing(g.Deps()) && Increasing(fifo) && c <= end
    ensures !Controls(g, fifo, end, c) && !Direct(g, fifo, end, c)
  {
    if Controls(g, fifo, end, c) {
      var d :| ReachesOrIs(g.Deps(), end, d) && Direct(g, fifo, d, c);
      if d != end {
        ReachesIncreases(g.Deps(), end, d);
      }
      assert false;
    }
  }

  /** The sync task that ends the block has its successors behind the block. */
  lemma SyncStep(g: Graph, fifo: Edges, start: nat, end: nat, masks: seq<set<nat>>)
    requires |g.producers| == |g.consumers| && g.InProgramOrder() && Increasing(fifo) && start <= end
    requires MappedFrom(g, fifo, start, end + 1, end, masks)
    ensures MappedFrom(g, fifo, start, end, end, masks)
  {
    hide Controls, Direct;
    g.DepsIncrease();
    forall c: nat | start <= c <= end
      ensures Controls(g, fifo, end, c) <==> Direct(g, fifo, end, c)
    {
      LastTaskControls(g, fifo, end, c);
    }
  }

  /** First walk: who directly follows whom. */
  method MapDirectSuccessors(info: BarrierInfo, queues: seq<set<nat>>, start: nat, end: nat)
    returns (masks: seq<set<nat>>)
    requires info.Valid() && start <= end < |info.taskUpdateBarriers|
    ensures MappedFrom(info.Graph(), FifoEdges(queues), start, end + 1, end, masks)
  {
    hide Controls, Direct, FifoEdges;
    ghost var g, fifo := info.Graph(), FifoEdges(queues);
    masks := seq(end + 1 - start, _ => {});
    var t := end + 1;
    while t > start
      invariant start <= t <= end + 1 && |masks| == end + 1 - start
      invariant forall u: nat, c: nat {:trigger HasBit(masks, start, end, u, c)} :: t <= u <= end ==>
        (HasBit(masks, start, end, u, c) <==> start <= c <= end && Direct(g, fifo, u, c))
    {
      t := t - 1;
      var mask := DirectSuccessors(info, queues, t, start, end);
      ghost var before := masks;
      masks := masks[t - start := mask];
      assert forall u: nat, c: nat :: t < u <= end ==>
        (HasBit(masks, start, end, u, c) <==> HasBit(before, start, end, u, c));
    }
  }

  /** Second walk, from the last task to the first: whatever a direct successor by a barrier precedes
      is taken over. */
  method CloseControlMap(info: BarrierInfo, ghost fifo: Edges, start: nat, end: nat, direct: seq<set<nat>>)
    returns (r: Outcome, masks: seq<set<nat>>)
    requires info.Valid() && info.Graph().InProgramOrder() && Increasing(fifo)
    requires start <= end < |info.taskUpdateBarriers|
    requires MappedFrom(info.Graph(), fifo, start, end + 1, end, direct)
    ensures r.Done? <==> ClosedForProducers(info.Graph(), start, end, info.IsSyncPoint(end))
    ensures r.Done? ==> MappedFrom(info.Graph(), fifo, start, start, end, masks)
  {
    hide Controls, Direct, MappedFrom;
    ghost var g := info.Graph();
    masks := direct;
    MappedSize(g, fifo, start, end + 1, end, masks);
    var t := end + 1;
    while t > start
      invariant start <= t <= end + 1 && |masks| == end + 1 - start && MappedFrom(g, fifo, start, t, end, masks)
      invariant forall u, c :: (u, c) in g.Deps() && t <= u <= end && !(u == end && info.IsSyncPoint(end)) ==>
        start <= c <= end
    {
      t := t - 1;
      if t == end && info.IsSyncPoint(t) {
        SyncStep(g, fifo, start, end, masks);
      } else {
        var inRange, childMask := UniteChildren(info, t, start, end, masks);
        if !inRange {
          return Thrown("task has update barriers with a consumer from outside of the current range"), masks;
        }
        MapStep(g, fifo, start, t, end, masks, childMask);
        masks := masks[t - start := masks[t - start] + childMask];
      }
    }
    r := Done;
  }

  lemma MappedSize(g: Graph, fifo: Edges, start: nat, from: nat, end: nat, masks: seq<set<nat>>)
    requires |g.producers| == |g.consumers| && MappedFrom(g, fifo, start, from, end, masks)
    ensures |masks| == end + 1 - start
  {
  }

  /** `buildTaskControlMap`.  In a block without dependencies that leave it the map says exactly which
      tasks are led to by barriers and then one more barrier or queue step; it throws for a block that
      does not exist or that a dependency leaves.  Vectors hold task numbers instead of offsets. */
  method BuildTaskControlMap(info: BarrierInfo, queues: seq<set<nat>>, block: nat, considerTaskFifoDependency: bool)
    returns (r: Outcome, masks: seq<set<nat>>, offset: nat)
    requires info.Valid() && info.ValidBlocks() && info.Graph().InProgramOrder()
    ensures block >= info.BlockCount() ==> r.Thrown?
    ensures block < info.BlockCount() ==>
      var (start, end) := info.BlockTaskRange(block, true, true);
      r.Done? <==> ClosedForProducers(info.Graph(), start, end, info.IsSyncPoint(end))
    ensures r.Done? ==>
      var (start, end) := info.BlockTaskRange(block, true, true);
      && offset == start
      && MappedFrom(info.Graph(), if considerTaskFifoDependency then FifoEdges(queues) else {}, start, start, end,
                    masks)
    ensures (block < info.BlockCount() &&
             SplitVerified(info.Graph(), info.syncTasksIds, info.controlGraphBlockSize)) ==> r.Done?
  {
    hide MappedFrom, FifoEdges, ClosedForProducers;
    if block >= info.BlockCount() {
      return Thrown("invalid task block index"), [], 0;
    }
    var considered := if considerTaskFifoDependency then queues else [];
    NoQueues();
    QueuesIncrease(considered);
    var range := info.BlockTaskRange(block, true, true);
    var start, end := range.0, range.1;
    if SplitVerified(info.Graph(), info.syncTasksIds, info.controlGraphBlockSize) {
      BlockClosed(info, block);
    }
    masks := MapDirectSuccessors(info, considered, start, end);
    offset := start;
    r, masks := CloseControlMap(info, FifoEdges(considered), start, end, masks);
  }

  lemma BlockClosed(info: BarrierInfo, block: nat)
    requires info.Valid() && info.ValidBlocks() && info.Graph().InProgramOrder() && block < info.BlockCount()
    requires SplitVerified(info.Graph(), info.syncTasksIds, info.controlGraphBlockSize)
    ensures var (start, end) := info.BlockTaskRange(block, true, true);
      ClosedForProducers(info.Graph(), start, end, info.IsSyncPoint(end))
  {
    VerifiedBlocksAreClosed(info.Graph(), info.syncTasksIds, info.controlGraphBlockSize, block);
  }

  lemma NoQueues()
    ensures FifoEdges([]) == {}
  {
  }

  lemma QueuesIncrease(queues: seq<set<nat>>)
    ensures Increasing(FifoEdges(queues))
  {
  }
}
