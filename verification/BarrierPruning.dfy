/** Which barrier links are redundant, and why dropping them neither loses nor adds an ordering. */
module BarrierPruning {
  import opened Reachability
  import opened BarrierGraph

  /** A later task up to `end` that runs after `t` updates `b` as well. */
  ghost predicate UpdatedLater(g: Graph, t: nat, b: nat, end: nat)
    requires |g.producers| == |g.consumers| && b < |g.producers|
  {
    exists d: nat :: d <= end && Reaches(g.Deps(), t, d) && d in g.producers[b]
  }

  /** An earlier task from `start` on that runs before `t` waits for `b` as well. */
  ghost predicate AwaitedEarlier(g: Graph, t: nat, b: nat, start: nat)
    requires |g.producers| == |g.consumers| && b < |g.producers|
  {
    exists p: nat :: start <= p && Reaches(g.Deps(), p, t) && p in g.consumers[b]
  }

  /** In the tasks `start..end`, only the last ones to update a barrier stay its producers. */
  ghost function PruneProducers(g: Graph, start: nat, end: nat): Graph
    requires |g.producers| == |g.consumers|
  {
    PruneProducersBefore(g, start, end, end + 1)
  }

  /** The same when only the tasks below `limit` have been dealt with. */
  ghost function PruneProducersBefore(g: Graph, start: nat, end: nat, limit: nat): Graph
    requires |g.producers| == |g.consumers|
  {
    g.(producers := seq(|g.producers|, b requires 0 <= b < |g.producers| =>
      set t | t in g.producers[b] && !(start <= t <= end && t < limit && UpdatedLater(g, t, b, end))))
  }

  /** In the tasks `start..end`, only the first ones to wait for a barrier stay its consumers. */
  ghost function PruneConsumers(g: Graph, start: nat, end: nat): Graph
    requires |g.producers| == |g.consumers|
  {
    PruneConsumersFrom(g, start, end, start)
  }

  /** The same when only the tasks from `limit` on have been dealt with. */
  ghost function PruneConsumersFrom(g: Graph, start: nat, end: nat, limit: nat): Graph
    requires |g.producers| == |g.consumers|
  {
    g.(consumers := seq(|g.consumers|, b requires 0 <= b < |g.consumers| =>
      set t | t in g.consumers[b] && !(start <= t <= end && limit <= t && AwaitedEarlier(g, t, b, start))))
  }

  lemma {:induction false} PruneProducersKeeps(g: Graph, start: nat, end: nat, a: nat, c: nat)
    requires |g.producers| == |g.consumers| && g.InProgramOrder()
    requires g.HappensBefore(a, c)
    ensures PruneProducers(g, start, end).HappensBefore(a, c)
    decreases c - a
  {
    var h := PruneProducers(g, start, end);
    g.DepsIncrease();
    var mid := FirstStep(g.Deps(), a, c);
    if mid == c {
      g.DepsMeansLinked(a, c);
      var b :| g.Linked(b, a, c);
      if a in h.producers[b] {
        h.LinkedHappensBefore(b, a, c);
      } else {
        var d: nat :| d <= end && Reaches(g.Deps(), a, d) && d in g.producers[b];
        g.LinkedHappensBefore(b, d, c);
        ReachesIncreases(g.Deps(), a, d);
        ReachesIncreases(g.Deps(), d, c);
        PruneProducersKeeps(g, start, end, a, d);
        PruneProducersKeeps(g, start, end, d, c);
        ReachesTransitive(h.Deps(), a, d, c);
      }
    } else {
      EdgeReaches(g.Deps(), a, mid);
      ReachesIncreases(g.Deps(), mid, c);
      PruneProducersKeeps(g, start, end, a, mid);
      PruneProducersKeeps(g, start, end, mid, c);
      ReachesTransitive(h.Deps(), a, mid, c);
    }
  }

  lemma {:induction false} PruneConsumersKeeps(g: Graph, start: nat, end: nat, a: nat, c: nat)
    requires |g.producers| == |g.consumers| && g.InProgramOrder()
    requires g.HappensBefore(a, c)
    ensures PruneConsumers(g, start, end).HappensBefore(a, c)
    decreases c - a
  {
    var h := PruneConsumers(g, start, end);
    g.DepsIncrease();
    var mid := FirstStep(g.Deps(), a, c);
    if mid == c {
      g.DepsMeansLinked(a, c);
      var b :| g.Linked(b, a, c);
      if c in h.consumers[b] {
        h.LinkedHappensBefore(b, a, c);
      } else {
        var p: nat :| start <= p && Reaches(g.Deps(), p, c) && p in g.consumers[b];
        g.LinkedHappensBefore(b, a, p);
        ReachesIncreases(g.Deps(), a, p);
        ReachesIncreases(g.Deps(), p, c);
        PruneConsumersKeeps(g, start, end, a, p);
        PruneConsumersKeeps(g, start, end, p, c);
        ReachesTransitive(h.Deps(), a, p, c);
      }
    } else {
      EdgeReaches(g.Deps(), a, mid);
      ReachesIncreases(g.Deps(), mid, c);
      PruneConsumersKeeps(g, start, end, a, mid);
      PruneConsumersKeeps(g, start, end, mid, c);
      ReachesTransitive(h.Deps(), a, mid, c);
    }
  }

  lemma FewerLinksFewerDeps(g: Graph, h: Graph)
    requires |g.producers| == |g.consumers| == |h.producers| == |h.consumers|
    requires forall b :: 0 <= b < |g.producers| ==> h.producers[b] <= g.producers[b] && h.consumers[b] <= g.consumers[b]
    ensures h.Deps() <= g.Deps()
  {
    forall p, c | (p, c) in h.Deps()
      ensures (p, c) in g.Deps()
    {
      h.DepsMeansLinked(p, c);
      var b :| h.Linked(b, p, c);
      assert g.Linked(b, p, c);
    }
  }

  /** Dropping redundant update links neither loses nor adds an ordering. */
  lemma PruneProducersSameOrder(g: Graph, start: nat, end: nat)
    requires |g.producers| == |g.consumers| && g.InProgramOrder()
    ensures SameReachability(g.Deps(), PruneProducers(g, start, end).Deps())
  {
    var h := PruneProducers(g, start, end);
    FewerLinksFewerDeps(g, h);
    ReachesMonotone(h.Deps(), g.Deps());
    forall a, c | Reaches(g.Deps(), a, c)
      ensures Reaches(h.Deps(), a, c)
    {
      PruneProducersKeeps(g, start, end, a, c);
    }
  }

  /** Dropping redundant wait links neither loses nor adds an ordering. */
  lemma PruneConsumersSameOrder(g: Graph, start: nat, end: nat)
    requires |g.producers| == |g.consumers| && g.InProgramOrder()
    ensures SameReachability(g.Deps(), PruneConsumers(g, start, end).Deps())
  {
    var h := PruneConsumers(g, start, end);
    FewerLinksFewerDeps(g, h);
    ReachesMonotone(h.Deps(), g.Deps());
    forall a, c | Reaches(g.Deps(), a, c)
      ensures Reaches(h.Deps(), a, c)
    {
      PruneConsumersKeeps(g, start, end, a, c);
    }
  }

  /** `masks[c - start]` is the bit vector of task `c` of the range `start..end`. */
  ghost predicate HasBit(masks: seq<set<nat>>, start: nat, end: nat, c: nat, x: nat) {
    start <= c <= end && c - start < |masks| && x in masks[c - start]
  }
}
