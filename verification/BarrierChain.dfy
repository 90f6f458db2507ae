/** Chains of new barriers that run batches of tasks one after the other, and then their
    consumers. */
module BarrierChain {
  import opened Reachability
  import opened BarrierGraph
  import opened VariantBatches

  /** One more barrier, with these producers and consumers. */
  function AddLinks(g: Graph, producers: set<nat>, consumers: set<nat>): Graph {
    g.(producers := g.producers + [producers], consumers := g.consumers + [consumers])
  }

  /** One barrier between each batch and the next, from the last batch, which precedes
      `consumers`, back to the first. */
  function AddChain(g: Graph, batches: seq<set<nat>>, consumers: set<nat>): Graph
    decreases |batches|
  {
    if batches == [] then g
    else
      var last := batches[|batches| - 1];
      AddChain(AddLinks(g, last, consumers), batches[..|batches| - 1], last)
  }

  lemma {:induction false} ChainExtends(g: Graph, batches: seq<set<nat>>, consumers: set<nat>)
    requires |g.producers| == |g.consumers|
    ensures var h := AddChain(g, batches, consumers);
      h.tasks == g.tasks && |h.producers| == |h.consumers| == |g.producers| + |batches| &&
      g.producers <= h.producers && g.consumers <= h.consumers
    decreases |batches|
  {
    if batches != [] {
      var last := batches[|batches| - 1];
      ChainExtends(AddLinks(g, last, consumers), batches[..|batches| - 1], last);
    }
  }

  /** What a new barrier connects: the first one the last batch with `consumers`, every other
      one a batch with the batch behind it. */
  lemma {:induction false} ChainBarriers(g: Graph, batches: seq<set<nat>>, consumers: set<nat>, i: nat)
    requires |g.producers| == |g.consumers| && i < |batches|
    ensures var h := AddChain(g, batches, consumers);
      |h.producers| == |h.consumers| == |g.producers| + |batches| &&
      h.producers[|g.producers| + i] == batches[|batches| - 1 - i] &&
      h.consumers[|g.producers| + i] == if i == 0 then consumers else batches[|batches| - i]
    decreases |batches|
  {
    var last := batches[|batches| - 1];
    var g1 := AddLinks(g, last, consumers);
    ChainExtends(g1, batches[..|batches| - 1], last);
    if i == 0 {
      assert g1.producers[|g.producers|] == last && g1.consumers[|g.producers|] == consumers;
    } else {
      ChainBarriers(g1, batches[..|batches| - 1], last, i - 1);
    }
  }

  /** Every task of every batch runs before every consumer, unless a batch is empty. */
  lemma {:induction false} ChainOrders(g: Graph, batches: seq<set<nat>>, consumers: set<nat>, k: nat, p: nat, c: nat)
    requires |g.producers| == |g.consumers| && k < |batches| && p in batches[k] && c in consumers
    requires forall i :: 0 <= i < |batches| ==> batches[i] != {}
    ensures var h := AddChain(g, batches, consumers);
      |h.producers| == |h.consumers| && h.HappensBefore(p, c)
    decreases |batches|
  {
    var h := AddChain(g, batches, consumers);
    ChainExtends(g, batches, consumers);
    ChainBarriers(g, batches, consumers, 0);
    var last := |batches| - 1;
    if k == last {
      h.LinkedHappensBefore(|g.producers|, p, c);
    } else {
      var x: nat :| x in batches[last];
      h.LinkedHappensBefore(|g.producers|, x, c);
      ChainOrders(AddLinks(g, batches[last], consumers), batches[..last], batches[last], k, p, x);
      ReachesTransitive(h.Deps(), p, x, c);
    }
  }

  /** The new dependencies go to higher indices as well. */
  lemma ChainInProgramOrder(g: Graph, batches: seq<set<nat>>, consumers: set<nat>)
    requires |g.producers| == |g.consumers| && g.InProgramOrder() && Consecutive(batches)
    requires forall k, p, c :: 0 <= k < |batches| && p in batches[k] && c in consumers ==> p < c
    ensures var h := AddChain(g, batches, consumers);
      |h.producers| == |h.consumers| && h.InProgramOrder()
  {
    var h := AddChain(g, batches, consumers);
    ChainExtends(g, batches, consumers);
    forall b, p, c | h.Linked(b, p, c)
      ensures p < c
    {
      if b < |g.producers| {
        assert g.Linked(b, p, c);
      } else {
        ChainBarriers(g, batches, consumers, b - |g.producers|);
      }
    }
  }

  /** Dependencies of `g` are still there. */
  lemma ChainKeepsDeps(g: Graph, batches: seq<set<nat>>, consumers: set<nat>)
    requires |g.producers| == |g.consumers|
    ensures var h := AddChain(g, batches, consumers);
      |h.producers| == |h.consumers| && g.Deps() <= h.Deps()
  {
    var h := AddChain(g, batches, consumers);
    ChainExtends(g, batches, consumers);
    forall p: nat, c: nat | (p, c) in g.Deps()
      ensures (p, c) in h.Deps()
    {
      g.DepsMeansLinked(p, c);
      var b :| g.Linked(b, p, c);
      assert h.Linked(b, p, c);
    }
  }
}
