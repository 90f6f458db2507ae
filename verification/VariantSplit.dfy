/** `splitBarriersWithExceedingVariantCount`: barriers with too many producer or consumer slots
    are replaced by several barriers with fewer. */
module VariantSplit {
  import opened BarrierGraph
  import opened BarrierInfoModule
  import opened VariantBatches

  /** Barriers for the producer batches, all with the same consumers. */
  function WithProducerBatches(g: Graph, batches: seq<set<nat>>, consumers: set<nat>): Graph {
    g.(producers := g.producers + batches, consumers := g.consumers + seq(|batches|, _ => consumers))
  }

  /** Barriers for the consumer batches, all with the same producers. */
  function WithConsumerBatches(g: Graph, batches: seq<set<nat>>, producers: set<nat>): Graph {
    g.(producers := g.producers + seq(|batches|, _ => producers), consumers := g.consumers + batches)
  }

  /** Splitting the producers of a barrier keeps every direct dependency as it is. */
  lemma ProducerBatchesKeepDeps(g: Graph, b: nat, batches: seq<set<nat>>)
    requires b < |g.producers| == |g.consumers| && Partitions(batches, g.producers[b])
    ensures WithProducerBatches(g, batches, g.consumers[b]).ResetBarrier(b).Deps() == g.Deps()
  {
    var h := WithProducerBatches(g, batches, g.consumers[b]).ResetBarrier(b);
    var n := |g.producers|;
    forall p: nat, c: nat
      ensures (p, c) in h.Deps() <==> (p, c) in g.Deps()
    {
      g.DepsMeansLinked(p, c);
      h.DepsMeansLinked(p, c);
      if x :| g.Linked(x, p, c) {
        if x == b {
          assert InBatch(batches, |batches|, p);
          var i :| 0 <= i < |batches| && p in batches[i];
          assert h.Linked(n + i, p, c);
        } else {
          assert h.Linked(x, p, c);
        }
      }
      if x :| h.Linked(x, p, c) {
        if x >= n {
          assert p in batches[x - n];
          assert InBatch(batches, |batches|, p);
          assert g.Linked(b, p, c);
        } else {
          assert g.Linked(x, p, c);
        }
      }
    }
  }

  /** Splitting the consumers of a barrier keeps every direct dependency as it is. */
  lemma ConsumerBatchesKeepDeps(g: Graph, b: nat, batches: seq<set<nat>>)
    requires b < |g.producers| == |g.consumers| && Partitions(batches, g.consumers[b])
    ensures WithConsumerBatches(g, batches, g.producers[b]).ResetBarrier(b).Deps() == g.Deps()
  {
    var h := WithConsumerBatches(g, batches, g.producers[b]).ResetBarrier(b);
    var n := |g.producers|;
    forall p: nat, c: nat
      ensures (p, c) in h.Deps() <==> (p, c) in g.Deps()
    {
      g.DepsMeansLinked(p, c);
      h.DepsMeansLinked(p, c);
      if x :| g.Linked(x, p, c) {
        if x == b {
          assert InBatch(batches, |batches|, c);
          var i :| 0 <= i < |batches| && c in batches[i];
          assert h.Linked(n + i, p, c);
        } else {
          assert h.Linked(x, p, c);
        }
      }
      if x :| h.Linked(x, p, c) {
        if x >= n {
          assert c in batches[x - n];
          assert InBatch(batches, |batches|, c);
          assert g.Linked(b, p, c);
        } else {
          assert g.Linked(x, p, c);
        }
      }
    }
  }

  method SplitProducers(info: BarrierInfo, b: nat, availableSlots: nat) returns (batches: seq<set<nat>>)
    requires info.Valid() && b < |info.barrierProducerMap|
    modifies info`barrierProducerMap, info`taskUpdateBarriers, info`barrierConsumerMap, info`taskWaitBarriers
    ensures info.Valid() && Partitions(batches, old(info.barrierProducerMap)[b])
    ensures EachFits(info.slots, old(info.barrierProducerMap)[b], availableSlots) ==>
      Fits(info.slots, batches, availableSlots)
    ensures Greedy(info.slots, batches, availableSlots)
    ensures info.Graph() ==
      WithProducerBatches(old(info.Graph()), batches, old(info.barrierConsumerMap)[b]).ResetBarrier(b)
    ensures info.Graph().Deps() == old(info.Graph()).Deps()
  {
    hide Fits, EachFits, Greedy, Consecutive, NoneEmptyAfterFirst, Graph.Deps;
    ghost var g := info.Graph();
    var consumers := info.barrierConsumerMap[b];
    batches := CreateLegalVariantBatches(info.slots, info.barrierProducerMap[b], availableSlots);
    var i := 0;
    while i < |batches|
      invariant i <= |batches| && info.Valid()
      invariant info.Graph() == WithProducerBatches(g, batches[..i], consumers)
    {
      assert forall t: nat :: t in batches[i] ==> InBatch(batches, |batches|, t);
      var newBarrier := info.AddNewBarrier();
      info.AddProducers(newBarrier, batches[i]);
      info.AddConsumers(newBarrier, consumers);
      assert {} + batches[i] == batches[i] && {} + consumers == consumers;
      assert batches[..i + 1] == batches[..i] + [batches[i]];
      i := i + 1;
    }
    assert batches[..i] == batches;
    info.ResetBarrier(b);
    ProducerBatchesKeepDeps(g, b, batches);
  }

  method SplitConsumers(info: BarrierInfo, b: nat, availableSlots: nat) returns (batches: seq<set<nat>>)
    requires info.Valid() && b < |info.barrierProducerMap|
    modifies info`barrierProducerMap, info`taskUpdateBarriers, info`barrierConsumerMap, info`taskWaitBarriers
    ensures info.Valid() && Partitions(batches, old(info.barrierConsumerMap)[b])
    ensures EachFits(info.slots, old(info.barrierConsumerMap)[b], availableSlots) ==>
      Fits(info.slots, batches, availableSlots)
    ensures Greedy(info.slots, batches, availableSlots)
    ensures info.Graph() ==
      WithConsumerBatches(old(info.Graph()), batches, old(info.barrierProducerMap)[b]).ResetBarrier(b)
    ensures info.Graph().Deps() == old(info.Graph()).Deps()
  {
    hide Fits, EachFits, Greedy, Consecutive, NoneEmptyAfterFirst, Graph.Deps;
    ghost var g := info.Graph();
    var producers := info.barrierProducerMap[b];
    batches := CreateLegalVariantBatches(info.slots, info.barrierConsumerMap[b], availableSlots);
    var i := 0;
    while i < |batches|
      invariant i <= |batches| && info.Valid()
      invariant info.Graph() == WithConsumerBatches(g, batches[..i], producers)
    {
      assert forall t: nat :: t in batches[i] ==> InBatch(batches, |batches|, t);
      var newBarrier := info.AddNewBarrier();
      info.AddProducers(newBarrier, producers);
      info.AddConsumers(newBarrier, batches[i]);
      assert {} + batches[i] == batches[i] && {} + producers == producers;
      assert batches[..i + 1] == batches[..i] + [batches[i]];
      i := i + 1;
    }
    assert batches[..i] == batches;
    info.ResetBarrier(b);
    ConsumerBatchesKeepDeps(g, b, batches);
  }

  /** The sum limit alone makes a barrier legal, where that limit is in force. */
  predicate SumFits(g: Graph, b: nat, slots: seq<nat>, sumLimited: bool, maxSlotsSum: nat)
    requires b < |g.producers| == |g.consumers|
  {
    sumLimited && SlotCount(slots, g.producers[b]) + SlotCount(slots, g.consumers[b]) <= maxSlotsSum
  }

  predicate ProducersFit(g: Graph, b: nat, slots: seq<nat>, available: nat, sumLimited: bool, maxSlotsSum: nat)
    requires b < |g.producers| == |g.consumers|
  {
    SumFits(g, b, slots, sumLimited, maxSlotsSum) || SlotCount(slots, g.producers[b]) <= available
  }

  predicate ConsumersFit(g: Graph, b: nat, slots: seq<nat>, available: nat, sumLimited: bool, maxSlotsSum: nat)
    requires b < |g.producers| == |g.consumers|
  {
    SumFits(g, b, slots, sumLimited, maxSlotsSum) || SlotCount(slots, g.consumers[b]) <= available
  }

  /** Barrier `b` is as it was, or reset. */
  ghost predicate LeftOrReset(g: Graph, h: Graph, b: nat, left: bool)
    requires b < |g.producers| == |g.consumers| && b < |h.producers| == |h.consumers|
  {
    if left then h.producers[b] == g.producers[b] && h.consumers[b] == g.consumers[b]
    else h.producers[b] == h.consumers[b] == {}
  }

  /** Barrier `b` links some of the producers and consumers that barrier `x` linked. */
  ghost predicate PartOf(g: Graph, x: nat, h: Graph, b: nat)
    requires x < |g.producers| == |g.consumers| && b < |h.producers| == |h.consumers|
  {
    h.producers[b] <= g.producers[x] && h.consumers[b] <= g.consumers[x]
  }

  ghost predicate FromSplit(g: Graph, kept: seq<bool>, h: Graph, b: nat)
    requires |g.producers| == |g.consumers| == |kept| && b < |h.producers| == |h.consumers|
  {
    exists x: nat :: x < |kept| && !kept[x] && PartOf(g, x, h, b)
  }

  /** Exactly the barriers for which `kept` holds are as they were, the others reset and replaced by parts. */
  ghost predicate OnlySplit(g: Graph, h: Graph, kept: seq<bool>) {
    && |g.producers| == |g.consumers| == |kept| <= |h.producers| == |h.consumers|
    && (forall b: nat :: b < |kept| ==> LeftOrReset(g, h, b, kept[b]))
    && forall b: nat :: |kept| <= b < |h.producers| ==> FromSplit(g, kept, h, b)
  }

  /** What has been split of the first `n` barriers. */
  function KeptUpTo(fits: seq<bool>, n: nat): (kept: seq<bool>)
    ensures |kept| == |fits| && forall b :: 0 <= b < |fits| ==> kept[b] == (fits[b] || b >= n)
  {
    seq(|fits|, b requires 0 <= b < |fits| => fits[b] || b >= n)
  }

  lemma NothingSplit(g: Graph, fits: seq<bool>)
    requires |g.producers| == |g.consumers| == |fits|
    ensures OnlySplit(g, g, KeptUpTo(fits, 0))
  {
  }

  /** The next barrier has been split, or left alone. */
  lemma SplitStep(g: Graph, h: Graph, next: Graph, fits: seq<bool>, b: nat)
    requires b < |fits| && OnlySplit(g, h, KeptUpTo(fits, b)) && |h.producers| <= |next.producers| == |next.consumers|
    requires fits[b] ==> next == h
    requires !fits[b] ==> next.producers[b] == next.consumers[b] == {}
    requires forall x: nat :: x < |h.producers| && x != b ==> LeftOrReset(h, next, x, true)
    requires forall x: nat :: |h.producers| <= x < |next.producers| ==> PartOf(h, b, next, x)
    ensures OnlySplit(g, next, KeptUpTo(fits, b + 1))
  {
    var kept, now := KeptUpTo(fits, b), KeptUpTo(fits, b + 1);
    assert LeftOrReset(g, h, b, kept[b]) && kept[b];
    if fits[b] {
      assert now == kept;
    } else {
      forall x: nat | x < |fits|
        ensures LeftOrReset(g, next, x, now[x])
      {
        assert LeftOrReset(g, h, x, kept[x]);
        assert x != b ==> LeftOrReset(h, next, x, true);
      }
      forall x: nat | |fits| <= x < |next.producers|
        ensures FromSplit(g, now, next, x)
      {
        if x < |h.producers| {
          assert FromSplit(g, kept, h, x);
          var y: nat :| y < |kept| && !kept[y] && PartOf(g, y, h, x);
          assert LeftOrReset(h, next, x, true);
          assert PartOf(g, y, next, x);
        } else {
          assert PartOf(h, b, next, x);
          assert PartOf(g, b, next, x) && !now[b];
        }
      }
    }
  }

  lemma SplitTwice(g: Graph, mid: Graph, h: Graph, first: seq<bool>, second: seq<bool>, both: seq<bool>)
    requires OnlySplit(g, mid, first) && OnlySplit(mid, h, second) && |both| == |first|
    requires forall b :: 0 <= b < |both| ==> both[b] == (first[b] && second[b])
    requires forall b :: 0 <= b < |first| && !first[b] ==> second[b]
    ensures OnlySplit(g, h, both)
  {
    forall b: nat | b < |both|
      ensures LeftOrReset(g, h, b, both[b])
    {
      assert LeftOrReset(g, mid, b, first[b]) && LeftOrReset(mid, h, b, second[b]);
    }
    forall b: nat | |both| <= b < |h.producers|
      ensures FromSplit(g, both, h, b)
    {
      var y: nat := b;
      if b >= |second| {
        assert FromSplit(mid, second, h, b);
        y :| y < |second| && !second[y] && PartOf(mid, y, h, b);
      } else {
        assert LeftOrReset(mid, h, b, second[b]);
      }
      assert PartOf(mid, y, h, b);
      if y < |first| {
        assert LeftOrReset(g, mid, y, first[y]);
        assert PartOf(g, y, h, b) && !both[y];
      } else {
        assert FromSplit(g, first, mid, y);
        var x: nat :| x < |first| && !first[x] && PartOf(g, x, mid, y);
        assert PartOf(g, x, h, b) && !both[x];
      }
    }
  }

  /** A barrier that has not been looked at is as it was. */
  lemma StillWhole(g: Graph, h: Graph, fits: seq<bool>, b: nat)
    requires b < |fits| && OnlySplit(g, h, KeptUpTo(fits, b))
    ensures h.producers[b] == g.producers[b] && h.consumers[b] == g.consumers[b]
  {
    assert LeftOrReset(g, h, b, KeptUpTo(fits, b)[b]);
  }

  lemma NoSlots(slots: seq<nat>)
    ensures SlotCount(slots, {}) == 0
  {
    SlotCountEmpty(slots, |slots|);
  }

  /** Which barriers are left alone by the walk over producers, and by the one over consumers. */
  ghost function ProducersFits(g: Graph, slots: seq<nat>, available: nat, sumLimited: bool, maxSlotsSum: nat):
    (fits: seq<bool>)
    requires |g.producers| == |g.consumers|
    ensures |fits| == |g.producers| && forall b :: 0 <= b < |fits| ==>
      fits[b] == ProducersFit(g, b, slots, available, sumLimited, maxSlotsSum)
  {
    seq(|g.producers|, b requires 0 <= b < |g.producers| =>
      ProducersFit(g, b, slots, available, sumLimited, maxSlotsSum))
  }

  ghost function ConsumersFits(g: Graph, slots: seq<nat>, available: nat, sumLimited: bool, maxSlotsSum: nat):
    (fits: seq<bool>)
    requires |g.producers| == |g.consumers|
    ensures |fits| == |g.producers| && forall b :: 0 <= b < |fits| ==>
      fits[b] == ConsumersFit(g, b, slots, available, sumLimited, maxSlotsSum)
  {
    seq(|g.producers|, b requires 0 <= b < |g.producers| =>
      ConsumersFit(g, b, slots, available, sumLimited, maxSlotsSum))
  }

  /** Which barriers are legal. */
  ghost function LegalOnes(g: Graph, slots: seq<nat>, available: nat, sumLimited: bool, maxSlotsSum: nat):
    (legal: seq<bool>)
    requires |g.producers| == |g.consumers|
    ensures |legal| == |g.producers| && forall b :: 0 <= b < |legal| ==>
      legal[b] == Legal(g, b, slots, available, sumLimited, maxSlotsSum)
  {
    seq(|g.producers|, b requires 0 <= b < |g.producers| => Legal(g, b, slots, available, sumLimited, maxSlotsSum))
  }

  /** The walk over the barriers that were there at the start; new ones are inserted before. */
  method SplitAllProducers(info: BarrierInfo, available: nat, maxSlotsSum: nat, sumLimited: bool)
    requires info.Valid()
    modifies info`barrierProducerMap, info`taskUpdateBarriers, info`barrierConsumerMap, info`taskWaitBarriers
    ensures info.Valid() && info.Graph().Deps() == old(info.Graph()).Deps()
    ensures EveryTaskFits(info.slots, available) ==>
      AllProducersFit(info.Graph(), info.slots, available, sumLimited, maxSlotsSum)
    ensures OnlySplit(old(info.Graph()), info.Graph(),
      old(ProducersFits(info.Graph(), info.slots, available, sumLimited, maxSlotsSum)))
  {
    hide OnlySplit, SlotCount, Graph.Deps;
    NoSlots(info.slots);
    ghost var fits := ProducersFits(info.Graph(), info.slots, available, sumLimited, maxSlotsSum);
    NothingSplit(info.Graph(), fits);
    var n := |info.barrierProducerMap|;
    var b := 0;
    while b < n
      invariant b <= n <= |info.barrierProducerMap| && info.Valid()
      invariant info.Graph().Deps() == old(info.Graph()).Deps()
      invariant n == |fits| && OnlySplit(old(info.Graph()), info.Graph(), KeptUpTo(fits, b))
      invariant EveryTaskFits(info.slots, available) ==>
        forall x: nat :: (x < b || n <= x) && x < |info.barrierProducerMap| ==>
          ProducersFit(info.Graph(), x, info.slots, available, sumLimited, maxSlotsSum)
    {
      ghost var g := info.Graph();
      StillWhole(old(info.Graph()), g, fits, b);
      var producerNum := SlotCount(info.slots, info.barrierProducerMap[b]);
      var consumerNum := SlotCount(info.slots, info.barrierConsumerMap[b]);
      if !(sumLimited && producerNum + consumerNum <= maxSlotsSum) && producerNum > available {
        var batches := SplitProducers(info, b, available);
        SplitProducersFit(g, info.Graph(), b, batches, info.slots, available, sumLimited, maxSlotsSum);
      }
      SplitStep(old(info.Graph()), g, info.Graph(), fits, b);
      b := b + 1;
    }
    assert KeptUpTo(fits, n) == fits;
  }

  lemma SplitProducersFit(g: Graph, h: Graph, b: nat, batches: seq<set<nat>>, slots: seq<nat>, available: nat,
                          sumLimited: bool, maxSlotsSum: nat)
    requires b < |g.producers| == |g.consumers| && h == WithProducerBatches(g, batches, g.consumers[b]).ResetBarrier(b)
    requires Partitions(batches, g.producers[b])
    ensures SlotCount(slots, h.producers[b]) == 0
    ensures h.producers[b] == h.consumers[b] == {} && |h.producers| == |h.consumers| >= |g.producers|
    ensures forall x: nat :: x < |g.producers| && x != b ==> LeftOrReset(g, h, x, true)
    ensures forall x: nat :: |g.producers| <= x < |h.producers| ==> PartOf(g, b, h, x)
    ensures Fits(slots, batches, available) ==> forall x: nat :: |g.producers| <= x < |h.producers| ==>
      SlotCount(slots, h.producers[x]) <= available
    ensures forall x: nat :: x < |g.producers| && x != b ==>
      (ProducersFit(h, x, slots, available, sumLimited, maxSlotsSum) <==>
        ProducersFit(g, x, slots, available, sumLimited, maxSlotsSum))
  {
    SlotCountEmpty(slots, |slots|);
    forall i, t | 0 <= i < |batches| && t in batches[i]
      ensures t in g.producers[b]
    {
      assert InBatch(batches, |batches|, t);
    }
  }

  ghost predicate AllProducersFit(g: Graph, slots: seq<nat>, available: nat, sumLimited: bool, maxSlotsSum: nat)
    requires |g.producers| == |g.consumers|
  {
    forall b: nat :: b < |g.producers| ==> ProducersFit(g, b, slots, available, sumLimited, maxSlotsSum)
  }

  method SplitAllConsumers(info: BarrierInfo, available: nat, maxSlotsSum: nat, sumLimited: bool)
    requires info.Valid()
    modifies info`barrierProducerMap, info`taskUpdateBarriers, info`barrierConsumerMap, info`taskWaitBarriers
    ensures info.Valid() && info.Graph().Deps() == old(info.Graph()).Deps()
    ensures old(AllProducersFit(info.Graph(), info.slots, available, sumLimited, maxSlotsSum)) ==>
      AllProducersFit(info.Graph(), info.slots, available, sumLimited, maxSlotsSum)
    ensures EveryTaskFits(info.slots, available) ==>
      forall b: nat :: b < |info.barrierProducerMap| ==>
        ConsumersFit(info.Graph(), b, info.slots, available, sumLimited, maxSlotsSum)
    ensures OnlySplit(old(info.Graph()), info.Graph(),
      old(ConsumersFits(info.Graph(), info.slots, available, sumLimited, maxSlotsSum)))
  {
    hide OnlySplit, SlotCount, Graph.Deps;
    NoSlots(info.slots);
    ghost var fits := ConsumersFits(info.Graph(), info.slots, available, sumLimited, maxSlotsSum);
    NothingSplit(info.Graph(), fits);
    var n := |info.barrierProducerMap|;
    var b := 0;
    while b < n
      invariant b <= n <= |info.barrierProducerMap| && info.Valid()
      invariant info.Graph().Deps() == old(info.Graph()).Deps()
      invariant n == |fits| && OnlySplit(old(info.Graph()), info.Graph(), KeptUpTo(fits, b))
      invariant old(AllProducersFit(info.Graph(), info.slots, available, sumLimited, maxSlotsSum)) ==>
        AllProducersFit(info.Graph(), info.slots, available, sumLimited, maxSlotsSum)
      invariant EveryTaskFits(info.slots, available) ==>
        forall x: nat :: (x < b || n <= x) && x < |info.barrierProducerMap| ==>
          ConsumersFit(info.Graph(), x, info.slots, available, sumLimited, maxSlotsSum)
    {
      ghost var g := info.Graph();
      StillWhole(old(info.Graph()), g, fits, b);
      var producerNum := SlotCount(info.slots, info.barrierProducerMap[b]);
      var consumerNum := SlotCount(info.slots, info.barrierConsumerMap[b]);
      if !(sumLimited && producerNum + consumerNum <= maxSlotsSum) && consumerNum > available {
        var batches := SplitConsumers(info, b, available);
        SplitConsumersFit(g, info.Graph(), b, batches, info.slots, available, sumLimited, maxSlotsSum);
      }
      SplitStep(old(info.Graph()), g, info.Graph(), fits, b);
      b := b + 1;
    }
    assert KeptUpTo(fits, n) == fits;
  }

  lemma SplitConsumersFit(g: Graph, h: Graph, b: nat, batches: seq<set<nat>>, slots: seq<nat>, available: nat,
                          sumLimited: bool, maxSlotsSum: nat)
    requires b < |g.producers| == |g.consumers| && h == WithConsumerBatches(g, batches, g.producers[b]).ResetBarrier(b)
    requires Partitions(batches, g.consumers[b])
    ensures SlotCount(slots, h.consumers[b]) == 0
    ensures h.producers[b] == h.consumers[b] == {} && |h.producers| == |h.consumers| >= |g.producers|
    ensures forall x: nat :: x < |g.producers| && x != b ==> LeftOrReset(g, h, x, true)
    ensures forall x: nat :: |g.producers| <= x < |h.producers| ==> PartOf(g, b, h, x)
    ensures Fits(slots, batches, available) ==> forall x: nat :: |g.producers| <= x < |h.producers| ==>
      SlotCount(slots, h.consumers[x]) <= available
    ensures forall x: nat :: x < |g.producers| && x != b ==>
      (ConsumersFit(h, x, slots, available, sumLimited, maxSlotsSum) <==>
        ConsumersFit(g, x, slots, available, sumLimited, maxSlotsSum))
    ensures (!SumFits(g, b, slots, sumLimited, maxSlotsSum) &&
             AllProducersFit(g, slots, available, sumLimited, maxSlotsSum)) ==>
      AllProducersFit(h, slots, available, sumLimited, maxSlotsSum)
  {
    SlotCountEmpty(slots, |slots|);
    forall i, t | 0 <= i < |batches| && t in batches[i]
      ensures t in g.consumers[b]
    {
      assert InBatch(batches, |batches|, t);
    }
    if !SumFits(g, b, slots, sumLimited, maxSlotsSum) && AllProducersFit(g, slots, available, sumLimited, maxSlotsSum) {
      assert ProducersFit(g, b, slots, available, sumLimited, maxSlotsSum);
      forall x: nat | x < |h.producers|
        ensures ProducersFit(h, x, slots, available, sumLimited, maxSlotsSum)
      {
        if x < |g.producers| {
          assert ProducersFit(g, x, slots, available, sumLimited, maxSlotsSum);
        } else {
          assert h.producers[x] == g.producers[b];
        }
      }
    }
  }

  /** A barrier is legal within both slot limits, or within the limit on their sum. */
  predicate Legal(g: Graph, b: nat, slots: seq<nat>, available: nat, sumLimited: bool, maxSlotsSum: nat)
    requires b < |g.producers| == |g.consumers|
  {
    || SumFits(g, b, slots, sumLimited, maxSlotsSum)
    || (SlotCount(slots, g.producers[b]) <= available && SlotCount(slots, g.consumers[b]) <= available)
  }

  lemma LegalMeansBoth(g: Graph, mid: Graph, h: Graph, slots: seq<nat>, available: nat, sumLimited: bool,
                       maxSlotsSum: nat)
    requires |g.producers| == |g.consumers| && |mid.producers| == |mid.consumers|
    requires OnlySplit(g, mid, ProducersFits(g, slots, available, sumLimited, maxSlotsSum))
    requires OnlySplit(mid, h, ConsumersFits(mid, slots, available, sumLimited, maxSlotsSum))
    ensures OnlySplit(g, h, LegalOnes(g, slots, available, sumLimited, maxSlotsSum))
  {
    hide SlotCount;
    NoSlots(slots);
    var first := ProducersFits(g, slots, available, sumLimited, maxSlotsSum);
    forall b: nat | b < |first|
      ensures LeftOrReset(g, mid, b, first[b])
    {
    }
    SplitTwice(g, mid, h, first, ConsumersFits(mid, slots, available, sumLimited, maxSlotsSum),
      LegalOnes(g, slots, available, sumLimited, maxSlotsSum));
  }

  /** Which task directly depends on which stays exactly as it was, exactly the legal barriers are left alone,
      and when every single task fits into the available slots, every barrier ends up legal. */
  method SplitBarriersWithExceedingVariantCount(info: BarrierInfo, available: nat, maxSlotsSum: nat, maxAvailable: nat)
    requires info.Valid()
    modifies info`barrierProducerMap, info`taskUpdateBarriers, info`barrierConsumerMap, info`taskWaitBarriers
    ensures info.Valid() && info.Graph().Deps() == old(info.Graph()).Deps()
    ensures EveryTaskFits(info.slots, available) ==>
      forall b: nat {:trigger info.barrierProducerMap[b]} :: b < |info.barrierProducerMap| ==>
        Legal(info.Graph(), b, info.slots, available, maxSlotsSum < maxAvailable, maxSlotsSum)
    ensures OnlySplit(old(info.Graph()), info.Graph(),
      old(LegalOnes(info.Graph(), info.slots, available, maxSlotsSum < maxAvailable, maxSlotsSum)))
  {
    hide OnlySplit, Graph.Deps, SlotCount;
    var sumLimited := maxSlotsSum < maxAvailable;
    SplitAllProducers(info, available, maxSlotsSum, sumLimited);
    ghost var mid := info.Graph();
    SplitAllConsumers(info, available, maxSlotsSum, sumLimited);
    LegalMeansBoth(old(info.Graph()), mid, info.Graph(), info.slots, available, sumLimited, maxSlotsSum);
    if EveryTaskFits(info.slots, available) {
      forall b: nat | b < |info.barrierProducerMap|
        ensures Legal(info.Graph(), b, info.slots, available, sumLimited, maxSlotsSum)
      {
        assert ProducersFit(info.Graph(), b, info.slots, available, sumLimited, maxSlotsSum);
        assert ConsumersFit(info.Graph(), b, info.slots, available, sumLimited, maxSlotsSum);
      }
    }
  }
}
