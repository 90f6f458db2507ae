/** `ensureTasksDrivenBySingleBarrier`: tasks that wait for several barriers are given a single
    one, by merging the barriers or by running their producers one batch after the other. */
module SingleWaitBarrier {
  import opened Reachability
  import opened BarrierGraph
  import opened BarrierInfoModule
  import opened VariantBatches
  import opened BarrierChain
  import opened ProducerBatches

  /** The barriers that task `t` waits for. */
  ghost function Waits(g: Graph, t: nat): (bars: set<nat>)
    ensures forall b: nat :: b in bars <==> b < |g.consumers| && t in g.consumers[b]
  {
    set b: nat | b < |g.consumers| && t in g.consumers[b]
  }

  ghost predicate AtMostOne(bars: set<nat>) {
    forall b, c :: b in bars && c in bars ==> b == c
  }

  lemma AtMostOneMeansSize(bars: set<nat>)
    ensures AtMostOne(bars) <==> |bars| <= 1
  {
    if b :| b in bars {
      var rest := bars - {b};
      if c :| c in rest {
        assert |rest| >= 1 by { assert rest == (rest - {c}) + {c}; }
      } else {
        assert bars == {b};
      }
    }
  }

  /** Tasks `merged`, which all wait for exactly `bars`, no longer wait for any of them, and a barrier that
      nothing else waited for is reset. */
  ghost predicate Unlinked(g: Graph, h: Graph, bars: set<nat>, merged: set<nat>) {
    && h.tasks == g.tasks && |h.producers| == |h.consumers| == |g.producers| == |g.consumers|
    && (forall b :: 0 <= b < |g.consumers| ==>
          h.consumers[b] == if b in bars then g.consumers[b] - merged else g.consumers[b])
    && (forall b :: 0 <= b < |g.producers| ==>
          h.producers[b] == if b in bars && g.consumers[b] == merged then {} else g.producers[b])
  }

  lemma SameSizeSubset(s: set<nat>, t: set<nat>)
    requires s <= t && |s| == |t|
    ensures s == t
  {
    assert t == s + (t - s);
    assert |t| == |s| + |t - s|;
  }

  method UnlinkTasksFromBarriers(info: BarrierInfo, tasks: set<nat>, bars: set<nat>)
    requires info.Valid()
    requires forall b :: b in bars ==> b < |info.barrierConsumerMap| && tasks <= info.barrierConsumerMap[b]
    requires forall t :: t in tasks ==> t < |info.taskWaitBarriers|
    modifies info`barrierProducerMap, info`taskUpdateBarriers, info`barrierConsumerMap, info`taskWaitBarriers
    ensures info.Valid() && Unlinked(old(info.Graph()), info.Graph(), bars, tasks)
  {
    ghost var g := info.Graph();
    var left := bars;
    while left != {}
      invariant left <= bars && info.Valid() && Unlinked(g, info.Graph(), bars - left, tasks)
    {
      var b :| b in left;
      assert info.barrierConsumerMap[b] == g.consumers[b];
      if |info.barrierConsumerMap[b]| == |tasks| {
        SameSizeSubset(tasks, info.barrierConsumerMap[b]);
        info.ResetBarrier(b);
      } else {
        info.RemoveConsumers(b, tasks);
      }
      left := left - {b};
    }
    assert bars - {} == bars;
  }

  /** The tasks linked by `entries` to some barrier of `bars`. */
  ghost function Linkers(entries: seq<set<nat>>, bars: set<nat>): (tasks: set<nat>)
    requires forall b :: b in bars ==> b < |entries|
    ensures forall t: nat :: t in tasks <==> exists b :: b in bars && t in entries[b]
  {
    set b, t | b in bars && t in entries[b] :: t
  }

  /** The union of `entries[b]` over the barriers of `bars`. */
  method Union(entries: seq<set<nat>>, bars: set<nat>) returns (tasks: set<nat>)
    requires forall b :: b in bars ==> b < |entries|
    ensures tasks == Linkers(entries, bars)
  {
    tasks := {};
    var left := bars;
    while left != {}
      invariant left <= bars
      invariant forall t: nat :: t in tasks <==> exists b :: b in bars && b !in left && t in entries[b]
    {
      var b :| b in left;
      tasks := tasks + entries[b];
      left := left - {b};
    }
  }

  /** The slots left for consumers beside producers that need `producerSlots`: half of all, or with an
      uneven split what producers above their half leave, if each task that waits for `bars` fits. */
  ghost function ConsumerSlots(slots: seq<nat>, waits: seq<set<nat>>, bars: set<nat>, producerSlots: nat,
                               available: nat, uneven: bool): nat
    requires |slots| == |waits|
  {
    if && uneven && available < producerSlots < 2 * available
       && forall t: nat :: t < |waits| && waits[t] == bars ==> slots[t] <= 2 * available - producerSlots
    then 2 * available - producerSlots
    else available
  }

  /** `t` is the first task that waits for exactly `bars`. */
  ghost predicate FirstToWait(waits: seq<set<nat>>, bars: set<nat>, t: nat) {
    t < |waits| && waits[t] == bars && forall u :: 0 <= u < t ==> waits[u] != bars
  }

  /** The slots of the tasks that produce for the barriers that task `t` waits for. */
  ghost function ProducerSlots(info: BarrierInfo, t: nat): nat
    requires info.Valid() && t < |info.taskWaitBarriers|
    reads info
  {
    SlotCount(info.slots, Linkers(info.barrierProducerMap, info.taskWaitBarriers[t]))
  }

  /** The slots left for the consumers of a barrier that replaces those that task `t` waits for. */
  ghost function Share(info: BarrierInfo, t: nat, available: nat): nat
    requires info.Valid() && t < |info.taskWaitBarriers|
    reads info
  {
    ConsumerSlots(info.slots, info.taskWaitBarriers, info.taskWaitBarriers[t], ProducerSlots(info, t), available,
      info.unevenVariantSplit)
  }

  /** Every new barrier has consumers within their share of the slots, and producers within the rest. */
  ghost predicate NewBarriersFit(slots: seq<nat>, g: Graph, h: Graph, share: nat, total: nat)
    requires |h.producers| == |h.consumers|
  {
    forall b :: |g.consumers| <= b < |h.consumers| ==>
      SlotCount(slots, h.consumers[b]) <= share && SlotCount(slots, h.producers[b]) + share <= total
  }

  /** A barrier uses no more than all slots, and no more than half for either side unless the split is uneven. */
  ghost predicate InLimits(slots: seq<nat>, producers: set<nat>, consumers: set<nat>, available: nat, uneven: bool) {
    && SlotCount(slots, producers) + SlotCount(slots, consumers) <= 2 * available
    && (!uneven ==> SlotCount(slots, producers) <= available && SlotCount(slots, consumers) <= available)
  }

  ghost predicate AllInLimits(slots: seq<nat>, g: Graph, available: nat, uneven: bool)
    requires |g.producers| == |g.consumers|
  {
    forall b :: 0 <= b < |g.producers| ==> InLimits(slots, g.producers[b], g.consumers[b], available, uneven)
  }

  /** Task `t` waits for nothing, or the first task that waits for the same barriers needs more than
      the slots left for consumers. */
  ghost predicate NoConsumerFits(info: BarrierInfo, t: nat, available: nat)
    requires info.Valid() && t < |info.taskWaitBarriers|
    reads info
  {
    var bars := info.taskWaitBarriers[t];
    bars == {} || exists u: nat ::
      FirstToWait(info.taskWaitBarriers, bars, u) && info.slots[u] > Share(info, t, available)
  }

  /** `t` is the first of `consumers` that waits for exactly `bars`. */
  ghost predicate FirstWithSameWaits(waits: seq<set<nat>>, consumers: set<nat>, bars: set<nat>, t: nat) {
    && t < |waits| && t in consumers && waits[t] == bars
    && forall u :: 0 <= u < t && u in consumers ==> waits[u] != bars
  }

  /** `found` are the first of those `consumers` that wait for exactly `bars`, as many as fit. */
  ghost predicate AsManyAsFit(slots: seq<nat>, waits: seq<set<nat>>, consumers: set<nat>, bars: set<nat>, limit: nat,
                              found: set<nat>)
    requires |slots| == |waits|
  {
    && SlotCount(slots, found) <= limit
    && (forall t :: t in found ==> t < |waits| && t in consumers && waits[t] == bars)
    && (forall t, u :: t in found && u in consumers && u < t && waits[u] == bars ==> u in found)
    && forall t :: t in consumers && t !in found && t < |waits| && waits[t] == bars ==>
         (forall u :: u in consumers && u < t && waits[u] == bars ==> u in found) ==>
         SlotCount(slots, found) + slots[t] > limit
  }

  /** Consumers that wait for exactly `bars`, in ascending order as far as the slots go: none
      when the first of them already needs too many slots, otherwise at least that one. */
  method ConsumersWithSameWaits(info: BarrierInfo, consumers: set<nat>, bars: set<nat>, slotsForConsumers: nat)
    returns (found: set<nat>)
    requires info.Valid() && forall t :: t in consumers ==> t < |info.taskWaitBarriers|
    ensures AsManyAsFit(info.slots, info.taskWaitBarriers, consumers, bars, slotsForConsumers, found)
  {
    hide SlotCount;
    found := {};
    NoTasksNoSlots(info.slots);
    var count := 0;
    var t := 0;
    while t < |info.taskWaitBarriers|
      invariant t <= |info.taskWaitBarriers|
      invariant forall u :: u in found ==> u < t && u in consumers && info.taskWaitBarriers[u] == bars
      invariant count == SlotCount(info.slots, found) <= slotsForConsumers
      invariant forall u :: u < t && u in consumers && info.taskWaitBarriers[u] == bars ==> u in found
    {
      if t in consumers && info.taskWaitBarriers[t] == bars {
        count := count + info.slots[t];
        if count > slotsForConsumers {
          break;
        }
        SlotCountAdd(info.slots, found, t);
        found := found + {t};
      }
      t := t + 1;
    }
  }

  lemma FoundAreConsumers(slots: seq<nat>, waits: seq<set<nat>>, consumers: set<nat>, bars: set<nat>, limit: nat,
                          found: set<nat>)
    requires |slots| == |waits| && AsManyAsFit(slots, waits, consumers, bars, limit, found)
    ensures SlotCount(slots, found) <= limit
    ensures forall t :: t in found ==> t < |waits| && t in consumers && waits[t] == bars
  {
  }

  /** None is found exactly when the first one needs too many slots, and otherwise that one is. */
  lemma FirstIsFound(slots: seq<nat>, waits: seq<set<nat>>, consumers: set<nat>, bars: set<nat>, limit: nat,
                     found: set<nat>, first: nat)
    requires |slots| == |waits| && AsManyAsFit(slots, waits, consumers, bars, limit, found)
    requires FirstWithSameWaits(waits, consumers, bars, first)
    ensures if slots[first] <= limit then first in found else found == {}
  {
    hide SlotCount;
    NoTasksNoSlots(slots);
    if t :| t in found {
      assert t == first || first < t;
      assert {first} <= found;
      SlotCountMonotone(slots, {first}, found);
      SlotCountAdd(slots, {}, first);
      assert {} + {first} == {first};
    } else {
      assert found == {} && SlotCount(slots, found) + slots[first] > limit;
    }
  }

  method AddLinkedBarrier(info: BarrierInfo, producers: set<nat>, consumers: set<nat>)
    requires info.Valid()
    requires forall t :: t in producers || t in consumers ==> t < |info.taskWaitBarriers|
    modifies info`barrierProducerMap, info`taskUpdateBarriers, info`barrierConsumerMap, info`taskWaitBarriers
    ensures info.Valid() && info.Graph() == AddLinks(old(info.Graph()), producers, consumers)
  {
    var newBarrier := info.AddNewBarrier();
    info.AddProducers(newBarrier, producers);
    info.AddConsumers(newBarrier, consumers);
    assert {} + producers == producers && {} + consumers == consumers;
  }

  /** One new barrier, with all the producers before the consumers. */
  method MergeLegalParallelProducers(info: BarrierInfo, producers: set<nat>, consumers: set<nat>)
    requires info.Valid()
    requires forall t :: t in producers || t in consumers ==> t < |info.taskWaitBarriers|
    modifies info`barrierProducerMap, info`taskUpdateBarriers, info`barrierConsumerMap, info`taskWaitBarriers
    ensures info.Valid() && info.Graph() == AddChain(old(info.Graph()), [producers], consumers)
  {
    assert AddChain(info.Graph(), [producers], consumers) == AddLinks(info.Graph(), producers, consumers) by {
      assert [producers][..0] == [];
    }
    AddLinkedBarrier(info, producers, consumers);
  }

  /** New barriers between the batches, and between the last batch and the consumers. */
  method LinkBatches(info: BarrierInfo, batches: seq<set<nat>>, consumers: set<nat>)
    requires info.Valid() && forall t :: t in consumers ==> t < |info.taskWaitBarriers|
    requires forall i, t :: 0 <= i < |batches| && t in batches[i] ==> t < |info.taskWaitBarriers|
    modifies info`barrierProducerMap, info`taskUpdateBarriers, info`barrierConsumerMap, info`taskWaitBarriers
    ensures info.Valid() && info.Graph() == AddChain(old(info.Graph()), batches, consumers)
  {
    ghost var g := info.Graph();
    var nextBatch: set<nat> := consumers;
    var i := |batches|;
    assert batches[..i] == batches;
    while i > 0
      invariant i <= |batches| && info.Valid() && |info.taskWaitBarriers| == g.tasks
      invariant AddChain(info.Graph(), batches[..i], nextBatch) == AddChain(g, batches, consumers)
      invariant forall t :: t in nextBatch ==> t < |info.taskWaitBarriers|
    {
      i := i - 1;
      assert batches[..i + 1][..i] == batches[..i];
      AddLinkedBarrier(info, batches[i], nextBatch);
      nextBatch := batches[i];
    }
  }

  /** The batches keep the barriers' producers together as far as they fit, if those of each barrier come
      after those of the barriers before it, and otherwise are as few as can be. */
  ghost predicate BatchesRight(slots: seq<nat>, producerMap: seq<set<nat>>, bars: set<nat>, limit: nat,
                               batches: seq<set<nat>>)
  {
    if bars != {} && ProducersAscend(producerMap, bars, |producerMap|) then
      CutWhereNeeded(slots, producerMap, bars, |producerMap|, limit, batches)
    else Greedy(slots, batches, limit)
  }

  /** The producers are cut into batches that run one after the other before the consumers. */
  method LinearizeLegalParallelProducers(info: BarrierInfo, bars: set<nat>, producers: set<nat>, consumers: set<nat>,
                                         availableSlots: nat)
    returns (batches: seq<set<nat>>)
    requires info.Valid() && forall b :: b in bars ==> b < |info.barrierProducerMap|
    requires forall t: nat :: t in producers <==> exists b :: b in bars && t in info.barrierProducerMap[b]
    requires forall t :: t in consumers ==> t < |info.taskWaitBarriers|
    modifies info`barrierProducerMap, info`taskUpdateBarriers, info`barrierConsumerMap, info`taskWaitBarriers
    ensures info.Valid() && info.Graph() == AddChain(old(info.Graph()), batches, consumers)
    ensures batches != [] && GoodBatches(info.slots, producers, availableSlots, batches)
    ensures EveryTaskFits(info.slots, availableSlots) ==>
      BatchesRight(info.slots, old(info.barrierProducerMap), bars, availableSlots, batches)
  {
    hide ProducersAscend, CutWhereNeeded, Greedy, SlotCount, AddChain;
    assert forall t :: t in producers ==> t < |info.slots|;
    batches := CreateProducerBatches(info, bars, availableSlots);
    assert producers == ProducersBelow(info.barrierProducerMap, bars, |info.barrierProducerMap|);
    if batches == [] {
      batches := CreateLegalVariantBatches(info.slots, producers, availableSlots);
      if EachFits(info.slots, producers, availableSlots) && producers != {} {
        assert forall i :: 0 <= i < |batches| ==> batches[i] != {};
      }
    }
    forall i, t | 0 <= i < |batches| && t in batches[i]
      ensures t < |info.taskWaitBarriers|
    {
      assert InBatch(batches, |batches|, t);
      assert t in producers;
    }
    LinkBatches(info, batches, consumers);
  }

  /** What treating task `t` does to the wait barriers: the tasks of `merged` are left with one
      new barrier, others keep theirs, and only tasks before `t` may gain new ones. */
  ghost predicate WaitsMerged(g: Graph, h: Graph, t: nat, merged: set<nat>) {
    && h.tasks == g.tasks && |h.producers| == |h.consumers| && |h.consumers| >= |g.consumers|
    && (forall u: nat, b: nat :: b < |g.consumers| ==> (b in Waits(h, u) <==> b in Waits(g, u) && u !in merged))
    && (forall u: nat :: u in merged ==> Waits(h, u) == {|g.consumers|})
    && (forall u: nat, b: nat :: u !in merged && b >= |g.consumers| && b in Waits(h, u) ==> u < t)
  }

  /** The tasks of `merged` wait for exactly `bars`, among them task `t`'s barriers. */
  ghost predicate Mergeable(g: Graph, t: nat, bars: set<nat>, merged: set<nat>) {
    && bars == Waits(g, t) && bars != {}
    && forall u: nat :: u in merged ==> Waits(g, u) == bars
  }

  lemma ChainWaitsMerged(g: Graph, g1: Graph, h: Graph, t: nat, bars: set<nat>, merged: set<nat>,
                         producers: set<nat>, batches: seq<set<nat>>)
    requires g.WellFormed() && g.InProgramOrder() && Mergeable(g, t, bars, merged)
    requires forall p: nat :: p in producers <==> exists b :: b in bars && p in g.producers[b]
    requires Partitions(batches, producers) && batches != []
    requires g1 == AddChain(g, batches, merged) && |g1.producers| == |g1.consumers| && Unlinked(g1, h, bars, merged)
    ensures WaitsMerged(g, h, t, merged)
  {
    var n := |g.consumers|;
    ChainExtends(g, batches, merged);
    forall u: nat, b: nat | b >= n && b in Waits(h, u)
      ensures if b == n then u in merged else u in producers
    {
      ChainBarriers(g, batches, merged, b - n);
      if b > n {
        assert InBatch(batches, |batches|, u);
      }
    }
    forall u: nat | u in producers
      ensures u < t && u !in merged
    {
      var b :| b in bars && u in g.producers[b];
      assert g.Linked(b, u, t);
      assert !g.Linked(b, u, u);
      assert u in merged ==> b in Waits(g, u);
    }
    ChainBarriers(g, batches, merged, 0);
  }

  /** The new barriers on top of the unlinked old ones. */
  lemma UnlinkedChain(g: Graph, g1: Graph, h: Graph, bars: set<nat>, merged: set<nat>, batches: seq<set<nat>>)
    returns (base: Graph)
    requires g.WellFormed() && (forall b :: b in bars ==> b < |g.consumers|)
    requires g1 == AddChain(g, batches, merged) && |g1.producers| == |g1.consumers| && Unlinked(g1, h, bars, merged)
    ensures h == AddChain(base, batches, merged) && Unlinked(g, base, bars, merged)
  {
    var n := |g.consumers|;
    ChainExtends(g, batches, merged);
    base := Graph(g.tasks, h.producers[..n], h.consumers[..n]);
    var k := AddChain(base, batches, merged);
    ChainExtends(base, batches, merged);
    forall b | 0 <= b < |h.producers|
      ensures k.producers[b] == h.producers[b] && k.consumers[b] == h.consumers[b]
    {
      if b >= n {
        ChainBarriers(base, batches, merged, b - n);
        ChainBarriers(g, batches, merged, b - n);
      }
    }
    assert k.producers == h.producers && k.consumers == h.consumers;
  }

  /** No ordering is lost, and every dependency still goes to a higher index. */
  lemma ChainKeepsOrder(g: Graph, g1: Graph, h: Graph, t: nat, bars: set<nat>, merged: set<nat>,
                        producers: set<nat>, batches: seq<set<nat>>)
    requires g.WellFormed() && g.InProgramOrder() && Mergeable(g, t, bars, merged)
    requires forall p: nat :: p in producers <==> exists b :: b in bars && p in g.producers[b]
    requires Partitions(batches, producers)
    requires g1 == AddChain(g, batches, merged) && |g1.producers| == |g1.consumers| && Unlinked(g1, h, bars, merged)
    ensures h.InProgramOrder()
    ensures (producers != {} ==> NoneEmpty(batches)) ==> forall a: nat, c: nat :: g.HappensBefore(a, c) ==>
      h.HappensBefore(a, c)
  {
    var base := UnlinkedChain(g, g1, h, bars, merged, batches);
    forall p, c | p in producers && c in merged
      ensures p < c
    {
      var b :| b in bars && p in g.producers[b];
      assert b in Waits(g, c);
      assert g.Linked(b, p, c);
    }
    forall k, p, c | 0 <= k < |batches| && p in batches[k] && c in merged
      ensures p < c
    {
      assert InBatch(batches, |batches|, p);
      assert p in producers;
    }
    assert base.InProgramOrder() by {
      forall b, p, c | base.Linked(b, p, c)
        ensures p < c
      {
        assert g.Linked(b, p, c);
      }
    }
    ChainInProgramOrder(base, batches, merged);
    if producers != {} ==> NoneEmpty(batches) {
      forall p: nat, c: nat | (p, c) in g.Deps()
        ensures Reaches(h.Deps(), p, c)
      {
        g.DepsMeansLinked(p, c);
        var b :| g.Linked(b, p, c);
        if b in bars && c in merged {
          assert p in producers && InBatch(batches, |batches|, p);
          var k :| 0 <= k < |batches| && p in batches[k];
          assert NoneEmpty(batches);
          ChainOrders(base, batches, merged, k, p, c);
        } else {
          ChainKeepsDeps(base, batches, merged);
          assert base.Linked(b, p, c);
          EdgeReaches(h.Deps(), p, c);
        }
      }
      SimulatesAll(g.Deps(), h.Deps());
    }
  }

  /** Slots for the consumers: what the producers leave, when the uneven split is enabled, the
      producers need more than their half, and every consumer in question still fits. */
  method SlotsForConsumers(info: BarrierInfo, consumers: set<nat>, bars: set<nat>, producerSlots: nat, available: nat)
    returns (slots: nat)
    requires info.Valid() && forall t :: t in consumers ==> t < |info.taskWaitBarriers|
    ensures slots <= 2 * available
    ensures forall t :: t in consumers && info.taskWaitBarriers[t] == bars && info.slots[t] <= available ==>
      info.slots[t] <= slots
    ensures (forall t: nat :: t < |info.taskWaitBarriers| && info.taskWaitBarriers[t] == bars ==> t in consumers) ==>
      slots == ConsumerSlots(info.slots, info.taskWaitBarriers, bars, producerSlots, available, info.unevenVariantSplit)
  {
    slots := available;
    var total := 2 * available;
    if info.unevenVariantSplit && available < producerSlots < total {
      if forall t | t in consumers :: info.taskWaitBarriers[t] != bars || info.slots[t] <= total - producerSlots {
        slots := total - producerSlots;
      }
    }
  }

  /** New barriers that run the producers, all together or in batches, before the consumers. */
  method BuildChain(info: BarrierInfo, bars: set<nat>, producers: set<nat>, toMerge: set<nat>, mergeAll: bool,
                    availableSlots: nat)
    returns (batches: seq<set<nat>>)
    requires info.Valid() && forall b :: b in bars ==> b < |info.barrierProducerMap|
    requires forall p: nat :: p in producers <==> exists b :: b in bars && p in info.barrierProducerMap[b]
    requires forall t :: t in toMerge ==> t < |info.taskWaitBarriers|
    modifies info`barrierProducerMap, info`taskUpdateBarriers, info`barrierConsumerMap, info`taskWaitBarriers
    ensures info.Valid() && info.Graph() == AddChain(old(info.Graph()), batches, toMerge)
    ensures batches != [] && Partitions(batches, producers)
    ensures EachFits(info.slots, producers, availableSlots) && producers != {} ==> NoneEmpty(batches)
    ensures if mergeAll then batches == [producers] else
      EachFits(info.slots, producers, availableSlots) && producers != {} ==> Fits(info.slots, batches, availableSlots)
    ensures !mergeAll && EveryTaskFits(info.slots, availableSlots) ==>
      BatchesRight(info.slots, old(info.barrierProducerMap), bars, availableSlots, batches)
  {
    if mergeAll {
      SingleBatch(info.slots, SlotCount(info.slots, producers), producers);
      batches := [producers];
      MergeLegalParallelProducers(info, producers, toMerge);
    } else {
      batches := LinearizeLegalParallelProducers(info, bars, producers, toMerge, availableSlots);
    }
  }

  /** A chain of batches has been put before the tasks of `merged`, which no longer wait for `bars`. */
  ghost predicate Replaced(g: Graph, h: Graph, bars: set<nat>, merged: set<nat>, batches: seq<set<nat>>) {
    exists g1 :: g1 == AddChain(g, batches, merged) && |g1.producers| == |g1.consumers| && Unlinked(g1, h, bars, merged)
  }

  /** The old barriers of `toMerge` are replaced by a chain of new ones. */
  method ReplaceBarriers(info: BarrierInfo, t: nat, bars: set<nat>, producers: set<nat>, toMerge: set<nat>,
                         mergeAll: bool, availableSlots: nat, ghost share: nat)
    returns (ghost batches: seq<set<nat>>)
    requires info.Valid() && info.Graph().InProgramOrder() && Mergeable(info.Graph(), t, bars, toMerge)
    requires forall p: nat :: p in producers <==> exists b :: b in bars && p in info.barrierProducerMap[b]
    requires SlotCount(info.slots, toMerge) <= share
    requires if mergeAll then SlotCount(info.slots, producers) + share <= 2 * availableSlots else
      SlotCount(info.slots, producers) > availableSlots == share
    modifies info`barrierProducerMap, info`taskUpdateBarriers, info`barrierConsumerMap, info`taskWaitBarriers
    ensures info.Valid() && info.Graph().InProgramOrder() && WaitsMerged(old(info.Graph()), info.Graph(), t, toMerge)
    ensures OthersShrink(old(info.Graph()), info.Graph())
    ensures Replaced(old(info.Graph()), info.Graph(), bars, toMerge, batches)
    ensures if mergeAll then batches == [producers] else
      EveryTaskFits(info.slots, availableSlots) ==>
      Partitions(batches, producers) &&
      BatchesRight(info.slots, old(info.barrierProducerMap), bars, availableSlots, batches)
    ensures EveryTaskFits(info.slots, availableSlots) ==>
      NewBarriersFit(info.slots, old(info.Graph()), info.Graph(), share, 2 * availableSlots)
    ensures EveryTaskFits(info.slots, availableSlots) ==>
      (|info.barrierConsumerMap| == |old(info.barrierConsumerMap)| + 1 <==> mergeAll)
    ensures EveryTaskFits(info.slots, availableSlots) ==>
      forall a: nat, c: nat :: old(info.Graph()).HappensBefore(a, c) ==> info.Graph().HappensBefore(a, c)
  {
    hide AddChain, Unlinked, WaitsMerged, Partitions, Fits, SlotCount, NewBarriersFit, OthersShrink, NoneEmpty, Waits,
      BatchesRight;
    ghost var g := info.Graph();
    MergeableBars(g, t, bars, toMerge);
    NoTasksNoSlots(info.slots);
    assert EveryTaskFits(info.slots, availableSlots) ==> EachFits(info.slots, producers, availableSlots);
    batches := BuildChain(info, bars, producers, toMerge, mergeAll, availableSlots);
    ghost var g1 := info.Graph();
    ChainExtends(g, batches, toMerge);
    UnlinkTasksFromBarriers(info, toMerge, bars);
    ChainWaitsMerged(g, g1, info.Graph(), t, bars, toMerge, producers, batches);
    ChainKeepsOrder(g, g1, info.Graph(), t, bars, toMerge, producers, batches);
    ChainShrinks(g, g1, info.Graph(), bars, toMerge, batches);
    if EveryTaskFits(info.slots, availableSlots) {
      ChainFits(info.slots, g, g1, info.Graph(), bars, toMerge, producers, batches, mergeAll, share, availableSlots);
    }
  }

  /** Barriers that were there have lost links, if anything. */
  ghost predicate OthersShrink(g: Graph, h: Graph) {
    && |g.producers| == |g.consumers| <= |h.producers| == |h.consumers|
    && forall b :: 0 <= b < |g.producers| ==> h.producers[b] <= g.producers[b] && h.consumers[b] <= g.consumers[b]
  }

  lemma NoTasksNoSlots(slots: seq<nat>)
    ensures SlotCount(slots, {}) == 0
  {
    SlotCountEmpty(slots, |slots|);
  }

  lemma MergeableBars(g: Graph, t: nat, bars: set<nat>, merged: set<nat>)
    requires g.WellFormed() && Mergeable(g, t, bars, merged)
    ensures forall b :: b in bars ==> b < |g.consumers| && merged <= g.consumers[b]
    ensures forall u :: u in merged ==> u < g.tasks
  {
    forall b, u | b in bars && u in merged
      ensures u in g.consumers[b]
    {
      assert b in Waits(g, u);
    }
    forall u | u in merged
      ensures u < g.tasks
    {
      var b :| b in bars;
      assert b in Waits(g, u);
    }
  }

  lemma ChainShrinks(g: Graph, g1: Graph, h: Graph, bars: set<nat>, merged: set<nat>, batches: seq<set<nat>>)
    requires g.WellFormed() && g1 == AddChain(g, batches, merged) && |g1.producers| == |g1.consumers|
    requires Unlinked(g1, h, bars, merged)
    ensures OthersShrink(g, h)
  {
    ChainExtends(g, batches, merged);
  }

  /** How full the barriers of a chain are, and when it has only one. */
  lemma ChainFits(slots: seq<nat>, g: Graph, g1: Graph, h: Graph, bars: set<nat>, merged: set<nat>,
                  producers: set<nat>, batches: seq<set<nat>>, mergeAll: bool, share: nat, available: nat)
    requires g.WellFormed() && forall b :: b in bars ==> b < |g.consumers|
    requires Partitions(batches, producers) && batches != []
    requires g1 == AddChain(g, batches, merged) && |g1.producers| == |g1.consumers| && Unlinked(g1, h, bars, merged)
    requires if mergeAll then batches == [producers] else Fits(slots, batches, available)
    requires SlotCount(slots, merged) <= share
    requires if mergeAll then SlotCount(slots, producers) + share <= 2 * available else
      SlotCount(slots, producers) > available == share
    ensures NewBarriersFit(slots, g, h, share, 2 * available)
    ensures |h.consumers| == |g.consumers| + 1 <==> mergeAll
  {
    ChainExtends(g, batches, merged);
    forall b | |g.consumers| <= b < |h.consumers|
      ensures SlotCount(slots, h.consumers[b]) <= share && SlotCount(slots, h.producers[b]) + share <= 2 * available
    {
      ChainBarriers(g, batches, merged, b - |g.consumers|);
    }
    if |batches| == 1 && !mergeAll {
      assert forall p :: p in producers ==> InBatch(batches, |batches|, p);
      assert producers <= batches[0];
      SlotCountMonotone(slots, producers, batches[0]);
    }
  }

  /** Within the limits before, within the limits afterwards. */
  lemma LimitsKept(slots: seq<nat>, g: Graph, h: Graph, share: nat, available: nat, uneven: bool)
    requires OthersShrink(g, h) && NewBarriersFit(slots, g, h, share, 2 * available) && share <= 2 * available
    requires (!uneven ==> share == available) && AllInLimits(slots, g, available, uneven)
    ensures AllInLimits(slots, h, available, uneven)
  {
    forall b | 0 <= b < |h.producers|
      ensures InLimits(slots, h.producers[b], h.consumers[b], available, uneven)
    {
      if b < |g.producers| {
        assert InLimits(slots, g.producers[b], g.consumers[b], available, uneven);
        SlotCountMonotone(slots, h.producers[b], g.producers[b]);
        SlotCountMonotone(slots, h.consumers[b], g.consumers[b]);
      }
    }
  }

  /** Task `t` waits for other barriers than any task before it. */
  ghost predicate WaitsAreNew(waits: seq<set<nat>>, t: nat)
    requires t < |waits|
  {
    forall u :: 0 <= u < t ==> waits[u] != waits[t]
  }

  /** Consumers get half of the slots, or exactly what the producers leave. */
  lemma ShareIs(info: BarrierInfo, t: nat, available: nat)
    requires info.Valid() && t < |info.taskWaitBarriers|
    ensures var share := Share(info, t, available);
      share <= 2 * available && (share == available ||
        (info.unevenVariantSplit && ProducerSlots(info, t) + share == 2 * available))
  {
  }

  lemma MergeableWaits(info: BarrierInfo, t: nat, bars: set<nat>, merged: set<nat>)
    requires info.Valid() && t < |info.taskWaitBarriers| && bars == info.taskWaitBarriers[t] && bars != {}
    requires forall u :: u in merged ==> u < |info.taskWaitBarriers| && info.taskWaitBarriers[u] == bars
    ensures Mergeable(info.Graph(), t, bars, merged)
  {
    assert forall u :: 0 <= u < |info.taskWaitBarriers| ==> Waits(info.Graph(), u) == info.taskWaitBarriers[u];
  }

  lemma FirstOf(waits: seq<set<nat>>, t: nat) returns (first: nat)
    requires t < |waits|
    ensures FirstToWait(waits, waits[t], first)
  {
    first := 0;
    while waits[first] != waits[t]
      invariant first <= t && forall u :: 0 <= u < first ==> waits[u] != waits[t]
      decreases t - first
    {
      first := first + 1;
    }
  }

  /** Whoever waits for some barriers, and for exactly these, is a consumer of them. */
  lemma WaitersAreConsumers(info: BarrierInfo, bars: set<nat>)
    requires info.Valid() && bars != {} && forall b :: b in bars ==> b < |info.barrierConsumerMap|
    ensures forall t: nat :: t < |info.taskWaitBarriers| && info.taskWaitBarriers[t] == bars ==>
      t in Linkers(info.barrierConsumerMap, bars)
  {
    var b :| b in bars;
    assert forall t: nat :: t < |info.taskWaitBarriers| && b in info.taskWaitBarriers[t] ==>
      t in info.barrierConsumerMap[b];
  }

  /** The tasks that wait for the same barriers as `t`, as far as the slots left for consumers go. */
  method ConsumersToMerge(info: BarrierInfo, t: nat, bars: set<nat>, producerSlots: nat, availableSlots: nat)
    returns (slotsForConsumers: nat, toMerge: set<nat>)
    requires info.Valid() && t < |info.taskWaitBarriers| && bars == info.taskWaitBarriers[t]
    requires producerSlots == SlotCount(info.slots, Linkers(info.barrierProducerMap, bars))
    ensures slotsForConsumers <= 2 * availableSlots
    ensures forall u :: u in toMerge ==> bars != {} && u < |info.taskWaitBarriers| && info.taskWaitBarriers[u] == bars
    ensures toMerge == {} <==> NoConsumerFits(info, t, availableSlots)
    ensures SlotCount(info.slots, toMerge) <= slotsForConsumers
    ensures AsManyAsFit(info.slots, info.taskWaitBarriers, Linkers(info.barrierConsumerMap, bars), bars,
      slotsForConsumers, toMerge)
    ensures toMerge != {} ==> slotsForConsumers == Share(info, t, availableSlots)
    ensures bars != {} && WaitsAreNew(info.taskWaitBarriers, t) && info.slots[t] <= availableSlots ==> t in toMerge
    ensures toMerge != {} && WaitsAreNew(info.taskWaitBarriers, t) ==> t in toMerge
  {
    hide AsManyAsFit, SlotCount;
    var consumers := Union(info.barrierConsumerMap, bars);
    slotsForConsumers := SlotsForConsumers(info, consumers, bars, producerSlots, availableSlots);
    toMerge := ConsumersWithSameWaits(info, consumers, bars, slotsForConsumers);
    FoundAreConsumers(info.slots, info.taskWaitBarriers, consumers, bars, slotsForConsumers, toMerge);
    if bars == {} {
      assert consumers == {};
    } else {
      ghost var first := FirstOf(info.taskWaitBarriers, t);
      WaitersAreConsumers(info, bars);
      assert FirstWithSameWaits(info.taskWaitBarriers, consumers, bars, first);
      FirstIsFound(info.slots, info.taskWaitBarriers, consumers, bars, slotsForConsumers, toMerge, first);
      assert forall u: nat :: FirstToWait(info.taskWaitBarriers, bars, u) ==> u == first;
    }
  }

  /** Task `t` and the tasks that wait for the same barriers get one new barrier instead.
      Throws, changing nothing, exactly when task `t` waits for nothing or the first of those tasks
      needs too many slots.  The new barriers are within the slots; there is one if and only if the
      producers fit beside the share of the consumers. */
  method MergeParallelWaitBarriers(info: BarrierInfo, t: nat, availableSlots: nat)
    returns (r: Outcome, ghost merged: set<nat>, ghost batches: seq<set<nat>>)
    requires info.Valid() && info.Graph().InProgramOrder() && t < |info.taskWaitBarriers|
    modifies info`barrierProducerMap, info`taskUpdateBarriers, info`barrierConsumerMap, info`taskWaitBarriers
    ensures info.Valid() && info.Graph().InProgramOrder()
    ensures r.Thrown? <==> old(NoConsumerFits(info, t, availableSlots))
    ensures r.Thrown? ==> info.Graph() == old(info.Graph())
    ensures r.Done? && EveryTaskFits(info.slots, availableSlots) ==>
      NewBarriersFit(info.slots, old(info.Graph()), info.Graph(), old(Share(info, t, availableSlots)),
        2 * availableSlots)
    ensures r.Done? && EveryTaskFits(info.slots, availableSlots) ==>
      (|info.barrierConsumerMap| == |old(info.barrierConsumerMap)| + 1 <==>
       old(ProducerSlots(info, t) + Share(info, t, availableSlots)) <= 2 * availableSlots)
    ensures EveryTaskFits(info.slots, availableSlots) ==>
      old(AllInLimits(info.slots, info.Graph(), availableSlots, info.unevenVariantSplit)) ==>
      AllInLimits(info.slots, info.Graph(), availableSlots, info.unevenVariantSplit)
    ensures r.Done? ==> AsManyAsFit(info.slots, old(info.taskWaitBarriers),
      old(Linkers(info.barrierConsumerMap, info.taskWaitBarriers[t])), old(info.taskWaitBarriers[t]),
      old(Share(info, t, availableSlots)), merged)
    ensures r.Done? ==> Replaced(old(info.Graph()), info.Graph(), old(info.taskWaitBarriers[t]), merged, batches)
    ensures r.Done? ==> if old(ProducerSlots(info, t) + Share(info, t, availableSlots)) <= 2 * availableSlots then
      batches == [old(Linkers(info.barrierProducerMap, info.taskWaitBarriers[t]))] else
      EveryTaskFits(info.slots, availableSlots) ==>
      Partitions(batches, old(Linkers(info.barrierProducerMap, info.taskWaitBarriers[t]))) &&
      BatchesRight(info.slots, old(info.barrierProducerMap), old(info.taskWaitBarriers[t]), availableSlots, batches)
    ensures r.Done? ==> WaitsMerged(old(info.Graph()), info.Graph(), t, merged)
    ensures r.Done? && WaitsAreNew(old(info.taskWaitBarriers), t) ==> t in merged
    ensures EveryTaskFits(info.slots, availableSlots) ==>
      forall a: nat, c: nat :: old(info.Graph()).HappensBefore(a, c) ==> info.Graph().HappensBefore(a, c)
    ensures EveryTaskFits(info.slots, availableSlots) ==>
      old(info.taskWaitBarriers[t] != {} && WaitsAreNew(info.taskWaitBarriers, t)) ==> r.Done?
  {
    hide NoConsumerFits, WaitsMerged, SlotCount, Mergeable, AllInLimits, NewBarriersFit, OthersShrink,
      ConsumerSlots, AsManyAsFit, Replaced, BatchesRight, Partitions;
    merged, batches := {}, [];
    ghost var g := info.Graph();
    ghost var share := Share(info, t, availableSlots);
    var bars := info.taskWaitBarriers[t];
    var producers := Union(info.barrierProducerMap, bars);
    var producerSlots := SlotCount(info.slots, producers);
    var slotsForConsumers, toMerge := ConsumersToMerge(info, t, bars, producerSlots, availableSlots);
    if toMerge == {} {
      return Thrown("parallel consumers are empty"), merged, batches;
    }
    merged := toMerge;
    assert Mergeable(info.Graph(), t, bars, toMerge) by { MergeableWaits(info, t, bars, toMerge); }
    ShareIs(info, t, availableSlots);
    batches := ReplaceBarriers(info, t, bars, producers, toMerge,
      producerSlots <= 2 * availableSlots - slotsForConsumers, availableSlots, share);
    if && AllInLimits(info.slots, g, availableSlots, info.unevenVariantSplit)
       && EveryTaskFits(info.slots, availableSlots) {
      LimitsKept(info.slots, g, info.Graph(), share, availableSlots, info.unevenVariantSplit);
    }
    r := Done;
  }

  /** Tasks from `t` on have the wait barriers they had in `g0`, or at most one. */
  ghost predicate Untouched(g0: Graph, g: Graph, t: nat) {
    forall u: nat :: t <= u < g.tasks ==> Waits(g, u) == Waits(g0, u) || AtMostOne(Waits(g, u))
  }

  /** Tasks below `t` wait for at most one of the barriers of `g0`. */
  ghost predicate OneOldBarrier(g0: Graph, g: Graph, t: nat) {
    forall u: nat, b: nat, c: nat ::
      u < t && b in Waits(g, u) && c in Waits(g, u) && b < |g0.consumers| && c < |g0.consumers| ==> b == c
  }

  /** Tasks from `bound` on wait for at most one barrier. */
  ghost predicate SingleWaitsFrom(g: Graph, bound: nat) {
    forall u: nat :: bound <= u < g.tasks ==> AtMostOne(Waits(g, u))
  }

  /** In the walk, a task that still has several barriers waits for others than all tasks before it. */
  lemma WaitsAreNewInWalk(g0: Graph, g: Graph, t: nat)
    requires Untouched(g0, g, t) && OneOldBarrier(g0, g, t) && t < g.tasks
    requires !AtMostOne(Waits(g, t))
    ensures forall u: nat :: u < t ==> Waits(g, u) != Waits(g, t)
  {
    var b, c :| b in Waits(g, t) && c in Waits(g, t) && b != c;
    assert b in Waits(g0, t) && c in Waits(g0, t);
    forall u: nat | u < t
      ensures Waits(g, u) != Waits(g, t)
    {
      assert b in Waits(g, u) && c in Waits(g, u) ==> b == c;
    }
  }

  /** Treating task `t` keeps what the walk has established, and leaves `t` one barrier. */
  lemma WalkStep(g0: Graph, g: Graph, h: Graph, t: nat, merged: set<nat>, bound: nat)
    requires WaitsMerged(g, h, t, merged) && t in merged && |g0.consumers| <= |g.consumers| && t < bound
    requires Untouched(g0, g, t) && OneOldBarrier(g0, g, t) && SingleWaitsFrom(g, bound)
    ensures Untouched(g0, h, t + 1) && OneOldBarrier(g0, h, t + 1) && SingleWaitsFrom(h, bound)
    ensures AtMostOne(Waits(h, t))
  {
    forall u: nat | t < u < h.tasks
      ensures Waits(h, u) == Waits(g, u) || AtMostOne(Waits(h, u))
    {
      if u !in merged {
        assert forall b: nat :: b in Waits(h, u) <==> b in Waits(g, u);
      }
    }
    forall u: nat, b: nat | u <= t && b in Waits(h, u) && b < |g0.consumers|
      ensures u < t && b in Waits(g, u)
    {
    }
  }

  /** The walk over all tasks in program order.  It leaves one barrier to the highest task that
      had several, `bound - 1`, and to every task behind it. */
  method Walk(info: BarrierInfo, availableSlots: nat, ghost bound: nat) returns (r: Outcome, modified: bool)
    requires info.Valid() && info.Graph().InProgramOrder() && 0 < bound <= |info.taskWaitBarriers|
    requires SingleWaitsFrom(info.Graph(), bound)
    modifies info`barrierProducerMap, info`taskUpdateBarriers, info`barrierConsumerMap, info`taskWaitBarriers
    ensures info.Valid() && info.Graph().InProgramOrder() && |info.taskWaitBarriers| == |old(info.taskWaitBarriers)|
    ensures r.Done? ==> SingleWaitsFrom(info.Graph(), bound - 1)
    ensures EveryTaskFits(info.slots, availableSlots) ==> r.Done? && KeepsOrder(old(info.Graph()), info.Graph())
    ensures EveryTaskFits(info.slots, availableSlots) ==>
      old(AllInLimits(info.slots, info.Graph(), availableSlots, info.unevenVariantSplit)) ==>
      AllInLimits(info.slots, info.Graph(), availableSlots, info.unevenVariantSplit)
    ensures r.Done? ==> (modified <==> |info.barrierConsumerMap| > |old(info.barrierConsumerMap)|)
    ensures !modified && r.Done? ==> info.Graph() == old(info.Graph())
  {
    hide NoConsumerFits, FirstToWait, ConsumerSlots, Share, ProducerSlots, NewBarriersFit, AllInLimits, Replaced,
      BatchesRight, AsManyAsFit, Partitions, SlotCount;
    ghost var g0 := info.Graph();
    modified := false;
    var t := 0;
    while t < |info.taskWaitBarriers|
      invariant info.Valid() && info.Graph().InProgramOrder() && t <= |info.taskWaitBarriers| == g0.tasks
      invariant |g0.consumers| <= |info.barrierConsumerMap|
      invariant Untouched(g0, info.Graph(), t) && OneOldBarrier(g0, info.Graph(), t)
      invariant SingleWaitsFrom(info.Graph(), bound)
      invariant t >= bound ==> AtMostOne(Waits(info.Graph(), bound - 1))
      invariant EveryTaskFits(info.slots, availableSlots) ==> KeepsOrder(g0, info.Graph())
      invariant EveryTaskFits(info.slots, availableSlots) ==>
        AllInLimits(info.slots, g0, availableSlots, info.unevenVariantSplit) ==>
        AllInLimits(info.slots, info.Graph(), availableSlots, info.unevenVariantSplit)
      invariant modified <==> |info.barrierConsumerMap| > |g0.consumers|
      invariant !modified ==> info.Graph() == g0
    {
      ghost var g := info.Graph();
      WaitsOfTask(info);
      AtMostOneMeansSize(info.taskWaitBarriers[t]);
      if |info.taskWaitBarriers[t]| >= 2 {
        WaitsAreNewInWalk(g0, g, t);
        assert WaitsAreNew(info.taskWaitBarriers, t);
        ghost var merged, batches;
        r, merged, batches := MergeParallelWaitBarriers(info, t, availableSlots);
        if r.Thrown? {
          return;
        }
        modified := true;
        WalkStep(g0, g, info.Graph(), t, merged, bound);
      }
      t := t + 1;
    }
    r := Done;
  }

  ghost predicate KeepsOrder(g: Graph, h: Graph)
    requires |g.producers| == |g.consumers| && |h.producers| == |h.consumers|
  {
    forall a: nat, c: nat :: g.HappensBefore(a, c) ==> h.HappensBefore(a, c)
  }

  lemma WaitsOfTask(info: BarrierInfo)
    requires info.Valid()
    ensures forall u: nat :: u < |info.taskWaitBarriers| ==> Waits(info.Graph(), u) == info.taskWaitBarriers[u]
  {
  }

  method TasksWithParallelWaitBarriers(info: BarrierInfo) returns (tasks: set<nat>)
    requires info.Valid()
    ensures forall t: nat :: t in tasks <==> t < |info.taskWaitBarriers| && |info.taskWaitBarriers[t]| >= 2
  {
    tasks := {};
    var t := 0;
    while t < |info.taskWaitBarriers|
      invariant t <= |info.taskWaitBarriers|
      invariant forall u: nat :: u in tasks <==> u < t && |info.taskWaitBarriers[u]| >= 2
    {
      if |info.taskWaitBarriers[t]| >= 2 {
        tasks := tasks + {t};
      }
      t := t + 1;
    }
  }

  /** A task behind `t` waits for several barriers. */
  ghost predicate BeforeParallel(waits: seq<set<nat>>, t: nat) {
    exists u: nat :: t < u < |waits| && |waits[u]| >= 2
  }

  /** With every task fitting into the available slots, nothing throws, no ordering is lost, and barriers
      that were within the limits leave only barriers within the limits.  Run iteratively, it ends with at
      most one wait barrier per task, and run once it gets at least the highest task right. */
  method EnsureTasksDrivenBySingleBarrier(info: BarrierInfo, availableSlots: nat, iteratively: bool)
    returns (r: Outcome, modifiedIR: bool)
    requires info.Valid() && info.Graph().InProgramOrder()
    modifies info`barrierProducerMap, info`taskUpdateBarriers, info`barrierConsumerMap, info`taskWaitBarriers
    ensures info.Valid() && info.Graph().InProgramOrder()
    ensures EveryTaskFits(info.slots, availableSlots) ==> r.Done? && KeepsOrder(old(info.Graph()), info.Graph())
    ensures EveryTaskFits(info.slots, availableSlots) ==>
      old(AllInLimits(info.slots, info.Graph(), availableSlots, info.unevenVariantSplit)) ==>
      AllInLimits(info.slots, info.Graph(), availableSlots, info.unevenVariantSplit)
    ensures r.Done? && iteratively ==> forall t: nat :: t < |info.taskWaitBarriers| ==> |info.taskWaitBarriers[t]| <= 1
    ensures r.Done? ==> (modifiedIR <==> info.Graph() != old(info.Graph()))
    ensures r.Done? ==> forall t: nat :: t < |info.taskWaitBarriers| && |info.taskWaitBarriers[t]| >= 2 ==>
      BeforeParallel(old(info.taskWaitBarriers), t)
  {
    hide AllInLimits;
    modifiedIR := false;
    var tasks: set<nat> := TasksWithParallelWaitBarriers(info);
    ghost var bound := |info.taskWaitBarriers|;
    ghost var fell := false;
    while tasks != {}
      invariant info.Valid() && info.Graph().InProgramOrder() && bound <= |info.taskWaitBarriers|
      invariant forall t: nat :: t in tasks <==> t < |info.taskWaitBarriers| && |info.taskWaitBarriers[t]| >= 2
      invariant forall t :: t in tasks ==> t < bound
      invariant EveryTaskFits(info.slots, availableSlots) ==> KeepsOrder(old(info.Graph()), info.Graph())
      invariant EveryTaskFits(info.slots, availableSlots) ==>
        old(AllInLimits(info.slots, info.Graph(), availableSlots, info.unevenVariantSplit)) ==>
        AllInLimits(info.slots, info.Graph(), availableSlots, info.unevenVariantSplit)
      invariant if modifiedIR then |info.barrierConsumerMap| > |old(info.barrierConsumerMap)| else
        info.Graph() == old(info.Graph())
      invariant if fell then forall t :: t in tasks ==>
        BeforeParallel(old(info.taskWaitBarriers), t) else info.taskWaitBarriers == old(info.taskWaitBarriers)
      decreases bound
    {
      ghost var highest := HighestTask(info, tasks);
      assert fell || |old(info.taskWaitBarriers)[highest]| >= 2;
      bound := highest + 1;
      var modified;
      r, modified := Walk(info, availableSlots, bound);
      modifiedIR := modifiedIR || modified;
      if r.Thrown? {
        return;
      }
      var previous := tasks;
      tasks := TasksWithParallelWaitBarriers(info);
      TasksFell(info, tasks, bound);
      fell := true;
      if tasks == previous {
        return Thrown("merging parallel wait barriers encountered an identical batch of tasks"), modifiedIR;
      }
      bound := bound - 1;
      if !iteratively {
        break;
      }
    }
    r := Done;
  }

  lemma HighestTask(info: BarrierInfo, tasks: set<nat>) returns (highest: nat)
    requires info.Valid() && tasks != {}
    requires forall t: nat :: t in tasks <==> t < |info.taskWaitBarriers| && |info.taskWaitBarriers[t]| >= 2
    ensures highest in tasks && SingleWaitsFrom(info.Graph(), highest + 1)
  {
    highest := Greatest(tasks);
    WaitsOfTask(info);
    forall u: nat | highest < u < |info.taskWaitBarriers|
      ensures AtMostOne(Waits(info.Graph(), u))
    {
      AtMostOneMeansSize(info.taskWaitBarriers[u]);
    }
  }

  lemma Greatest(tasks: set<nat>) returns (last: nat)
    requires tasks != {}
    ensures last in tasks && forall t :: t in tasks ==> t <= last
  {
    var pick :| pick in tasks;
    var rest := tasks - {pick};
    assert forall t :: t in tasks ==> t == pick || t in rest;
    last := pick;
    if rest != {} {
      var other := Greatest(rest);
      if last < other {
        last := other;
      }
    }
  }

  lemma TasksFell(info: BarrierInfo, tasks: set<nat>, bound: nat)
    requires info.Valid() && 0 < bound && SingleWaitsFrom(info.Graph(), bound - 1)
    requires forall t: nat :: t in tasks <==> t < |info.taskWaitBarriers| && |info.taskWaitBarriers[t]| >= 2
    ensures forall t :: t in tasks ==> t < bound - 1
  {
    WaitsOfTask(info);
    forall t | t in tasks
      ensures t < bound - 1
    {
      AtMostOneMeansSize(info.taskWaitBarriers[t]);
    }
  }
}
