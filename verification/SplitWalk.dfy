/** Step 3 of the split: one barrier, and the walk over all the original ones. */
module SplitWalk {
  import opened BarrierGraph
  import opened BarrierInfoModule
  import opened VariantBatches
  import opened ProducerBatches
  import opened SplitLayout
  import opened SplitOrder
  import opened SplitSyncBarriers
  import opened SplitIdleTasks
  import opened SplitReroute
  import opened SplitMoves

  lemma {:induction false} OneBlock(blocks: set<nat>, j: nat, k: nat)
    requires |blocks| < 2 && j in blocks && k in blocks
    ensures j == k
  {
    assert |blocks - {j}| == |blocks| - 1;
    assert j != k ==> k in blocks - {j};
  }

  lemma InItsBlock(l: Layout, tasks: set<nat>, byBlock: BlockTasks, t: nat)
    requires Grouped(l, tasks, byBlock) && t in tasks && t < |l.block|
    ensures l.block[t] in byBlock
  {
    assert t in InBlock(l, tasks, l.block[t]);
  }

  lemma BlockOfKey(l: Layout, tasks: set<nat>, byBlock: BlockTasks, k: nat) returns (t: nat)
    requires Grouped(l, tasks, byBlock) && k in byBlock
    ensures t in tasks && t < |l.block| && l.block[t] == k
  {
    t :| t in InBlock(l, tasks, k);
  }

  ghost predicate GroupedPair(l: Layout, producers: set<nat>, consumers: set<nat>, producersByBlock: BlockTasks,
                              consumersByBlock: BlockTasks) {
    && l.Valid() && (forall t :: t in producers || t in consumers ==> t < |l.block|) && Precede(producers, consumers)
    && Grouped(l, producers, producersByBlock) && Grouped(l, consumers, consumersByBlock)
    && producers != {} && consumers != {} && |producersByBlock.Keys + consumersByBlock.Keys| >= 2
  }

  /** No task lies before the first block. */
  lemma AllBehindFirst(l: Layout, tasks: set<nat>, byBlock: BlockTasks, blocks: set<nat>, first: nat)
    requires Grouped(l, tasks, byBlock) && (forall t :: t in tasks ==> t < |l.block|) && byBlock.Keys <= blocks
    requires IsFirst(first, blocks)
    ensures forall t: nat :: t in tasks ==> first <= l.block[t]
  {
    forall t: nat | t in tasks
      ensures first <= l.block[t]
    {
      InItsBlock(l, tasks, byBlock, t);
      assert l.block[t] in byBlock.Keys;
    }
  }

  lemma LastIsLast(l: Layout, tasks: set<nat>, byBlock: BlockTasks, last: nat)
    requires Grouped(l, tasks, byBlock) && (forall t :: t in tasks ==> t < |l.block|)
    requires last in byBlock && forall k :: k in byBlock ==> k <= last
    ensures LastBlock(l, tasks, last)
  {
    var p := BlockOfKey(l, tasks, byBlock, last);
    forall q: nat | q in tasks
      ensures l.block[q] <= last
    {
      InItsBlock(l, tasks, byBlock, q);
    }
  }

  /** The first of the blocks has a producer. */
  lemma FirstProduces(l: Layout, producers: set<nat>, consumers: set<nat>, producersByBlock: BlockTasks,
                      consumersByBlock: BlockTasks, first: nat)
    requires GroupedPair(l, producers, consumers, producersByBlock, consumersByBlock)
    requires IsFirst(first, producersByBlock.Keys + consumersByBlock.Keys)
    ensures first in producersByBlock
  {
    if first in consumersByBlock {
      var c := BlockOfKey(l, consumers, consumersByBlock, first);
      var p: nat :| p in producers;
      InItsBlock(l, producers, producersByBlock, p);
      assert p < c && l.block[p] in producersByBlock.Keys;
    }
  }

  lemma KeysBounded(l: Layout, tasks: set<nat>, byBlock: BlockTasks)
    requires l.Valid() && Grouped(l, tasks, byBlock)
    ensures forall k :: k in byBlock ==> k <= |l.sync|
  {
    forall k | k in byBlock
      ensures k <= |l.sync|
    {
      var t := BlockOfKey(l, tasks, byBlock, k);
    }
  }

  lemma TwoApart(blocks: set<nat>, first: nat, top: nat)
    requires |blocks| >= 2 && IsFirst(first, blocks) && forall k :: k in blocks ==> k <= top
    ensures first < top
  {
    assert first == top ==> blocks == {first} && |{first}| == 1;
  }

  /** Two blocks cannot both be the last one. */
  lemma FirstIsNotLast(l: Layout, producers: set<nat>, consumers: set<nat>, producersByBlock: BlockTasks,
                       consumersByBlock: BlockTasks, first: nat)
    requires GroupedPair(l, producers, consumers, producersByBlock, consumersByBlock)
    requires IsFirst(first, producersByBlock.Keys + consumersByBlock.Keys)
    ensures first < |l.sync|
  {
    KeysBounded(l, producers, producersByBlock);
    KeysBounded(l, consumers, consumersByBlock);
    TwoApart(producersByBlock.Keys + consumersByBlock.Keys, first, |l.sync|);
  }

  /** The first block with producers or consumers, and the last one with producers. The keys of the
      maps are in ascending order. */
  method BlockSpan(producersByBlock: BlockTasks, consumersByBlock: BlockTasks, ghost l: Layout,
                   ghost producers: set<nat>, ghost consumers: set<nat>)
    returns (first: nat, last: nat)
    requires GroupedPair(l, producers, consumers, producersByBlock, consumersByBlock)
    ensures first in producersByBlock && first < |l.sync| && LastBlock(l, producers, last)
    ensures forall t :: t in producers || t in consumers ==> l.block[t] >= first
  {
    KeysNotEmpty(l, producers, producersByBlock);
    KeysNotEmpty(l, consumers, consumersByBlock);
    var firstProducing := GetMinEntry(producersByBlock.Keys);
    var firstConsuming := GetMinEntry(consumersByBlock.Keys);
    first := if firstProducing <= firstConsuming then firstProducing else firstConsuming;
    last := GetMaxEntry(producersByBlock.Keys);
    ghost var blocks := producersByBlock.Keys + consumersByBlock.Keys;
    AllBehindFirst(l, producers, producersByBlock, blocks, first);
    AllBehindFirst(l, consumers, consumersByBlock, blocks, first);
    FirstProduces(l, producers, consumers, producersByBlock, consumersByBlock, first);
    FirstIsNotLast(l, producers, consumers, producersByBlock, consumersByBlock, first);
    LastIsLast(l, producers, producersByBlock, last);
  }

  /** Barrier `b` is left alone when it lies within one block, and cut up otherwise. */
  method RerouteBarrier(info: BarrierInfo, size: nat, numOfBlocks: nat, syncBars: SyncBars, b: nat, ghost l: Layout,
                        ghost g0: Graph)
    returns (outcome: Outcome)
    requires Splitting(info, size, syncBars, l) && numOfBlocks == |l.sync| + 1 && b < l.bars
    requires ReroutedTo(l, g0, info.Graph(), info.queue, b)
    modifies info`barrierProducerMap, info`taskUpdateBarriers, info`barrierConsumerMap, info`taskWaitBarriers
    ensures Splitting(info, size, syncBars, l)
    ensures outcome == Done <==> g0.producers[b] != {} && g0.consumers[b] != {}
    ensures outcome == Done ==> ReroutedTo(l, g0, info.Graph(), info.queue, b + 1)
  {
    BarrierUntouched(l, g0, info.Graph(), info.queue, b);
    if info.barrierProducerMap[b] == {} {
      return Thrown("Barrier has no producers");
    }
    if info.barrierConsumerMap[b] == {} {
      return Thrown("Barrier has no consumers");
    }
    RerouteConnected(info, size, numOfBlocks, syncBars, b, l, g0);
    return Done;
  }

  lemma BarrierUntouched(l: Layout, g0: Graph, g: Graph, queue: seq<nat>, b: nat)
    requires ReroutedTo(l, g0, g, queue, b) && b < l.bars
    ensures b < |g.producers| == |g.consumers| && g.producers[b] == g0.producers[b] && g.consumers[b] == g0.consumers[b]
    ensures TasksOf(g, g0.producers[b]) && TasksOf(g, g0.consumers[b]) && Precede(g0.producers[b], g0.consumers[b])
    ensures l.Valid() && g.tasks == |l.block|
  {
    BarrierPrecedes(g0, b);
  }

  method GroupBarrier(info: BarrierInfo, size: nat, b: nat, ghost l: Layout, ghost producers: set<nat>,
                      ghost consumers: set<nat>)
    returns (producersByBlock: BlockTasks, consumersByBlock: BlockTasks)
    requires size > 0 && Positions(l, size) && b < |info.barrierProducerMap| == |info.barrierConsumerMap|
    requires info.barrierProducerMap[b] == producers && info.barrierConsumerMap[b] == consumers
    requires forall t :: t in producers || t in consumers ==> t < |l.block|
    ensures Grouped(l, producers, producersByBlock) && Grouped(l, consumers, consumersByBlock)
  {
    producersByBlock := TasksByBlock(info.barrierProducerMap[b], size, l);
    consumersByBlock := TasksByBlock(info.barrierConsumerMap[b], size, l);
  }

  method RerouteConnected(info: BarrierInfo, size: nat, numOfBlocks: nat, syncBars: SyncBars, b: nat, ghost l: Layout,
                          ghost g0: Graph)
    requires Splitting(info, size, syncBars, l) && numOfBlocks == |l.sync| + 1 && b < l.bars
    requires ReroutedTo(l, g0, info.Graph(), info.queue, b) && g0.producers[b] != {} && g0.consumers[b] != {}
    modifies info`barrierProducerMap, info`taskUpdateBarriers, info`barrierConsumerMap, info`taskWaitBarriers
    ensures Splitting(info, size, syncBars, l)
    ensures ReroutedTo(l, g0, info.Graph(), info.queue, b + 1)
  {
    BarrierUntouched(l, g0, info.Graph(), info.queue, b);
    var producersByBlock, consumersByBlock := GroupBarrier(info, size, b, l, g0.producers[b], g0.consumers[b]);
    if |producersByBlock.Keys + consumersByBlock.Keys| < 2 {
      WithinOneBlock(l, g0, info.Graph(), info.queue, b, producersByBlock, consumersByBlock);
    } else {
      CutBarrier(info, size, numOfBlocks, syncBars, b, producersByBlock, consumersByBlock, l, g0);
    }
  }

  lemma BarrierPrecedes(g0: Graph, b: nat)
    requires g0.WellFormed() && g0.InProgramOrder() && b < |g0.producers|
    ensures Precede(g0.producers[b], g0.consumers[b])
  {
    forall p: nat, c: nat | p in g0.producers[b] && c in g0.consumers[b]
      ensures p < c
    {
      assert g0.Linked(b, p, c);
    }
  }

  lemma WithinOneBlock(l: Layout, g0: Graph, g: Graph, queue: seq<nat>, b: nat, producersByBlock: BlockTasks,
                       consumersByBlock: BlockTasks)
    requires ReroutedTo(l, g0, g, queue, b) && b < l.bars && g0.producers[b] != {} && g0.consumers[b] != {}
    requires Grouped(l, g0.producers[b], producersByBlock) && Grouped(l, g0.consumers[b], consumersByBlock)
    requires |producersByBlock.Keys + consumersByBlock.Keys| < 2
    ensures ReroutedTo(l, g0, g, queue, b + 1)
  {
    var blocks := producersByBlock.Keys + consumersByBlock.Keys;
    var p: nat :| p in g0.producers[b];
    InItsBlock(l, g0.producers[b], producersByBlock, p);
    forall t: nat | t in g0.producers[b] || t in g0.consumers[b]
      ensures l.block[t] == l.block[p]
    {
      if t in g0.producers[b] {
        InItsBlock(l, g0.producers[b], producersByBlock, t);
      } else {
        InItsBlock(l, g0.consumers[b], consumersByBlock, t);
      }
      OneBlock(blocks, l.block[p], l.block[t]);
    }
    KeepStep(l, g0, g, queue, b, l.block[p]);
  }

  method CutBarrier(info: BarrierInfo, size: nat, numOfBlocks: nat, syncBars: SyncBars, b: nat,
                    producersByBlock: BlockTasks, consumersByBlock: BlockTasks, ghost l: Layout, ghost g0: Graph)
    requires Splitting(info, size, syncBars, l) && numOfBlocks == |l.sync| + 1 && b < l.bars
    requires ReroutedTo(l, g0, info.Graph(), info.queue, b)
    requires GroupedPair(l, g0.producers[b], g0.consumers[b], producersByBlock, consumersByBlock)
    modifies info`barrierProducerMap, info`taskUpdateBarriers, info`barrierConsumerMap, info`taskWaitBarriers
    ensures Splitting(info, size, syncBars, l)
    ensures ReroutedTo(l, g0, info.Graph(), info.queue, b + 1)
  {
    ghost var g := info.Graph();
    var first, last := BlockSpan(producersByBlock, consumersByBlock, l, g0.producers[b], g0.consumers[b]);
    CanCross(l, g0, g, info.queue, b, first);
    MoveAcross(info, size, numOfBlocks, syncBars, b, producersByBlock, consumersByBlock, first, last, l, g0);
    RerouteStep(l, g0, g, info.Graph(), info.queue, b, first);
  }

  lemma CanCross(l: Layout, g0: Graph, g: Graph, queue: seq<nat>, b: nat, first: nat)
    requires ReroutedTo(l, g0, g, queue, b) && b < l.bars && first < |l.sync| && g0.consumers[b] != {}
    requires forall t :: t in g0.producers[b] || t in g0.consumers[b] ==> l.block[t] >= first
    ensures g.producers[b] == g0.producers[b] && g.consumers[b] == g0.consumers[b]
    ensures Crossing(l, g, b, g0.producers[b], g0.consumers[b], first)
  {
    BarrierPrecedes(g0, b);
  }

  /** The moves of step 3 for a barrier whose first block is `first`. */
  method MoveAcross(info: BarrierInfo, size: nat, numOfBlocks: nat, syncBars: SyncBars, b: nat,
                    producersByBlock: BlockTasks, consumersByBlock: BlockTasks, first: nat, last: nat,
                    ghost l: Layout, ghost g0: Graph)
    requires Splitting(info, size, syncBars, l) && numOfBlocks == |l.sync| + 1 && b < l.bars && b < |g0.producers|
    requires g0.WellFormed() && g0.InProgramOrder() && g0.tasks == info.Graph().tasks
    requires Crossing(l, info.Graph(), b, g0.producers[b], g0.consumers[b], first)
    requires info.barrierProducerMap[b] == g0.producers[b] && info.barrierConsumerMap[b] == g0.consumers[b]
    requires LastBlock(l, g0.producers[b], last)
    requires Grouped(l, g0.producers[b], producersByBlock) && Grouped(l, g0.consumers[b], consumersByBlock)
    requires first in producersByBlock
    modifies info`barrierProducerMap, info`taskUpdateBarriers, info`barrierConsumerMap, info`taskWaitBarriers
    ensures Splitting(info, size, syncBars, l)
    ensures Shaped(l, info.Graph()) && info.Graph().tasks == g0.tasks && Grew(l, old(info.Graph()), info.Graph(), b)
    ensures BarrierRerouted(l, g0, info.Graph(), b, first)
  {
    ghost var g := info.Graph();
    MoveAllProducers(info, size, numOfBlocks, syncBars, b, producersByBlock, consumersByBlock, first, last, l,
      g0.producers[b], g0.consumers[b]);
    ghost var h1 := info.Graph();
    DropConsumers(info, size, numOfBlocks, syncBars, b, consumersByBlock, first, l, g0.consumers[b]);
    ghost var h2 := info.Graph();
    LinkOwnSync(info, size, syncBars, b, first, producersByBlock[first], l);
    ghost var h3 := info.Graph();
    LinkConsumersToSync(info, size, numOfBlocks, syncBars, b, consumersByBlock, first, l, g0.consumers[b]);
    MovesComplete(l, g0, g, h1, h2, h3, info.Graph(), b, first);
  }

  lemma KeysNotEmpty(l: Layout, tasks: set<nat>, byBlock: BlockTasks)
    requires Grouped(l, tasks, byBlock) && tasks != {} && forall t :: t in tasks ==> t < |l.block|
    ensures byBlock.Keys != {}
  {
    var t: nat :| t in tasks;
    InItsBlock(l, tasks, byBlock, t);
  }

  ghost predicate InUse(g: Graph, i: nat) {
    && |g.producers| == |g.consumers|
    && forall b: nat :: b < i && b < |g.producers| ==> g.producers[b] != {} && g.consumers[b] != {}
  }

  /** Step 3. The early exit at a barrier that starts behind the last block never happens. */
  method RerouteBarriers(info: BarrierInfo, size: nat, numOfBlocks: nat, barriersCount: nat, syncBars: SyncBars,
                         ghost l: Layout, ghost g0: Graph)
    returns (outcome: Outcome)
    requires Splitting(info, size, syncBars, l) && numOfBlocks == |l.sync| + 1 && barriersCount == l.bars
    requires ReroutedTo(l, g0, info.Graph(), info.queue, 0)
    modifies info`barrierProducerMap, info`taskUpdateBarriers, info`barrierConsumerMap, info`taskWaitBarriers
    ensures Splitting(info, size, syncBars, l)
    ensures outcome == Done <==> Connected(g0)
    ensures outcome == Done ==> ReroutedTo(l, g0, info.Graph(), info.queue, l.bars)
  {
    var b := 0;
    while b < barriersCount
      invariant b <= barriersCount && Splitting(info, size, syncBars, l) && InUse(g0, b)
      invariant ReroutedTo(l, g0, info.Graph(), info.queue, b)
    {
      outcome := RerouteBarrier(info, size, numOfBlocks, syncBars, b, l, g0);
      if outcome != Done {
        return;
      }
      b := b + 1;
    }
    return Done;
  }
}
