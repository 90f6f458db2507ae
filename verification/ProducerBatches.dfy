/** The batches in which the producers of several barriers are run one after the other. */
module ProducerBatches {
  import opened BarrierInfoModule
  import opened VariantBatches

  method GetMaxEntry(tasks: set<nat>) returns (entry: nat)
    ensures IsLast(entry, tasks)
  {
    if tasks == {} {
      return SIZE_MAX;
    }
    var left := tasks;
    entry :| entry in left;
    left := left - {entry};
    while left != {}
      invariant entry in tasks && left <= tasks && forall t :: t in tasks && t !in left ==> t <= entry
    {
      var t :| t in left;
      left := left - {t};
      if t > entry {
        entry := t;
      }
    }
  }

  method GetMinEntry(tasks: set<nat>) returns (entry: nat)
    ensures tasks == {} ==> entry == 0
    ensures tasks != {} ==> IsFirst(entry, tasks)
  {
    if tasks == {} {
      return 0;
    }
    var left := tasks;
    entry :| entry in left;
    left := left - {entry};
    while left != {}
      invariant entry in tasks && left <= tasks && forall t :: t in tasks && t !in left ==> entry <= t
    {
      var t :| t in left;
      left := left - {t};
      if t < entry {
        entry := t;
      }
    }
  }

  ghost predicate NoneEmpty(batches: seq<set<nat>>) {
    forall i :: 0 <= i < |batches| ==> batches[i] != {}
  }

  /** `batches` cut `tasks` into consecutive, non-empty batches that fit. */
  ghost predicate GoodBatches(slots: seq<nat>, tasks: set<nat>, limit: nat, batches: seq<set<nat>>) {
    && Partitions(batches, tasks)
    && (EachFits(slots, tasks, limit) && tasks != {} ==> NoneEmpty(batches) && Fits(slots, batches, limit))
  }

  lemma AppendBatches(slots: seq<nat>, limit: nat, tasks: set<nat>, batches: seq<set<nat>>, more: set<nat>,
                      added: seq<set<nat>>)
    requires tasks != {} && more != {}
    requires GoodBatches(slots, tasks, limit, batches) && GoodBatches(slots, more, limit, added)
    requires forall x, y :: x in tasks && y in more ==> x < y
    ensures GoodBatches(slots, tasks + more, limit, batches + added)
  {
    var all := batches + added;
    forall t: nat
      ensures t in tasks + more <==> InBatch(all, |all|, t)
    {
      if t in tasks {
        assert InBatch(batches, |batches|, t);
        var i :| 0 <= i < |batches| && t in batches[i];
        assert t in all[i];
      }
      if t in more {
        assert InBatch(added, |added|, t);
        var i :| 0 <= i < |added| && t in added[i];
        assert t in all[|batches| + i];
      }
      if InBatch(all, |all|, t) {
        var i :| 0 <= i < |all| && t in all[i];
        if i < |batches| {
          assert InBatch(batches, |batches|, t);
        } else {
          assert t in added[i - |batches|];
          assert InBatch(added, |added|, t);
        }
      }
    }
    forall i, j, x: nat, y: nat | 0 <= i < j < |all| && x in all[i] && y in all[j]
      ensures x < y
    {
      if i < |batches| <= j {
        assert y in added[j - |batches|];
        assert InBatch(batches, |batches|, x) && InBatch(added, |added|, y);
      } else if |batches| <= i {
        assert x in added[i - |batches|] && y in added[j - |batches|];
      }
    }
    if EachFits(slots, tasks + more, limit) {
      assert EachFits(slots, tasks, limit) && EachFits(slots, more, limit);
      forall i | 0 <= i < |all|
        ensures all[i] != {} && SlotCount(slots, all[i]) <= limit
      {
        assert i >= |batches| ==> all[i] == added[i - |batches|];
      }
    }
  }

  lemma ExtendLastBatch(slots: seq<nat>, limit: nat, tasks: set<nat>, batches: seq<set<nat>>, more: set<nat>)
    requires tasks != {} && more != {} && |batches| >= 1
    requires GoodBatches(slots, tasks, limit, batches)
    requires SlotCount(slots, batches[|batches| - 1] + more) <= limit
    requires forall x, y :: x in tasks && y in more ==> x < y
    ensures GoodBatches(slots, tasks + more, limit, batches[|batches| - 1 := batches[|batches| - 1] + more])
  {
    var last := |batches| - 1;
    var all := batches[last := batches[last] + more];
    forall t: nat
      ensures t in tasks + more <==> InBatch(all, |all|, t)
    {
      if t in tasks {
        assert InBatch(batches, |batches|, t);
        var i :| 0 <= i < |batches| && t in batches[i];
        assert t in all[i];
      }
      if t in more {
        assert t in all[last];
      }
      if InBatch(all, |all|, t) && t !in more {
        var i :| 0 <= i < |all| && t in all[i];
        assert t in batches[i];
        assert InBatch(batches, |batches|, t);
      }
    }
    forall i, j, x: nat, y: nat | 0 <= i < j < |all| && x in all[i] && y in all[j]
      ensures x < y
    {
      assert x in batches[i] && InBatch(batches, |batches|, x);
    }
    if EachFits(slots, tasks + more, limit) {
      assert EachFits(slots, tasks, limit);
    }
  }

  lemma SingleBatch(slots: seq<nat>, limit: nat, tasks: set<nat>)
    requires SlotCount(slots, tasks) <= limit
    ensures GoodBatches(slots, tasks, limit, [tasks])
  {
    forall t: nat
      ensures t in tasks <==> InBatch([tasks], |[tasks]|, t)
    {
      assert [tasks][0] == tasks;
    }
  }

  /** One batch where the producers fit together, otherwise as few as the greedy cut needs. */
  method BatchesOfBarrier(slots: seq<nat>, producers: set<nat>, availableSlots: nat) returns (batches: seq<set<nat>>)
    requires forall t :: t in producers ==> t < |slots|
    ensures |batches| >= 1 && GoodBatches(slots, producers, availableSlots, batches)
    ensures if SlotCount(slots, producers) <= availableSlots then batches == [producers] else
      Greedy(slots, batches, availableSlots)
  {
    if SlotCount(slots, producers) <= availableSlots {
      SingleBatch(slots, availableSlots, producers);
      batches := [producers];
    } else {
      batches := CreateLegalVariantBatches(slots, producers, availableSlots);
      if EachFits(slots, producers, availableSlots) && producers != {} {
        assert forall i :: 0 <= i < |batches| ==> batches[i] != {};
      }
    }
  }

  /** All producers of the barriers of `bars` that are below `b`. */
  ghost function ProducersBelow(producerMap: seq<set<nat>>, bars: set<nat>, b: nat): (tasks: set<nat>)
    requires b <= |producerMap|
    ensures forall t :: t in tasks <==> exists x :: 0 <= x < b && x in bars && t in producerMap[x]
  {
    if b == 0 then {} else ProducersBelow(producerMap, bars, b - 1) + if b - 1 in bars then producerMap[b - 1] else {}
  }

  /** Of the barriers of `bars` below `b`, if there are several, each has producers, all of them after those
      of the barriers before it. */
  ghost predicate ProducersAscend(producerMap: seq<set<nat>>, bars: set<nat>, b: nat) {
    forall c, d :: c in bars && d in bars && c < d < b && d < |producerMap| ==>
      Ascending(producerMap[c], producerMap[d])
  }

  ghost predicate Ascending(earlier: set<nat>, later: set<nat>) {
    earlier != {} && later != {} && forall x, y :: x in earlier && y in later ==> x < y
  }

  /** A barrier's producers, some of them in the batch behind batch `i`, did not all fit into batch `i`. */
  ghost predicate CutBefore(slots: seq<nat>, producers: set<nat>, limit: nat, batches: seq<set<nat>>, i: nat)
    requires i + 1 < |batches|
  {
    SlotCount(slots, batches[i] + producers) > limit && exists t :: t in producers && t in batches[i + 1]
  }

  /** Batch `i` is closed because the producers of some barrier below `b` do not fit into it. */
  ghost predicate CutForBarrier(slots: seq<nat>, producerMap: seq<set<nat>>, bars: set<nat>, b: nat, limit: nat,
                                batches: seq<set<nat>>, i: nat)
    requires b <= |producerMap| && i + 1 < |batches|
  {
    exists c :: 0 <= c < b && c in bars && CutBefore(slots, producerMap[c], limit, batches, i)
  }

  ghost predicate InOneBatch(batches: seq<set<nat>>, tasks: set<nat>) {
    exists i :: 0 <= i < |batches| && tasks <= batches[i]
  }

  /** A batch is closed only when the producers of another barrier do not fit into it, and producers of one
      barrier that fit are kept together. */
  ghost predicate CutWhereNeeded(slots: seq<nat>, producerMap: seq<set<nat>>, bars: set<nat>, b: nat, limit: nat,
                                 batches: seq<set<nat>>)
    requires b <= |producerMap|
  {
    && (forall i: nat :: i + 1 < |batches| ==> CutForBarrier(slots, producerMap, bars, b, limit, batches, i))
    && forall c :: 0 <= c < b && c in bars && SlotCount(slots, producerMap[c]) <= limit ==>
         InOneBatch(batches, producerMap[c])
  }

  lemma CutFirst(slots: seq<nat>, producerMap: seq<set<nat>>, bars: set<nat>, b: nat, limit: nat,
                 batches: seq<set<nat>>)
    requires b < |producerMap| && b in bars && forall c :: c in bars ==> c >= b
    requires if SlotCount(slots, producerMap[b]) <= limit then batches == [producerMap[b]] else
      Partitions(batches, producerMap[b]) && NoneEmpty(batches)
    ensures CutWhereNeeded(slots, producerMap, bars, b + 1, limit, batches)
  {
    var n := b + 1;
    forall i: nat | i + 1 < |batches|
      ensures CutForBarrier(slots, producerMap, bars, n, limit, batches, i)
    {
      CutInside(slots, producerMap[b], limit, batches, i);
    }
    assert SlotCount(slots, producerMap[b]) <= limit ==> producerMap[b] <= batches[0];
  }

  lemma CutInside(slots: seq<nat>, producers: set<nat>, limit: nat, batches: seq<set<nat>>, i: nat)
    requires Partitions(batches, producers) && NoneEmpty(batches) && i + 1 < |batches|
    requires SlotCount(slots, producers) > limit
    ensures CutBefore(slots, producers, limit, batches, i)
  {
    forall t: nat | t in batches[i]
      ensures t in producers
    {
      assert InBatch(batches, |batches|, t);
    }
    assert batches[i] + producers == producers;
    var t: nat :| t in batches[i + 1];
    assert InBatch(batches, |batches|, t);
  }

  lemma CutJoin(slots: seq<nat>, producerMap: seq<set<nat>>, bars: set<nat>, b: nat, limit: nat,
                batches: seq<set<nat>>)
    requires b < |producerMap| && batches != [] && CutWhereNeeded(slots, producerMap, bars, b, limit, batches)
    ensures var last := |batches| - 1;
      CutWhereNeeded(slots, producerMap, bars, b + 1, limit, batches[last := batches[last] + producerMap[b]])
  {
    hide SlotCount;
    var n := b + 1;
    var next := batches[|batches| - 1 := batches[|batches| - 1] + producerMap[b]];
    forall i: nat | i + 1 < |next|
      ensures CutForBarrier(slots, producerMap, bars, n, limit, next, i)
    {
      assert CutForBarrier(slots, producerMap, bars, b, limit, batches, i);
      var c :| 0 <= c < b && c in bars && CutBefore(slots, producerMap[c], limit, batches, i);
      assert next[i] == batches[i] && batches[i + 1] <= next[i + 1];
      assert CutBefore(slots, producerMap[c], limit, next, i);
    }
    forall c | 0 <= c < n && c in bars && SlotCount(slots, producerMap[c]) <= limit
      ensures InOneBatch(next, producerMap[c])
    {
      if c < b {
        assert InOneBatch(batches, producerMap[c]);
        var i :| 0 <= i < |batches| && producerMap[c] <= batches[i];
        assert producerMap[c] <= next[i];
      } else {
        assert producerMap[b] <= next[|next| - 1];
      }
    }
  }

  lemma CutAppend(slots: seq<nat>, producerMap: seq<set<nat>>, bars: set<nat>, b: nat, limit: nat,
                  batches: seq<set<nat>>, added: seq<set<nat>>)
    requires b < |producerMap| && b in bars && batches != [] && added != []
    requires CutWhereNeeded(slots, producerMap, bars, b, limit, batches)
    requires SlotCount(slots, batches[|batches| - 1] + producerMap[b]) > limit
    requires Partitions(added, producerMap[b]) && NoneEmpty(added)
    requires SlotCount(slots, producerMap[b]) <= limit ==> added == [producerMap[b]]
    ensures CutWhereNeeded(slots, producerMap, bars, b + 1, limit, batches + added)
  {
    hide SlotCount, Consecutive;
    var n := b + 1;
    var all := batches + added;
    forall i: nat | i + 1 < |all|
      ensures CutForBarrier(slots, producerMap, bars, n, limit, all, i)
    {
      if i + 1 < |batches| {
        assert CutForBarrier(slots, producerMap, bars, b, limit, batches, i);
        var c :| 0 <= c < b && c in bars && CutBefore(slots, producerMap[c], limit, batches, i);
        assert CutBefore(slots, producerMap[c], limit, all, i);
      } else if i + 1 == |batches| {
        var t: nat :| t in added[0];
        assert InBatch(added, |added|, t);
        assert t in all[i + 1];
        assert CutBefore(slots, producerMap[b], limit, all, i);
      } else {
        CutInside(slots, producerMap[b], limit, added, i - |batches|);
        assert all[i + 1] == added[i + 1 - |batches|];
        assert CutBefore(slots, producerMap[b], limit, all, i);
      }
    }
    forall c | 0 <= c < n && c in bars && SlotCount(slots, producerMap[c]) <= limit
      ensures InOneBatch(all, producerMap[c])
    {
      if c < b {
        assert InOneBatch(batches, producerMap[c]);
        var i :| 0 <= i < |batches| && producerMap[c] <= batches[i];
        assert producerMap[c] <= all[i];
      } else {
        assert all[|batches|] == producerMap[b];
      }
    }
  }

  lemma CutSkip(slots: seq<nat>, producerMap: seq<set<nat>>, bars: set<nat>, b: nat, limit: nat,
                batches: seq<set<nat>>)
    requires b < |producerMap| && b !in bars && CutWhereNeeded(slots, producerMap, bars, b, limit, batches)
    ensures CutWhereNeeded(slots, producerMap, bars, b + 1, limit, batches)
  {
    hide SlotCount, CutBefore;
    var n := b + 1;
    forall i: nat | i + 1 < |batches|
      ensures CutForBarrier(slots, producerMap, bars, n, limit, batches, i)
    {
      assert CutForBarrier(slots, producerMap, bars, b, limit, batches, i);
    }
  }

  /** `last` is the highest barrier of `bars` below `b`, and `entry` its last producer. */
  ghost predicate LastBelow(producerMap: seq<set<nat>>, bars: set<nat>, b: nat, last: nat, entry: nat) {
    && last < b && last in bars && last < |producerMap| && (forall c :: c in bars && c < b ==> c <= last)
    && IsLast(entry, producerMap[last])
  }

  /** `entry` is the last of `tasks`, or the largest index there is when there are none. */
  ghost predicate IsLast(entry: nat, tasks: set<nat>) {
    if tasks == {} then entry == SIZE_MAX else entry in tasks && forall t :: t in tasks ==> t <= entry
  }

  lemma AscendNext(slots: seq<nat>, producerMap: seq<set<nat>>, bars: set<nat>, b: nat, last: nat, entry: nat,
                   first: nat)
    requires b < |producerMap| && b in bars && ProducersAscend(producerMap, bars, b)
    requires LastBelow(producerMap, bars, b, last, entry) && |slots| <= SIZE_MAX
    requires forall t :: t in producerMap[b] ==> t < |slots|
    requires if producerMap[b] == {} then first == 0 else IsFirst(first, producerMap[b])
    ensures entry < first ==> ProducersAscend(producerMap, bars, b + 1) && producerMap[b] != {}
    ensures entry >= first ==> !ProducersAscend(producerMap, bars, |producerMap|)
  {
    if entry < first {
      forall c | c in bars && c < b
        ensures Ascending(producerMap[c], producerMap[b])
      {
        assert c != last ==> Ascending(producerMap[c], producerMap[last]);
      }
    } else {
      assert !Ascending(producerMap[last], producerMap[b]);
    }
  }

  /** Batches that are no more than one, or of tasks that fit one by one, are as good as they need to be. */
  lemma BatchesFit(slots: seq<nat>, limit: nat, producers: set<nat>, batches: seq<set<nat>>)
    requires GoodBatches(slots, producers, limit, batches) && forall t :: t in producers ==> t < |slots|
    ensures Partitions(batches, producers)
    ensures EveryTaskFits(slots, limit) && (producers != {} || SlotCount(slots, producers) > limit) ==>
      NoneEmpty(batches)
  {
    SlotCountEmpty(slots, |slots|);
  }

  /** In ascending order, what lies below `b` comes before the producers of `b`. */
  lemma TasksBefore(producerMap: seq<set<nat>>, bars: set<nat>, b: nat)
    requires b < |producerMap| && b in bars && ProducersAscend(producerMap, bars, b + 1)
    requires exists c :: c in bars && c < b
    ensures forall x, y :: x in ProducersBelow(producerMap, bars, b) && y in producerMap[b] ==> x < y
    ensures ProducersBelow(producerMap, bars, b) != {}
  {
    forall c | c in bars && c < b
      ensures Ascending(producerMap[c], producerMap[b])
    {
    }
    var c :| c in bars && c < b;
    var t :| t in producerMap[c];
    assert t in ProducersBelow(producerMap, bars, b);
  }

  /** The batches made of the barriers of `bars` below `b`, of which `last` is the highest. */
  ghost predicate Batched(slots: seq<nat>, producerMap: seq<set<nat>>, bars: set<nat>, b: nat, limit: nat,
                          batches: seq<set<nat>>, last: nat, entry: nat)
    requires b <= |producerMap|
  {
    && batches != [] && ProducersAscend(producerMap, bars, b) && LastBelow(producerMap, bars, b, last, entry)
    && GoodBatches(slots, ProducersBelow(producerMap, bars, b), limit, batches)
    && (EveryTaskFits(slots, limit) ==> CutWhereNeeded(slots, producerMap, bars, b, limit, batches))
  }

  /** Batches as `BatchesOfBarrier` makes them. */
  ghost predicate OfBarrier(slots: seq<nat>, producers: set<nat>, limit: nat, batches: seq<set<nat>>) {
    && batches != [] && GoodBatches(slots, producers, limit, batches) && (forall t :: t in producers ==> t < |slots|)
    && (SlotCount(slots, producers) <= limit ==> batches == [producers])
  }

  lemma FirstBarrier(slots: seq<nat>, producerMap: seq<set<nat>>, bars: set<nat>, b: nat, limit: nat,
                     batches: seq<set<nat>>, entry: nat)
    requires b < |producerMap| && b in bars && forall c :: c in bars ==> c >= b
    requires OfBarrier(slots, producerMap[b], limit, batches) && IsLast(entry, producerMap[b])
    ensures Batched(slots, producerMap, bars, b + 1, limit, batches, b, entry)
  {
    hide SlotCount, Partitions, CutWhereNeeded, GoodBatches;
    BatchesFit(slots, limit, producerMap[b], batches);
    assert ProducersBelow(producerMap, bars, b + 1) == producerMap[b];
    if EveryTaskFits(slots, limit) {
      CutFirst(slots, producerMap, bars, b, limit, batches);
    }
  }

  lemma JoinBarrier(slots: seq<nat>, producerMap: seq<set<nat>>, bars: set<nat>, b: nat, limit: nat,
                    batches: seq<set<nat>>, last: nat, entry: nat, next: nat)
    requires b < |producerMap| && b in bars && Batched(slots, producerMap, bars, b, limit, batches, last, entry)
    requires ProducersAscend(producerMap, bars, b + 1) && IsLast(next, producerMap[b]) && producerMap[b] != {}
    requires SlotCount(slots, batches[|batches| - 1] + producerMap[b]) <= limit
    ensures var joined := batches[|batches| - 1 := batches[|batches| - 1] + producerMap[b]];
      Batched(slots, producerMap, bars, b + 1, limit, joined, b, next)
  {
    hide SlotCount, CutWhereNeeded, GoodBatches, ProducersAscend;
    TasksBefore(producerMap, bars, b);
    ExtendLastBatch(slots, limit, ProducersBelow(producerMap, bars, b), batches, producerMap[b]);
    if EveryTaskFits(slots, limit) {
      CutJoin(slots, producerMap, bars, b, limit, batches);
    }
  }

  lemma AppendBarrier(slots: seq<nat>, producerMap: seq<set<nat>>, bars: set<nat>, b: nat, limit: nat,
                      batches: seq<set<nat>>, last: nat, entry: nat, next: nat, added: seq<set<nat>>)
    requires b < |producerMap| && b in bars && Batched(slots, producerMap, bars, b, limit, batches, last, entry)
    requires ProducersAscend(producerMap, bars, b + 1) && IsLast(next, producerMap[b]) && producerMap[b] != {}
    requires SlotCount(slots, batches[|batches| - 1] + producerMap[b]) > limit
    requires OfBarrier(slots, producerMap[b], limit, added)
    ensures Batched(slots, producerMap, bars, b + 1, limit, batches + added, b, next)
  {
    hide SlotCount, CutWhereNeeded, GoodBatches, ProducersAscend;
    TasksBefore(producerMap, bars, b);
    BatchesFit(slots, limit, producerMap[b], added);
    AppendBatches(slots, limit, ProducersBelow(producerMap, bars, b), batches, producerMap[b], added);
    if EveryTaskFits(slots, limit) {
      CutAppend(slots, producerMap, bars, b, limit, batches, added);
    }
  }

  lemma SkipBarrier(slots: seq<nat>, producerMap: seq<set<nat>>, bars: set<nat>, b: nat, limit: nat,
                    batches: seq<set<nat>>, last: nat, entry: nat)
    requires b < |producerMap| && b !in bars && Batched(slots, producerMap, bars, b, limit, batches, last, entry)
    ensures Batched(slots, producerMap, bars, b + 1, limit, batches, last, entry)
  {
    hide SlotCount, CutWhereNeeded, GoodBatches;
    if EveryTaskFits(slots, limit) {
      CutSkip(slots, producerMap, bars, b, limit, batches);
    }
    assert ProducersBelow(producerMap, bars, b + 1) == ProducersBelow(producerMap, bars, b);
  }

  /** `createProducerBatches`: the barriers in ascending order, each either joined to the last
      batch or cut into batches of its own; nothing exactly when their producers overlap in order. */
  method CreateProducerBatches(info: BarrierInfo, waitBarriers: set<nat>, availableSlots: nat)
    returns (batches: seq<set<nat>>)
    requires info.Valid() && forall b :: b in waitBarriers ==> b < |info.barrierProducerMap|
    ensures batches != [] <==>
      waitBarriers != {} && ProducersAscend(info.barrierProducerMap, waitBarriers, |info.barrierProducerMap|)
    ensures batches != [] ==>
      GoodBatches(info.slots, ProducersBelow(info.barrierProducerMap, waitBarriers, |info.barrierProducerMap|),
        availableSlots, batches)
    ensures batches != [] && EveryTaskFits(info.slots, availableSlots) ==>
      CutWhereNeeded(info.slots, info.barrierProducerMap, waitBarriers, |info.barrierProducerMap|, availableSlots,
        batches)
  {
    hide SlotCount, Partitions, CutWhereNeeded, ProducersAscend, Greedy, GoodBatches;
    batches := [];
    var prevLastUser := SIZE_MAX;
    ghost var last: nat := 0;
    var b := 0;
    while b < |info.barrierProducerMap|
      invariant b <= |info.barrierProducerMap|
      invariant if batches == [] then forall c :: c in waitBarriers ==> c >= b else
        Batched(info.slots, info.barrierProducerMap, waitBarriers, b, availableSlots, batches, last, prevLastUser)
    {
      if b in waitBarriers {
        var producers := info.barrierProducerMap[b];
        assert forall t :: t in producers ==> t < |info.slots|;
        if batches == [] {
          prevLastUser := GetMaxEntry(producers);
          batches := BatchesOfBarrier(info.slots, producers, availableSlots);
          FirstBarrier(info.slots, info.barrierProducerMap, waitBarriers, b, availableSlots, batches, prevLastUser);
        } else {
          var firstUser := GetMinEntry(producers);
          AscendNext(info.slots, info.barrierProducerMap, waitBarriers, b, last, prevLastUser, firstUser);
          if prevLastUser >= firstUser {
            return [];
          }
          ghost var previous := prevLastUser;
          prevLastUser := GetMaxEntry(producers);
          var joined := batches[|batches| - 1] + producers;
          if SlotCount(info.slots, joined) <= availableSlots {
            JoinBarrier(info.slots, info.barrierProducerMap, waitBarriers, b, availableSlots, batches, last, previous,
              prevLastUser);
            batches := batches[|batches| - 1 := joined];
          } else {
            var added := BatchesOfBarrier(info.slots, producers, availableSlots);
            AppendBarrier(info.slots, info.barrierProducerMap, waitBarriers, b, availableSlots, batches, last, previous,
              prevLastUser, added);
            batches := batches + added;
          }
        }
        last := b;
      } else if batches != [] {
        SkipBarrier(info.slots, info.barrierProducerMap, waitBarriers, b, availableSlots, batches, last, prevLastUser);
      }
      b := b + 1;
    }
  }
}
