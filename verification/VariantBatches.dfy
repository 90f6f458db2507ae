/** Slots that tasks use on a barrier, and the cutting of task sets into batches that fit. */
module VariantBatches {

  /** Slots used by those tasks of the set that are below `n`. */
  function SlotCountBelow(slots: seq<nat>, tasks: set<nat>, n: nat): nat
    requires n <= |slots|
  {
    if n == 0 then 0 else SlotCountBelow(slots, tasks, n - 1) + if n - 1 in tasks then slots[n - 1] else 0
  }

  function SlotCount(slots: seq<nat>, tasks: set<nat>): nat {
    SlotCountBelow(slots, tasks, |slots|)
  }

  lemma {:induction false} SlotCountBelowMonotone(slots: seq<nat>, s: set<nat>, t: set<nat>, n: nat)
    requires n <= |slots| && s <= t
    ensures SlotCountBelow(slots, s, n) <= SlotCountBelow(slots, t, n)
  {
    if n > 0 {
      SlotCountBelowMonotone(slots, s, t, n - 1);
    }
  }

  lemma SlotCountMonotone(slots: seq<nat>, s: set<nat>, t: set<nat>)
    requires s <= t
    ensures SlotCount(slots, s) <= SlotCount(slots, t)
  {
    SlotCountBelowMonotone(slots, s, t, |slots|);
  }

  lemma {:induction false} SlotCountBelowAdd(slots: seq<nat>, s: set<nat>, t: nat, n: nat)
    requires n <= |slots| && t !in s
    ensures SlotCountBelow(slots, s + {t}, n) == SlotCountBelow(slots, s, n) + if t < n then slots[t] else 0
  {
    if n > 0 {
      SlotCountBelowAdd(slots, s, t, n - 1);
    }
  }

  lemma SlotCountAdd(slots: seq<nat>, s: set<nat>, t: nat)
    requires t < |slots| && t !in s
    ensures SlotCount(slots, s + {t}) == SlotCount(slots, s) + slots[t]
  {
    SlotCountBelowAdd(slots, s, t, |slots|);
  }

  lemma {:induction false} SlotCountEmpty(slots: seq<nat>, n: nat)
    requires n <= |slots|
    ensures SlotCountBelow(slots, {}, n) == 0
  {
    if n > 0 {
      SlotCountEmpty(slots, n - 1);
    }
  }

  /** `t` is in one of the first `n` batches. */
  ghost predicate InBatch(batches: seq<set<nat>>, n: nat, t: nat)
    requires n <= |batches|
  {
    exists i :: 0 <= i < n && t in batches[i]
  }

  /** Every task of a batch comes before every task of a later batch. */
  ghost predicate Consecutive(batches: seq<set<nat>>) {
    forall i, j, x, y :: 0 <= i < j < |batches| && x in batches[i] && y in batches[j] ==> x < y
  }

  ghost predicate Partitions(batches: seq<set<nat>>, tasks: set<nat>) {
    Consecutive(batches) && forall t: nat :: t in tasks <==> InBatch(batches, |batches|, t)
  }

  ghost predicate Fits(slots: seq<nat>, batches: seq<set<nat>>, limit: nat) {
    forall i :: 0 <= i < |batches| ==> SlotCount(slots, batches[i]) <= limit
  }

  ghost predicate IsFirst(t: nat, tasks: set<nat>) {
    t in tasks && forall u :: u in tasks ==> t <= u
  }

  /** The batch before `batches[i]` had no room for the first task of `batches[i]`. */
  ghost predicate NoRoomBefore(slots: seq<nat>, batches: seq<set<nat>>, i: nat, limit: nat)
    requires 0 < i < |batches|
  {
    forall y: nat :: IsFirst(y, batches[i]) && y < |slots| ==> SlotCount(slots, batches[i - 1]) + slots[y] > limit
  }

  /** A batch is closed only when the next task does not fit into it any more. */
  ghost predicate Greedy(slots: seq<nat>, batches: seq<set<nat>>, limit: nat) {
    forall i :: 0 < i < |batches| ==> NoRoomBefore(slots, batches, i, limit)
  }

  ghost predicate NoneEmptyAfterFirst(batches: seq<set<nat>>) {
    forall i :: 1 <= i < |batches| ==> batches[i] != {}
  }

  /** All tasks are below `t`. */
  ghost predicate AllBelow(batches: seq<set<nat>>, t: nat) {
    forall i, x :: 0 <= i < |batches| && x in batches[i] ==> x < t
  }

  function Join(batches: seq<set<nat>>, t: nat): seq<set<nat>>
    requires |batches| >= 1
  {
    batches[|batches| - 1 := batches[|batches| - 1] + {t}]
  }

  function Open(batches: seq<set<nat>>, t: nat): seq<set<nat>> {
    batches + [{t}]
  }

  lemma JoinKeepsOrder(batches: seq<set<nat>>, t: nat)
    requires |batches| >= 1 && Consecutive(batches) && AllBelow(batches, t)
    ensures Consecutive(Join(batches, t)) && AllBelow(Join(batches, t), t + 1)
    ensures forall u: nat :: InBatch(Join(batches, t), |Join(batches, t)|, u) <==>
      u == t || InBatch(batches, |batches|, u)
  {
    var next := Join(batches, t);
    assert t in next[|next| - 1];
    forall u: nat | InBatch(batches, |batches|, u)
      ensures InBatch(next, |next|, u)
    {
      var i :| 0 <= i < |batches| && u in batches[i];
      assert u in next[i];
    }
  }

  lemma JoinKeepsGreedy(slots: seq<nat>, batches: seq<set<nat>>, t: nat, limit: nat)
    requires |batches| >= 1 && Greedy(slots, batches, limit) && AllBelow(batches, t) && NoneEmptyAfterFirst(batches)
    ensures Greedy(slots, Join(batches, t), limit)
  {
    var next := Join(batches, t);
    var last := |batches| - 1;
    forall i | 0 < i < |next|
      ensures NoRoomBefore(slots, next, i, limit)
    {
      assert NoRoomBefore(slots, batches, i, limit);
      if i == last {
        var x: nat :| x in batches[last];
        forall y: nat | IsFirst(y, next[last])
          ensures IsFirst(y, batches[last])
        {
          assert x in next[last] && y <= x;
        }
      }
    }
  }

  /** Task `t` opens a batch of its own, because the last batch has no room for it. */
  lemma OpenKeepsOrder(batches: seq<set<nat>>, t: nat)
    requires |batches| >= 1 && Consecutive(batches) && AllBelow(batches, t)
    ensures Consecutive(Open(batches, t)) && AllBelow(Open(batches, t), t + 1)
    ensures forall u: nat :: InBatch(Open(batches, t), |Open(batches, t)|, u) <==>
      u == t || InBatch(batches, |batches|, u)
  {
    var next := Open(batches, t);
    assert t in next[|batches|];
    forall u: nat
      ensures InBatch(next, |next|, u) <==> u == t || InBatch(batches, |batches|, u)
    {
      if InBatch(batches, |batches|, u) {
        var i :| 0 <= i < |batches| && u in batches[i];
        assert u in next[i];
      }
      if InBatch(next, |next|, u) {
        var i :| 0 <= i < |next| && u in next[i];
        assert i < |batches| ==> u in batches[i];
      }
    }
  }

  lemma OpenKeepsGreedy(slots: seq<nat>, batches: seq<set<nat>>, t: nat, limit: nat)
    requires |batches| >= 1 && Greedy(slots, batches, limit) && t < |slots|
    requires SlotCount(slots, batches[|batches| - 1]) + slots[t] > limit
    ensures Greedy(slots, Open(batches, t), limit)
  {
    var next := Open(batches, t);
    forall i | 0 < i < |next|
      ensures NoRoomBefore(slots, next, i, limit)
    {
      if i < |batches| {
        assert NoRoomBefore(slots, batches, i, limit);
        assert next[i] == batches[i] && next[i - 1] == batches[i - 1];
      } else {
        assert next[i] == {t} && next[i - 1] == batches[|batches| - 1];
        assert forall y: nat :: IsFirst(y, next[i]) ==> y == t;
      }
    }
  }

  /** No single task needs more than the available slots. */
  ghost predicate EveryTaskFits(slots: seq<nat>, available: nat) {
    forall t :: 0 <= t < |slots| ==> slots[t] <= available
  }

  ghost predicate EachFits(slots: seq<nat>, tasks: set<nat>, limit: nat) {
    forall t: nat :: t in tasks ==> t < |slots| && slots[t] <= limit
  }

  /** What the batches made of the tasks below `t` satisfy. */
  ghost predicate BatchedBelow(slots: seq<nat>, tasks: set<nat>, limit: nat, batches: seq<set<nat>>, t: nat) {
    && |batches| >= 1 && Consecutive(batches) && AllBelow(batches, t) && Greedy(slots, batches, limit)
    && (forall u: nat :: InBatch(batches, |batches|, u) <==> u in tasks && u < t)
    && NoneEmptyAfterFirst(batches)
    && (EachFits(slots, tasks, limit) ==> Fits(slots, batches, limit) && (|batches| > 1 ==> batches[0] != {}))
  }

  lemma JoinStep(slots: seq<nat>, tasks: set<nat>, limit: nat, batches: seq<set<nat>>, t: nat)
    requires BatchedBelow(slots, tasks, limit, batches, t) && t in tasks && t < |slots|
    requires SlotCount(slots, batches[|batches| - 1]) + slots[t] <= limit
    ensures BatchedBelow(slots, tasks, limit, Join(batches, t), t + 1)
  {
    JoinKeepsOrder(batches, t);
    JoinKeepsGreedy(slots, batches, t, limit);
    SlotCountAdd(slots, batches[|batches| - 1], t);
  }

  lemma OpenStep(slots: seq<nat>, tasks: set<nat>, limit: nat, batches: seq<set<nat>>, t: nat)
    requires BatchedBelow(slots, tasks, limit, batches, t) && t in tasks && t < |slots|
    requires SlotCount(slots, batches[|batches| - 1]) + slots[t] > limit
    ensures BatchedBelow(slots, tasks, limit, Open(batches, t), t + 1)
  {
    OpenKeepsOrder(batches, t);
    OpenKeepsGreedy(slots, batches, t, limit);
    SlotCountEmpty(slots, |slots|);
    SlotCountAdd(slots, {}, t);
    assert {} + {t} == {t};
    assert batches[0] == {} ==> |batches| > 1 || !EachFits(slots, tasks, limit);
  }

  /** `createLegalVariantBatches`: tasks in ascending order fill a batch until it is full. */
  method CreateLegalVariantBatches(slots: seq<nat>, tasks: set<nat>, availableSlots: nat)
    returns (batches: seq<set<nat>>)
    requires forall t :: t in tasks ==> t < |slots|
    ensures |batches| >= 1 && Partitions(batches, tasks) && Greedy(slots, batches, availableSlots)
    ensures NoneEmptyAfterFirst(batches)
    ensures EachFits(slots, tasks, availableSlots) ==>
      Fits(slots, batches, availableSlots) && (tasks != {} ==> batches[0] != {})
  {
    batches := [{}];
    var total := 0;
    SlotCountEmpty(slots, |slots|);
    var t := 0;
    while t < |slots|
      invariant t <= |slots| && BatchedBelow(slots, tasks, availableSlots, batches, t)
      invariant total == SlotCount(slots, batches[|batches| - 1])
    {
      if t in tasks {
        if total + slots[t] > availableSlots {
          OpenStep(slots, tasks, availableSlots, batches, t);
          batches := batches + [{}];
          total := 0;
          assert {} + {t} == {t};
          assert Join(batches, t) == Open(batches[..|batches| - 1], t);
        } else {
          JoinStep(slots, tasks, availableSlots, batches, t);
        }
        SlotCountAdd(slots, batches[|batches| - 1], t);
        batches := Join(batches, t);
        total := total + slots[t];
      }
      t := t + 1;
    }
    assert forall u: nat :: u in tasks ==> InBatch(batches, |batches|, u);
  }

  /** No way of cutting the tasks into consecutive batches that fit needs fewer batches. */
  lemma GreedyUsesFewestBatches(slots: seq<nat>, tasks: set<nat>, limit: nat, batches: seq<set<nat>>,
                                other: seq<set<nat>>)
    requires forall t :: t in tasks ==> t < |slots|
    requires Partitions(batches, tasks) && Greedy(slots, batches, limit)
    requires forall i :: 0 <= i < |batches| ==> batches[i] != {}
    requires Partitions(other, tasks) && Fits(slots, other, limit)
    ensures |batches| <= |other|
  {
    if |other| < |batches| {
      GreedyStaysAhead(slots, tasks, limit, batches, other, |other|);
      var x: nat :| x in batches[|other|];
      assert InBatch(batches, |batches|, x);
    }
  }

  lemma {:induction false} GreedyStaysAhead(slots: seq<nat>, tasks: set<nat>, limit: nat, batches: seq<set<nat>>,
                                            other: seq<set<nat>>, n: nat)
    requires forall t :: t in tasks ==> t < |slots|
    requires Partitions(batches, tasks) && Greedy(slots, batches, limit)
    requires forall i :: 0 <= i < |batches| ==> batches[i] != {}
    requires Partitions(other, tasks) && Fits(slots, other, limit)
    requires n <= |other| && n <= |batches|
    ensures forall t: nat :: InBatch(other, n, t) ==> InBatch(batches, n, t)
  {
    if n > 0 {
      GreedyStaysAhead(slots, tasks, limit, batches, other, n - 1);
      forall x: nat | InBatch(other, n, x)
        ensures InBatch(batches, n, x)
      {
        var j :| 0 <= j < n && x in other[j];
        if j < n - 1 {
          assert InBatch(other, n - 1, x);
        } else {
          assert InBatch(other, |other|, x);
          assert InBatch(batches, |batches|, x);
          var k :| 0 <= k < |batches| && x in batches[k];
          if k >= n {
            var m := Smallest(batches[n]);
            OverfullBatch(slots, tasks, limit, batches, other, n - 1, m, x);
          }
        }
      }
    }
  }

  /** Were `other[i]` to reach beyond `batches[i]`, it would hold all of it and one task more. */
  lemma OverfullBatch(slots: seq<nat>, tasks: set<nat>, limit: nat, batches: seq<set<nat>>, other: seq<set<nat>>,
                      i: nat, m: nat, x: nat)
    requires forall t :: t in tasks ==> t < |slots|
    requires Partitions(batches, tasks) && Greedy(slots, batches, limit) && Partitions(other, tasks)
    requires i < |other| && i + 1 < |batches|
    requires forall t: nat :: InBatch(other, i, t) ==> InBatch(batches, i, t)
    requires x in other[i] && IsFirst(m, batches[i + 1]) && m <= x
    ensures SlotCount(slots, other[i]) > limit
  {
    forall y | y in batches[i] + {m}
      ensures y in other[i]
    {
      ReachedBatchHolds(tasks, batches, other, i, m, x, y);
    }
    assert InBatch(batches, |batches|, m);
    assert m !in batches[i];
    assert NoRoomBefore(slots, batches, i + 1, limit);
    SlotCountAdd(slots, batches[i], m);
    SlotCountMonotone(slots, batches[i] + {m}, other[i]);
  }

  lemma ReachedBatchHolds(tasks: set<nat>, batches: seq<set<nat>>, other: seq<set<nat>>, i: nat, m: nat, x: nat, y: nat)
    requires Partitions(batches, tasks) && Partitions(other, tasks)
    requires i < |other| && i + 1 < |batches|
    requires forall t: nat :: InBatch(other, i, t) ==> InBatch(batches, i, t)
    requires x in other[i] && m in batches[i + 1] && m <= x && (y in batches[i] || y == m)
    ensures y in other[i]
  {
    assert InBatch(batches, |batches|, y);
    assert InBatch(other, |other|, y);
    var k :| 0 <= k < |other| && y in other[k];
    if !InBatch(other, i, y) {
      assert k >= i;
    }
  }

  lemma Smallest(tasks: set<nat>) returns (first: nat)
    requires tasks != {}
    ensures IsFirst(first, tasks)
  {
    var pick :| pick in tasks;
    var rest := tasks - {pick};
    assert forall t :: t in tasks ==> t == pick || t in rest;
    first := pick;
    if rest != {} {
      var other := Smallest(rest);
      if other < first {
        first := other;
      }
    }
  }
}
