/** The sync tasks that a rebuilt barrier analysis finds, and its check that the blocks are
    respected. */
module SplitVerification {
  import opened BarrierGraph
  import opened BarrierInfoModule
  import opened ControlBlocks
  import opened SplitLayout
  import opened SplitOrder
  import opened BarrierOptimization
  import opened ControlGraphSplit

  predicate Ascending(s: seq<nat>) {
    forall i, j :: 0 <= i < j < |s| ==> s[i] < s[j]
  }

  ghost predicate EqualDistances(ids: seq<nat>, size: nat) {
    forall i :: 1 <= i < |ids| ==> DistanceAt(ids, size, i)
  }

  predicate DistanceAt(ids: seq<nat>, size: nat, i: int)
    requires 1 <= i < |ids|
  {
    ids[i] == ids[i - 1] + size
  }

  /** The check of the distances between consecutive sync tasks. */
  method CheckDistances(ids: seq<nat>, size: nat) returns (outcome: Outcome)
    ensures outcome == Done <==> EqualDistances(ids, size)
  {
    var i := 1;
    while i < |ids|
      invariant 1 <= i && forall j :: 1 <= j < |ids| && j < i ==> DistanceAt(ids, size, j)
    {
      if !DistanceAt(ids, size, i) {
        return Thrown("Unexpected sync task difference");
      }
      i := i + 1;
    }
    return Done;
  }

  /** `buildBarrierMaps` on the tasks and barriers of `info`: the list of sync tasks and the block
      size are read off the marked tasks. */
  method Rebuild(info: BarrierInfo) returns (rebuilt: BarrierInfo, outcome: Outcome)
    requires info.Valid()
    ensures fresh(rebuilt) && rebuilt.Valid() && rebuilt.Graph() == info.Graph()
    ensures rebuilt.slots == info.slots && rebuilt.queue == info.queue && rebuilt.syncTaskAttr == info.syncTaskAttr
    ensures Ascending(rebuilt.syncTasksIds)
    ensures forall t: nat :: t in rebuilt.syncTasksIds <==> t < |info.taskWaitBarriers| && t in info.syncTaskAttr
    ensures rebuilt.controlGraphBlockSize == if rebuilt.syncTasksIds == [] then 0 else rebuilt.syncTasksIds[0] + 1
    ensures outcome == Done <==> EqualDistances(rebuilt.syncTasksIds, rebuilt.controlGraphBlockSize)
  {
    rebuilt := new BarrierInfo(info.taskWaitBarriers, info.taskUpdateBarriers, info.barrierProducerMap,
      info.barrierConsumerMap,
      info.slots, info.queue);
    rebuilt.syncTaskAttr := info.syncTaskAttr;
    var ids: seq<nat> := [];
    var t := 0;
    while t < |info.taskWaitBarriers|
      invariant t <= |info.taskWaitBarriers| && Ascending(ids) && forall k :: 0 <= k < |ids| ==> ids[k] < t
      invariant forall u: nat :: u in ids <==> u < t && u in info.syncTaskAttr
    {
      if t in info.syncTaskAttr {
        ids := ids + [t];
      }
      t := t + 1;
    }
    rebuilt.syncTasksIds := ids;
    outcome := Done;
    if ids != [] {
      rebuilt.controlGraphBlockSize := ids[0] + 1;
      outcome := CheckDistances(ids, rebuilt.controlGraphBlockSize);
    }
  }

  /** The block that the dependencies of task `t` have to lead to. */
  function TargetBlock(t: nat, size: nat): nat
    requires size > 0
  {
    if (t + 1) % size == 0 then t / size + 1 else t / size
  }

  /** The barriers of a task lead only to tasks in that block. */
  ghost predicate TaskRespectsBlocks(g: Graph, size: nat, p: nat)
    requires |g.producers| == |g.consumers| && size > 0
  {
    forall c :: (p, c) in g.Deps() ==> c / size == TargetBlock(p, size)
  }

  lemma AllTasksRespectBlocks(g: Graph, size: nat)
    requires g.WellFormed() && size > 0
    ensures RespectsBlocks(g.Deps(), size) <==> forall p: nat :: p < g.tasks ==> TaskRespectsBlocks(g, size, p)
  {
    if forall p: nat :: p < g.tasks ==> TaskRespectsBlocks(g, size, p) {
      forall p, c | (p, c) in g.Deps()
        ensures c / size == TargetBlock(p, size)
      {
        g.DepsMeansLinked(p, c);
        var b :| g.Linked(b, p, c);
        assert TaskRespectsBlocks(g, size, p);
      }
    }
  }

  lemma SyncTaskOfOwnBlock(t: nat, size: nat)
    requires size > 0
    ensures t == (t / size + 1) * size - 1 <==> (t + 1) % size == 0
  {
    DivisionStep(t, size);
    ModOfMultiple(t / size + 1, size);
  }

  method VerifyBarrierOf(info: BarrierInfo, t: nat, b: nat, size: nat) returns (ok: bool)
    requires info.Valid() && size > 0 && b < |info.barrierConsumerMap|
    ensures ok <==> forall c :: c in info.barrierConsumerMap[b] ==> c / size == TargetBlock(t, size)
  {
    var block := t / size;
    var syncTask := (block + 1) * size - 1;
    SyncTaskOfOwnBlock(t, size);
    var left := info.barrierConsumerMap[b];
    while left != {}
      invariant left <= info.barrierConsumerMap[b]
      invariant forall c :: c in info.barrierConsumerMap[b] && c !in left ==> c / size == TargetBlock(t, size)
    {
      var child :| child in left;
      if t == syncTask && block + 1 != child / size {
        return false;
      } else if t != syncTask && block != child / size {
        return false;
      }
      left := left - {child};
    }
    return true;
  }

  method VerifyTask(info: BarrierInfo, t: nat, size: nat) returns (ok: bool)
    requires info.Valid() && size > 0 && t < |info.taskUpdateBarriers|
    ensures ok <==> TaskRespectsBlocks(info.Graph(), size, t)
  {
    ghost var g := info.Graph();
    var left := info.taskUpdateBarriers[t];
    while left != {}
      invariant left <= info.taskUpdateBarriers[t]
      invariant forall b, c :: b in info.taskUpdateBarriers[t] && b !in left && c in info.barrierConsumerMap[b] ==>
        c / size == TargetBlock(t, size)
    {
      var b :| b in left;
      ok := VerifyBarrierOf(info, t, b, size);
      if !ok {
        var c :| c in info.barrierConsumerMap[b] && c / size != TargetBlock(t, size);
        assert g.Linked(b, t, c);
        g.DepsMeansLinked(t, c);
        return;
      }
      left := left - {b};
    }
    forall c | (t, c) in g.Deps()
      ensures c / size == TargetBlock(t, size)
    {
      g.DepsMeansLinked(t, c);
      var b :| g.Linked(b, t, c);
    }
    return true;
  }

  /** `verifyControlGraphSplit`: accepts exactly the graphs whose dependencies respect the blocks,
      and every graph without sync tasks. */
  method VerifyControlGraphSplit(info: BarrierInfo) returns (outcome: Outcome, ok: bool)
    requires info.Valid() && (info.syncTasksIds != [] ==> info.controlGraphBlockSize > 0)
    ensures outcome == Done <==> EqualDistances(info.syncTasksIds, info.controlGraphBlockSize)
    ensures outcome == Done ==> (ok <==> SplitVerified(info.Graph(), info.syncTasksIds, info.controlGraphBlockSize))
  {
    ok := true;
    outcome := Done;
    if info.syncTasksIds == [] {
      return;
    }
    outcome := CheckDistances(info.syncTasksIds, info.controlGraphBlockSize);
    if outcome.Thrown? {
      return;
    }
    AllTasksRespectBlocks(info.Graph(), info.controlGraphBlockSize);
    var t := 0;
    while t < |info.taskWaitBarriers|
      invariant t <= |info.taskWaitBarriers| && ok
      invariant forall p: nat :: p < t ==> TaskRespectsBlocks(info.Graph(), info.controlGraphBlockSize, p)
    {
      ok := VerifyTask(info, t, info.controlGraphBlockSize);
      if !ok {
        return;
      }
      t := t + 1;
    }
  }

  lemma NextElement(a: seq<nat>, b: seq<nat>, i: nat)
    requires Ascending(a) && Ascending(b) && (forall t: nat :: t in a ==> t in b) && i < |a|
    requires forall k :: 0 <= k < i && k < |b| ==> b[k] == a[k]
    ensures i < |b| && b[i] <= a[i]
  {
    assert a[i] in a;
    var j :| 0 <= j < |b| && b[j] == a[i];
    assert forall k :: 0 <= k < i && k < |b| ==> b[k] < a[i];
    assert i <= j;
  }

  lemma {:induction false} AscendingUnique(a: seq<nat>, b: seq<nat>)
    requires Ascending(a) && Ascending(b) && forall t: nat :: t in a <==> t in b
    ensures a == b
  {
    var i := 0;
    while i < |a|
      invariant i <= |a| && i <= |b| && forall k :: 0 <= k < i ==> a[k] == b[k]
    {
      NextElement(a, b, i);
      NextElement(b, a, i);
      i := i + 1;
    }
    if i < |b| {
      NextElement(b, a, i);
    }
  }

  /** The marks of a split are found again, at equal distances. */
  lemma MarksFoundAgain(n: nat, size: nat, ids: seq<nat>)
    requires 2 <= size < n && Ascending(ids)
    requires forall t: nat :: t in ids <==> t < n && IsSyncPosition(size, n, t)
    ensures EvenlySplit(ids, size, n) && ids != [] && ids[0] + 1 == size && EqualDistances(ids, size)
  {
    var l := MakeLayout(n, size, 0);
    forall i, j | 0 <= i < j < |l.sync|
      ensures l.sync[i] < l.sync[j]
    {
      assert l.block[l.sync[i]] == i && l.block[l.sync[j]] == j;
    }
    forall t: nat
      ensures t in l.sync <==> t in ids
    {
      if t in l.sync {
        var k :| 0 <= k < |l.sync| && l.sync[k] == t;
        assert l.block[t] == k;
        assert l.IsSync(t);
      }
      if t < n && l.IsSync(t) {
        assert l.sync[l.block[t]] == t;
      }
    }
    AscendingUnique(ids, l.sync);
    forall i | 1 <= i < |ids|
      ensures DistanceAt(ids, size, i)
    {
      assert ids[i] == (i + 1) * size - 1 && ids[i - 1] == i * size - 1;
    }
  }

  /** Splitting, rebuilding the analysis and verifying: a split that does not throw is found again
      with its block size, accepted, and fit for `optimizeBarriers`. */
  method SplitRebuildVerify(info: BarrierInfo, size: nat)
    returns (outcome: Outcome, rebuilt: BarrierInfo, accepted: bool)
    requires info.Valid() && info.Graph().InProgramOrder() && 2 <= size < |info.taskWaitBarriers|
    requires info.controlGraphBlockSize == 0 && info.syncTaskAttr == {}
    modifies info`controlGraphBlockSize, info`syncTaskAttr
    modifies info`barrierProducerMap, info`taskUpdateBarriers, info`barrierConsumerMap, info`taskWaitBarriers
    ensures outcome == Done <==> Connected(old(info.Graph()))
    ensures accepted <==> outcome == Done
    ensures outcome == Done ==>
      && rebuilt.Valid() && rebuilt.ValidBlocks() && rebuilt.syncTasksIds != [] && rebuilt.controlGraphBlockSize == size
      && IsSplitOf(old(info.Graph()), rebuilt.Graph(), rebuilt.queue, size)
      && SplitVerified(rebuilt.Graph(), rebuilt.syncTasksIds, size)
  {
    rebuilt, accepted := info, false;
    outcome := SplitControlGraphToBlocks(info, size);
    if outcome == Done {
      rebuilt, outcome := Rebuild(info);
      forall t: nat
        ensures t in rebuilt.syncTasksIds <==>
          t < |info.taskWaitBarriers| && IsSyncPosition(size, |info.taskWaitBarriers|, t)
      {
        assert MarkedAt({}, info.syncTaskAttr, size, |info.taskWaitBarriers|, t);
      }
      MarksFoundAgain(|info.taskWaitBarriers|, size, rebuilt.syncTasksIds);
      outcome, accepted := VerifyControlGraphSplit(rebuilt);
    }
  }
}
