/** The barrier analysis object: four maps between tasks and barriers that are each other's
    inverses, the mutators that keep them so, and the control graph blocks. */
module BarrierInfoModule {
  import opened BarrierGraph
  import opened ControlBlocks

  /** Result of an operation that may throw. */
  datatype Outcome = Done | Thrown(message: string)

  /** Largest value of an index (`std::numeric_limits<size_t>::max()`). */
  const SIZE_MAX: nat := 0xFFFF_FFFF_FFFF_FFFF

  class BarrierInfo {
    var taskWaitBarriers: seq<set<nat>>
    var taskUpdateBarriers: seq<set<nat>>
    var barrierProducerMap: seq<set<nat>>
    var barrierConsumerMap: seq<set<nat>>

    /** Number of tasks in one control graph block; 0 when the graph is not split. */
    var controlGraphBlockSize: nat
    var syncTasksIds: seq<nat>
    /** The tasks whose operation carries the sync-task attribute. */
    var syncTaskAttr: set<nat>
    var unevenVariantSplit: bool

    /** Number of barrier slots (variants) a task uses, and the queue it is issued on. */
    const slots: seq<nat>
    const queue: seq<nat>

    ghost function Graph(): Graph
      reads this
    {
      BarrierGraph.Graph(|taskWaitBarriers|, barrierProducerMap, barrierConsumerMap)
    }

    ghost predicate Valid()
      reads this
    {
      && |taskUpdateBarriers| == |taskWaitBarriers| == |slots| == |queue|
      && |barrierConsumerMap| == |barrierProducerMap|
      && (forall t: nat, b: nat {:trigger b in taskWaitBarriers[t]} ::
        0 <= t < |taskWaitBarriers| && b in taskWaitBarriers[t] ==>
            b < |barrierConsumerMap| && t in barrierConsumerMap[b])
      && (forall t: nat, b: nat {:trigger t in barrierConsumerMap[b]} ::
        0 <= b < |barrierConsumerMap| && t in barrierConsumerMap[b] ==>
            t < |taskWaitBarriers| && b in taskWaitBarriers[t])
      && (forall t: nat, b: nat {:trigger b in taskUpdateBarriers[t]} ::
        0 <= t < |taskUpdateBarriers| && b in taskUpdateBarriers[t] ==>
            b < |barrierProducerMap| && t in barrierProducerMap[b])
      && (forall t: nat, b: nat {:trigger t in barrierProducerMap[b]} ::
        0 <= b < |barrierProducerMap| && t in barrierProducerMap[b] ==>
            t < |taskUpdateBarriers| && b in taskUpdateBarriers[t])
      && (forall t :: 0 <= t < |slots| ==> slots[t] >= 1)
      && |slots| <= SIZE_MAX
    }

    constructor (waits: seq<set<nat>>, updates: seq<set<nat>>, producers: seq<set<nat>>, consumers: seq<set<nat>>,
                 taskSlots: seq<nat>, taskQueues: seq<nat>)
      requires |waits| == |updates| == |taskSlots| == |taskQueues| && |producers| == |consumers|
      requires |taskSlots| <= SIZE_MAX && forall t :: 0 <= t < |taskSlots| ==> taskSlots[t] >= 1
      requires forall t: nat, b: nat {:trigger b in waits[t]} :: 0 <= t < |waits| && b in waits[t] ==>
        b < |consumers| && t in consumers[b]
      requires forall t: nat, b: nat {:trigger t in consumers[b]} :: 0 <= b < |consumers| && t in consumers[b] ==>
        t < |waits| && b in waits[t]
      requires forall t: nat, b: nat {:trigger b in updates[t]} :: 0 <= t < |updates| && b in updates[t] ==>
        b < |producers| && t in producers[b]
      requires forall t: nat, b: nat {:trigger t in producers[b]} :: 0 <= b < |producers| && t in producers[b] ==>
        t < |updates| && b in updates[t]
      ensures Valid() && Graph() == BarrierGraph.Graph(|waits|, producers, consumers)
      ensures slots == taskSlots && queue == taskQueues
      ensures controlGraphBlockSize == 0 && syncTasksIds == [] && syncTaskAttr == {} && !unevenVariantSplit
    {
      taskWaitBarriers, taskUpdateBarriers := waits, updates;
      barrierProducerMap, barrierConsumerMap := producers, consumers;
      controlGraphBlockSize, syncTasksIds, syncTaskAttr := 0, [], {};
      unevenVariantSplit := false;
      slots, queue := taskSlots, taskQueues;
    }

    method AddConsumer(b: nat, t: nat)
      requires Valid() && b < |barrierConsumerMap| && t < |taskWaitBarriers|
      modifies `barrierConsumerMap, `taskWaitBarriers
      ensures Valid() && Graph() == old(Graph()).AddConsumers(b, {t})
    {
      barrierConsumerMap := barrierConsumerMap[b := barrierConsumerMap[b] + {t}];
      taskWaitBarriers := taskWaitBarriers[t := taskWaitBarriers[t] + {b}];
    }

    method AddProducer(b: nat, t: nat)
      requires Valid() && b < |barrierProducerMap| && t < |taskUpdateBarriers|
      modifies `barrierProducerMap, `taskUpdateBarriers
      ensures Valid() && Graph() == old(Graph()).AddProducers(b, {t})
    {
      barrierProducerMap := barrierProducerMap[b := barrierProducerMap[b] + {t}];
      taskUpdateBarriers := taskUpdateBarriers[t := taskUpdateBarriers[t] + {b}];
    }

    method RemoveConsumer(b: nat, t: nat)
      requires Valid() && b < |barrierConsumerMap| && t < |taskWaitBarriers|
      modifies `barrierConsumerMap, `taskWaitBarriers
      ensures Valid() && Graph() == old(Graph()).RemoveConsumers(b, {t})
    {
      barrierConsumerMap := barrierConsumerMap[b := barrierConsumerMap[b] - {t}];
      taskWaitBarriers := taskWaitBarriers[t := taskWaitBarriers[t] - {b}];
    }

    method RemoveProducer(b: nat, t: nat)
      requires Valid() && b < |barrierProducerMap| && t < |taskUpdateBarriers|
      modifies `barrierProducerMap, `taskUpdateBarriers
      ensures Valid() && Graph() == old(Graph()).RemoveProducers(b, {t})
    {
      barrierProducerMap := barrierProducerMap[b := barrierProducerMap[b] - {t}];
      taskUpdateBarriers := taskUpdateBarriers[t := taskUpdateBarriers[t] - {b}];
    }

    method AddConsumers(b: nat, tasks: set<nat>)
      requires Valid() && b < |barrierConsumerMap| && forall t :: t in tasks ==> t < |taskWaitBarriers|
      modifies `barrierConsumerMap, `taskWaitBarriers
      ensures Valid() && Graph() == old(Graph()).AddConsumers(b, tasks)
    {
      var left := tasks;
      assert tasks - left == {} && barrierConsumerMap[b] == barrierConsumerMap[b] + {};
      while left != {}
        invariant left <= tasks && Valid()
        invariant |barrierConsumerMap| == |old(barrierConsumerMap)|
        invariant barrierConsumerMap[b] == old(barrierConsumerMap)[b] + (tasks - left)
        invariant Graph() == old(Graph()).AddConsumers(b, tasks - left)
      {
        var t :| t in left;
        AddConsumer(b, t);
        assert tasks - (left - {t}) == (tasks - left) + {t};
        left := left - {t};
      }
      assert tasks - {} == tasks;
    }

    method AddProducers(b: nat, tasks: set<nat>)
      requires Valid() && b < |barrierProducerMap| && forall t :: t in tasks ==> t < |taskUpdateBarriers|
      modifies `barrierProducerMap, `taskUpdateBarriers
      ensures Valid() && Graph() == old(Graph()).AddProducers(b, tasks)
    {
      var left := tasks;
      assert tasks - left == {} && barrierProducerMap[b] == barrierProducerMap[b] + {};
      while left != {}
        invariant left <= tasks && Valid()
        invariant |barrierProducerMap| == |old(barrierProducerMap)|
        invariant barrierProducerMap[b] == old(barrierProducerMap)[b] + (tasks - left)
        invariant Graph() == old(Graph()).AddProducers(b, tasks - left)
      {
        var t :| t in left;
        AddProducer(b, t);
        assert tasks - (left - {t}) == (tasks - left) + {t};
        left := left - {t};
      }
      assert tasks - {} == tasks;
    }

    method RemoveConsumers(b: nat, tasks: set<nat>)
      requires Valid() && b < |barrierConsumerMap| && forall t :: t in tasks ==> t < |taskWaitBarriers|
      modifies `barrierConsumerMap, `taskWaitBarriers
      ensures Valid() && Graph() == old(Graph()).RemoveConsumers(b, tasks)
    {
      var left := tasks;
      assert tasks - left == {} && barrierConsumerMap[b] == barrierConsumerMap[b] - {};
      while left != {}
        invariant left <= tasks && Valid()
        invariant |barrierConsumerMap| == |old(barrierConsumerMap)|
        invariant barrierConsumerMap[b] == old(barrierConsumerMap)[b] - (tasks - left)
        invariant Graph() == old(Graph()).RemoveConsumers(b, tasks - left)
      {
        var t :| t in left;
        RemoveConsumer(b, t);
        assert tasks - (left - {t}) == (tasks - left) + {t};
        left := left - {t};
      }
      assert tasks - {} == tasks;
    }

    method RemoveProducers(b: nat, tasks: set<nat>)
      requires Valid() && b < |barrierProducerMap| && forall t :: t in tasks ==> t < |taskUpdateBarriers|
      modifies `barrierProducerMap, `taskUpdateBarriers
      ensures Valid() && Graph() == old(Graph()).RemoveProducers(b, tasks)
    {
      var left := tasks;
      assert tasks - left == {} && barrierProducerMap[b] == barrierProducerMap[b] - {};
      while left != {}
        invariant left <= tasks && Valid()
        invariant |barrierProducerMap| == |old(barrierProducerMap)|
        invariant barrierProducerMap[b] == old(barrierProducerMap)[b] - (tasks - left)
        invariant Graph() == old(Graph()).RemoveProducers(b, tasks - left)
      {
        var t :| t in left;
        RemoveProducer(b, t);
        assert tasks - (left - {t}) == (tasks - left) + {t};
        left := left - {t};
      }
      assert tasks - {} == tasks;
    }

    method AddNewBarrier() returns (b: nat)
      requires Valid()
      modifies `barrierConsumerMap, `barrierProducerMap
      ensures Valid() && b == |old(barrierProducerMap)| && Graph() == old(Graph()).AddBarrier()
    {
      b := |barrierProducerMap|;
      barrierConsumerMap := barrierConsumerMap + [{}];
      barrierProducerMap := barrierProducerMap + [{}];
    }

    method SetWaitBarriers(t: nat, barriers: set<nat>)
      requires Valid() && t < |taskWaitBarriers| && forall b :: b in barriers ==> b < |barrierConsumerMap|
      modifies `barrierConsumerMap, `taskWaitBarriers
      ensures Valid() && Graph() == old(Graph()).SetWaitBarriers(t, barriers)
      ensures taskWaitBarriers == old(taskWaitBarriers)[t := barriers]
    {
      ghost var previous := taskWaitBarriers[t];
      var left := taskWaitBarriers[t];
      while left != {}
        invariant left <= previous && |barrierConsumerMap| == |old(barrierConsumerMap)|
        invariant taskWaitBarriers == old(taskWaitBarriers)
        invariant forall b :: 0 <= b < |barrierConsumerMap| ==>
           barrierConsumerMap[b] ==
             (if b in previous - left then old(barrierConsumerMap)[b] - {t} else old(barrierConsumerMap)[b])
      {
        var b :| b in left;
        barrierConsumerMap := barrierConsumerMap[b := barrierConsumerMap[b] - {t}];
        left := left - {b};
      }
      left := barriers;
      while left != {}
        invariant left <= barriers && |barrierConsumerMap| == |old(barrierConsumerMap)|
        invariant taskWaitBarriers == old(taskWaitBarriers)
        invariant forall b :: 0 <= b < |barrierConsumerMap| ==>
           barrierConsumerMap[b] ==
             (if b in barriers - left then old(barrierConsumerMap)[b] + {t} else old(barrierConsumerMap)[b] - {t})
      {
        var b :| b in left;
        barrierConsumerMap := barrierConsumerMap[b := barrierConsumerMap[b] + {t}];
        left := left - {b};
      }
      taskWaitBarriers := taskWaitBarriers[t := barriers];
    }

    method SetUpdateBarriers(t: nat, barriers: set<nat>)
      requires Valid() && t < |taskUpdateBarriers| && forall b :: b in barriers ==> b < |barrierProducerMap|
      modifies `barrierProducerMap, `taskUpdateBarriers
      ensures Valid() && Graph() == old(Graph()).SetUpdateBarriers(t, barriers)
      ensures taskUpdateBarriers == old(taskUpdateBarriers)[t := barriers]
    {
      ghost var previous := taskUpdateBarriers[t];
      var left := taskUpdateBarriers[t];
      while left != {}
        invariant left <= previous && |barrierProducerMap| == |old(barrierProducerMap)|
        invariant taskUpdateBarriers == old(taskUpdateBarriers)
        invariant forall b :: 0 <= b < |barrierProducerMap| ==>
           barrierProducerMap[b] ==
             (if b in previous - left then old(barrierProducerMap)[b] - {t} else old(barrierProducerMap)[b])
      {
        var b :| b in left;
        barrierProducerMap := barrierProducerMap[b := barrierProducerMap[b] - {t}];
        left := left - {b};
      }
      left := barriers;
      while left != {}
        invariant left <= barriers && |barrierProducerMap| == |old(barrierProducerMap)|
        invariant taskUpdateBarriers == old(taskUpdateBarriers)
        invariant forall b :: 0 <= b < |barrierProducerMap| ==>
           barrierProducerMap[b] ==
             (if b in barriers - left then old(barrierProducerMap)[b] + {t} else old(barrierProducerMap)[b] - {t})
      {
        var b :| b in left;
        barrierProducerMap := barrierProducerMap[b := barrierProducerMap[b] + {t}];
        left := left - {b};
      }
      taskUpdateBarriers := taskUpdateBarriers[t := barriers];
    }

    method ResetBarrier(b: nat)
      requires Valid() && b < |barrierProducerMap|
      modifies `barrierConsumerMap, `taskWaitBarriers, `barrierProducerMap, `taskUpdateBarriers
      ensures Valid() && Graph() == old(Graph()).ResetBarrier(b)
    {
      ghost var producers := barrierProducerMap[b];
      var left := barrierProducerMap[b];
      while left != {}
        invariant left <= producers && |taskUpdateBarriers| == |old(taskUpdateBarriers)|
        invariant barrierProducerMap == old(barrierProducerMap) && barrierConsumerMap == old(barrierConsumerMap)
        invariant taskWaitBarriers == old(taskWaitBarriers)
        invariant forall t :: 0 <= t < |taskUpdateBarriers| ==>
           taskUpdateBarriers[t] ==
             (if t in producers - left then old(taskUpdateBarriers)[t] - {b} else old(taskUpdateBarriers)[t])
      {
        var t :| t in left;
        taskUpdateBarriers := taskUpdateBarriers[t := taskUpdateBarriers[t] - {b}];
        left := left - {t};
      }
      barrierProducerMap := barrierProducerMap[b := {}];
      ghost var updates := taskUpdateBarriers;
      ghost var consumers := barrierConsumerMap[b];
      left := barrierConsumerMap[b];
      while left != {}
        invariant left <= consumers && |taskWaitBarriers| == |old(taskWaitBarriers)|
        invariant taskUpdateBarriers == updates && barrierProducerMap == old(barrierProducerMap)[b := {}]
        invariant barrierConsumerMap == old(barrierConsumerMap)
        invariant forall t :: 0 <= t < |taskWaitBarriers| ==>
           taskWaitBarriers[t] ==
             (if t in consumers - left then old(taskWaitBarriers)[t] - {b} else old(taskWaitBarriers)[t])
      {
        var t :| t in left;
        taskWaitBarriers := taskWaitBarriers[t := taskWaitBarriers[t] - {b}];
        left := left - {t};
      }
      barrierConsumerMap := barrierConsumerMap[b := {}];
    }

    predicate IsSyncPoint(t: nat)
      reads this
    {
      IsSyncPosition(controlGraphBlockSize, |taskWaitBarriers|, t)
    }

    function BlockCount(): nat
      reads this
    {
      |syncTasksIds| + 1
    }

    ghost predicate ValidBlocks()
      reads this
    {
      EvenlySplit(syncTasksIds, controlGraphBlockSize, |taskWaitBarriers|)
    }

    /** First and last task of a block; a sync task belongs to the blocks on both sides of it. */
    function BlockTaskRange(block: nat, startSyncPoint: bool, endSyncPoint: bool): (range: (nat, nat))
      requires block < BlockCount() && ValidBlocks()
      reads this
      ensures range.1 < |taskWaitBarriers| && (startSyncPoint ==> range.0 <= range.1)
    {
      assert 0 < block < |syncTasksIds| ==>
        syncTasksIds[block] == block * controlGraphBlockSize + controlGraphBlockSize - 1 &&
        syncTasksIds[block - 1] == block * controlGraphBlockSize - 1;
      var start := BlockStart(syncTasksIds, block);
      var end := BlockEnd(syncTasksIds, |taskWaitBarriers|, block);
      (if block == 0 || startSyncPoint then start else start + 1,
       if block == |syncTasksIds| || endSyncPoint then end else end - 1)
    }

    /** The update (or wait) barriers of a task. */
    function BarriersOfTask(t: nat, updates: bool): set<nat>
      requires Valid() && t < |taskWaitBarriers|
      reads this
    {
      if updates then taskUpdateBarriers[t] else taskWaitBarriers[t]
    }

    /** The barriers that the tasks `start..end` update (or wait for), in ascending order. */
    method BarriersForTasks(start: nat, end: nat, updates: bool) returns (barriers: seq<nat>)
      requires Valid() && end < |taskWaitBarriers|
      ensures forall i, j :: 0 <= i < j < |barriers| ==> barriers[i] < barriers[j]
      ensures forall b :: b in barriers ==> exists t: nat :: start <= t <= end && b in BarriersOfTask(t, updates)
      ensures forall t: nat, b :: start <= t <= end && b in BarriersOfTask(t, updates) ==> b in barriers
    {
      var found: set<nat> := {};
      var t := start;
      while t <= end
        invariant start <= t <= end + 1 || (start == t && found == {})
        invariant forall b :: b in found ==> exists u: nat :: start <= u <= end && b in BarriersOfTask(u, updates)
        invariant forall u: nat, b :: start <= u < t && u <= end && b in BarriersOfTask(u, updates) ==> b in found
      {
        assert forall b :: b in BarriersOfTask(t, updates) ==>
          exists u: nat :: start <= u <= end && b in BarriersOfTask(u, updates);
        found := found + BarriersOfTask(t, updates);
        t := t + 1;
      }
      barriers := [];
      var b := 0;
      while b < |barrierProducerMap|
        invariant b <= |barrierProducerMap|
        invariant forall i, j :: 0 <= i < j < |barriers| ==> barriers[i] < barriers[j]
        invariant forall i :: 0 <= i < |barriers| ==> barriers[i] < b && barriers[i] in found
        invariant forall x :: x in found && x < b ==> x in barriers
      {
        if b in found {
          barriers := barriers + [b];
          assert barriers[|barriers| - 1] == b;
        }
        b := b + 1;
      }
    }
  }
}
