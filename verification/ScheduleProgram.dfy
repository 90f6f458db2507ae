/** What the memory scheduler is given: operations with their dependencies, executors, cycle costs
    and buffers. */
module ScheduleProgram {
  import opened DependencyReduction
  import opened AsyncDeps

  /** Executor kinds: data movement, the kinds that count as compute, and the others. */
  datatype Executor = DmaNN | Compute | Other

  /** `queue` identifies executor kind and channel, `wide` says that all instances are needed, and
      `loads` that the operation moves data from another memory into the one that is scheduled. */
  datatype Task = Task(executor: Executor, queue: nat, wide: bool, loads: bool, cost: nat, inputs: set<nat>,
                       outputs: set<nat>, used: set<nat>)

  /** `spillCost` and `wideBuffer` are indexed by buffer; reads and writes of spilled buffers have
      their own queues. */
  datatype Program = Program(tasks: seq<Task>, deps: DepsMap, consumers: DepsMap, spillCost: seq<nat>,
                             wideBuffer: seq<bool>,
                             readQueue: nat, writeQueue: nat) {

    ghost predicate WellFormed() {
      && |tasks| == |deps| && Topological(deps) && InverseOf(deps, consumers) && |wideBuffer| == |spillCost|
      && (forall o {:trigger tasks[o]} :: 0 <= o < |tasks| ==>
            tasks[o].inputs <= tasks[o].used && tasks[o].outputs <= tasks[o].used)
      && (forall o, b {:trigger b in tasks[o].used} :: 0 <= o < |tasks| && b in tasks[o].used ==> b < |spillCost|)
    }

    /** `isDataOp`, as it is when the scheduler starts. */
    predicate IsDataOp(o: nat)
      requires WellFormed() && o < |tasks|
      decreases o
    {
      && tasks[o].executor == DmaNN && consumers[o] != {}
      && (forall d :: d in deps[o] ==> !IsDataOp(d))
      && tasks[o].loads
    }

    /** Operation `o`, or one that precedes it, writes buffer `b`. */
    ghost predicate WrittenBy(o: nat, b: nat)
      requires WellFormed() && o < |tasks|
      decreases o
    {
      b in tasks[o].outputs || exists d :: d in deps[o] && WrittenBy(d, b)
    }

    /** No operation uses a buffer that nobody before it has written. */
    ghost predicate BuffersWritten()
      requires WellFormed()
    {
      forall o, b {:trigger b in tasks[o].used} :: 0 <= o < |tasks| && b in tasks[o].used ==> WrittenBy(o, b)
    }

    predicate IsComputeOp(o: nat)
      requires o < |tasks|
    {
      tasks[o].executor == Compute
    }
  }

  datatype OpType = Original | Prefetched | SpillRead | SpillWrite | SpillWriteFrag

  /** An operation or spill on the time line; `buffer` matters only for spills. */
  datatype HeapElement = HeapElement(op: nat, queue: nat, mask: set<nat>, cycleBegin: nat, cycleEnd: nat,
                                     opType: OpType, buffer: nat) {

    predicate IsOriginalOp() {
      opType == Original || opType == Prefetched
    }

    predicate IsSpillWriteOp() {
      opType == SpillWrite || opType == SpillWriteFrag
    }

    predicate IsSpillReadOp() {
      opType == SpillRead
    }
  }
}
