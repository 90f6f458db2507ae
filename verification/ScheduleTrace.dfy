/** What the time line of the memory scheduler tells about buffers: where each of them is, in which
    order it is spilled and read back, and when two reads can be taken for one. */
module ScheduleTrace {
  import opened ScheduleProgram
  import opened TimelineModule

  /** Where a buffer is; `op` has written it last. */
  datatype Place = Nowhere | InMemory(op: nat) | Spilled(op: nat)

  /** Where buffer `b` is before entry `n`. */
  ghost function PlaceOf(program: Program, pushed: seq<HeapElement>, n: nat, b: nat): Place
    requires n <= |pushed|
  {
    if n == 0 then Nowhere
    else if pushed[n - 1].IsSpillWriteOp() && pushed[n - 1].buffer == b then Spilled(pushed[n - 1].op)
    else if Writes(program, pushed[n - 1], b) then InMemory(pushed[n - 1].op)
    else PlaceOf(program, pushed, n - 1, b)
  }

  /** Operation `o` has a dependency that writes buffer `b`, or depends on one that does. */
  ghost predicate WrittenAhead(program: Program, o: nat, b: nat)
    requires program.WellFormed() && o < |program.tasks|
  {
    exists d :: d in program.deps[o] && program.WrittenBy(d, b)
  }

  /** Element `e` finds its buffers after `pushed`: an operation finds none of them spilled, a spill
      write finds its buffer in memory, and a spill read finds it spilled, both for the right writer. */
  ghost predicate FindsBuffers(program: Program, pushed: seq<HeapElement>, n: nat, e: HeapElement)
    requires program.WellFormed() && n <= |pushed|
  {
    if e.IsOriginalOp() then
      && e.op < |program.tasks|
      && (forall b :: b in program.tasks[e.op].used ==> !PlaceOf(program, pushed, n, b).Spilled?)
      && (forall b :: b in program.tasks[e.op].used && WrittenAhead(program, e.op, b) ==>
            PlaceOf(program, pushed, n, b).InMemory?)
    else PlaceOf(program, pushed, n, e.buffer) == if e.IsSpillReadOp() then Spilled(e.op) else InMemory(e.op)
  }

  ghost predicate BuffersFound(program: Program, pushed: seq<HeapElement>)
    requires program.WellFormed()
  {
    forall j {:trigger FindsBuffers(program, pushed, j, pushed[j])} :: 0 <= j < |pushed| ==>
      FindsBuffers(program, pushed, j, pushed[j])
  }

  /** Buffer `b` is where the tables say. */
  ghost predicate LocatedAt(program: Program, pushed: seq<HeapElement>, producer: map<nat, nat>,
                            spilled: map<nat, nat>, b: nat) {
    PlaceOf(program, pushed, |pushed|, b) ==
      if b in spilled then Spilled(spilled[b]) else if b in producer then InMemory(producer[b]) else Nowhere
  }

  ghost predicate Located(program: Program, pushed: seq<HeapElement>, producer: map<nat, nat>, spilled: map<nat, nat>) {
    forall b {:trigger LocatedAt(program, pushed, producer, spilled, b)} ::
      LocatedAt(program, pushed, producer, spilled, b)
  }

  /** Element `e` runs on its queue for as long as it takes; spilled buffers are outputs, and wide
      ones take all instances. */
  ghost predicate Shaped(program: Program, clocks: Clocks, e: HeapElement)
    requires program.WellFormed()
  {
    && e.op < |program.tasks|
    && if e.IsOriginalOp() then
         e.queue == program.tasks[e.op].queue && e.cycleEnd == e.cycleBegin + program.tasks[e.op].cost
       else
         && e.buffer in program.tasks[e.op].outputs && e.buffer < |program.spillCost| == |program.wideBuffer|
         && e.queue == (if e.IsSpillReadOp() then program.readQueue else program.writeQueue) && e.queue in clocks
         && e.cycleEnd == e.cycleBegin + program.spillCost[e.buffer]
         && (program.wideBuffer[e.buffer] ==> forall i :: 0 <= i < |clocks[e.queue]| ==> i in e.mask)
  }

  ghost predicate AllShaped(program: Program, clocks: Clocks, pushed: seq<HeapElement>)
    requires program.WellFormed()
  {
    forall i {:trigger Shaped(program, clocks, pushed[i])} :: 0 <= i < |pushed| ==> Shaped(program, clocks, pushed[i])
  }

  /** A read of `b` and then one of `c` can begin at the same cycle. */
  predicate BeginTogether(program: Program, instances: nat, b: nat, c: nat)
    requires b < |program.spillCost| == |program.wideBuffer| && c < |program.wideBuffer|
  {
    program.spillCost[b] == 0 || (instances > 1 && !program.wideBuffer[b] && !program.wideBuffer[c])
  }

  /** With this many instances of the read queue no two reads for one operation begin together. */
  predicate ReadsApart(program: Program, instances: nat)
    requires program.WellFormed()
  {
    forall o, b, c {:trigger b in program.tasks[o].outputs, c in program.tasks[o].outputs} ::
      0 <= o < |program.tasks| && b in program.tasks[o].outputs && c in program.tasks[o].outputs && b != c ==>
      !BeginTogether(program, instances, b, c)
  }

  // Putting an element on the time line

  lemma {:induction false} PlaceOfPrefix(program: Program, pushed: seq<HeapElement>, e: HeapElement, n: nat, b: nat)
    requires n <= |pushed|
    ensures PlaceOf(program, pushed + [e], n, b) == PlaceOf(program, pushed, n, b)
  {
    if n > 0 {
      PlaceOfPrefix(program, pushed, e, n - 1, b);
    }
  }

  lemma PushFinds(program: Program, pushed: seq<HeapElement>, e: HeapElement)
    requires program.WellFormed() && BuffersFound(program, pushed) && FindsBuffers(program, pushed, |pushed|, e)
    ensures BuffersFound(program, pushed + [e])
  {
    hide Program.WellFormed, PlaceOf, WrittenAhead, FindsBuffers;
    var next := pushed + [e];
    forall j | 0 <= j < |next|
      ensures FindsBuffers(program, next, j, next[j])
    {
      assert j < |pushed| ==> FindsBuffers(program, pushed, j, pushed[j]);
      FindsOfPrefix(program, pushed, e, j, next[j]);
    }
  }

  lemma FindsOfPrefix(program: Program, pushed: seq<HeapElement>, e: HeapElement, n: nat, f: HeapElement)
    requires program.WellFormed() && n <= |pushed| && FindsBuffers(program, pushed, n, f)
    ensures FindsBuffers(program, pushed + [e], n, f)
  {
    hide Program.WellFormed, PlaceOf, WrittenAhead;
    forall b
      ensures PlaceOf(program, pushed + [e], n, b) == PlaceOf(program, pushed, n, b)
    {
      PlaceOfPrefix(program, pushed, e, n, b);
    }
  }

  lemma PlaceOfPushed(program: Program, pushed: seq<HeapElement>, e: HeapElement, b: nat)
    ensures PlaceOf(program, pushed + [e], |pushed| + 1, b) ==
      if e.IsSpillWriteOp() && e.buffer == b then Spilled(e.op)
      else if Writes(program, e, b) then InMemory(e.op) else PlaceOf(program, pushed, |pushed|, b)
  {
    PlaceOfPrefix(program, pushed, e, |pushed|, b);
  }

  /** What the tables have to become. */
  lemma PushLocated(program: Program, pushed: seq<HeapElement>, e: HeapElement, producer: map<nat, nat>,
                    spilled: map<nat, nat>,
                    nextProducer: map<nat, nat>, nextSpilled: map<nat, nat>)
    requires Located(program, pushed, producer, spilled)
    requires forall b :: if e.IsSpillWriteOp() && e.buffer == b then b in nextSpilled && nextSpilled[b] == e.op
      else if Writes(program, e, b) then b !in nextSpilled && b in nextProducer && nextProducer[b] == e.op
      else && (b in nextSpilled <==> b in spilled) && (b in spilled ==> nextSpilled[b] == spilled[b])
           && (b in nextProducer <==> b in producer) && (b in producer ==> nextProducer[b] == producer[b])
    ensures Located(program, pushed + [e], nextProducer, nextSpilled)
  {
    hide PlaceOf, Writes;
    forall b
      ensures LocatedAt(program, pushed + [e], nextProducer, nextSpilled, b)
    {
      assert LocatedAt(program, pushed, producer, spilled, b);
      PlaceOfPushed(program, pushed, e, b);
    }
  }

  /** Clocks of the same instances will do. */
  lemma ShapedStays(program: Program, before: Clocks, after: Clocks, pushed: seq<HeapElement>)
    requires program.WellFormed() && ClocksGrow(before, after) && AllShaped(program, before, pushed)
    ensures AllShaped(program, after, pushed)
  {
    hide Program.WellFormed;
    forall i | 0 <= i < |pushed|
      ensures Shaped(program, after, pushed[i])
    {
      assert Shaped(program, before, pushed[i]);
    }
  }

  lemma PushShaped(program: Program, before: Clocks, after: Clocks, pushed: seq<HeapElement>, e: HeapElement)
    requires program.WellFormed() && ClocksGrow(before, after) && AllShaped(program, before, pushed)
    requires Shaped(program, before, e)
    ensures AllShaped(program, after, pushed + [e])
  {
    hide Program.WellFormed;
    forall i | 0 <= i < |pushed + [e]|
      ensures Shaped(program, after, (pushed + [e])[i])
    {
      assert i < |pushed| ==> Shaped(program, before, pushed[i]);
    }
  }

  /** A read that is still running makes a later read for the same operation wait. */
  lemma ReadsBeginApart(program: Program, clocks: Clocks, x: HeapElement, e: HeapElement)
    requires program.WellFormed() && program.readQueue in clocks && ReadsApart(program, |clocks[program.readQueue]|)
    requires x.IsSpillReadOp() && Shaped(program, clocks, x) && Busy(clocks, x)
    requires e.IsSpillReadOp() && Shaped(program, clocks, e) && FitsClocks(clocks, e) && x.op == e.op
    requires x.buffer != e.buffer
    ensures x.cycleBegin < e.cycleBegin
  {
    hide Program.WellFormed;
    assert !BeginTogether(program, |clocks[program.readQueue]|, x.buffer, e.buffer);
    var i :| i in x.mask;
    var j :| j in e.mask;
    assert (i in x.mask && i in e.mask) || (j in x.mask && j in e.mask);
  }
}
