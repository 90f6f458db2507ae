/** A schedule of the memory scheduler, replayed entry by entry: sorting by time keeps every buffer
    where the scheduler had it, so that the sorted schedule runs. */
module ScheduleReplay {
  import opened ScheduleProgram
  import opened TimelineModule
  import opened ScheduleTrace
  import opened ScheduleOrder
  import opened SpillReplay
  import opened DataOpSpills

  /** Everything takes time. */
  predicate TakesTime(program: Program) {
    && (forall o :: 0 <= o < |program.tasks| ==> program.tasks[o].cost >= 1)
    && (forall b :: 0 <= b < |program.spillCost| ==> program.spillCost[b] >= 1)
  }

  /** No operation reads a buffer that nobody before it has written. */
  ghost predicate InputsWritten(program: Program)
    requires program.WellFormed()
  {
    forall o, b {:trigger b in program.tasks[o].inputs} ::
      0 <= o < |program.tasks| && b in program.tasks[o].inputs ==> WrittenAhead(program, o, b)
  }

  /** What the schedules of a program need in order to run: no reads that begin together, nothing that
      takes no time, and no operation that reads what nobody has written. */
  ghost predicate Replayable(program: Program, instances: nat)
    requires program.WellFormed()
  {
    ReadsApart(program, instances) && TakesTime(program) && InputsWritten(program)
  }

  ghost predicate Mutates(program: Program, e: HeapElement, b: nat) {
    Writes(program, e, b) || (e.IsSpillWriteOp() && e.buffer == b)
  }

  ghost function LeavesIn(e: HeapElement): Place {
    if e.IsSpillWriteOp() then Spilled(e.op) else InMemory(e.op)
  }

  /** Entry `i` is the last one before `n` that changes where buffer `b` is. */
  ghost predicate LastMutator(program: Program, s: seq<HeapElement>, n: nat, b: nat, i: nat)
    requires n <= |s|
  {
    i < n && Mutates(program, s[i], b) && forall k :: i < k < n ==> !Mutates(program, s[k], b)
  }

  lemma {:induction false} PlaceIs(program: Program, s: seq<HeapElement>, n: nat, b: nat)
    requires n <= |s|
    ensures PlaceOf(program, s, n, b).Nowhere? <==> forall k :: 0 <= k < n ==> !Mutates(program, s[k], b)
    ensures !PlaceOf(program, s, n, b).Nowhere? ==>
      exists i: nat :: LastMutator(program, s, n, b, i) && PlaceOf(program, s, n, b) == LeavesIn(s[i])
  {
    if n > 0 {
      PlaceIs(program, s, n - 1, b);
      if Mutates(program, s[n - 1], b) {
        assert LastMutator(program, s, n, b, n - 1);
      } else if !PlaceOf(program, s, n - 1, b).Nowhere? {
        var i: nat :| LastMutator(program, s, n - 1, b, i) && PlaceOf(program, s, n - 1, b) == LeavesIn(s[i]);
        assert LastMutator(program, s, n, b, i);
      }
    }
  }

  lemma LastLeaves(program: Program, s: seq<HeapElement>, n: nat, b: nat, i: nat)
    requires n <= |s| && LastMutator(program, s, n, b, i)
    ensures PlaceOf(program, s, n, b) == LeavesIn(s[i])
  {
    PlaceIs(program, s, n, b);
    var j: nat :| LastMutator(program, s, n, b, j) && PlaceOf(program, s, n, b) == LeavesIn(s[j]);
    assert i == j;
  }

  // Conflicting elements follow each other in time

  /** What is known of the time line. */
  ghost predicate Orderly(program: Program, pushed: seq<HeapElement>) {
    && program.WellFormed() && GoodSchedule(program, pushed) && BuffersFound(program, pushed)
    && forall i :: 0 <= i < |pushed| ==>
         pushed[i].cycleBegin < pushed[i].cycleEnd && pushed[i].mask != {} && pushed[i].op < |program.tasks|
  }

  lemma LastWriterInTime(program: Program, pushed: seq<HeapElement>, j: nat, b: nat, i: nat)
    requires Orderly(program, pushed) && j < |pushed| && pushed[j].IsOriginalOp()
    requires b in program.tasks[pushed[j].op].used
    requires LastMutator(program, pushed, j, b, i) && !pushed[i].IsSpillWriteOp()
    ensures pushed[i].cycleEnd <= pushed[j].cycleBegin
  {
    hide InTurn, SpillWritesDone, SpillsAfterUse, DepsFirst, EndsFirst, OnceEach, BuffersFound, Program.WellFormed;
    assert LastWriter(program, pushed, j, b, i);
  }

  lemma {:induction false} MutatorsInTime(program: Program, pushed: seq<HeapElement>, b: nat, i: nat, j: nat)
    requires Orderly(program, pushed) && i < j < |pushed| && Mutates(program, pushed[i], b)
    requires Mutates(program, pushed[j], b)
    ensures pushed[i].cycleEnd <= pushed[j].cycleBegin
    decreases j
  {
    hide InTurn, DepsFirst, EndsFirst, ReadsFresh, OnceEach, Program.WellFormed, PlaceOf;
    if !pushed[i].IsSpillWriteOp() && !pushed[j].IsSpillWriteOp() {
      MutatorFinds(program, pushed, j, b);
      PlaceIs(program, pushed, j, b);
      var k: nat :| LastMutator(program, pushed, j, b, k) && PlaceOf(program, pushed, j, b) == LeavesIn(pushed[k]);
      assert k >= i;
      if !pushed[k].IsSpillWriteOp() {
        LastWriterInTime(program, pushed, j, b, k);
      }
      if k > i {
        MutatorsInTime(program, pushed, b, i, k);
      }
    }
  }

  /** What a write finds where it writes. */
  lemma MutatorFinds(program: Program, pushed: seq<HeapElement>, j: nat, b: nat)
    requires Orderly(program, pushed) && j < |pushed| && Writes(program, pushed[j], b)
    ensures pushed[j].IsSpillReadOp() ==> PlaceOf(program, pushed, j, b) == Spilled(pushed[j].op)
    ensures pushed[j].IsOriginalOp() ==>
      b in program.tasks[pushed[j].op].used && !PlaceOf(program, pushed, j, b).Spilled?
  {
    hide InTurn, SpillWritesDone, SpillsAfterUse, DepsFirst, EndsFirst, ReadsFresh, OnceEach, PlaceOf;
    assert FindsBuffers(program, pushed, j, pushed[j]);
  }

  // Sorting

  /** `schedule` is the time line sorted by time. */
  ghost predicate Reordered(program: Program, pushed: seq<HeapElement>, schedule: seq<HeapElement>) {
    Orderly(program, pushed) && Sorted(schedule) && multiset(schedule) == multiset(pushed)
  }

  /** Elements that follow each other in time do so in the schedule. */
  lemma SortedInTime(schedule: seq<HeapElement>, i: nat, j: nat)
    requires Sorted(schedule) && i < |schedule| && j < |schedule| && schedule[i].cycleEnd <= schedule[j].cycleBegin
    requires schedule[i].cycleBegin < schedule[i].cycleEnd
    ensures i < j
  {
    assert Earlier(schedule[i], schedule[j]);
  }

  lemma PushedOnce(program: Program, pushed: seq<HeapElement>, i: nat, j: nat)
    requires Orderly(program, pushed) && i < j < |pushed|
    ensures pushed[i] != pushed[j]
  {
    hide SpillWritesDone, SpillsAfterUse, DepsFirst, EndsFirst, ReadsFresh, OnceEach, BuffersFound, Program.WellFormed;
    var inst :| inst in pushed[i].mask;
    assert pushed[i] == pushed[j] ==> SharesInstance(pushed[i], pushed[j]);
  }

  lemma AlsoScheduled(program: Program, pushed: seq<HeapElement>, schedule: seq<HeapElement>, i: nat) returns (at: nat)
    requires Reordered(program, pushed, schedule) && i < |pushed|
    ensures at < |schedule| && schedule[at] == pushed[i]
  {
    hide Orderly, Sorted;
    Position(schedule, pushed, pushed[i]);
    at :| at < |schedule| && schedule[at] == pushed[i];
  }

  lemma AlsoPushed(program: Program, pushed: seq<HeapElement>, schedule: seq<HeapElement>, i: nat) returns (at: nat)
    requires Reordered(program, pushed, schedule) && i < |schedule|
    ensures at < |pushed| && pushed[at] == schedule[i]
  {
    hide Orderly, Sorted;
    Position(schedule, pushed, schedule[i]);
    at :| at < |pushed| && pushed[at] == schedule[i];
  }

  lemma InTimeInOrder(program: Program, pushed: seq<HeapElement>, schedule: seq<HeapElement>, i: nat, j: nat, x: nat,
                      y: nat)
    requires Reordered(program, pushed, schedule) && i < |pushed| && j < |pushed| && x < |schedule| && y < |schedule|
    requires schedule[x] == pushed[i] && schedule[y] == pushed[j] && pushed[i].cycleEnd <= pushed[j].cycleBegin
    ensures x < y
  {
    hide GoodSchedule, BuffersFound, Sorted, Program.WellFormed;
    SortedInTime(schedule, x, y);
  }

  lemma OrderlyPushed(program: Program, pushed: seq<HeapElement>, schedule: seq<HeapElement>)
    requires Reordered(program, pushed, schedule)
    ensures Orderly(program, pushed)
  {
  }

  /** Writes and spill writes of a buffer are in the schedule in the order in which they were scheduled. */
  lemma MutatorsInOrder(program: Program, pushed: seq<HeapElement>, schedule: seq<HeapElement>, b: nat, i: nat,
                        j: nat, x: nat, y: nat)
    requires Reordered(program, pushed, schedule) && i < j < |pushed| && x < |schedule| && y < |schedule|
    requires schedule[x] == pushed[i] && schedule[y] == pushed[j] && Mutates(program, pushed[i], b)
    requires Mutates(program, pushed[j], b)
    ensures x < y
  {
    hide GoodSchedule, BuffersFound, Sorted, Program.WellFormed, Mutates;
    MutatorsInTime(program, pushed, b, i, j);
    InTimeInOrder(program, pushed, schedule, i, j, x, y);
  }

  /** A write or spill write of a buffer finds it in the schedule where it found it when it was scheduled. */
  lemma MutatorFindsSame(program: Program, pushed: seq<HeapElement>, schedule: seq<HeapElement>, b: nat, k: nat, j: nat)
    requires Reordered(program, pushed, schedule) && k < |pushed| && j < |schedule| && schedule[j] == pushed[k]
    requires Mutates(program, pushed[k], b)
    ensures PlaceOf(program, schedule, j, b) == PlaceOf(program, pushed, k, b)
  {
    hide Reordered, PlaceOf, Mutates, LeavesIn;
    PlaceIs(program, schedule, j, b);
    PlaceIs(program, pushed, k, b);
    if PlaceOf(program, pushed, k, b).Nowhere? {
      NoneAppears(program, pushed, schedule, b, k, j);
    } else {
      var l: nat :| LastMutator(program, pushed, k, b, l) && PlaceOf(program, pushed, k, b) == LeavesIn(pushed[l]);
      var x := LastStaysLast(program, pushed, schedule, b, k, j, l);
      LastLeaves(program, schedule, j, b, x);
    }
  }

  lemma NoneAppears(program: Program, pushed: seq<HeapElement>, schedule: seq<HeapElement>, b: nat, k: nat, j: nat)
    requires Reordered(program, pushed, schedule) && k < |pushed| && j < |schedule| && schedule[j] == pushed[k]
    requires Mutates(program, pushed[k], b)
    requires forall i :: 0 <= i < k ==> !Mutates(program, pushed[i], b)
    ensures forall x :: 0 <= x < j ==> !Mutates(program, schedule[x], b)
  {
    hide Mutates, Orderly, Sorted;
    forall x | 0 <= x < j
      ensures !Mutates(program, schedule[x], b)
    {
      var i := AlsoPushed(program, pushed, schedule, x);
      if Mutates(program, schedule[x], b) {
        if i > k {
          MutatorsInOrder(program, pushed, schedule, b, k, i, j, x);
        } else {
          SameTwice(program, pushed, schedule, k, j, x);
        }
      }
    }
  }

  /** No element of the time line is in the schedule twice. */
  lemma SameTwice(program: Program, pushed: seq<HeapElement>, schedule: seq<HeapElement>, k: nat, j: nat, x: nat)
    requires Reordered(program, pushed, schedule) && k < |pushed| && x < j < |schedule| && schedule[j] == pushed[k]
    ensures schedule[x] != pushed[k]
  {
    hide Orderly, Sorted;
    if schedule[x] == pushed[k] {
      TwiceIn(schedule, x, j);
      CountedOnce(program, pushed, k);
      assert false;
    }
  }

  lemma CountedOnce(program: Program, pushed: seq<HeapElement>, k: nat)
    requires Orderly(program, pushed) && k < |pushed|
    ensures multiset(pushed)[pushed[k]] == 1
  {
    hide Orderly;
    assert pushed == pushed[..k] + [pushed[k]] + pushed[k + 1..];
    forall i | 0 <= i < |pushed| && i != k
      ensures pushed[i] != pushed[k]
    {
      PushedOnce(program, pushed, if i < k then i else k, if i < k then k else i);
    }
    assert pushed[k] !in pushed[..k] && pushed[k] !in pushed[k + 1..];
  }

  /** The last one to change where the buffer is stays the last one. */
  lemma LastStaysLast(program: Program, pushed: seq<HeapElement>, schedule: seq<HeapElement>, b: nat, k: nat, j: nat,
                      l: nat)
    returns (x: nat)
    requires Reordered(program, pushed, schedule) && k < |pushed| && j < |schedule| && schedule[j] == pushed[k]
    requires Mutates(program, pushed[k], b)
    requires LastMutator(program, pushed, k, b, l)
    ensures LastMutator(program, schedule, j, b, x) && schedule[x] == pushed[l]
  {
    hide Mutates, Orderly, Sorted;
    x := AlsoScheduled(program, pushed, schedule, l);
    MutatorsInOrder(program, pushed, schedule, b, l, k, x, j);
    forall y | x < y < j
      ensures !Mutates(program, schedule[y], b)
    {
      var i := AlsoPushed(program, pushed, schedule, y);
      if Mutates(program, schedule[y], b) {
        if i < l {
          MutatorsInOrder(program, pushed, schedule, b, i, l, y, x);
        } else if i == l {
          SameTwice(program, pushed, schedule, l, y, x);
        } else if i == k {
          SameTwice(program, pushed, schedule, k, j, y);
        } else if i > k {
          MutatorsInOrder(program, pushed, schedule, b, k, i, j, y);
        }
      }
    }
  }

  /** An operation finds an input in memory in the schedule when it found it there when it was scheduled. */
  lemma InputStaysInMemory(program: Program, pushed: seq<HeapElement>, schedule: seq<HeapElement>, b: nat, k: nat,
                           j: nat)
    requires Reordered(program, pushed, schedule) && k < |pushed| && j < |schedule| && schedule[j] == pushed[k]
    requires pushed[k].IsOriginalOp()
    requires b in program.tasks[pushed[k].op].inputs && PlaceOf(program, pushed, k, b).InMemory?
    ensures PlaceOf(program, schedule, j, b).InMemory?
  {
    hide PlaceOf, Mutates, Reordered, Orderly;
    OrderlyPushed(program, pushed, schedule);
    PlaceIs(program, pushed, k, b);
    var w: nat :| LastMutator(program, pushed, k, b, w) && PlaceOf(program, pushed, k, b) == LeavesIn(pushed[w]);
    var y := AlsoScheduled(program, pushed, schedule, w);
    WrittenInTime(program, pushed, b, k, w);
    InTimeInOrder(program, pushed, schedule, w, k, y, j);
    PlaceIs(program, schedule, j, b);
    var x: nat :| LastMutator(program, schedule, j, b, x) && PlaceOf(program, schedule, j, b) == LeavesIn(schedule[x]);
    NotSpilledSince(program, pushed, schedule, b, k, j, w, y, x);
  }

  /** The last one to change where the buffer is before the operation is no spill write. */
  lemma NotSpilledSince(program: Program, pushed: seq<HeapElement>, schedule: seq<HeapElement>, b: nat, k: nat,
                        j: nat, w: nat, y: nat, x: nat)
    requires Reordered(program, pushed, schedule) && k < |pushed| && j < |schedule| && schedule[j] == pushed[k]
    requires pushed[k].IsOriginalOp()
    requires b in program.tasks[pushed[k].op].inputs && LastMutator(program, pushed, k, b, w)
    requires !pushed[w].IsSpillWriteOp()
    requires y < j && schedule[y] == pushed[w] && LastMutator(program, schedule, j, b, x)
    ensures !schedule[x].IsSpillWriteOp()
  {
    hide PlaceOf, Mutates, Reordered, Orderly;
    OrderlyPushed(program, pushed, schedule);
    var i := AlsoPushed(program, pushed, schedule, x);
    if i < w {
      MutatorsInOrder(program, pushed, schedule, b, i, w, x, y);
    } else if i > k && schedule[x].IsSpillWriteOp() {
      UsedBeforeSpill(program, pushed, b, k, i);
      InTimeInOrder(program, pushed, schedule, k, i, j, x);
    }
  }

  /** What an operation finds in memory has been written in time. */
  lemma WrittenInTime(program: Program, pushed: seq<HeapElement>, b: nat, k: nat, w: nat)
    requires Orderly(program, pushed) && k < |pushed| && pushed[k].IsOriginalOp()
    requires b in program.tasks[pushed[k].op].inputs
    requires LastMutator(program, pushed, k, b, w) && !pushed[w].IsSpillWriteOp()
    ensures pushed[w].cycleBegin < pushed[w].cycleEnd <= pushed[k].cycleBegin < pushed[k].cycleEnd
  {
    hide GoodSchedule, BuffersFound, Mutates;
    assert b in program.tasks[pushed[k].op].used;
    LastWriterInTime(program, pushed, k, b, w);
  }

  lemma UsedBeforeSpill(program: Program, pushed: seq<HeapElement>, b: nat, k: nat, i: nat)
    requires Orderly(program, pushed) && k < i < |pushed| && pushed[k].IsOriginalOp()
    requires b in program.tasks[pushed[k].op].inputs
    requires pushed[i].IsSpillWriteOp() && Mutates(program, pushed[i], b)
    ensures pushed[k].cycleBegin < pushed[k].cycleEnd <= pushed[i].cycleBegin
  {
    hide InTurn, SpillWritesDone, DepsFirst, EndsFirst, ReadsFresh, OnceEach, BuffersFound, Program.WellFormed;
    assert Touches(program, pushed[k], pushed[i].buffer);
  }

  // Replaying

  /** Entry `k` finds its buffers: an operation its inputs in memory, a spill write its buffer in
      memory, a spill read its buffer spilled, for the right writer. */
  ghost predicate Playable(program: Program, s: seq<HeapElement>, k: nat)
    requires k < |s|
  {
    && s[k].op < |program.tasks|
    && if s[k].IsOriginalOp() then forall b :: b in program.tasks[s[k].op].inputs ==>
         PlaceOf(program, s, k, b).InMemory?
       else PlaceOf(program, s, k, s[k].buffer) == if s[k].IsSpillReadOp() then Spilled(s[k].op) else InMemory(s[k].op)
  }

  ghost predicate AllPlayable(program: Program, s: seq<HeapElement>) {
    forall k {:trigger Playable(program, s, k)} :: 0 <= k < |s| ==> Playable(program, s, k)
  }

  ghost predicate HoldsAt(m: Memory, place: Place, b: nat) {
    match place
    case Nowhere => b !in m.buffers
    case InMemory(w) => b in m.buffers && m.buffers[b].op == w
    case Spilled(w) => b !in m.buffers && b in m.spilled && m.spilled[b].op == w
  }

  /** Memory `m` before entry `k` has every buffer where it should be. */
  ghost predicate Holds(program: Program, s: seq<HeapElement>, k: nat, m: Memory)
    requires k <= |s|
  {
    forall b {:trigger HoldsAt(m, PlaceOf(program, s, k, b), b)} :: HoldsAt(m, PlaceOf(program, s, k, b), b)
  }

  lemma HoldsNext(program: Program, s: seq<HeapElement>, k: nat, m: Memory)
    requires k < |s| && Holds(program, s, k, m) && Playable(program, s, k)
    ensures CanStep(program, m, s[k]) && (s[k].IsSpillReadOp() ==> s[k].buffer !in m.buffers)
    ensures Holds(program, s, k + 1, Step(program, m, s[k]))
  {
    var e, next := s[k], k + 1;
    assert HoldsAt(m, PlaceOf(program, s, k, e.buffer), e.buffer);
    if e.IsOriginalOp() {
      forall b | b in program.tasks[e.op].inputs
        ensures b in m.buffers
      {
        assert HoldsAt(m, PlaceOf(program, s, k, b), b);
      }
    }
    forall b
      ensures HoldsAt(Step(program, m, e), PlaceOf(program, s, next, b), b)
    {
      assert HoldsAt(m, PlaceOf(program, s, k, b), b);
    }
  }

  lemma {:induction false} PlayableRuns(program: Program, s: seq<HeapElement>, k: nat, m: Memory)
    requires k <= |s| && Holds(program, s, k, m) && AllPlayable(program, s)
    ensures StrictlyRuns(program, s, k, m)
    decreases |s| - k
  {
    hide Holds, Playable, Step, CanStep;
    if k < |s| {
      assert Playable(program, s, k);
      HoldsNext(program, s, k, m);
      PlayableRuns(program, s, k + 1, Step(program, m, s[k]));
    }
  }

  lemma ScheduleIsPlayable(program: Program, pushed: seq<HeapElement>, schedule: seq<HeapElement>)
    requires Reordered(program, pushed, schedule) && program.WellFormed() && InputsWritten(program)
    ensures AllPlayable(program, schedule)
  {
    hide Reordered, Program.WellFormed, PlaceOf, InputsWritten, FindsBuffers;
    forall j | 0 <= j < |schedule|
      ensures Playable(program, schedule, j)
    {
      var k := AlsoPushed(program, pushed, schedule, j);
      OrderlyPushed(program, pushed, schedule);
      FoundWhenPushed(program, pushed, k);
      if pushed[k].IsOriginalOp() {
        forall b | b in program.tasks[pushed[k].op].inputs
          ensures PlaceOf(program, schedule, j, b).InMemory?
        {
          InputWasInMemory(program, pushed, k, b);
          InputStaysInMemory(program, pushed, schedule, b, k, j);
        }
      } else {
        MutatorFindsSame(program, pushed, schedule, pushed[k].buffer, k, j);
      }
    }
  }

  lemma FoundWhenPushed(program: Program, pushed: seq<HeapElement>, k: nat)
    requires Orderly(program, pushed) && k < |pushed|
    ensures pushed[k].op < |program.tasks|
    ensures !pushed[k].IsOriginalOp() ==> Mutates(program, pushed[k], pushed[k].buffer)
    ensures !pushed[k].IsOriginalOp() ==>
      PlaceOf(program, pushed, k, pushed[k].buffer) ==
        if pushed[k].IsSpillReadOp() then Spilled(pushed[k].op) else InMemory(pushed[k].op)
  {
    hide GoodSchedule, PlaceOf, Program.WellFormed;
    assert FindsBuffers(program, pushed, k, pushed[k]);
  }

  lemma InputWasInMemory(program: Program, pushed: seq<HeapElement>, k: nat, b: nat)
    requires Orderly(program, pushed) && k < |pushed| && pushed[k].IsOriginalOp()
    requires b in program.tasks[pushed[k].op].inputs && InputsWritten(program)
    ensures PlaceOf(program, pushed, k, b).InMemory?
  {
    hide GoodSchedule, PlaceOf, WrittenAhead;
    assert FindsBuffers(program, pushed, k, pushed[k]);
    assert WrittenAhead(program, pushed[k].op, b);
  }

  /** The sorted schedule runs, and the clean-ups of spills can take it. */
  lemma ScheduleRuns(program: Program, clocks: Clocks, pushed: seq<HeapElement>, schedule: seq<HeapElement>)
    requires Reordered(program, pushed, schedule) && program.WellFormed() && InputsWritten(program)
    requires LoadsFromOutside(program)
    requires AllShaped(program, clocks, pushed) && OnceEach(schedule)
    ensures Cleanable(program, schedule) && StrictlyRuns(program, schedule, 0, Memory(map[], map[]))
  {
    hide Reordered, Program.WellFormed, InputsWritten, LoadsFromOutside, OnceEach, AllPlayable;
    ScheduleIsPlayable(program, pushed, schedule);
    NothingHeld(program, schedule);
    PlayableRuns(program, schedule, 0, Memory(map[], map[]));
    forall j | 0 <= j < |schedule|
      ensures schedule[j].op < |program.tasks|
      ensures !schedule[j].IsOriginalOp() ==> schedule[j].buffer in program.tasks[schedule[j].op].outputs
    {
      var k := AlsoPushed(program, pushed, schedule, j);
      assert Shaped(program, clocks, pushed[k]);
    }
  }

  lemma NothingHeld(program: Program, s: seq<HeapElement>)
    ensures Holds(program, s, 0, Memory(map[], map[]))
  {
  }
}
