/** What the operations of a schedule find in their input buffers is what they would find in program
    order, however often buffers are spilled and read back in between. */
module ScheduleMeaning {
  import opened Reachability
  import opened DependencyReduction
  import opened ScheduleProgram
  import opened TimelineModule
  import opened ScheduleTrace
  import opened ScheduleOrder
  import opened SpillReplay
  import opened ScheduleReplay
  import opened DataOpSpills
  import opened ReadyLists
  import opened SpillMaps
  import opened SchedulerState

  /** The last operation before `n` that writes buffer `b`; `n` if there is none. */
  ghost function WriterBefore(program: Program, n: nat, b: nat): (w: nat)
    requires n <= |program.tasks|
    ensures w <= n && (w < n ==> b in program.tasks[w].outputs)
    ensures forall x :: 0 <= x < n && b in program.tasks[x].outputs ==> x <= w < n
  {
    if n == 0 then 0
    else if b in program.tasks[n - 1].outputs then n - 1
    else
      var w := WriterBefore(program, n - 1, b);
      if w < n - 1 then w else n
  }

  /** What operation `o` leaves in its outputs when operations run in program order. */
  ghost function Computed(program: Program, o: nat): Content
    requires o < |program.tasks|
    decreases o
  {
    Content(o, map b | b in program.tasks[o].inputs && WriterBefore(program, o, b) < o ::
      Computed(program, WriterBefore(program, o, b)))
  }

  /** Two operations of which one writes what the other reads or writes. */
  ghost predicate Conflict(program: Program, u: nat, w: nat, b: nat)
    requires u < |program.tasks| && w < |program.tasks|
  {
    || (b in program.tasks[u].outputs && b in program.tasks[w].outputs + program.tasks[w].inputs)
    || (b in program.tasks[u].inputs && b in program.tasks[w].outputs)
  }

  /** Operations that conflict depend on each other, directly or not. */
  ghost predicate ConflictsOrdered(program: Program) {
    forall u: nat, w: nat, b: nat {:trigger Conflict(program, u, w, b)} ::
      u < w < |program.tasks| && Conflict(program, u, w, b) ==> Reaches(DepEdges(program.deps), u, w)
  }

  /** Of the operations that read anything, each finds what it would find in program order. */
  ghost predicate ReadsRight(program: Program, found: seq<(nat, map<nat, Content>)>) {
    forall i :: 0 <= i < |found| ==> found[i].0 < |program.tasks| && found[i].1 == Computed(program, found[i].0).args
  }

  /** The schedule runs, and every operation in it finds what it would find in program order. */
  ghost predicate MeansProgram(program: Program, schedule: seq<HeapElement>) {
    && Runs(program, schedule, 0, Memory(map[], map[]))
    && ReadsRight(program, Reads(program, schedule, 0, Memory(map[], map[])))
  }

  // The order of originals

  lemma {:induction false} PrecedersEarlier(program: Program, schedule: seq<HeapElement>, d: nat, o: nat, j: nat)
    requires InDependencyOrder(program, schedule) && Topological(program.deps) && Reaches(DepEdges(program.deps), d, o)
    requires j < |schedule| && schedule[j].IsOriginalOp() && schedule[j].op == o
    ensures RanBefore(schedule, j, d)
    decreases o
  {
    var mid := LastStep(DepEdges(program.deps), d, o);
    assert DepsDone(program, schedule, j) && DoneBefore(schedule, mid, j);
    var i :| 0 <= i < j && schedule[i].IsOriginalOp() && schedule[i].op == mid &&
      schedule[i].cycleEnd <= schedule[j].cycleBegin;
    if mid != d {
      PrecedersEarlier(program, schedule, d, mid, i);
    }
  }

  /** Conflicting operations are in the schedule in program order. */
  lemma ConflictsInOrder(program: Program, schedule: seq<HeapElement>, b: nat, i: nat, j: nat)
    requires InDependencyOrder(program, schedule) && program.WellFormed() && ConflictsOrdered(program)
    requires OnceEach(schedule)
    requires i < |schedule| && j < |schedule| && schedule[i].IsOriginalOp() && schedule[j].IsOriginalOp()
    requires schedule[i].op < schedule[j].op < |program.tasks| && Conflict(program, schedule[i].op, schedule[j].op, b)
    ensures i < j
  {
    PrecedersEarlier(program, schedule, schedule[i].op, schedule[j].op, j);
    var k :| 0 <= k < j && schedule[k].IsOriginalOp() && schedule[k].op == schedule[i].op;
    assert k == i;
  }

  // Who has written what is in memory

  /** Entry `i` is the last operation before `n` that writes buffer `b`. */
  ghost predicate LastOriginal(program: Program, s: seq<HeapElement>, n: nat, b: nat, i: nat)
    requires n <= |s|
  {
    && i < n && OriginalWrite(program, s[i], b)
    && forall k :: i < k < n ==> !OriginalWrite(program, s[k], b)
  }

  ghost predicate OriginalWrite(program: Program, e: HeapElement, b: nat) {
    e.IsOriginalOp() && e.op < |program.tasks| && b in program.tasks[e.op].outputs
  }

  ghost function WriterIn(place: Place): nat
    requires !place.Nowhere?
  {
    match place case InMemory(w) => w case Spilled(w) => w
  }

  /** A buffer that has been spilled and read back is still of the last operation that wrote it. */
  lemma {:induction false} PlaceOfLastOriginal(program: Program, s: seq<HeapElement>, n: nat, b: nat) returns (i: nat)
    requires n <= |s| && AllPlayable(program, s) && !PlaceOf(program, s, n, b).Nowhere?
    ensures LastOriginal(program, s, n, b, i) && s[i].op == WriterIn(PlaceOf(program, s, n, b))
  {
    assert Playable(program, s, n - 1);
    if OriginalWrite(program, s[n - 1], b) {
      i := n - 1;
    } else {
      i := PlaceOfLastOriginal(program, s, n - 1, b);
    }
  }

  /** An operation finds an input from the operation that writes it last in program order. */
  lemma WriterIsRight(program: Program, schedule: seq<HeapElement>, j: nat, b: nat)
    requires program.WellFormed() && ConflictsOrdered(program) && AllPlayable(program, schedule)
    requires EachOnce(program, schedule)
    requires InDependencyOrder(program, schedule) && j < |schedule| && schedule[j].IsOriginalOp()
    requires schedule[j].op < |program.tasks|
    requires b in program.tasks[schedule[j].op].inputs && PlaceOf(program, schedule, j, b).InMemory?
    requires WriterBefore(program, schedule[j].op, b) < schedule[j].op
    ensures PlaceOf(program, schedule, j, b).op == WriterBefore(program, schedule[j].op, b)
  {
    hide PlaceOf, Program.WellFormed, ConflictsOrdered, InDependencyOrder, AllPlayable, WriterBefore;
    var o := schedule[j].op;
    var v := WriterBefore(program, o, b);
    var i := PlaceOfLastOriginal(program, schedule, j, b);
    var w := schedule[i].op;
    assert HasOriginal(schedule, v);
    var x :| 0 <= x < |schedule| && schedule[x].IsOriginalOp() && schedule[x].op == v;
    assert Conflict(program, v, o, b);
    ConflictsInOrder(program, schedule, b, x, j);
    if w > o {
      assert Conflict(program, o, w, b);
      ConflictsInOrder(program, schedule, b, j, i);
    } else if w < v {
      assert Conflict(program, w, v, b);
      ConflictsInOrder(program, schedule, b, i, x);
    }
  }

  lemma {:induction false} SomeoneWrites(program: Program, o: nat, b: nat)
    requires program.WellFormed() && o < |program.tasks| && program.WrittenBy(o, b)
    ensures exists x: nat :: x <= o && b in program.tasks[x].outputs
    decreases o
  {
    if b !in program.tasks[o].outputs {
      var d :| d in program.deps[o] && program.WrittenBy(d, b);
      SomeoneWrites(program, d, b);
    }
  }

  lemma InputHasWriter(program: Program, o: nat, b: nat)
    requires program.WellFormed() && InputsWritten(program) && o < |program.tasks| && b in program.tasks[o].inputs
    ensures WriterBefore(program, o, b) < o
  {
    assert WrittenAhead(program, o, b);
    var d :| d in program.deps[o] && program.WrittenBy(d, b);
    SomeoneWrites(program, d, b);
  }

  // Contents

  ghost predicate RightAt(program: Program, m: Memory, place: Place, b: nat) {
    match place
    case Nowhere => true
    case InMemory(w) => w < |program.tasks| && b in m.buffers && m.buffers[b] == Computed(program, w)
    case Spilled(w) => w < |program.tasks| && b in m.spilled && m.spilled[b] == Computed(program, w)
  }

  /** Every buffer before entry `k` holds what its last writer computes in program order. */
  ghost predicate AllRight(program: Program, s: seq<HeapElement>, k: nat, m: Memory)
    requires k <= |s|
  {
    forall b {:trigger RightAt(program, m, PlaceOf(program, s, k, b), b)} ::
      RightAt(program, m, PlaceOf(program, s, k, b), b)
  }

  /** Inputs are of the operations that write them last in program order. */
  ghost predicate InputsRight(program: Program, s: seq<HeapElement>, k: nat)
    requires k < |s|
  {
    s[k].IsOriginalOp() && s[k].op < |program.tasks| ==>
      forall b :: b in program.tasks[s[k].op].inputs ==>
        && WriterBefore(program, s[k].op, b) < s[k].op
        && PlaceOf(program, s, k, b) == InMemory(WriterBefore(program, s[k].op, b))
  }

  lemma SeenIsRight(program: Program, s: seq<HeapElement>, k: nat, m: Memory)
    requires k < |s| && s[k].IsOriginalOp() && AllRight(program, s, k, m) && InputsRight(program, s, k)
    requires CanStep(program, m, s[k])
    ensures Content(s[k].op, Seen(program, m, s[k].op)) == Computed(program, s[k].op)
  {
    hide PlaceOf, WriterBefore;
    var o := s[k].op;
    forall b | b in program.tasks[o].inputs
      ensures m.buffers[b] == Computed(program, WriterBefore(program, o, b))
    {
      assert RightAt(program, m, PlaceOf(program, s, k, b), b);
    }
    assert Seen(program, m, o) == Computed(program, o).args;
  }

  lemma RightNext(program: Program, s: seq<HeapElement>, k: nat, m: Memory)
    requires k < |s| && AllRight(program, s, k, m) && Playable(program, s, k) && CanStep(program, m, s[k])
    requires s[k].IsOriginalOp() ==> Content(s[k].op, Seen(program, m, s[k].op)) == Computed(program, s[k].op)
    ensures AllRight(program, s, k + 1, Step(program, m, s[k]))
  {
    hide Computed, Seen, WriterBefore;
    var next := k + 1;
    assert RightAt(program, m, PlaceOf(program, s, k, s[k].buffer), s[k].buffer);
    forall b
      ensures RightAt(program, Step(program, m, s[k]), PlaceOf(program, s, next, b), b)
    {
      assert RightAt(program, m, PlaceOf(program, s, k, b), b);
    }
  }

  lemma {:induction false} RunReadsRight(program: Program, s: seq<HeapElement>, k: nat, m: Memory)
    requires k <= |s| && Runs(program, s, k, m) && AllRight(program, s, k, m) && AllPlayable(program, s)
    requires forall j {:trigger InputsRight(program, s, j)} :: 0 <= j < |s| ==> InputsRight(program, s, j)
    ensures ReadsRight(program, Reads(program, s, k, m))
    decreases |s| - k
  {
    hide AllRight, Playable, InputsRight, Step, CanStep, Seen, Computed;
    if k < |s| {
      assert Playable(program, s, k) && InputsRight(program, s, k);
      if s[k].IsOriginalOp() {
        SeenIsRight(program, s, k, m);
      }
      RightNext(program, s, k, m);
      RunReadsRight(program, s, k + 1, Step(program, m, s[k]));
      OneReadRight(program, s, k, m);
      RightAppended(program, ReadsOne(program, m, s[k]), Reads(program, s, k + 1, Step(program, m, s[k])));
    }
  }

  lemma OneReadRight(program: Program, s: seq<HeapElement>, k: nat, m: Memory)
    requires k < |s| && CanStep(program, m, s[k])
    requires s[k].IsOriginalOp() ==> Content(s[k].op, Seen(program, m, s[k].op)) == Computed(program, s[k].op)
    ensures ReadsRight(program, ReadsOne(program, m, s[k]))
  {
    hide Computed, Seen;
  }

  lemma RightAppended(program: Program, a: seq<(nat, map<nat, Content>)>, b: seq<(nat, map<nat, Content>)>)
    requires ReadsRight(program, a) && ReadsRight(program, b)
    ensures ReadsRight(program, a + b)
  {
    hide Computed;
  }

  lemma NothingWrong(program: Program, s: seq<HeapElement>)
    ensures AllRight(program, s, 0, Memory(map[], map[]))
  {
  }

  /** Every operation of a sorted schedule finds in its input buffers what it would find in program order. */
  lemma ScheduleMeansProgram(program: Program, pushed: seq<HeapElement>, schedule: seq<HeapElement>)
    requires Reordered(program, pushed, schedule) && program.WellFormed() && InputsWritten(program)
    requires ConflictsOrdered(program)
    requires EachOnce(program, schedule) && InDependencyOrder(program, schedule)
    requires Runs(program, schedule, 0, Memory(map[], map[]))
    ensures ReadsRight(program, Reads(program, schedule, 0, Memory(map[], map[])))
  {
    hide Reordered, Program.WellFormed, InputsWritten, ConflictsOrdered, EachOnce, InDependencyOrder, AllPlayable,
      Runs, Reads, ReadsRight, WriterBefore,
      PlaceOf;
    ScheduleIsPlayable(program, pushed, schedule);
    forall j | 0 <= j < |schedule|
      ensures InputsRight(program, schedule, j)
    {
      EntryFindsRight(program, schedule, j);
    }
    NothingWrong(program, schedule);
    RunReadsRight(program, schedule, 0, Memory(map[], map[]));
  }

  lemma EntryFindsRight(program: Program, schedule: seq<HeapElement>, j: nat)
    requires program.WellFormed() && InputsWritten(program) && ConflictsOrdered(program)
    requires AllPlayable(program, schedule)
    requires EachOnce(program, schedule) && InDependencyOrder(program, schedule) && j < |schedule|
    ensures InputsRight(program, schedule, j)
  {
    hide Program.WellFormed, InputsWritten, ConflictsOrdered, EachOnce, InDependencyOrder, WriterBefore, PlaceOf;
    assert Playable(program, schedule, j);
    if schedule[j].IsOriginalOp() {
      forall b | b in program.tasks[schedule[j].op].inputs
        ensures WriterBefore(program, schedule[j].op, b) < schedule[j].op
        ensures PlaceOf(program, schedule, j, b) == InMemory(WriterBefore(program, schedule[j].op, b))
      {
        InputHasWriter(program, schedule[j].op, b);
        WriterIsRight(program, schedule, j, b);
      }
    }
  }

  // Runs of the scheduler

  lemma TimeLineIsOrderly(program: Program, s: Snapshot)
    requires Good(program, s, {}, {}) && TakesTime(program)
    ensures Orderly(program, s.line.pushed) && AllShaped(program, s.line.clocks, s.line.pushed)
  {
    hide Consistent, InFlight, SpillState.Matches, QueuesReady, Program.BuffersWritten, BuffersKept, Emitted,
      GoodSchedule, TablesRecorded, Located,
      BuffersFound, ReadsDone, NothingLost, ReadsApart;
    forall i | 0 <= i < |s.line.pushed|
      ensures s.line.pushed[i].cycleBegin < s.line.pushed[i].cycleEnd && s.line.pushed[i].mask != {}
      ensures s.line.pushed[i].op < |program.tasks|
    {
      assert Busy(s.line.clocks, s.line.pushed[i]) && Shaped(program, s.line.clocks, s.line.pushed[i]);
    }
  }

  /** The sorted schedule of a finished run can be cleaned up and means what the program means. */
  lemma RunMeansProgram(program: Program, s: Snapshot, schedule: seq<HeapElement>)
    requires Good(program, s, {}, {}) && program.WellFormed() && Sorted(schedule)
    requires multiset(schedule) == multiset(s.line.pushed)
    requires TakesTime(program) && InputsWritten(program) && EachOnce(program, schedule)
    requires InDependencyOrder(program, schedule)
    ensures LoadsFromOutside(program) ==>
      Cleanable(program, schedule) && StrictlyRuns(program, schedule, 0, Memory(map[], map[]))
    ensures ConflictsOrdered(program) ==> MeansProgram(program, schedule)
  {
    hide Good, Program.WellFormed, InputsWritten, LoadsFromOutside, ConflictsOrdered, Sorted, InDependencyOrder,
      Cleanable, StrictlyRuns, TakesTime,
      Orderly, AllShaped, Runs, Reads, ReadsRight, HasOriginal, OnceEach;
    TimeLineIsOrderly(program, s);
    ScheduleIsPlayable(program, s.line.pushed, schedule);
    NothingHeld(program, schedule);
    PlayableRuns(program, schedule, 0, Memory(map[], map[]));
    StrictlyRunsRuns(program, schedule, 0, Memory(map[], map[]));
    if LoadsFromOutside(program) {
      ScheduleRuns(program, s.line.clocks, s.line.pushed, schedule);
    }
    if ConflictsOrdered(program) {
      ScheduleMeansProgram(program, s.line.pushed, schedule);
    }
  }
}
