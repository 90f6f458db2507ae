/** When prefetching finds a candidate gone: all that has been spilled for it was brought in for data
    operations that were prefetched before it. */
module GoneCandidates {
  import opened Reachability
  import opened DependencyReduction
  import opened ScheduleProgram
  import opened TimelineModule
  import opened SchedulerState
  import opened SchedulerSteps
  import opened SequentialRun
  import opened ScheduleMeaning

  /** Whatever prefetching the ready data operations leaves behind: an operation of which they use all
      that was spilled is no candidate any more. */
  lemma OvertakenIsGone(program: Program, before: Snapshot, after: Snapshot, pending: set<nat>, ops: set<nat>, c: nat)
    requires Good(program, before, pending, {}) && Good(program, after, pending, {})
    requires OvertakenBy(program, before, ops, c) && ops <= before.ready.data
    requires Later(before, after, UsedByAll(program, ops)) && after.ready.data <= before.ready.data
    ensures c !in after.ready.data && c !in after.spills.spillBuffers
  {
    hide Good, ClocksGrow, UsedByAll;
    SpilledAreOutputs(program, before, pending, c);
    GoodParts(program, before, pending, {});
    ListsApart(program, before.ready, pending);
    GoneExactlyWhenCovered(program, before, after, pending, UsedByAll(program, ops), c);
  }

  // Programs in which this can happen

  /** The operations that do not depend on `d`. */
  ghost function NotAfter(program: Program, d: nat): set<nat> {
    set o: nat | o < |program.tasks| && o != d && !Reaches(DepEdges(program.deps), d, o)
  }

  lemma NotAfterIsClosed(program: Program, d: nat)
    requires program.WellFormed() && d < |program.tasks|
    ensures Closed(program, NotAfter(program, d)) && d in ReadyAfter(program, NotAfter(program, d))
    ensures Below(NotAfter(program, d), |program.tasks|) == NotAfter(program, d)
  {
    var edges := DepEdges(program.deps);
    EdgesIncrease(program.deps);
    forall o: nat, a: nat | o < |program.tasks| && a in program.deps[o]
      ensures a < o && (ReachesOrIs(edges, d, a) ==> Reaches(edges, d, o))
    {
      EdgeReaches(edges, a, o);
      if ReachesOrIs(edges, d, a) {
        ChainReaches(edges, d, a, o);
      }
    }
    forall o, a | o in NotAfter(program, d) && a in program.deps[o]
      ensures a in NotAfter(program, d)
    {
      assert !ReachesOrIs(edges, d, a);
    }
    forall a | a in program.deps[d]
      ensures a in NotAfter(program, d)
    {
      if Reaches(edges, d, a) {
        ReachesIncreases(edges, d, a);
      }
    }
  }

  lemma ReadyData(program: Program, done: set<nat>, d: nat)
    requires program.WellFormed() && d in ReadyAfter(program, done) && d < |program.tasks| && program.IsDataOp(d)
    ensures d in ListedAfter(program, done).data
  {
    hide Program.IsDataOp;
  }

  lemma NothingSpilledYet(program: Program, s: Snapshot)
    requires Good(program, s, {}, {}) && s.spills.readySpilled == map[]
    ensures s.spills.spillBuffers == map[] && s.spills.dynamicSpill == {}
  {
    hide Good;
    SpillsApart(program, s, {}, {});
    forall p | p in s.spills.spillBuffers
      ensures false
    {
      SpilledBuffersOf(program, s, {}, {}, p);
    }
  }

  /** When an operation writes a buffer of a data operation on which it does not depend, steps that keep the
      invariant lead to a state in which the data operation is ready and uses all that is spilled for another one. */
  lemma IntruderOvertaken(program: Program, d: nat, p: nat, b: nat) returns (s: Snapshot, c: nat)
    requires program.WellFormed() && program.BuffersWritten() && d < |program.tasks| && p < |program.tasks|
    requires Intrudes(program, p, d) && b in program.tasks[d].used && b in program.tasks[p].outputs
    ensures Good(program, s, {}, {}) && s.begin == s.end == {} && d in s.ready.data && c != d
    ensures OvertakenBy(program, s, {d}, c) && Overtaken(program, s)
  {
    hide Good, Program.WellFormed, Program.BuffersWritten, Program.IsDataOp, ListedAfter, ReadyAfter, Closed, NotAfter,
      Below, Even;
    var done, n := NotAfter(program, d), |program.tasks|;
    NotAfterIsClosed(program, d);
    ReadyData(program, done, d);
    IntruderIsNotAfter(program, d, p);
    var ran, cycle := RunAll(program, 1, done, n);
    NothingSpilledYet(program, ran);
    var next;
    s, next := WriteOut(program, ran, done, 1, cycle, b);
    c := ran.line.producer[b];
    assert {} + {b} == {b} && s.spills.spillBuffers == map[c := {b}];
    assert UsedByAll(program, {d}) == program.tasks[d].used;
    assert {d} <= s.ready.data && UsedByAll(program, {d}) <= UsedByAll(program, s.ready.data);
    assert OvertakenBy(program, s, s.ready.data, c);
    SpilledAreOutputs(program, s, {}, c);
    DataOpReady(program, s, {}, d);
  }

  lemma IntruderIsNotAfter(program: Program, d: nat, p: nat)
    requires program.WellFormed() && d < |program.tasks| && p < |program.tasks| && Intrudes(program, p, d)
    ensures p in NotAfter(program, d) && program.IsDataOp(d)
  {
    hide Program.IsDataOp, Program.WellFormed;
  }

  /** Exactly when no operation writes a buffer of a data operation on which it does not depend, no state
      that keeps the invariant lets ready data operations take away another candidate. */
  lemma PrivateIsExact(program: Program)
    requires program.WellFormed() && program.BuffersWritten()
    ensures DataBuffersPrivate(program) <==> forall s :: Good(program, s, {}, {}) ==> !Overtaken(program, s)
  {
    hide Good, Program.WellFormed, Program.BuffersWritten, Overtaken;
    if DataBuffersPrivate(program) {
      forall s | Good(program, s, {}, {})
        ensures !Overtaken(program, s)
      {
        if Overtaken(program, s) {
          PrivateNotOvertaken(program, s, {});
        }
      }
    } else {
      var d: nat, p: nat :| d < |program.tasks| && p < |program.tasks| && Intrudes(program, p, d);
      var b :| b in program.tasks[d].used && b in program.tasks[p].outputs;
      var s, c := IntruderOvertaken(program, d, p, b);
    }
  }

  /** Among states in which something is about to be scheduled, as it is when prefetching begins, there is
      such a state too whenever a second buffer is written without the data operation. */
  lemma IntruderOvertakenInFlight(program: Program, d: nat, p: nat, b: nat, r: nat, y: nat)
    returns (s: Snapshot, c: nat)
    requires program.WellFormed() && program.BuffersWritten() && d < |program.tasks| && p < |program.tasks|
    requires Intrudes(program, p, d) && b in program.tasks[d].used && b in program.tasks[p].outputs
    requires r < |program.tasks| && r in NotAfter(program, d) && y in program.tasks[r].outputs && y != b
    ensures Good(program, s, {}, {}) && s.begin != {} && NoSpillWrites(s.begin) && d in s.ready.data && c != d
    ensures OvertakenBy(program, s, {d}, c) && Overtaken(program, s)
  {
    hide Good, Program.WellFormed, Program.BuffersWritten, Program.IsDataOp, ListedAfter, ReadyAfter, Closed, NotAfter,
      Below, CanReadBack, Pushed, Advance;
    var done, n := NotAfter(program, d), |program.tasks|;
    NotAfterIsClosed(program, d);
    ReadyData(program, done, d);
    IntruderIsNotAfter(program, d, p);
    var ran, cycle := RunAll(program, 1, done, n);
    NothingSpilledYet(program, ran);
    var one, second := WriteOut(program, ran, done, 1, cycle, b);
    var two, third := WriteOut(program, one, done, 1, second, y);
    c := ran.line.producer[b];
    var w := ran.line.producer[y];
    SpilledFacts(program, two, {}, {}, y);
    var e := ReadAt(program, two, w, y, third, 0);
    ReadsNow(program, two, w, y, third, 0);
    ReadKeeps(program, two, e);
    s := AfterSpillRead(program, two, e);
    AloneInHeap(e);
    assert {} + {b} == {b} && {b} + {y} - {y} == {b} && s.spills.spillBuffers[c] == {b};
    assert UsedByAll(program, {d}) == program.tasks[d].used;
    assert {d} <= s.ready.data && UsedByAll(program, {d}) <= UsedByAll(program, s.ready.data);
    assert OvertakenBy(program, s, s.ready.data, c);
    SpilledAreOutputs(program, s, {}, c);
    DataOpReady(program, s, {}, d);
  }

  /** When conflicting operations depend on each other, only earlier writers of its buffers matter to a
      data operation. */
  lemma PrivateWhenOrdered(program: Program)
    requires program.WellFormed() && ConflictsOrdered(program)
    requires forall d :: 0 <= d < |program.tasks| && program.IsDataOp(d) ==>
      program.tasks[d].used == program.tasks[d].inputs + program.tasks[d].outputs
    ensures DataBuffersPrivate(program) <==> forall d: nat, p: nat ::
      p < d < |program.tasks| && program.IsDataOp(d) ==> program.tasks[d].used !! program.tasks[p].outputs
  {
    hide Program.IsDataOp;
    EdgesIncrease(program.deps);
    forall d: nat, p: nat | d < |program.tasks| && p < |program.tasks| && program.IsDataOp(d) && d != p
      ensures Intrudes(program, p, d) <==> p < d && !(program.tasks[d].used !! program.tasks[p].outputs)
    {
      if Reaches(DepEdges(program.deps), d, p) {
        ReachesIncreases(DepEdges(program.deps), d, p);
      }
      if b :| b in program.tasks[d].used && b in program.tasks[p].outputs && d < p {
        assert Conflict(program, d, p, b);
      }
    }
  }

  // One such program

  /** Operation 0 writes a buffer that operation 1 reads and data operation 2 then loads again, for operation 4;
      operation 3 has nothing to do with it. */
  const LOADED_AGAIN: Program :=
    Program([Task(Compute, 0, false, false, 100, {}, {0}, {0}), Task(Compute, 0, false, false, 50, {0}, {1}, {0, 1}),
             Task(DmaNN, 3, false, true, 20, {}, {0}, {0}), Task(Compute, 0, false, false, 70, {}, {2}, {2}),
             Task(Compute, 0, false, false, 60, {0}, {3}, {0, 3})],
            [{}, {0}, {1}, {}, {2}], [{1}, {2}, {4}, {}, {}], [20, 30, 10, 40], [false, false, false, false], 1, 2)

  lemma LoadedAgainIsWellFormed()
    ensures LOADED_AGAIN.WellFormed() && LOADED_AGAIN.IsDataOp(2)
  {
  }

  lemma LoadedAgainIsLegal()
    ensures LOADED_AGAIN.WellFormed() && LOADED_AGAIN.BuffersWritten() && LOADED_AGAIN.IsDataOp(2)
    ensures ConflictsOrdered(LOADED_AGAIN) && Intrudes(LOADED_AGAIN, 0, 2)
  {
    hide Program.IsDataOp;
    LoadedAgainIsWellFormed();
    var p := LOADED_AGAIN;
    assert p.WrittenBy(0, 0) && p.WrittenBy(2, 0) && 0 in p.deps[1] && 2 in p.deps[4];
    var edges := DepEdges(p.deps);
    EdgeReaches(edges, 0, 1);
    EdgeReaches(edges, 1, 2);
    EdgeReaches(edges, 2, 4);
    ReachesTransitive(edges, 0, 1, 2);
    ReachesTransitive(edges, 0, 2, 4);
    ReachesTransitive(edges, 1, 2, 4);
    EdgesIncrease(p.deps);
    if Reaches(edges, 2, 0) {
      ReachesIncreases(edges, 2, 0);
    }
    assert 0 in p.tasks[2].used && 0 in p.tasks[0].outputs;
  }

  lemma LoadedAgainLists()
    requires LOADED_AGAIN.WellFormed() && LOADED_AGAIN.IsDataOp(2)
    ensures ListedAfter(LOADED_AGAIN, AllOps(2)).data - {3} == {2} && 3 in ReadyAfter(LOADED_AGAIN, AllOps(2))
  {
    hide Program.WellFormed;
    assert forall o :: o in ReadyAfter(LOADED_AGAIN, AllOps(2)) <==> o == 2 || o == 3;
  }

  lemma AfterOpKeeps(program: Program, s: Snapshot, next: Snapshot, e: HeapElement)
    requires e.IsOriginalOp() && e.op < |program.tasks|
    requires next == AfterOp(program, s.(spills := s.spills.(alive := s.spills.alive + program.tasks[e.op].used)), e)
    ensures next.ready.data == s.ready.data - {e.op} && next.spills.spillBuffers == s.spills.spillBuffers
  {
    hide Pushed, Advance, InsertByBegin;
  }

  lemma FirstWriter(s: Snapshot)
    requires LOADED_AGAIN.WellFormed() && Good(LOADED_AGAIN, s, {}, {}) && s.ready.scheduled == AllOps(2)
    requires 0 in s.line.producer
    ensures s.line.producer[0] == 0
  {
    hide Good, Program.WellFormed;
    WriterFacts(LOADED_AGAIN, s, {}, {}, 0);
    GoodParts(LOADED_AGAIN, s, {}, {});
  }

  /** Operations 0 and 1 have run and buffer 0 has been spilled; operation 3 is about to be scheduled. */
  lemma BeforePrefetch() returns (s: Snapshot)
    ensures Good(LOADED_AGAIN, s, {}, {}) && s.begin != {} && NoSpillWrites(s.begin)
    ensures s.ready.data == {2} && s.spills.spillBuffers == map[0 := {0}]
  {
    hide Good, Program.WellFormed, Program.BuffersWritten, Program.IsDataOp, AfterOp, ListedAfter, ReadyAfter, Closed,
      ConflictsOrdered, Intrudes;
    LoadedAgainIsLegal();
    AllOpsClosed(LOADED_AGAIN, 2);
    var ran, cycle := RunAll(LOADED_AGAIN, 1, AllOps(2), 2);
    assert 0 in Below(AllOps(2), 2);
    NothingSpilledYet(LOADED_AGAIN, ran);
    ListedNow(LOADED_AGAIN, AllOps(2));
    FirstWriter(ran);
    var spilled, next := WriteOut(LOADED_AGAIN, ran, AllOps(2), 1, cycle, 0);
    assert {} + {0} == {0} && spilled.spills.spillBuffers == map[0 := {0}];
    LoadedAgainLists();
    s := PutOn(LOADED_AGAIN, spilled, AllOps(2), 1, next, 3);
    AfterOpKeeps(LOADED_AGAIN, spilled, s, OpAt(LOADED_AGAIN, 3, next));
  }

  /** All conflicts are ordered. Data operation 2 and operation 0 are candidates for prefetching; whatever
      scheduling the first leaves behind, the second is no longer one, and prefetching fails. */
  lemma PrefetchFails() returns (s: Snapshot)
    ensures LOADED_AGAIN.WellFormed() && LOADED_AGAIN.BuffersWritten() && ConflictsOrdered(LOADED_AGAIN)
    ensures Good(LOADED_AGAIN, s, {}, {}) && s.begin != {} && NoSpillWrites(s.begin)
    ensures 2 in s.ready.data && 0 in s.spills.spillBuffers
    ensures forall after ::
      Good(LOADED_AGAIN, after, {}, {}) && after.ready == AfterDeps(s.ready, {2}) &&
      Later(s, after, LOADED_AGAIN.tasks[2].used) ==>
      0 !in after.ready.data && 0 !in after.spills.spillBuffers
  {
    hide Good, Program.WellFormed, Program.BuffersWritten, ConflictsOrdered, Intrudes, Later, NoSpillWrites;
    LoadedAgainIsLegal();
    s := BeforePrefetch();
    assert UsedByAll(LOADED_AGAIN, {2}) == LOADED_AGAIN.tasks[2].used;
    forall after | Good(LOADED_AGAIN, after, {}, {}) && after.ready == AfterDeps(s.ready, {2}) &&
        Later(s, after, LOADED_AGAIN.tasks[2].used)
      ensures 0 !in after.ready.data && 0 !in after.spills.spillBuffers
    {
      assert OvertakenBy(LOADED_AGAIN, s, {2}, 0);
      OvertakenIsGone(LOADED_AGAIN, s, after, {}, {2}, 0);
    }
  }
}
