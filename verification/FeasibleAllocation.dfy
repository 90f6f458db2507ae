/** The pass that schedules operations in a memory of limited size and cleans up the spills of the
    schedule: what comes out means what the program means. */
module FeasibleAllocation {
  import opened AsyncDeps
  import opened BarrierInfoModule
  import opened ScheduleProgram
  import opened TimelineModule
  import opened SchedulerState
  import opened SchedulerSteps
  import opened ScheduleOrder
  import opened SpillReplay
  import opened DataOpSpills
  import opened SpillWaste
  import opened SpillOptimization
  import opened ScheduleReplay
  import opened ScheduleMeaning
  import opened FeasibleMemorySchedulerModule

  ghost predicate ReadsOf(found: seq<(nat, map<nat, Content>)>, o: nat) {
    exists i :: 0 <= i < |found| && found[i].0 == o
  }

  ghost predicate RunsFrom(s: seq<HeapElement>, k: nat, o: nat) {
    exists j :: k <= j < |s| && s[j].IsOriginalOp() && s[j].op == o
  }

  lemma ReadsOfAppended(a: seq<(nat, map<nat, Content>)>, b: seq<(nat, map<nat, Content>)>, o: nat)
    ensures ReadsOf(a + b, o) <==> ReadsOf(a, o) || ReadsOf(b, o)
  {
    if ReadsOf(a, o) {
      var i :| 0 <= i < |a| && a[i].0 == o;
      assert (a + b)[i].0 == o;
    }
    if ReadsOf(b, o) {
      var i :| 0 <= i < |b| && b[i].0 == o;
      assert (a + b)[|a| + i].0 == o;
    }
  }

  /** The operations that read are those of the original entries that have inputs. */
  lemma {:induction false} ReadersRun(program: Program, s: seq<HeapElement>, k: nat, m: Memory, o: nat)
    requires k <= |s| && Runs(program, s, k, m)
    ensures ReadsOf(Reads(program, s, k, m), o) <==>
      o < |program.tasks| && program.tasks[o].inputs != {} && RunsFrom(s, k, o)
    decreases |s| - k
  {
    hide Seen, Step;
    if k < |s| {
      ReadersRun(program, s, k + 1, Step(program, m, s[k]), o);
      ReadsOfAppended(ReadsOne(program, m, s[k]), Reads(program, s, k + 1, Step(program, m, s[k])), o);
      RunsFromNext(s, k, o);
      assert ReadsOf(ReadsOne(program, m, s[k]), o) <==>
        s[k].IsOriginalOp() && program.tasks[s[k].op].inputs != {} && s[k].op == o by {
        if s[k].IsOriginalOp() && program.tasks[s[k].op].inputs != {} {
          assert ReadsOne(program, m, s[k])[0].0 == s[k].op;
        }
      }
    }
  }

  lemma RunsFromNext(s: seq<HeapElement>, k: nat, o: nat)
    requires k < |s|
    ensures RunsFrom(s, k, o) <==> RunsFrom(s, k + 1, o) || (s[k].IsOriginalOp() && s[k].op == o)
  {
  }

  /** Schedules with equal reads have the same operations that read anything. */
  lemma ReadersStay(program: Program, schedule: seq<HeapElement>, cleaned: seq<HeapElement>, o: nat)
    requires Runs(program, schedule, 0, Memory(map[], map[])) && Runs(program, cleaned, 0, Memory(map[], map[]))
    requires Reads(program, cleaned, 0, Memory(map[], map[])) == Reads(program, schedule, 0, Memory(map[], map[]))
    requires o < |program.tasks| && program.tasks[o].inputs != {} && HasOriginal(schedule, o)
    ensures HasOriginal(cleaned, o)
  {
    hide Runs, Reads;
    ReadersRun(program, schedule, 0, Memory(map[], map[]), o);
    ReadersRun(program, cleaned, 0, Memory(map[], map[]), o);
    assert RunsFrom(schedule, 0, o);
  }

  /** `cleaned` is what the two clean-ups make of a schedule. */
  ghost predicate BothCleaned(program: Program, schedule: seq<HeapElement>, cleaned: seq<HeapElement>) {
    && program.WellFormed() && TasksOnly(program, schedule)
    && exists optimized :: Kept(program, schedule, 0, optimized) && CleanedUp(program, optimized, cleaned)
  }

  /** The schedule of a program, with its spills cleaned up when that is asked for.  Every operation
      that reads anything runs exactly once, whatever it finds has been left by an operation that
      runs exactly once before it, and when conflicting operations depend on each other it is what
      it would find in program order. */
  method ScheduleAndCleanUp(scheduler: FeasibleMemoryScheduler, depsInfo: AsyncDepsInfo, optimizeDynamicSpilling: bool)
    returns (outcome: Outcome, scheduledOps: seq<HeapElement>, ghost schedule: seq<HeapElement>)
    requires scheduler.Fresh() && scheduler.program.WellFormed() && scheduler.program.BuffersWritten()
    requires QueuesReady(scheduler.program, scheduler.line.clocks)
    requires depsInfo.Valid() && depsInfo.depsMap == scheduler.program.deps && depsInfo.consumerMap == []
    requires scheduler.liveRangeInfo.Valid()
    requires forall o :: 0 <= o < |scheduler.program.tasks| ==>
      scheduler.liveRangeInfo.GetUsedBuffers(o) == scheduler.program.tasks[o].used
    requires Replayable(scheduler.program, |scheduler.line.clocks[scheduler.program.readQueue]|)
    requires LoadsFromOutside(scheduler.program)
    modifies scheduler, depsInfo, scheduler.liveRangeInfo
    ensures outcome == Done ==>
      EachOnce(scheduler.program, schedule) && InDependencyOrder(scheduler.program, schedule) && Sorted(schedule)
    ensures outcome == Done ==> if optimizeDynamicSpilling then
      BothCleaned(scheduler.program, schedule, scheduledOps) else scheduledOps == schedule
    ensures outcome == Done ==> Runs(scheduler.program, scheduledOps, 0, Memory(map[], map[]))
    ensures outcome == Done ==> OnceEach(scheduledOps) && AllSourcesAhead(scheduler.program, scheduledOps)
    ensures outcome == Done ==> forall o ::
      0 <= o < |scheduler.program.tasks| && scheduler.program.tasks[o].inputs != {} ==> HasOriginal(scheduledOps, o)
    ensures outcome == Done && ConflictsOrdered(scheduler.program) ==> MeansProgram(scheduler.program, scheduledOps)
    ensures outcome.Thrown? ==>
      scheduler.program.tasks == [] ||
      Failure(scheduler.program, outcome.message, scheduler.Refused(old(scheduler.asked)))
    ensures (forall n :: scheduler.answers(n)) && scheduler.program.tasks != [] ==> outcome == Done
  {
    hide Program.WellFormed, Program.BuffersWritten, QueuesReady, Replayable, LoadsFromOutside, ConflictsOrdered,
      Failure, DataBuffersPrivate, Cleanable, StrictlyRuns, Runs,
      Reads, ReadsRight, OnceEach, AllSourcesAhead, GoodSchedule, InDependencyOrder, Sorted, HasOriginal, Kept,
      CleanedUp;
    outcome, scheduledOps := scheduler.GenerateSchedule(depsInfo);
    schedule := scheduledOps;
    if outcome.Thrown? {
      return;
    }
    var program := scheduler.program;
    StrictlyRunsRuns(program, schedule, 0, Memory(map[], map[]));
    RunHasSources(program, schedule);
    if optimizeDynamicSpilling {
      scheduledOps := CleanUpSpills(program, scheduledOps);
      CleanableTasks(program, schedule);
      forall o | 0 <= o < |program.tasks| && program.tasks[o].inputs != {}
        ensures HasOriginal(scheduledOps, o)
      {
        ReadersStay(program, schedule, scheduledOps, o);
      }
    }
  }
}
