/** The order of the finished schedule: by begin cycle, then end cycle, then operation. */
module ScheduleOrder {
  import opened ScheduleProgram
  import opened TimelineModule

  predicate Earlier(a: HeapElement, b: HeapElement) {
    if a.cycleBegin != b.cycleBegin then a.cycleBegin < b.cycleBegin
    else if a.cycleEnd != b.cycleEnd then a.cycleEnd < b.cycleEnd
    else a.op < b.op
  }

  ghost predicate Sorted(schedule: seq<HeapElement>) {
    forall i, j :: 0 <= i < j < |schedule| ==> !Earlier(schedule[j], schedule[i])
  }

  /** Every operation is there exactly once. */
  ghost predicate EachOnce(program: Program, schedule: seq<HeapElement>) {
    && (forall o :: 0 <= o < |program.tasks| ==> HasOriginal(schedule, o))
    && OnceEach(schedule)
  }

  /** Operations come after all their dependencies, in the schedule and in time. */
  ghost predicate InDependencyOrder(program: Program, schedule: seq<HeapElement>) {
    forall j {:trigger DepsDone(program, schedule, j)} :: 0 <= j < |schedule| && schedule[j].IsOriginalOp() ==>
      DepsDone(program, schedule, j)
  }

  /** Insertion sort; entries with equal times and operations may come in any order. */
  method SortSchedule(ops: seq<HeapElement>) returns (sorted: seq<HeapElement>)
    ensures Sorted(sorted) && multiset(sorted) == multiset(ops)
  {
    sorted := [];
    var i := 0;
    while i < |ops|
      invariant i <= |ops| && Sorted(sorted) && multiset(sorted) == multiset(ops[..i])
    {
      var p := 0;
      while p < |sorted| && !Earlier(ops[i], sorted[p])
        invariant p <= |sorted| && forall k :: 0 <= k < p ==> !Earlier(ops[i], sorted[k])
      {
        p := p + 1;
      }
      InsertSorted(sorted, ops[i], p);
      assert ops[..i + 1] == ops[..i] + [ops[i]];
      sorted := sorted[..p] + [ops[i]] + sorted[p..];
      i := i + 1;
    }
    assert ops[..i] == ops;
  }

  lemma InsertSorted(sorted: seq<HeapElement>, e: HeapElement, p: nat)
    requires Sorted(sorted) && p <= |sorted| && (forall k :: 0 <= k < p ==> !Earlier(e, sorted[k]))
    requires (p < |sorted| ==> Earlier(e, sorted[p]))
    ensures Sorted(sorted[..p] + [e] + sorted[p..])
    ensures multiset(sorted[..p] + [e] + sorted[p..]) == multiset(sorted) + multiset{e}
  {
    assert sorted == sorted[..p] + sorted[p..];
    forall k | p <= k < |sorted|
      ensures !Earlier(sorted[k], e)
    {
      assert k > p ==> !Earlier(sorted[k], sorted[p]);
    }
  }

  lemma Position(s: seq<HeapElement>, t: seq<HeapElement>, e: HeapElement)
    requires multiset(s) == multiset(t)
    ensures e in s <==> e in t
  {
    assert e in multiset(s) <==> e in multiset(t);
  }

  /** Sorting keeps each operation once. */
  lemma SortedOnce(done: seq<HeapElement>, schedule: seq<HeapElement>)
    requires OnceEach(done) && multiset(schedule) == multiset(done)
    ensures OnceEach(schedule)
  {
    forall i, j | 0 <= i < j < |schedule| && schedule[i].IsOriginalOp() && schedule[j].IsOriginalOp()
      ensures schedule[i].op != schedule[j].op
    {
      Position(schedule, done, schedule[i]);
      Position(schedule, done, schedule[j]);
      var x :| 0 <= x < |done| && done[x] == schedule[i];
      var y :| 0 <= y < |done| && done[y] == schedule[j];
      if x == y {
        TwiceIn(schedule, i, j);
        OnceIn(done, x);
      }
    }
  }

  lemma TwiceIn(s: seq<HeapElement>, i: nat, j: nat)
    requires i < j < |s| && s[i] == s[j]
    ensures multiset(s)[s[i]] >= 2
  {
    assert s == s[..j] + [s[j]] + s[j + 1..];
    assert s[..j] == s[..i] + [s[i]] + s[i + 1..j];
  }

  lemma OnceIn(done: seq<HeapElement>, x: nat)
    requires OnceEach(done) && x < |done| && done[x].IsOriginalOp()
    ensures multiset(done)[done[x]] == 1
  {
    assert done == done[..x] + [done[x]] + done[x + 1..];
    assert done[x] !in done[..x];
    assert done[x] !in done[x + 1..];
  }

  /** Sorting by time puts dependencies first: they end before the operation begins, and when both
      take no time they have the lower index. */
  lemma SortedIsComplete(program: Program, pushed: seq<HeapElement>, done: seq<HeapElement>, schedule: seq<HeapElement>)
    requires program.WellFormed() && GoodSchedule(program, pushed) && OnceEach(done) && Sorted(schedule)
    requires multiset(schedule) == multiset(done)
    requires (forall e :: e in done ==> e in pushed)
    requires forall e :: e in pushed ==> e.cycleBegin <= e.cycleEnd && (e.IsOriginalOp() ==> e in done)
    requires forall o {:trigger HasOriginal(done, o)} :: 0 <= o < |program.tasks| ==> HasOriginal(done, o)
    ensures EachOnce(program, schedule) && InDependencyOrder(program, schedule)
    ensures forall e :: e in schedule ==> e in pushed
  {
    hide GoodSchedule, Program.WellFormed;
    forall e
      ensures e in schedule <==> e in done
    {
      Position(schedule, done, e);
    }
    SortedOnce(done, schedule);
    forall o: nat | o < |program.tasks|
      ensures HasOriginal(schedule, o)
    {
      assert HasOriginal(done, o);
      var x :| 0 <= x < |done| && done[x].IsOriginalOp() && done[x].op == o;
      assert done[x] in schedule;
    }
    forall j | 0 <= j < |schedule| && schedule[j].IsOriginalOp()
      ensures DepsDone(program, schedule, j)
    {
      DependenciesEarlier(program, pushed, schedule, j);
    }
  }

  lemma DependenciesEarlier(program: Program, pushed: seq<HeapElement>, schedule: seq<HeapElement>, j: nat)
    requires program.WellFormed() && GoodSchedule(program, pushed) && Sorted(schedule) && j < |schedule|
    requires schedule[j].IsOriginalOp() && schedule[j] in pushed
    requires forall e :: e in pushed ==> e.cycleBegin <= e.cycleEnd && (e.IsOriginalOp() ==> e in schedule)
    ensures DepsDone(program, schedule, j)
  {
    hide InTurn, SpillWritesDone, SpillsAfterUse, ReadsFresh;
    var k :| 0 <= k < |pushed| && pushed[k] == schedule[j];
    assert DepsDone(program, pushed, k);
    forall d | d in program.deps[schedule[j].op]
      ensures DoneBefore(schedule, d, j)
    {
      assert DoneBefore(pushed, d, k);
      var m :| 0 <= m < k && pushed[m].IsOriginalOp() && pushed[m].op == d &&
        pushed[m].cycleEnd <= pushed[k].cycleBegin;
      assert pushed[m] in schedule;
      var i :| 0 <= i < |schedule| && schedule[i] == pushed[m];
      assert d < schedule[j].op;
      assert Earlier(schedule[i], schedule[j]);
      assert i < j;
    }
  }
}
