/** In-degrees and ready lists of the memory scheduler: which operations wait for what. */
module ReadyLists {
  import opened ScheduleProgram
  import opened Sequences

  /** `released` are the operations whose consumers no longer count them. */
  datatype ReadyState = ReadyState(inDegree: map<nat, nat>, compute: set<nat>, dma: set<nat>, data: set<nat>,
                                   scheduled: set<nat>,
                                   released: set<nat>) {
    ghost function Listed(): set<nat> {
      compute + dma + data + scheduled
    }
  }

  /** The in-degree of `o` counts its dependencies outside of `released`; it is erased when the last one goes. */
  ghost predicate Counted(program: Program, inDegree: map<nat, nat>, released: set<nat>, o: nat)
    requires o < |program.deps|
  {
    && (o in inDegree <==> !(program.deps[o] <= released) || program.deps[o] == {})
    && (o in inDegree ==> inDegree[o] == |program.deps[o] - released|)
  }

  /** An operation is listed or about to be when its dependencies have all been released. */
  ghost predicate Unlocked(program: Program, r: ReadyState, pending: set<nat>, o: nat)
    requires o < |program.deps|
  {
    program.deps[o] <= r.released <==> o in r.Listed() || o in pending
  }

  /** An operation is released when it is a data operation that is ready, or another one that has
      been scheduled. */
  ghost predicate ReleasedInTime(program: Program, r: ReadyState)
    requires program.WellFormed()
  {
    forall o :: o in r.released ==> o < |program.tasks| && (o in r.scheduled || (o in r.data && program.IsDataOp(o)))
  }

  ghost predicate RightLists(program: Program, r: ReadyState)
    requires program.WellFormed()
  {
    && (forall o :: o in r.Listed() ==> o < |program.tasks|)
    && (forall o :: o in r.compute ==> o < |program.tasks| && !program.IsDataOp(o) && program.IsComputeOp(o))
    && (forall o :: o in r.dma ==> o < |program.tasks| && !program.IsDataOp(o) && !program.IsComputeOp(o))
    && (forall o :: o in r.data ==> o < |program.tasks| && program.IsDataOp(o))
    && r.compute !! r.scheduled && r.dma !! r.scheduled && r.data !! r.scheduled
  }

  /** The invariant of every run; `pending` are operations about to be put on a list. */
  ghost predicate Consistent(program: Program, r: ReadyState, pending: set<nat>) {
    && program.WellFormed() && RightLists(program, r) && ReleasedInTime(program, r)
    && (forall o :: o in pending ==> o < |program.tasks| && o !in r.Listed())
    && (forall o {:trigger Counted(program, r.inDegree, r.released, o)} :: 0 <= o < |program.tasks| ==>
          Counted(program, r.inDegree, r.released, o))
    && (forall o {:trigger Unlocked(program, r, pending, o)} :: 0 <= o < |program.tasks| ==>
          Unlocked(program, r, pending, o))
  }

  /** Data operations do not depend on each other. */
  lemma DataOpDepsAreNot(program: Program, o: nat, d: nat)
    requires program.WellFormed() && o < |program.tasks| && program.IsDataOp(o) && d in program.deps[o]
    ensures d < o && !program.IsDataOp(d)
  {
  }

  /** Whoever depends on an unreleased operation still counts it. */
  lemma ConsumerCounts(program: Program, r: ReadyState, pending: set<nat>, o: nat, c: nat)
    requires Consistent(program, r, pending) && o < |program.tasks| && c in program.consumers[o] && o !in r.released
    ensures c < |program.tasks| && o in program.deps[c] && c in r.inDegree && r.inDegree[c] >= 1
    ensures c !in r.Listed() && c !in pending
    ensures program.deps[c] <= r.released + {o} <==> r.inDegree[c] < 2
  {
    assert o in program.deps[c];
    assert Counted(program, r.inDegree, r.released, c) && Unlocked(program, r, pending, c);
    var missing := program.deps[c] - r.released;
    assert o in missing;
    assert |missing - {o}| == |missing| - 1;
    assert program.deps[c] <= r.released + {o} <==> missing - {o} == {};
  }

  lemma CountOneLess(program: Program, released: set<nat>, o: nat, c: nat)
    requires c < |program.deps| && o in program.deps[c] && o !in released
    ensures |program.deps[c] - (released + {o})| == |program.deps[c] - released| - 1
  {
    assert program.deps[c] - (released + {o}) == program.deps[c] - released - {o};
  }

  /** Some consumers of `o`, those in `done`, no longer count it; `zero` are those that waited for nothing else. */
  ghost predicate Reducing(program: Program, r: ReadyState, inDegree: map<nat, nat>, o: nat, done: set<nat>,
                           zero: seq<nat>) {
    && |program.deps| == |program.tasks|
    && (forall c {:trigger Counted(program, inDegree, r.released, c)} :: 0 <= c < |program.tasks| && c !in done ==>
          Counted(program, inDegree, r.released, c))
    && (forall c {:trigger Counted(program, inDegree, r.released + {o}, c)} ::
          0 <= c < |program.tasks| && c in done ==> Counted(program, inDegree, r.released + {o}, c))
    && (forall c :: c in zero <==> c in done && c < |program.tasks| && program.deps[c] <= r.released + {o})
    && (forall i, j :: 0 <= i < j < |zero| ==> zero[i] != zero[j])
  }

  function CountDown(inDegree: map<nat, nat>, c: nat): map<nat, nat>
    requires c in inDegree && inDegree[c] >= 1
  {
    if inDegree[c] < 2 then inDegree - {c} else inDegree[c := inDegree[c] - 1]
  }

  lemma CountDownOne(program: Program, r: ReadyState, pending: set<nat>, inDegree: map<nat, nat>, o: nat, c: nat)
    requires Consistent(program, r, pending) && o < |program.tasks| && o !in r.released && c in program.consumers[o]
    requires Counted(program, inDegree, r.released, c)
    ensures c in inDegree && inDegree[c] >= 1 && c < |program.tasks|
    ensures Counted(program, CountDown(inDegree, c), r.released + {o}, c)
    ensures program.deps[c] <= r.released + {o} <==> inDegree[c] < 2
  {
    ConsumerCounts(program, r, pending, o, c);
    assert Counted(program, r.inDegree, r.released, c);
    CountOneLess(program, r.released, o, c);
  }

  lemma CountDownKeeps(program: Program, inDegree: map<nat, nat>, released: set<nat>, c: nat, x: nat)
    requires c in inDegree && inDegree[c] >= 1 && x < |program.deps| && x != c
    ensures Counted(program, CountDown(inDegree, c), released, x) <==> Counted(program, inDegree, released, x)
  {
  }

  lemma ReduceStep(program: Program, r: ReadyState, pending: set<nat>, inDegree: map<nat, nat>, o: nat,
                   done: set<nat>, zero: seq<nat>, c: nat)
    requires Consistent(program, r, pending) && o < |program.tasks| && o !in r.released && c in program.consumers[o]
    requires c !in done
    requires Reducing(program, r, inDegree, o, done, zero)
    ensures c in inDegree && inDegree[c] >= 1
    ensures Reducing(program, r, CountDown(inDegree, c), o, done + {c}, if inDegree[c] < 2 then zero + [c] else zero)
  {
    hide Counted, CountDown, RightLists, ReleasedInTime, Unlocked;
    assert c < |program.tasks|;
    assert Counted(program, inDegree, r.released, c);
    CountDownOne(program, r, pending, inDegree, o, c);
    var next := CountDown(inDegree, c);
    forall x: nat | x < |program.tasks| && x != c
      ensures x !in done ==> Counted(program, next, r.released, x)
      ensures x in done ==> Counted(program, next, r.released + {o}, x)
    {
      assert x !in done ==> Counted(program, inDegree, r.released, x);
      assert x in done ==> Counted(program, inDegree, r.released + {o}, x);
      CountDownKeeps(program, inDegree, r.released, c, x);
      CountDownKeeps(program, inDegree, r.released + {o}, c, x);
    }
    assert c !in zero;
  }

  /** One more operation is released: what this means for operation `c`. */
  lemma ReleasedFor(program: Program, r: ReadyState, pending: set<nat>, inDegree: map<nat, nat>, o: nat,
                    zero: seq<nat>, c: nat)
    requires Consistent(program, r, pending) && o < |program.tasks| && o !in r.released && c < |program.tasks|
    requires Reducing(program, r, inDegree, o, program.consumers[o], zero)
    ensures Counted(program, inDegree, r.released + {o}, c)
    ensures Unlocked(program, r.(inDegree := inDegree, released := r.released + {o}), pending + Elements(zero), c)
    ensures c in zero ==> c !in r.Listed() && c !in pending
  {
    if c in program.consumers[o] {
      ConsumerCounts(program, r, pending, o, c);
      assert Counted(program, inDegree, r.released + {o}, c);
    } else {
      assert o !in program.deps[c];
      assert program.deps[c] - (r.released + {o}) == program.deps[c] - r.released;
      assert Counted(program, inDegree, r.released, c);
    }
    assert Unlocked(program, r, pending, c);
  }

  /** Once all consumers have been dealt with, `o` counts as released. */
  lemma ReduceDone(program: Program, r: ReadyState, pending: set<nat>, inDegree: map<nat, nat>, o: nat, zero: seq<nat>)
    requires Consistent(program, r, pending) && o < |program.tasks| && o !in r.released
    requires o in r.scheduled || (o in r.data && program.IsDataOp(o))
    requires Reducing(program, r, inDegree, o, program.consumers[o], zero)
    ensures Consistent(program, r.(inDegree := inDegree, released := r.released + {o}), pending + Elements(zero))
    ensures pending !! Elements(zero)
  {
    hide Counted, Unlocked;
    var next := r.(inDegree := inDegree, released := r.released + {o});
    assert next.Listed() == r.Listed();
    forall c: nat | c < |program.tasks|
      ensures Counted(program, next.inDegree, next.released, c)
      ensures Unlocked(program, next, pending + Elements(zero), c)
      ensures c in zero ==> c !in r.Listed() && c !in pending
    {
      ReleasedFor(program, r, pending, inDegree, o, zero, c);
    }
    assert forall c :: c in zero ==> c < |program.tasks|;
  }

  /** A pending operation goes on the list for its kind. */
  ghost predicate PutOnList(program: Program, r: ReadyState, next: ReadyState, o: nat)
    requires program.WellFormed() && o < |program.tasks|
  {
    next == if program.IsDataOp(o) then r.(data := r.data + {o})
            else if program.IsComputeOp(o) then r.(compute := r.compute + {o}) else r.(dma := r.dma + {o})
  }

  lemma ListingKeeps(program: Program, r: ReadyState, next: ReadyState, pending: set<nat>, o: nat)
    requires Consistent(program, r, pending) && o in pending && PutOnList(program, r, next, o)
    ensures Consistent(program, next, pending - {o}) && o !in r.released
  {
    assert next.Listed() == r.Listed() + {o};
    forall c: nat | c < |program.tasks|
      ensures Counted(program, next.inDegree, next.released, c)
      ensures Unlocked(program, next, pending - {o}, c)
    {
      assert Counted(program, r.inDegree, r.released, c);
      assert Unlocked(program, r, pending, c);
    }
  }

  /** An operation moves from its list to the scheduled ones. */
  ghost function Taken(r: ReadyState, o: nat): ReadyState {
    r.(compute := r.compute - {o}, dma := r.dma - {o}, data := r.data - {o}, scheduled := r.scheduled + {o})
  }

  lemma TakingKeeps(program: Program, r: ReadyState, pending: set<nat>, o: nat)
    requires Consistent(program, r, pending) && o in r.compute + r.dma + r.data
    ensures Consistent(program, Taken(r, o), pending)
  {
    var next := Taken(r, o);
    assert next.Listed() == r.Listed();
    forall c: nat | c < |program.tasks|
      ensures Counted(program, next.inDegree, next.released, c)
      ensures Unlocked(program, next, pending, c)
    {
      assert Counted(program, r.inDegree, r.released, c);
      assert Unlocked(program, r, pending, c);
    }
  }

  /** Whatever is on a list or scheduled has dependencies that are scheduled, or data operations
      that are ready. */
  lemma ReadyDeps(program: Program, r: ReadyState, pending: set<nat>, o: nat, d: nat)
    requires Consistent(program, r, pending) && o in r.Listed() + pending && d in program.deps[o]
    ensures d < o && (d in r.scheduled || (d in r.data && program.IsDataOp(d)))
  {
    assert Unlocked(program, r, pending, o);
  }
}
