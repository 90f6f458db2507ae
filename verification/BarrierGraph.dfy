/** The value of a barrier graph: which tasks produce and which tasks consume each virtual
    barrier.  The passes are specified by how they change this value. */
module BarrierGraph {
  import opened Reachability

  /** `producers[b]` and `consumers[b]` are the tasks that update, and wait for, barrier `b`. */
  datatype Graph = Graph(tasks: nat, producers: seq<set<nat>>, consumers: seq<set<nat>>) {

    ghost predicate WellFormed() {
      && |producers| == |consumers|
      && (forall b, t :: 0 <= b < |producers| && t in producers[b] ==> t < tasks)
      && (forall b, t :: 0 <= b < |consumers| && t in consumers[b] ==> t < tasks)
    }

    /** The direct dependencies "p produces some barrier that c consumes". */
    ghost function Deps(): Edges
      requires |producers| == |consumers|
    {
      set b, p, c | 0 <= b < |producers| && p in producers[b] && c in consumers[b] :: (p, c)
    }

    ghost predicate Linked(b: int, p: nat, c: nat) {
      0 <= b < |producers| && b < |consumers| && p in producers[b] && c in consumers[b]
    }

    /** `c` runs after `p` because of barriers. */
    ghost predicate HappensBefore(p: nat, c: nat)
      requires |producers| == |consumers|
    {
      Reaches(Deps(), p, c)
    }

    /** Every producer of a barrier comes before every consumer of it in program order. */
    ghost predicate InProgramOrder()
      requires |producers| == |consumers|
    {
      forall b, p, c :: Linked(b, p, c) ==> p < c
    }

    function AddConsumers(b: nat, ts: set<nat>): Graph
      requires b < |consumers|
    {
      this.(consumers := consumers[b := consumers[b] + ts])
    }

    function RemoveConsumers(b: nat, ts: set<nat>): Graph
      requires b < |consumers|
    {
      this.(consumers := consumers[b := consumers[b] - ts])
    }

    function AddProducers(b: nat, ts: set<nat>): Graph
      requires b < |producers|
    {
      this.(producers := producers[b := producers[b] + ts])
    }

    function RemoveProducers(b: nat, ts: set<nat>): Graph
      requires b < |producers|
    {
      this.(producers := producers[b := producers[b] - ts])
    }

    function AddBarrier(): Graph {
      this.(producers := producers + [{}], consumers := consumers + [{}])
    }

    function ResetBarrier(b: nat): Graph
      requires b < |producers| == |consumers|
    {
      this.(producers := producers[b := {}], consumers := consumers[b := {}])
    }

    /** Task `t` waits for exactly the barriers `bs`. */
    function SetWaitBarriers(t: nat, bs: set<nat>): Graph {
      this.(consumers := seq(|consumers|, b requires 0 <= b < |consumers| =>
                               if b in bs then consumers[b] + {t} else consumers[b] - {t}))
    }

    /** Task `t` updates exactly the barriers `bs`. */
    function SetUpdateBarriers(t: nat, bs: set<nat>): Graph {
      this.(producers := seq(|producers|, b requires 0 <= b < |producers| =>
                               if b in bs then producers[b] + {t} else producers[b] - {t}))
    }

    lemma DepsMeansLinked(p: nat, c: nat)
      requires |producers| == |consumers|
      ensures (p, c) in Deps() <==> exists b :: Linked(b, p, c)
    {
      if (p, c) in Deps() {
        var b :| 0 <= b < |producers| && p in producers[b] && c in consumers[b];
        assert Linked(b, p, c);
      }
    }

    lemma DepsIncrease()
      requires |producers| == |consumers| && InProgramOrder()
      ensures Increasing(Deps())
    {
      forall p, c | (p, c) in Deps()
        ensures p < c
      {
        DepsMeansLinked(p, c);
      }
    }

    lemma LinkedHappensBefore(b: int, p: nat, c: nat)
      requires |producers| == |consumers| && Linked(b, p, c)
      ensures HappensBefore(p, c)
    {
      EdgeReaches(Deps(), p, c);
    }
  }
}
