/** Buffers that were spilled and wait to be read back, and the users of buffers. */
module SpillMaps {
  import opened BarrierInfoModule

  /** `readySpilled` gives the writer of each spilled buffer, `spillBuffers` the spilled buffers of
      each writer; `alive` and `dynamicSpill` are the allocator's view. */
  datatype SpillState = SpillState(readySpilled: map<nat, nat>, spillBuffers: map<nat, set<nat>>, alive: set<nat>,
                                   dynamicSpill: set<nat>) {

    ghost predicate Matches(producer: map<nat, nat>) {
      && dynamicSpill == readySpilled.Keys && alive !! dynamicSpill
      && (forall b :: b in readySpilled ==> b in producer && producer[b] == readySpilled[b])
      && (forall b :: b in readySpilled ==> readySpilled[b] in spillBuffers && b in spillBuffers[readySpilled[b]])
      && (forall p :: p in spillBuffers ==> spillBuffers[p] != {} && forall b :: b in spillBuffers[p] ==>
            b in readySpilled && readySpilled[b] == p)
    }

    function Evict(b: nat, p: nat): SpillState {
      SpillState(readySpilled[b := p], spillBuffers[p := (if p in spillBuffers then spillBuffers[p] else {}) + {b}],
        alive - {b}, dynamicSpill + {b})
    }

    /** Buffer `b` of writer `p` is read back. */
    function ReadBack(b: nat, p: nat): SpillState {
      SpillState(readySpilled - {b},
        if p !in spillBuffers then spillBuffers
        else if spillBuffers[p] - {b} != {} then spillBuffers[p := spillBuffers[p] - {b}] else spillBuffers - {p},
        alive + {b}, dynamicSpill - {b})
    }

    lemma EvictKeepsMatch(producer: map<nat, nat>, b: nat)
      requires Matches(producer) && b in alive && b in producer
      ensures Evict(b, producer[b]).Matches(producer)
    {
    }

    lemma ReadBackKeepsMatch(producer: map<nat, nat>, b: nat)
      requires Matches(producer) && b in readySpilled
      ensures ReadBack(b, readySpilled[b]).Matches(producer)
    {
    }

    /** New writers of buffers that are not spilled change nothing. */
    lemma NewWritersKeepMatch(producer: map<nat, nat>, next: map<nat, nat>)
      requires Matches(producer)
      requires forall b :: b in producer && b in dynamicSpill ==> b in next && next[b] == producer[b]
      ensures Matches(next)
    {
    }
  }

  /** Users of each buffer and buffers of each user, each the inverse of the other. */
  class MemLiveRangeInfo {
    var allUsersInBlock: map<nat, set<nat>>
    var opBuffersMap: map<nat, set<nat>>

    ghost predicate Valid()
      reads this
    {
      && (forall b, o :: b in allUsersInBlock && o in allUsersInBlock[b] ==> o in opBuffersMap && b in opBuffersMap[o])
      && (forall b, o :: o in opBuffersMap && b in opBuffersMap[o] ==> b in allUsersInBlock && o in allUsersInBlock[b])
    }

    ghost function Pairs(): set<(nat, nat)>
      reads this
    {
      set b, o | b in allUsersInBlock && o in allUsersInBlock[b] :: (b, o)
    }

    ghost predicate HasUsers(b: nat)
      reads this
    {
      exists o :: (b, o) in Pairs()
    }

    constructor (used: seq<set<nat>>)
      ensures Valid() && forall o :: 0 <= o < |used| ==> GetUsedBuffers(o) == used[o]
    {
      opBuffersMap := map o: nat | o < |used| :: used[o];
      allUsersInBlock := map b | b in AllBuffers(used) :: set o: nat | o < |used| && b in used[o];
      new;
      forall b: nat, o: nat | o in opBuffersMap && b in opBuffersMap[o]
        ensures b in allUsersInBlock && o in allUsersInBlock[b]
      {
        assert b in used[o];
      }
    }

    static function AllBuffers(used: seq<set<nat>>): set<nat> {
      set o, b | 0 <= o < |used| && b in used[o] :: b
    }

    function GetUsedBuffers(o: nat): set<nat>
      reads this
    {
      if o in opBuffersMap then opBuffersMap[o] else {}
    }

    /** Throws unless `o` is still a user of `b`; a pair can be erased only once. */
    method EraseUser(b: nat, o: nat) returns (outcome: Outcome, left: nat)
      requires Valid()
      modifies this
      ensures Valid() && (outcome == Done <==> (b, o) in old(Pairs()))
      ensures outcome == Done ==>
        Pairs() == old(Pairs()) - {(b, o)} && b in allUsersInBlock && left == |allUsersInBlock[b]|
      ensures outcome == Done ==> GetUsedBuffers(o) == old(GetUsedBuffers(o)) - {b} && (left == 0 <==> !HasUsers(b))
      ensures outcome.Thrown? ==> Pairs() == old(Pairs())
      ensures forall x :: x != o ==> GetUsedBuffers(x) == old(GetUsedBuffers(x))
    {
      left := 0;
      if b !in allUsersInBlock {
        return Thrown("Value is not a buffer"), 0;
      }
      if o !in opBuffersMap {
        return Thrown("Operation is not a buffer user"), 0;
      }
      if o !in allUsersInBlock[b] {
        return Thrown("Operation is not a user of the buffer"), 0;
      }
      assert (b, o) in Pairs();
      allUsersInBlock := allUsersInBlock[b := allUsersInBlock[b] - {o}];
      opBuffersMap := opBuffersMap[o := opBuffersMap[o] - {b}];
      if x :| x in allUsersInBlock[b] {
        assert (b, x) in Pairs();
      }
      return Done, |allUsersInBlock[b]|;
    }

    lemma UsedIsPair(b: nat, o: nat)
      requires Valid() && b in GetUsedBuffers(o)
      ensures (b, o) in Pairs()
    {
    }
  }
}
