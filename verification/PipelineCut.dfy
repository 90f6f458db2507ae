/** Cutting a tree of passes: what is in front of the point of interest goes. */
module PipelineCut {
  import opened PipelineNames
  import opened PipelineTree

  /** What the cutter takes an entry for.  A text under the name of a pass manager cannot be gone through. */
  datatype Kind = SinglePass | Manager | Unreadable

  /** An entry is looked at: a pass, or a pass manager once all it runs has been looked at. */
  datatype Event = Event(path: seq<string>, name: string, kind: Kind)

  function EventOf(path: seq<string>, e: Entry): Event {
    Event(path, Canonize(e.key),
          if !IsObject(e.key) then SinglePass else if e.value.Dict? then Manager else Unreadable)
  }

  function Inner(e: Entry): seq<Entry> {
    if IsObject(e.key) && e.value.Dict? then e.value.entries else []
  }

  ghost function Events(path: seq<string>, entries: seq<Entry>): seq<Event>
    decreases entries
  {
    if entries == [] then []
    else
      var e := entries[0];
      (if IsObject(e.key) && e.value.Dict? then Events(path + [Canonize(e.key)], e.value.entries) else [])
        + ([EventOf(path, e)] + Events(path, entries[1..]))
  }

  ghost function InnerEvents(path: seq<string>, e: Entry): seq<Event> {
    Events(path + [Canonize(e.key)], Inner(e))
  }

  lemma EventsFirst(path: seq<string>, entries: seq<Entry>)
    requires entries != []
    ensures Events(path, entries) ==
      InnerEvents(path, entries[0]) + ([EventOf(path, entries[0])] + Events(path, entries[1..]))
  {
  }

  ghost function PassesOf(events: seq<Event>): seq<Event> {
    if events == [] then [] else (if events[0].kind.SinglePass? then [events[0]] else []) + PassesOf(events[1..])
  }

  /** The passes of a tree in order, each with the pass managers around it. */
  ghost function Passes(path: seq<string>, entries: seq<Entry>): seq<Event> {
    PassesOf(Events(path, entries))
  }

  ghost function Looked(e: Event, matches: string -> bool, current: Option<nat>): Option<nat> {
    if current.None? && matches(e.name) then Some(0) else current
  }

  /** The passes that are kept: from the first match on, all but `offset` of them. */
  ghost function Keep(events: seq<Event>, matches: string -> bool, offset: int, current: Option<nat>): seq<Event>
    decreases |events|
  {
    if events == [] then []
    else
      var now := Looked(events[0], matches, current);
      if now.Some? && events[0].kind.SinglePass? then
        if now.value >= offset then PassesOf(events) else Keep(events[1..], matches, offset, Some(now.value + 1))
      else Keep(events[1..], matches, offset, now)
  }

  ghost function Count(events: seq<Event>, matches: string -> bool, offset: int, current: Option<nat>): Option<nat>
    decreases |events|
  {
    if events == [] then current
    else
      var now := Looked(events[0], matches, current);
      if now.Some? && events[0].kind.SinglePass? then
        if now.value >= offset then now else Count(events[1..], matches, offset, Some(now.value + 1))
      else Count(events[1..], matches, offset, now)
  }

  /** The search gets to a text that it takes for a pass manager, with nothing in front of it to keep. */
  ghost predicate Breaks(events: seq<Event>, matches: string -> bool, offset: int, current: Option<nat>) {
    exists i :: 0 <= i < |events| && events[i].kind.Unreadable? && Keep(events[..i], matches, offset, current) == []
  }

  lemma {:induction false} PassesConcat(a: seq<Event>, b: seq<Event>)
    ensures PassesOf(a + b) == PassesOf(a) + PassesOf(b)
    decreases |a|
  {
    if a == [] {
      assert a + b == b;
    } else {
      assert (a + b)[1..] == a[1..] + b;
      PassesConcat(a[1..], b);
      OneByOne(if a[0].kind.SinglePass? then [a[0]] else [], PassesOf(a[1..]), PassesOf(b));
    }
  }

  lemma OneByOne(a: seq<Event>, b: seq<Event>, c: seq<Event>)
    ensures a + (b + c) == (a + b) + c
  {
  }

  lemma {:induction false} KeepConcat(a: seq<Event>, b: seq<Event>, matches: string -> bool, offset: int,
                                      current: Option<nat>)
    ensures Keep(a + b, matches, offset, current) ==
      if Keep(a, matches, offset, current) != [] then Keep(a, matches, offset, current) + PassesOf(b)
      else Keep(b, matches, offset, Count(a, matches, offset, current))
    ensures Count(a + b, matches, offset, current) ==
      if Keep(a, matches, offset, current) != [] then Count(a, matches, offset, current)
      else Count(b, matches, offset, Count(a, matches, offset, current))
    decreases |a|
  {
    hide PassesOf, Looked;
    if a == [] {
      assert a + b == b;
    } else {
      assert (a + b)[1..] == a[1..] + b;
      var now := Looked(a[0], matches, current);
      if now.Some? && a[0].kind.SinglePass? {
        if now.value >= offset {
          PassesConcat(a, b);
          FirstPass(a);
        } else {
          KeepConcat(a[1..], b, matches, offset, Some(now.value + 1));
        }
      } else {
        KeepConcat(a[1..], b, matches, offset, now);
      }
    }
  }

  lemma FirstPass(events: seq<Event>)
    requires events != [] && events[0].kind.SinglePass?
    ensures PassesOf(events) != []
  {
  }

  lemma BreaksConcat(a: seq<Event>, b: seq<Event>, matches: string -> bool, offset: int, current: Option<nat>)
    ensures Breaks(a + b, matches, offset, current) <==>
      || Breaks(a, matches, offset, current)
      || (Keep(a, matches, offset, current) == [] && Breaks(b, matches, offset, Count(a, matches, offset, current)))
  {
    hide Keep, Count;
    var s, counted := a + b, Count(a, matches, offset, current);
    forall i | 0 <= i < |s|
      ensures i < |a| ==> s[i] == a[i] && s[..i] == a[..i]
      ensures i >= |a| ==> s[i] == b[i - |a|] && (Keep(s[..i], matches, offset, current) == [] <==>
        Keep(a, matches, offset, current) == [] && Keep(b[..i - |a|], matches, offset, counted) == [])
    {
      if i >= |a| {
        assert s[..i] == a + b[..i - |a|];
        KeepConcat(a, b[..i - |a|], matches, offset, current);
      }
    }
    if j :| 0 <= j < |b| && b[j].kind.Unreadable? && Keep(b[..j], matches, offset, counted) == [] {
      assert s[|a| + j] == b[j];
    }
    if i :| 0 <= i < |a| && a[i].kind.Unreadable? && Keep(a[..i], matches, offset, current) == [] {
      assert s[i] == a[i];
    }
  }

  /** From `current` on, the search goes through `a` as it goes through `b` from `now` on. */
  ghost predicate SameSearch(a: seq<Event>, current: Option<nat>, b: seq<Event>, now: Option<nat>,
                             matches: string -> bool, offset: int)
  {
    && Keep(a, matches, offset, current) == Keep(b, matches, offset, now)
    && Count(a, matches, offset, current) == Count(b, matches, offset, now)
    && (Breaks(a, matches, offset, current) <==> Breaks(b, matches, offset, now))
  }

  /** The search has passed over `a`. */
  lemma SearchPast(a: seq<Event>, b: seq<Event>, matches: string -> bool, offset: int, current: Option<nat>)
    requires Keep(a, matches, offset, current) == [] && !Breaks(a, matches, offset, current)
    ensures SameSearch(a + b, current, b, Count(a, matches, offset, current), matches, offset)
  {
    hide Keep, Count, Breaks;
    KeepConcat(a, b, matches, offset, current);
    BreaksConcat(a, b, matches, offset, current);
  }

  lemma SearchOne(e: Event, behind: seq<Event>, matches: string -> bool, offset: int, current: Option<nat>)
    ensures var now := Looked(e, matches, current);
      var events := [e] + behind;
      if e.kind.Unreadable? then Breaks(events, matches, offset, current)
      else if now.Some? && e.kind.SinglePass? && now.value >= offset then
        && Keep(events, matches, offset, current) == PassesOf(events) != []
        && Count(events, matches, offset, current) == now && !Breaks(events, matches, offset, current)
      else
        SameSearch(events, current, behind, if now.Some? && e.kind.SinglePass? then Some(now.value + 1) else now,
                   matches, offset)
  {
    hide Breaks, Looked;
    var now := Looked(e, matches, current);
    var events := [e] + behind;
    assert events[1..] == behind && [e][1..] == [];
    BreaksConcat([e], behind, matches, offset, current);
    BreaksAlone(e, matches, offset, current);
    FirstPassAlone(e);
    assert Keep([e], matches, offset, current) ==
      if now.Some? && e.kind.SinglePass? && now.value >= offset then PassesOf([e]) else [];
    if e.kind.SinglePass? {
      FirstPass(events);
    }
  }

  lemma BreaksAlone(e: Event, matches: string -> bool, offset: int, current: Option<nat>)
    ensures Breaks([e], matches, offset, current) <==> e.kind.Unreadable?
  {
    assert [e][..0] == [] && [e][0] == e;
  }

  lemma FirstPassAlone(e: Event)
    ensures PassesOf([e]) == if e.kind.SinglePass? then [e] else []
  {
    assert [e][1..] == [];
  }

  ghost function Dropped(passes: seq<Event>, n: int): seq<Event> {
    if n <= 0 then passes else if n >= |passes| then [] else passes[n..]
  }

  lemma DropNone(passes: seq<Event>, n: int)
    ensures n <= 0 ==> Dropped(passes, n) == passes
    ensures passes == [] ==> Dropped(passes, n) == []
  {
  }

  lemma DropOne(first: Event, passes: seq<Event>, n: int)
    requires n > 0
    ensures Dropped([first] + passes, n) == Dropped(passes, n - 1)
  {
  }

  lemma {:induction false} KeepAfterMatch(events: seq<Event>, matches: string -> bool, offset: int, current: nat)
    ensures Keep(events, matches, offset, Some(current)) == Dropped(PassesOf(events), offset - current)
    decreases |events|
  {
    hide Dropped;
    DropNone(PassesOf(events), offset - current);
    if events != [] {
      if events[0].kind.SinglePass? {
        if current < offset {
          KeepAfterMatch(events[1..], matches, offset, current + 1);
          DropOne(events[0], PassesOf(events[1..]), offset - current);
        }
      } else {
        assert PassesOf(events) == PassesOf(events[1..]);
        KeepAfterMatch(events[1..], matches, offset, current);
      }
    }
  }

  ghost predicate EndOf(end: seq<Event>, all: seq<Event>) {
    exists n: nat :: n <= |all| && end == all[n..]
  }

  /** What is kept is the end of the original passes: those from the first match on, without the
      first `offset` of them; nothing if there is no match. */
  lemma {:induction false} KeptAreLast(events: seq<Event>, matches: string -> bool, offset: int) returns (m: nat)
    ensures m <= |events| && (forall i :: 0 <= i < m ==> !matches(events[i].name))
    ensures (m < |events| ==> matches(events[m].name))
    ensures Keep(events, matches, offset, None) == Dropped(PassesOf(events[m..]), offset)
    ensures EndOf(Keep(events, matches, offset, None), PassesOf(events))
    decreases |events|
  {
    if events == [] {
      m := 0;
      assert PassesOf(events)[0..] == [];
    } else if matches(events[0].name) {
      m := 0;
      KeepAfterMatch(events, matches, offset, 0);
      KeepFromMatch(events, matches, offset);
      assert events[0..] == events;
      var all := PassesOf(events);
      var n := if offset <= 0 then 0 else if offset >= |all| then |all| else offset;
      assert Dropped(all, offset) == all[n..];
    } else {
      var rest := KeptAreLast(events[1..], matches, offset);
      m := rest + 1;
      assert events[1..][rest..] == events[m..];
      var k: nat :| k <= |PassesOf(events[1..])| &&
        Keep(events[1..], matches, offset, None) == PassesOf(events[1..])[k..];
      var n := |PassesOf(events)| - |PassesOf(events[1..])| + k;
      assert PassesOf(events)[n..] == PassesOf(events[1..])[k..];
    }
  }

  lemma KeepFromMatch(events: seq<Event>, matches: string -> bool, offset: int)
    requires events != [] && matches(events[0].name)
    ensures Keep(events, matches, offset, None) == Keep(events, matches, offset, Some(0))
  {
  }

  // Tails of trees

  /** `left` is `whole`, or the same pass manager with a tail of what it runs. */
  ghost predicate TailInside(left: Entry, whole: Entry)
    decreases whole, 0
  {
    left == whole ||
    (&& left.key == whole.key && IsObject(left.key) && left.value.Dict? && whole.value.Dict?
     && left.value.entries != [] && Tail(left.value.entries, whole.value.entries))
  }

  /** `left` is what is behind some point of `all`, together with the pass managers around that point. */
  ghost predicate Tail(left: seq<Entry>, all: seq<Entry>)
    decreases all, 1
  {
    left == [] || exists i: nat :: i < |all| && left[1..] == all[i + 1..] && TailInside(left[0], all[i])
  }

  /** The first thing to be looked at in `left` is a pass. */
  ghost predicate StartsWithPass(path: seq<string>, left: seq<Entry>) {
    left != [] ==> Events(path, left) != [] && Events(path, left)[0].kind.SinglePass?
  }

  /** `left` is cut off from `all`: a tail with exactly the passes to keep. */
  ghost predicate IsCut(path: seq<string>, all: seq<Entry>, left: seq<Entry>, matches: string -> bool, offset: int,
                        current: Option<nat>)
  {
    && Tail(left, all) && StartsWithPass(path, left)
    && Passes(path, left) == Keep(Events(path, all), matches, offset, current)
  }

  lemma CutIsEmpty(path: seq<string>, all: seq<Entry>, left: seq<Entry>, matches: string -> bool, offset: int,
                   current: Option<nat>)
    requires IsCut(path, all, left, matches, offset, current)
    ensures left == [] <==> Keep(Events(path, all), matches, offset, current) == []
  {
    hide Keep, Tail, StartsWithPass;
    if left != [] {
      PassesAtStart(path, left);
    }
  }

  // There is only one such tail

  /** The passes of an entry and of what it runs. */
  ghost function PartOf(path: seq<string>, e: Entry): seq<Event> {
    PassesOf(InnerEvents(path, e) + [EventOf(path, e)])
  }

  lemma PassesFirst(path: seq<string>, entries: seq<Entry>)
    requires entries != []
    ensures Passes(path, entries) == PartOf(path, entries[0]) + Passes(path, entries[1..])
    ensures StartsWithPass(path, entries) ==> PartOf(path, entries[0]) != []
  {
    hide PassesOf, Events, InnerEvents, EventOf;
    var inner, one := InnerEvents(path, entries[0]), [EventOf(path, entries[0])];
    var behind := Events(path, entries[1..]);
    EventsFirst(path, entries);
    assert inner + (one + behind) == (inner + one) + behind;
    PassesConcat(inner + one, behind);
    if StartsWithPass(path, entries) {
      assert (inner + one)[0] == Events(path, entries)[0];
      FirstPass(inner + one);
    }
  }

  lemma {:induction false} SuffixPasses(path: seq<string>, all: seq<Entry>, i: nat)
    requires i <= |all|
    ensures |Passes(path, all[i..])| <= |Passes(path, all)|
    decreases |all|
  {
    if i == 0 {
      assert all[0..] == all;
    } else {
      PassesFirst(path, all);
      SuffixPasses(path, all[1..], i - 1);
      assert all[1..][i - 1..] == all[i..];
    }
  }

  lemma {:induction false} TailPasses(path: seq<string>, left: seq<Entry>, all: seq<Entry>)
    requires Tail(left, all)
    ensures |Passes(path, left)| <= |Passes(path, all)|
    decreases all, 1
  {
    hide Events, PassesOf, TailInside;
    if left == [] {
      NoPasses(path);
    } else {
      var i: nat :| i < |all| && left[1..] == all[i + 1..] && TailInside(left[0], all[i]);
      PassesFirst(path, left);
      PassesAt(path, all, i);
      PartPasses(path, left[0], all[i]);
      SuffixPasses(path, all, i);
    }
  }

  lemma NoPasses(path: seq<string>)
    ensures Passes(path, []) == []
  {
  }

  lemma PassesAt(path: seq<string>, all: seq<Entry>, i: nat)
    requires i < |all|
    ensures Passes(path, all[i..]) == PartOf(path, all[i]) + Passes(path, all[i + 1..])
  {
    hide Events, PassesOf, PartOf;
    PassesFirst(path, all[i..]);
    assert all[i..][1..] == all[i + 1..] && all[i..][0] == all[i];
  }

  lemma {:induction false} PartPasses(path: seq<string>, left: Entry, whole: Entry)
    requires TailInside(left, whole)
    ensures |PartOf(path, left)| <= |PartOf(path, whole)|
    decreases whole, 0
  {
    hide Events, PassesOf, IsObject, Canonize;
    if left != whole {
      TailPasses(path + [Canonize(left.key)], left.value.entries, whole.value.entries);
      PartManager(path, left);
      PartManager(path, whole);
    }
  }

  lemma PartManager(path: seq<string>, e: Entry)
    requires IsObject(e.key) && e.value.Dict?
    ensures PartOf(path, e) == Passes(path + [Canonize(e.key)], e.value.entries)
  {
    hide Events, PassesOf, IsObject, Canonize;
    PassesConcat(InnerEvents(path, e), [EventOf(path, e)]);
    FirstPassAlone(EventOf(path, e));
  }

  /** A tail that starts earlier has more passes. */
  lemma EarlierTail(path: seq<string>, all: seq<Entry>, a: seq<Entry>, i: nat, b: seq<Entry>, j: nat)
    requires i < j < |all| && a != [] && b != [] && StartsWithPass(path, a)
    requires a[1..] == all[i + 1..] && b[1..] == all[j + 1..] && TailInside(b[0], all[j])
    ensures |Passes(path, a)| > |Passes(path, b)|
  {
    hide Events, PassesOf, TailInside, PartOf, StartsWithPass;
    PassesFirst(path, a);
    PassesFirst(path, b);
    PartPasses(path, b[0], all[j]);
    PassesAt(path, all, j);
    SuffixPasses(path, all[i + 1..], j - (i + 1));
    assert all[i + 1..][j - (i + 1)..] == all[j..];
  }

  lemma {:induction false} TailsAgree(path: seq<string>, all: seq<Entry>, a: seq<Entry>, b: seq<Entry>)
    requires Tail(a, all) && StartsWithPass(path, a) && Tail(b, all) && StartsWithPass(path, b)
    requires |Passes(path, a)| == |Passes(path, b)|
    ensures a == b
    decreases all, 1
  {
    hide Events, Passes, Tail, TailInside, PartOf, StartsWithPass;
    NoPasses(path);
    if a != [] {
      PassesAtStart(path, a);
    }
    if b != [] {
      PassesAtStart(path, b);
    }
    if a != [] && b != [] {
      var i := TailIndex(a, all);
      var j := TailIndex(b, all);
      if i < j {
        EarlierTail(path, all, a, i, b, j);
      } else if j < i {
        EarlierTail(path, all, b, j, a, i);
      } else {
        PassesFirst(path, a);
        PassesFirst(path, b);
        FirstsAgree(path, all[i], a, b);
        SameParts(a, b);
      }
    }
  }

  lemma PassesAtStart(path: seq<string>, left: seq<Entry>)
    requires left != [] && StartsWithPass(path, left)
    ensures Passes(path, left) != []
  {
    hide Events;
    FirstPass(Events(path, left));
  }

  lemma TailIndex(left: seq<Entry>, all: seq<Entry>) returns (i: nat)
    requires Tail(left, all) && left != []
    ensures i < |all| && left[1..] == all[i + 1..] && TailInside(left[0], all[i])
  {
    i :| i < |all| && left[1..] == all[i + 1..] && TailInside(left[0], all[i]);
  }

  lemma SameParts(a: seq<Entry>, b: seq<Entry>)
    requires a != [] && b != [] && a[0] == b[0] && a[1..] == b[1..]
    ensures a == b
  {
    assert a == [a[0]] + a[1..] && b == [b[0]] + b[1..];
  }

  lemma {:induction false} FirstsAgree(path: seq<string>, whole: Entry, a: seq<Entry>, b: seq<Entry>)
    requires a != [] && b != [] && a[1..] == b[1..] && StartsWithPass(path, a) && StartsWithPass(path, b)
    requires TailInside(a[0], whole) && TailInside(b[0], whole) && |PartOf(path, a[0])| == |PartOf(path, b[0])|
    ensures a[0] == b[0]
    decreases whole, 0
  {
    hide Events, PassesOf, IsObject, Canonize, PartOf, StartsWithPass;
    if a[0] != b[0] {
      var deeper := path + [Canonize(whole.key)];
      assert IsObject(whole.key) && whole.value.Dict? && whole.value.entries != [];
      ManagerStarts(path, a, whole);
      ManagerStarts(path, b, whole);
      PartManager(path, a[0]);
      PartManager(path, b[0]);
      TailsAgree(deeper, whole.value.entries, a[0].value.entries, b[0].value.entries);
    }
  }

  lemma ManagerStarts(path: seq<string>, left: seq<Entry>, whole: Entry)
    requires left != [] && TailInside(left[0], whole) && StartsWithPass(path, left)
    requires IsObject(whole.key) && whole.value.Dict? && whole.value.entries != []
    ensures left[0].key == whole.key && left[0].value.Dict? && Tail(left[0].value.entries, whole.value.entries)
    ensures StartsWithPass(path + [Canonize(whole.key)], left[0].value.entries)
  {
    hide IsObject, Canonize;
    var inner := left[0].value.entries;
    EventsFirst(path, left);
    if left[0] == whole {
      assert inner[1..] == inner[0 + 1..] && TailInside(inner[0], inner[0]);
    }
    var deeper := path + [Canonize(whole.key)];
    EventsFirst(deeper, inner);
    assert InnerEvents(path, left[0]) == Events(deeper, inner);
    assert Events(path, left)[0] == Events(deeper, inner)[0];
  }

  /** The cut tree is the only one that is cut off as it should be. */
  lemma CutIsUnique(path: seq<string>, all: seq<Entry>, a: seq<Entry>, b: seq<Entry>, matches: string -> bool,
                    offset: int, current: Option<nat>)
    requires IsCut(path, all, a, matches, offset, current) && IsCut(path, all, b, matches, offset, current)
    ensures a == b
  {
    hide Events, PassesOf, Keep, Tail;
    TailsAgree(path, all, a, b);
  }

  // `process_pipeline`

  ghost function Keys(entries: seq<Entry>): seq<string> {
    seq(|entries|, i requires 0 <= i < |entries| => entries[i].key)
  }

  /** Entries go one by one, by their keys. */
  method PopAll(pipeline: seq<Entry>, keys: seq<string>) returns (left: seq<Entry>)
    requires DistinctKeys(pipeline) && |keys| <= |pipeline| && keys == Keys(pipeline)[..|keys|]
    ensures left == pipeline[|keys|..]
  {
    left := pipeline;
    for k := 0 to |keys|
      invariant left == pipeline[k..]
    {
      FirstIndex(pipeline, k, keys[k]);
      var i := IndexOf(left, keys[k]);
      left := left[..i] + left[i + 1..];
    }
  }

  lemma FirstIndex(pipeline: seq<Entry>, k: nat, key: string)
    requires k < |pipeline| && pipeline[k].key == key
    ensures IndexOf(pipeline[k..], key) == 0
  {
  }

  lemma SameKeys(a: seq<Entry>, b: seq<Entry>)
    requires Keys(a) == Keys(b) && DistinctKeys(a)
    ensures DistinctKeys(b)
  {
    forall i, j | 0 <= i < j < |b|
      ensures b[i].key != b[j].key
    {
      assert Keys(a)[i] == a[i].key && Keys(a)[j] == a[j].key && Keys(b)[i] == b[i].key && Keys(b)[j] == b[j].key;
      assert |Keys(a)| == |a| && |Keys(b)| == |b|;
    }
  }

  /** The search through `all` is the one through what is behind entry `i`. */
  ghost predicate Reached(path: seq<string>, all: seq<Entry>, i: nat, matches: string -> bool, offset: int,
                          current: Option<nat>, now: Option<nat>)
  {
    i <= |all| && SameSearch(Events(path, all), current, Events(path, all[i..]), now, matches, offset)
  }

  lemma EventsAt(path: seq<string>, all: seq<Entry>, i: nat)
    requires i < |all|
    ensures Events(path, all[i..]) ==
      InnerEvents(path, all[i]) + ([EventOf(path, all[i])] + Events(path, all[i + 1..]))
  {
    hide Events, InnerEvents;
    EventsFirst(path, all[i..]);
    assert all[i..][1..] == all[i + 1..] && all[i..][0] == all[i];
  }

  /** What entry `i` runs has been gone through without the search ending there. */
  lemma ReachedPast(path: seq<string>, all: seq<Entry>, i: nat, matches: string -> bool, offset: int,
                    current: Option<nat>, now: Option<nat>, counted: Option<nat>)
    requires Reached(path, all, i, matches, offset, current, now) && i < |all|
    requires Keep(InnerEvents(path, all[i]), matches, offset, now) == []
    requires !Breaks(InnerEvents(path, all[i]), matches, offset, now)
    requires counted == Count(InnerEvents(path, all[i]), matches, offset, now)
    ensures var e, next := EventOf(path, all[i]), Looked(EventOf(path, all[i]), matches, counted);
      if e.kind.Unreadable? then Breaks(Events(path, all), matches, offset, current)
      else if next.Some? && e.kind.SinglePass? && next.value >= offset then
        && Keep(Events(path, all), matches, offset, current) == PassesOf([e] + Events(path, all[i + 1..]))
        && Count(Events(path, all), matches, offset, current) == next
        && !Breaks(Events(path, all), matches, offset, current)
      else
        Reached(path, all, i + 1, matches, offset, current,
                if next.Some? && e.kind.SinglePass? then Some(next.value + 1) else next)
  {
    hide Events, InnerEvents, Keep, Count, Breaks, Looked;
    var e, behind := EventOf(path, all[i]), Events(path, all[i + 1..]);
    EventsAt(path, all, i);
    SearchPast(InnerEvents(path, all[i]), [e] + behind, matches, offset, now);
    SearchOne(e, behind, matches, offset, counted);
  }

  /** The search ends, or breaks off, inside of an entry. */
  lemma ReachedInside(path: seq<string>, all: seq<Entry>, i: nat, matches: string -> bool, offset: int,
                      current: Option<nat>, now: Option<nat>)
    requires Reached(path, all, i, matches, offset, current, now) && i < |all|
    ensures var events := InnerEvents(path, all[i]);
      && (Breaks(events, matches, offset, now) ==> Breaks(Events(path, all), matches, offset, current))
      && (Keep(events, matches, offset, now) != [] ==>
         && (Breaks(Events(path, all), matches, offset, current) <==> Breaks(events, matches, offset, now))
         && Count(Events(path, all), matches, offset, current) == Count(events, matches, offset, now)
         && Keep(Events(path, all), matches, offset, current) ==
              Keep(events, matches, offset, now) + PassesOf([EventOf(path, all[i])] + Events(path, all[i + 1..])))
  {
    hide Events, InnerEvents, Keep, Count, Breaks, Looked;
    var b := [EventOf(path, all[i])] + Events(path, all[i + 1..]);
    EventsAt(path, all, i);
    KeepConcat(InnerEvents(path, all[i]), b, matches, offset, now);
    BreaksConcat(InnerEvents(path, all[i]), b, matches, offset, now);
  }

  /** What is left when the search ends inside of pass manager `i`. */
  lemma CutInside(path: seq<string>, all: seq<Entry>, i: nat, inner: seq<Entry>, matches: string -> bool, offset: int,
                  current: Option<nat>, now: Option<nat>)
    requires Reached(path, all, i, matches, offset, current, now) && i < |all|
    requires IsObject(all[i].key) && all[i].value.Dict? && inner != []
    requires IsCut(path + [Canonize(all[i].key)], all[i].value.entries, inner, matches, offset, now)
    ensures IsCut(path, all, [Entry(all[i].key, Dict(inner))] + all[i + 1..], matches, offset, current)
  {
    hide Events, Keep, Count, Breaks, SameSearch, Canonize, IsObject;
    var first := Entry(all[i].key, Dict(inner));
    var left, deeper := [first] + all[i + 1..], path + [Canonize(all[i].key)];
    CutIsEmpty(deeper, all[i].value.entries, inner, matches, offset, now);
    ReachedInside(path, all, i, matches, offset, current, now);
    assert left[1..] == all[i + 1..];
    EventsFirst(path, left);
    assert EventOf(path, first) == EventOf(path, all[i]) && InnerEvents(path, first) == Events(deeper, inner);
    PassesConcat(Events(deeper, inner), [EventOf(path, first)] + Events(path, all[i + 1..]));
    assert TailInside(left[0], all[i]);
  }

  /** What is left when the search ends at pass `i`. */
  lemma CutHere(path: seq<string>, all: seq<Entry>, i: nat, matches: string -> bool, offset: int, current: Option<nat>)
    requires i < |all| && EventOf(path, all[i]).kind.SinglePass?
    requires Keep(Events(path, all), matches, offset, current) ==
      PassesOf([EventOf(path, all[i])] + Events(path, all[i + 1..]))
    ensures IsCut(path, all, all[i..], matches, offset, current)
  {
    hide Keep;
    EventsAt(path, all, i);
    assert InnerEvents(path, all[i]) == [];
    assert [] + ([EventOf(path, all[i])] + Events(path, all[i + 1..])) ==
      [EventOf(path, all[i])] + Events(path, all[i + 1..]);
    assert all[i..][1..] == all[i + 1..] && TailInside(all[i..][0], all[i]);
  }

  lemma NothingLeft(path: seq<string>, all: seq<Entry>, matches: string -> bool, offset: int, current: Option<nat>,
                    now: Option<nat>)
    requires Reached(path, all, |all|, matches, offset, current, now)
    ensures IsCut(path, all, [], matches, offset, current) && !Breaks(Events(path, all), matches, offset, current)
    ensures now == Count(Events(path, all), matches, offset, current)
  {
    assert all[|all|..] == [];
  }

  lemma StartsAll(path: seq<string>, all: seq<Entry>, matches: string -> bool, offset: int, current: Option<nat>)
    ensures Reached(path, all, 0, matches, offset, current, current)
  {
    assert all[0..] == all;
  }

  lemma NothingInside(path: seq<string>, e: Entry, matches: string -> bool, offset: int, current: Option<nat>)
    requires !IsObject(e.key) || e.value.Text?
    ensures Keep(InnerEvents(path, e), matches, offset, current) == []
    ensures Count(InnerEvents(path, e), matches, offset, current) == current
    ensures !Breaks(InnerEvents(path, e), matches, offset, current)
  {
    assert InnerEvents(path, e) == [];
  }

  lemma LookedAt(path: seq<string>, e: Entry, matches: string -> bool, current: Option<nat>)
    ensures Looked(EventOf(path, e), matches, current) ==
      if current.None? && matches(Canonize(e.key)) then Some(0) else current
    ensures EventOf(path, e).kind.SinglePass? <==> !IsObject(e.key)
    ensures EventOf(path, e).kind.Unreadable? <==> IsObject(e.key) && e.value.Text?
    ensures IsObject(e.key) && e.value.Dict? ==>
      InnerEvents(path, e) == Events(path + [Canonize(e.key)], e.value.entries)
  {
  }

  /** `process_pipeline`: it cuts the tree, unless it gets to a text that it takes for a pass manager. */
  method ProcessPipeline(pipeline: seq<Entry>, matches: string -> bool, offset: int, current: Option<nat>,
                         ghost path: seq<string>)
    returns (ok: bool, left: seq<Entry>, currentOffset: Option<nat>)
    requires Tidy(pipeline)
    ensures ok <==> !Breaks(Events(path, pipeline), matches, offset, current)
    ensures ok ==> IsCut(path, pipeline, left, matches, offset, current)
    ensures ok ==> currentOffset == Count(Events(path, pipeline), matches, offset, current)
    decreases pipeline
  {
    hide Events, InnerEvents, Keep, Count, Breaks, Looked, IsObject, Canonize, DistinctKeys, IsCut, Reached, EventOf;
    ok, left, currentOffset := true, [], current;
    var entries, listKeysToDelete, i, found := pipeline, [], 0, false;
    StartsAll(path, pipeline, matches, offset, current);
    while i < |entries| && !found
      invariant i <= |pipeline| == |entries| && Keys(entries) == Keys(pipeline)
      invariant listKeysToDelete == Keys(pipeline)[..i]
      invariant !found ==>
        entries[i..] == pipeline[i..] && Reached(path, pipeline, i, matches, offset, current, currentOffset)
      invariant found ==> IsCut(path, pipeline, entries[i..], matches, offset, current)
      invariant found ==> !Breaks(Events(path, pipeline), matches, offset, current)
      invariant found ==> currentOffset == Count(Events(path, pipeline), matches, offset, current)
      decreases |pipeline| - i, !found
    {
      assert entries[i] == entries[i..][0] == pipeline[i..][0] == pipeline[i];
      var k, v := entries[i].key, entries[i].value;
      ghost var before := currentOffset;
      LookedAt(path, pipeline[i], matches, before);
      ReachedInside(path, pipeline, i, matches, offset, current, before);
      var processed := false;
      if IsObject(k) {
        if v.Text? {
          NothingInside(path, pipeline[i], matches, offset, before);
          ReachedPast(path, pipeline, i, matches, offset, current, before, before);
          ok := false;
          return;
        }
        assert TidyEntry(pipeline[i]);
        var inner;
        ok, inner, currentOffset :=
          ProcessPipeline(v.entries, matches, offset, currentOffset, path + [Canonize(k)]);
        if !ok {
          return;
        }
        CutIsEmpty(path + [Canonize(k)], pipeline[i].value.entries, inner, matches, offset, before);
        v, processed := Dict(inner), inner != [];
        entries := entries[i := Entry(k, v)];
        assert entries[i..] == [Entry(k, v)] + pipeline[i + 1..];
        if processed {
          CutInside(path, pipeline, i, inner, matches, offset, current, before);
        }
      } else {
        NothingInside(path, pipeline[i], matches, offset, before);
      }
      if processed {
        found := true;
      } else {
        ReachedPast(path, pipeline, i, matches, offset, current, before, currentOffset);
        LookedAt(path, pipeline[i], matches, currentOffset);
        var name := Canonize(k);
        if currentOffset.None? && matches(name) {
          currentOffset := Some(0);
        }
        if currentOffset.Some? && (!IsObject(k) || v.entries != []) {
          if currentOffset.value >= offset {
            found := true;
            CutHere(path, pipeline, i, matches, offset, current);
          } else {
            currentOffset := Some(currentOffset.value + 1);
          }
        }
        if !found {
          listKeysToDelete := listKeysToDelete + [k];
          assert entries[i + 1..] == pipeline[i + 1..];
          assert Keys(pipeline)[..i + 1] == Keys(pipeline)[..i] + [Keys(pipeline)[i]];
          i := i + 1;
        }
      }
    }
    if !found {
      NothingLeft(path, pipeline, matches, offset, current, currentOffset);
    }
    SameKeys(pipeline, entries);
    assert |listKeysToDelete| == i && (!found ==> entries[i..] == []);
    left := PopAll(entries, listKeysToDelete);
  }
}
