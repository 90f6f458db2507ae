/** Ordered dictionaries of ordered dictionaries, as the pass pipeline is kept while it is cut, and
    the path lookups on them. */
module PipelineTree {

  datatype Value = Text(text: string) | Dict(entries: seq<Entry>)

  datatype Entry = Entry(key: string, value: Value)

  datatype Option<T> = None | Some(value: T)

  function IndexOf(entries: seq<Entry>, key: string): (i: nat)
    ensures i <= |entries| && (i < |entries| ==> entries[i].key == key)
    ensures forall j :: 0 <= j < i ==> entries[j].key != key
  {
    if entries == [] || entries[0].key == key then 0 else 1 + IndexOf(entries[1..], key)
  }

  function Put(entries: seq<Entry>, key: string, value: Value): seq<Entry> {
    var i := IndexOf(entries, key);
    if i < |entries| then entries[i := Entry(key, value)] else entries + [Entry(key, value)]
  }

  ghost predicate DistinctKeys(entries: seq<Entry>) {
    forall i, j :: 0 <= i < j < |entries| ==> entries[i].key != entries[j].key
  }

  /** What a path of keys leads to. */
  function Get(entries: seq<Entry>, path: seq<string>): Option<seq<Entry>>
    decreases |path|
  {
    if path == [] then Some(entries)
    else
      var i := IndexOf(entries, path[0]);
      if i < |entries| && entries[i].value.Dict? then Get(entries[i].value.entries, path[1..]) else None
  }

  /** The tree with `sub` at the end of the path. */
  function Set(entries: seq<Entry>, path: seq<string>, sub: seq<Entry>): seq<Entry>
    requires Get(entries, path).Some?
    decreases |path|
  {
    if path == [] then sub
    else
      var i := IndexOf(entries, path[0]);
      entries[i := Entry(path[0], Dict(Set(entries[i].value.entries, path[1..], sub)))]
  }

  /** `get_if_exist`: the tree with every missing step of the path created.  A step that leads to a
      text cannot be taken. */
  function WithPath(entries: seq<Entry>, path: seq<string>): Option<seq<Entry>>
    decreases |path|
  {
    if path == [] then Some(entries)
    else
      var i := IndexOf(entries, path[0]);
      if i == |entries| then
        var rest := WithPath([], path[1..]);
        if rest.Some? then Some(entries + [Entry(path[0], Dict(rest.value))]) else None
      else if entries[i].value.Dict? then
        var rest := WithPath(entries[i].value.entries, path[1..]);
        if rest.Some? then Some(entries[i := Entry(path[0], Dict(rest.value))]) else None
      else None
  }

  lemma IndexStays(entries: seq<Entry>, i: nat, value: Value)
    requires i < |entries| && i == IndexOf(entries, entries[i].key)
    ensures IndexOf(entries[i := Entry(entries[i].key, value)], entries[i].key) == i
  {
    var next := entries[i := Entry(entries[i].key, value)];
    assert next[i].key == entries[i].key;
    assert forall j :: 0 <= j < i ==> next[j] == entries[j];
  }

  lemma IndexAppended(entries: seq<Entry>, key: string, value: Value)
    requires IndexOf(entries, key) == |entries|
    ensures IndexOf(entries + [Entry(key, value)], key) == |entries|
  {
    var next := entries + [Entry(key, value)];
    assert next[|entries|].key == key;
    assert forall j :: 0 <= j < |entries| ==> next[j] == entries[j];
  }

  lemma {:induction false} GetSet(entries: seq<Entry>, path: seq<string>, sub: seq<Entry>)
    requires Get(entries, path).Some?
    ensures Get(Set(entries, path, sub), path) == Some(sub)
    decreases |path|
  {
    if path != [] {
      var i := IndexOf(entries, path[0]);
      GetSet(entries[i].value.entries, path[1..], sub);
      IndexStays(entries, i, Dict(Set(entries[i].value.entries, path[1..], sub)));
    }
  }

  lemma {:induction false} SetSet(entries: seq<Entry>, path: seq<string>, sub: seq<Entry>, next: seq<Entry>)
    requires Get(entries, path).Some? && Get(Set(entries, path, sub), path).Some?
    ensures Set(Set(entries, path, sub), path, next) == Set(entries, path, next)
    decreases |path|
  {
    if path != [] {
      var i := IndexOf(entries, path[0]);
      GetSet(entries[i].value.entries, path[1..], sub);
      SetSet(entries[i].value.entries, path[1..], sub, next);
      IndexStays(entries, i, Dict(Set(entries[i].value.entries, path[1..], sub)));
    }
  }

  lemma {:induction false} SetSame(entries: seq<Entry>, path: seq<string>)
    requires Get(entries, path).Some?
    ensures Set(entries, path, Get(entries, path).value) == entries
    decreases |path|
  {
    if path != [] {
      var i := IndexOf(entries, path[0]);
      SetSame(entries[i].value.entries, path[1..]);
    }
  }

  /** One more step: into the dictionary that has just been appended at the end of the path. */
  lemma {:induction false} StepInto(entries: seq<Entry>, path: seq<string>, dict: seq<Entry>, key: string,
                                    sub: seq<Entry>)
    requires Get(entries, path) == Some(dict + [Entry(key, Dict(sub))]) && IndexOf(dict, key) == |dict|
    ensures Get(entries, path + [key]) == Some(sub)
    decreases |path|
  {
    if path == [] {
      IndexAppended(dict, key, Dict(sub));
      assert (path + [key])[1..] == [];
    } else {
      var i := IndexOf(entries, path[0]);
      StepInto(entries[i].value.entries, path[1..], dict, key, sub);
      assert (path + [key])[1..] == path[1..] + [key];
    }
  }

  lemma {:induction false} SetInto(entries: seq<Entry>, path: seq<string>, dict: seq<Entry>, key: string,
                                   sub: seq<Entry>, next: seq<Entry>)
    requires Get(entries, path) == Some(dict + [Entry(key, Dict(sub))]) && IndexOf(dict, key) == |dict|
    requires Get(entries, path + [key]).Some?
    ensures Set(entries, path + [key], next) == Set(entries, path, dict + [Entry(key, Dict(next))])
    decreases |path|
  {
    if path == [] {
      IndexAppended(dict, key, Dict(sub));
      assert (path + [key])[1..] == [];
      assert (dict + [Entry(key, Dict(sub))])[|dict| := Entry(key, Dict(next))] == dict + [Entry(key, Dict(next))];
    } else {
      var i := IndexOf(entries, path[0]);
      assert (path + [key])[1..] == path[1..] + [key];
      SetInto(entries[i].value.entries, path[1..], dict, key, sub, next);
    }
  }

  /** A new key at the end of a path that is there. */
  lemma {:induction false} WithNewKey(entries: seq<Entry>, path: seq<string>, dict: seq<Entry>, key: string)
    requires Get(entries, path) == Some(dict) && IndexOf(dict, key) == |dict|
    ensures WithPath(entries, path + [key]) == Some(Set(entries, path, dict + [Entry(key, Dict([]))]))
    decreases |path|
  {
    if path == [] {
      assert (path + [key])[1..] == [];
    } else {
      var i := IndexOf(entries, path[0]);
      assert (path + [key])[1..] == path[1..] + [key];
      WithNewKey(entries[i].value.entries, path[1..], dict, key);
    }
  }

  lemma {:induction false} WithKnownPath(entries: seq<Entry>, path: seq<string>)
    requires Get(entries, path).Some?
    ensures WithPath(entries, path) == Some(entries)
    decreases |path|
  {
    if path != [] {
      var i := IndexOf(entries, path[0]);
      WithKnownPath(entries[i].value.entries, path[1..]);
      assert entries[i := Entry(path[0], entries[i].value)] == entries;
    }
  }

  /** Whatever the path, after `get_if_exist` it is there. */
  lemma {:induction false} WithPathGet(entries: seq<Entry>, path: seq<string>)
    ensures WithPath(entries, path).Some? ==> Get(WithPath(entries, path).value, path).Some?
    decreases |path|
  {
    if path != [] {
      var i := IndexOf(entries, path[0]);
      if i == |entries| {
        WithPathGet([], path[1..]);
        if WithPath([], path[1..]).Some? {
          IndexAppended(entries, path[0], Dict(WithPath([], path[1..]).value));
        }
      } else if entries[i].value.Dict? {
        WithPathGet(entries[i].value.entries, path[1..]);
        if WithPath(entries[i].value.entries, path[1..]).Some? {
          IndexStays(entries, i, Dict(WithPath(entries[i].value.entries, path[1..]).value));
        }
      }
    }
  }

  // Keys are distinct in every dictionary

  ghost predicate TidyEntry(e: Entry)
    decreases e, 0
  {
    e.value.Dict? ==> Tidy(e.value.entries)
  }

  ghost predicate Tidy(entries: seq<Entry>)
    decreases entries, 1
  {
    DistinctKeys(entries) && forall i :: 0 <= i < |entries| ==> TidyEntry(entries[i])
  }

  lemma TidyUpdate(entries: seq<Entry>, i: nat, value: Value)
    requires Tidy(entries) && i < |entries| && TidyEntry(Entry(entries[i].key, value))
    ensures Tidy(entries[i := Entry(entries[i].key, value)])
  {
    hide TidyEntry;
    var next := entries[i := Entry(entries[i].key, value)];
    assert forall j :: 0 <= j < |entries| ==> next[j].key == entries[j].key && (j != i ==> next[j] == entries[j]);
  }

  lemma TidyAppend(entries: seq<Entry>, key: string, value: Value)
    requires Tidy(entries) && IndexOf(entries, key) == |entries| && TidyEntry(Entry(key, value))
    ensures Tidy(entries + [Entry(key, value)])
  {
    hide TidyEntry;
  }

  lemma TidyPut(entries: seq<Entry>, key: string, text: string)
    requires Tidy(entries)
    ensures Tidy(Put(entries, key, Text(text)))
  {
    hide Tidy;
    var i := IndexOf(entries, key);
    if i < |entries| {
      TidyUpdate(entries, i, Text(text));
    } else {
      TidyAppend(entries, key, Text(text));
    }
  }

  lemma {:induction false} TidySet(entries: seq<Entry>, path: seq<string>, sub: seq<Entry>)
    requires Get(entries, path).Some? && Tidy(entries) && Tidy(sub)
    ensures Tidy(Set(entries, path, sub))
    decreases |path|
  {
    if path != [] {
      var i := IndexOf(entries, path[0]);
      assert TidyEntry(entries[i]);
      TidySet(entries[i].value.entries, path[1..], sub);
      TidyUpdate(entries, i, Dict(Set(entries[i].value.entries, path[1..], sub)));
    }
  }

  lemma {:induction false} TidyGet(entries: seq<Entry>, path: seq<string>)
    requires Tidy(entries) && Get(entries, path).Some?
    ensures Tidy(Get(entries, path).value)
    decreases |path|
  {
    if path != [] {
      var i := IndexOf(entries, path[0]);
      assert TidyEntry(entries[i]);
      TidyGet(entries[i].value.entries, path[1..]);
    }
  }

  lemma {:induction false} TidyWithPath(entries: seq<Entry>, path: seq<string>)
    requires Tidy(entries)
    ensures WithPath(entries, path).Some? ==> Tidy(WithPath(entries, path).value)
    decreases |path|
  {
    if path != [] && WithPath(entries, path).Some? {
      var i := IndexOf(entries, path[0]);
      if i == |entries| {
        TidyWithPath([], path[1..]);
        TidyAppend(entries, path[0], Dict(WithPath([], path[1..]).value));
      } else {
        assert TidyEntry(entries[i]);
        TidyWithPath(entries[i].value.entries, path[1..]);
        TidyUpdate(entries, i, Dict(WithPath(entries[i].value.entries, path[1..]).value));
      }
    }
  }
}
