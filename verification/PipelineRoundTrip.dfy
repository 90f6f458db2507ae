/** Reading a well-formed pipeline and printing the tree gives back the text. */
module PipelineRoundTrip {
  import opened PipelineNames
  import opened PipelineTree
  import opened PipelinePrinter
  import opened PipelineParser

  // Options

  lemma PutAgain(done: seq<Entry>, key: string, before: Value, value: Value)
    ensures Put(Put(done, key, before), key, value) == Put(done, key, value)
  {
    var i := IndexOf(done, key);
    if i < |done| {
      IndexStays(done, i, before);
    } else {
      IndexAppended(done, key, before);
    }
  }

  lemma SetOptionPuts(c: Ctx, dict: seq<Entry>, key: string, value: string)
    requires Get(c.tree, c.nested) == Some(dict)
    ensures SetOption(c, key, value) == Ok(c.(tree := Set(c.tree, c.nested, Put(dict, key, Text(value)))))
  {
    WithKnownPath(c.tree, c.nested);
  }

  /** Inside a pass, with the options read so far. */
  ghost predicate InPass(c: Ctx, done: seq<Entry>) {
    c.state.PassState? && c.accumulated == "" && c.optionName == "" && Get(c.tree, c.nested) == Some(done)
  }

  ghost function WithOptions(c: Ctx, options: seq<Entry>): Ctx
    requires Get(c.tree, c.nested).Some?
  {
    c.(tree := Set(c.tree, c.nested, options))
  }

  /** One option, up to the symbol behind it. */
  lemma RunOption(c: Ctx, done: seq<Entry>, option: PassOption) returns (d: Ctx)
    requires InPass(c, done) && LegibleOption(option)
    ensures Run(c, option.name + "=" + option.value) == Ok(d) && d.state.PassState?
    ensures OnFinalizeOptionValue(d) == Ok(WithOptions(c, Put(done, option.name, Text(option.value))))
  {
    hide Get, Set, Put, IndexOf, WithPath;
    var name, value := option.name, option.value;
    RunWord(c, name);
    var c1 := c.(accumulated := name);
    assert c.accumulated + name == name;
    var named := Put(done, name, Text(""));
    SetOptionPuts(c1, done, name, "");
    GetSet(c.tree, c.nested, named);
    var c2 := c.(tree := Set(c.tree, c.nested, named), optionName := name);
    assert Step(c1, '=') == Ok(c2);
    RunSymbol(c, name, '=', value);
    RunWord(c2, value);
    assert c2.accumulated + value == value;
    d := c2.(accumulated := value);
    SetOptionPuts(d, named, name, value);
    PutAgain(done, name, Text(""), Text(value));
    SetSet(c.tree, c.nested, named, Put(done, name, Text(value)));
  }

  lemma {:induction false} RunOptions(c: Ctx, done: seq<Entry>, options: seq<PassOption>) returns (d: Ctx)
    requires InPass(c, done) && options != [] && LegibleOptions(options)
    ensures Run(c, OptionsText(options)) == Ok(d) && d.state.PassState?
    ensures OnFinalizeOptionValue(d) == Ok(WithOptions(c, Stored(done, options)))
    decreases |options|
  {
    hide Get, Set, Put, LegibleOption, OnFinalizeOptionValue, Run;
    var first, rest := options[0], options[1..];
    var c1 := RunOption(c, done, first);
    var next := Put(done, first.name, Text(first.value));
    if |options| == 1 {
      d := c1;
      assert rest == [] && Stored(next, rest) == next;
    } else {
      var c2 := WithOptions(c, next);
      GetSet(c.tree, c.nested, next);
      d := RunOptions(c2, next, rest);
      SetSet(c.tree, c.nested, next, Stored(next, rest));
      assert Step(c1, ' ') == Ok(c2);
      RunSymbol(c, first.name + "=" + first.value, ' ', OptionsText(rest));
      assert first.name + "=" + first.value + " " + OptionsText(rest) == OptionsText(options);
    }
  }

  /** A blank instead of options. */
  lemma RunBlank(c: Ctx)
    requires InPass(c, [])
    ensures Run(c, " ") == Ok(WithOptions(c, OptionEntries([])))
    ensures OnFinalizeOptionValue(WithOptions(c, OptionEntries([]))) == Ok(WithOptions(c, OptionEntries([])))
  {
    hide Get, Set, Put, WithPath, Run, Step;
    var entries := [Entry("", Text(""))];
    var d := WithOptions(c, entries);
    SetOptionPuts(c, [], "", "");
    PutNew([], "", Text(""));
    assert [] + entries == entries;
    StepBlank(c);
    GetSet(c.tree, c.nested, entries);
    SetOptionPuts(d, entries, "", "");
    PutAgain([], "", Text(""), Text(""));
    SetSet(c.tree, c.nested, entries, entries);
    RunOne(c, ' ');
  }

  lemma StepBlank(c: Ctx)
    requires c.state.PassState?
    ensures Step(c, ' ') == Into(OnFinalizeOptionValue(c), PassState)
    ensures Step(c, '}') == Into(OnFinalizePass(c), ObjectState)
  {
    hide OnFinalizeOptionValue, OnFinalizePass;
  }

  lemma SomeOptions(options: seq<PassOption>)
    requires options != []
    ensures OptionEntries(options) == Stored([], options)
  {
  }

  /** The options of a pass, with the brace behind them. */
  lemma RunAllOptions(c: Ctx, options: seq<PassOption>)
    requires InPass(c, []) && LegibleOptions(options) && c.nested != []
    ensures Run(c, OptionsText(options) + "}") == Into(WithOptions(c, OptionEntries(options)).Pop(), ObjectState)
  {
    hide Get, Set, LegibleOptions, Stored, Run, Step, OnFinalizeOptionValue, OptionEntries;
    var d;
    if options == [] {
      RunBlank(c);
      d := WithOptions(c, OptionEntries(options));
    } else {
      d := RunOptions(c, [], options);
      SomeOptions(options);
    }
    RunConcat(c, OptionsText(options), "}");
    RunOne(d, '}');
    StepBlank(d);
  }

  lemma RunOne(c: Ctx, ch: char)
    ensures Run(c, [ch]) == Step(c, ch)
  {
    hide Step;
    var r := Step(c, ch);
    assert [ch][1..] == "";
    if r.Ok? {
      assert Run(r.ctx, "") == r;
    }
  }

  // Items

  /** Ready for the first or the next item. */
  ghost predicate Ready(c: Ctx, dict: seq<Entry>) {
    !c.state.PassState? && c.accumulated == "" && c.optionName == "" && At(c, dict)
  }

  /** `more` has been put behind the dictionary at hand, and nothing else has changed. */
  ghost predicate Added(c: Ctx, dict: seq<Entry>, d: Ctx, more: seq<Entry>)
    requires Get(c.tree, c.nested).Some?
  {
    && d.nested == c.nested && d.tree == Set(c.tree, c.nested, dict + more)
    && c.history <= d.history && c.counter <= d.counter && d.state.ObjectState? && Ready(d, dict + more)
  }

  lemma OneAdded(c: Ctx, dict: seq<Entry>, d: Ctx, e: Entry)
    requires Ready(c, dict) && d.nested == c.nested && d.tree == Set(c.tree, c.nested, dict + [e])
    requires c.history <= d.history && c.counter <= d.counter && d.state.ObjectState? && d.accumulated == ""
    requires d.optionName == ""
    requires Known(d.history, d.counter, c.nested, dict + [e]) && DistinctKeys(dict + [e])
    ensures Added(c, dict, d, [e])
  {
    hide Get, Set, Known, DistinctKeys;
    GetSet(c.tree, c.nested, dict + [e]);
  }

  lemma AddedTwice(c: Ctx, dict: seq<Entry>, d: Ctx, e: Entry, d2: Ctx, more: seq<Entry>)
    requires Ready(c, dict) && Added(c, dict, d, [e]) && Added(d, dict + [e], d2, more)
    ensures Added(c, dict, d2, [e] + more)
  {
    hide Get, Set, Known, DistinctKeys;
    SetSet(c.tree, c.nested, dict + [e], dict + [e] + more);
    assert dict + [e] + more == dict + ([e] + more);
  }

  /** The name of an item has been read. */
  ghost function Named(c: Ctx, name: string): Ctx {
    c.(accumulated := name, state := ObjectState)
  }

  lemma RunName(c: Ctx, dict: seq<Entry>, name: string)
    requires Ready(c, dict) && IsName(name)
    ensures Run(c, name) == Ok(Named(c, name)) && At(Named(c, name), dict) && Get(c.tree, c.nested) == Some(dict)
    ensures KeyOf(NewKey(Named(c, name)), name)
    ensures OnCreateObject(Named(c, name)) == Ok(Created(Named(c, name), dict))
  {
    hide Get, Set, Known, DistinctKeys, Run, OnCreateObject, Created, NewKey, KeyOf;
    RunWord(c, name);
    assert c.accumulated + name == name;
    CreateAppends(Named(c, name), dict);
  }

  /** A pass without options is not put into the tree before the symbol behind it. */
  lemma RunPass(c: Ctx, dict: seq<Entry>, item: Item) returns (d: Ctx, e: Entry)
    requires Ready(c, dict) && Legible(item) && item.Pass?
    ensures Run(c, ItemsText([item])) == Ok(Named(c, item.name)) && OnFinalizeEntity(Named(c, item.name)) == Ok(d)
    ensures Added(c, dict, d, [e]) && Represents(e, item)
  {
    hide Get, Set, Known, DistinctKeys, Run, At, Join, NewKey, KeyOf;
    var n := Named(c, item.name);
    RunName(c, dict, item.name);
    NewKeyAppends(n, dict);
    NewKeyKnown(n, dict, Dict([]));
    e := Entry(NewKey(n), Dict([]));
    var made := Created(n, dict);
    assert made.nested[..|made.nested| - 1] == c.nested;
    d := made.(nested := c.nested);
    OneAdded(c, dict, d, e);
  }

  /** Inside the node that has just been created. */
  lemma InsideCreated(c: Ctx, dict: seq<Entry>)
    requires Word(c.accumulated) && At(c, dict)
    ensures var d := Created(c, dict); Get(d.tree, d.nested) == Some([]) && At(d, [])
  {
    hide KnownKey, NewKey;
    NewKeyAppends(c, dict);
    var key := NewKey(c);
    GetSet(c.tree, c.nested, dict + [Entry(key, Dict([]))]);
    StepInto(Created(c, dict).tree, c.nested, dict, key, []);
  }

  lemma FilledCreated(c: Ctx, dict: seq<Entry>, inner: seq<Entry>)
    requires Word(c.accumulated) && At(c, dict)
    ensures var d := Created(c, dict);
      && Get(d.tree, d.nested).Some?
      && Set(d.tree, d.nested, inner) == Set(c.tree, c.nested, dict + [Entry(NewKey(c), Dict(inner))])
  {
    hide Known, KnownKey, NewKey;
    NewKeyAppends(c, dict);
    var key := NewKey(c);
    var tree := Created(c, dict).tree;
    GetSet(c.tree, c.nested, dict + [Entry(key, Dict([]))]);
    StepInto(tree, c.nested, dict, key, []);
    SetInto(tree, c.nested, dict, key, [], inner);
    SetSet(c.tree, c.nested, dict + [Entry(key, Dict([]))], dict + [Entry(key, Dict(inner))]);
  }

  lemma KeysAlike(dict: seq<Entry>, key: string, a: Value, b: Value)
    requires DistinctKeys(dict + [Entry(key, a)])
    ensures DistinctKeys(dict + [Entry(key, b)])
  {
    forall i, j | 0 <= i < j < |dict| + 1
      ensures (dict + [Entry(key, b)])[i].key != (dict + [Entry(key, b)])[j].key
    {
      assert (dict + [Entry(key, a)])[i].key != (dict + [Entry(key, a)])[j].key;
    }
  }

  lemma RunPassWith(c: Ctx, dict: seq<Entry>, item: Item) returns (d: Ctx, e: Entry)
    requires Ready(c, dict) && Legible(item) && item.PassWith?
    ensures Run(c, ItemsText([item])) == Ok(d) && Added(c, dict, d, [e]) && Represents(e, item)
  {
    hide Get, Set, Known, DistinctKeys, Run, At, Join, NewKey, KeyOf, OptionsText, OptionEntries, OnCreateObject,
      OnFinalizePass;
    var n := Named(c, item.name);
    RunName(c, dict, item.name);
    InsideCreated(n, dict);
    FilledCreated(n, dict, OptionEntries(item.options));
    NewKeyAppends(n, dict);
    var value := Dict(OptionEntries(item.options));
    NewKeyKnown(n, dict, value);
    KeysAlike(dict, NewKey(n), Dict([]), value);
    e := Entry(NewKey(n), value);
    var inside := Created(n, dict).(state := PassState);
    assert Step(n, '{') == Ok(inside);
    RunSymbol(c, item.name, '{', OptionsText(item.options) + "}");
    RunAllOptions(inside, item.options);
    assert inside.nested[..|inside.nested| - 1] == c.nested;
    d := WithOptions(inside, OptionEntries(item.options)).(nested := c.nested, state := ObjectState);
    assert ItemsText([item]) == item.name + "{" + (OptionsText(item.options) + "}");
    OneAdded(c, dict, d, e);
  }

  /** Every well-formed list of items is read, whatever has been read before; the last one may still
      wait for the symbol behind it. */
  lemma {:induction false} RunItems(c: Ctx, dict: seq<Entry>, items: seq<Item>)
    returns (c1: Ctx, d: Ctx, more: seq<Entry>)
    requires Ready(c, dict) && AllLegible(items) && items != []
    ensures Run(c, ItemsText(items)) == Ok(c1) && c1.state.ObjectState? && OnFinalizeEntity(c1) == Ok(d)
    ensures Added(c, dict, d, more) && RepresentsAll(more, items)
    ensures items[|items| - 1].Pass? <==> c1.accumulated != ""
    decreases items, 0
  {
    hide Ready, Added, Represents, Legible, Run, OnFinalizeEntity, DistinctKeys, Set, Get;
    var first, rest := items[0], items[1..];
    var e;
    c1, d, e := RunFirst(c, dict, items);
    if |items| == 1 {
      more := [e];
      assert items == [first];
      MoreDistinct(c, dict, d, more);
    } else {
      var c2, d2, others := c1, d, [];
      AddedReady(c, dict, d, [e]);
      assert forall i :: 0 <= i < |rest| ==> rest[i] == items[i + 1];
      c2, d2, others := RunItems(d, dict + [e], rest);
      RunComma(c, c1, d, ItemsText([first]), ItemsText(rest));
      ItemsTextSplit(items);
      AddedTwice(c, dict, d, e, d2, others);
      c1, d, more := c2, d2, [e] + others;
      MoreDistinct(c, dict, d, more);
    }
  }

  lemma AddedReady(c: Ctx, dict: seq<Entry>, d: Ctx, more: seq<Entry>)
    requires Ready(c, dict) && Added(c, dict, d, more)
    ensures Ready(d, dict + more) && d.state.ObjectState?
  {
  }

  lemma MoreDistinct(c: Ctx, dict: seq<Entry>, d: Ctx, more: seq<Entry>)
    requires Ready(c, dict) && Added(c, dict, d, more)
    ensures DistinctKeys(more)
  {
    hide Get, Set, Known;
    var all := dict + more;
    forall i, j | 0 <= i < j < |more|
      ensures more[i].key != more[j].key
    {
      var x, y := |dict| + i, |dict| + j;
      assert all[x].key != all[y].key;
    }
  }

  lemma RunComma(c: Ctx, c1: Ctx, d: Ctx, a: string, b: string)
    requires Run(c, a) == Ok(c1) && c1.state.ObjectState? && OnFinalizeEntity(c1) == Ok(d) && d.state.ObjectState?
    ensures Run(c, a + "," + b) == Run(d, b)
  {
    hide Run, OnFinalizeEntity;
    assert Step(c1, ',') == Ok(d);
    RunSymbol(c, a, ',', b);
  }

  lemma {:induction false} RunFirst(c: Ctx, dict: seq<Entry>, items: seq<Item>) returns (c1: Ctx, d: Ctx, e: Entry)
    requires Ready(c, dict) && AllLegible(items) && items != []
    ensures Run(c, ItemsText([items[0]])) == Ok(c1) && c1.state.ObjectState? && OnFinalizeEntity(c1) == Ok(d)
    ensures Added(c, dict, d, [e]) && Represents(e, items[0]) && (items[0].Pass? <==> c1.accumulated != "")
    decreases items[0], 1
  {
    hide Added, Represents, Run, LegibleOptions, At;
    var item := items[0];
    assert Legible(item);
    match item
    case Pass(name) =>
      d, e := RunPass(c, dict, item);
      c1 := Named(c, name);
    case PassWith(name, options) =>
      d, e := RunPassWith(c, dict, item);
      AddedReady(c, dict, d, [e]);
      c1 := d;
    case Object(name, inner) =>
      var n := Named(c, name);
      RunName(c, dict, name);
      InsideCreated(n, dict);
      var inside := Created(n, dict);
      assert Ready(inside, []);
      var c2, d2, more := inside, inside, [];
      if inner != [] {
        c2, d2, more := RunItems(inside, [], inner);
      } else {
        NothingAdded(inside);
      }
      d, e := RunObject(c, dict, item, c2, d2, more);
      AddedReady(c, dict, d, [e]);
      c1 := d;
  }

  lemma NothingAdded(c: Ctx)
    requires Ready(c, []) && c.state.ObjectState?
    ensures Run(c, "") == Ok(c) && OnFinalizeEntity(c) == Ok(c) && Added(c, [], c, []) && RepresentsAll([], [])
  {
    hide Get, Set, Known;
    var none: seq<Entry> := [];
    assert none + none == none;
    SetSame(c.tree, c.nested);
  }

  lemma RunObject(c: Ctx, dict: seq<Entry>, item: Item, c2: Ctx, d2: Ctx, more: seq<Entry>) returns (d: Ctx, e: Entry)
    requires Ready(c, dict) && Legible(item) && item.Object?
    requires Ready(Created(Named(c, item.name), dict), [])
    requires Run(Created(Named(c, item.name), dict), ItemsText(item.items)) == Ok(c2)
    requires c2.state.ObjectState? && OnFinalizeEntity(c2) == Ok(d2)
    requires Added(Created(Named(c, item.name), dict), [], d2, more) && RepresentsAll(more, item.items)
    ensures Run(c, ItemsText([item])) == Ok(d) && Added(c, dict, d, [e]) && Represents(e, item)
  {
    hide Get, Set, Known, Run, Join, NewKey, KeyOf, OnCreateObject, OnFinalizeEntity, DistinctKeys, ItemsText;
    var n := Named(c, item.name);
    RunName(c, dict, item.name);
    var inside := Created(n, dict);
    FilledCreated(n, dict, more);
    NewKeyAppends(n, dict);
    NewKeyKnown(n, dict, Dict(more));
    KeysAlike(dict, NewKey(n), Dict([]), Dict(more));
    e := Entry(NewKey(n), Dict(more));
    assert [] + more == more;
    assert Step(n, '(') == Ok(inside);
    assert inside.nested[..|inside.nested| - 1] == c.nested;
    d := d2.(nested := c.nested);
    assert Step(c2, ')') == Ok(d);
    RunConcat(inside, ItemsText(item.items), ")");
    RunOne(c2, ')');
    RunSymbol(c, item.name, '(', ItemsText(item.items) + ")");
    ObjectText(item);
    KnownGrows(inside.history, inside.counter, c.nested, dict + [e], d.history, d.counter);
    OneAdded(c, dict, d, e);
  }

  lemma ObjectText(item: Item)
    requires item.Object?
    ensures ItemsText([item]) == item.name + "(" + (ItemsText(item.items) + ")")
  {
  }
}
