/** What the cutter's parser and printer lose of a text that is no pipeline: never nothing. */
module PipelineLoss {
  import opened PipelineNames
  import opened PipelineTree
  import opened PipelinePrinter

  ghost predicate Texts(entries: seq<Entry>) {
    forall i :: 0 <= i < |entries| ==> entries[i].key != "" && entries[i].value.Text?
  }

  /** Symbols it takes to give the options that are kept, with a blank after each. */
  ghost function Cost(entries: seq<Entry>): nat {
    if entries == [] then 0
    else |entries[0].key| + (if entries[0].value.Text? then |entries[0].value.text| else 0) + 2 + Cost(entries[1..])
  }

  ghost function OptionsCost(options: seq<PassOption>): nat {
    if options == [] then 0 else |options[0].name| + |options[0].value| + 2 + OptionsCost(options[1..])
  }

  lemma {:induction false} TextCost(options: seq<PassOption>)
    requires options != []
    ensures |OptionsText(options)| + 1 == OptionsCost(options)
    decreases |options|
  {
    if |options| > 1 {
      TextCost(options[1..]);
    } else {
      assert OptionsCost(options[1..]) == 0;
    }
  }

  lemma {:induction false} PiecesCost(entries: seq<Entry>)
    requires Texts(entries)
    ensures OptionPieces(entries).Some? && |OptionPieces(entries).value| == Cost(entries)
    decreases |entries|
  {
    if entries != [] {
      PiecesCost(entries[1..]);
    }
  }

  lemma {:induction false} CostPush(entries: seq<Entry>, e: Entry)
    requires e.value.Text?
    ensures Cost(entries + [e]) == Cost(entries) + |e.key| + |e.value.text| + 2
    decreases |entries|
  {
    if entries == [] {
      assert entries + [e] == [e] && [e][1..] == [];
    } else {
      assert (entries + [e])[1..] == entries[1..] + [e];
      CostPush(entries[1..], e);
    }
  }

  lemma {:induction false} CostUpdate(entries: seq<Entry>, i: nat, value: string)
    requires i < |entries| && entries[i].value.Text?
    ensures Cost(entries[i := Entry(entries[i].key, Text(value))]) == Cost(entries) - |entries[i].value.text| + |value|
    decreases |entries|
  {
    var next := entries[i := Entry(entries[i].key, Text(value))];
    if i == 0 {
      assert next[1..] == entries[1..];
    } else {
      assert next[1..] == entries[1..][i - 1 := Entry(entries[i].key, Text(value))];
      CostUpdate(entries[1..], i - 1, value);
    }
  }

  /** An option that is given again costs more than is kept of it. */
  lemma PutCost(done: seq<Entry>, option: PassOption)
    requires Texts(done) && option.name != ""
    ensures var next := Put(done, option.name, Text(option.value));
      Texts(next) && Cost(next) <= Cost(done) + |option.name| + |option.value| + 2 &&
      (OptionsNew(done, [option]) || Cost(next) < Cost(done) + |option.name| + |option.value| + 2)
  {
    var i := IndexOf(done, option.name);
    if i < |done| {
      CostUpdate(done, i, option.value);
    } else {
      CostPush(done, Entry(option.name, Text(option.value)));
    }
  }

  lemma {:induction false} StoredCost(done: seq<Entry>, options: seq<PassOption>)
    requires Texts(done) && LegibleOptions(options)
    ensures Texts(Stored(done, options)) && Cost(Stored(done, options)) <= Cost(done) + OptionsCost(options)
    ensures Cost(Stored(done, options)) == Cost(done) + OptionsCost(options) ==>
      DistinctNames(options) && OptionsNew(done, options)
    decreases |options|
  {
    hide Cost, IndexOf, Texts, IsName, Put;
    if options != [] {
      var first, rest := options[0], options[1..];
      assert LegibleOption(first);
      NameNotEmpty(first.name);
      PutCost(done, first);
      var next := Put(done, first.name, Text(first.value));
      assert LegibleOptions(rest);
      StoredCost(next, rest);
      if OptionsNew(done, [first]) && DistinctNames(rest) && OptionsNew(next, rest) {
        AllDistinct(done, options);
      }
    }
  }

  lemma AllDistinct(done: seq<Entry>, options: seq<PassOption>)
    requires options != [] && OptionsNew(done, [options[0]]) && DistinctNames(options[1..])
    requires OptionsNew(Put(done, options[0].name, Text(options[0].value)), options[1..])
    ensures DistinctNames(options) && OptionsNew(done, options)
  {
    var first, rest := options[0], options[1..];
    assert forall i :: 0 <= i < |done| ==> done[i].key != [first][0].name;
    PutNew(done, first.name, Text(first.value));
    var next := done + [Entry(first.name, Text(first.value))];
    assert next[|done|].key == first.name;
    forall j | 0 < j < |options|
      ensures options[j].name != first.name && forall i :: 0 <= i < |done| ==> done[i].key != options[j].name
    {
      assert options[j] == rest[j - 1];
      assert forall i :: 0 <= i < |done| ==> next[i] == done[i];
    }
    forall i, j | 0 <= i < j < |options|
      ensures options[i].name != options[j].name
    {
      if i > 0 {
        assert options[i] == rest[i - 1] && options[j] == rest[j - 1];
      }
    }
  }

  /** Options of something that is taken for a pass manager. */
  lemma {:induction false} ManagedCost(entries: seq<Entry>)
    requires Texts(entries) && entries != []
    ensures PrintPipeline(entries).Some? ==> |PrintPipeline(entries).value| + 2 <= Cost(entries)
    decreases |entries|
  {
    CanonizeShorter(entries[0].key);
    hide IsObject, Canonize;
    if |entries| > 1 {
      ManagedCost(entries[1..]);
    } else {
      assert entries[1..] == [];
    }
  }

  lemma {:induction false} CanonizeShorter(name: string)
    ensures |Canonize(name)| <= |name|
    decreases |name|
  {
    if name != "" {
      CanonizeShorter(name[1..]);
    }
  }

  // Items

  /** No text, or a shorter one, or the same length if nothing is wrong. */
  ghost predicate Loses(printed: Option<string>, text: string, good: bool) {
    printed.Some? ==> |printed.value| <= |text| && (!good ==> |printed.value| < |text|)
  }

  lemma OptionsLose(options: seq<PassOption>)
    requires LegibleOptions(options)
    ensures Loses(PrintOptions(OptionEntries(options)), OptionsText(options), DistinctNames(options))
    ensures PrintPipeline(OptionEntries(options)).Some? ==>
      |PrintPipeline(OptionEntries(options)).value| < |OptionsText(options)|
  {
    hide Stored, DistinctNames;
    if options == [] {
      BlankEntry();
      PassPrints(options);
    } else {
      StoredCost([], options);
      OptionsThere(options);
      TextCost(options);
      PiecesCost(OptionEntries(options));
      ManagedCost(OptionEntries(options));
    }
  }

  lemma BlankEntry()
    ensures PrintPipeline(OptionEntries([])) == Some("") && DistinctNames([])
  {
    var entries := OptionEntries([]);
    assert entries[1..] == [] && PrintPipeline(entries[1..]) == Some("");
    assert !IsObject("") && "" + "" == "";
  }

  lemma PrintSplit(entries: seq<Entry>)
    requires |entries| > 1 && entries[0].value.Dict?
    ensures PrintPipeline(entries).Some? <==> PrintPipeline([entries[0]]).Some? && PrintPipeline(entries[1..]).Some?
    ensures PrintPipeline(entries).Some? ==>
      |PrintPipeline(entries).value| == |PrintPipeline([entries[0]]).value| + 1 + |PrintPipeline(entries[1..]).value|
  {
    hide IsObject, Canonize, PrintOptions;
    assert [entries[0]][1..] == [] && PrintPipeline([entries[0]][1..]) == Some("");
  }

  lemma {:induction false} AllLose(entries: seq<Entry>, items: seq<Item>)
    requires RepresentsAll(entries, items) && AllLegible(items)
    ensures Loses(PrintPipeline(entries), ItemsText(items), GoodItems(items))
    decreases items, 0
  {
    hide IsObject, Canonize, PrintOptions, Represents, Legible, GoodItem;
    if items != [] {
      OneLoses(entries[0], items[0], items);
      RestRepresents(entries, items);
      AllLose(entries[1..], items[1..]);
      if |items| == 1 {
        assert entries == [entries[0]] && items == [items[0]];
      } else {
        IsDict(entries[0], items[0]);
        PrintSplit(entries);
        ItemsTextSplit(items);
        GoodSplit(items);
      }
    }
  }

  lemma IsDict(e: Entry, item: Item)
    requires Represents(e, item)
    ensures e.value.Dict?
  {
  }

  lemma GoodSplit(items: seq<Item>)
    requires items != []
    ensures GoodItems(items) <==> GoodItem(items[0]) && GoodItems(items[1..])
  {
    hide GoodItem;
    assert forall i :: 0 < i < |items| ==> items[i] == items[1..][i - 1];
  }

  lemma {:induction false} OneLoses(e: Entry, item: Item, items: seq<Item>)
    requires items != [] && item == items[0] && Represents(e, item) && Legible(item)
    ensures Loses(PrintPipeline([e]), ItemsText([item]), GoodItem(item))
    decreases item, 1
  {
    hide IsObject, Canonize, PrintOptions, KeyOf, LegibleOptions, DistinctNames, IsName, OptionEntries, OptionsText;
    NamePrints(e.key, item.name);
    NameNotEmpty(item.name);
    assert [e][1..] == [] && PrintPipeline([e][1..]) == Some("");
    match item
    case Pass(name) =>
    case PassWith(name, options) =>
      OptionsThere(options);
      OptionsLose(options);
    case Object(name, inner) =>
      if inner != [] {
        AllLose(e.value.entries, inner);
        if !IsObject(e.key) {
          ManagerAsPass(e.value.entries, inner);
        }
      }
  }

  /** Items cannot be printed as if they were options. */
  lemma ManagerAsPass(entries: seq<Entry>, items: seq<Item>)
    requires RepresentsAll(entries, items) && AllLegible(items) && items != []
    ensures PrintOptions(entries).None?
  {
    assert Represents(entries[0], items[0]) && Legible(items[0]);
    assert entries[0].key != "";
  }
}
