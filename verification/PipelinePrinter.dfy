/** Textual pipelines, the trees that stand for them, and the printer. */
module PipelinePrinter {
  import opened PipelineNames
  import opened PipelineTree

  datatype PassOption = PassOption(name: string, value: string)

  /** A pass, a pass with options, or a pass manager with what it runs. */
  datatype Item =
    | Pass(name: string)
    | PassWith(name: string, options: seq<PassOption>)
    | Object(name: string, items: seq<Item>)

  // Pipelines as text

  function OptionsText(options: seq<PassOption>): string {
    if options == [] then " "
    else if |options| == 1 then options[0].name + "=" + options[0].value
    else options[0].name + "=" + options[0].value + " " + OptionsText(options[1..])
  }

  function ItemsText(items: seq<Item>): string {
    if items == [] then ""
    else
      var text := match items[0]
        case Pass(name) => name
        case PassWith(name, options) => name + "{" + OptionsText(options) + "}"
        case Object(name, inner) => name + "(" + ItemsText(inner) + ")";
      if |items| == 1 then text else text + "," + ItemsText(items[1..])
  }

  lemma ItemsTextSplit(items: seq<Item>)
    requires |items| > 1
    ensures ItemsText(items) == ItemsText([items[0]]) + "," + ItemsText(items[1..])
  {
  }

  // What can be read at all, and what is a pipeline

  ghost predicate LegibleOption(option: PassOption) {
    IsName(option.name) && Word(option.value)
  }

  ghost predicate LegibleOptions(options: seq<PassOption>) {
    forall i :: 0 <= i < |options| ==> LegibleOption(options[i])
  }

  /** Names and values consist of the symbols the parser accepts. */
  ghost predicate Legible(item: Item) {
    && IsName(item.name)
    && (item.PassWith? ==> LegibleOptions(item.options))
    && (item.Object? ==> forall i :: 0 <= i < |item.items| ==> Legible(item.items[i]))
  }

  ghost predicate AllLegible(items: seq<Item>) {
    forall i :: 0 <= i < |items| ==> Legible(items[i])
  }

  ghost predicate DistinctNames(options: seq<PassOption>) {
    forall i, j :: 0 <= i < j < |options| ==> options[i].name != options[j].name
  }

  /** Pass managers are told from passes with options by their names; they are not empty, and no
      option is given twice. */
  ghost predicate GoodItem(item: Item) {
    && (item.PassWith? ==> !IsObject(item.name) && DistinctNames(item.options))
    && (item.Object? ==> IsObject(item.name) && item.items != [] && forall i :: 0 <= i < |item.items| ==>
          GoodItem(item.items[i]))
  }

  ghost predicate GoodItems(items: seq<Item>) {
    forall i :: 0 <= i < |items| ==> GoodItem(items[i])
  }

  // Trees that stand for pipelines

  /** Options as they are kept: an option that is given again takes the place of the first one. */
  ghost function Stored(done: seq<Entry>, options: seq<PassOption>): seq<Entry>
    decreases |options|
  {
    if options == [] then done else Stored(Put(done, options[0].name, Text(options[0].value)), options[1..])
  }

  /** An empty list of options leaves one empty text under an empty name. */
  ghost function OptionEntries(options: seq<PassOption>): seq<Entry> {
    if options == [] then [Entry("", Text(""))] else Stored([], options)
  }

  ghost predicate Represents(e: Entry, item: Item)
    decreases item
  {
    && KeyOf(e.key, item.name) && e.value.Dict?
    && match item
       case Pass(_) => e.value.entries == []
       case PassWith(_, options) => e.value.entries == OptionEntries(options)
       case Object(_, items) =>
         && |e.value.entries| == |items| && DistinctKeys(e.value.entries)
         && forall i :: 0 <= i < |items| ==> Represents(e.value.entries[i], items[i])
  }

  ghost predicate RepresentsAll(entries: seq<Entry>, items: seq<Item>) {
    && |entries| == |items| && DistinctKeys(entries)
    && forall i :: 0 <= i < |items| ==> Represents(entries[i], items[i])
  }

  // The printer

  function Joined(a: Option<string>, b: Option<string>): Option<string> {
    if a.Some? && b.Some? then Some(a.value + b.value) else None
  }

  /** One option with the blank after it. */
  function Piece(e: Entry): Option<string> {
    if e.key == "" then Some("  ")
    else if e.value.Text? then Some(e.key + "=" + e.value.text + " ")
    else None
  }

  function OptionPieces(options: seq<Entry>): Option<string> {
    if options == [] then Some("") else Joined(Piece(options[0]), OptionPieces(options[1..]))
  }

  function PrintOptions(options: seq<Entry>): Option<string> {
    var pieces := OptionPieces(options);
    if pieces.Some? && pieces.value != "" then Some(pieces.value[..|pieces.value| - 1]) else None
  }

  /** `print_pipeline`; there is no text for trees that print no pipeline. */
  function PrintPipeline(pipeline: seq<Entry>): Option<string> {
    if pipeline == [] then Some("")
    else
      var name := Canonize(pipeline[0].key);
      var sep := if |pipeline| == 1 then "" else ",";
      var text :=
        match pipeline[0].value
        case Text(t) => if !IsObject(pipeline[0].key) then Some("") else if t == "" then Some(name + sep) else None
        case Dict(inner) =>
          if inner == [] then Some(name + sep)
          else if IsObject(pipeline[0].key) then Joined(Joined(Some(name + "("), PrintPipeline(inner)), Some(")" + sep))
          else Joined(Joined(Some(name + "{"), PrintOptions(inner)), Some("}" + sep));
      Joined(text, PrintPipeline(pipeline[1..]))
  }

  lemma PutNew(done: seq<Entry>, key: string, value: Value)
    requires forall i :: 0 <= i < |done| ==> done[i].key != key
    ensures Put(done, key, value) == done + [Entry(key, value)]
  {
    assert IndexOf(done, key) == |done|;
  }

  ghost predicate OptionsNew(done: seq<Entry>, options: seq<PassOption>) {
    forall i, j :: 0 <= i < |done| && 0 <= j < |options| ==> done[i].key != options[j].name
  }

  lemma RestNew(done: seq<Entry>, options: seq<PassOption>)
    requires options != [] && DistinctNames(options) && OptionsNew(done, options)
    ensures DistinctNames(options[1..])
    ensures OptionsNew(done + [Entry(options[0].name, Text(options[0].value))], options[1..])
    ensures Put(done, options[0].name, Text(options[0].value)) ==
      done + [Entry(options[0].name, Text(options[0].value))]
  {
    assert forall i :: 0 <= i < |options| - 1 ==> options[1..][i] == options[i + 1];
    PutNew(done, options[0].name, Text(options[0].value));
  }

  lemma JoinedTwice(a: Option<string>, b: Option<string>, c: Option<string>)
    ensures Joined(Joined(a, b), c) == Joined(a, Joined(b, c)) && Joined(a, Some("")) == a == Joined(Some(""), a)
  {
    if a.Some? {
      assert a.value + "" == a.value == "" + a.value;
      if b.Some? && c.Some? {
        assert a.value + b.value + c.value == a.value + (b.value + c.value);
      }
    }
  }

  /** The printer goes through the options in order. */
  lemma {:induction false} PiecesPush(done: seq<Entry>, e: Entry)
    ensures OptionPieces(done + [e]) == Joined(OptionPieces(done), Piece(e))
    decreases |done|
  {
    hide Piece, Joined;
    if done == [] {
      assert done + [e] == [e] && [e][1..] == [];
      assert OptionPieces([e]) == Joined(Piece(e), OptionPieces([]));
      JoinedTwice(Piece(e), Piece(e), Piece(e));
    } else {
      assert (done + [e])[1..] == done[1..] + [e];
      PiecesPush(done[1..], e);
      JoinedTwice(Piece(done[0]), OptionPieces(done[1..]), Piece(e));
    }
  }

  /** Distinct options are printed as they were given. */
  lemma {:induction false} OptionsPrint(done: seq<Entry>, options: seq<PassOption>, before: string)
    requires options != [] && LegibleOptions(options) && DistinctNames(options) && OptionsNew(done, options)
    requires OptionPieces(done) == Some(before)
    ensures OptionPieces(Stored(done, options)) == Some(before + OptionsText(options) + " ")
    decreases |options|
  {
    hide OptionPieces, OptionsNew, DistinctNames, IsName, Word, OptionsText;
    var first, rest := options[0], options[1..];
    var e := Entry(first.name, Text(first.value));
    RestNew(done, options);
    assert LegibleOption(first);
    NameNotEmpty(first.name);
    PiecesPush(done, e);
    var next := before + (first.name + "=" + first.value + " ");
    assert OptionPieces(done + [e]) == Some(next);
    if |options| == 1 {
      assert rest == [] && Stored(done + [e], rest) == done + [e];
      NextOption(before, options);
    } else {
      assert LegibleOptions(rest);
      OptionsPrint(done + [e], rest, next);
      NextOption(before, options);
    }
  }

  lemma NextOption(before: string, options: seq<PassOption>)
    requires options != []
    ensures var next := before + (options[0].name + "=" + options[0].value + " ");
      before + OptionsText(options) + " " == if |options| == 1 then next else next + OptionsText(options[1..]) + " "
  {
    Blanks(before, options[0].name + "=" + options[0].value, if |options| == 1 then "" else OptionsText(options[1..]));
  }

  lemma Blanks(before: string, text: string, rest: string)
    ensures before + text + " " == before + (text + " ")
    ensures before + (text + " " + rest) + " " == before + (text + " ") + rest + " "
  {
  }

  lemma NameNotEmpty(name: string)
    requires IsName(name)
    ensures name != ""
  {
  }

  lemma PassPrints(options: seq<PassOption>)
    requires LegibleOptions(options) && DistinctNames(options)
    ensures PrintOptions(OptionEntries(options)) == Some(OptionsText(options))
  {
    if options == [] {
      var entries := OptionEntries(options);
      assert entries[1..] == [];
      assert OptionPieces(entries[1..]) == Some("");
      assert "  " + "" == "  " && "  "[..1] == " ";
    } else {
      assert OptionPieces([]) == Some("");
      OptionsPrint([], options, "");
      var text := OptionsText(options);
      assert "" + text + " " == text + " " && (text + " ")[..|text + " "| - 1] == text;
    }
  }

  lemma {:induction false} StoredSome(done: seq<Entry>, options: seq<PassOption>)
    requires done != [] || options != []
    ensures Stored(done, options) != []
    decreases |options|
  {
    if options != [] {
      StoredSome(Put(done, options[0].name, Text(options[0].value)), options[1..]);
    }
  }

  lemma OptionsThere(options: seq<PassOption>)
    ensures OptionEntries(options) != []
  {
    if options != [] {
      StoredSome([], options);
    }
  }

  lemma RestRepresents(entries: seq<Entry>, items: seq<Item>)
    requires RepresentsAll(entries, items) && AllLegible(items) && items != []
    ensures RepresentsAll(entries[1..], items[1..]) && AllLegible(items[1..])
    ensures (GoodItems(items) ==> GoodItems(items[1..]))
  {
    hide Represents, GoodItem, Legible;
    assert forall i :: 0 <= i < |items| - 1 ==> entries[1..][i] == entries[i + 1] && items[1..][i] == items[i + 1];
  }

  lemma PrintsPass(entries: seq<Entry>, items: seq<Item>)
    requires RepresentsAll(entries, items) && AllLegible(items) && GoodItems(items) && items != [] && !items[0].Object?
    requires PrintPipeline(entries[1..]) == Some(ItemsText(items[1..]))
    ensures PrintPipeline(entries) == Some(ItemsText(items))
  {
    hide OptionEntries, OptionsText, PrintOptions, KeyOf, LegibleOptions, DistinctNames, IsObject, Canonize,
      DistinctKeys, IsName;
    var e, item := entries[0], items[0];
    assert Represents(e, item) && GoodItem(item) && Legible(item);
    NamePrints(e.key, item.name);
    var sep := if |items| == 1 then "" else ",";
    match item
    case Pass(name) =>
      assert |items| > 1 ==> name + "," + ItemsText(items[1..]) == ItemsText(items);
      assert |items| == 1 ==> items[1..] == [] && name + "" + "" == ItemsText(items);
    case PassWith(name, options) =>
      PassPrints(options);
      OptionsThere(options);
      Regroup(name, "{", OptionsText(options), "}", sep, ItemsText(items[1..]));
      assert !IsObject(e.key) && e.value.entries == OptionEntries(options) != [];
      assert (name + "{" + OptionsText(options) + "}") + sep + ItemsText(items[1..]) == ItemsText(items);
  }

  lemma PrintsObject(entries: seq<Entry>, items: seq<Item>)
    requires RepresentsAll(entries, items) && AllLegible(items) && GoodItems(items) && items != [] && items[0].Object?
    requires PrintPipeline(entries[1..]) == Some(ItemsText(items[1..]))
    requires entries[0].value.Dict? && PrintPipeline(entries[0].value.entries) == Some(ItemsText(items[0].items))
    ensures PrintPipeline(entries) == Some(ItemsText(items))
  {
    hide OptionEntries, OptionsText, PrintOptions, KeyOf, LegibleOptions, DistinctNames, IsObject, Canonize,
      DistinctKeys, IsName;
    var e, item := entries[0], items[0];
    assert Represents(e, item) && GoodItem(item) && Legible(item);
    NamePrints(e.key, item.name);
    var sep := if |items| == 1 then "" else ",";
    Regroup(item.name, "(", ItemsText(item.items), ")", sep, ItemsText(items[1..]));
    assert IsObject(e.key) && e.value.entries != [];
    assert (item.name + "(" + ItemsText(item.items) + ")") + sep + ItemsText(items[1..]) == ItemsText(items);
  }

  /** The printer gives the text of the pipeline that the tree stands for. */
  lemma {:induction false} PrintsItems(entries: seq<Entry>, items: seq<Item>)
    requires RepresentsAll(entries, items) && AllLegible(items) && GoodItems(items)
    ensures PrintPipeline(entries) == Some(ItemsText(items))
    decreases items
  {
    if items != [] {
      RestRepresents(entries, items);
      PrintsItems(entries[1..], items[1..]);
      assert Represents(entries[0], items[0]) && GoodItem(items[0]) && Legible(items[0]);
      if items[0].Object? {
        PrintsItems(entries[0].value.entries, items[0].items);
        PrintsObject(entries, items);
      } else {
        PrintsPass(entries, items);
      }
    }
  }

  lemma NamePrints(key: string, name: string)
    requires KeyOf(key, name) && IsName(name)
    ensures Canonize(key) == name && (IsObject(key) <==> IsObject(name))
  {
    CanonizeKey(key, name);
    ObjectKey(key, name);
  }

  lemma Regroup(name: string, open: string, inner: string, close: string, sep: string, rest: string)
    ensures ((name + open) + inner + (close + sep)) + rest == (name + open + inner + close) + sep + rest
  {
  }
}
