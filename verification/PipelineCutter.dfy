/** The pipeline cutter: reads a textual pipeline, drops the passes before a point of interest, and
    prints what is left. */
module PipelineCutter {
  import opened PipelineNames
  import opened PipelineTree
  import opened PipelinePrinter
  import opened PipelineParser
  import opened PipelineRoundTrip
  import opened PipelineLoss
  import opened PipelineCut

  /** What has reached the tree at the end of the text: a bare pass at the very end has not. */
  ghost function Settled(items: seq<Item>): seq<Item> {
    if items != [] && items[|items| - 1].Pass? then items[..|items| - 1] else items
  }

  lemma {:induction false} LastItemText(items: seq<Item>)
    requires |items| > 1
    ensures ItemsText(items) == ItemsText(items[..|items| - 1]) + "," + ItemsText([items[|items| - 1]])
    decreases |items|
  {
    var n := |items| - 1;
    ItemsTextSplit(items);
    if n == 1 {
      assert items[1..] == [items[n]] && items[..n] == [items[0]];
    } else {
      LastItemText(items[1..]);
      assert items[1..][..n - 1] == items[..n][1..] && items[1..][n - 1] == items[n];
      ItemsTextSplit(items[..n]);
      assert items[..n][0] == items[0];
      Together(ItemsText([items[0]]), ItemsText(items[..n][1..]), ItemsText([items[n]]));
    }
  }

  lemma Together(a: string, b: string, c: string)
    ensures a + "," + (b + "," + c) == (a + "," + b) + "," + c
  {
  }

  lemma StartReady()
    ensures Ready(START, []) && Get(START.tree, START.nested) == Some([])
  {
  }

  lemma AddedAtStart(d: Ctx, more: seq<Entry>)
    requires Added(START, [], d, more)
    ensures d.tree == more && Ready(d, more)
  {
    assert [] + more == more;
  }

  /** A bare pass at the end waits for a symbol that does not come. */
  lemma ReadsBarePass(items: seq<Item>) returns (c: Ctx)
    requires AllLegible(items) && items != [] && items[|items| - 1].Pass?
    ensures Run(START, ItemsText(items)) == Ok(c) && RepresentsAll(c.tree, items[..|items| - 1])
  {
    hide Legible, Represents, Run, Ready, DistinctKeys, Added, At, ItemsText, RepresentsAll;
    var n := |items| - 1;
    var last := items[n].name;
    StartReady();
    BareText(items[n]);
    LegibleName(items[n]);
    if n == 0 {
      assert items == [items[0]];
      c := Named(START, last);
      RunName(START, [], last);
      NothingRead();
    } else {
      var c1, d, more := RunItems(START, [], items[..n]);
      AddedAtStart(d, more);
      AddedReady(START, [], d, more);
      c := Named(d, last);
      LastItemText(items);
      RunComma(START, c1, d, ItemsText(items[..n]), last);
      RunName(d, more, last);
    }
  }

  lemma BareText(item: Item)
    requires item.Pass?
    ensures ItemsText([item]) == item.name
  {
  }

  /** Every legible list of items is read. */
  lemma ReadsItems(items: seq<Item>) returns (c: Ctx)
    requires AllLegible(items)
    ensures Run(START, ItemsText(items)) == Ok(c) && RepresentsAll(c.tree, Settled(items))
  {
    hide Legible, Represents, Run, Ready, DistinctKeys, Added, At;
    if items == [] {
      c := START;
      NothingRead();
    } else if items[|items| - 1].Pass? {
      c := ReadsBarePass(items);
    } else {
      StartReady();
      var c1, d, more := RunItems(START, [], items);
      AddedAtStart(d, more);
      c := c1;
    }
  }

  lemma NothingRead()
    ensures RepresentsAll([], []) && Run(START, "") == Ok(START)
  {
  }

  lemma LegibleName(item: Item)
    requires Legible(item)
    ensures IsName(item.name)
  {
  }

  /** Printing what has been read gives back the text exactly for pipelines that do not end with a
      bare pass: pass managers that are not empty and are named as such, passes with options that
      are not, and no option given twice. */
  lemma RoundTrip(items: seq<Item>)
    requires AllLegible(items)
    ensures var r := Run(START, ItemsText(items));
      r.Ok? && (PrintPipeline(r.ctx.tree) == Some(ItemsText(items)) <==> GoodItems(items) && Settled(items) == items)
  {
    hide Legible, GoodItem, RepresentsAll, Run, ItemsText;
    var c := ReadsItems(items);
    var settled := Settled(items);
    assert AllLegible(settled);
    AllLose(c.tree, settled);
    if settled != items {
      ShorterWithoutLast(items);
    } else if GoodItems(items) {
      PrintsItems(c.tree, items);
    }
  }

  lemma ShorterWithoutLast(items: seq<Item>)
    requires AllLegible(items) && items != []
    ensures |ItemsText(items[..|items| - 1])| < |ItemsText(items)|
  {
    var n := |items| - 1;
    if n == 0 {
      assert Legible(items[0]);
    } else {
      LastItemText(items);
    }
  }

  /** A pass behind the last pass manager is lost. */
  lemma BarePassIsLost()
    ensures var text := "builtin.module(a),b";
      Run(START, text).Ok? && PrintPipeline(Run(START, text).ctx.tree) != Some(text)
  {
    var inner, last := Pass("a"), Pass("b");
    var items := [Object("builtin.module", [inner]), last];
    assert ItemsText([last]) == "b" && ItemsText([inner]) == "a";
    assert items[1..] == [last];
    assert ItemsText(items) == "builtin.module(a),b";
    assert Legible(inner) && Legible(last) && Legible(items[0]);
    RoundTrip(items);
  }

  // The cutter itself

  /** The state of the parser, with the two variables it keeps outside of the context. */
  class Context {
    const textualPipeline: string
    var beginIndex: nat
    var state: State
    var accumulatedString: string
    var nestedObjects: seq<string>
    var createdObjectsHistory: set<string>
    var optionName: string
    var objectIdGenIncr: nat
    var pipeline: seq<Entry>

    ghost function Now(): Ctx
      reads this
    {
      Ctx(state, accumulatedString, nestedObjects, createdObjectsHistory, optionName, objectIdGenIncr, pipeline)
    }

    /** The method has done what the transition says, or has failed as it says. */
    ghost predicate Done(r: Result, ok: bool)
      reads this
    {
      if r.Ok? then ok && Now() == r.ctx else !ok
    }

    constructor (textualPipeline: string)
      ensures this.textualPipeline == textualPipeline && beginIndex == 0 && Now() == START
    {
      this.textualPipeline, beginIndex := textualPipeline, 0;
      state, accumulatedString, nestedObjects, createdObjectsHistory, optionName := InitState, "", [], {}, "";
      objectIdGenIncr, pipeline := 0, [];
    }

    /** The context before the name at the end of the path has been put there. */
    ghost function Outside(): Ctx
      requires nestedObjects != []
      reads this
    {
      Now().(nested := nestedObjects[..|nestedObjects| - 1], accumulated := nestedObjects[|nestedObjects| - 1])
    }

    /** `create_pipeline_node_from_tree_path`: the node at the end of the path is new, under a name that is
        numbered if need be, and comes last in its dictionary. */
    method CreatePipelineNodeFromTreePath() returns (ok: bool)
      requires nestedObjects != []
      modifies `nestedObjects, `createdObjectsHistory, `objectIdGenIncr, `pipeline
      ensures Done(CreateNode(old(Now())), ok)
      ensures forall dict :: old(Word(Outside().accumulated) && At(Outside(), dict)) ==>
        ok && Appended(old(pipeline), old(Outside().nested), old(Outside().accumulated), dict, nestedObjects, pipeline)
    {
      ghost var c := Outside();
      assert c.nested + [c.accumulated] == nestedObjects;
      forall dict | Word(c.accumulated) && At(c, dict)
        ensures OnCreateObject(c).Ok?
        ensures var d := OnCreateObject(c).ctx; Appended(c.tree, c.nested, c.accumulated, dict, d.nested, d.tree)
      {
        CreatedIsAppended(c, dict);
      }
      assert CreateNode(Now()).Ok? <==> OnCreateObject(c).Ok?;
      var objectToCreateKey := Join(nestedObjects);
      var last := |nestedObjects| - 1;
      if objectToCreateKey in createdObjectsHistory {
        nestedObjects := nestedObjects[last := Uniquify(nestedObjects[last], objectIdGenIncr)];
        objectIdGenIncr := objectIdGenIncr + 1;
      }
      var tree := WithPath(pipeline, nestedObjects);
      if tree.None? {
        return false;
      }
      pipeline := tree.value;
      createdObjectsHistory := createdObjectsHistory + {objectToCreateKey};
      return true;
    }

    method CreateObject() returns (ok: bool)
      modifies `nestedObjects, `createdObjectsHistory, `objectIdGenIncr, `pipeline, `accumulatedString
      ensures Done(OnCreateObject(old(Now())), ok)
      ensures forall dict :: old(Word(accumulatedString) && At(Now(), dict)) ==>
        ok && Appended(old(pipeline), old(nestedObjects), old(accumulatedString), dict, nestedObjects, pipeline)
    {
      ghost var c := Now();
      forall dict | Word(accumulatedString) && At(c, dict)
        ensures OnCreateObject(c).Ok?
        ensures var d := OnCreateObject(c).ctx; Appended(c.tree, c.nested, c.accumulated, dict, d.nested, d.tree)
      {
        CreatedIsAppended(c, dict);
      }
      nestedObjects := nestedObjects + [accumulatedString];
      ok := CreatePipelineNodeFromTreePath();
      accumulatedString := "";
    }

    method FinalizeEntity() returns (ok: bool)
      modifies `nestedObjects, `createdObjectsHistory, `objectIdGenIncr, `pipeline, `accumulatedString
      ensures Done(OnFinalizeEntity(old(Now())), ok)
    {
      if accumulatedString == "" {
        return true;
      }
      ok := CreateObject();
      if ok {
        ok := PopObject();
      }
    }

    method PopObject() returns (ok: bool)
      modifies `nestedObjects, `accumulatedString
      ensures Done(old(Now()).Pop(), ok)
    {
      if nestedObjects == [] {
        return false;
      }
      nestedObjects, accumulatedString := nestedObjects[..|nestedObjects| - 1], "";
      return true;
    }

    method FinalizeObject() returns (ok: bool)
      modifies `nestedObjects, `createdObjectsHistory, `objectIdGenIncr, `pipeline, `accumulatedString
      ensures Done(OnFinalizeObject(old(Now())), ok)
    {
      ok := FinalizeEntity();
      if ok {
        ok := PopObject();
      }
    }

    method PutOption(key: string, value: string) returns (ok: bool)
      modifies `pipeline
      ensures Done(SetOption(old(Now()), key, value), ok)
    {
      var tree := WithPath(pipeline, nestedObjects);
      WithPathGet(pipeline, nestedObjects);
      if tree.None? {
        return false;
      }
      var node := Get(tree.value, nestedObjects).value;
      pipeline := Set(tree.value, nestedObjects, Put(node, key, Text(value)));
      return true;
    }

    method FinalizeOptionName() returns (ok: bool)
      modifies `pipeline, `optionName, `accumulatedString
      ensures Done(OnFinalizeOptionName(old(Now())), ok)
    {
      ok := PutOption(accumulatedString, "");
      optionName, accumulatedString := accumulatedString, "";
    }

    method FinalizeOptionValue() returns (ok: bool)
      modifies `pipeline, `optionName, `accumulatedString
      ensures Done(OnFinalizeOptionValue(old(Now())), ok)
    {
      ok := PutOption(optionName, accumulatedString);
      optionName, accumulatedString := "", "";
    }

    method FinalizePass() returns (ok: bool)
      modifies `pipeline, `optionName, `accumulatedString, `nestedObjects
      ensures Done(OnFinalizePass(old(Now())), ok)
    {
      ok := FinalizeOptionValue();
      if ok {
        ok := PopObject();
      }
    }

    /** One symbol: it opens or closes an object, ends a name or an option, or goes on with a name. */
    method Transition(ch: char) returns (ok: bool)
      modifies `state, `nestedObjects, `createdObjectsHistory, `objectIdGenIncr, `pipeline, `accumulatedString,
        `optionName
      ensures Done(Step(old(Now()), ch), ok)
      ensures ok ==> |nestedObjects| == |old(nestedObjects)| + Opens(ch) && !state.InitState?
      ensures IsAbc(ch) ==> ok && accumulatedString == old(accumulatedString) + [ch]
      ensures IsAbc(ch) ==> pipeline == old(pipeline) && nestedObjects == old(nestedObjects)
      ensures !IsAbc(ch) && ok ==> accumulatedString == ""
    {
      hide OnCreateObject, OnFinalizeObject, OnFinalizeEntity, OnFinalizePass, OnFinalizeOptionName,
        OnFinalizeOptionValue;
      ok := true;
      if Step(Now(), ch).Ok? {
        StepNests(Now(), ch);
      }
      var next := if state.InitState? then ObjectState else state;
      if ch == '(' && !state.PassState? {
        ok := CreateObject();
      } else if ch == ')' && state.ObjectState? {
        ok := FinalizeObject();
      } else if ch == '{' && state.ObjectState? {
        ok := CreateObject();
        next := PassState;
      } else if ch == ',' && state.ObjectState? {
        ok := FinalizeEntity();
      } else if ch == '}' && state.PassState? {
        ok := FinalizePass();
        next := ObjectState;
      } else if ch == '=' && state.PassState? {
        ok := FinalizeOptionName();
      } else if ch == ' ' && state.PassState? {
        ok := FinalizeOptionValue();
      } else if IsAbc(ch) {
        accumulatedString := accumulatedString + [ch];
      } else {
        ok := false;
      }
      state := next;
    }

    method Parse() returns (ok: bool)
      requires beginIndex == 0 && Now() == START
      modifies this
      ensures Done(Run(START, textualPipeline), ok)
      ensures ok ==> |nestedObjects| == Balance(textualPipeline)
      ensures ok ==> forall k :: 0 <= k <= |textualPipeline| ==> Balance(textualPipeline[..k]) >= 0
    {
      hide Step;
      assert textualPipeline[0..] == textualPipeline;
      while beginIndex < |textualPipeline|
        invariant beginIndex <= |textualPipeline| && |nestedObjects| == Balance(textualPipeline[..beginIndex])
        invariant forall k :: 0 <= k <= beginIndex ==> Balance(textualPipeline[..k]) >= 0
        invariant beginIndex <= |textualPipeline|
        invariant Run(START, textualPipeline) == Run(Now(), textualPipeline[beginIndex..])
      {
        var rest := textualPipeline[beginIndex..];
        assert rest[1..] == textualPipeline[beginIndex + 1..];
        BalanceNext(textualPipeline, beginIndex);
        ok := Transition(textualPipeline[beginIndex]);
        if !ok {
          return;
        }
        beginIndex := beginIndex + 1;
      }
      assert textualPipeline[..beginIndex] == textualPipeline;
      return true;
    }
  }

  // What is cut off from a pipeline

  /** `left` is `whole`, or the same pass manager with a tail of what it runs. */
  ghost predicate ItemTailInside(left: Item, whole: Item)
    decreases whole, 0
  {
    left == whole ||
    (left.Object? && whole.Object? && left.name == whole.name && left.items != [] && ItemsTail(left.items, whole.items))
  }

  /** `left` is what is behind some point of `all`, together with the pass managers around that point. */
  ghost predicate ItemsTail(left: seq<Item>, all: seq<Item>)
    decreases all, 1
  {
    left == [] || exists i: nat :: i < |all| && left[1..] == all[i + 1..] && ItemTailInside(left[0], all[i])
  }

  /** The passes and pass managers of a pipeline, in the order in which they are looked at. */
  ghost function ItemEvents(path: seq<string>, items: seq<Item>): (events: seq<Event>)
    ensures forall i :: 0 <= i < |events| ==> !events[i].kind.Unreadable?
    decreases items
  {
    if items == [] then []
    else
      (if items[0].Object? then ItemEvents(path + [items[0].name], items[0].items) else [])
        + ([ItemEvent(path, items[0])] + ItemEvents(path, items[1..]))
  }

  ghost function ItemEvent(path: seq<string>, item: Item): Event {
    Event(path, item.name, if IsObject(item.name) then Manager else SinglePass)
  }

  /** `kept` is the pipeline that is left of `items`: a tail that starts with a pass, with exactly the passes
      to keep. */
  ghost predicate ItemsCut(items: seq<Item>, kept: seq<Item>, matches: string -> bool, offset: int) {
    && ItemsTail(kept, items) && GoodItems(kept) && AllLegible(kept)
    && (kept != [] ==> ItemEvents([], kept) != [] && ItemEvents([], kept)[0].kind.SinglePass?)
    && PassesOf(ItemEvents([], kept)) == Keep(ItemEvents([], items), matches, offset, None)
  }

  /** A tree has the passes of the pipeline that it stands for. */
  lemma {:induction false} EventsAlike(path: seq<string>, entries: seq<Entry>, items: seq<Item>)
    requires RepresentsAll(entries, items) && GoodItems(items) && AllLegible(items)
    ensures Events(path, entries) == ItemEvents(path, items)
    decreases items
  {
    hide IsObject, Canonize, OptionEntries, KeyOf, DistinctKeys, IsName, LegibleOptions, DistinctNames;
    if items != [] {
      RestRepresents(entries, items);
      EventsAlike(path, entries[1..], items[1..]);
      var e, item := entries[0], items[0];
      assert Represents(e, item) && GoodItem(item) && Legible(item);
      NamePrints(e.key, item.name);
      if item.Object? {
        EventsAlike(path + [item.name], e.value.entries, item.items);
      } else if IsObject(e.key) {
        assert Events(path + [item.name], e.value.entries) == [];
      }
    }
  }

  lemma RepresentsFrom(entries: seq<Entry>, items: seq<Item>, i: nat)
    requires i <= |items| && RepresentsAll(entries, items) && GoodItems(items) && AllLegible(items)
    ensures RepresentsAll(entries[i..], items[i..]) && GoodItems(items[i..]) && AllLegible(items[i..])
  {
    hide Represents, GoodItem, Legible;
    assert forall j :: 0 <= j < |items| - i ==> items[i..][j] == items[i + j] && entries[i..][j] == entries[i + j];
  }

  /** The tree from entry `i` on, when the pass manager there is left with `inner`. */
  lemma UpdatedManager(entries: seq<Entry>, items: seq<Item>, i: nat, inner: seq<Entry>, innerKept: seq<Item>)
    requires RepresentsAll(entries, items) && i < |items| && items[i].Object? && RepresentsAll(inner, innerKept)
    ensures RepresentsAll([Entry(entries[i].key, Dict(inner))] + entries[i + 1..],
      [Object(items[i].name, innerKept)] + items[i + 1..])
  {
    hide KeyOf, OptionEntries;
    var next, kept :=
      [Entry(entries[i].key, Dict(inner))] + entries[i + 1..], [Object(items[i].name, innerKept)] + items[i + 1..];
    assert Represents(entries[i], items[i]);
    assert Represents(next[0], kept[0]);
    forall j | 0 < j < |kept|
      ensures Represents(next[j], kept[j])
    {
      assert next[j] == entries[i + j] && kept[j] == items[i + j];
    }
    forall j, l | 0 <= j < l < |next|
      ensures next[j].key != next[l].key
    {
      assert next[j].key == entries[i + j].key && next[l].key == entries[i + l].key;
    }
  }

  lemma UpdatedItem(items: seq<Item>, i: nat, inner: seq<Item>)
    requires i < |items| && GoodItems(items) && AllLegible(items) && items[i].Object?
    requires inner != [] && GoodItems(inner) && AllLegible(inner) && ItemsTail(inner, items[i].items)
    ensures var kept := [Object(items[i].name, inner)] + items[i + 1..];
      GoodItems(kept) && AllLegible(kept) && ItemsTail(kept, items)
  {
    var first := Object(items[i].name, inner);
    var kept := [first] + items[i + 1..];
    assert GoodItem(items[i]) && Legible(items[i]);
    assert GoodItem(first) && Legible(first);
    assert kept[1..] == items[i + 1..] && ItemTailInside(kept[0], items[i]);
  }

  /** The tail of a tree that stands for a pipeline stands for a tail of the pipeline. */
  lemma {:induction false} TailStands(all: seq<Entry>, items: seq<Item>, left: seq<Entry>) returns (kept: seq<Item>)
    requires RepresentsAll(all, items) && GoodItems(items) && AllLegible(items) && Tail(left, all)
    ensures RepresentsAll(left, kept) && GoodItems(kept) && AllLegible(kept) && ItemsTail(kept, items)
    decreases items
  {
    hide IsObject, Canonize, RepresentsAll, GoodItems, AllLegible, ItemsTail;
    if left == [] {
      kept := [];
      NothingRead();
      NoItems(items);
    } else {
      var i: nat :| i < |all| && left[1..] == all[i + 1..] && TailInside(left[0], all[i]);
      assert left == [left[0]] + left[1..];
      EntryAt(all, items, i);
      if left[0] == all[i] {
        kept := items[i..];
        assert left == all[i..];
        RepresentsFrom(all, items, i);
        SameFrom(items, i);
      } else {
        TailOfSome(left[0].value.entries, all[i].value.entries);
        ManagerAt(all, items, i);
        var inner := TailStands(all[i].value.entries, items[i].items, left[0].value.entries);
        SomethingKept(left[0].value.entries, inner);
        kept := [Object(items[i].name, inner)] + items[i + 1..];
        UpdatedManager(all, items, i, left[0].value.entries, inner);
        UpdatedItem(items, i, inner);
      }
    }
  }

  lemma NoItems(items: seq<Item>)
    ensures GoodItems([]) && AllLegible([]) && ItemsTail([], items)
  {
  }

  lemma SameFrom(items: seq<Item>, i: nat)
    requires i < |items|
    ensures ItemsTail(items[i..], items)
  {
    assert items[i..][1..] == items[i + 1..] && ItemTailInside(items[i..][0], items[i]);
  }

  lemma EntryAt(all: seq<Entry>, items: seq<Item>, i: nat)
    requires RepresentsAll(all, items) && i < |all|
    ensures |items| == |all| && Represents(all[i], items[i])
  {
  }

  lemma TailOfSome(left: seq<Entry>, all: seq<Entry>)
    requires Tail(left, all) && left != []
    ensures all != []
  {
  }

  lemma SomethingKept(left: seq<Entry>, kept: seq<Item>)
    requires RepresentsAll(left, kept)
    ensures left == [] <==> kept == []
  {
  }

  /** What is taken for a pass manager and runs something is one. */
  lemma ManagerAt(all: seq<Entry>, items: seq<Item>, i: nat)
    requires RepresentsAll(all, items) && GoodItems(items) && AllLegible(items) && i < |items|
    requires IsObject(all[i].key) && all[i].value.Dict? && all[i].value.entries != []
    ensures items[i].Object? && RepresentsAll(all[i].value.entries, items[i].items)
    ensures GoodItems(items[i].items) && AllLegible(items[i].items)
  {
    hide IsObject, Canonize, OptionEntries, KeyOf;
    assert Represents(all[i], items[i]) && GoodItem(items[i]) && Legible(items[i]);
    NamePrints(all[i].key, items[i].name);
  }

  lemma SettledIsGood(items: seq<Item>)
    requires AllLegible(items) && GoodItems(items)
    ensures AllLegible(Settled(items)) && GoodItems(Settled(items))
  {
  }

  /** The tree that is read from a pipeline is cut without an error, and printed as the cut pipeline. */
  lemma CutStands(tree: seq<Entry>, items: seq<Item>, left: seq<Entry>, matches: string -> bool, offset: int)
    returns (kept: seq<Item>)
    requires RepresentsAll(tree, items) && GoodItems(items) && AllLegible(items)
    requires IsCut([], tree, left, matches, offset, None)
    ensures ItemsCut(items, kept, matches, offset) && PrintPipeline(left) == Some(ItemsText(kept))
  {
    hide RepresentsAll, GoodItems, AllLegible, Tail, ItemsTail, Keep, Events, ItemEvents, PassesOf, PrintPipeline,
      ItemsText;
    kept := TailStands(tree, items, left);
    EventsAlike([], tree, items);
    EventsAlike([], left, kept);
    PrintsItems(left, kept);
    SomethingKept(left, kept);
  }

  /** What has become of a text. */
  datatype Outcome = NotRead | NotCut | NotPrinted | Printed(text: string)

  /** The whole program, from text to text.  A pipeline is cut, after a bare pass at the very end has been
      lost; whatever the text, it is cut as the tree that is read from it is. */
  method CutPipeline(textualPipeline: string, matches: string -> bool, offset: int)
    returns (r: Outcome, ghost left: seq<Entry>)
    ensures r.NotRead? <==> Run(START, textualPipeline).Err?
    ensures !r.NotRead? ==>
      var tree := Run(START, textualPipeline).ctx.tree;
      && (r.NotCut? <==> Breaks(Events([], tree), matches, offset, None))
      && (!r.NotCut? ==>
         && IsCut([], tree, left, matches, offset, None)
         && r == var printed := PrintPipeline(left); if printed.Some? then Printed(printed.value) else NotPrinted)
    ensures forall items :: AllLegible(items) && GoodItems(items) && ItemsText(items) == textualPipeline ==>
      exists kept :: ItemsCut(Settled(items), kept, matches, offset) && r == Printed(ItemsText(kept))
  {
    hide AllLegible, GoodItems, ItemsText, Run, RepresentsAll, Events, Breaks, IsCut, PrintPipeline, Settled, Balance,
      Tidy, ItemsCut;
    left := [];
    var ctx := new Context(textualPipeline);
    var ok := ctx.Parse();
    ghost var parsed := Run(START, textualPipeline);
    if !ok {
      forall items | AllLegible(items) && GoodItems(items) && ItemsText(items) == textualPipeline
        ensures false
      {
        var c := ReadsItems(items);
      }
      return NotRead, left;
    }
    StartTidy();
    RunTidy(START, textualPipeline);
    var rest, currentOffset;
    ok, rest, currentOffset := ProcessPipeline(ctx.pipeline, matches, offset, None, []);
    left := rest;
    forall items | AllLegible(items) && GoodItems(items) && ItemsText(items) == textualPipeline
      ensures ok
      ensures exists kept ::
        ItemsCut(Settled(items), kept, matches, offset) && PrintPipeline(rest) == Some(ItemsText(kept))
    {
      var c := ReadsItems(items);
      SettledIsGood(items);
      NeverBreaks(c.tree, Settled(items), matches, offset);
      var kept := CutStands(c.tree, Settled(items), rest, matches, offset);
    }
    if !ok {
      return NotCut, left;
    }
    var printed := PrintPipeline(rest);
    r := if printed.Some? then Printed(printed.value) else NotPrinted;
  }

  lemma StartTidy()
    ensures Tidy(START.tree)
  {
  }

  lemma NeverBreaks(tree: seq<Entry>, items: seq<Item>, matches: string -> bool, offset: int)
    requires RepresentsAll(tree, items) && GoodItems(items) && AllLegible(items)
    ensures !Breaks(Events([], tree), matches, offset, None)
  {
    hide RepresentsAll, GoodItems, AllLegible, Events, ItemEvents, Keep;
    EventsAlike([], tree, items);
  }

  /** An option named as a pass manager, of a pass that is named as one, too: the text is read, but the
      cutter goes through the option as if it ran something. */
  lemma OptionAsManager(matches: string -> bool, offset: int)
    ensures var r := Run(START, "module{module=1}");
      r.Ok? && PrintPipeline(r.ctx.tree).None? && Breaks(Events([], r.ctx.tree), matches, offset, None)
  {
    hide Run, IsObject, Canonize, Keep;
    var options := [PassOption("module", "1")];
    var items := [PassWith("module", options)];
    assert OptionsText(options) == "module=1";
    assert ItemsText(items) == "module" + "{" + "module=1" + "}" == "module{module=1}";
    ModuleIsManager();
    var c := ReadsItems(items);
    var e, inner := c.tree[0], OptionEntries(options);
    assert Represents(e, items[0]);
    NamePrints(e.key, "module");
    assert inner == [Entry("module", Text("1"))] by {
      assert Put([], "module", Text("1")) == [Entry("module", Text("1"))] && options[1..] == [];
    }
    EventsFirst([], c.tree);
    EventsFirst([Canonize(e.key)], inner);
    var events := Events([], c.tree);
    assert events[0] == EventOf([Canonize(e.key)], inner[0]);
    assert events[..0] == [];
    KeepNothing(matches, offset);
  }

  lemma ModuleIsManager()
    ensures IsObject("module")
  {
    assert HasPrefix("module", "module");
  }

  lemma KeepNothing(matches: string -> bool, offset: int)
    ensures Keep([], matches, offset, None) == []
  {
  }

  /** The passes that come out are the last ones of the original, inside the same pass managers: those
      from the first match on, without the first `offset` of them. */
  lemma CutKeepsLast(items: seq<Item>, kept: seq<Item>, matches: string -> bool, offset: int) returns (m: nat)
    requires ItemsCut(items, kept, matches, offset)
    ensures var events := ItemEvents([], items);
      && m <= |events| && (forall i :: 0 <= i < m ==> !matches(events[i].name))
      && (m < |events| ==> matches(events[m].name))
      && PassesOf(ItemEvents([], kept)) == Dropped(PassesOf(events[m..]), offset)
      && EndOf(PassesOf(ItemEvents([], kept)), PassesOf(events))
  {
    m := KeptAreLast(ItemEvents([], items), matches, offset);
  }
}
