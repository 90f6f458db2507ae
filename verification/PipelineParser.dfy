/** The state machine that reads a textual pipeline into a tree, and what it makes of every pipeline. */
module PipelineParser {
  import opened PipelineNames
  import opened PipelineTree

  datatype State = InitState | ObjectState | PassState

  datatype Error = ForbiddenTransition | UnexpectedSymbol | EmptyStack | NotADictionary

  /** The context of the parser, together with the pipeline and the number of the next repeated name. */
  datatype Ctx = Ctx(state: State, accumulated: string, nested: seq<string>, history: set<string>, optionName: string,
                     counter: nat, tree: seq<Entry>) {
    function Pop(): Result {
      if nested == [] then Err(EmptyStack) else Ok(this.(nested := nested[..|nested| - 1], accumulated := ""))
    }
  }

  datatype Result = Ok(ctx: Ctx) | Err(error: Error)

  const START := Ctx(InitState, "", [], {}, "", 0, [])

  /** `create_pipeline_node_from_tree_path`. */
  function CreateNode(c: Ctx): (r: Result)
    requires c.nested != []
    ensures r.Ok? ==> |r.ctx.nested| == |c.nested|
  {
    var key, last := Join(c.nested), |c.nested| - 1;
    var d :=
      if key in c.history then
        c.(nested := c.nested[last := Uniquify(c.nested[last], c.counter)], counter := c.counter + 1)
      else c;
    var tree := WithPath(d.tree, d.nested);
    if tree.Some? then Ok(d.(tree := tree.value, history := d.history + {key})) else Err(NotADictionary)
  }

  function OnCreateObject(c: Ctx): (r: Result)
    ensures r.Ok? ==> |r.ctx.nested| == |c.nested| + 1
  {
    var r := CreateNode(c.(nested := c.nested + [c.accumulated]));
    if r.Ok? then Ok(r.ctx.(accumulated := "")) else r
  }

  function OnFinalizeEntity(c: Ctx): Result {
    if c.accumulated == "" then Ok(c)
    else
      var r := OnCreateObject(c);
      if r.Ok? then r.ctx.Pop() else r
  }

  function OnFinalizeObject(c: Ctx): Result {
    var r := OnFinalizeEntity(c);
    if r.Ok? then r.ctx.Pop() else r
  }

  function SetOption(c: Ctx, key: string, value: string): Result {
    var tree := WithPath(c.tree, c.nested);
    WithPathGet(c.tree, c.nested);
    if tree.Some? then Ok(c.(tree := Set(tree.value, c.nested, Put(Get(tree.value, c.nested).value, key, Text(value)))))
    else Err(NotADictionary)
  }

  function OnFinalizeOptionName(c: Ctx): Result {
    var r := SetOption(c, c.accumulated, "");
    if r.Ok? then Ok(r.ctx.(optionName := c.accumulated, accumulated := "")) else r
  }

  function OnFinalizeOptionValue(c: Ctx): Result {
    var r := SetOption(c, c.optionName, c.accumulated);
    if r.Ok? then Ok(r.ctx.(optionName := "", accumulated := "")) else r
  }

  function OnFinalizePass(c: Ctx): Result {
    var r := OnFinalizeOptionValue(c);
    if r.Ok? then r.ctx.Pop() else r
  }

  function OnAccumulate(c: Ctx, ch: char): Result {
    Ok(c.(accumulated := c.accumulated + [ch]))
  }

  function Into(r: Result, state: State): Result {
    if r.Ok? then Ok(r.ctx.(state := state)) else r
  }

  /** One symbol: the first transition of the state table that applies. */
  function Step(c: Ctx, ch: char): Result {
    match c.state
    case InitState =>
      if ch == '(' then Into(OnCreateObject(c), ObjectState)
      else if ch == ')' || ch == '{' || ch == '}' || ch == '=' || ch == ' ' then Err(ForbiddenTransition)
      else if IsAbc(ch) then Into(OnAccumulate(c, ch), ObjectState)
      else Err(UnexpectedSymbol)
    case ObjectState =>
      if ch == '(' then Into(OnCreateObject(c), ObjectState)
      else if ch == ')' then Into(OnFinalizeObject(c), ObjectState)
      else if ch == '{' then Into(OnCreateObject(c), PassState)
      else if ch == ',' then Into(OnFinalizeEntity(c), ObjectState)
      else if ch == '}' then Err(ForbiddenTransition)
      else if IsAbc(ch) then Into(OnAccumulate(c, ch), ObjectState)
      else Err(UnexpectedSymbol)
    case PassState =>
      if ch == '}' then Into(OnFinalizePass(c), ObjectState)
      else if ch == '=' then Into(OnFinalizeOptionName(c), PassState)
      else if ch == ' ' then Into(OnFinalizeOptionValue(c), PassState)
      else if IsAbc(ch) then Into(OnAccumulate(c, ch), PassState)
      else Err(UnexpectedSymbol)
  }

  function Run(c: Ctx, text: string): Result
    decreases |text|
  {
    if text == "" then Ok(c)
    else
      var r := Step(c, text[0]);
      if r.Ok? then Run(r.ctx, text[1..]) else r
  }

  lemma {:induction false} RunConcat(c: Ctx, a: string, b: string)
    ensures Run(c, a + b) == var r := Run(c, a); if r.Ok? then Run(r.ctx, b) else r
    decreases |a|
  {
    hide Step;
    if a == "" {
      assert a + b == b;
    } else {
      assert (a + b)[1..] == a[1..] + b;
      if Step(c, a[0]).Ok? {
        RunConcat(Step(c, a[0]).ctx, a[1..], b);
      }
    }
  }

  lemma RunSymbol(c: Ctx, a: string, ch: char, b: string)
    requires Run(c, a).Ok?
    ensures Run(c, a + [ch] + b) == var r := Step(Run(c, a).ctx, ch); if r.Ok? then Run(r.ctx, b) else r
  {
    hide Step;
    RunConcat(c, a, [ch] + b);
    assert a + [ch] + b == a + ([ch] + b);
    assert ([ch] + b)[1..] == b;
  }

  lemma {:induction false} RunWord(c: Ctx, word: string)
    requires Word(word)
    ensures Run(c, word) == Ok(c.(accumulated := c.accumulated + word,
                                  state := if c.state.InitState? && word != "" then ObjectState else c.state))
    decreases |word|
  {
    if word == "" {
      assert c.accumulated + word == c.accumulated;
    } else {
      assert IsAbc(word[0]);
      assert Word(word[1..]) by {
        assert forall i :: 0 <= i < |word| - 1 ==> word[1..][i] == word[i + 1];
      }
      var d := c.(accumulated := c.accumulated + [word[0]],
                  state := if c.state.InitState? then ObjectState else c.state);
      assert Step(c, word[0]) == Ok(d);
      RunWord(d, word[1..]);
      assert c.accumulated + [word[0]] + word[1..] == c.accumulated + word;
    }
  }

  // New names

  /** Where the key of a node at the end of `path` comes from. */
  ghost predicate KnownKey(history: set<string>, counter: nat, path: seq<string>, key: string) {
    exists raw :: Word(raw) && Join(path + [raw]) in history && NumberedBelow(key, raw, counter)
  }

  ghost predicate NumberedBelow(key: string, raw: string, counter: nat) {
    key == raw || exists n: nat :: n < counter && key == Uniquify(raw, n)
  }

  ghost predicate Known(history: set<string>, counter: nat, path: seq<string>, dict: seq<Entry>) {
    forall i :: 0 <= i < |dict| ==> KnownKey(history, counter, path, dict[i].key)
  }

  ghost function NewKey(c: Ctx): string {
    if Join(c.nested + [c.accumulated]) in c.history then Uniquify(c.accumulated, c.counter) else c.accumulated
  }

  lemma NewKeyIsNew(c: Ctx, key: string)
    requires Word(c.accumulated) && KnownKey(c.history, c.counter, c.nested, key)
    ensures key != NewKey(c)
  {
    var raw :| Word(raw) && Join(c.nested + [raw]) in c.history && NumberedBelow(key, raw, c.counter);
    NumberedIsNoWord(c.accumulated, c.counter);
    if key != raw {
      var n: nat :| n < c.counter && key == Uniquify(raw, n);
      NumberedIsNoWord(raw, n);
      if key == Uniquify(c.accumulated, c.counter) {
        UniquifyInjective(raw, n, c.accumulated, c.counter);
      }
    }
  }

  lemma KnownGrows(history: set<string>, counter: nat, path: seq<string>, dict: seq<Entry>, more: set<string>,
                   next: nat)
    requires Known(history, counter, path, dict) && history <= more && counter <= next
    ensures Known(more, next, path, dict)
  {
    forall i | 0 <= i < |dict|
      ensures KnownKey(more, next, path, dict[i].key)
    {
      var key := dict[i].key;
      assert KnownKey(history, counter, path, key);
      var raw :| Word(raw) && Join(path + [raw]) in history && NumberedBelow(key, raw, counter);
      assert NumberedBelow(key, raw, next);
    }
  }

  /** The dictionary at hand, whose keys are all accounted for. */
  ghost predicate At(c: Ctx, dict: seq<Entry>) {
    Get(c.tree, c.nested) == Some(dict) && Known(c.history, c.counter, c.nested, dict) && DistinctKeys(dict)
  }

  /** The context after a node for the accumulated name has been created. */
  ghost function Created(c: Ctx, dict: seq<Entry>): Ctx
    requires Get(c.tree, c.nested) == Some(dict)
  {
    var key := NewKey(c);
    c.(nested := c.nested + [key], accumulated := "", history := c.history + {Join(c.nested + [c.accumulated])},
       counter := if key == c.accumulated then c.counter else c.counter + 1,
       tree := Set(c.tree, c.nested, dict + [Entry(key, Dict([]))]))
  }

  lemma NewKeyAppends(c: Ctx, dict: seq<Entry>)
    requires Word(c.accumulated) && At(c, dict)
    ensures IndexOf(dict, NewKey(c)) == |dict| && DistinctKeys(dict + [Entry(NewKey(c), Dict([]))])
  {
    hide NewKey, KnownKey;
    forall i | 0 <= i < |dict|
      ensures dict[i].key != NewKey(c)
    {
      NewKeyIsNew(c, dict[i].key);
    }
  }

  /** A new node is always put behind the others, under a key that is new. */
  lemma CreateAppends(c: Ctx, dict: seq<Entry>)
    requires Word(c.accumulated) && At(c, dict)
    ensures OnCreateObject(c) == Ok(Created(c, dict)) && KeyOf(NewKey(c), c.accumulated)
  {
    hide At, Known, Join, WithPath, Get, Set, IndexOf, Uniquify;
    NewKeyAppends(c, dict);
    var pushed := c.(nested := c.nested + [c.accumulated]);
    var last := |c.nested|;
    assert pushed.nested[last := NewKey(c)] == c.nested + [NewKey(c)];
    WithKey(c, dict);
    NumberedIsNoWord(c.accumulated, c.counter);
  }

  lemma WithKey(c: Ctx, dict: seq<Entry>)
    requires At(c, dict) && IndexOf(dict, NewKey(c)) == |dict|
    ensures Get(c.tree, c.nested) == Some(dict)
    ensures WithPath(c.tree, c.nested + [NewKey(c)]) == Some(Set(c.tree, c.nested, dict + [Entry(NewKey(c), Dict([]))]))
  {
    WithNewKey(c.tree, c.nested, dict, NewKey(c));
  }

  lemma NewKeyKnown(c: Ctx, dict: seq<Entry>, value: Value)
    requires Word(c.accumulated) && At(c, dict)
    ensures var d := Created(c, dict); Known(d.history, d.counter, c.nested, dict + [Entry(NewKey(c), value)])
  {
    hide Join, Set, Uniquify;
    var d, key, next := Created(c, dict), NewKey(c), dict + [Entry(NewKey(c), value)];
    KnownGrows(c.history, c.counter, c.nested, dict, d.history, d.counter);
    NumberedIsNoWord(c.accumulated, c.counter);
    assert NumberedBelow(key, c.accumulated, d.counter);
    assert KnownKey(d.history, d.counter, c.nested, key);
    forall i | 0 <= i < |next|
      ensures KnownKey(d.history, d.counter, c.nested, next[i].key)
    {
    }
  }

  /** A node has been put behind the others of the dictionary at the end of `path`, under a key that no
      other one has and that stands for `name`. */
  ghost predicate Appended(before: seq<Entry>, path: seq<string>, name: string, dict: seq<Entry>, nested: seq<string>,
                           after: seq<Entry>)
    requires Get(before, path).Some?
  {
    exists key ::
      && KeyOf(key, name) && nested == path + [key] && (forall i :: 0 <= i < |dict| ==> dict[i].key != key)
      && after == Set(before, path, dict + [Entry(key, Dict([]))])
      && Get(after, path) == Some(dict + [Entry(key, Dict([]))])
  }

  lemma CreatedIsAppended(c: Ctx, dict: seq<Entry>)
    requires Word(c.accumulated) && At(c, dict)
    ensures OnCreateObject(c).Ok? && Get(c.tree, c.nested).Some?
    ensures var d := OnCreateObject(c).ctx; Appended(c.tree, c.nested, c.accumulated, dict, d.nested, d.tree)
  {
    hide Known, Join, WithPath, Get, Set, Uniquify, OnCreateObject, KeyOf;
    CreateAppends(c, dict);
    NewKeyAppends(c, dict);
    KeyIsNew(dict, NewKey(c));
    GetSet(c.tree, c.nested, dict + [Entry(NewKey(c), Dict([]))]);
  }

  lemma KeyIsNew(dict: seq<Entry>, key: string)
    requires IndexOf(dict, key) == |dict|
    ensures forall i :: 0 <= i < |dict| ==> dict[i].key != key
  {
  }

  // Nesting

  /** How many objects a symbol opens, or closes. */
  function Opens(ch: char): int {
    if ch == '(' || ch == '{' then 1 else if ch == ')' || ch == '}' then -1 else 0
  }

  /** How many more objects a text opens than it closes. */
  function Balance(text: string): int
    decreases |text|
  {
    if text == "" then 0 else Balance(text[..|text| - 1]) + Opens(text[|text| - 1])
  }

  lemma BalanceNext(text: string, k: nat)
    requires k < |text|
    ensures Balance(text[..k + 1]) == Balance(text[..k]) + Opens(text[k])
  {
    assert text[..k + 1][..k] == text[..k];
  }

  /** A symbol nests or leaves exactly the object it opens or closes, and ends the name at hand unless it
      is part of it. */
  lemma StepNests(c: Ctx, ch: char)
    requires Step(c, ch).Ok?
    ensures |Step(c, ch).ctx.nested| == |c.nested| + Opens(ch) && (!IsAbc(ch) ==> Step(c, ch).ctx.accumulated == "")
  {
    hide WithPath, Set, Get, CreateNode;
  }

  // Trees that are read have no key twice

  lemma CreateTidy(c: Ctx)
    requires Tidy(c.tree)
    ensures OnCreateObject(c).Ok? ==> Tidy(OnCreateObject(c).ctx.tree)
  {
    hide Tidy, WithPath, Join;
    forall path: seq<string>
      ensures WithPath(c.tree, path).Some? ==> Tidy(WithPath(c.tree, path).value)
    {
      TidyWithPath(c.tree, path);
    }
  }

  lemma OptionTidy(c: Ctx, key: string, value: string)
    requires Tidy(c.tree)
    ensures SetOption(c, key, value).Ok? ==> Tidy(SetOption(c, key, value).ctx.tree)
  {
    hide Tidy, WithPath, Get, Set, Put;
    TidyWithPath(c.tree, c.nested);
    var tree := WithPath(c.tree, c.nested);
    if tree.Some? {
      WithPathGet(c.tree, c.nested);
      TidyGet(tree.value, c.nested);
      var node := Get(tree.value, c.nested).value;
      TidyPut(node, key, value);
      TidySet(tree.value, c.nested, Put(node, key, Text(value)));
    }
  }

  lemma StepTidy(c: Ctx, ch: char)
    requires Tidy(c.tree)
    ensures Step(c, ch).Ok? ==> Tidy(Step(c, ch).ctx.tree)
  {
    hide Tidy, OnCreateObject, SetOption;
    CreateTidy(c);
    OptionTidy(c, c.accumulated, "");
    OptionTidy(c, c.optionName, c.accumulated);
  }

  lemma {:induction false} RunTidy(c: Ctx, text: string)
    requires Tidy(c.tree)
    ensures Run(c, text).Ok? ==> Tidy(Run(c, text).ctx.tree)
    decreases |text|
  {
    hide Tidy, Step;
    if text != "" && Step(c, text[0]).Ok? {
      StepTidy(c, text[0]);
      RunTidy(Step(c, text[0]).ctx, text[1..]);
    }
  }

  // Which symbols are refused

  /** At the end of the text the options of a pass are being listed. */
  ghost predicate InBraces(text: string)
    decreases |text|
  {
    text != "" &&
    var last := |text| - 1;
    text[last] == '{' || (text[last] != '}' && InBraces(text[..last]))
  }

  /** `ch` may follow the text: inside braces it ends a name, a value or the list, outside it opens or closes
      a pass manager, opens braces or separates, and at the very start it opens. */
  ghost predicate MayFollow(text: string, ch: char) {
    || IsAbc(ch)
    || if text == "" then ch == '(' else if InBraces(text) then ch == '}' || ch == '=' || ch == ' ' else
       ch == '(' || ch == ')' || ch == '{' || ch == ','
  }

  ghost predicate IsRefusal(r: Result) {
    r == Err(ForbiddenTransition) || r == Err(UnexpectedSymbol)
  }

  /** The state follows from the text alone. */
  lemma {:induction false} StateIs(text: string)
    requires Run(START, text).Ok?
    ensures Run(START, text).ctx.state ==
      if text == "" then InitState else if InBraces(text) then PassState else ObjectState
    ensures forall i :: 0 <= i < |text| ==> MayFollow(text[..i], text[i])
    decreases |text|
  {
    hide OnCreateObject, OnFinalizeObject, OnFinalizeEntity, OnFinalizePass, OnFinalizeOptionName,
      OnFinalizeOptionValue, IsAbc;
    if text != "" {
      var last := |text| - 1;
      var a, ch := text[..last], text[last];
      assert text == a + [ch];
      RunConcat(START, a, [ch]);
      StateIs(a);
      StepState(Run(START, a).ctx, ch);
      forall i | 0 <= i < |text|
        ensures MayFollow(text[..i], text[i])
      {
        assert i < last ==> text[..i] == a[..i] && text[i] == a[i];
      }
    }
  }

  ghost function NextState(state: State, ch: char): State {
    if (state.PassState? && ch != '}') || (state.ObjectState? && ch == '{') then PassState else ObjectState
  }

  lemma StepState(c: Ctx, ch: char)
    ensures Step(c, ch).Ok? ==> Step(c, ch).ctx.state == NextState(c.state, ch)
    ensures Step(c, ch).Ok? ==> ch != '{' || c.state.ObjectState?
    ensures Run(c, [ch]) == Step(c, ch)
  {
  }

  /** After any text that has been read, exactly the symbols that may not follow it are refused as such. */
  lemma RefusedExactly(text: string, ch: char)
    requires Run(START, text).Ok?
    ensures IsRefusal(Step(Run(START, text).ctx, ch)) <==> !MayFollow(text, ch)
  {
    hide OnCreateObject, OnFinalizeObject, OnFinalizeEntity, OnFinalizePass, OnFinalizeOptionName,
      OnFinalizeOptionValue, InBraces, Run;
    StateIs(text);
    StartIsInit();
    NoRefusals(Run(START, text).ctx);
  }

  lemma StartIsInit()
    ensures Run(START, "") == Ok(START) && START.state.InitState?
  {
  }

  /** Whatever else fails is no matter of symbols. */
  lemma NoRefusals(c: Ctx)
    ensures !IsRefusal(OnCreateObject(c)) && !IsRefusal(OnFinalizeObject(c)) && !IsRefusal(OnFinalizeEntity(c))
    ensures !IsRefusal(OnFinalizePass(c)) && !IsRefusal(OnFinalizeOptionName(c)) && !IsRefusal(OnFinalizeOptionValue(c))
  {
  }
}
