/** Names of passes and pass managers in a textual pipeline, and how repeated ones are told apart. */
module PipelineNames {

  predicate IsAbc(ch: char) {
    'a' <= ch <= 'z' || 'A' <= ch <= 'Z' || '0' <= ch <= '9' || ch == '.' || ch == '-'
  }

  ghost predicate Word(s: string) {
    forall i :: 0 <= i < |s| ==> IsAbc(s[i])
  }

  ghost predicate IsName(s: string) {
    s != "" && Word(s)
  }

  function Canonize(name: string): string {
    if name == "" || name[0] == '[' then "" else [name[0]] + Canonize(name[1..])
  }

  const DECIMAL_DIGITS := "0123456789"

  function Digits(n: nat): string {
    if n < 10 then [DECIMAL_DIGITS[n]] else Digits(n / 10) + [DECIMAL_DIGITS[n % 10]]
  }

  /** A name with the number of its creation. */
  function Uniquify(name: string, n: nat): string {
    name + "[" + Digits(n) + "]"
  }

  predicate HasPrefix(s: string, prefix: string) {
    |prefix| <= |s| && s[..|prefix|] == prefix
  }

  predicate Contains(s: string, part: string) {
    HasPrefix(s, part) || (s != "" && Contains(s[1..], part))
  }

  predicate IsObject(name: string) {
    Contains(name, "module") || Contains(name, "func.func")
  }

  /** `key` stands for `name`, with or without a number. */
  ghost predicate KeyOf(key: string, name: string) {
    key == name || exists n :: key == Uniquify(name, n)
  }

  lemma {:induction false} CanonizeWord(name: string)
    requires Word(name)
    ensures Canonize(name) == name && Canonize(name + "[") == name
    decreases |name|
  {
    if name != "" {
      assert Word(name[1..]) by {
        assert forall i :: 0 <= i < |name| - 1 ==> name[1..][i] == name[i + 1];
      }
      CanonizeWord(name[1..]);
      assert (name + "[")[1..] == name[1..] + "[";
      assert IsAbc(name[0]);
    }
  }

  lemma {:induction false} CanonizeCuts(name: string, rest: string)
    requires Word(name)
    ensures Canonize(name + "[" + rest) == name
    decreases |name|
  {
    var s := name + "[" + rest;
    if name != "" {
      assert Word(name[1..]) by {
        assert forall i :: 0 <= i < |name| - 1 ==> name[1..][i] == name[i + 1];
      }
      CanonizeCuts(name[1..], rest);
      assert s[1..] == name[1..] + "[" + rest;
      assert s[0] == name[0] && IsAbc(name[0]);
    }
  }

  /** The printer undoes the numbering. */
  lemma CanonizeKey(key: string, name: string)
    requires Word(name) && KeyOf(key, name)
    ensures Canonize(key) == name
  {
    CanonizeWord(name);
    if key != name {
      var n :| key == Uniquify(name, n);
      CanonizeCuts(name, Digits(n) + "]");
      assert key == name + "[" + (Digits(n) + "]");
    }
  }

  // Numbers make names distinct

  ghost function ValueOf(s: string): int {
    if s == "" then 0 else 10 * ValueOf(s[..|s| - 1]) + (s[|s| - 1] as int - '0' as int)
  }

  lemma {:induction false} DigitsValue(n: nat)
    ensures ValueOf(Digits(n)) == n && |Digits(n)| > 0
    ensures forall i :: 0 <= i < |Digits(n)| ==> '0' <= Digits(n)[i] <= '9'
  {
    DigitChar(n % 10);
    if n >= 10 {
      DigitsValue(n / 10);
      assert Digits(n)[..|Digits(n)| - 1] == Digits(n / 10);
    } else {
      assert Digits(n)[..0] == "";
    }
  }

  lemma DigitChar(d: nat)
    requires d < 10
    ensures DECIMAL_DIGITS[d] as int - '0' as int == d && '0' <= DECIMAL_DIGITS[d] <= '9'
  {
  }

  lemma UniquifyInjective(a: string, n: nat, b: string, m: nat)
    requires Word(a) && Word(b) && Uniquify(a, n) == Uniquify(b, m)
    ensures a == b && n == m
  {
    CanonizeKey(Uniquify(a, n), a);
    CanonizeKey(Uniquify(b, m), b);
    var s := Uniquify(a, n);
    assert s[|a| + 1..|s| - 1] == Digits(n);
    assert s[|b| + 1..|s| - 1] == Digits(m);
    DigitsValue(n);
    DigitsValue(m);
  }

  lemma NumberedIsNoWord(name: string, n: nat)
    ensures !Word(Uniquify(name, n))
  {
    assert Uniquify(name, n)[|name|] == '[';
    assert !IsAbc('[');
  }

  // Numbers do not change what a name stands for

  ghost predicate OccursAt(s: string, part: string, i: nat) {
    i + |part| <= |s| && s[i..i + |part|] == part
  }

  lemma {:induction false} ContainsMeans(s: string, part: string)
    ensures Contains(s, part) <==> exists i: nat :: OccursAt(s, part, i)
    decreases |s|
  {
    if HasPrefix(s, part) {
      assert OccursAt(s, part, 0);
    } else if s != "" {
      ContainsMeans(s[1..], part);
      forall i: nat
        ensures i > 0 ==> (OccursAt(s, part, i) <==> OccursAt(s[1..], part, i - 1))
        ensures OccursAt(s, part, i) ==> i > 0
      {
        if i > 0 && i + |part| <= |s| {
          assert s[1..][i - 1..i - 1 + |part|] == s[i..i + |part|];
        }
        if i == 0 && |part| <= |s| {
          assert s[..|part|] == s[0..|part|];
        }
      }
      if Contains(s[1..], part) {
        var i: nat :| OccursAt(s[1..], part, i);
        var j := i + 1;
        assert OccursAt(s, part, j);
      }
      if i: nat :| OccursAt(s, part, i) {
        var j := i - 1;
        assert OccursAt(s[1..], part, j);
      }
    } else {
      assert forall i: nat :: !OccursAt(s, part, i);
    }
  }

  ghost predicate Lettered(part: string) {
    part != "" && forall i :: 0 <= i < |part| ==> part[i] != '[' && part[i] != ']' && !('0' <= part[i] <= '9')
  }

  ghost predicate Marks(s: string, from: nat) {
    forall k :: from <= k < |s| ==> s[k] == '[' || s[k] == ']' || '0' <= s[k] <= '9'
  }

  lemma NumberIsMarks(name: string, n: nat)
    ensures |name| <= |Uniquify(name, n)| && Marks(Uniquify(name, n), |name|) && Uniquify(name, n)[..|name|] == name
  {
    DigitsValue(n);
    hide Digits;
  }

  lemma OccursInName(s: string, name: string, part: string, i: nat)
    requires Lettered(part) && |name| <= |s| && s[..|name|] == name && Marks(s, |name|)
    ensures OccursAt(s, part, i) <==> OccursAt(name, part, i)
  {
    if i + |part| <= |name| {
      var j := i + |part|;
      forall k | i <= k < j
        ensures s[k] == name[k]
      {
        assert s[..|name|][k] == s[k];
      }
      assert s[i..j] == name[i..j];
    } else if i + |part| <= |s| {
      var last := |part| - 1;
      var at := i + last;
      assert s[at] == s[i..i + |part|][last];
    }
  }

  lemma ContainsNumbered(name: string, n: nat, part: string)
    requires Lettered(part)
    ensures Contains(Uniquify(name, n), part) <==> Contains(name, part)
  {
    hide Contains, OccursAt, Uniquify, Digits, Marks;
    var s := Uniquify(name, n);
    ContainsMeans(s, part);
    ContainsMeans(name, part);
    NumberIsMarks(name, n);
    forall i: nat
      ensures OccursAt(s, part, i) <==> OccursAt(name, part, i)
    {
      OccursInName(s, name, part, i);
    }
  }

  lemma ObjectKey(key: string, name: string)
    requires KeyOf(key, name)
    ensures IsObject(key) <==> IsObject(name)
  {
    if key != name {
      var n :| key == Uniquify(name, n);
      ContainsNumbered(name, n, "module");
      ContainsNumbered(name, n, "func.func");
    }
  }

  function Join(path: seq<string>): string {
    if path == [] then "" else if |path| == 1 then path[0] else path[0] + "/" + Join(path[1..])
  }
}
