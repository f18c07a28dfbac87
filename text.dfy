/**
  The few pieces of Python's `str` behaviour the front ends rely on:
  whitespace, `strip()`, `split()`, `lower()`, prefix and substring tests,
  `{n:03d}` formatting and the code-point order that `sorted()` uses.
*/
module Text {

  /** `c.isspace()`: the characters Python's `strip()` and `split()` treat as whitespace. */
  predicate IsSpace(c: char) {
    || ('\U{0009}' <= c <= '\U{000D}')
    || ('\U{001C}' <= c <= '\U{0020}')
    || c == '\U{0085}' || c == '\U{00A0}' || c == '\U{1680}'
    || ('\U{2000}' <= c <= '\U{200A}')
    || c == '\U{2028}' || c == '\U{2029}' || c == '\U{202F}'
    || c == '\U{205F}' || c == '\U{3000}'
  }

  predicate AllSpace(s: string) {
    forall i :: 0 <= i < |s| ==> IsSpace(s[i])
  }

  /** `s.lstrip()`: a suffix of `s` that drops only whitespace and starts with none. */
  function TrimLeft(s: string): (r: string)
    ensures |r| <= |s| && r == s[|s| - |r|..]
    ensures AllSpace(s[..|s| - |r|])
    ensures r == [] || !IsSpace(r[0])
  {
    if s != [] && IsSpace(s[0]) then
      var r := TrimLeft(s[1..]);
      assert s[..|s| - |r|] == [s[0]] + s[1..][..|s| - 1 - |r|];
      r
    else s
  }

  /** `s.rstrip()`: a prefix of `s` that drops only whitespace and ends with none. */
  function TrimRight(s: string): (r: string)
    ensures |r| <= |s| && r == s[..|r|]
    ensures AllSpace(s[|r|..])
    ensures r == [] || !IsSpace(r[|r| - 1])
  {
    if s != [] && IsSpace(s[|s| - 1]) then
      var r := TrimRight(s[..|s| - 1]);
      assert s[|r|..] == s[..|s| - 1][|r|..] + [s[|s| - 1]];
      r
    else s
  }

  /** `s.strip()`: neither end of the result is whitespace. */
  function Strip(s: string): (r: string)
    ensures IsStripped(r)
  {
    var t := TrimLeft(s);
    var r := TrimRight(t);
    assert r != [] ==> r[0] == t[0];
    r
  }

  /** `strip()` cuts only whitespace, before and after a piece of `s` that it keeps whole. */
  lemma StripShape(s: string)
    ensures exists k :: OccursAt(s, Strip(s), k) && AllSpace(s[..k]) && AllSpace(s[k + |Strip(s)|..])
  {
    var t := TrimLeft(s);
    var r := TrimRight(t);
    var k := |s| - |t|;
    assert AllSpace(s[..k]);
    assert AllSpace(s[k + |r|..]) by {
      assert s[k + |r|..] == t[|r|..];
    }
    assert OccursAt(s, r, k) by {
      assert s[k..k + |r|] == t[..|r|];
    }
  }

  /** Neither end of `s` is whitespace: what `strip()` always returns. */
  predicate IsStripped(s: string) {
    s == [] || (!IsSpace(s[0]) && !IsSpace(s[|s| - 1]))
  }

  /** `not s or not s.strip()`: the text is empty or whitespace only. */
  predicate IsBlank(s: string) {
    Strip(s) == []
  }

  /** A text is blank exactly when every character of it is whitespace. */
  lemma BlankIffAllSpace(s: string)
    ensures IsBlank(s) <==> AllSpace(s)
  {
    var t := TrimLeft(s);
    assert s[..|s|] == s;
    if t != [] {
      assert !IsSpace(s[|s| - |t|]);
    }
  }

  /** A stripped text is its own `strip()`. */
  lemma StripStripped(s: string)
    requires IsStripped(s)
    ensures Strip(s) == s
  {
    assert TrimLeft(s) == s;
  }

  /** `c.lower()` for the characters whose lower case is an ASCII letter: A-Z and U+212A KELVIN SIGN. */
  function LowerChar(c: char): char {
    if 'A' <= c <= 'Z' then (c as int + 32) as char
    else if c == '\U{212A}' then 'k'
    else c
  }

  /** Whitespace is left alone by `lower()`, and nothing else becomes whitespace. */
  lemma LowerSpace(c: char)
    ensures IsSpace(LowerChar(c)) <==> IsSpace(c)
  {
  }

  /** `s.lower()`, exact whenever the result is compared with an ASCII string. */
  function Lower(s: string): string {
    seq(|s|, i requires 0 <= i < |s| => LowerChar(s[i]))
  }

  /**
    Lower-casing leaves no upper-case ASCII letter, keeps whitespace where it
    was, and keeps every character other than A-Z and the Kelvin sign.
  */
  lemma LowerShape(s: string)
    ensures |Lower(s)| == |s|
    ensures forall i :: 0 <= i < |s| ==> !('A' <= Lower(s)[i] <= 'Z')
    ensures forall i :: 0 <= i < |s| ==> (IsSpace(Lower(s)[i]) <==> IsSpace(s[i]))
    ensures forall i :: 0 <= i < |s| && !('A' <= s[i] <= 'Z') && s[i] != '\U{212A}' ==> Lower(s)[i] == s[i]
  {
    forall i | 0 <= i < |s| ensures IsSpace(Lower(s)[i]) <==> IsSpace(s[i]) {
      LowerSpace(s[i]);
    }
  }

  /** Lower-casing twice is lower-casing once. */
  lemma LowerIdempotent(s: string)
    ensures Lower(Lower(s)) == Lower(s)
  {
    var t := Lower(s);
    forall i | 0 <= i < |t| ensures Lower(t)[i] == t[i] {
      assert t[i] == LowerChar(s[i]);
    }
  }

  predicate StartsWith(s: string, prefix: string) {
    |prefix| <= |s| && s[..|prefix|] == prefix
  }

  predicate EndsWith(s: string, suffix: string) {
    |suffix| <= |s| && s[|s| - |suffix|..] == suffix
  }

  /** `sub` occurs in `s` starting at index `i`. */
  predicate OccursAt(s: string, sub: string, i: int) {
    0 <= i <= |s| - |sub| && s[i..i + |sub|] == sub
  }

  /** `sub in s` for strings. */
  predicate Contains(s: string, sub: string) {
    exists i | 0 <= i <= |s| - |sub| :: OccursAt(s, sub, i)
  }

  /** The longest prefix of `s` without whitespace. */
  function TakeWord(s: string): (w: string)
    ensures |w| <= |s| && w == s[..|w|]
    ensures forall i :: 0 <= i < |w| ==> !IsSpace(w[i])
    ensures |w| == |s| || IsSpace(s[|w|])
    ensures s != [] && !IsSpace(s[0]) ==> |w| >= 1
  {
    if s == [] || IsSpace(s[0]) then [] else [s[0]] + TakeWord(s[1..])
  }

  /** A text without whitespace: what a word of `split()` is. */
  predicate NoSpace(w: string) {
    forall i :: 0 <= i < |w| ==> !IsSpace(w[i])
  }

  /** `s.split()` with no arguments: the maximal runs of non-whitespace, in order. */
  function Words(s: string): (ws: seq<string>)
    ensures [] !in ws
    decreases |s|
  {
    var t := TrimLeft(s);
    if t == [] then []
    else
      var w := TakeWord(t);
      assert w != [];
      [w] + Words(t[|w|..])
  }

  /** The words of `split()` hold no whitespace, and there are none exactly when the text is all whitespace. */
  lemma {:induction false} WordsShape(s: string)
    ensures forall k :: 0 <= k < |Words(s)| ==> NoSpace(Words(s)[k])
    ensures Words(s) == [] <==> AllSpace(s)
    decreases |s|
  {
    var t := TrimLeft(s);
    if t == [] {
      assert s[..|s|] == s;
    } else {
      var w := TakeWord(t);
      assert !IsSpace(s[|s| - |t|]);
      var more := Words(t[|w|..]);
      WordsShape(t[|w|..]);
      assert Words(s) == [w] + more;
      forall k | 0 <= k < |Words(s)| ensures NoSpace(Words(s)[k]) {
        if k > 0 { assert Words(s)[k] == more[k - 1]; }
      }
    }
  }

  /** Leading whitespace is all `lstrip()` removes. */
  lemma {:induction false} TrimLeftSpaces(pre: string, t: string)
    requires AllSpace(pre) && (t == [] || !IsSpace(t[0]))
    ensures TrimLeft(pre + t) == t
    decreases |pre|
  {
    if pre != [] {
      assert (pre + t)[1..] == pre[1..] + t;
      TrimLeftSpaces(pre[1..], t);
    } else {
      assert pre + t == t;
    }
  }

  /** A whitespace-free word followed by whitespace or the end is taken whole. */
  lemma {:induction false} TakeWordOf(w: string, rest: string)
    requires NoSpace(w)
    requires rest == [] || IsSpace(rest[0])
    ensures TakeWord(w + rest) == w
    decreases |w|
  {
    if w != [] {
      assert (w + rest)[1..] == w[1..] + rest;
      TakeWordOf(w[1..], rest);
    } else {
      assert w + rest == rest;
    }
  }

  /**
    `split()` takes words off the front one at a time: whitespace, then a
    maximal non-whitespace run, then the words of the rest.
  */
  lemma WordsSplit(pre: string, w: string, rest: string)
    requires AllSpace(pre) && w != [] && NoSpace(w)
    requires rest == [] || IsSpace(rest[0])
    ensures Words(pre + w + rest) == [w] + Words(rest)
  {
    assert pre + w + rest == pre + (w + rest);
    TrimLeftSpaces(pre, w + rest);
    TakeWordOf(w, rest);
    assert (w + rest)[|w|..] == rest;
  }

  /** The words of a word, a gap, a word and a rest: the two words, then the words of the rest. */
  lemma WordsTwoThenRest(w1: string, gap: string, w2: string, rest: string)
    requires w1 != [] && NoSpace(w1)
    requires gap != [] && IsSpace(gap[0]) && AllSpace(gap)
    requires w2 != [] && NoSpace(w2) && (rest == [] || IsSpace(rest[0]))
    ensures Words(w1 + gap + w2 + rest) == [w1, w2] + Words(rest)
  {
    var tail := gap + w2 + rest;
    var later := Words(rest);
    assert Words(tail) == [w2] + later by {
      WordsSplit(gap, w2, rest);
    }
    assert Words(w1 + gap + w2 + rest) == [w1] + Words(tail) by {
      var none: string := [];
      Regroup(w1, gap, w2, rest);
      WordsSplit(none, w1, tail);
    }
    ConsTwo(w1, w2, later);
  }

  lemma Regroup(a: string, b: string, c: string, d: string)
    ensures a + b + c + d == [] + a + (b + c + d)
  {
  }

  lemma ConsTwo(a: string, b: string, l: seq<string>)
    ensures [a] + ([b] + l) == [a, b] + l
  {
  }

  /**
    For a stripped line whose lower case starts with "lang ", `split()` has a
    second word, and the first word is the four letters of the command.
  */
  lemma {:induction false} LangArgumentExists(s: string)
    requires IsStripped(s) && StartsWith(Lower(s), "lang ")
    ensures |Words(s)| >= 2 && Words(s)[0] == s[..4]
  {
    assert Lower(s)[..5] == "lang ";
    forall i | 0 <= i < 4
      ensures !IsSpace(s[i])
    {
      assert Lower(s)[i] == LowerChar(s[i]) && Lower(s)[..5][i] == "lang "[i];
      LowerSpace(s[i]);
    }
    assert Lower(s)[4] == LowerChar(s[4]) && Lower(s)[..5][4] == ' ';
    assert s[4] == ' ';
    assert TrimLeft(s) == s;
    var w := TakeWord(s);
    assert |w| == 4 && w == s[..4];
    var rest := s[4..];
    assert |s| - 1 > 4;
    assert rest[|rest| - 1] == s[|s| - 1];
    WordsShape(rest);
  }

  predicate IsDigit(c: char) {
    '0' <= c <= '9'
  }

  predicate AllDigits(s: string) {
    forall i :: 0 <= i < |s| ==> IsDigit(s[i])
  }

  function DigitChar(d: nat): (c: char)
    requires d < 10
    ensures IsDigit(c) && c as int - '0' as int == d
  {
    ('0' as int + d) as char
  }

  /** `str(n)` for a non-negative integer: decimal digits, no leading zero. */
  function Decimal(n: nat): (s: string)
    ensures 1 <= |s| && AllDigits(s)
    ensures s[0] == '0' ==> n == 0
  {
    if n < 10 then [DigitChar(n)] else Decimal(n / 10) + [DigitChar(n % 10)]
  }

  /** `int(s)` for a string of decimal digits: the reading that `Decimal` inverts. */
  function DecimalValue(s: string): nat
    requires AllDigits(s)
  {
    if s == [] then 0
    else DecimalValue(s[..|s| - 1]) * 10 + (s[|s| - 1] as int - '0' as int)
  }

  function Zeros(k: nat): (z: string)
    ensures |z| == k && AllDigits(z)
  {
    if k == 0 then [] else Zeros(k - 1) + ['0']
  }

  /** `f"{n:03d}"`: `str(n)` padded on the left with zeros to width 3, never cut. */
  function Pad3(n: nat): string {
    var d := Decimal(n);
    if |d| >= 3 then d else Zeros(3 - |d|) + d
  }

  lemma {:induction false} DecimalRoundTrip(n: nat)
    ensures DecimalValue(Decimal(n)) == n
  {
    if n >= 10 {
      DecimalRoundTrip(n / 10);
      var d := Decimal(n);
      assert d[..|d| - 1] == Decimal(n / 10);
    }
  }

  lemma {:induction false} LeadingZerosValue(k: nat, s: string)
    requires AllDigits(s)
    ensures AllDigits(Zeros(k) + s) && DecimalValue(Zeros(k) + s) == DecimalValue(s)
    decreases |s|, k
  {
    var z := Zeros(k) + s;
    if s == [] {
      if k > 0 {
        assert z[..|z| - 1] == Zeros(k - 1) + [];
        LeadingZerosValue(k - 1, []);
      }
    } else {
      assert z[..|z| - 1] == Zeros(k) + s[..|s| - 1];
      LeadingZerosValue(k, s[..|s| - 1]);
    }
  }

  /** The number is recovered from its padded form, so distinct counters give distinct names. */
  lemma Pad3RoundTrip(n: nat)
    ensures AllDigits(Pad3(n)) && DecimalValue(Pad3(n)) == n
  {
    DecimalRoundTrip(n);
    var d := Decimal(n);
    if |d| < 3 {
      LeadingZerosValue(3 - |d|, d);
    }
  }

  lemma {:induction false} DecimalLength(n: nat)
    ensures n < 1000 <==> |Decimal(n)| <= 3
  {
    if n >= 10 {
      DecimalLength(n / 10);
      if n / 10 < 100 {
        DecimalShort(n / 10);
      }
    }
  }

  lemma DecimalShort(n: nat)
    requires n < 100
    ensures |Decimal(n)| <= 2
  {
  }

  /** The counter is always at least three characters wide, and exactly three below 1000. */
  lemma Pad3Width(n: nat)
    ensures |Pad3(n)| >= 3
    ensures n < 1000 <==> |Pad3(n)| == 3
  {
    DecimalLength(n);
  }

  /** Python's `<=` on strings: lexicographic by code point, a prefix before its extensions. */
  predicate NoLater(a: string, b: string)
    decreases |a|
  {
    a == [] || (b != [] && (a[0] < b[0] || (a[0] == b[0] && NoLater(a[1..], b[1..]))))
  }

  lemma {:induction false} NoLaterTotal(a: string, b: string)
    ensures NoLater(a, b) || NoLater(b, a)
    decreases |a|
  {
    if a != [] && b != [] && a[0] == b[0] {
      NoLaterTotal(a[1..], b[1..]);
    }
  }

  lemma {:induction false} NoLaterTransitive(a: string, b: string, c: string)
    requires NoLater(a, b) && NoLater(b, c)
    ensures NoLater(a, c)
    decreases |a|
  {
    if a != [] && a[0] == b[0] && b[0] == c[0] {
      NoLaterTransitive(a[1..], b[1..], c[1..]);
    }
  }

  lemma {:induction false} NoLaterAntisymmetric(a: string, b: string)
    requires NoLater(a, b) && NoLater(b, a)
    ensures a == b
    decreases |a|
  {
    if a != [] {
      NoLaterAntisymmetric(a[1..], b[1..]);
      assert a == [a[0]] + a[1..] && b == [b[0]] + b[1..];
    }
  }

  predicate Ascending(s: seq<string>) {
    forall i, j :: 0 <= i < j < |s| ==> NoLater(s[i], s[j])
  }

  /** A lower bound of an ascending sequence can go in front of it. */
  lemma ConsAscending(a: string, t: seq<string>)
    requires Ascending(t) && forall y :: y in t ==> NoLater(a, y)
    ensures Ascending([a] + t)
  {
    var r := [a] + t;
    forall i, j | 0 <= i < j < |r| ensures NoLater(r[i], r[j]) {
      assert r[j] == t[j - 1] && r[j] in t;
      if i > 0 { assert r[i] == t[i - 1]; }
    }
  }

  /** Puts `x` into an ascending sequence, keeping it ascending and losing nothing. */
  function Insert(x: string, s: seq<string>): (r: seq<string>)
    requires Ascending(s)
    ensures Ascending(r) && multiset(r) == multiset(s) + multiset{x}
  {
    if s == [] then [x]
    else if NoLater(x, s[0]) then
      assert forall y :: y in s ==> NoLater(x, y) by {
        forall y | y in s ensures NoLater(x, y) {
          var j :| 0 <= j < |s| && s[j] == y;
          if j > 0 { NoLaterTransitive(x, s[0], s[j]); }
        }
      }
      ConsAscending(x, s);
      [x] + s
    else
      var t := Insert(x, s[1..]);
      assert s == [s[0]] + s[1..];
      assert forall y :: y in t ==> NoLater(s[0], y) by {
        NoLaterTotal(x, s[0]);
        forall y | y in t ensures NoLater(s[0], y) {
          assert y in multiset(t);
          if y != x {
            assert y in multiset(s[1..]);
            var k :| 0 <= k < |s[1..]| && s[1..][k] == y;
            assert s[k + 1] == y;
          }
        }
      }
      ConsAscending(s[0], t);
      [s[0]] + t
  }

  /** `sorted(xs)` for strings: ascending in Python's order, and a permutation of `xs`. */
  function Sort(xs: seq<string>): (r: seq<string>)
    ensures Ascending(r) && multiset(r) == multiset(xs)
  {
    if xs == [] then []
    else
      assert xs == [xs[0]] + xs[1..];
      Insert(xs[0], Sort(xs[1..]))
  }

  /** Keeps the elements satisfying `p`, in their order. */
  function Filter(xs: seq<string>, p: string -> bool): (r: seq<string>)
    ensures |r| <= |xs|
    ensures forall y :: y in r <==> y in xs && p(y)
  {
    if xs == [] then [] else (if p(xs[0]) then [xs[0]] else []) + Filter(xs[1..], p)
  }

  /** No string occurs twice, as in a directory listing. */
  predicate NoDuplicates(s: seq<string>) {
    forall i, j :: 0 <= i < j < |s| ==> s[i] != s[j]
  }

  lemma {:induction false} NoDuplicatesCount(s: seq<string>, x: string)
    requires NoDuplicates(s)
    ensures multiset(s)[x] <= 1
  {
    if s != [] {
      assert s == [s[0]] + s[1..];
      NoDuplicatesCount(s[1..], x);
      if x == s[0] {
        assert x !in s[1..];
      }
    }
  }

  lemma CountDuplicates(s: seq<string>, i: int, j: int)
    requires 0 <= i < j < |s|
    ensures s[i] == s[j] ==> multiset(s)[s[i]] >= 2
  {
    assert s == s[..j] + s[j..];
    assert s[i] in s[..j];
    assert s[j] in s[j..];
  }

  /** Sorting a sequence without duplicates gives a strictly ascending one. */
  lemma SortNoDuplicates(xs: seq<string>)
    requires NoDuplicates(xs)
    ensures NoDuplicates(Sort(xs))
  {
    var r := Sort(xs);
    forall i, j | 0 <= i < j < |r| ensures r[i] != r[j] {
      NoDuplicatesCount(xs, r[i]);
      CountDuplicates(r, i, j);
    }
  }
}
