/** The JavaScript string and array operations the core is built from:
    `String.prototype.split` with a one-character separator, `Array.prototype.join`,
    `String.prototype.trim`, `toLowerCase` (on ASCII letters) and the decimal
    rendering of array indices. */
module Strings {

  /** WhiteSpace and LineTerminator of the ECMAScript grammar: what `trim` removes. */
  const JsWhitespace: set<char> := {
    '\t', '\n', '\U{000B}', '\U{000C}', '\r', ' ', '\U{00A0}', '\U{1680}',
    '\U{2000}', '\U{2001}', '\U{2002}', '\U{2003}', '\U{2004}', '\U{2005}', '\U{2006}', '\U{2007}',
    '\U{2008}', '\U{2009}', '\U{200A}', '\U{2028}', '\U{2029}', '\U{202F}', '\U{205F}', '\U{3000}', '\U{FEFF}'
  }

  predicate IsJsWhitespace(c: char) {
    c in JsWhitespace
  }

  predicate AllWhitespace(s: string) {
    forall k :: 0 <= k < |s| ==> IsJsWhitespace(s[k])
  }

  /** No whitespace at either end. */
  predicate IsTrimmed(s: string) {
    |s| == 0 || (!IsJsWhitespace(s[0]) && !IsJsWhitespace(s[|s| - 1]))
  }

  /** `sub` occurs somewhere in `s`. */
  ghost predicate Contains(s: string, sub: string) {
    exists i :: OccursAt(s, sub, i)
  }

  /** `sub` occurs in `s` starting at position `i`. */
  predicate OccursAt(s: string, sub: string, i: int) {
    0 <= i <= |s| - |sub| && s[i..i + |sub|] == sub
  }

  lemma ContainsMiddle(a: string, sub: string, b: string)
    ensures Contains(a + sub + b, sub)
  {
    var s := a + sub + b;
    assert s[|a|..|a| + |sub|] == sub;
    assert OccursAt(s, sub, |a|);
  }

  /** A string ends with the last three pieces it is made of. */
  lemma ContainsEnd(a: string, b: string, c: string, d: string)
    ensures Contains(a + b + c + d, b + c + d)
  {
    var s := a + b + c + d;
    assert s[|a|..|s|] == b + c + d;
    assert OccursAt(s, b + c + d, |a|);
  }

  /** Whatever is appended, an occurrence stays. */
  lemma ContainsExtend(s: string, sub: string, t: string)
    requires Contains(s, sub)
    ensures Contains(s + t, sub)
  {
    var i :| OccursAt(s, sub, i);
    assert (s + t)[i..i + |sub|] == s[i..i + |sub|];
    assert OccursAt(s + t, sub, i);
  }

  /** A string contains its prefix. */
  lemma ContainsPrefix(a: string, b: string)
    ensures Contains(a + b, a)
  {
    assert (a + b)[0..|a|] == a;
    assert OccursAt(a + b, a, 0);
  }

  /** Whatever is put in front, every occurrence stays. */
  lemma ContainsAllPrepend(t: string, s: string, subs: seq<string>)
    requires forall k :: 0 <= k < |subs| ==> Contains(s, subs[k])
    ensures forall k :: 0 <= k < |subs| ==> Contains(t + s, subs[k])
  {
    forall k | 0 <= k < |subs|
      ensures Contains(t + s, subs[k])
    {
      var i :| OccursAt(s, subs[k], i);
      assert (t + s)[|t| + i..|t| + i + |subs[k]|] == s[i..i + |subs[k]|];
      assert OccursAt(t + s, subs[k], |t| + i);
    }
  }

  /** Regrouping a concatenation of four strings. */
  lemma Regroup(a: string, b: string, c: string, d: string)
    ensures a + b + c + d == a + (b + c + d)
  {
  }

  /** A slice inside the middle part of a concatenation is a slice of that part. */
  lemma SliceOfMiddle(a: string, b: string, c: string, i: nat, j: nat)
    requires i <= j <= |b|
    ensures (a + b + c)[|a| + i..|a| + j] == b[i..j]
  {
    var s := a + b + c;
    forall k | 0 <= k < j - i
      ensures s[|a| + i..|a| + j][k] == b[i..j][k]
    {
      assert s[|a| + i + k] == b[i + k];
    }
  }

  /** How many times `c` occurs in `s`. */
  function Count(s: string, c: char): nat {
    multiset(s)[c]
  }

  // ---------------------------------------------------------------- split / join

  /** The position of the first `c` in `s`. */
  function FirstIndex(s: string, c: char): (i: nat)
    requires c in s
    ensures i < |s| && s[i] == c && c !in s[..i]
  {
    if s[0] == c then 0
    else
      var j := FirstIndex(s[1..], c);
      assert s[..j + 1] == [s[0]] + s[1..][..j];
      j + 1
  }

  /** `s.split(sep)`: the pieces between separators, in order, always at least one. */
  function Split(s: string, sep: char): (pieces: seq<string>)
    ensures |pieces| == Count(s, sep) + 1
    ensures forall k :: 0 <= k < |pieces| ==> sep !in pieces[k]
    ensures pieces[0] <= s && (|pieces[0]| < |s| ==> s[|pieces[0]|] == sep)
    decreases |s|
  {
    if sep !in s then [s]
    else
      var i := FirstIndex(s, sep);
      assert s == s[..i] + [sep] + s[i + 1..];
      assert multiset(s) == multiset(s[..i]) + multiset{sep} + multiset(s[i + 1..]);
      [s[..i]] + Split(s[i + 1..], sep)
  }

  /** `parts.join(sep)`: the parts in order with `sep` between neighbours. */
  function Join(parts: seq<string>, sep: string): (s: string)
    ensures |parts| == 0 ==> s == ""
    ensures |parts| > 0 ==> parts[0] <= s
    ensures |parts| > 1 ==> parts[0] + sep <= s
  {
    if |parts| == 0 then ""
    else if |parts| == 1 then parts[0]
    else parts[0] + sep + Join(parts[1..], sep)
  }

  /** Every part occurs in the joined string. */
  lemma {:induction false} JoinContains(parts: seq<string>, sep: string)
    ensures forall k :: 0 <= k < |parts| ==> Contains(Join(parts, sep), parts[k])
  {
    if |parts| == 1 {
      ContainsPrefix(parts[0], "");
      assert parts[0] + "" == parts[0];
    } else if |parts| > 1 {
      var rest := Join(parts[1..], sep);
      JoinContains(parts[1..], sep);
      ContainsPrefix(parts[0], sep + rest);
      assert parts[0] + (sep + rest) == parts[0] + sep + rest;
      assert forall k :: 1 <= k < |parts| ==> parts[k] == parts[1..][k - 1];
      ContainsAllPrepend(parts[0] + sep, rest, parts[1..]);
    }
  }

  /** Joining the pieces of a split with the separator gives back the string. */
  lemma {:induction false} JoinSplit(s: string, sep: char)
    ensures Join(Split(s, sep), [sep]) == s
    decreases |s|
  {
    if sep in s {
      var i := FirstIndex(s, sep);
      var rest := Split(s[i + 1..], sep);
      JoinSplit(s[i + 1..], sep);
      assert Split(s, sep) == [s[..i]] + rest;
      assert s == s[..i] + [sep] + s[i + 1..];
    }
  }

  /** The first separator of `a + [sep] + b` is the one after `a` when `a` has none. */
  lemma FirstIndexAfter(a: string, sep: char, b: string)
    requires sep !in a
    ensures FirstIndex(a + [sep] + b, sep) == |a|
  {
    var s := a + [sep] + b;
    var i := FirstIndex(s, sep);
    assert forall j :: 0 <= j < |a| ==> s[j] == a[j];
    assert forall j :: |a| < j <= |s| ==> s[..j][|a|] == sep;
  }

  /** Splitting at a first separator gives the text before it, then the pieces after it. */
  lemma SplitAt(a: string, sep: char, b: string)
    requires sep !in a
    ensures Split(a + [sep] + b, sep) == [a] + Split(b, sep)
  {
    var s := a + [sep] + b;
    assert s[|a|] == sep;
    FirstIndexAfter(a, sep, b);
    assert s[..|a|] == a;
    assert s[|a| + 1..] == b;
  }

  /** Splitting a join cuts off its first part at the first separator. */
  lemma SplitJoinStep(parts: seq<string>, sep: char)
    requires |parts| > 1 && sep !in parts[0]
    ensures Split(Join(parts, [sep]), sep) == [parts[0]] + Split(Join(parts[1..], [sep]), sep)
  {
    var rest := Join(parts[1..], [sep]);
    assert Join(parts, [sep]) == parts[0] + [sep] + rest;
    SplitAt(parts[0], sep, rest);
  }

  /** Splitting a join of separator-free pieces gives back the pieces. */
  lemma {:induction false} SplitJoin(parts: seq<string>, sep: char)
    requires |parts| >= 1
    requires forall k :: 0 <= k < |parts| ==> sep !in parts[k]
    ensures Split(Join(parts, [sep]), sep) == parts
  {
    if |parts| > 1 {
      SplitJoinStep(parts, sep);
      assert forall k :: 0 <= k < |parts| - 1 ==> parts[1..][k] == parts[k + 1];
      SplitJoin(parts[1..], sep);
      assert [parts[0]] + parts[1..] == parts;
    }
  }

  // ---------------------------------------------------------------- trim / lower

  /** The first position at or after `i` that does not hold whitespace (or `|s|`). */
  function SkipWhitespace(s: string, i: nat): (j: nat)
    requires i <= |s|
    ensures i <= j <= |s|
    ensures forall k :: i <= k < j ==> IsJsWhitespace(s[k])
    ensures j == |s| || !IsJsWhitespace(s[j])
    decreases |s| - i
  {
    if i < |s| && IsJsWhitespace(s[i]) then SkipWhitespace(s, i + 1) else i
  }

  /** The end of `s[lo..j]` once the whitespace before `j` is cut off. */
  function SkipWhitespaceBack(s: string, lo: nat, j: nat): (e: nat)
    requires lo <= j <= |s|
    ensures lo <= e <= j
    ensures forall k :: e <= k < j ==> IsJsWhitespace(s[k])
    ensures e == lo || !IsJsWhitespace(s[e - 1])
    decreases j
  {
    if lo < j && IsJsWhitespace(s[j - 1]) then SkipWhitespaceBack(s, lo, j - 1) else j
  }

  /** `r` is `s` with the whitespace before position `i` and after position `i + |r|` cut off. */
  predicate IsTrimSlice(s: string, r: string, i: int) {
    && 0 <= i <= |s| - |r|
    && r == s[i..i + |r|]
    && (forall k :: 0 <= k < i ==> IsJsWhitespace(s[k]))
    && (forall k :: i + |r| <= k < |s| ==> IsJsWhitespace(s[k]))
  }

  /** `s.trim()`: the slice of `s` left once the whitespace at both ends is cut off. */
  function Trim(s: string): (r: string)
    ensures IsTrimmed(r)
    ensures exists i :: IsTrimSlice(s, r, i)
  {
    var i := SkipWhitespace(s, 0);
    var e := SkipWhitespaceBack(s, i, |s|);
    var r := s[i..e];
    assert |r| > 0 ==> r[0] == s[i] && r[|r| - 1] == s[e - 1];
    assert IsTrimSlice(s, r, i);
    r
  }

  /** Skipping whitespace from `i` stops at the first non-whitespace position `n`. */
  lemma {:induction false} SkipWhitespaceTo(s: string, i: nat, n: nat)
    requires i <= n <= |s|
    requires forall k :: i <= k < n ==> IsJsWhitespace(s[k])
    requires n == |s| || !IsJsWhitespace(s[n])
    ensures SkipWhitespace(s, i) == n
    decreases n - i
  {
    if i < n {
      SkipWhitespaceTo(s, i + 1, n);
    }
  }

  /** Skipping whitespace back from `j` stops just after the last non-whitespace
      position before it, `e`. */
  lemma {:induction false} SkipWhitespaceBackTo(s: string, lo: nat, j: nat, e: nat)
    requires lo <= e <= j <= |s|
    requires forall k :: e <= k < j ==> IsJsWhitespace(s[k])
    requires e == lo || !IsJsWhitespace(s[e - 1])
    ensures SkipWhitespaceBack(s, lo, j) == e
    decreases j
  {
    if e < j {
      SkipWhitespaceBackTo(s, lo, j - 1, e);
    }
  }

  /** Trimming removes exactly the whitespace on both sides of a trimmed, non-empty string. */
  lemma TrimAround(w1: string, s: string, w2: string)
    requires AllWhitespace(w1) && AllWhitespace(w2) && IsTrimmed(s) && s != ""
    ensures Trim(w1 + s + w2) == s
  {
    var x := w1 + s + w2;
    var e := |w1| + |s|;
    assert forall k :: 0 <= k < |w1| ==> x[k] == w1[k];
    assert forall k :: e <= k < |x| ==> x[k] == w2[k - e];
    assert x[|w1|] == s[0] && x[e - 1] == s[|s| - 1];
    SkipWhitespaceTo(x, 0, |w1|);
    SkipWhitespaceBackTo(x, |w1|, |x|, e);
    assert x[|w1|..e] == s;
  }

  /** Trimming a string that has no whitespace at its ends changes nothing. */
  lemma TrimTrimmed(s: string)
    requires IsTrimmed(s)
    ensures Trim(s) == s
  {
    SkipWhitespaceTo(s, 0, 0);
  }

  /** Trimming leaves nothing exactly when the string is all whitespace. */
  lemma TrimBlank(s: string)
    ensures Trim(s) == "" <==> AllWhitespace(s)
  {
    var r := Trim(s);
    var i :| IsTrimSlice(s, r, i);
    if |r| > 0 {
      assert r[0] == s[i];
    }
  }

  /** Whitespace in front of a trimmed string is all that trim removes. */
  lemma TrimAfterWhitespace(w: string, s: string)
    requires AllWhitespace(w) && IsTrimmed(s)
    ensures Trim(w + s) == s
  {
    var x := w + s;
    assert forall k :: 0 <= k < |w| ==> x[k] == w[k];
    assert |s| > 0 ==> x[|w|] == s[0] && x[|x| - 1] == s[|s| - 1];
    SkipWhitespaceTo(x, 0, |w|);
    assert x[|w|..|x|] == s;
  }

  /** `toLowerCase` on ASCII letters; every other character is left as it is. */
  function LowerChar(c: char): char {
    if 'A' <= c <= 'Z' then (c as int + 32) as char else c
  }

  function ToLower(s: string): (r: string)
    ensures |r| == |s|
    ensures forall k :: 0 <= k < |r| ==> !('A' <= r[k] <= 'Z')
    ensures forall k :: 0 <= k < |r| ==>
              r[k] == s[k] || ('A' <= s[k] <= 'Z' && r[k] as int == s[k] as int + 32)
  {
    seq(|s|, k requires 0 <= k < |s| => LowerChar(s[k]))
  }

  // ---------------------------------------------------------------- decimal

  function DigitChar(d: nat): char
    requires d < 10
  {
    ('0' as int + d) as char
  }

  /** `String(n)` for a natural number: its decimal digits, without leading zeros. */
  function Decimal(n: nat): (s: string)
    ensures |s| >= 1
    ensures forall k :: 0 <= k < |s| ==> '0' <= s[k] <= '9'
    ensures |s| > 1 ==> s[0] != '0'
  {
    if n < 10 then [DigitChar(n)] else Decimal(n / 10) + [DigitChar(n % 10)]
  }

  /** The number a string of decimal digits denotes. */
  function DecimalValue(s: string): nat
    requires forall k :: 0 <= k < |s| ==> '0' <= s[k] <= '9'
  {
    if |s| == 0 then 0 else 10 * DecimalValue(s[..|s| - 1]) + (s[|s| - 1] as int - '0' as int)
  }

  /** Reading back the decimal rendering of `n` gives `n`. */
  lemma {:induction false} DecimalRoundTrip(n: nat)
    ensures DecimalValue(Decimal(n)) == n
  {
    if n >= 10 {
      var s := Decimal(n);
      assert s[..|s| - 1] == Decimal(n / 10);
      DecimalRoundTrip(n / 10);
    }
  }
}
