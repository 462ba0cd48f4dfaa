/** The JavaScript built-ins the lyrics downloader relies on, stated once so that
    every component shares one definition: white space (the set used by `\s` and
    by `String.prototype.trim`), trimming, ASCII case mapping, `Math.round`,
    decimal number rendering and substring tests. */
module Builtins {
  import opened Types

  /** The characters JavaScript's `\s` class and `trim()` both treat as white space
      (WhiteSpace and LineTerminator of ECMA-262). */
  predicate IsSpace(c: char) {
    c == ' ' || c == '\t' || c == '\n' || c == '\r' || c == '\U{000B}' || c == '\U{000C}'
    || c == '\U{00A0}' || c == '\U{1680}' || ('\U{2000}' <= c <= '\U{200A}')
    || c == '\U{2028}' || c == '\U{2029}' || c == '\U{202F}' || c == '\U{205F}'
    || c == '\U{3000}' || c == '\U{FEFF}'
  }

  /** The characters `.` does not match in a JavaScript regular expression. */
  predicate IsLineTerminator(c: char) {
    c == '\n' || c == '\r' || c == '\U{2028}' || c == '\U{2029}'
  }

  predicate IsDigit(c: char) { '0' <= c <= '9' }

  predicate AllSpace(s: string) { forall k :: 0 <= k < |s| ==> IsSpace(s[k]) }

  /** No white space at either end: what `trim()` guarantees. */
  predicate IsTrimmed(s: string) {
    s == [] || (!IsSpace(s[0]) && !IsSpace(s[|s| - 1]))
  }

  /** Number of white-space characters at the front of `s`. */
  function SpaceRun(s: string): (n: nat)
    ensures n <= |s|
    ensures AllSpace(s[..n])
    ensures n < |s| ==> !IsSpace(s[n])
  {
    if s != [] && IsSpace(s[0]) then
      var n := 1 + SpaceRun(s[1..]);
      assert s[..n] == [s[0]] + s[1..][..n - 1];
      n
    else 0
  }

  function TrimStart(s: string): (r: string)
    ensures |r| <= |s| && r == s[|s| - |r|..]
    ensures AllSpace(s[..|s| - |r|])
    ensures r == [] || !IsSpace(r[0])
  {
    s[SpaceRun(s)..]
  }

  function TrimEnd(s: string): (r: string)
    ensures |r| <= |s| && r == s[..|r|]
    ensures AllSpace(s[|r|..])
    ensures r == [] || !IsSpace(r[|r| - 1])
    decreases |s|
  {
    if s != [] && IsSpace(s[|s| - 1]) then
      var r := TrimEnd(s[..|s| - 1]);
      assert s[|r|..] == s[..|s| - 1][|r|..] + [s[|s| - 1]];
      assert r == s[..|r|];
      r
    else s
  }

  /** `String.prototype.trim`: the longest infix of `s` with no white space at
      either end, obtained by removing white space only. */
  function Trim(s: string): (r: string)
    ensures IsTrimmed(r)
    ensures SpaceRun(s) + |r| <= |s| && r == s[SpaceRun(s)..SpaceRun(s) + |r|]
    ensures AllSpace(s[SpaceRun(s) + |r|..])
    ensures IsTrimmed(s) ==> r == s
  {
    var t := TrimStart(s);
    var r := TrimEnd(t);
    assert r == s[SpaceRun(s)..][..|r|];
    assert t[|r|..] == s[SpaceRun(s) + |r|..];
    r
  }

  /** Trimming a trimmed string followed by white space gives the string back. */
  lemma TrimTrailingSpace(t: string, spaces: string)
    requires IsTrimmed(t) && AllSpace(spaces)
    ensures Trim(t + spaces) == t
  {
    var s := t + spaces;
    var r := Trim(s);
    if t == [] {
      assert s == spaces;
    } else {
      assert s[0] == t[0] && s[|t| - 1] == t[|t| - 1];
      assert r == s[..|r|];
    }
  }

  /** ASCII case mapping (the locale-independent part of `toLowerCase`). */
  function Lower(c: char): char {
    if 'A' <= c <= 'Z' then (c as int + 32) as char else c
  }

  function LowerString(s: string): (r: string)
    ensures |r| == |s|
    ensures forall k :: 0 <= k < |s| ==> r[k] == Lower(s[k])
  {
    if s == [] then [] else [Lower(s[0])] + LowerString(s[1..])
  }

  function Abs(x: int): nat { if x < 0 then -x else x }

  function MinReal(x: real, y: real): real { if x <= y then x else y }

  function MaxReal(x: real, y: real): real { if x >= y then x else y }

  /** `Math.round`: the nearest integer, halves rounded towards positive infinity. */
  function Round(x: real): (r: int)
    ensures r as real <= x + 0.5 < r as real + 1.0
  {
    (x + 0.5).Floor
  }

  /** A larger argument never rounds to a smaller integer. */
  lemma RoundMonotone(x: real, y: real)
    requires x <= y
    ensures Round(x) <= Round(y)
  {
  }

  function DigitChar(d: nat): (c: char)
    requires d < 10
    ensures IsDigit(c)
  {
    (('0' as int) + d) as char
  }

  function DigitValue(c: char): nat
    requires IsDigit(c)
  {
    (c as int) - ('0' as int)
  }

  /** Decimal rendering of a non-negative integer, as `String(n)` gives it. */
  function NatToString(n: nat): (r: string)
    ensures |r| >= 1
    ensures forall k :: 0 <= k < |r| ==> IsDigit(r[k])
    ensures |r| > 1 ==> r[0] != '0'
  {
    if n < 10 then [DigitChar(n)] else NatToString(n / 10) + [DigitChar(n % 10)]
  }

  /** `String(i)` for an integer of moderate size. */
  function IntToString(i: int): (r: string)
    ensures |r| >= 1
    ensures (r[0] == '-') == (i < 0)
  {
    if i < 0 then "-" + NatToString(-i) else NatToString(i)
  }

  /** The value of a string of decimal digits. */
  function DigitsValue(s: string): nat
    requires forall k :: 0 <= k < |s| ==> IsDigit(s[k])
  {
    if s == [] then 0 else DigitsValue(s[..|s| - 1]) * 10 + DigitValue(s[|s| - 1])
  }

  /** Reading the rendered digits back gives the number again. */
  lemma {:induction false} NatToStringRoundTrip(n: nat)
    ensures DigitsValue(NatToString(n)) == n
  {
    if n >= 10 {
      var s := NatToString(n);
      assert s[..|s| - 1] == NatToString(n / 10);
      NatToStringRoundTrip(n / 10);
    }
  }

  predicate StartsWith(s: string, prefix: string) {
    |prefix| <= |s| && s[..|prefix|] == prefix
  }

  /** `s.includes(sub)`: `sub` occurs somewhere in `s`. */
  predicate Contains(s: string, sub: string)
    decreases |s|
  {
    StartsWith(s, sub) || (s != [] && Contains(s[1..], sub))
  }

  /** The first position at or after `from` where `matches` holds of the suffix. */
  function FirstMatchFrom(s: string, from: nat, matches: string -> bool): (r: Option<nat>)
    requires from <= |s|
    ensures r.Some? ==> (from <= r.value <= |s| && matches(s[r.value..])
      && forall q :: from <= q < r.value ==> !matches(s[q..]))
    ensures r.None? ==> forall q :: from <= q <= |s| ==> !matches(s[q..])
    decreases |s| - from
  {
    if matches(s[from..]) then Some(from)
    else if from == |s| then None
    else FirstMatchFrom(s, from + 1, matches)
  }

  /** Replacing a pattern anchored at the end (`$`) by the empty string: the input cut
      at the leftmost position where the pattern matches, or unchanged. */
  function CutAtFirstMatch(s: string, matches: string -> bool): (r: string)
    ensures |r| <= |s| && r == s[..|r|]
    ensures (forall q :: 0 <= q <= |s| ==> !matches(s[q..])) ==> r == s
    ensures r != s ==> (matches(s[|r|..]) && forall q :: 0 <= q < |r| ==> !matches(s[q..]))
    ensures |r| < |s| || forall q :: 0 <= q < |s| ==> !matches(s[q..])
  {
    match FirstMatchFrom(s, 0, matches)
    case None => s
    case Some(p) => s[..p]
  }

  /** `s.split('\n')`: the pieces between line feeds, empty ones included. */
  function SplitLines(s: string): (r: seq<string>)
    ensures |r| >= 1
    ensures forall k :: 0 <= k < |r| ==> '\n' !in r[k]
    decreases |s|
  {
    if '\n' !in s then [s]
    else
      var i := LineEnd(s);
      [s[..i]] + SplitLines(s[i + 1..])
  }

  /** The position of the first line feed. */
  function LineEnd(s: string): (i: nat)
    requires '\n' in s
    ensures i < |s| && s[i] == '\n' && '\n' !in s[..i]
  {
    if s[0] == '\n' then 0
    else
      assert s[1..] + [] == s[1..] && s == [s[0]] + s[1..];
      var i := 1 + LineEnd(s[1..]);
      assert s[..i] == [s[0]] + s[1..][..i - 1];
      i
  }

  /** `lines.join('\n')`: the pieces joined back with line feeds. */
  function JoinLines(lines: seq<string>): string {
    if lines == [] then "" else if |lines| == 1 then lines[0] else lines[0] + "\n" + JoinLines(lines[1..])
  }

  /** Splitting loses nothing: joining the pieces gives the text back. */
  lemma {:induction false} SplitJoin(s: string)
    ensures JoinLines(SplitLines(s)) == s
    decreases |s|
  {
    if '\n' in s {
      var i := LineEnd(s);
      SplitJoin(s[i + 1..]);
      assert s == s[..i] + "\n" + s[i + 1..];
    }
  }
  /** Splitting at a first line that holds no line feed. */
  lemma SplitAfterLine(h: string, s: string)
    requires '\n' !in h
    ensures SplitLines(h + "\n" + s) == [h] + SplitLines(s)
  {
    var t := h + "\n" + s;
    assert t[|h|] == '\n';
    var i := LineEnd(t);
    assert forall k :: 0 <= k < |h| ==> t[k] == h[k];
    assert forall j :: 0 <= j < i ==> t[..i][j] == t[j];
    assert t[..i] == h;
    assert t[i + 1..] == s;
  }

  /** Splitting lines that hold no line feed, joined with line feeds, gives them
      back. */
  lemma {:induction false} JoinSplit(lines: seq<string>)
    requires |lines| >= 1 && forall k :: 0 <= k < |lines| ==> '\n' !in lines[k]
    ensures SplitLines(JoinLines(lines)) == lines
  {
    if |lines| > 1 {
      JoinSplit(lines[1..]);
      SplitAfterLine(lines[0], JoinLines(lines[1..]));
      assert lines == [lines[0]] + lines[1..];
    }
  }

  /** Generic `filter`: the elements that satisfy `keep`, in their order. */
  function Filter<T>(s: seq<T>, keep: T -> bool): (r: seq<T>)
    ensures |r| <= |s|
    ensures forall k :: 0 <= k < |r| ==> keep(r[k])
  {
    if s == [] then [] else (if keep(s[0]) then [s[0]] else []) + Filter(s[1..], keep)
  }

  /** The filter keeps exactly the elements that satisfy the test. */
  lemma {:induction false} FilterMembers<T>(s: seq<T>, keep: T -> bool, x: T)
    ensures x in Filter(s, keep) <==> x in s && keep(x)
  {
    if s != [] {
      FilterMembers(s[1..], keep, x);
      assert s == [s[0]] + s[1..];
    }
  }

  lemma FilterStep<T>(s: seq<T>, keep: T -> bool)
    requires s != []
    ensures Filter(s, keep) == (if keep(s[0]) then [s[0]] else []) + Filter(s[1..], keep)
  {
  }

  /** The filter keeps the order: filtering two parts in turn is filtering the whole. */
  lemma {:induction false} FilterAppend<T>(a: seq<T>, b: seq<T>, keep: T -> bool)
    ensures Filter(a + b, keep) == Filter(a, keep) + Filter(b, keep)
  {
    if a == [] {
      assert a + b == b;
    } else {
      assert (a + b)[0] == a[0];
      assert (a + b)[1..] == a[1..] + b;
      FilterAppend(a[1..], b, keep);
      FilterStep(a + b, keep);
      FilterStep(a, keep);
    }
  }

  /** Filtering keeps a sequence whose elements all pass. */
  lemma {:induction false} FilterAll<T>(s: seq<T>, keep: T -> bool)
    requires forall k :: 0 <= k < |s| ==> keep(s[k])
    ensures Filter(s, keep) == s
  {
    if s != [] {
      FilterAll(s[1..], keep);
      assert s == [s[0]] + s[1..];
    }
  }
}
