/** The karaoke preview: synced lyrics are parsed into timed lines, a line is active
    from its own time up to the next line's time (both shifted by the offset), and the
    view scrolls to the line before the first one still to come. Times are whole
    milliseconds. */
module Karaoke {
  import opened Builtins
  import opened Types

  datatype LyricLine = LyricLine(time: nat, text: string)

  /** A timestamp tag found at the front of a text: its time and its length. */
  datatype Tag = Tag(time: nat, length: nat)

  /** Two decimal digits read as a number. */
  function TwoDigits(a: char, b: char): (n: nat)
    requires IsDigit(a) && IsDigit(b)
    ensures n < 100
  {
    DigitValue(a) * 10 + DigitValue(b)
  }

  /** `\[(\d{2}):(\d{2})\.(\d{2,3})\]` at the front of `t`. The fraction takes three
      digits when a `]` follows them, else two; two digits count as hundredths. */
  function TagAt(t: string): (r: Option<Tag>)
    ensures r.Some? ==> (r.value.length == 10 || r.value.length == 11) && r.value.length <= |t|
    ensures r.Some? ==> t[0] == '[' && t[r.value.length - 1] == ']'
    ensures r.Some? ==> r.value.time <= 99 * 60000 + 99 * 1000 + 999
  {
    if |t| >= 10 && t[0] == '[' && IsDigit(t[1]) && IsDigit(t[2]) && t[3] == ':'
      && IsDigit(t[4]) && IsDigit(t[5]) && t[6] == '.' && IsDigit(t[7]) && IsDigit(t[8])
    then
      var whole := TwoDigits(t[1], t[2]) * 60000 + TwoDigits(t[4], t[5]) * 1000;
      if |t| >= 11 && IsDigit(t[9]) && t[10] == ']' then
        Some(Tag(whole + TwoDigits(t[7], t[8]) * 10 + DigitValue(t[9]), 11))
      else if t[9] == ']' then
        Some(Tag(whole + TwoDigits(t[7], t[8]) * 10, 10))
      else None
    else None
  }

  /** The leftmost position at or after `from` where a tag starts. */
  function FirstTag(line: string, from: nat): (r: Option<(nat, Tag)>)
    requires from <= |line|
    ensures r.Some? ==> (from <= r.value.0 && r.value.0 + r.value.1.length <= |line|
      && TagAt(line[r.value.0..]) == Some(r.value.1))
    ensures r.Some? ==> forall p :: from <= p < r.value.0 ==> TagAt(line[p..]).None?
    ensures r.None? <==> forall p :: from <= p <= |line| ==> TagAt(line[p..]).None?
    decreases |line| - from
  {
    match TagAt(line[from..])
    case Some(tag) => Some((from, tag))
    case None => if from == |line| then None else FirstTag(line, from + 1)
  }

  /** What `.` matches: the text up to the first line terminator. */
  function UpToTerminator(s: string): (r: string)
    ensures |r| <= |s| && r == s[..|r|]
    ensures forall k :: 0 <= k < |r| ==> !IsLineTerminator(r[k])
    ensures |r| < |s| ==> IsLineTerminator(s[|r|])
  {
    if s == [] || IsLineTerminator(s[0]) then []
    else
      var r := [s[0]] + UpToTerminator(s[1..]);
      assert s[..|r|] == [s[0]] + s[1..][..|r| - 1];
      r
  }

  /** One line of the file: the time of its first tag and the rest of the line after
      that tag, trimmed; a line without a tag gives nothing. */
  function ParseLine(line: string): (r: Option<LyricLine>)
    ensures r.Some? <==> exists p :: 0 <= p <= |line| && TagAt(line[p..]).Some?
    ensures r.Some? ==> IsTrimmed(r.value.text)
  {
    match FirstTag(line, 0)
    case None => None
    case Some((p, tag)) => Some(LyricLine(tag.time, Trim(UpToTerminator(line[p + tag.length..]))))
  }

  /** What one line adds to the result: its parsed form, or nothing. */
  function Contribution(line: string): (r: seq<LyricLine>)
    ensures |r| == (if ParseLine(line).Some? then 1 else 0)
  {
    match ParseLine(line)
    case None => []
    case Some(l) => [l]
  }

  /** The lines that hold a tag, parsed, in their order. */
  function ParseLines(lines: seq<string>): (r: seq<LyricLine>)
    ensures |r| <= |lines|
  {
    if lines == [] then [] else ParseLines(lines[..|lines| - 1]) + Contribution(lines[|lines| - 1])
  }

  /** `parseLyrics`: each line of the file is tried in turn and a parsed line is
      appended to the result. */
  method ParseLyrics(lrc: string) returns (result: seq<LyricLine>)
    ensures result == ParseLines(SplitLines(lrc))
  {
    var lines := SplitLines(lrc);
    result := [];
    var i := 0;
    while i < |lines|
      invariant 0 <= i <= |lines|
      invariant result == ParseLines(lines[..i])
    {
      ParseLinesStep(lines, i);
      var parsed := ParseLine(lines[i]);
      if parsed.Some? {
        result := result + [parsed.value];
      }
      i := i + 1;
    }
    assert lines[..i] == lines;
  }

  /** One more line parsed: its contribution is appended. */
  lemma ParseLinesStep(lines: seq<string>, i: nat)
    requires i < |lines|
    ensures ParseLines(lines[..i + 1]) == ParseLines(lines[..i]) + Contribution(lines[i])
  {
    TakeOneMore(lines, i);
    ParseLinesSnoc(lines[..i], lines[i]);
  }

  lemma TakeOneMore<T>(s: seq<T>, i: nat)
    requires i < |s|
    ensures s[..i + 1] == s[..i] + [s[i]]
  {
  }

  lemma ParseLinesSnoc(a: seq<string>, x: string)
    ensures ParseLines(a + [x]) == ParseLines(a) + Contribution(x)
  {
    assert (a + [x])[..|a|] == a;
  }

  lemma AssociateSeq<T>(a: seq<T>, b: seq<T>, c: seq<T>)
    ensures a + b + c == a + (b + c)
  {
  }

  /** Parsing a file made of two parts gives the parsed lines of each, in order. */
  lemma {:induction false} ParseLinesAppend(a: seq<string>, b: seq<string>)
    ensures ParseLines(a + b) == ParseLines(a) + ParseLines(b)
    decreases |b|
  {
    if b == [] {
      assert a + b == a;
      assert ParseLines(a) + [] == ParseLines(a);
    } else {
      var c, x := b[..|b| - 1], b[|b| - 1];
      assert b == c + [x];
      AssociateSeq(a, c, [x]);
      ParseLinesSnoc(a + c, x);
      ParseLinesAppend(a, c);
      ParseLinesSnoc(c, x);
      AssociateSeq(ParseLines(a), ParseLines(c), Contribution(x));
    }
  }

  /** Lines with a tag each give exactly one parsed line; the others give none. */
  function TaggedCount(lines: seq<string>): nat {
    if lines == [] then 0
    else TaggedCount(lines[..|lines| - 1]) + (if ParseLine(lines[|lines| - 1]).Some? then 1 else 0)
  }

  lemma {:induction false} ParseLinesCount(lines: seq<string>)
    ensures |ParseLines(lines)| == TaggedCount(lines)
  {
    if lines != [] {
      ParseLinesCount(lines[..|lines| - 1]);
    }
  }

  /** Two decimal digits for a number below 100, zero-padded. */
  function Pad2(n: nat): (r: string)
    requires n < 100
    ensures |r| == 2 && IsDigit(r[0]) && IsDigit(r[1]) && TwoDigits(r[0], r[1]) == n
  {
    [DigitChar(n / 10), DigitChar(n % 10)]
  }

  /** The usual `[mm:ss.xx]` tag. */
  function TimeTag(minutes: nat, seconds: nat, hundredths: nat): string
    requires minutes < 100 && seconds < 100 && hundredths < 100
  {
    "[" + Pad2(minutes) + ":" + Pad2(seconds) + "." + Pad2(hundredths) + "]"
  }

  /** A tag written as `[mm:ss.xx]` reads back as the time it was written for,
      whatever follows it. */
  lemma TimeTagRoundTrip(minutes: nat, seconds: nat, hundredths: nat, rest: string)
    requires minutes < 100 && seconds < 100 && hundredths < 100
    ensures TagAt(TimeTag(minutes, seconds, hundredths) + rest)
      == Some(Tag(minutes * 60000 + seconds * 1000 + hundredths * 10, 10))
  {
    var m, s, h := Pad2(minutes), Pad2(seconds), Pad2(hundredths);
    var t := TimeTag(minutes, seconds, hundredths) + rest;
    assert t[1] == m[0] && t[2] == m[1] && t[4] == s[0] && t[5] == s[1] && t[7] == h[0] && t[8] == h[1];
    assert t[0] == '[' && t[3] == ':' && t[6] == '.' && t[9] == ']';
  }

  /** A `[mm:ss.xxx]` tag with a millisecond fraction. */
  function MillisTag(minutes: nat, seconds: nat, millis: nat): string
    requires minutes < 100 && seconds < 100 && millis < 1000
  {
    "[" + Pad2(minutes) + ":" + Pad2(seconds) + "." + Pad2(millis / 10) + [DigitChar(millis % 10)] + "]"
  }

  /** A tag written with three fraction digits reads back as whole milliseconds. */
  lemma MillisTagRoundTrip(minutes: nat, seconds: nat, millis: nat, rest: string)
    requires minutes < 100 && seconds < 100 && millis < 1000
    ensures TagAt(MillisTag(minutes, seconds, millis) + rest)
      == Some(Tag(minutes * 60000 + seconds * 1000 + millis, 11))
  {
    var m, s, h := Pad2(minutes), Pad2(seconds), Pad2(millis / 10);
    var t := MillisTag(minutes, seconds, millis) + rest;
    assert t[1] == m[0] && t[2] == m[1] && t[4] == s[0] && t[5] == s[1] && t[7] == h[0] && t[8] == h[1];
    assert t[0] == '[' && t[3] == ':' && t[6] == '.' && t[9] == DigitChar(millis % 10) && t[10] == ']';
    assert DigitValue(t[9]) == millis % 10;
  }

  /** A line that starts with a tag is parsed from that tag, and a second tag on the
      same line stays in the text. */
  lemma ParseTaggedLine(minutes: nat, seconds: nat, hundredths: nat, text: string)
    requires minutes < 100 && seconds < 100 && hundredths < 100
    requires IsTrimmed(text) && forall k :: 0 <= k < |text| ==> !IsLineTerminator(text[k])
    ensures ParseLine(TimeTag(minutes, seconds, hundredths) + text)
      == Some(LyricLine(minutes * 60000 + seconds * 1000 + hundredths * 10, text))
  {
    var line := TimeTag(minutes, seconds, hundredths) + text;
    var time := minutes * 60000 + seconds * 1000 + hundredths * 10;
    TimeTagRoundTrip(minutes, seconds, hundredths, text);
    FirstTagAtStart(line, Tag(time, 10));
    assert line[10..] == text;
    UpToTerminatorWhole(text);
  }

  lemma FirstTagAtStart(line: string, tag: Tag)
    requires TagAt(line) == Some(tag)
    ensures FirstTag(line, 0) == Some((0, tag))
  {
    assert line[0..] == line;
  }

  lemma UpToTerminatorWhole(s: string)
    requires forall k :: 0 <= k < |s| ==> !IsLineTerminator(s[k])
    ensures UpToTerminator(s) == s
  {
  }

  /** `isActive`: the line's time has come, and the next line's has not. */
  predicate IsActive(lines: seq<LyricLine>, i: nat, now: int, offset: int)
    requires i < |lines|
  {
    now >= lines[i].time + offset && (i == |lines| - 1 || now < lines[i + 1].time + offset)
  }

  predicate Sorted(lines: seq<LyricLine>) {
    forall i, j :: 0 <= i <= j < |lines| ==> lines[i].time <= lines[j].time
  }

  /** With times in order, at most one line is active. */
  lemma AtMostOneActive(lines: seq<LyricLine>, now: int, offset: int, i: nat, j: nat)
    requires Sorted(lines) && i < |lines| && j < |lines|
    requires IsActive(lines, i, now, offset) && IsActive(lines, j, now, offset)
    ensures i == j
  {
    LaterNotActive(lines, now, offset, i, j);
    LaterNotActive(lines, now, offset, j, i);
  }

  /** While a line is active, no later line is. */
  lemma LaterNotActive(lines: seq<LyricLine>, now: int, offset: int, i: nat, j: nat)
    requires Sorted(lines) && i < |lines| && j < |lines| && IsActive(lines, i, now, offset)
    ensures i < j ==> !IsActive(lines, j, now, offset)
  {
    if i < j {
      assert lines[i + 1].time <= lines[j].time;
    }
  }

  /** `findIndex(line => line.time + offset > now)` from position `from`, or -1. */
  function FirstUpcoming(lines: seq<LyricLine>, now: int, offset: int, from: nat): (r: int)
    requires from <= |lines|
    ensures r == -1 || from <= r < |lines|
    ensures r == -1 ==> forall k :: from <= k < |lines| ==> lines[k].time + offset <= now
    ensures r != -1 ==> lines[r].time + offset > now && forall k :: from <= k < r ==> lines[k].time + offset <= now
    decreases |lines| - from
  {
    if from == |lines| then -1
    else if lines[from].time + offset > now then from
    else FirstUpcoming(lines, now, offset, from + 1)
  }

  /** The line the view scrolls to: the one before the first upcoming line (at least
      the first), or the last line when none is upcoming; -1 for no lines. */
  function ScrollTarget(lines: seq<LyricLine>, now: int, offset: int): (r: int)
    ensures lines == [] ==> r == -1
    ensures lines != [] ==> 0 <= r < |lines|
  {
    var upcoming := FirstUpcoming(lines, now, offset, 0);
    if upcoming == -1 then |lines| - 1
    else if upcoming - 1 > 0 then upcoming - 1 else 0
  }

  /** Once the first line's time has come, the view scrolls to the active line;
      before that it rests on the first line. */
  lemma ScrollTargetIsActive(lines: seq<LyricLine>, now: int, offset: int)
    requires Sorted(lines) && lines != []
    ensures now >= lines[0].time + offset ==> IsActive(lines, ScrollTarget(lines, now, offset), now, offset)
    ensures now < lines[0].time + offset ==> (ScrollTarget(lines, now, offset) == 0
      && forall i :: 0 <= i < |lines| ==> !IsActive(lines, i, now, offset))
  {
    var upcoming := FirstUpcoming(lines, now, offset, 0);
    if now < lines[0].time + offset {
      assert upcoming == 0;
      forall i | 0 <= i < |lines| ensures !IsActive(lines, i, now, offset) {
        assert lines[0].time <= lines[i].time;
      }
    } else if upcoming != -1 {
      assert upcoming > 0;
    }
  }
}
