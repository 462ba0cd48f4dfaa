/** The result card: the track length shown as `m:ss`, the file content handed to
    the download (synced lyrics with an optional `[offset:…]` header, else plain
    lyrics) and the lyrics handed to the clipboard. */
module ResultCard {
  import opened Builtins
  import opened Types
  import Karaoke

  /** `Math.floor(seconds % 60)` for whole seconds: JavaScript's `%` keeps the sign
      of the dividend, so a negative length gives a non-positive remainder. */
  function SecondsPart(seconds: int): (r: int)
    ensures -60 < r < 60
    ensures seconds >= 0 ==> 0 <= r && (seconds - r) % 60 == 0
    ensures seconds < 0 ==> r <= 0 && (seconds - r) % 60 == 0
  {
    if seconds >= 0 then seconds % 60 else -((-seconds) % 60)
  }

  /** `formatTime`: whole minutes (rounded down), a colon, and the seconds, with a
      `0` in front when they are below ten. */
  function FormatTime(seconds: int): (r: string)
    ensures seconds >= 0 ==> r == NatToString(seconds / 60) + ":" + Karaoke.Pad2(seconds % 60)
  {
    var sec := SecondsPart(seconds);
    var r := IntToString(seconds / 60) + ":" + (if sec < 10 then "0" else "") + IntToString(sec);
    if seconds >= 0 then ZeroPadded(sec); r else r
  }

  /** A number below a hundred, rendered with a `0` in front when below ten, is its
      two-digit form. */
  lemma ZeroPadded(n: nat)
    requires n < 100
    ensures (if n < 10 then "0" else "") + NatToString(n) == Karaoke.Pad2(n)
  {
    if n >= 10 {
      assert NatToString(n) == NatToString(n / 10) + [DigitChar(n % 10)];
    }
  }

  /** Reading the shown length back: the digits before the colon are the minutes,
      the two after it the seconds, and together they give the length again. */
  lemma FormatTimeRoundTrip(seconds: nat)
    ensures var r := FormatTime(seconds);
      |r| >= 4 && r[|r| - 3] == ':'
      && (forall k :: 0 <= k < |r| - 3 ==> IsDigit(r[k]))
      && IsDigit(r[|r| - 2]) && IsDigit(r[|r| - 1])
      && DigitsValue(r[..|r| - 3]) * 60 + DigitsValue(r[|r| - 2..]) == seconds
  {
    var r := FormatTime(seconds);
    var m, p := NatToString(seconds / 60), Karaoke.Pad2(seconds % 60);
    assert r == m + ":" + p;
    assert r[..|r| - 3] == m;
    assert r[|r| - 2..] == p;
    NatToStringRoundTrip(seconds / 60);
    assert p[..1] == [p[0]];
    assert DigitsValue([p[0]]) == DigitValue(p[0]);
  }

  /** The slider's positions: -5 to 5 seconds in steps of half a second. */
  predicate OnSlider(offset: real) {
    -5.0 <= offset <= 5.0 && (offset * 2.0).Floor as real == offset * 2.0
  }

  /** `offset * 1000`, the header's value, for a slider position. */
  function OffsetMillis(offset: real): (v: int)
    requires OnSlider(offset)
    ensures v as real == offset * 1000.0
  {
    (offset * 2.0).Floor * 500
  }

  /** The header's value is a whole multiple of 500 between -5000 and 5000, and it is
      zero exactly when the offset is. */
  lemma OffsetMillisRange(offset: real)
    requires OnSlider(offset)
    ensures var v := OffsetMillis(offset);
      v % 500 == 0 && -5000 <= v <= 5000 && (v == 0 <==> offset == 0.0)
  {
  }

  /** The header line without its line feed. */
  function OffsetLine(offset: real): string
    requires OnSlider(offset)
  {
    "[offset:" + IntToString(OffsetMillis(offset)) + "]"
  }

  /** `[offset:<offset·1000>]` followed by a line feed. */
  function OffsetHeader(offset: real): (r: string)
    requires OnSlider(offset)
    ensures r == OffsetLine(offset) + "\n"
  {
    "[offset:" + IntToString(OffsetMillis(offset)) + "]\n"
  }

  /** `handleDownload`: the synced lyrics if there are any, else the plain ones; the
      header goes in front only of synced lyrics and only for a non-zero offset; an
      empty choice downloads nothing. */
  function DownloadContent(track: LrcLibTrack, offset: real): (r: Option<string>)
    requires OnSlider(offset)
    ensures r.None? <==> track.syncedLyrics == [] && track.plainLyrics == []
    ensures track.syncedLyrics == [] && r.Some? ==> r.value == track.plainLyrics
    ensures track.syncedLyrics != [] && offset == 0.0 ==> r == Some(track.syncedLyrics)
    ensures track.syncedLyrics != [] && offset != 0.0
      ==> (r.Some? && |OffsetHeader(offset)| <= |r.value|
        && r.value[..|OffsetHeader(offset)|] == OffsetHeader(offset)
        && r.value[|OffsetHeader(offset)|..] == track.syncedLyrics)
  {
    var content := if track.syncedLyrics != [] then track.syncedLyrics else track.plainLyrics;
    var content := if offset != 0.0 && track.syncedLyrics != [] then OffsetHeader(offset) + content else content;
    if content != [] then Some(content) else None
  }

  /** Which lyrics a copy button asks for. */
  datatype LyricsKind = Synced | Plain

  /** `handleCopy`: the requested lyrics, or nothing when they are empty. */
  function CopyContent(track: LrcLibTrack, kind: LyricsKind): (r: Option<string>)
    ensures r.Some? ==> r.value != []
    ensures kind == Synced ==> ((r.None? <==> track.syncedLyrics == [])
      && (r.Some? ==> r.value == track.syncedLyrics))
    ensures kind == Plain ==> ((r.None? <==> track.plainLyrics == [])
      && (r.Some? ==> r.value == track.plainLyrics))
  {
    var content := if kind == Synced then track.syncedLyrics else track.plainLyrics;
    if content == [] then None else Some(content)
  }

  /** Without an offset, the downloaded file is what the synced copy button copies,
      whenever there are synced lyrics. */
  lemma DownloadIsSyncedCopy(track: LrcLibTrack)
    requires track.syncedLyrics != []
    ensures DownloadContent(track, 0.0) == CopyContent(track, Synced)
  {
  }

  /** The characters of a rendered integer: digits and a minus sign. */
  lemma IntToStringChars(i: int)
    ensures forall k :: 0 <= k < |IntToString(i)| ==> IsDigit(IntToString(i)[k]) || IntToString(i)[k] == '-'
  {
    if i < 0 {
      var n := NatToString(-i);
      assert forall k :: 1 <= k < |IntToString(i)| ==> IntToString(i)[k] == n[k - 1];
    }
  }

  /** The header line holds no line feed and no timestamp tag. */
  lemma OffsetLineShape(offset: real)
    requires OnSlider(offset)
    ensures '\n' !in OffsetLine(offset)
    ensures forall p :: 0 <= p <= |OffsetLine(offset)| ==> Karaoke.TagAt(OffsetLine(offset)[p..]).None?
  {
    var h := OffsetLine(offset);
    var d := IntToString(OffsetMillis(offset));
    IntToStringChars(OffsetMillis(offset));
    assert forall k :: 8 <= k < 8 + |d| ==> h[k] == d[k - 8];
    assert forall k :: 0 <= k < |h| ==> h[k] != '\n';
    assert forall k :: 1 <= k < |h| ==> h[k] != '[';
    assert h[1] == 'o';
    forall p | 0 <= p <= |h|
      ensures Karaoke.TagAt(h[p..]).None?
    {
      if p < |h| {
        assert h[p..][0] == h[p];
        if p == 0 {
          assert h[p..][1] == 'o';
        }
      }
    }
  }

  /** The header does not add a line to what the karaoke preview reads from the
      downloaded file: the timed lines are those of the synced lyrics alone. */
  lemma OffsetHeaderAddsNoLine(track: LrcLibTrack, offset: real)
    requires OnSlider(offset) && track.syncedLyrics != []
    ensures DownloadContent(track, offset).Some?
    ensures Karaoke.ParseLines(SplitLines(DownloadContent(track, offset).value))
      == Karaoke.ParseLines(SplitLines(track.syncedLyrics))
  {
    if offset != 0.0 {
      var h, s := OffsetLine(offset), track.syncedLyrics;
      OffsetLineShape(offset);
      assert DownloadContent(track, offset).value == h + "\n" + s;
      SplitAfterLine(h, s);
      Karaoke.ParseLinesAppend([h], SplitLines(s));
      Karaoke.ParseLinesSnoc([], h);
      assert [] + [h] == [h];
      assert Karaoke.Contribution(h) == [];
    }
  }
}
