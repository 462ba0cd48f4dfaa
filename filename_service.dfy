/** Download file names: a pattern with `{Title}`, `{Artist}` and `{Album}`
    placeholders is filled in from a track, stray separators are tidied up, the
    characters file systems refuse are replaced by `_`, and `.lrc` is appended. */
module FilenameService {
  import opened Builtins
  import opened Types

  datatype FilenameFormat = FilenameFormat(id: string, name: string, pattern: string)

  /** The placeholders a pattern may hold, and the separator the patterns use. */
  const TitleTag := "{Title}"
  const ArtistTag := "{Artist}"
  const AlbumTag := "{Album}"
  const Separator := " - "

  /** The formats offered, in the order they are listed. */
  const FilenameFormats: seq<FilenameFormat> := [
    FilenameFormat("artist-title", "Artist - Title", ArtistTag + Separator + TitleTag),
    FilenameFormat("title", "Title Only", TitleTag),
    FilenameFormat("artist-album-title", "Artist - Album - Title", ArtistTag + Separator + AlbumTag + Separator + TitleTag),
    FilenameFormat("title-artist", "Title - Artist", TitleTag + Separator + ArtistTag)
  ]

  const DefaultFormat: FilenameFormat := FilenameFormats[0]

  /** `s.replace(/pat/g, rep)` for a pattern that matches only its own text: every
      occurrence, scanning from the left and resuming after each replaced one. */
  function ReplaceAll(s: string, pat: string, rep: string): (r: string)
    requires pat != []
    decreases |s|
  {
    if s == [] then []
    else if StartsWith(s, pat) then rep + ReplaceAll(s[|pat|..], pat, rep)
    else [s[0]] + ReplaceAll(s[1..], pat, rep)
  }

  /** Where the pattern does not start, one character is copied and the scan moves on. */
  lemma ReplaceAllStep(a: string, b: string, pat: string, rep: string, k: nat)
    requires a != [] && pat != []
    requires k < |a| && k < |pat| && a[k] != pat[k]
    ensures ReplaceAll(a + b, pat, rep) == [a[0]] + ReplaceAll(a[1..] + b, pat, rep)
  {
    var s := a + b;
    assert s[k] == a[k];
    if |pat| <= |s| {
      assert s[..|pat|][k] == s[k];
    }
    assert s[1..] == a[1..] + b;
  }

  /** A stretch of text in which the pattern's first character never occurs is copied
      through unchanged. */
  lemma {:induction false} ReplaceAllKeep(a: string, b: string, pat: string, rep: string)
    requires pat != [] && pat[0] !in a
    ensures ReplaceAll(a + b, pat, rep) == a + ReplaceAll(b, pat, rep)
    decreases |a|
  {
    if a != [] {
      assert a[0] in a;
      ReplaceAllStep(a, b, pat, rep, 0);
      assert pat[0] !in a[1..];
      ReplaceAllKeep(a[1..], b, pat, rep);
      ConsAppend(a, ReplaceAll(b, pat, rep));
    } else {
      assert a + b == b;
    }
  }

  /** An occurrence at the front is replaced and the scan resumes after it. */
  lemma ReplaceAllHere(pat: string, b: string, rep: string)
    requires pat != []
    ensures ReplaceAll(pat + b, pat, rep) == rep + ReplaceAll(b, pat, rep)
  {
    assert (pat + b)[..|pat|] == pat;
    assert (pat + b)[|pat|..] == b;
  }

  /** Another placeholder, one that differs from the pattern at position `k` and holds
      the pattern's first character only at its front, is copied through unchanged. */
  lemma ReplaceAllOther(p: string, b: string, pat: string, rep: string, k: nat)
    requires p != [] && pat != [] && pat[0] !in p[1..]
    requires k < |p| && k < |pat| && p[k] != pat[k]
    ensures ReplaceAll(p + b, pat, rep) == p + ReplaceAll(b, pat, rep)
  {
    ReplaceAllStep(p, b, pat, rep, k);
    ReplaceAllKeep(p[1..], b, pat, rep);
    ConsAppend(p, ReplaceAll(b, pat, rep));
  }

  /** The pattern with its placeholders filled in, `{Title}` first, then `{Artist}`,
      then `{Album}`; each replacement also acts on text the earlier ones inserted. */
  function Substitute(pattern: string, track: LrcLibTrack): string {
    var withTitle := ReplaceAll(pattern, TitleTag, track.trackName);
    var withArtist := ReplaceAll(withTitle, ArtistTag, track.artistName);
    ReplaceAll(withArtist, AlbumTag, track.albumName)
  }

  /** `\s+-\s+` matching the whole of `t`: white space, a hyphen, white space to the
      end. Tried at each position of a name it is the trailing separator `\s+-\s+$`;
      as a prefix of a name it is the leading separator `^\s+-\s+`. */
  predicate SeparatorMatch(t: string) {
    var n := SpaceRun(t);
    0 < n && n + 1 < |t| && t[n] == '-' && AllSpace(t[n + 1..])
  }

  /** `replace(/\s+-\s+$/g, '')`: the text cut where the leftmost trailing separator starts. */
  function StripTrailingSeparator(s: string): (r: string)
    ensures |r| <= |s| && r == s[..|r|]
    ensures r != s ==> SeparatorMatch(s[|r|..]) && forall q :: 0 <= q < |r| ==> !SeparatorMatch(s[q..])
    ensures (forall q :: 0 <= q <= |s| ==> !SeparatorMatch(s[q..])) ==> r == s
  {
    CutAtFirstMatch(s, SeparatorMatch)
  }

  /** `replace(/^\s+-\s+/g, '')`: a leading separator, with all the white space after
      its hyphen, is dropped; the pattern is anchored, so at most one goes. What is
      dropped is one separator match and what is left starts with no white space. */
  function StripLeadingSeparator(s: string): (r: string)
    ensures |r| <= |s| && r == s[|s| - |r|..]
    ensures r != s ==> SeparatorMatch(s[..|s| - |r|]) && (r == [] || !IsSpace(r[0]))
    ensures SpaceRun(s) == 0 ==> r == s
  {
    var n := SpaceRun(s);
    if 0 < n < |s| && s[n] == '-' && 0 < SpaceRun(s[n + 1..]) then
      LeadingSeparatorPrefix(s, n, SpaceRun(s[n + 1..]));
      s[n + 1 + SpaceRun(s[n + 1..])..]
    else s
  }

  /** The prefix the leading-separator pattern consumes is one separator match. */
  lemma LeadingSeparatorPrefix(s: string, n: nat, m: nat)
    requires n == SpaceRun(s) && 0 < n < |s| && s[n] == '-'
    requires m == SpaceRun(s[n + 1..]) && 0 < m
    ensures SeparatorMatch(s[..n + 1 + m])
  {
    var d := s[..n + 1 + m];
    assert d == s[..n] + d[n..];
    assert d[n] == '-';
    SpaceRunOf(s[..n], d[n..]);
    assert d[n + 1..] == s[n + 1..][..m];
  }

  /** A separator before text that starts with no white space is dropped whole,
      however long its two runs of white space, and only it. */
  lemma StripLeadingSeparatorOf(s1: string, s2: string, t: string)
    requires s1 != [] && s2 != [] && AllSpace(s1) && AllSpace(s2)
    requires t == [] || !IsSpace(t[0])
    ensures StripLeadingSeparator(s1 + ("-" + (s2 + t))) == t
  {
    var u := s2 + t;
    var s := s1 + ("-" + u);
    SpaceRunOf(s1, "-" + u);
    SpaceRunOf(s2, t);
    AfterPrefix(s1, "-" + u);
    AfterPrefix("-", u);
    assert s[|s1| + 1..] == u;
    AfterPrefix(s2, t);
  }

  /** Of two separators at the front only the first is dropped: the pattern is
      anchored at the start and the global flag finds no second match there. */
  lemma StripLeadingSeparatorOnce(t: string)
    requires t == [] || !IsSpace(t[0])
    ensures StripLeadingSeparator(" - " + ("- " + t)) == "- " + t
  {
    assert " - " + ("- " + t) == " " + ("-" + (" " + ("- " + t)));
    StripLeadingSeparatorOf(" ", " ", "- " + t);
  }

  /** Text with no separator match at its front is kept as it is. */
  lemma StripLeadingSeparatorNone(s: string)
    requires forall k :: 0 <= k <= |s| ==> !SeparatorMatch(s[..k])
    ensures StripLeadingSeparator(s) == s
  {
  }

  /** The length of a `\s+-\s+-\s+` match at the start of `t`, or 0 for none. Each
      `\s+` takes the whole run of white space, since a hyphen is not white space. */
  function DoubleSeparatorLength(t: string): (n: nat)
    ensures n <= |t|
    ensures n > 0 ==> n >= 5 && IsSpace(t[0]) && IsSpace(t[n - 1]) && '-' in t[..n]
  {
    var n1 := SpaceRun(t);
    if n1 == 0 || n1 == |t| || t[n1] != '-' then 0
    else
      var u := t[n1 + 1..];
      var n2 := SpaceRun(u);
      if n2 == 0 || n2 == |u| || u[n2] != '-' then 0
      else
        var v := u[n2 + 1..];
        var n3 := SpaceRun(v);
        if n3 == 0 then 0
        else
          assert t[n1] == '-' && t[n1 + 1 + n2 + 1 + n3 - 1] == v[n3 - 1];
          n1 + 1 + n2 + 1 + n3
  }

  /** `replace(/\s+-\s+-\s+/g, ' - ')`: from left to right, each doubled separator
      becomes a single one and the scan resumes after it. */
  function CollapseSeparators(s: string): (r: string)
    ensures |r| <= |s|
    decreases |s|
  {
    if s == [] then []
    else
      var n := DoubleSeparatorLength(s);
      if n > 0 then " - " + CollapseSeparators(s[n..])
      else [s[0]] + CollapseSeparators(s[1..])
  }

  /** The separator clean-up, in the order the code applies it, then a trim. */
  function CleanSeparators(s: string): (r: string)
    ensures IsTrimmed(r) && |r| <= |s|
  {
    Trim(CollapseSeparators(StripLeadingSeparator(StripTrailingSeparator(s))))
  }

  /** The characters `<>:"/\|?*` that file systems refuse. */
  predicate IsUnsafe(c: char) {
    c == '<' || c == '>' || c == ':' || c == '"' || c == '/' || c == '\\' || c == '|' || c == '?' || c == '*'
  }

  /** `replace(/[<>:"/\\|?*]/g, '_')`: each unsafe character becomes `_`, every other
      character stays where it is. */
  function Sanitize(s: string): (r: string)
    ensures |r| == |s|
    ensures forall k :: 0 <= k < |s| ==> r[k] == (if IsUnsafe(s[k]) then '_' else s[k])
  {
    if s == [] then [] else [if IsUnsafe(s[0]) then '_' else s[0]] + Sanitize(s[1..])
  }

  /** `formatFilename`: fill in the pattern, tidy the separators, sanitise, add `.lrc`. */
  function FormatFilename(track: LrcLibTrack, format: FilenameFormat := DefaultFormat): string {
    LrcName(CleanSeparators(Substitute(format.pattern, track)))
  }

  /** The last step of `formatFilename`: whatever the cleaned name, the file name ends
      in `.lrc` and holds no character a file system refuses before it. */
  function LrcName(cleaned: string): (r: string)
    ensures |r| >= 4 && r[|r| - 4..] == ".lrc"
    ensures forall k :: 0 <= k < |r| - 4 ==> !IsUnsafe(r[k])
  {
    var name := Sanitize(cleaned);
    var r := name + ".lrc";
    assert r[|name|..] == ".lrc";
    assert forall k :: 0 <= k < |r| - 4 ==> r[k] == name[k];
    r
  }

  /** Sanitising leaves no unsafe character, changes nothing in safe text, and so
      changes nothing the second time. */
  lemma SanitizeProperties(s: string)
    ensures forall k :: 0 <= k < |s| ==> !IsUnsafe(Sanitize(s)[k])
    ensures (forall k :: 0 <= k < |s| ==> !IsUnsafe(s[k])) ==> Sanitize(s) == s
    ensures Sanitize(Sanitize(s)) == Sanitize(s)
  {
  }

  /** The list of formats: four of them with distinct ids, the first being the
      artist-title default. */
  lemma FormatsTable()
    ensures |FilenameFormats| == 4
    ensures forall i, j :: 0 <= i < j < |FilenameFormats| ==> FilenameFormats[i].id != FilenameFormats[j].id
    ensures DefaultFormat.id == "artist-title" && DefaultFormat.pattern == ArtistTag + Separator + TitleTag
  {
  }

  /** A name ending in a character other than white space has no trailing separator. */
  lemma NoTrailingSeparator(s: string)
    requires s != [] && !IsSpace(s[|s| - 1])
    ensures StripTrailingSeparator(s) == s
  {
    forall q | 0 <= q <= |s| ensures !SeparatorMatch(s[q..]) {
      var t := s[q..];
      var n := SpaceRun(t);
      if 0 < n && n + 1 < |t| && t[n] == '-' {
        assert t[|t| - 1] == s[|s| - 1];
        assert t[n + 1..][|t| - n - 2] == t[|t| - 1];
      }
    }
  }

  /** The white space at the front of `spaces + t`, when `t` does not start with any. */
  lemma {:induction false} SpaceRunOf(spaces: string, t: string)
    requires AllSpace(spaces) && (t == [] || !IsSpace(t[0]))
    ensures SpaceRun(spaces + t) == |spaces|
    decreases |spaces|
  {
    if spaces != [] {
      assert (spaces + t)[1..] == spaces[1..] + t;
      SpaceRunOf(spaces[1..], t);
    } else {
      assert spaces + t == t;
    }
  }

  /** The three runs of white space of a doubled separator, measured one by one. */
  lemma DoubleSeparatorLengthIs(t: string, n1: nat, n2: nat, n3: nat)
    requires 0 < n1 < |t| && SpaceRun(t) == n1 && t[n1] == '-'
    requires 0 < n2 < |t[n1 + 1..]| && SpaceRun(t[n1 + 1..]) == n2 && t[n1 + 1..][n2] == '-'
    requires 0 < n3 && SpaceRun(t[n1 + 1..][n2 + 1..]) == n3
    ensures DoubleSeparatorLength(t) == n1 + n2 + n3 + 2
  {
  }

  lemma AfterPrefix(x: string, y: string)
    ensures (x + y)[|x|..] == y
  {
  }

  /** A doubled separator at the front is matched whole, each run of white space
      included. */
  lemma DoubleSeparatorOf(s1: string, s2: string, s3: string, t: string)
    requires s1 != [] && s2 != [] && s3 != [] && AllSpace(s1) && AllSpace(s2) && AllSpace(s3)
    requires t == [] || !IsSpace(t[0])
    ensures DoubleSeparatorLength(s1 + ("-" + (s2 + ("-" + (s3 + t))))) == |s1| + |s2| + |s3| + 2
  {
    var v := s3 + t;
    var u := s2 + ("-" + v);
    var s := s1 + ("-" + u);
    SpaceRunOf(s3, t);
    SpaceRunOf(s2, "-" + v);
    SpaceRunOf(s1, "-" + u);
    AfterPrefix(s1, "-" + u);
    AfterPrefix("-", u);
    AfterPrefix(s2, "-" + v);
    AfterPrefix("-", v);
    assert s[|s1| + 1..] == u;
    assert u[|s2| + 1..] == v;
    DoubleSeparatorLengthIs(s, |s1|, |s2|, |s3|);
  }

  /** Text whose leading white space is not followed by a hyphen starts no doubled
      separator. */
  lemma NoDoubleSeparator(s: string)
    requires SpaceRun(s) == 0 || SpaceRun(s) == |s| || s[SpaceRun(s)] != '-'
    ensures DoubleSeparatorLength(s) == 0
  {
  }

  lemma CollapseStep(a: string, b: string)
    requires a != [] && DoubleSeparatorLength(a + b) == 0
    ensures CollapseSeparators(a + b) == [a[0]] + CollapseSeparators(a[1..] + b)
  {
    assert (a + b)[1..] == a[1..] + b;
  }

  lemma ConsAppend<T>(a: seq<T>, c: seq<T>)
    requires a != []
    ensures [a[0]] + (a[1..] + c) == a + c
  {
    assert a == [a[0]] + a[1..];
  }

  /** White space at the front ends, at the latest, at a character that is not white space. */
  lemma {:induction false} SpaceRunBound(s: string, p: nat)
    requires p < |s| && !IsSpace(s[p])
    ensures SpaceRun(s) <= p
    decreases p
  {
    if IsSpace(s[0]) {
      assert s[1..][p - 1] == s[p];
      SpaceRunBound(s[1..], p - 1);
    }
  }

  /** Text with no hyphen right after white space, whose last character is not white
      space, starts no doubled separator, whatever follows it. */
  lemma NoDoubleSeparatorBefore(a: string, b: string)
    requires a != [] && NoSpacedHyphen(a) && !IsSpace(a[|a| - 1])
    ensures DoubleSeparatorLength(a + b) == 0
  {
    var s := a + b;
    assert s[|a| - 1] == a[|a| - 1];
    SpaceRunBound(s, |a| - 1);
    var n1 := SpaceRun(s);
    if n1 > 0 {
      assert s[n1] == a[n1] && s[..n1][n1 - 1] == a[n1 - 1];
    }
    NoDoubleSeparator(s);
  }

  /** Dropping the first character keeps hyphens clear of white space and the last
      character where it was. */
  lemma NoSpacedHyphenTail(a: string)
    requires a != [] && NoSpacedHyphen(a) && !IsSpace(a[|a| - 1])
    ensures NoSpacedHyphen(a[1..]) && (a[1..] == [] || !IsSpace(a[1..][|a| - 2]))
  {
    assert a[1..] == [] || a[1..][|a| - 2] == a[|a| - 1];
    forall k | 0 < k < |a| - 1 && a[1..][k] == '-' ensures !IsSpace(a[1..][k - 1]) {
      assert a[1..][k] == a[k + 1] && a[1..][k - 1] == a[k];
    }
  }

  /** Such text is copied through the collapse unchanged. */
  lemma {:induction false} CollapseSkip(a: string, b: string)
    requires NoSpacedHyphen(a) && (a == [] || !IsSpace(a[|a| - 1]))
    ensures CollapseSeparators(a + b) == a + CollapseSeparators(b)
    decreases |a|
  {
    if a != [] {
      var c := CollapseSeparators(b);
      var rest := CollapseSeparators(a[1..] + b);
      assert CollapseSeparators(a + b) == [a[0]] + rest by {
        NoDoubleSeparatorBefore(a, b);
        CollapseStep(a, b);
      }
      assert rest == a[1..] + c by {
        NoSpacedHyphenTail(a);
        CollapseSkip(a[1..], b);
      }
      ConsAppend(a, c);
    } else {
      assert a + b == b;
    }
  }

  /** Two separators in a row, spelled out character by character. */
  lemma SeparatorPair(t: string)
    ensures Separator + (Separator + t) == " " + ("-" + ("  " + ("-" + (" " + t))))
    ensures (Separator + (Separator + t))[6..] == t
  {
  }

  /** A doubled separator at the front is replaced by a single one. */
  lemma CollapseAt(s: string)
    requires DoubleSeparatorLength(s) > 0
    ensures CollapseSeparators(s) == Separator + CollapseSeparators(s[DoubleSeparatorLength(s)..])
  {
  }

  /** Two separators in a row, before text that starts with something other than
      white space, are one doubled separator, collapsed to a single one. */
  lemma CollapseEmptyAlbum(t: string)
    requires t != [] && !IsSpace(t[0])
    ensures CollapseSeparators(Separator + (Separator + t)) == Separator + CollapseSeparators(t)
  {
    SeparatorPair(t);
    DoubleSeparatorOf(" ", "  ", " ", t);
    CollapseAt(Separator + (Separator + t));
  }

  /** A character that starts no doubled separator is copied through the collapse. */
  lemma CollapseChar(c: char, t: string)
    requires DoubleSeparatorLength([c] + t) == 0
    ensures CollapseSeparators([c] + t) == [c] + CollapseSeparators(t)
  {
    CollapseStep([c], t);
    assert [c][1..] + t == t;
  }

  /** A single separator before text that starts with neither white space nor a hyphen
      is left as it is. */
  lemma CollapseSingleSeparator(t: string)
    requires t != [] && !IsSpace(t[0]) && t[0] != '-'
    ensures CollapseSeparators(Separator + t) == Separator + CollapseSeparators(t)
  {
    var u := [' '] + t;
    var v := ['-'] + u;
    var w := [' '] + v;
    assert CollapseSeparators(u) == [' '] + CollapseSeparators(t) by {
      SpaceRunOf([' '], t);
      assert u[1] == t[0];
      NoDoubleSeparator(u);
      CollapseChar(' ', t);
    }
    assert CollapseSeparators(v) == ['-'] + CollapseSeparators(u) by {
      NoDoubleSeparator(v);
      CollapseChar('-', u);
    }
    assert CollapseSeparators(w) == [' '] + CollapseSeparators(v) by {
      SpaceRunOf([' '], v);
      SpaceRunOf([' '], t);
      assert w[2..] == u && u[1] == t[0];
      DoubleSeparatorLengthNot(w, 1, 1);
      CollapseChar(' ', v);
    }
    SeparatorSpelled(t, CollapseSeparators(t));
  }

  lemma SeparatorSpelled(t: string, c: string)
    ensures Separator + t == [' '] + (['-'] + ([' '] + t))
    ensures [' '] + (['-'] + ([' '] + c)) == Separator + c
  {
  }

  /** A separator whose second run of white space is not followed by a hyphen is not
      doubled. */
  lemma DoubleSeparatorLengthNot(t: string, n1: nat, n2: nat)
    requires 0 < n1 < |t| && SpaceRun(t) == n1 && t[n1] == '-'
    requires SpaceRun(t[n1 + 1..]) == n2 < |t[n1 + 1..]| && t[n1 + 1..][n2] != '-'
    ensures DoubleSeparatorLength(t) == 0
  {
  }

  /** Text with no hyphen right after white space and no white space at its end goes
      through the collapse unchanged. */
  lemma CollapsePlain(t: string)
    requires NoSpacedHyphen(t) && (t == [] || !IsSpace(t[|t| - 1]))
    ensures CollapseSeparators(t) == t
  {
    CollapseSkip(t, []);
    assert t + [] == t;
  }

  /** Text without the pattern's first character is left as it is. */
  lemma ReplaceAllAbsent(t: string, pat: string, rep: string)
    requires pat != [] && pat[0] !in t
    ensures ReplaceAll(t, pat, rep) == t
  {
    ReplaceAllKeep(t, [], pat, rep);
    assert t + [] == t;
  }

  /** A pattern that ends the text is replaced. */
  lemma ReplaceAllLast(pat: string, rep: string)
    requires pat != []
    ensures ReplaceAll(pat, pat, rep) == rep
  {
    ReplaceAllHere(pat, [], rep);
    assert pat + [] == pat;
  }

  /** `x - y - pat`, with `x` and `y` other placeholders: only the last one is replaced. */
  lemma ReplaceThird(x: string, sep: string, y: string, pat: string, rep: string, kx: nat, ky: nat)
    requires x != [] && y != [] && pat != []
    requires pat[0] !in sep && pat[0] !in x[1..] && pat[0] !in y[1..]
    requires kx < |x| && kx < |pat| && x[kx] != pat[kx]
    requires ky < |y| && ky < |pat| && y[ky] != pat[ky]
    ensures ReplaceAll(x + (sep + (y + (sep + pat))), pat, rep) == x + (sep + (y + (sep + rep)))
  {
    ReplaceAllLast(pat, rep);
    ReplaceAllKeep(sep, pat, pat, rep);
    ReplaceAllOther(y, sep + pat, pat, rep, ky);
    ReplaceAllKeep(sep, y + (sep + pat), pat, rep);
    ReplaceAllOther(x, sep + (y + (sep + pat)), pat, rep, kx);
  }

  /** `pat - y - t`, with `y` another placeholder and `t` free of placeholders: only
      the first one is replaced. */
  lemma ReplaceFirst(pat: string, sep: string, y: string, t: string, rep: string, ky: nat)
    requires y != [] && pat != []
    requires pat[0] !in sep && pat[0] !in y[1..] && pat[0] !in t
    requires ky < |y| && ky < |pat| && y[ky] != pat[ky]
    ensures ReplaceAll(pat + (sep + (y + (sep + t))), pat, rep) == rep + (sep + (y + (sep + t)))
  {
    ReplaceAllAbsent(t, pat, rep);
    ReplaceAllKeep(sep, t, pat, rep);
    ReplaceAllOther(y, sep + t, pat, rep, ky);
    ReplaceAllKeep(sep, y + (sep + t), pat, rep);
    ReplaceAllHere(pat, sep + (y + (sep + t)), rep);
  }

  /** `a - pat - t`, with `a` and `t` free of placeholders: the middle one is replaced. */
  lemma ReplaceMiddle(a: string, sep: string, pat: string, t: string, rep: string)
    requires pat != [] && pat[0] !in a && pat[0] !in sep && pat[0] !in t
    ensures ReplaceAll(a + (sep + (pat + (sep + t))), pat, rep) == a + (sep + (rep + (sep + t)))
  {
    ReplaceAllAbsent(sep + t, pat, rep);
    ReplaceAllHere(pat, sep + t, rep);
    ReplaceAllKeep(sep, pat + (sep + t), pat, rep);
    ReplaceAllKeep(a, sep + (pat + (sep + t)), pat, rep);
  }

  lemma Associate<T>(a: seq<T>, b: seq<T>, c: seq<T>, d: seq<T>, e: seq<T>)
    ensures a + b + c + d + e == a + (b + (c + (d + e)))
  {
  }

  /** Filling in `{Artist} - {Album} - {Title}` when the fields hold no `{`. */
  lemma SubstituteArtistAlbumTitle(track: LrcLibTrack)
    requires '{' !in track.trackName && '{' !in track.artistName
    ensures Substitute(FilenameFormats[2].pattern, track)
      == track.artistName + (Separator + (track.albumName + (Separator + track.trackName)))
  {
    var title, artist, album := track.trackName, track.artistName, track.albumName;
    Associate(ArtistTag, Separator, AlbumTag, Separator, TitleTag);
    assert ArtistTag[1] != TitleTag[1] && AlbumTag[1] != TitleTag[1] && AlbumTag[2] != ArtistTag[2];
    assert '{' !in Separator && '{' !in ArtistTag[1..] && '{' !in AlbumTag[1..];
    ReplaceThird(ArtistTag, Separator, AlbumTag, TitleTag, title, 1, 1);
    ReplaceFirst(ArtistTag, Separator, AlbumTag, title, artist, 2);
    ReplaceMiddle(artist, Separator, AlbumTag, title, album);
  }

  lemma Ends<T>(x: seq<T>, y: seq<T>)
    requires x != [] && y != []
    ensures (x + y)[0] == x[0] && (x + y)[|x + y| - 1] == y[|y| - 1]
  {
  }

  /** The clean-up, when neither end has a separator to strip. */
  lemma CleanSeparatorsOf(s: string, collapsed: string)
    requires StripTrailingSeparator(s) == s && StripLeadingSeparator(s) == s
    requires CollapseSeparators(s) == collapsed && IsTrimmed(collapsed)
    ensures CleanSeparators(s) == collapsed
  {
  }

  /** The separators left by an empty album: the doubled one collapses and nothing
      else changes. */
  lemma CleanEmptyAlbum(artist: string, title: string)
    requires Plain(artist) && Plain(title)
    ensures CleanSeparators(artist + (Separator + (Separator + title))) == artist + (Separator + title)
  {
    var rest := Separator + (Separator + title);
    var s := artist + rest;
    Ends(Separator, title);
    Ends(Separator, Separator + title);
    Ends(artist, rest);
    NoTrailingSeparator(s);
    assert SpaceRun(s) == 0;
    CollapseSkip(artist, rest);
    CollapseEmptyAlbum(title);
    CollapsePlain(title);
    var cleaned := artist + (Separator + title);
    Ends(artist, Separator + title);
    CleanSeparatorsOf(s, cleaned);
  }

  /** Text made of safe parts is safe. */
  lemma SafeJoin(x: string, y: string)
    requires IsSafe(x) && IsSafe(y)
    ensures IsSafe(x + y)
  {
    forall k | 0 <= k < |x + y| ensures !IsUnsafe((x + y)[k]) {
      if k < |x| {
        assert (x + y)[k] == x[k];
      } else {
        assert (x + y)[k] == y[k - |x|];
      }
    }
  }

  lemma SeparatorSafe()
    ensures IsSafe(Separator)
  {
  }

  lemma EmptyPrefix<T>(x: seq<T>)
    ensures [] + x == x
  {
  }

  lemma Regroup<T>(a: seq<T>, b: seq<T>, c: seq<T>, d: seq<T>)
    ensures a + (b + c) + d == a + b + c + d
  {
  }

  /** The file name, once the clean-up is known to give safe text. */
  lemma FormatFilenameOf(track: LrcLibTrack, format: FilenameFormat, cleaned: string)
    requires CleanSeparators(Substitute(format.pattern, track)) == cleaned && IsSafe(cleaned)
    ensures FormatFilename(track, format) == cleaned + ".lrc"
  {
    SanitizeProperties(cleaned);
  }

  /** With the artist-album-title format and no album, the doubled separator left by
      the empty album collapses, giving `Artist - Title.lrc`. */
  lemma ArtistAlbumTitleWithoutAlbum(track: LrcLibTrack)
    requires track.albumName == ""
    requires Plain(track.trackName) && Plain(track.artistName)
    ensures FormatFilename(track, FilenameFormats[2]) == track.artistName + Separator + track.trackName + ".lrc"
  {
    var artist, title := track.artistName, track.trackName;
    SubstituteArtistAlbumTitle(track);
    EmptyPrefix(Separator + title);
    CleanEmptyAlbum(artist, title);
    var cleaned := artist + (Separator + title);
    SeparatorSafe();
    SafeJoin(Separator, title);
    SafeJoin(artist, Separator + title);
    FormatFilenameOf(track, FilenameFormats[2], cleaned);
    Regroup(artist, Separator, title, ".lrc");
  }

  lemma Associate3<T>(a: seq<T>, b: seq<T>, c: seq<T>)
    ensures a + b + c == a + (b + c)
  {
  }

  /** Filling in `{Artist} - {Title}` when the fields hold no `{`. */
  lemma SubstituteArtistTitle(track: LrcLibTrack)
    requires '{' !in track.trackName && '{' !in track.artistName
    ensures Substitute(DefaultFormat.pattern, track) == track.artistName + (Separator + track.trackName)
  {
    var title, artist := track.trackName, track.artistName;
    Associate3(ArtistTag, Separator, TitleTag);
    assert ArtistTag[1] != TitleTag[1] && '{' !in Separator && '{' !in ArtistTag[1..];
    ReplaceAllLast(TitleTag, title);
    ReplaceAllKeep(Separator, TitleTag, TitleTag, title);
    ReplaceAllOther(ArtistTag, Separator + TitleTag, TitleTag, title, 1);
    assert '{' !in Separator + title;
    ReplaceAllAbsent(Separator + title, ArtistTag, artist);
    ReplaceAllHere(ArtistTag, Separator + title, artist);
    assert '{' !in artist + (Separator + title);
    ReplaceAllAbsent(artist + (Separator + title), AlbumTag, track.albumName);
  }

  /** A single separator between two plain fields survives the clean-up. */
  lemma CleanArtistTitle(artist: string, title: string)
    requires Plain(artist) && Plain(title)
    ensures CleanSeparators(artist + (Separator + title)) == artist + (Separator + title)
  {
    var rest := Separator + title;
    var s := artist + rest;
    Ends(Separator, title);
    Ends(artist, rest);
    NoTrailingSeparator(s);
    assert SpaceRun(s) == 0;
    assert title[0] in title;
    CollapseSkip(artist, rest);
    CollapseSingleSeparator(title);
    CollapsePlain(title);
    CleanSeparatorsOf(s, s);
  }

  /** The default format gives `Artist - Title.lrc` for fields that need no clean-up. */
  lemma DefaultFormatPlain(track: LrcLibTrack)
    requires Plain(track.trackName) && Plain(track.artistName)
    ensures FormatFilename(track) == track.artistName + Separator + track.trackName + ".lrc"
  {
    var artist, title := track.artistName, track.trackName;
    SubstituteArtistTitle(track);
    CleanArtistTitle(artist, title);
    SeparatorSafe();
    SafeJoin(Separator, title);
    SafeJoin(artist, Separator + title);
    FormatFilenameOf(track, DefaultFormat, artist + (Separator + title));
    Regroup(artist, Separator, title, ".lrc");
  }

  /** The title-only format gives `Title.lrc` for a title that needs no clean-up. */
  lemma TitleOnlyPlain(track: LrcLibTrack)
    requires Plain(track.trackName)
    ensures FormatFilename(track, FilenameFormats[1]) == track.trackName + ".lrc"
  {
    var title := track.trackName;
    ReplaceAllLast(TitleTag, title);
    ReplaceAllAbsent(title, ArtistTag, track.artistName);
    ReplaceAllAbsent(title, AlbumTag, track.albumName);
    assert Substitute(FilenameFormats[1].pattern, track) == title;
    NoTrailingSeparator(title);
    assert SpaceRun(title) == 0;
    CollapsePlain(title);
    CleanSeparatorsOf(title, title);
    FormatFilenameOf(track, FilenameFormats[1], title);
  }

  /** The default pattern filled in with no artist. */
  lemma SubstituteNoArtist(track: LrcLibTrack)
    requires track.artistName == "" && '{' !in track.trackName
    ensures Substitute(DefaultFormat.pattern, track) == Separator + track.trackName
  {
    var title := track.trackName;
    var s := Separator + title;
    SubstituteArtistTitle(track);
    EmptyPrefix(s);
  }

  /** A leading separator before plain text is dropped and nothing else changes. */
  lemma CleanLeadingSeparator(title: string)
    requires Plain(title)
    ensures CleanSeparators(Separator + title) == title
  {
    var s := Separator + title;
    Ends(Separator, title);
    NoTrailingSeparator(s);
    LeadingSeparatorDropped(title);
    NoTrailingSeparator(title);
    assert SpaceRun(title) == 0;
    CollapsePlain(title);
  }

  /** The separator in front of text starting with no white space is dropped. */
  lemma LeadingSeparatorDropped(title: string)
    requires title != [] && !IsSpace(title[0])
    ensures StripLeadingSeparator(Separator + title) == title
  {
    SeparatorSpelled(title, title);
    StripLeadingSeparatorOf(" ", " ", title);
  }

  /** With the default format and no artist, the leading separator is dropped. */
  lemma DefaultFormatNoArtist(track: LrcLibTrack)
    requires track.artistName == "" && Plain(track.trackName)
    ensures FormatFilename(track) == track.trackName + ".lrc"
  {
    SubstituteNoArtist(track);
    CleanLeadingSeparator(track.trackName);
    FormatFilenameOf(track, DefaultFormat, track.trackName);
  }

  /** Cutting where the pattern first matches, when that place is known. */
  lemma CutAt(s: string, p: nat, matches: string -> bool)
    requires p <= |s| && matches(s[p..])
    requires forall q :: 0 <= q < p ==> !matches(s[q..])
    ensures CutAtFirstMatch(s, matches) == s[..p]
  {
  }

  /** Plain text followed by a separator: the only trailing separator starts where the
      text ends. */
  lemma TrailingSeparatorAfter(title: string)
    requires Plain(title)
    ensures StripTrailingSeparator(title + Separator) == title
  {
    var s := title + Separator;
    assert s[|title|..] == Separator && s[..|title|] == title;
    assert SeparatorMatch(Separator) by {
      SeparatorSpelled([], []);
      SpaceRunOf([' '], ['-'] + [' ']);
      assert Separator[2..] == [' '];
    }
    forall q | 0 <= q < |title| ensures !SeparatorMatch(s[q..]) {
      NoSeparatorInside(title, q);
    }
    CutAt(s, |title|, SeparatorMatch);
  }

  /** Inside plain text followed by a separator, no trailing separator starts. */
  lemma NoSeparatorInside(title: string, q: nat)
    requires Plain(title) && q < |title|
    ensures !SeparatorMatch((title + Separator)[q..])
  {
    var t := (title + Separator)[q..];
    assert t[|title| - 1 - q] == title[|title| - 1];
    SpaceRunBound(t, |title| - 1 - q);
    var n := SpaceRun(t);
    if n > 0 {
      assert t[n] == title[q + n] && t[..n][n - 1] == title[q + n - 1];
    }
  }

  /** The title-artist pattern filled in with no artist. */
  lemma SubstituteTitleNoArtist(track: LrcLibTrack)
    requires track.artistName == "" && '{' !in track.trackName
    ensures Substitute(FilenameFormats[3].pattern, track) == track.trackName + Separator
  {
    var title := track.trackName;
    var s := title + Separator;
    Associate3(TitleTag, Separator, ArtistTag);
    assert ArtistTag[1] != TitleTag[1] && '{' !in Separator && '{' !in ArtistTag[1..];
    assert ReplaceAll(TitleTag + Separator + ArtistTag, TitleTag, title) == title + (Separator + ArtistTag) by {
      ReplaceAllAbsent([], TitleTag, title);
      ReplaceAllOther(ArtistTag, [], TitleTag, title, 1);
      assert ArtistTag + [] == ArtistTag;
      ReplaceAllKeep(Separator, ArtistTag, TitleTag, title);
      ReplaceAllHere(TitleTag, Separator + ArtistTag, title);
    }
    assert ReplaceAll(title + (Separator + ArtistTag), ArtistTag, "") == s by {
      Associate3(title, Separator, ArtistTag);
      assert '{' !in s;
      ReplaceAllLast(ArtistTag, "");
      ReplaceAllKeep(s, ArtistTag, ArtistTag, "");
      assert s + "" == s;
    }
    assert '{' !in s;
    ReplaceAllAbsent(s, AlbumTag, track.albumName);
  }

  /** A trailing separator after plain text is dropped and nothing else changes. */
  lemma CleanTrailingSeparator(title: string)
    requires Plain(title)
    ensures CleanSeparators(title + Separator) == title
  {
    TrailingSeparatorAfter(title);
    assert SpaceRun(title) == 0;
    CollapsePlain(title);
  }

  /** With the title-artist format and no artist, the trailing separator is dropped. */
  lemma TitleArtistNoArtist(track: LrcLibTrack)
    requires track.artistName == "" && Plain(track.trackName)
    ensures FormatFilename(track, FilenameFormats[3]) == track.trackName + ".lrc"
  {
    SubstituteTitleNoArtist(track);
    CleanTrailingSeparator(track.trackName);
    FormatFilenameOf(track, FilenameFormats[3], track.trackName);
  }

  predicate IsSafe(s: string) {
    forall k :: 0 <= k < |s| ==> !IsUnsafe(s[k])
  }

  /** No hyphen comes right after white space: hyphens inside words, as in `Jay-Z`,
      are allowed, since no separator pattern can start at them. */
  predicate NoSpacedHyphen(s: string) {
    forall k :: 0 < k < |s| && s[k] == '-' ==> !IsSpace(s[k - 1])
  }

  /** A field that needs no clean-up: non-empty, trimmed, without `{` or unsafe
      characters, not starting with a hyphen, and with no hyphen right after white
      space. */
  predicate Plain(s: string) {
    s != [] && IsTrimmed(s) && '{' !in s && s[0] != '-' && NoSpacedHyphen(s) && IsSafe(s)
  }
}
