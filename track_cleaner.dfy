/** The track-name cleaner behind the single retry of bulk processing: bracketed
    groups and a few trailing edition markers are removed, with a trim after every
    step. Each regular-expression step is modelled as JavaScript's global, leftmost
    replacement with the empty string. */
module TrackCleaner {
  import opened Builtins
  import opened Types

  /** Index of the first occurrence of `c` in `s`. */
  function IndexOf(s: string, c: char): (k: nat)
    requires c in s
    ensures k < |s| && s[k] == c
    ensures forall m :: 0 <= m < k ==> s[m] != c
  {
    if s[0] == c then 0 else 1 + IndexOf(s[1..], c)
  }

  /** No `open` character has a `close` character somewhere after it. */
  predicate NoGroup(s: string, open: char, close: char) {
    forall i, j :: 0 <= i < j < |s| && s[i] == open ==> s[j] != close
  }

  /** `s.replace(/\([^)]*\)/g, '')` for the pair `open`, `close`: scanning left to
      right, an `open` that has a `close` after it is removed together with everything
      up to and including the first such `close`; an `open` with no `close` after it
      stays, as does every other character. */
  function RemoveGroups(s: string, open: char, close: char): (r: string)
    ensures |r| <= |s|
    decreases |s|
  {
    if s == [] then []
    else if s[0] == open && close in s[1..] then RemoveGroups(s[IndexOf(s[1..], close) + 2..], open, close)
    else [s[0]] + RemoveGroups(s[1..], open, close)
  }

  /** Removing groups only deletes characters: each remaining one comes from the input. */
  lemma {:induction false} RemoveGroupsFromInput(s: string, open: char, close: char)
    ensures forall k :: 0 <= k < |RemoveGroups(s, open, close)| ==> RemoveGroups(s, open, close)[k] in s
    decreases |s|
  {
    if s == [] {
    } else if s[0] == open && close in s[1..] {
      var tail := s[IndexOf(s[1..], close) + 2..];
      RemoveGroupsFromInput(tail, open, close);
      forall k | 0 <= k < |RemoveGroups(tail, open, close)|
        ensures RemoveGroups(tail, open, close)[k] in s
      {
        var m :| 0 <= m < |tail| && tail[m] == RemoveGroups(tail, open, close)[k];
        assert s[IndexOf(s[1..], close) + 2 + m] == tail[m];
      }
    } else {
      RemoveGroupsFromInput(s[1..], open, close);
      var r := RemoveGroups(s, open, close);
      forall k | 1 <= k < |r| ensures r[k] in s {
        assert r[k] == RemoveGroups(s[1..], open, close)[k - 1];
        assert r[k] in s[1..];
      }
    }
  }

  /** Prepending a character keeps `NoGroup` unless it opens a group the rest closes. */
  lemma NoGroupCons(c: char, t: string, open: char, close: char)
    requires NoGroup(t, open, close)
    requires c == open ==> close !in t
    ensures NoGroup([c] + t, open, close)
  {
    var s := [c] + t;
    forall i, j | 0 <= i < j < |s| && s[i] == open ensures s[j] != close {
      if i == 0 {
        assert s[j] == t[j - 1];
      } else {
        assert s[i] == t[i - 1] && s[j] == t[j - 1];
      }
    }
  }

  /** A string with no group has none from any position on. */
  lemma NoGroupSuffix(s: string, m: nat, open: char, close: char)
    requires m <= |s|
    ensures NoGroup(s, open, close) ==> NoGroup(s[m..], open, close)
  {
    if NoGroup(s, open, close) {
      var t := s[m..];
      forall i, j | 0 <= i < j < |t| && t[i] == open ensures t[j] != close {
        assert t[i] == s[m + i] && t[j] == s[m + j];
      }
    }
  }

  /** After the removal no `open` has a `close` after it; a string that already had
      no group of another pair still has none. */
  lemma {:induction false} RemoveGroupsNoGroup(s: string, open: char, close: char, open2: char, close2: char)
    ensures NoGroup(RemoveGroups(s, open, close), open, close)
    ensures NoGroup(s, open2, close2) ==> NoGroup(RemoveGroups(s, open, close), open2, close2)
    decreases |s|
  {
    if s == [] {
    } else if s[0] == open && close in s[1..] {
      var tail := s[IndexOf(s[1..], close) + 2..];
      RemoveGroupsNoGroup(tail, open, close, open2, close2);
      NoGroupSuffix(s, IndexOf(s[1..], close) + 2, open2, close2);
    } else {
      var rest := RemoveGroups(s[1..], open, close);
      RemoveGroupsNoGroup(s[1..], open, close, open2, close2);
      RemoveGroupsFromInput(s[1..], open, close);
      NoGroupCons(s[0], rest, open, close);
      NoGroupSuffix(s, 1, open2, close2);
      if NoGroup(s, open2, close2) {
        NoGroupCons(s[0], rest, open2, close2);
      }
    }
  }

  /** A string with no white space inside and the given letters, matched without
      regard to ASCII case: `word` is expected in lower case. */
  predicate StartsWithIgnoringCase(s: string, word: string) {
    |word| <= |s| && LowerString(s[..|word|]) == word
  }

  /** `-\s*Remastered.*$` with the `i` flag, tried at the start of `s`: a hyphen, any
      white space, the word in any case, then no line terminator up to the end. */
  predicate RemasteredAt(s: string) {
    s != [] && s[0] == '-'
    && var rest := s[1..][SpaceRun(s[1..])..];
       StartsWithIgnoringCase(rest, "remastered")
       && forall k :: 10 <= k < |rest| ==> !IsLineTerminator(rest[k])
  }

  /** `-\s*Explicit$` with the `i` flag, tried at the start of `s`. */
  predicate ExplicitAt(s: string) {
    s != [] && s[0] == '-'
    && var rest := s[1..][SpaceRun(s[1..])..];
       |rest| == 8 && LowerString(rest) == "explicit"
  }

  /** `-\s*Radio\s*Edit$` with the `i` flag, tried at the start of `s`. */
  predicate RadioEditAt(s: string) {
    s != [] && s[0] == '-'
    && var rest := s[1..][SpaceRun(s[1..])..];
       StartsWithIgnoringCase(rest, "radio")
       && var tail := rest[5..][SpaceRun(rest[5..])..];
          |tail| == 4 && LowerString(tail) == "edit"
  }

  /** `\s+-\s*$`, tried at the start of `s`: white space, a hyphen, white space to the end. */
  predicate DanglingHyphenAt(s: string) {
    var n := SpaceRun(s);
    0 < n < |s| && s[n] == '-' && AllSpace(s[n + 1..])
  }

  /** One `replace(pattern, '').trim()` step for an end-anchored pattern. */
  function CutAndTrim(s: string, matches: string -> bool): (r: string)
    ensures IsTrimmed(r) && |r| <= |s|
  {
    Trim(CutAtFirstMatch(s, matches))
  }

  /** The two bracket steps: `(...)` groups, then `[...]` groups, each followed by a trim. */
  function RemoveBracketGroups(trackName: string): (r: string)
    ensures IsTrimmed(r) && |r| <= |trackName|
  {
    Trim(RemoveGroups(Trim(RemoveGroups(trackName, '(', ')')), '[', ']'))
  }

  /** `cleanTrackName`: remove `(...)` groups, then `[...]` groups, then a trailing
      remastered marker, an `Explicit` marker, a `Radio Edit` marker and a dangling
      hyphen, trimming after each step. */
  function CleanTrackName(trackName: string): (r: string)
    ensures IsTrimmed(r)
    ensures |r| <= |trackName|
  {
    var noBrackets := RemoveBracketGroups(trackName);
    CutAndTrim(CutAndTrim(CutAndTrim(CutAndTrim(noBrackets, RemasteredAt), ExplicitAt), RadioEditAt), DanglingHyphenAt)
  }

  /** A slice of a string without groups has none either. */
  lemma NoGroupSlice(s: string, i: nat, j: nat, open: char, close: char)
    requires i <= j <= |s| && NoGroup(s, open, close)
    ensures NoGroup(s[i..j], open, close)
  {
    var t := s[i..j];
    forall a, b | 0 <= a < b < |t| && t[a] == open ensures t[b] != close {
      assert t[a] == s[i + a] && t[b] == s[i + b];
    }
  }

  /** Trimming keeps `NoGroup`. */
  lemma NoGroupTrim(s: string, open: char, close: char)
    requires NoGroup(s, open, close)
    ensures NoGroup(Trim(s), open, close)
  {
    NoGroupSlice(s, SpaceRun(s), SpaceRun(s) + |Trim(s)|, open, close);
  }

  /** Cutting at a match and trimming keeps `NoGroup`. */
  lemma NoGroupCutAndTrim(s: string, matches: string -> bool, open: char, close: char)
    requires NoGroup(s, open, close)
    ensures NoGroup(CutAndTrim(s, matches), open, close)
  {
    var cut := CutAtFirstMatch(s, matches);
    NoGroupSlice(s, 0, |cut|, open, close);
    NoGroupTrim(cut, open, close);
  }

  /** After the bracket steps no `(...)` and no `[...]` group is left. */
  lemma RemoveBracketGroupsNoGroups(trackName: string)
    ensures NoGroup(RemoveBracketGroups(trackName), '(', ')')
    ensures NoGroup(RemoveBracketGroups(trackName), '[', ']')
  {
    var noParens := Trim(RemoveGroups(trackName, '(', ')'));
    RemoveGroupsNoGroup(trackName, '(', ')', '(', ')');
    NoGroupTrim(RemoveGroups(trackName, '(', ')'), '(', ')');
    RemoveGroupsNoGroup(noParens, '[', ']', '(', ')');
    NoGroupTrim(RemoveGroups(noParens, '[', ']'), '(', ')');
    NoGroupTrim(RemoveGroups(noParens, '[', ']'), '[', ']');
  }

  /** The cleaned name has no `(...)` group and no `[...]` group left: every opening
      bracket that remains has no matching closing bracket after it. */
  lemma CleanTrackNameNoGroups(trackName: string)
    ensures NoGroup(CleanTrackName(trackName), '(', ')')
    ensures NoGroup(CleanTrackName(trackName), '[', ']')
  {
    var s0 := RemoveBracketGroups(trackName);
    RemoveBracketGroupsNoGroups(trackName);
    var s1 := CutAndTrim(s0, RemasteredAt);
    NoGroupCutAndTrim(s0, RemasteredAt, '(', ')');
    NoGroupCutAndTrim(s0, RemasteredAt, '[', ']');
    var s2 := CutAndTrim(s1, ExplicitAt);
    NoGroupCutAndTrim(s1, ExplicitAt, '(', ')');
    NoGroupCutAndTrim(s1, ExplicitAt, '[', ']');
    var s3 := CutAndTrim(s2, RadioEditAt);
    NoGroupCutAndTrim(s2, RadioEditAt, '(', ')');
    NoGroupCutAndTrim(s2, RadioEditAt, '[', ']');
    NoGroupCutAndTrim(s3, DanglingHyphenAt, '(', ')');
    NoGroupCutAndTrim(s3, DanglingHyphenAt, '[', ']');
  }

  /** Without the opening character nothing is removed. */
  lemma {:induction false} RemoveGroupsWithoutOpen(s: string, open: char, close: char)
    requires open !in s
    ensures RemoveGroups(s, open, close) == s
    decreases |s|
  {
    if s != [] {
      assert open !in s[1..];
      RemoveGroupsWithoutOpen(s[1..], open, close);
    }
  }

  /** A first group preceded by text without the opening character is removed
      together with its brackets, and the scan resumes after it. */
  lemma {:induction false} RemoveGroupsFirstGroup(front: string, group: string, back: string, open: char, close: char)
    requires open !in front && close !in group
    ensures RemoveGroups(front + [open] + group + [close] + back, open, close) == front + RemoveGroups(back, open, close)
    decreases |front|
  {
    if front == [] {
      GroupAtEmptyFront(front, group, back, open, close);
    } else {
      RemoveGroupsFirstGroup(front[1..], group, back, open, close);
      GroupAfterChar(front, group, back, open, close);
    }
  }

  lemma GroupAtEmptyFront(front: string, group: string, back: string, open: char, close: char)
    requires front == [] && close !in group
    ensures RemoveGroups(front + [open] + group + [close] + back, open, close) == front + RemoveGroups(back, open, close)
  {
    GroupAtFront(group, back, open, close);
    AssociateGroup(front, open, group, close, back);
    EmptyFront([open] + group + [close] + back);
    EmptyFront(RemoveGroups(back, open, close));
  }

  /** One character before the group: it is kept and the rest is as without it. */
  lemma GroupAfterChar(front: string, group: string, back: string, open: char, close: char)
    requires front != [] && front[0] != open
    requires RemoveGroups(front[1..] + [open] + group + [close] + back, open, close)
      == front[1..] + RemoveGroups(back, open, close)
    ensures RemoveGroups(front + [open] + group + [close] + back, open, close) == front + RemoveGroups(back, open, close)
  {
    var t := front[1..] + [open] + group + [close] + back;
    AssociateGroup(front, open, group, close, back);
    AssociateGroup(front[1..], open, group, close, back);
    ConsParts(front, [open] + group + [close] + back);
    RemoveGroupsCons(front[0], t, open, close);
    ConsParts(front, RemoveGroups(back, open, close));
  }

  lemma EmptyFront(s: string)
    ensures [] + s == s
  {
  }

  /** `front + rest`, written as its first character followed by the others. */
  lemma ConsParts(front: string, rest: string)
    requires front != []
    ensures front + rest == [front[0]] + (front[1..] + rest)
  {
  }

  lemma AssociateGroup(front: string, open: char, group: string, close: char, back: string)
    ensures front + [open] + group + [close] + back == front + ([open] + group + [close] + back)
  {
  }

  /** A character other than the opening one is kept, and the scan moves on. */
  lemma RemoveGroupsCons(c: char, t: string, open: char, close: char)
    requires c != open
    ensures RemoveGroups([c] + t, open, close) == [c] + RemoveGroups(t, open, close)
  {
    assert ([c] + t)[1..] == t;
  }

  /** A group at the very front is removed with its brackets. */
  lemma GroupAtFront(group: string, back: string, open: char, close: char)
    requires close !in group
    ensures RemoveGroups([open] + group + [close] + back, open, close) == RemoveGroups(back, open, close)
  {
    var s := [open] + group + [close] + back;
    assert s[1..] == group + [close] + back;
    assert IndexOf(s[1..], close) == |group| by {
      assert s[1..][|group|] == close;
    }
    assert s[|group| + 2..] == back;
  }

  /** A trimmed name with no hyphen matches none of the suffix patterns. */
  lemma NoHyphenNoCut(s: string)
    requires IsTrimmed(s) && '-' !in s
    ensures CutAndTrim(s, RemasteredAt) == s && CutAndTrim(s, ExplicitAt) == s
    ensures CutAndTrim(s, RadioEditAt) == s && CutAndTrim(s, DanglingHyphenAt) == s
  {
    forall q | 0 <= q < |s|
      ensures !RemasteredAt(s[q..]) && !ExplicitAt(s[q..]) && !RadioEditAt(s[q..]) && !DanglingHyphenAt(s[q..])
    {
      assert '-' !in s[q..];
      NoHyphenNoMatchAt(s[q..]);
    }
    CutAndTrimNoMatch(s, RemasteredAt);
    CutAndTrimNoMatch(s, ExplicitAt);
    CutAndTrimNoMatch(s, RadioEditAt);
    CutAndTrimNoMatch(s, DanglingHyphenAt);
  }

  /** Every suffix pattern needs a hyphen. */
  lemma NoHyphenNoMatchAt(t: string)
    requires '-' !in t
    ensures !RemasteredAt(t) && !ExplicitAt(t) && !RadioEditAt(t) && !DanglingHyphenAt(t)
  {
    if t != [] {
      assert t[0] in t;
    }
    if SpaceRun(t) < |t| {
      assert t[SpaceRun(t)] in t;
    }
  }

  /** When the bracket steps leave no hyphen, the suffix steps change nothing. */
  lemma CleanTrackNameAfterBrackets(trackName: string)
    requires '-' !in RemoveBracketGroups(trackName)
    ensures CleanTrackName(trackName) == RemoveBracketGroups(trackName)
  {
    NoHyphenNoCut(RemoveBracketGroups(trackName));
  }

  /** A trimmed name with no bracket and no hyphen is already clean, so no retry
      is made for it. */
  lemma CleanTrackNamePlain(trackName: string)
    requires IsTrimmed(trackName) && '(' !in trackName && '[' !in trackName && '-' !in trackName
    ensures CleanTrackName(trackName) == trackName
  {
    RemoveGroupsWithoutOpen(trackName, '(', ')');
    RemoveGroupsWithoutOpen(trackName, '[', ']');
    assert RemoveBracketGroups(trackName) == trackName;
    CleanTrackNameAfterBrackets(trackName);
  }

  /** A trailing parenthesised group (`"Yesterday (Remastered 2009)"`) is dropped
      together with the space before it. */
  lemma CleanTrackNameDropsGroup(base: string, group: string)
    requires IsTrimmed(base) && '(' !in base && '[' !in base && '-' !in base
    requires ')' !in group
    ensures CleanTrackName(base + " (" + group + ")") == base
  {
    var s := base + " (" + group + ")";
    assert s == (base + " ") + ['('] + group + [')'] + [];
    RemoveGroupsFirstGroup(base + " ", group, [], '(', ')');
    assert RemoveGroups(s, '(', ')') == base + " ";
    TrimTrailingSpace(base, " ");
    RemoveGroupsWithoutOpen(base, '[', ']');
    assert RemoveBracketGroups(s) == base;
    CleanTrackNameAfterBrackets(s);
  }

  /** Where the leftmost match is known, the cut is there. */
  lemma CutAtKnownMatch(s: string, matches: string -> bool, p: nat)
    requires p < |s| && matches(s[p..])
    requires forall q :: 0 <= q < p ==> !matches(s[q..])
    ensures CutAtFirstMatch(s, matches) == s[..p]
  {
  }

  /** A single space before a non-space character is a run of one. */
  lemma SpaceRunOfOne(t: string)
    requires |t| >= 2 && t[0] == ' ' && !IsSpace(t[1])
    ensures SpaceRun(t) == 1
  {
    assert t[1..][0] == t[1];
  }

  /** Lower-casing a string character by character onto `word`. */
  lemma LowerStringIs(t: string, word: string)
    requires |t| == |word| && forall k :: 0 <= k < |t| ==> Lower(t[k]) == word[k]
    ensures LowerString(t) == word
  {
  }

  /** `"- Radio Edit"` is matched by the radio-edit pattern. */
  lemma RadioEditMarkerMatches(marker: string)
    requires marker == "- Radio Edit"
    ensures RadioEditAt(marker)
  {
    var afterHyphen := marker[1..];
    assert afterHyphen[0] == ' ' && afterHyphen[1] == 'R';
    SpaceRunOfOne(afterHyphen);
    var rest := afterHyphen[1..];
    assert rest == "Radio Edit";
    RadioWord(rest);
    EditWord(rest[5..]);
  }

  lemma RadioWord(rest: string)
    requires rest == "Radio Edit"
    ensures StartsWithIgnoringCase(rest, "radio") && rest[5..] == " Edit"
  {
    assert rest[..5] == "Radio";
    LowerStringIs(rest[..5], "radio");
  }

  lemma EditWord(tail: string)
    requires tail == " Edit"
    ensures var word := tail[SpaceRun(tail)..]; |word| == 4 && LowerString(word) == "edit"
  {
    assert tail[0] == ' ' && tail[1] == 'E';
    SpaceRunOfOne(tail);
    assert tail[1..] == "Edit";
    LowerStringIs(tail[1..], "edit");
  }

  /** `"- Radio Edit"` is matched neither by the remastered nor by the explicit pattern. */
  lemma RadioEditMarkerOnly(marker: string)
    requires marker == "- Radio Edit"
    ensures !RemasteredAt(marker) && !ExplicitAt(marker)
  {
    var afterHyphen := marker[1..];
    assert afterHyphen[0] == ' ' && afterHyphen[1] == 'R';
    SpaceRunOfOne(afterHyphen);
    var rest := afterHyphen[1..];
    assert |rest| == 10 && rest[1] == 'a';
    assert LowerString(rest[..10])[1] == 'a';
  }

  /** The shape of `base + " - Radio Edit"`: trimmed, bracket-free, and its only
      hyphen is the marker's. */
  lemma RadioEditNameShape(base: string, s: string)
    requires base != [] && IsTrimmed(base) && '(' !in base && '[' !in base && '-' !in base
    requires s == base + " - Radio Edit"
    ensures IsTrimmed(s) && '(' !in s && '[' !in s
    ensures forall q :: 0 <= q < |s| && q != |base| + 1 ==> s[q] != '-'
    ensures s[|base| + 1..] == "- Radio Edit" && s[..|base| + 1] == base + " "
  {
    var marker := " - Radio Edit";
    assert forall k :: 0 <= k < |s| ==> s[k] == (if k < |base| then base[k] else marker[k - |base|]);
    assert s[0] == base[0] && s[|s| - 1] == 't';
  }

  /** A pattern that needs a hyphen first cannot match where there is none. */
  lemma NoMatchWithoutHyphen(s: string, q: nat)
    requires q < |s| && s[q] != '-'
    ensures !RemasteredAt(s[q..]) && !ExplicitAt(s[q..]) && !RadioEditAt(s[q..])
  {
    assert s[q..][0] == s[q];
  }

  /** A trimmed string no suffix of which matches is left as it is. */
  lemma CutAndTrimNoMatch(s: string, matches: string -> bool)
    requires IsTrimmed(s)
    requires forall q :: 0 <= q < |s| ==> !matches(s[q..])
    ensures CutAndTrim(s, matches) == s
  {
  }

  /** The remastered and explicit steps leave `base + " - Radio Edit"` alone. */
  lemma RadioEditEarlierSteps(base: string, s: string)
    requires base != [] && IsTrimmed(base) && '(' !in base && '[' !in base && '-' !in base
    requires s == base + " - Radio Edit"
    ensures CutAndTrim(s, RemasteredAt) == s && CutAndTrim(s, ExplicitAt) == s
  {
    var p := |base| + 1;
    RadioEditNameShape(base, s);
    RadioEditMarkerOnly(s[p..]);
    forall q | 0 <= q < |s| && q != p ensures !RemasteredAt(s[q..]) && !ExplicitAt(s[q..]) {
      NoMatchWithoutHyphen(s, q);
    }
    CutAndTrimNoMatch(s, RemasteredAt);
    CutAndTrimNoMatch(s, ExplicitAt);
  }

  /** No radio-edit marker starts where there is no hyphen. */
  lemma NoRadioEditBefore(s: string, p: nat)
    requires p <= |s|
    requires forall q :: 0 <= q < p ==> s[q] != '-'
    ensures forall q :: 0 <= q < p ==> !RadioEditAt(s[q..])
  {
    forall q | 0 <= q < p ensures !RadioEditAt(s[q..]) {
      assert s[q..][0] == s[q];
    }
  }

  /** The radio-edit step cuts a name back to the trimmed text before the first
      position where the marker matches. */
  lemma RadioEditStep(base: string, s: string)
    requires IsTrimmed(base) && |base| + 1 < |s| && s[..|base| + 1] == base + " "
    requires forall q :: 0 <= q <= |base| ==> s[q] != '-'
    requires RadioEditAt(s[|base| + 1..])
    ensures CutAndTrim(s, RadioEditAt) == base
  {
    NoRadioEditBefore(s, |base| + 1);
    CutAtKnownMatch(s, RadioEditAt, |base| + 1);
    TrimAfterCut(base, s, RadioEditAt);
  }

  /** A cut that leaves a trimmed text and one space is trimmed back to the text. */
  lemma TrimAfterCut(base: string, s: string, matches: string -> bool)
    requires IsTrimmed(base) && CutAtFirstMatch(s, matches) == base + " "
    ensures CutAndTrim(s, matches) == base
  {
    TrimTrailingSpace(base, " ");
  }

  /** A trailing `- Radio Edit` marker is dropped together with the space before it. */
  lemma CleanTrackNameDropsRadioEdit(base: string)
    requires base != [] && IsTrimmed(base) && '(' !in base && '[' !in base && '-' !in base
    ensures CleanTrackName(base + " - Radio Edit") == base
  {
    var s := base + " - Radio Edit";
    RadioEditNameShape(base, s);
    RemoveGroupsWithoutOpen(s, '(', ')');
    RemoveGroupsWithoutOpen(s, '[', ']');
    assert RemoveBracketGroups(s) == s;
    RadioEditEarlierSteps(base, s);
    RadioEditMarkerMatches(s[|base| + 1..]);
    RadioEditStep(base, s);
    NoHyphenNoCut(base);
  }

  /** A trimmed name with no opening bracket passes both bracket steps unchanged. */
  lemma RemoveBracketGroupsNone(s: string)
    requires IsTrimmed(s) && '(' !in s && '[' !in s
    ensures RemoveBracketGroups(s) == s
  {
    RemoveGroupsWithoutOpen(s, '(', ')');
    RemoveGroupsWithoutOpen(s, '[', ']');
  }

  predicate IsLetter(c: char) { 'a' <= c <= 'z' || 'A' <= c <= 'Z' }

  predicate AllLetters(s: string) { forall k :: 0 <= k < |s| ==> IsLetter(s[k]) }

  /** The two marker words are spelled with letters only. */
  lemma MarkerWordsAreLetters()
    ensures AllLetters("remastered") && AllLetters("explicit")
  {
  }

  /** A word whose lower-case form is made of letters is made of letters too. */
  lemma LettersOfLower(word: string, lower: string)
    requires LowerString(word) == lower && AllLetters(lower)
    ensures AllLetters(word)
  {
    forall k | 0 <= k < |word| ensures IsLetter(word[k]) {
      assert Lower(word[k]) == lower[k];
    }
  }

  /** A word of letters holds no bracket, no hyphen and no white space. */
  lemma LettersAreNotMarks(word: string)
    requires AllLetters(word)
    ensures '(' !in word && '[' !in word && '-' !in word
    ensures word != [] ==> !IsSpace(word[0]) && !IsSpace(word[|word| - 1])
  {
    if word != [] {
      assert IsLetter(word[0]) && IsLetter(word[|word| - 1]);
    }
  }

  /** After a marker's hyphen and a hyphen-free remainder no suffix pattern matches. */
  lemma NoMatchAfter(s: string, p: nat, rest: string)
    requires p < |s| && s[p..] == "- " + rest && '-' !in rest
    ensures forall q :: p < q < |s| ==> !RemasteredAt(s[q..]) && !ExplicitAt(s[q..]) && !RadioEditAt(s[q..])
  {
    forall q | p < q < |s| ensures !RemasteredAt(s[q..]) && !ExplicitAt(s[q..]) && !RadioEditAt(s[q..]) {
      assert s[q] == s[p..][q - p];
      assert s[q] == ' ' || s[q] in rest;
      NoMatchWithoutHyphen(s, q);
    }
  }

  /** The shape of `base + " - " + marker`: trimmed, bracket-free, with no hyphen
      before the marker's. */
  lemma MarkerNameShape(base: string, marker: string, s: string)
    requires base != [] && IsTrimmed(base) && '(' !in base && '[' !in base && '-' !in base
    requires marker != [] && !IsSpace(marker[0]) && !IsSpace(marker[|marker| - 1])
    requires '(' !in marker && '[' !in marker
    requires s == base + " - " + marker
    ensures IsTrimmed(s) && '(' !in s && '[' !in s
    ensures forall q :: 0 <= q <= |base| ==> s[q] != '-'
    ensures s[..|base| + 1] == base + " " && s[|base| + 1..] == "- " + marker
  {
    var m := " - " + marker;
    assert s == base + m;
    assert s[0] == base[0] && s[|s| - 1] == marker[|marker| - 1];
    forall q | 0 <= q <= |base| ensures s[q] != '-' {
      if q < |base| {
        assert s[q] == base[q];
      }
    }
  }

  /** The cut at a marker whose hyphen is the first one, after `base` and a space. */
  lemma MarkerStep(base: string, s: string, matches: string -> bool)
    requires IsTrimmed(base) && |base| + 1 < |s| && s[..|base| + 1] == base + " "
    requires forall q :: 0 <= q <= |base| ==> !matches(s[q..])
    requires matches(s[|base| + 1..])
    ensures CutAndTrim(s, matches) == base
  {
    CutAtKnownMatch(s, matches, |base| + 1);
    TrimAfterCut(base, s, matches);
  }

  /** `"- " + word + tail` with `word` lower-casing to `remastered` and no line
      terminator in `tail` is matched by the remastered pattern. */
  lemma RemasteredMarker(t: string, word: string, tail: string)
    requires t == "- " + word + tail && |word| == 10 && LowerString(word) == "remastered"
    requires !IsSpace(word[0])
    requires forall k :: 0 <= k < |tail| ==> !IsLineTerminator(tail[k])
    ensures RemasteredAt(t)
  {
    assert t[1..] == " " + (word + tail) && t[1..][1] == word[0];
    SpaceRunOfOne(t[1..]);
    var rest := t[1..][1..];
    assert rest == word + tail && rest[..10] == word;
    assert forall k :: 10 <= k < |rest| ==> rest[k] == tail[k - 10];
  }

  /** The shape of `base + " - " + word + tail`: the bracket steps leave it alone,
      its first hyphen is the marker's, and the marker starts with a letter. */
  lemma RemasteredNameShape(base: string, word: string, tail: string, s: string)
    requires base != [] && IsTrimmed(base) && '(' !in base && '[' !in base && '-' !in base
    requires |word| == 10 && LowerString(word) == "remastered"
    requires '(' !in tail && '[' !in tail
    requires forall k :: 0 <= k < |tail| ==> !IsLineTerminator(tail[k])
    requires tail == [] || !IsSpace(tail[|tail| - 1])
    requires s == base + " - " + word + tail
    ensures RemoveBracketGroups(s) == s && |base| + 1 < |s| && !IsSpace(word[0])
    ensures forall q :: 0 <= q <= |base| ==> s[q] != '-'
    ensures s[..|base| + 1] == base + " " && s[|base| + 1..] == "- " + (word + tail)
  {
    var marker := word + tail;
    assert s == base + " - " + marker;
    MarkerWordsAreLetters();
    LettersOfLower(word, "remastered");
    LettersAreNotMarks(word);
    assert marker[0] == word[0] && marker[|marker| - 1] == (if tail == [] then word[9] else tail[|tail| - 1]);
    MarkerNameShape(base, marker, s);
    RemoveBracketGroupsNone(s);
  }

  /** No remastered marker starts where there is no hyphen. */
  lemma NoRemasteredBefore(s: string, p: nat)
    requires p <= |s|
    requires forall q :: 0 <= q < p ==> s[q] != '-'
    ensures forall q :: 0 <= q < p ==> !RemasteredAt(s[q..])
  {
    forall q | 0 <= q < p ensures !RemasteredAt(s[q..]) {
      NoMatchWithoutHyphen(s, q);
    }
  }

  /** The remastered step, given the shape of the name. */
  lemma RemasteredCut(base: string, word: string, tail: string, s: string)
    requires IsTrimmed(base) && |base| + 1 < |s|
    requires forall q :: 0 <= q <= |base| ==> s[q] != '-'
    requires s[..|base| + 1] == base + " " && s[|base| + 1..] == "- " + (word + tail)
    requires |word| == 10 && LowerString(word) == "remastered" && !IsSpace(word[0])
    requires forall k :: 0 <= k < |tail| ==> !IsLineTerminator(tail[k])
    ensures CutAndTrim(s, RemasteredAt) == base
  {
    NoRemasteredBefore(s, |base| + 1);
    RemasteredMarker(s[|base| + 1..], word, tail);
    MarkerStep(base, s, RemasteredAt);
  }

  /** A trailing `- Remastered` marker, in any letter case and with any text after
      it up to the end of the line, is dropped with the space before it. */
  lemma CleanTrackNameDropsRemastered(base: string, word: string, tail: string)
    requires base != [] && IsTrimmed(base) && '(' !in base && '[' !in base && '-' !in base
    requires |word| == 10 && LowerString(word) == "remastered"
    requires '(' !in tail && '[' !in tail
    requires forall k :: 0 <= k < |tail| ==> !IsLineTerminator(tail[k])
    requires tail == [] || !IsSpace(tail[|tail| - 1])
    ensures CleanTrackName(base + " - " + word + tail) == base
  {
    var s := base + " - " + word + tail;
    RemasteredNameShape(base, word, tail, s);
    RemasteredCut(base, word, tail, s);
    NoHyphenNoCut(base);
  }

  /** `p` is the only position of `s` holding a hyphen. */
  predicate OnlyHyphenAt(s: string, p: nat) {
    forall q :: 0 <= q < |s| && q != p ==> s[q] != '-'
  }

  /** Where the only hyphen is at `p`, no marker pattern matches elsewhere. */
  lemma NoMatchExceptAt(s: string, p: nat)
    requires OnlyHyphenAt(s, p)
    ensures forall q :: 0 <= q < |s| && q != p ==> !RemasteredAt(s[q..]) && !ExplicitAt(s[q..]) && !RadioEditAt(s[q..])
  {
    forall q | 0 <= q < |s| && q != p ensures !RemasteredAt(s[q..]) && !ExplicitAt(s[q..]) && !RadioEditAt(s[q..]) {
      NoMatchWithoutHyphen(s, q);
    }
  }

  /** In `base + " - " + word` with a hyphen-free `base` and `word`, the marker's
      hyphen is the only one. */
  lemma OnlyMarkerHyphen(base: string, word: string, s: string)
    requires '-' !in base && '-' !in word && s == base + " - " + word
    ensures OnlyHyphenAt(s, |base| + 1)
  {
    forall q | 0 <= q < |s| && q != |base| + 1 ensures s[q] != '-' {
      if q < |base| {
        assert s[q] == base[q];
      } else if q > |base| + 2 {
        assert s[q] == word[q - |base| - 3];
      }
    }
  }

  /** A marker word shorter than `remastered` is not matched by the remastered pattern. */
  lemma ShortWordNotRemastered(t: string, word: string)
    requires t == "- " + word && |word| < 10 && word != [] && !IsSpace(word[0])
    ensures !RemasteredAt(t)
  {
    assert t[1..] == " " + word && t[1..][1] == word[0];
    SpaceRunOfOne(t[1..]);
  }

  /** `"- " + word` with `word` lower-casing to `explicit` is matched by the explicit pattern. */
  lemma ExplicitMarker(t: string, word: string)
    requires t == "- " + word && |word| == 8 && LowerString(word) == "explicit"
    requires !IsSpace(word[0])
    ensures ExplicitAt(t)
  {
    assert t[1..] == " " + word && t[1..][1] == word[0];
    SpaceRunOfOne(t[1..]);
    assert t[1..][1..] == word;
  }

  /** The remastered step leaves `base + " - " + word` alone when `word` is `explicit`
      in any case. */
  lemma ExplicitKeepsRemastered(base: string, word: string, s: string)
    requires IsTrimmed(s) && OnlyHyphenAt(s, |base| + 1) && |base| + 1 < |s|
    requires s[|base| + 1..] == "- " + word && |word| == 8 && !IsSpace(word[0])
    ensures CutAndTrim(s, RemasteredAt) == s
  {
    NoMatchExceptAt(s, |base| + 1);
    ShortWordNotRemastered(s[|base| + 1..], word);
    CutAndTrimNoMatch(s, RemasteredAt);
  }

  /** The explicit step cuts `base + " - " + word` back to `base`. */
  lemma ExplicitCut(base: string, word: string, s: string)
    requires IsTrimmed(base) && OnlyHyphenAt(s, |base| + 1) && |base| + 1 < |s|
    requires s[..|base| + 1] == base + " " && s[|base| + 1..] == "- " + word
    requires |word| == 8 && LowerString(word) == "explicit" && !IsSpace(word[0])
    ensures CutAndTrim(s, ExplicitAt) == base
  {
    NoMatchExceptAt(s, |base| + 1);
    ExplicitMarker(s[|base| + 1..], word);
    MarkerStep(base, s, ExplicitAt);
  }

  /** A trailing `- Explicit` marker, in any letter case, is dropped with the space
      before it. */
  lemma CleanTrackNameDropsExplicit(base: string, word: string)
    requires base != [] && IsTrimmed(base) && '(' !in base && '[' !in base && '-' !in base
    requires |word| == 8 && LowerString(word) == "explicit"
    ensures CleanTrackName(base + " - " + word) == base
  {
    var s := base + " - " + word;
    MarkerWordsAreLetters();
    LettersOfLower(word, "explicit");
    LettersAreNotMarks(word);
    MarkerNameShape(base, word, s);
    RemoveBracketGroupsNone(s);
    OnlyMarkerHyphen(base, word, s);
    ExplicitKeepsRemastered(base, word, s);
    ExplicitCut(base, word, s);
    NoHyphenNoCut(base);
  }

  /** Before the dangling-hyphen step, no marker pattern matches `base + gap + "-"`. */
  lemma DanglingKeepsMarkers(s: string)
    requires IsTrimmed(s) && s != [] && OnlyHyphenAt(s, |s| - 1)
    ensures CutAndTrim(s, RemasteredAt) == s && CutAndTrim(s, ExplicitAt) == s && CutAndTrim(s, RadioEditAt) == s
  {
    var p := |s| - 1;
    NoMatchExceptAt(s, p);
    assert s[p..][1..] == [];
    assert !RemasteredAt(s[p..]) && !ExplicitAt(s[p..]) && !RadioEditAt(s[p..]);
    CutAndTrimNoMatch(s, RemasteredAt);
    CutAndTrimNoMatch(s, ExplicitAt);
    CutAndTrimNoMatch(s, RadioEditAt);
  }

  /** The dangling-hyphen step cuts `base + gap + "-"` back to `base`. */
  lemma DanglingCut(base: string, gap: string, s: string)
    requires base != [] && IsTrimmed(base) && '-' !in base
    requires gap != [] && AllSpace(gap)
    requires |base| < |s| && s[..|base|] == base && s[|base|..] == gap + "-"
    ensures CutAndTrim(s, DanglingHyphenAt) == base
  {
    forall q | 0 <= q < |base| ensures !DanglingHyphenAt(s[q..]) {
      NoDanglingHyphenInside(base, s, q);
    }
    DanglingAtGap(s[|base|..], gap);
    CutAtKnownMatch(s, DanglingHyphenAt, |base|);
  }

  /** A hyphen left dangling at the end after white space, as a removed bracketed
      remark after ` - ` leaves it, is dropped with that white space. */
  lemma CleanTrackNameDropsDanglingHyphen(base: string, gap: string)
    requires base != [] && IsTrimmed(base) && '(' !in base && '[' !in base && '-' !in base
    requires gap != [] && AllSpace(gap)
    ensures CleanTrackName(base + gap + "-") == base
  {
    var s := base + gap + "-";
    DanglingNameShape(base, gap, s);
    RemoveBracketGroupsNone(s);
    DanglingKeepsMarkers(s);
    DanglingCut(base, gap, s);
  }

  /** The shape of `base + gap + "-"`: trimmed, bracket-free, and its only hyphen
      is the last character. */
  lemma DanglingNameShape(base: string, gap: string, s: string)
    requires base != [] && IsTrimmed(base) && '(' !in base && '[' !in base && '-' !in base
    requires AllSpace(gap)
    requires s == base + gap + "-"
    ensures IsTrimmed(s) && '(' !in s && '[' !in s
    ensures OnlyHyphenAt(s, |s| - 1)
    ensures s[..|base|] == base && s[|base|..] == gap + "-" && s[|s| - 1..] == "-"
  {
    assert forall k :: 0 <= k < |s| ==> s[k] == (if k < |base| then base[k] else (gap + "-")[k - |base|]);
    assert s[0] == base[0];
  }

  /** Non-empty white space and a closing hyphen match the dangling-hyphen pattern. */
  lemma DanglingAtGap(t: string, gap: string)
    requires gap != [] && AllSpace(gap) && t == gap + "-"
    ensures DanglingHyphenAt(t)
  {
    GapRun(t, gap);
    assert t[|gap|] == '-' && t[|gap| + 1..] == [];
  }

  /** White space followed by a hyphen is a run exactly as long as the white space. */
  lemma GapRun(t: string, gap: string)
    requires AllSpace(gap) && t == gap + "-"
    ensures SpaceRun(t) == |gap|
  {
    assert t[|gap|] == '-' && t[..|gap|] == gap;
  }

  /** No dangling-hyphen match starts inside a trimmed, hyphen-free `base`. */
  lemma NoDanglingHyphenInside(base: string, s: string, q: nat)
    requires base != [] && IsTrimmed(base) && '-' !in base
    requires |base| <= |s| && s[..|base|] == base && q < |base|
    ensures !DanglingHyphenAt(s[q..])
  {
    var t := s[q..];
    var n := SpaceRun(t);
    var last := |base| - 1 - q;
    if n <= last {
      assert t[n] == base[q + n];
    }
  }

  /** The retry for `"Yesterday (Remastered 2009)"` searches for `"Yesterday"`. */
  lemma CleanTrackNameExample(name: string)
    requires name == "Yesterday (Remastered 2009)"
    ensures CleanTrackName(name) == "Yesterday"
  {
    var base, group := "Yesterday", "Remastered 2009";
    assert name == base + " (" + group + ")";
    CleanTrackNameExampleParts(base, group);
  }

  /** The example assembled from its title and its bracketed remark. */
  lemma CleanTrackNameExampleParts(base: string, group: string)
    requires base == "Yesterday" && group == "Remastered 2009"
    ensures CleanTrackName(base + " (" + group + ")") == base
  {
    assert IsTrimmed(base) && '(' !in base && '[' !in base && '-' !in base && ')' !in group;
    CleanTrackNameDropsGroup(base, group);
  }
}
