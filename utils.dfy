/** Match scoring: unit-cost edit distance, the length-normalised similarity built
    on it, and the weighted title/artist/duration confidence score with its three
    explanatory reasons. Arithmetic is exact (`real`), not IEEE-754. */
module Scoring {
  import opened Builtins
  import opened Types

  function Min(x: nat, y: nat): nat { if x <= y then x else y }

  /** The unit-cost edit-distance recurrence: `Cell(a, b, j, i)` is the distance
      between the prefixes `a[..j]` and `b[..i]`, the value the matrix holds in row
      `i`, column `j`. */
  function Cell(a: string, b: string, j: nat, i: nat): nat
    requires j <= |a| && i <= |b|
    decreases i + j
  {
    if j == 0 then i
    else if i == 0 then j
    else if b[i - 1] == a[j - 1] then Cell(a, b, j - 1, i - 1)
    else 1 + Min(Cell(a, b, j - 1, i - 1), Min(Cell(a, b, j - 1, i), Cell(a, b, j, i - 1)))
  }

  /** Unit-cost edit distance (insert, delete, substitute) between two strings. */
  function EditDistance(a: string, b: string): nat {
    Cell(a, b, |a|, |b|)
  }

  /** A cell never exceeds the longer prefix length (substitute, then insert or delete). */
  lemma {:induction false} CellAtMostLonger(a: string, b: string, j: nat, i: nat)
    requires j <= |a| && i <= |b|
    ensures Cell(a, b, j, i) <= if j >= i then j else i
    decreases i + j
  {
    if j > 0 && i > 0 {
      CellAtMostLonger(a, b, j - 1, i - 1);
    }
  }

  /** A cell is zero exactly when the two prefixes are equal. */
  lemma {:induction false} CellZeroIff(a: string, b: string, j: nat, i: nat)
    requires j <= |a| && i <= |b|
    ensures Cell(a, b, j, i) == 0 <==> a[..j] == b[..i]
    decreases i + j
  {
    if j > 0 && i > 0 {
      CellZeroIff(a, b, j - 1, i - 1);
      assert a[..j] == a[..j - 1] + [a[j - 1]] && b[..i] == b[..i - 1] + [b[i - 1]];
      if a[..j] == b[..i] {
        assert a[..j][..j - 1] == b[..i][..i - 1];
      }
    }
  }

  /** Swapping the strings transposes the matrix. */
  lemma {:induction false} CellTranspose(a: string, b: string, j: nat, i: nat)
    requires j <= |a| && i <= |b|
    ensures Cell(a, b, j, i) == Cell(b, a, i, j)
    decreases i + j
  {
    if j > 0 && i > 0 {
      CellTranspose(a, b, j - 1, i - 1);
      if b[i - 1] != a[j - 1] {
        CellTranspose(a, b, j - 1, i);
        CellTranspose(a, b, j, i - 1);
      }
    }
  }

  /** The distance never exceeds the longer length. */
  lemma EditDistanceAtMostLonger(a: string, b: string)
    ensures EditDistance(a, b) <= if |a| >= |b| then |a| else |b|
  {
    CellAtMostLonger(a, b, |a|, |b|);
  }

  /** Distance zero exactly for equal strings. */
  lemma EditDistanceZeroIff(a: string, b: string)
    ensures EditDistance(a, b) == 0 <==> a == b
  {
    CellZeroIff(a, b, |a|, |b|);
    assert a[..|a|] == a && b[..|b|] == b;
  }

  /** The distance does not depend on argument order. */
  lemma EditDistanceSymmetric(a: string, b: string)
    ensures EditDistance(a, b) == EditDistance(b, a)
  {
    CellTranspose(a, b, |a|, |b|);
  }

  /** Against an empty string the distance is the other string's length: every
      character is inserted or deleted. */
  lemma EditDistanceOfEmpty(s: string)
    ensures EditDistance("", s) == |s| && EditDistance(s, "") == |s|
  {
  }

  /** `levenshteinDistance`: fills the (|b|+1) x (|a|+1) matrix row by row and
      returns its last cell; an empty side returns the other side's length. */
  method LevenshteinDistance(a: string, b: string) returns (d: nat)
    ensures d == EditDistance(a, b)
  {
    if |a| == 0 { return |b|; }
    if |b| == 0 { return |a|; }
    var matrix := new nat[|b| + 1, |a| + 1];
    var i := 0;
    while i <= |b|
      invariant 0 <= i <= |b| + 1
      invariant forall k :: 0 <= k < i ==> matrix[k, 0] == k
    {
      matrix[i, 0] := i;
      i := i + 1;
    }
    var j := 0;
    while j <= |a|
      invariant 0 <= j <= |a| + 1
      invariant forall l :: 0 <= l < j ==> matrix[0, l] == l
      invariant forall k :: 1 <= k <= |b| ==> matrix[k, 0] == k
    {
      matrix[0, j] := j;
      j := j + 1;
    }
    i := 1;
    while i <= |b|
      invariant 1 <= i <= |b| + 1
      invariant forall k, l {:trigger matrix[k, l]} :: 0 <= k < i && 0 <= l <= |a| ==> matrix[k, l] == Cell(a, b, l, k)
      invariant forall k :: i <= k <= |b| ==> matrix[k, 0] == k
    {
      FillRow(matrix, a, b, i);
      i := i + 1;
    }
    d := matrix[|b|, |a|];
  }

  /** One row of the matrix: each cell from its diagonal, left and upper neighbours;
      no other row changes. */
  method FillRow(matrix: array2<nat>, a: string, b: string, i: nat)
    requires matrix.Length0 == |b| + 1 && matrix.Length1 == |a| + 1
    requires 1 <= i <= |b|
    requires forall l {:trigger matrix[i - 1, l]} :: 0 <= l <= |a| ==> matrix[i - 1, l] == Cell(a, b, l, i - 1)
    requires matrix[i, 0] == i
    modifies matrix
    ensures forall l :: 0 <= l <= |a| ==> matrix[i, l] == Cell(a, b, l, i)
    ensures forall k, l {:trigger matrix[k, l]} :: 0 <= k <= |b| && 0 <= l <= |a| && k != i ==> matrix[k, l] == old(matrix[k, l])
  {
    var j := 1;
    while j <= |a|
      invariant 1 <= j <= |a| + 1
      invariant forall l {:trigger matrix[i, l]} :: 0 <= l < j ==> matrix[i, l] == Cell(a, b, l, i)
      invariant forall k, l {:trigger matrix[k, l]} :: 0 <= k <= |b| && 0 <= l <= |a| && k != i ==> matrix[k, l] == old(matrix[k, l])
    {
      var diagonal, left, up := matrix[i - 1, j - 1], matrix[i, j - 1], matrix[i - 1, j];
      assert diagonal == Cell(a, b, j - 1, i - 1) && left == Cell(a, b, j - 1, i) && up == Cell(a, b, j, i - 1);
      if b[i - 1] == a[j - 1] {
        matrix[i, j] := diagonal;
      } else {
        matrix[i, j] := Min(diagonal + 1, Min(left + 1, up + 1));
      }
      assert matrix[i, j] == Cell(a, b, j, i);
      j := j + 1;
    }
  }

  /** `part / whole` for a part that is at most the whole: a number in [0, 1] that is
      1 exactly when the part is the whole. */
  function Fraction(part: nat, whole: nat): (r: real)
    requires 0 < whole && part <= whole
    ensures 0.0 <= r <= 1.0
    ensures r == 1.0 <==> part == whole
  {
    var r := part as real / whole as real;
    assert r * whole as real == part as real;
    r
  }

  /** `calculateSimilarity`: 0 when either string is empty, otherwise one minus the
      case-insensitive edit distance divided by the longer length. */
  function Similarity(s1: string, s2: string): real
  {
    if s1 == "" || s2 == "" then 0.0
    else if |s1| > |s2| then Ratio(s1, s2)
    else Ratio(s2, s1)
  }

  /** The similarity of a longer and a shorter string. */
  function Ratio(longer: string, shorter: string): real
    requires |shorter| <= |longer|
  {
    if |longer| == 0 then 1.0
    else
      var distance := EditDistance(LowerString(longer), LowerString(shorter));
      EditDistanceAtMostLonger(LowerString(longer), LowerString(shorter));
      Fraction(|longer| - distance, |longer|)
  }

  /** An empty side always scores 0: the `longer.length === 0` branch is never taken. */
  lemma SimilarityOfEmpty(s: string)
    ensures Similarity(s, "") == 0.0 && Similarity("", s) == 0.0
  {
  }

  /** Similarity lies in [0, 1]. */
  lemma SimilarityInUnitInterval(s1: string, s2: string)
    ensures 0.0 <= Similarity(s1, s2) <= 1.0
  {
  }

  /** For non-empty strings, similarity is 1 exactly when they are equal up to case. */
  lemma SimilarityOneIff(s1: string, s2: string)
    requires s1 != "" && s2 != ""
    ensures Similarity(s1, s2) == 1.0 <==> LowerString(s1) == LowerString(s2)
  {
    var longer := if |s1| > |s2| then s1 else s2;
    var shorter := if |s1| > |s2| then s2 else s1;
    EditDistanceZeroIff(LowerString(longer), LowerString(shorter));
  }

  /** Similarity does not depend on argument order. */
  lemma SimilaritySymmetric(s1: string, s2: string)
    ensures Similarity(s1, s2) == Similarity(s2, s1)
  {
    if s1 != "" && s2 != "" && |s1| == |s2| {
      EditDistanceSymmetric(LowerString(s1), LowerString(s2));
    }
  }

  /** `calculateSimilarity` run on the matrix-filling distance. */
  method CalculateSimilarity(s1: string, s2: string) returns (r: real)
    ensures r == Similarity(s1, s2)
  {
    if s1 == "" || s2 == "" { return 0.0; }
    var longer := if |s1| > |s2| then s1 else s2;
    var shorter := if |s1| > |s2| then s2 else s1;
    // calculateSimilarity's `longer.length === 0` branch is dead here: both strings are non-empty
    var lowerLonger, lowerShorter := LowerString(longer), LowerString(shorter);
    var distance := LevenshteinDistance(lowerLonger, lowerShorter);
    EditDistanceAtMostLonger(lowerLonger, lowerShorter);
    r := Fraction(|longer| - distance, |longer|);
  }

  const TitleWeight: real := 0.5
  const ArtistWeight: real := 0.3
  const DurationWeight: real := 0.2

  /** What the scorer is told about the wanted song; `None` is an absent duration. */
  datatype Query = Query(trackName: string, artistName: string, duration: Option<int>)

  /** Both durations are truthy: present and non-zero. */
  predicate DurationsKnown(query: Query, track: LrcLibTrack) {
    query.duration.Some? && query.duration.value != 0 && track.duration != 0
  }

  function DurationDelta(query: Query, track: LrcLibTrack): nat
    requires query.duration.Some?
  {
    Abs(query.duration.value - track.duration)
  }

  /** Linear decay: full credit at equal durations, none from ten seconds apart. */
  function DurationScore(delta: nat): (r: real)
    ensures 0.0 <= r <= 1.0
    ensures r == 1.0 <==> delta == 0
    ensures delta >= 10 ==> r == 0.0
  {
    MaxReal(0.0, 1.0 - delta as real / 10.0)
  }

  function TitleReason(titleSim: real): string {
    if titleSim > 0.9 then "Title is an exact or near-exact match."
    else if titleSim > 0.7 then "Title is a close match."
    else "Title mismatch detected (" + IntToString(Round(titleSim * 100.0)) + "% match)."
  }

  function ArtistReason(artistSim: real): string {
    if artistSim > 0.9 then "Artist match confirmed."
    else if artistSim > 0.5 then "Artist name is similar."
    else "Artist name differs significantly."
  }

  function DurationReason(delta: nat): string {
    if delta <= 2 then "Duration matches perfectly (±" + NatToString(delta) + "s)."
    else if delta <= 5 then "Duration is close (±" + NatToString(delta) + "s)."
    else "Significant duration difference (" + NatToString(delta) + "s)."
  }

  const SkippedReason: string := "Duration comparison skipped (missing data)."

  /** The score before clamping, given the two similarities: the weighted sum over
      three signals, or the title and artist terms renormalised over their weights. */
  function ScoreOf(titleSim: real, artistSim: real, query: Query, track: LrcLibTrack): real {
    if DurationsKnown(query, track) then
      TitleWeight * titleSim + ArtistWeight * artistSim + DurationWeight * DurationScore(DurationDelta(query, track))
    else (TitleWeight * titleSim + ArtistWeight * artistSim) / (TitleWeight + ArtistWeight)
  }

  /** The result assembled from the two similarities: the candidate itself, the
      clamped score and the title, artist and duration reasons in that order. */
  function ConfidenceOf(titleSim: real, artistSim: real, query: Query, track: LrcLibTrack): (m: MatchResult)
    ensures m.track == track
    ensures 0.0 <= m.confidenceScore <= 1.0
    ensures |m.confidenceReasons| == 3
  {
    MatchResult(
      track,
      MinReal(1.0, MaxReal(0.0, ScoreOf(titleSim, artistSim, query, track))),
      [TitleReason(titleSim), ArtistReason(artistSim),
       if DurationsKnown(query, track) then DurationReason(DurationDelta(query, track)) else SkippedReason])
  }

  function RawScore(query: Query, track: LrcLibTrack): real {
    ScoreOf(Similarity(query.trackName, track.trackName), Similarity(query.artistName, track.artistName), query, track)
  }

  /** The confidence result the scorer promises for a query and a candidate. */
  function Confidence(query: Query, track: LrcLibTrack): (m: MatchResult)
    ensures m.track == track
    ensures 0.0 <= m.confidenceScore <= 1.0
    ensures |m.confidenceReasons| == 3
  {
    ConfidenceOf(Similarity(query.trackName, track.trackName), Similarity(query.artistName, track.artistName), query, track)
  }

  /** `calculateConfidence`: the title and artist similarities feed the step-by-step
      accumulation of the score and the reasons. */
  method CalculateConfidence(query: Query, result: LrcLibTrack) returns (m: MatchResult)
    ensures m == Confidence(query, result)
  {
    var titleSim := CalculateSimilarity(query.trackName, result.trackName);
    var artistSim := CalculateSimilarity(query.artistName, result.artistName);
    m := AccumulateConfidence(titleSim, artistSim, query, result);
  }

  /** The body of `calculateConfidence` once the similarities are known: adds each
      weighted signal to the running score and pushes one reason per signal; a missing
      duration replaces the running score by the renormalised one. */
  method AccumulateConfidence(titleSim: real, artistSim: real, query: Query, result: LrcLibTrack)
    returns (m: MatchResult)
    ensures m == ConfidenceOf(titleSim, artistSim, query, result)
  {
    var reasons: seq<string> := [];

    var score := titleSim * TitleWeight;
    var reason := DescribeTitle(titleSim);
    reasons := reasons + [reason];

    score := score + artistSim * ArtistWeight;
    reason := DescribeArtist(artistSim);
    reasons := reasons + [reason];

    if query.duration.Some? && query.duration.value != 0 && result.duration != 0 {
      var delta := Abs(query.duration.value - result.duration);
      var durationScore := MaxReal(0.0, 1.0 - delta as real / 10.0);
      score := score + durationScore * DurationWeight;
      reason := DescribeDuration(delta);
      reasons := reasons + [reason];
      assert score == ScoreOf(titleSim, artistSim, query, result);
      assert reasons == [TitleReason(titleSim), ArtistReason(artistSim), DurationReason(delta)];
    } else {
      var remainingWeight := TitleWeight + ArtistWeight;
      score := (titleSim * TitleWeight + artistSim * ArtistWeight) / remainingWeight;
      reasons := reasons + [SkippedReason];
      assert score == ScoreOf(titleSim, artistSim, query, result);
      assert reasons == [TitleReason(titleSim), ArtistReason(artistSim), SkippedReason];
    }

    m := MatchResult(result, MinReal(1.0, MaxReal(0.0, score)), reasons);
  }

  /** The title reason, chosen by the thresholds 0.9 and 0.7. */
  method DescribeTitle(titleSim: real) returns (reason: string)
    ensures reason == TitleReason(titleSim)
  {
    if titleSim > 0.9 {
      reason := "Title is an exact or near-exact match.";
    } else if titleSim > 0.7 {
      reason := "Title is a close match.";
    } else {
      reason := "Title mismatch detected (" + IntToString(Round(titleSim * 100.0)) + "% match).";
    }
  }

  /** The artist reason, chosen by the thresholds 0.9 and 0.5. */
  method DescribeArtist(artistSim: real) returns (reason: string)
    ensures reason == ArtistReason(artistSim)
  {
    if artistSim > 0.9 {
      reason := "Artist match confirmed.";
    } else if artistSim > 0.5 {
      reason := "Artist name is similar.";
    } else {
      reason := "Artist name differs significantly.";
    }
  }

  /** The duration reason, chosen by the thresholds of two and five seconds. */
  method DescribeDuration(delta: nat) returns (reason: string)
    ensures reason == DurationReason(delta)
  {
    if delta <= 2 {
      reason := "Duration matches perfectly (±" + NatToString(delta) + "s).";
    } else if delta <= 5 {
      reason := "Duration is close (±" + NatToString(delta) + "s).";
    } else {
      reason := "Significant duration difference (" + NatToString(delta) + "s).";
    }
  }

  /** The weights sum to one, so the unclamped score already lies in [0, 1] and the
      clamp never changes it. */
  lemma {:induction false} RawScoreInUnitInterval(query: Query, track: LrcLibTrack)
    ensures 0.0 <= RawScore(query, track) <= 1.0
    ensures Confidence(query, track).confidenceScore == RawScore(query, track)
  {
    SimilarityInUnitInterval(query.trackName, track.trackName);
    SimilarityInUnitInterval(query.artistName, track.artistName);
  }

  /** With both durations known the score is the three-term weighted sum; the third
      reason reports the duration bucket. */
  lemma ConfidenceWithDuration(query: Query, track: LrcLibTrack)
    requires DurationsKnown(query, track)
    ensures Confidence(query, track).confidenceScore
      == 0.5 * Similarity(query.trackName, track.trackName)
       + 0.3 * Similarity(query.artistName, track.artistName)
       + 0.2 * DurationScore(Abs(query.duration.value - track.duration))
    ensures Confidence(query, track).confidenceReasons[2]
      == DurationReason(Abs(query.duration.value - track.duration))
  {
    RawScoreInUnitInterval(query, track);
  }

  /** Without a usable duration the score is the title and artist terms renormalised
      over 0.8, and the third reason says the comparison was skipped. */
  lemma ConfidenceWithoutDuration(query: Query, track: LrcLibTrack)
    requires !DurationsKnown(query, track)
    ensures Confidence(query, track).confidenceScore
      == (0.5 * Similarity(query.trackName, track.trackName)
        + 0.3 * Similarity(query.artistName, track.artistName)) / 0.8
    ensures Confidence(query, track).confidenceReasons[2] == SkippedReason
  {
    RawScoreInUnitInterval(query, track);
  }

  /** The reasons come in the fixed order title, artist, duration, each chosen by
      its threshold bucket. */
  lemma ConfidenceReasonOrder(query: Query, track: LrcLibTrack)
    ensures var reasons := Confidence(query, track).confidenceReasons;
      var titleSim := Similarity(query.trackName, track.trackName);
      var artistSim := Similarity(query.artistName, track.artistName);
      && (titleSim > 0.9 ==> reasons[0] == "Title is an exact or near-exact match.")
      && (0.7 < titleSim <= 0.9 ==> reasons[0] == "Title is a close match.")
      && (titleSim <= 0.7 ==> reasons[0] == "Title mismatch detected (" + IntToString(Round(titleSim * 100.0)) + "% match).")
      && (artistSim > 0.9 ==> reasons[1] == "Artist match confirmed.")
      && (0.5 < artistSim <= 0.9 ==> reasons[1] == "Artist name is similar.")
      && (artistSim <= 0.5 ==> reasons[1] == "Artist name differs significantly.")
  {
  }

  /** The worked example: the same title and artist (up to case) and durations one
      second apart score 0.5 + 0.3 + 0.2 * 0.9 = 0.98. */
  lemma ConfidenceWorkedExample(query: Query, track: LrcLibTrack)
    requires query.trackName != "" && LowerString(query.trackName) == LowerString(track.trackName)
    requires query.artistName != "" && LowerString(query.artistName) == LowerString(track.artistName)
    requires query.duration == Some(200) && track.duration == 201
    ensures Confidence(query, track).confidenceScore == 0.98
    ensures Confidence(query, track).confidenceReasons
      == ["Title is an exact or near-exact match.", "Artist match confirmed.", "Duration matches perfectly (±1s)."]
  {
    assert track.trackName != "" && track.artistName != "";
    SimilarityOneIff(query.trackName, track.trackName);
    SimilarityOneIff(query.artistName, track.artistName);
    ConfidenceWithDuration(query, track);
    assert DurationDelta(query, track) == 1;
    assert DurationReason(1) == "Duration matches perfectly (±1s).";
    var m := Confidence(query, track);
    assert m == ConfidenceOf(1.0, 1.0, query, track);
    assert m.confidenceReasons == [TitleReason(1.0), ArtistReason(1.0), DurationReason(1)];
  }
}
