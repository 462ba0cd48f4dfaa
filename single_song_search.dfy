/** The single-song search page: the filter check before a search, the query sent
    to the resolver (disabled fields blanked), the query scored against the match
    (all fields, no zero duration) and the recent-search history, newest first,
    one entry per song, at most ten. */
module SingleSongSearch {
  import opened Builtins
  import opened Types
  import Scoring
  import LrcService

  /** A recent search as the page keeps it; the duration is the text typed in. */
  datatype HistoryItem = HistoryItem(
    trackName: string,
    artistName: string,
    albumName: string,
    duration: string,
    timestamp: int)

  /** Two history entries are for the same song when track and artist agree. */
  predicate SameSong(a: HistoryItem, b: HistoryItem) {
    a.trackName == b.trackName && a.artistName == b.artistName
  }

  const HistoryLimit: nat := 10

  /** The filter's test: an entry for another song than `item`. */
  function OtherSong(item: HistoryItem): HistoryItem -> bool {
    x => !SameSong(x, item)
  }

  /** The older entries that survive the filter: those for another song, in order. */
  function Others(history: seq<HistoryItem>, item: HistoryItem): (r: seq<HistoryItem>)
    ensures |r| <= |history|
    ensures forall k :: 0 <= k < |r| ==> !SameSong(r[k], item)
  {
    Filter(history, OtherSong(item))
  }

  /** `saveToHistory`: the new entry first, then the older entries for other songs,
      cut to ten. */
  function SaveToHistory(history: seq<HistoryItem>, item: HistoryItem): (r: seq<HistoryItem>)
    ensures 1 <= |r| <= HistoryLimit && r[0] == item
    ensures |r| == if 1 + |Others(history, item)| <= HistoryLimit then 1 + |Others(history, item)| else HistoryLimit
    ensures forall k :: 1 <= k < |r| ==> !SameSong(r[k], item)
    ensures r[1..] == Others(history, item)[..|r| - 1]
  {
    var all := [item] + Others(history, item);
    var r := if |all| <= HistoryLimit then all else all[..HistoryLimit];
    assert r[1..] == Others(history, item)[..|r| - 1];
    r
  }

  /** A history with no song twice. */
  predicate Unique(history: seq<HistoryItem>) {
    forall i, j :: 0 <= i < j < |history| ==> !SameSong(history[i], history[j])
  }

  lemma {:induction false} OthersUnique(history: seq<HistoryItem>, item: HistoryItem)
    requires Unique(history)
    ensures Unique(Others(history, item))
  {
    if history != [] {
      var rest := history[1..];
      assert Unique(rest) by {
        forall i, j | 0 <= i < j < |rest| ensures !SameSong(rest[i], rest[j]) {
          assert rest[i] == history[i + 1] && rest[j] == history[j + 1];
        }
      }
      OthersUnique(rest, item);
      FilterStep(history, OtherSong(item));
      if !SameSong(history[0], item) {
        var o := Others(rest, item);
        forall k | 0 <= k < |o| ensures !SameSong(history[0], o[k]) {
          FilterMembers(rest, OtherSong(item), o[k]);
          var q :| 0 <= q < |rest| && rest[q] == o[k];
          assert history[q + 1] == o[k];
        }
      }
    }
  }

  /** Saving keeps a history free of repeated songs. */
  lemma SaveKeepsUnique(history: seq<HistoryItem>, item: HistoryItem)
    requires Unique(history)
    ensures Unique(SaveToHistory(history, item))
  {
    var r := SaveToHistory(history, item);
    var o := Others(history, item);
    OthersUnique(history, item);
    forall i, j | 0 <= i < j < |r| ensures !SameSong(r[i], r[j]) {
      if i > 0 {
        assert r[i] == o[i - 1] && r[j] == o[j - 1];
      }
    }
  }

  /** Searching for the same song twice in a row leaves the history as the first
      search left it. */
  lemma SaveTwice(history: seq<HistoryItem>, item: HistoryItem)
    ensures SaveToHistory(SaveToHistory(history, item), item) == SaveToHistory(history, item)
  {
    var r := SaveToHistory(history, item);
    var rest := r[1..];
    assert r == [item] + rest;
    FilterAppend([item], rest, OtherSong(item));
    FilterStep([item], OtherSong(item));
    assert Others([item], item) == [] + Others([], item);
    FilterAll(rest, OtherSong(item));
  }

  /** Which fields take part in the search. */
  datatype Filters = Filters(useTrackName: bool, useArtistName: bool, useAlbumName: bool)

  /** The form's text fields. */
  datatype Inputs = Inputs(trackName: string, artistName: string, albumName: string, duration: string)

  /** Some enabled field has text in it. */
  predicate HasValidFilter(filters: Filters, inputs: Inputs) {
    (filters.useTrackName && inputs.trackName != [])
    || (filters.useArtistName && inputs.artistName != [])
    || (filters.useAlbumName && inputs.albumName != [])
  }

  /** What the resolver is asked: disabled fields are sent empty. */
  datatype Lookup = Lookup(trackName: string, artistName: string, albumName: string, duration: int)

  /** The outcome of submitting the form. */
  datatype Outcome =
    | Rejected
    | Searched(sent: Lookup, result: Option<MatchResult>, history: seq<HistoryItem>)

  /** `handleSubmit`. `parseDuration` stands for `parseInt` on the duration text, and
      `now` for the clock reading kept with a saved search. */
  function Submit(store: LrcService.LyricsStore, strategy: SearchStrategy, filters: Filters, inputs: Inputs,
                  parseDuration: string -> int, now: int, history: seq<HistoryItem>): (o: Outcome)
    ensures o.Rejected? <==> !HasValidFilter(filters, inputs)
    ensures o.Searched? && o.result.None? ==> o.history == history
    ensures o.Searched? && o.result.Some? ==> (1 <= |o.history| <= HistoryLimit
      && o.history[0].trackName == inputs.trackName && o.history[0].artistName == inputs.artistName)
  {
    if !HasValidFilter(filters, inputs) then Rejected
    else
      var durationSec := if inputs.duration != [] then parseDuration(inputs.duration) else 0;
      var sent := Lookup(
        if filters.useTrackName then inputs.trackName else "",
        if filters.useArtistName then inputs.artistName else "",
        if filters.useAlbumName then inputs.albumName else "",
        durationSec);
      match LrcService.FindBestMatch(store, sent.trackName, sent.artistName, sent.albumName, sent.duration, strategy)
      case None => Searched(sent, None, history)
      case Some(track) =>
        var query := Scoring.Query(inputs.trackName, inputs.artistName,
          if durationSec != 0 then Some(durationSec) else None);
        var item := HistoryItem(inputs.trackName, inputs.artistName, inputs.albumName, inputs.duration, now);
        Searched(sent, Some(Scoring.Confidence(query, track)), SaveToHistory(history, item))
  }

  /** A search goes out exactly when the resolver would be asked something: some
      field of the query sent is non-empty. */
  lemma SubmitSendsSomething(store: LrcService.LyricsStore, strategy: SearchStrategy, filters: Filters,
                             inputs: Inputs, parseDuration: string -> int, now: int, history: seq<HistoryItem>)
    ensures var o := Submit(store, strategy, filters, inputs, parseDuration, now, history);
      o.Searched? ==> (o.sent.trackName != [] || o.sent.artistName != [] || o.sent.albumName != [])
  {
  }

  /** The query sent: enabled fields as typed, disabled ones empty, the duration
      parsed from its text or 0 when there is none; the match is scored against every
      field as typed, with a zero duration treated as absent, and the history is
      saved with the search exactly when there is a match. */
  lemma SubmitQueries(store: LrcService.LyricsStore, strategy: SearchStrategy, filters: Filters,
                      inputs: Inputs, parseDuration: string -> int, now: int, history: seq<HistoryItem>)
    requires HasValidFilter(filters, inputs)
    ensures var o := Submit(store, strategy, filters, inputs, parseDuration, now, history);
      var d := if inputs.duration != [] then parseDuration(inputs.duration) else 0;
      && (o.sent.trackName == if filters.useTrackName then inputs.trackName else [])
      && (o.sent.artistName == if filters.useArtistName then inputs.artistName else [])
      && (o.sent.albumName == if filters.useAlbumName then inputs.albumName else [])
      && o.sent.duration == d
      && (o.result.Some? ==>
            var query := Scoring.Query(inputs.trackName, inputs.artistName, if d == 0 then None else Some(d));
            && o.result.value == Scoring.Confidence(query, o.result.value.track)
            && o.history == SaveToHistory(history,
                 HistoryItem(inputs.trackName, inputs.artistName, inputs.albumName, inputs.duration, now)))
      && (o.result.Some? <==> LrcService.FindBestMatch(store, o.sent.trackName, o.sent.artistName,
                                o.sent.albumName, o.sent.duration, strategy).Some?)
  {
  }
}
