/** The lyrics-store client: the direct lookup (`getLyrics`), the free-text search
    (`searchLyrics`) and the decision procedure that combines them (`findBestMatch`).
    The store itself is an oracle: a pair of functions from a request to a reply. */
module LrcService {
  import opened Builtins
  import opened Types

  /** The two direct-lookup endpoints: `/get` may consult external sources, `/get-cached`
      answers from the store's cache only. */
  datatype Endpoint = Get | GetCached

  /** One query-string parameter, in the order it was appended. */
  datatype Param = Param(key: string, value: string)

  /** What a request yields: an HTTP status with the decoded body (`None` when the body
      does not decode), or a failure before any response arrived. */
  datatype Reply<T> = Reply(status: int, body: Option<T>) | NetworkFailure

  /** The lyrics store as seen by the client: one function per kind of request. */
  datatype LyricsStore = LyricsStore(
    lookup: (Endpoint, seq<Param>) -> Reply<LrcLibTrack>,
    search: seq<Param> -> Reply<seq<LrcLibTrack>>)

  /** `response.ok`: a 2xx status. */
  predicate IsOk(status: int) { 200 <= status <= 299 }

  /** The endpoint of a direct lookup: decided by `tryExternal` alone. */
  function LookupEndpoint(strategy: SearchStrategy): Endpoint {
    if strategy.tryExternal then Get else GetCached
  }

  /** The value sent under `key`, if any (the first occurrence). */
  function ValueOf(params: seq<Param>, key: string): Option<string> {
    if params == [] then None
    else if params[0].key == key then Some(params[0].value)
    else ValueOf(params[1..], key)
  }

  /** The parameters of a direct lookup: track, artist and duration always, then the
      album only when it is non-empty. */
  function LookupParams(trackName: string, artistName: string, albumName: string, duration: int): seq<Param> {
    [Param("track_name", trackName), Param("artist_name", artistName), Param("duration", IntToString(duration))]
      + (if albumName != "" then [Param("album_name", albumName)] else [])
  }

  /** A parameter as `if (value) params.append(...)` treats it: kept only when non-empty. */
  function IfNonEmpty(param: Param): (r: seq<Param>) {
    if param.value != "" then [param] else []
  }

  /** The parameters of a free-text search: each of the four fields in this order,
      dropped when empty. */
  function SearchParams(query: string, trackName: string, artistName: string, albumName: string): seq<Param> {
    IfNonEmpty(Param("q", query)) + IfNonEmpty(Param("track_name", trackName))
      + IfNonEmpty(Param("artist_name", artistName)) + IfNonEmpty(Param("album_name", albumName))
  }

  /** The parameter list of `getLyrics`, appended one entry at a time. */
  method BuildLookupParams(trackName: string, artistName: string, albumName: string, duration: int)
    returns (params: seq<Param>)
    ensures params == LookupParams(trackName, artistName, albumName, duration)
  {
    params := [Param("track_name", trackName), Param("artist_name", artistName), Param("duration", IntToString(duration))];
    if albumName != "" {
      params := params + [Param("album_name", albumName)];
    }
  }

  /** The parameter list of `searchLyrics`, appended one entry at a time. */
  method BuildSearchParams(query: string, trackName: string, artistName: string, albumName: string)
    returns (params: seq<Param>)
    ensures params == SearchParams(query, trackName, artistName, albumName)
  {
    params := [];
    if query != "" { params := params + [Param("q", query)]; }
    if trackName != "" { params := params + [Param("track_name", trackName)]; }
    if artistName != "" { params := params + [Param("artist_name", artistName)]; }
    if albumName != "" { params := params + [Param("album_name", albumName)]; }
  }

  /** A direct lookup always sends track, artist and duration, and sends the album
      exactly when it is non-empty. */
  lemma LookupParamsContents(trackName: string, artistName: string, albumName: string, duration: int)
    ensures var params := LookupParams(trackName, artistName, albumName, duration);
      && ValueOf(params, "track_name") == Some(trackName)
      && ValueOf(params, "artist_name") == Some(artistName)
      && ValueOf(params, "duration") == Some(IntToString(duration))
      && (ValueOf(params, "album_name") == Some(albumName) <==> albumName != "")
      && (ValueOf(params, "album_name") == None <==> albumName == "")
  {
    var params := LookupParams(trackName, artistName, albumName, duration);
    var album := if albumName != "" then [Param("album_name", albumName)] else [];
    assert params[1..][1..][1..] == album;
    assert ValueOf(params[1..][1..], "duration") == Some(IntToString(duration));
    assert ValueOf(params[1..][1..][1..], "album_name") == if albumName != "" then Some(albumName) else None;
    assert ValueOf(params[1..][1..], "album_name") == ValueOf(params[1..][1..][1..], "album_name");
  }

  /** Looking a key up in a concatenation: the front list wins. */
  lemma {:induction false} ValueOfAppend(front: seq<Param>, back: seq<Param>, key: string)
    ensures ValueOf(front + back, key) == if ValueOf(front, key).Some? then ValueOf(front, key) else ValueOf(back, key)
  {
    if front != [] {
      assert (front + back)[1..] == front[1..] + back;
      ValueOfAppend(front[1..], back, key);
    } else {
      assert front + back == back;
    }
  }

  /** A search sends each of its four parameters exactly when it is non-empty, and
      with its own value. */
  lemma SearchParamsContents(query: string, trackName: string, artistName: string, albumName: string)
    ensures var params := SearchParams(query, trackName, artistName, albumName);
      && (ValueOf(params, "q") == (if query == "" then None else Some(query)))
      && (ValueOf(params, "track_name") == (if trackName == "" then None else Some(trackName)))
      && (ValueOf(params, "artist_name") == (if artistName == "" then None else Some(artistName)))
      && (ValueOf(params, "album_name") == (if albumName == "" then None else Some(albumName)))
  {
    SearchParamValue(query, trackName, artistName, albumName, "q");
    SearchParamValue(query, trackName, artistName, albumName, "track_name");
    SearchParamValue(query, trackName, artistName, albumName, "artist_name");
    SearchParamValue(query, trackName, artistName, albumName, "album_name");
  }

  /** The value a search sends under any one key. */
  lemma SearchParamValue(query: string, trackName: string, artistName: string, albumName: string, key: string)
    ensures ValueOf(SearchParams(query, trackName, artistName, albumName), key)
      == if key == "q" && query != "" then Some(query)
         else if key == "track_name" && trackName != "" then Some(trackName)
         else if key == "artist_name" && artistName != "" then Some(artistName)
         else if key == "album_name" && albumName != "" then Some(albumName)
         else None
  {
    var q, t, ar, al := IfNonEmpty(Param("q", query)), IfNonEmpty(Param("track_name", trackName)),
      IfNonEmpty(Param("artist_name", artistName)), IfNonEmpty(Param("album_name", albumName));
    ValueOfFour(q, t, ar, al, key);
  }

  /** No search parameter is sent with an empty value, and at most four are sent. */
  lemma SearchParamsNonEmpty(query: string, trackName: string, artistName: string, albumName: string)
    ensures var params := SearchParams(query, trackName, artistName, albumName);
      |params| <= 4 && forall k :: 0 <= k < |params| ==> params[k].value != ""
  {
  }

  lemma ValueOfFour(q: seq<Param>, t: seq<Param>, ar: seq<Param>, al: seq<Param>, key: string)
    ensures ValueOf(q + t + ar + al, key)
      == if ValueOf(q, key).Some? then ValueOf(q, key)
         else if ValueOf(t, key).Some? then ValueOf(t, key)
         else if ValueOf(ar, key).Some? then ValueOf(ar, key)
         else ValueOf(al, key)
  {
    ValueOfAppend(q + t + ar, al, key);
    ValueOfAppend(q + t, ar, key);
    ValueOfAppend(q, t, key);
  }

  /** `getLyrics`: a 404, any other non-2xx status, a body that does not decode and a
      failed request all give `None`; nothing escapes as an error. */
  function GetLyrics(store: LyricsStore, trackName: string, artistName: string, albumName: string,
                     duration: int, strategy: SearchStrategy): Option<LrcLibTrack>
  {
    match store.lookup(LookupEndpoint(strategy), LookupParams(trackName, artistName, albumName, duration))
    case NetworkFailure => None
    case Reply(status, body) =>
      if status == 404 then None
      else if !IsOk(status) then None
      else body
  }

  /** A lookup yields a track exactly when the store answered 2xx with a decodable
      track, and then it is that track. */
  lemma GetLyricsFound(store: LyricsStore, trackName: string, artistName: string, albumName: string,
                       duration: int, strategy: SearchStrategy, track: LrcLibTrack)
    ensures var reply := store.lookup(LookupEndpoint(strategy), LookupParams(trackName, artistName, albumName, duration));
      GetLyrics(store, trackName, artistName, albumName, duration, strategy) == Some(track)
      <==> reply.Reply? && IsOk(reply.status) && reply.body == Some(track)
  {
  }

  /** `searchLyrics`: a non-2xx status, an undecodable body and a failed request all
      give the empty list. */
  function SearchLyrics(store: LyricsStore, query: string, trackName: string, artistName: string,
                        albumName: string): (r: seq<LrcLibTrack>)
    ensures var reply := store.search(SearchParams(query, trackName, artistName, albumName));
      (reply.Reply? && IsOk(reply.status) && reply.body.Some?) ==> r == reply.body.value
    ensures var reply := store.search(SearchParams(query, trackName, artistName, albumName));
      !(reply.Reply? && IsOk(reply.status) && reply.body.Some?) ==> r == []
  {
    match store.search(SearchParams(query, trackName, artistName, albumName))
    case NetworkFailure => []
    case Reply(status, body) =>
      if !IsOk(status) then []
      else if body.None? then []
      else body.value
  }

  /** A request the resolver made, with what it sent. */
  datatype Call = LookupCall(endpoint: Endpoint, params: seq<Param>) | SearchCall(params: seq<Param>)

  /** The outcome of `findBestMatch` together with the requests it made, in order. */
  datatype Resolution = Resolution(best: Option<LrcLibTrack>, calls: seq<Call>)

  /** Modes that try a direct lookup first. */
  predicate TriesLookup(strategy: SearchStrategy) {
    strategy.mode == Exact || strategy.mode == Cached
  }

  /** Modes that fall back to (or start with) a free-text search. */
  predicate TriesSearch(strategy: SearchStrategy) {
    strategy.mode == Fuzzy || (strategy.mode == Exact && !strategy.tryExternal)
  }

  /** `findBestMatch`: a direct lookup in EXACT and CACHED mode whose hit is returned at
      once; otherwise a search (with an empty free-text query) in FUZZY mode and in EXACT
      mode without external sources, whose first result is returned unranked. */
  function Resolve(store: LyricsStore, trackName: string, artistName: string, albumName: string,
                   duration: int, strategy: SearchStrategy): (r: Resolution)
    ensures |r.calls| <= 2
    ensures r.best.Some? ==> r.calls != []
  {
    var lookupCalls :=
      if TriesLookup(strategy)
      then [LookupCall(LookupEndpoint(strategy), LookupParams(trackName, artistName, albumName, duration))]
      else [];
    var direct :=
      if TriesLookup(strategy) then GetLyrics(store, trackName, artistName, albumName, duration, strategy) else None;
    if direct.Some? then Resolution(direct, lookupCalls)
    else if TriesSearch(strategy) then
      var results := SearchLyrics(store, "", trackName, artistName, albumName);
      var searchCall := SearchCall(SearchParams("", trackName, artistName, albumName));
      Resolution(if |results| > 0 then Some(results[0]) else None, lookupCalls + [searchCall])
    else Resolution(None, lookupCalls)
  }

  function FindBestMatch(store: LyricsStore, trackName: string, artistName: string, albumName: string,
                         duration: int, strategy: SearchStrategy): Option<LrcLibTrack>
  {
    Resolve(store, trackName, artistName, albumName, duration, strategy).best
  }

  /** A direct lookup is made exactly in EXACT and CACHED mode, always first, and it
      goes to `/get` exactly when `tryExternal` is set, whatever the mode. */
  lemma ResolveLookupRule(store: LyricsStore, trackName: string, artistName: string, albumName: string,
                          duration: int, strategy: SearchStrategy)
    ensures var r := Resolve(store, trackName, artistName, albumName, duration, strategy);
      && ((exists k :: 0 <= k < |r.calls| && r.calls[k].LookupCall?) <==> strategy.mode != Fuzzy)
      && (strategy.mode != Fuzzy ==> r.calls[0] == LookupCall(LookupEndpoint(strategy), LookupParams(trackName, artistName, albumName, duration)))
      && (LookupEndpoint(strategy) == Get <==> strategy.tryExternal)
  {
    var r := Resolve(store, trackName, artistName, albumName, duration, strategy);
    if strategy.mode != Fuzzy {
      assert r.calls[0].LookupCall?;
    }
  }

  /** A search is made exactly when the mode allows one and no direct hit came first;
      CACHED mode and EXACT mode with external sources never search. */
  lemma ResolveSearchRule(store: LyricsStore, trackName: string, artistName: string, albumName: string,
                          duration: int, strategy: SearchStrategy)
    ensures var r := Resolve(store, trackName, artistName, albumName, duration, strategy);
      var hit := TriesLookup(strategy) && GetLyrics(store, trackName, artistName, albumName, duration, strategy).Some?;
      && ((exists k :: 0 <= k < |r.calls| && r.calls[k].SearchCall?) <==> TriesSearch(strategy) && !hit)
      && (strategy.mode == Cached ==> forall k :: 0 <= k < |r.calls| ==> !r.calls[k].SearchCall?)
      && (strategy.mode == Exact && strategy.tryExternal ==> forall k :: 0 <= k < |r.calls| ==> !r.calls[k].SearchCall?)
  {
    var r := Resolve(store, trackName, artistName, albumName, duration, strategy);
    if TriesSearch(strategy) && !(TriesLookup(strategy) && GetLyrics(store, trackName, artistName, albumName, duration, strategy).Some?) {
      assert r.calls[|r.calls| - 1].SearchCall?;
    }
  }

  /** What comes back: a direct hit as is; otherwise the first search result, if a
      search ran and found anything; otherwise nothing. */
  lemma ResolveResult(store: LyricsStore, trackName: string, artistName: string, albumName: string,
                      duration: int, strategy: SearchStrategy)
    ensures var best := FindBestMatch(store, trackName, artistName, albumName, duration, strategy);
      var direct := GetLyrics(store, trackName, artistName, albumName, duration, strategy);
      var results := SearchLyrics(store, "", trackName, artistName, albumName);
      && (TriesLookup(strategy) && direct.Some? ==> best == direct)
      && (!(TriesLookup(strategy) && direct.Some?) && TriesSearch(strategy) && results != [] ==> best == Some(results[0]))
      && (!(TriesLookup(strategy) && direct.Some?) && (!TriesSearch(strategy) || results == []) ==> best == None)
  {
  }

  /** The search made by the resolver sends only the non-empty track, artist and album
      fields: the empty free-text query is never sent. */
  lemma ResolveSearchSendsNoQuery(trackName: string, artistName: string, albumName: string)
    ensures ValueOf(SearchParams("", trackName, artistName, albumName), "q") == None
  {
    SearchParamsContents("", trackName, artistName, albumName);
  }
}
