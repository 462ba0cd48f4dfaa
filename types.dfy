/** The records the downloader passes between its components. */
module Types {

  datatype Option<+T> = None | Some(value: T)

  /** A record of the lyrics store. Durations are whole seconds; a lyrics field the
      store leaves null is the empty string (both are falsy where the code tests them). */
  datatype LrcLibTrack = LrcLibTrack(
    id: int,
    trackName: string,
    artistName: string,
    albumName: string,
    duration: int,
    instrumental: bool,
    plainLyrics: string,
    syncedLyrics: string)

  datatype MatchResult = MatchResult(
    track: LrcLibTrack,
    confidenceScore: real,
    confidenceReasons: seq<string>)

  datatype Status = Pending | Searching | Found | NotFound | Error

  datatype PlaylistEntry = PlaylistEntry(
    id: string,
    rawString: Option<string>,
    trackName: string,
    artistName: string,
    albumName: Option<string>,
    duration: Option<int>,
    status: Status,
    matchData: Option<MatchResult>,
    fileName: Option<string>)

  datatype SearchMode = Exact | Fuzzy | Cached

  datatype SearchStrategy = SearchStrategy(mode: SearchMode, tryExternal: bool)
}
