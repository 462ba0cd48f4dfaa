# Lyra LRC downloader — a verified model of its core

This project models the logic behind the LRC lyrics downloader and proves properties about that model. The downloader finds time-synced lyrics for a song, or for every song of a playlist, in an LRCLIB-style lyrics store. It scores each candidate match and writes `.lrc` files.

The model covers these parts:

- **Scoring** (`Scoring`): the unit-cost edit distance, the case-insensitive similarity built on it, and the confidence scorer.
  - The edit distance is computed by a matrix-filling method.
  - The scorer weighs title 0.5, artist 0.3 and duration 0.2, renormalising over 0.8 when a duration is missing. It always gives three reasons.
- **Best-match resolution** (`LrcService`): the direct lookup and the free-text search. The store is a pair of oracle functions.
  - The model covers parameter lists, endpoints and failure handling.
  - It also covers the decision over search mode and `tryExternal`, recording every request made.
- **Bulk processing** (`TrackCleaner`, `PlaylistManager`):
  - the track-name cleaner used for the single retry;
  - the per-entry status machine;
  - the pass over an array of entries, updated in place, with its skip, selection and cancellation rules;
  - the manual match, JSON import and the selection toggles.
- **File names** (`FilenameService`): placeholder substitution, separator clean-up, sanitisation and the `.lrc` suffix.
- **Karaoke preview** (`Karaoke`): the LRC timestamp parser (times in whole milliseconds), the active-line rule and the scroll target.
- **Small helpers**:
  - `ResultCard`: the `m:ss` time format, and the download and copy contents with the `[offset:…]` header.
  - `ConfidenceBadge`: the percentage and the colour tier.
  - `SingleSongSearch`: the search form's filter check, the queries it sends, and the recent-search history.
  - `GeminiService`: the M3U line filter, the truncation before the AI extraction call, and the decoration of its answer.
- **Shared pieces**: `Builtins` holds the JavaScript built-ins the code relies on (`trim`, `\s`, `split`, `filter`, `String(n)`, `Math.round`). `Types` holds the records of `types.ts`.

Arithmetic is exact: scores are `real`, lengths and times are `int`.

## Model

| member | source | states |
|---|---|---|
| Scoring.LevenshteinDistance | services/utils.ts:4-37 | An empty side returns the other side's length. Otherwise the matrix is filled row by row and its last cell is returned. The result is the edit distance defined by the unit-cost recurrence. |
| Scoring.FillRow | services/utils.ts:20-34 | Each cell of row `i` gets the diagonal cell when the characters agree, and otherwise 1 + the least of its diagonal, left and upper neighbours. Every other row is left unchanged. |
| Scoring.CellAtMostLonger | services/utils.ts:12-34 | No matrix cell exceeds the longer of its two prefix lengths. |
| Scoring.CellZeroIff | services/utils.ts:12-34 | A cell is 0 exactly when its two prefixes are equal. |
| Scoring.CellTranspose | services/utils.ts:12-34 | Swapping the strings transposes the matrix. |
| Scoring.EditDistanceAtMostLonger | services/utils.ts:4-37 | The distance is at most the longer length. |
| Scoring.EditDistanceZeroIff | services/utils.ts:4-37 | The distance is 0 exactly for equal strings. |
| Scoring.EditDistanceOfEmpty | services/utils.ts:9-10 | Against an empty string the distance is the other string's length, as the two early returns give. |
| Scoring.EditDistanceSymmetric | services/utils.ts:4-37 | The distance does not depend on the order of its arguments. |
| Scoring.Fraction | services/utils.ts:44 | `(longer − distance) / longer` lies in [0, 1], and is 1 exactly when the distance is 0. |
| Scoring.SimilarityOfEmpty | services/utils.ts:40-43 | An empty side always scores 0, so the `longer.length === 0` branch is never reached. |
| Scoring.SimilarityInUnitInterval | services/utils.ts:39-45 | Similarity lies in [0, 1]. |
| Scoring.SimilarityOneIff | services/utils.ts:41-44 | For non-empty strings, similarity is 1 exactly when they are equal up to case. |
| Scoring.SimilaritySymmetric | services/utils.ts:41-44 | Similarity does not depend on the order of its arguments. |
| Scoring.CalculateSimilarity | services/utils.ts:39-45 | Picks the longer and shorter string and runs the matrix method on their lower-case forms. Returns the similarity. |
| Scoring.DurationScore | services/utils.ts:75-77 | The duration term lies in [0, 1]. It is 1 exactly at equal durations and 0 from ten seconds apart. |
| Scoring.ConfidenceOf | services/utils.ts:90-94 | The result carries the candidate unchanged, a score clamped to [0, 1] and exactly three reasons. |
| Scoring.Confidence | services/utils.ts:47-95 | The same three facts for the scorer applied to a query and a candidate. |
| Scoring.CalculateConfidence | services/utils.ts:47-95 | Computes both similarities with the matrix method. Then returns the result the scorer specifies. |
| Scoring.AccumulateConfidence | services/utils.ts:57-94 | Adds each weighted term to the running score and pushes one reason per signal. A missing duration replaces the running score by the renormalised one. Ends with the specified result. |
| Scoring.DescribeTitle | services/utils.ts:62-64 | Title reason buckets: above 0.9, above 0.7, otherwise a mismatch message with the rounded percentage. |
| Scoring.DescribeArtist | services/utils.ts:69-71 | Artist reason buckets: above 0.9, above 0.5, otherwise. |
| Scoring.DescribeDuration | services/utils.ts:80-82 | Duration reason buckets: within 2 s, within 5 s, otherwise. |
| Scoring.RawScoreInUnitInterval | services/utils.ts:90-94 | The weights sum to one, so the unclamped score is already in [0, 1] and the clamp never changes it. |
| Scoring.ConfidenceWithDuration | services/utils.ts:60-82 | With both durations known, the score is 0.5·title + 0.3·artist + 0.2·max(0, 1 − Δ/10). The third reason is the duration bucket of Δ. |
| Scoring.ConfidenceWithoutDuration | services/utils.ts:74-88 | With a duration missing or zero, the score is (0.5·title + 0.3·artist)/0.8. The third reason says the comparison was skipped. |
| Scoring.ConfidenceReasonOrder | services/utils.ts:62-71 | The first reason is the title's bucket and the second the artist's. |
| Scoring.ConfidenceWorkedExample | services/utils.ts:60-82 | Same title and artist up to case, with durations 1 s apart, score 0.98 with the three "match" reasons. |
| LrcService.BuildLookupParams | services/lrcService.ts:14-20 | The lookup's parameter list: track, artist and duration, then the album only when it is non-empty. |
| LrcService.BuildSearchParams | services/lrcService.ts:41-45 | The search's parameter list: query, track, artist and album in that order, each only when non-empty. |
| LrcService.LookupParamsContents | services/lrcService.ts:14-20 | Track, artist and duration are always sent. The album is sent exactly when it is non-empty. |
| LrcService.ValueOfAppend | services/lrcService.ts:14-20 | Looking a key up in a concatenated parameter list finds the front list's value first. |
| LrcService.SearchParamValue | services/lrcService.ts:41-45 | The value sent under each key, for any key. |
| LrcService.SearchParamsContents | services/lrcService.ts:41-45 | Each search field is sent exactly when it is non-empty, with its own value. |
| LrcService.GetLyricsFound | services/lrcService.ts:13-31 | A direct lookup gives a track exactly when the store answered 2xx with a decodable track, and then it is that track. A 404, any other status or a failure gives nothing. |
| LrcService.SearchLyrics | services/lrcService.ts:34-55 | A 2xx reply with a decodable body gives that body. Any other status, an undecodable body or a failure gives the empty list. |
| LrcService.Resolve | services/lrcService.ts:57-84 | At most two requests are made, and a result is only returned after some request. |
| LrcService.ResolveLookupRule | services/lrcService.ts:13-69 | A direct lookup is made exactly in EXACT and CACHED mode, and it is the first request. It goes to `/get` exactly when `tryExternal` is set, whatever the mode. |
| LrcService.ResolveSearchRule | services/lrcService.ts:72-74 | A search is made exactly in FUZZY mode, or EXACT mode without external sources, when no direct hit came first. CACHED mode, and EXACT mode with external sources, never search. |
| LrcService.ResolveResult | services/lrcService.ts:66-83 | A direct hit is returned as is. Otherwise the first search result is returned, if a search ran and found anything. Otherwise nothing is returned. |
| LrcService.ResolveSearchSendsNoQuery | services/lrcService.ts:74 | The resolver's search never sends the empty free-text query. |
| TrackCleaner.IndexOf | components/PlaylistManager.tsx:113 | The first occurrence of a character. |
| TrackCleaner.RemoveGroups | components/PlaylistManager.tsx:113-114 | Group removal never lengthens the name. |
| TrackCleaner.RemoveGroupsFromInput | components/PlaylistManager.tsx:113-114 | Group removal only deletes characters. |
| TrackCleaner.RemoveGroupsNoGroup | components/PlaylistManager.tsx:113-114 | After removal no opening bracket has a closing one after it. A name without groups of another bracket pair still has none. |
| TrackCleaner.RemoveGroupsWithoutOpen | components/PlaylistManager.tsx:113-114 | Without an opening bracket nothing is removed. |
| TrackCleaner.RemoveGroupsFirstGroup | components/PlaylistManager.tsx:113-114 | The first group is removed with its brackets, and the scan resumes after it. |
| TrackCleaner.CutAndTrim | components/PlaylistManager.tsx:115-118 | Each end-anchored step yields trimmed text no longer than its input. |
| TrackCleaner.RemoveBracketGroups | components/PlaylistManager.tsx:113-114 | The two bracket steps yield trimmed text no longer than the name. |
| TrackCleaner.RemoveBracketGroupsNoGroups | components/PlaylistManager.tsx:113-114 | After the bracket steps no `(…)` and no `[…]` group is left. |
| TrackCleaner.CleanTrackName | components/PlaylistManager.tsx:111-120 | The cleaned name is trimmed and no longer than the original. |
| TrackCleaner.CleanTrackNameNoGroups | components/PlaylistManager.tsx:111-120 | The cleaned name holds no `(…)` and no `[…]` group. |
| TrackCleaner.CleanTrackNameAfterBrackets | components/PlaylistManager.tsx:115-118 | When the bracket steps leave no hyphen, the marker steps change nothing. |
| TrackCleaner.CleanTrackNamePlain | components/PlaylistManager.tsx:111-120 | A trimmed name with no bracket and no hyphen is already clean, so it gets no retry. |
| TrackCleaner.CleanTrackNameDropsGroup | components/PlaylistManager.tsx:113 | A trailing parenthesised group is dropped together with the space before it. |
| TrackCleaner.RadioEditMarkerMatches | components/PlaylistManager.tsx:117 | `- Radio Edit` is matched by the radio-edit pattern. |
| TrackCleaner.RadioEditMarkerOnly | components/PlaylistManager.tsx:115-116 | `- Radio Edit` is matched neither by the remastered nor by the explicit pattern. |
| TrackCleaner.RadioEditNameShape | components/PlaylistManager.tsx:117 | `base - Radio Edit` is trimmed and bracket-free, and its only hyphen is the marker's. |
| TrackCleaner.CleanTrackNameDropsRadioEdit | components/PlaylistManager.tsx:117 | A trailing `- Radio Edit` is dropped together with the space before it. |
| TrackCleaner.RemasteredMarker | components/PlaylistManager.tsx:115 | `- Remastered` in any letter case, followed by any text without a line terminator, is matched by the remastered pattern. |
| TrackCleaner.CleanTrackNameDropsRemastered | components/PlaylistManager.tsx:115 | A trailing `- Remastered` marker in any letter case, with whatever follows it on the line, is dropped together with the space before it. |
| TrackCleaner.ExplicitMarker | components/PlaylistManager.tsx:116 | `- Explicit` in any letter case is matched by the explicit pattern. |
| TrackCleaner.ShortWordNotRemastered | components/PlaylistManager.tsx:115 | A marker word shorter than `remastered`, such as `Explicit`, is not matched by the remastered pattern. |
| TrackCleaner.CleanTrackNameDropsExplicit | components/PlaylistManager.tsx:116 | A trailing `- Explicit` marker in any letter case is dropped together with the space before it. |
| TrackCleaner.CleanTrackNameDropsDanglingHyphen | components/PlaylistManager.tsx:118 | A hyphen left at the end after white space is dropped together with that white space. |
| TrackCleaner.CleanTrackNameExample | components/PlaylistManager.tsx:111-120 | `Yesterday (Remastered 2009)` cleans to `Yesterday`. |
| PlaylistManager.Standard | components/PlaylistManager.tsx:330-346 | The manager's components are `cleanTrackName` and `calculateConfidence`, and the scorer reports the track it scored. |
| PlaylistManager.ProcessEntry | components/PlaylistManager.tsx:313-368 | An entry makes at most two lookups. |
| PlaylistManager.LookUp | components/PlaylistManager.tsx:319-366 | Each lookup adds one to the count, and at most one more lookup is made per retry left. |
| PlaylistManager.ProcessEntryRules | components/PlaylistManager.tsx:313-368 | The retry happens exactly when the first lookup found nothing, no cancellation came in and cleaning changes the name. No lookup is made exactly under cancellation. A pause comes only with a pending entry. The entry either stays as it was, changes only to searching, pending or not found, or becomes found with match data scored against its own name and duration. It is left searching only under cancellation. |
| PlaylistManager.RetryLookup | components/PlaylistManager.tsx:330-338 | The retry sends the cleaned name with the same artist, album and duration. |
| PlaylistManager.LookUpNoPause | components/PlaylistManager.tsx:358-362 | A finder that never throws never causes a pause. |
| PlaylistManager.PassFrom | components/PlaylistManager.tsx:290-372 | The pass keeps the number of entries and never lowers the lookup count. |
| PlaylistManager.ProcessEntryAt | components/PlaylistManager.tsx:313-368 | Marks the entry searching and writes its final state into the array. Only that slot changes, and it holds what the per-entry rules give. |
| PlaylistManager.ProcessAll | components/PlaylistManager.tsx:274-378 | The loop leaves the array, the lookup count and the pause flag exactly as the pass specifies. |
| PlaylistManager.Advance | components/PlaylistManager.tsx:290-371 | One loop turn: stop at cancellation with nothing changed, or move the specified pass on by one entry. |
| PlaylistManager.SkippedStep | components/PlaylistManager.tsx:293-294 | A skipped entry moves the pass on by one and changes nothing. |
| PlaylistManager.ProcessedStep | components/PlaylistManager.tsx:370 | A processed entry moves the pass on by one, with its outcome written in. |
| PlaylistManager.ProcessPlaylist | components/PlaylistManager.tsx:274-378 | The loop run with the manager's own cleaner and scorer. |
| PlaylistManager.PassFromKeeps | components/PlaylistManager.tsx:293-294 | Entries outside a non-empty selection, and entries already found, are left exactly as they were. |
| PlaylistManager.PassFromChanges | components/PlaylistManager.tsx:313-368 | Every entry of the pass changes only in a way the per-entry rules allow. |
| PlaylistManager.PassFromChangesAt | components/PlaylistManager.tsx:313-368 | The same, for the entries from a given position on. |
| PlaylistManager.ProcessedEntryChanged | components/PlaylistManager.tsx:313-368 | The processed entry's new state is an allowed change of its old one. |
| PlaylistManager.PassFromOther | components/PlaylistManager.tsx:290-372 | Processing one entry leaves the other entries' allowed changes intact. |
| PlaylistManager.PassFromUnfold | components/PlaylistManager.tsx:313-371 | Processing an entry writes its outcome in place and moves the pass on, with the lookups and the pause added. |
| PlaylistManager.PassFromLookups | components/PlaylistManager.tsx:291-329 | At most two lookups per entry. Once cancelled, no new lookup starts, so at most one lookup more than the cancellation point is made. |
| PlaylistManager.PassFromAllSkipped | components/PlaylistManager.tsx:293-294 | A playlist whose remaining entries are all skipped is left as it was. |
| PlaylistManager.PassFromNoPause | components/PlaylistManager.tsx:358-362 | Without pausing entries the pause flag keeps its value. |
| PlaylistManager.EntryStepProperties | components/PlaylistManager.tsx:313-368 | Every entry step changes only in an allowed way and makes at most two lookups. |
| PlaylistManager.ProcessAllProperties | components/PlaylistManager.tsx:274-378 | The whole pass keeps the length and leaves skipped entries alone. It changes the others only as allowed, with `calculateConfidence` match data, and makes at most two lookups per entry and at most one beyond a cancellation. An all-found playlist, or a cancellation before the first lookup, leaves everything unchanged. |
| PlaylistManager.StoreFinderNeverPauses | components/PlaylistManager.tsx:358-362 | Looking up through the lyrics-store client never ends in a rate-limit pause, because that client catches every error. |
| PlaylistManager.AssignManualMatch | components/PlaylistManager.tsx:387-406 | The list keeps its length. |
| PlaylistManager.AssignManualMatchProperties | components/PlaylistManager.tsx:387-406 | Only the entry with the edited id changes. It becomes found with the chosen track, scored by title and artist renormalised without a duration, with the "skipped" third reason. Assigning again changes nothing. |
| PlaylistManager.ImportEntries | components/PlaylistManager.tsx:161-169 | Importing never yields more entries than items. |
| PlaylistManager.ImportEntriesSound | components/PlaylistManager.tsx:161-169 | Every imported entry has a track and an artist name and no match data. On file import it is also pending and carries a fresh id. The first fact also holds when JSON edits are applied (lines 498-506). |
| PlaylistManager.ImportEntriesComplete | components/PlaylistManager.tsx:161-169 | Every item with a track and an artist name after the fallbacks is imported. |
| PlaylistManager.NormaliseFallbacks | components/PlaylistManager.tsx:161-169 | The track name falls back to `title`, the artist name to `artist`, and a missing duration to 0. |
| PlaylistManager.ToggleSelection | components/PlaylistManager.tsx:123-133 | The id's membership flips, and every other id keeps its own. |
| PlaylistManager.ToggleSelectionTwice | components/PlaylistManager.tsx:123-133 | Toggling the same id twice restores the selection. |
| PlaylistManager.ToggleSelectAll | components/PlaylistManager.tsx:135-141 | The result is either empty or every entry's id. |
| PlaylistManager.ToggleSelectAllProperties | components/PlaylistManager.tsx:135-141 | With distinct ids, toggling a full selection clears it, and toggling an empty one on a non-empty list selects everything. |
| PlaylistManager.IdsCount | components/PlaylistManager.tsx:136 | With distinct ids there are as many ids as entries. |
| FilenameService.ReplaceAllKeep | services/filenameService.ts:38-40 | Text without the placeholder's first character is copied through. |
| FilenameService.ReplaceAllHere | services/filenameService.ts:38-40 | A placeholder at the front is replaced, and the scan resumes after it. |
| FilenameService.ReplaceAllOther | services/filenameService.ts:38-40 | Another placeholder is copied through unchanged. |
| FilenameService.SubstituteArtistTitle | services/filenameService.ts:13-39 | `{Artist} - {Title}` becomes `artist - title` for fields without `{`. |
| FilenameService.SubstituteArtistAlbumTitle | services/filenameService.ts:23-40 | `{Artist} - {Album} - {Title}` becomes `artist - album - title` for fields without `{`. |
| FilenameService.StripTrailingSeparator | services/filenameService.ts:44 | The name is cut at the leftmost trailing `\s+-\s+`, and left whole when there is none. |
| FilenameService.StripLeadingSeparator | services/filenameService.ts:45 | Only a prefix is dropped, and what is dropped is one whole `\s+-\s+` match: the text left starts with no white space. Text not starting with white space is kept. |
| FilenameService.LeadingSeparatorPrefix | services/filenameService.ts:45 | The prefix the leading pattern consumes, white space, a hyphen and all the white space after it, is one separator match. |
| FilenameService.StripLeadingSeparatorOf | services/filenameService.ts:45 | White space, a hyphen and white space before text starting with no white space are dropped, and exactly they, whatever the lengths of the two runs. |
| FilenameService.StripLeadingSeparatorOnce | services/filenameService.ts:45 | Of two separators at the front only the first is dropped. |
| FilenameService.StripLeadingSeparatorNone | services/filenameService.ts:45 | Text with no separator match at its front is kept whole. |
| FilenameService.DoubleSeparatorLength | services/filenameService.ts:46 | A doubled-separator match starts and ends with white space and holds a hyphen. |
| FilenameService.CollapseSeparators | services/filenameService.ts:46 | Collapsing never lengthens the name. |
| FilenameService.NoDoubleSeparator | services/filenameService.ts:46 | No doubled separator starts where the leading white space is not followed by a hyphen. |
| FilenameService.CleanSeparators | services/filenameService.ts:43-47 | The clean-up ends trimmed and no longer than its input. |
| FilenameService.CleanEmptyAlbum | services/filenameService.ts:40-46 | The doubled separator left by an empty album collapses to one, and nothing else changes. |
| FilenameService.Sanitize | services/filenameService.ts:50 | Each of `<>:"/\|?*` becomes `_`, every other character stays in place, and the length is kept. |
| FilenameService.SanitizeProperties | services/filenameService.ts:50 | No unsafe character is left. Safe text is unchanged, so sanitising twice changes nothing more. |
| FilenameService.LrcName | services/filenameService.ts:50-53 | The name always ends in `.lrc`, and no character before the suffix is unsafe. |
| FilenameService.FormatsTable | services/filenameService.ts:9-32 | There are four formats with distinct ids. The default is `artist-title` with `{Artist} - {Title}`. |
| FilenameService.FormatFilenameOf | services/filenameService.ts:34-54 | When the cleaned-up name is safe, the file name is that name with `.lrc`. |
| FilenameService.DefaultFormatPlain | services/filenameService.ts:32-54 | The default format gives `Artist - Title.lrc` for fields that need no clean-up. Such fields may hold hyphens inside words, as in `Jay-Z`. |
| FilenameService.TitleOnlyPlain | services/filenameService.ts:18-54 | The title-only format gives `Title.lrc`. |
| FilenameService.ArtistAlbumTitleWithoutAlbum | services/filenameService.ts:23-46 | With no album, the artist-album-title format gives `Artist - Title.lrc`. |
| FilenameService.DefaultFormatNoArtist | services/filenameService.ts:13-45 | With no artist, the default format drops the leading separator. |
| FilenameService.TitleArtistNoArtist | services/filenameService.ts:28-44 | With no artist, the title-artist format drops the trailing separator. |
| Karaoke.TagAt | components/KaraokeModal.tsx:21-29 | A tag is 10 or 11 characters long, from `[` to `]`, and its time is within the two-digit bounds. |
| Karaoke.FirstTag | components/KaraokeModal.tsx:21-24 | The regular expression is unanchored, so the leftmost tag of the line is found, or the line has none at all. |
| Karaoke.UpToTerminator | components/KaraokeModal.tsx:21 | `(.*)` takes the text up to the first line terminator. |
| Karaoke.ParseLine | components/KaraokeModal.tsx:24-31 | A line gives an entry exactly when it holds a tag somewhere, and the entry's text is trimmed. |
| Karaoke.ParseLines | components/KaraokeModal.tsx:23-32 | There are never more entries than lines. |
| Karaoke.ParseLyrics | components/KaraokeModal.tsx:18-34 | Splits at `\n` and appends each parsed line in turn. Gives the parsed lines of the file, in order. |
| Karaoke.ParseLinesAppend | components/KaraokeModal.tsx:23-32 | Parsing keeps line order: two parts parse to their entries one after the other. |
| Karaoke.ParseLinesCount | components/KaraokeModal.tsx:23-32 | There is one entry per tagged line and none for the others. |
| Karaoke.Pad2 | components/KaraokeModal.tsx:21 | Two digits read back as the number. |
| Karaoke.TimeTagRoundTrip | components/KaraokeModal.tsx:26-29 | `[mm:ss.xx]` reads back as mm·60000 + ss·1000 + xx·10 ms. |
| Karaoke.MillisTagRoundTrip | components/KaraokeModal.tsx:21-29 | `[mm:ss.xxx]` reads back as mm·60000 + ss·1000 + xxx ms: a three-digit fraction is taken as milliseconds. |
| Karaoke.ParseTaggedLine | components/KaraokeModal.tsx:21-30 | A line starting with a tag is parsed from it. The rest of the line is the text, any further tag included. |
| Karaoke.AtMostOneActive | components/KaraokeModal.tsx:92-93 | With times in order, at most one line is active. |
| Karaoke.LaterNotActive | components/KaraokeModal.tsx:92-93 | While a line is active, no later line is. |
| Karaoke.FirstUpcoming | components/KaraokeModal.tsx:61 | The first line whose shifted time is still to come, or -1 when there is none. |
| Karaoke.ScrollTarget | components/KaraokeModal.tsx:61-62 | The target is a valid index of a non-empty list, and -1 for an empty one. |
| Karaoke.ScrollTargetIsActive | components/KaraokeModal.tsx:61-62 | Once the first line's time has come, the view scrolls to the active line. Before that it rests on the first line, while no line is active. |
| ResultCard.SecondsPart | components/ResultCard.tsx:23 | The seconds part has the sign of the length and differs from it by whole minutes. |
| ResultCard.FormatTime | components/ResultCard.tsx:21-25 | A non-negative length shows as its minutes, a colon and two-digit seconds. |
| ResultCard.ZeroPadded | components/ResultCard.tsx:24 | The `0`-prefix rule gives the two-digit form. |
| ResultCard.FormatTimeRoundTrip | components/ResultCard.tsx:21-25 | Reading the shown minutes and seconds back recovers the length. |
| ResultCard.OffsetMillis | components/ResultCard.tsx:31 | The header value is `offset·1000`. |
| ResultCard.OffsetMillisRange | components/ResultCard.tsx:97-101 | On the slider the header value is a multiple of 500 in [−5000, 5000], and 0 exactly at offset 0. |
| ResultCard.OffsetHeader | components/ResultCard.tsx:31 | The header is its line plus a line feed. |
| ResultCard.DownloadContent | components/ResultCard.tsx:27-40 | Synced lyrics when present, else plain lyrics. The header goes in front only of synced lyrics at a non-zero offset. Nothing is downloaded when both are empty. |
| ResultCard.CopyContent | components/ResultCard.tsx:42-48 | The requested lyrics are copied, and nothing when they are empty. |
| ResultCard.DownloadIsSyncedCopy | components/ResultCard.tsx:27-48 | Without an offset, the download is what the synced copy button copies. |
| ResultCard.OffsetLineShape | components/ResultCard.tsx:31 | The header line holds no line feed and no timestamp tag. |
| ResultCard.OffsetHeaderAddsNoLine | components/ResultCard.tsx:30-32 | The header adds no timed line for the karaoke parser. |
| ConfidenceBadge.Percentage | components/ConfidenceBadge.tsx:10 | The rounded percentage is in [0, 100] for a score in [0, 1], within half a point of score·100. |
| ConfidenceBadge.TierOf | components/ConfidenceBadge.tsx:11-14 | Emerald exactly from 90, red exactly below 70, yellow in between. |
| ConfidenceBadge.BadgeOf | components/ConfidenceBadge.tsx:10-35 | The badge lists the reasons in the order given, with the tier of the rounded percentage. |
| ConfidenceBadge.TierThresholds | components/ConfidenceBadge.tsx:10-14 | In terms of the score: emerald from 0.895, red below 0.695. |
| ConfidenceBadge.TierMonotone | components/ConfidenceBadge.tsx:11-14 | A higher score never gets a lower tier. |
| SingleSongSearch.Others | components/SingleSongSearch.tsx:51-53 | The surviving older entries are for other songs. |
| SingleSongSearch.SaveToHistory | components/SingleSongSearch.tsx:50-56 | The new item comes first. Then come the older items for other songs, in their order, cut to ten in all. |
| SingleSongSearch.OthersUnique | components/SingleSongSearch.tsx:51-53 | Filtering keeps a history free of repeated songs. |
| SingleSongSearch.SaveKeepsUnique | components/SingleSongSearch.tsx:50-56 | Saving keeps a history free of repeated songs. |
| SingleSongSearch.SaveTwice | components/SingleSongSearch.tsx:50-56 | Saving the same search twice leaves the history as the first save did. |
| SingleSongSearch.Submit | components/SingleSongSearch.tsx:72-116 | A search is rejected exactly when no enabled field has text. The history changes only on a match, and then starts with the search. |
| SingleSongSearch.SubmitSendsSomething | components/SingleSongSearch.tsx:76-100 | A search that goes out sends some non-empty field. |
| SingleSongSearch.SubmitQueries | components/SingleSongSearch.tsx:91-115 | Disabled fields are sent empty, and the duration is parsed or 0. The match is scored against the full inputs, with a zero duration absent. The history is saved exactly when there is a match. |
| GeminiService.DropCarriageReturn | services/geminiService.ts:24 | A line loses only its closing carriage return. |
| GeminiService.SplitCrLfOfSplitLines | services/geminiService.ts:24 | Splitting at `\r?\n` is splitting at `\n`, then dropping each piece's closing `\r` except the last piece's. |
| GeminiService.SplitJoinCrLf | services/geminiService.ts:24 | Lines written with `\r\n` ends read back as written. |
| GeminiService.KeptLines | services/geminiService.ts:24 | Every kept line passes the filter. |
| GeminiService.KeptLinesMembers | services/geminiService.ts:24 | A line is kept exactly when it is a line of the file that passes the filter. |
| GeminiService.KeepLineCases | services/geminiService.ts:24 | Blank lines are dropped. Among `#` lines only `#EXTINF` is kept. Every other non-blank line is kept. |
| GeminiService.HeaderDropped | services/geminiService.ts:24 | The `#EXTM3U` header is dropped. |
| GeminiService.IndentedHeaderKept | services/geminiService.ts:24 | An indented `#EXTM3U` is kept, since only the raw line's first character is tested. |
| GeminiService.FirstKept | services/geminiService.ts:32 | At most fifty lines go into the prompt, and all of them when there are no more than fifty. |
| GeminiService.M3USampleLines | services/geminiService.ts:32 | The sample holds the first fifty kept lines, one per line, in order. |
| GeminiService.RawSample | services/geminiService.ts:97 | Raw text is cut to its first 15000 characters. |
| GeminiService.RawSampleIdempotent | services/geminiService.ts:97 | Text within the limit goes in whole, and cutting twice cuts no further. |
| GeminiService.WithInstruction | services/geminiService.ts:49-51 | The prompt is kept as a prefix. The instruction is appended after its lead exactly when it is non-empty. |
| GeminiService.Decorate | services/geminiService.ts:77-91 | Every decoded item becomes a pending entry with its fresh id. A failure, an empty text or a non-array answer gives nothing. |
| GeminiService.ParseM3UContent | services/geminiService.ts:23-92 | Every entry returned is pending. |
| GeminiService.ParseRawPlaylistData | services/geminiService.ts:94-159 | Every entry returned is pending. |
| Builtins.Trim | components/PlaylistManager.tsx:113 | `trim()` removes only white space from either end, and its result has none at either end. |
| Builtins.TrimTrailingSpace | services/filenameService.ts:47 | Trimming trimmed text followed by white space gives the text back. |
| Builtins.LowerString | services/utils.ts:44 | Lower-casing maps each character and keeps the length. |
| Builtins.Round | components/ConfidenceBadge.tsx:10 | `Math.round` gives the nearest integer, with halves rounded up. |
| Builtins.RoundMonotone | components/ConfidenceBadge.tsx:10 | Rounding is monotone. |
| Builtins.NatToStringRoundTrip | components/ResultCard.tsx:24 | Rendered digits read back as the number. |
| Builtins.CutAtFirstMatch | components/PlaylistManager.tsx:115-118 | An end-anchored replacement cuts at the leftmost match, and leaves the text whole when there is none. |
| Builtins.SplitLines | components/KaraokeModal.tsx:19 | `split('\n')` gives at least one piece, and no piece holds a line feed. |
| Builtins.SplitJoin | components/KaraokeModal.tsx:19 | Joining the pieces gives the text back. |
| Builtins.JoinSplit | services/geminiService.ts:32 | Lines without line feeds, joined and split, come back. |
| Builtins.Filter | components/SingleSongSearch.tsx:51-53 | `filter` keeps only passing elements and never lengthens. |
| Builtins.FilterMembers | components/SingleSongSearch.tsx:51-53 | `filter` keeps exactly the passing elements. |
| Builtins.FilterAppend | components/SingleSongSearch.tsx:51-53 | `filter` keeps the order. |

## Left out

- Floating point. Scores are exact reals. Track durations are whole seconds, karaoke times whole milliseconds, and the offset is a real on the slider's half-second grid. Rounding error and `NaN` are not modelled.
- The durations `parseInt` reads from the form are a `parseDuration` parameter. A text that gives `NaN` is not modelled.
- `toLowerCase` is ASCII case mapping. Unicode case rules are not modelled.
- `slice` counts UTF-16 code units in JavaScript. Here it counts characters.
- `String.prototype.replace` special `$` patterns in a track or artist name are not modelled. Names are inserted literally.
- HTTP is not modelled. `fetch`, URL encoding and the response body's JSON decoding are inside the store oracle: a status plus an optional decoded body, or a failure.
- LrcService.SearchLyrics treats a 2xx search reply whose JSON body is not a list of tracks as undecodable, giving `[]`. The code returns that value as it is. A `null` body then makes `findBestMatch` throw at `results.length`. Bulk processing catches that as an error other than a rate limit and marks the entry not found at once, without the retry under the cleaned name that the model makes. The oracle's body type has no room for such values.
- PlaylistManager.ImportEntries reads every JSON field as a string or absent. A field of another JSON type is treated as absent. The code keeps any truthy value through `||`, so `{trackName: 1999, artistName: "Prince"}` is imported by the code and dropped by the model.
- The AI extraction call and `JSON.parse` of its answer are not modelled. Their result is the `Reply` datatype, and the fixed prompt wording is a `template` parameter.
- `crypto.randomUUID` is not modelled. Ids come from a `newId` parameter or a list of fresh ids.
- Timestamps (`Date.now`) are a `now` parameter.
- Bulk processing runs sequentially. The cap-3 queue, `Promise.race` and `Promise.all` are not modelled.
- The 10-second rate-limit sleep is not modelled. The pass only records the pause flag.
- Cancellation is the number of completed lookups after which the user cancels. That is the sequential reading of the abort checks.
- The pass is stated for any cleaner and scorer pair (`Services`) and any per-entry step. `ProcessPlaylist` instantiates it with `cleanTrackName` and `calculateConfidence`.
- PlaylistManager.ProcessEntryAt calls the scorer through `services.score`. `Standard()` identifies that scorer with the function `Scoring.CalculateConfidence` is proved to compute.
- The single retry is `LookUp` with one retry left.
- PlaylistManager.ToggleSelectAll compares the selection's size with the number of entries, as the code does. With stale ids in the selection that is not "everything selected".
- FilenameService.FormatFilename carries no contract of its own. Its `.lrc` and safe-character facts are stated on `LrcName`, which it ends with, and the worked formats by the lemmas.
- LrcService.GetLyrics carries no contract of its own. What it returns is stated by `GetLyricsFound`.
- ResultCard.FormatTime is given a round trip only for non-negative lengths. A negative length is rendered as the code does.
- Session restore, settings, local storage, downloads, zip files, the clipboard, alerts, React state and rendering are not part of this model.
- The karaoke timer and `scrollIntoView` are not modelled. The current time is a parameter.
