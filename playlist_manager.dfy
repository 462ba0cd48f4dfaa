/** Bulk processing of a playlist: the per-entry lookup with its single retry on a
    cleaned track name, the pass over all entries with its skip, selection and
    cancellation rules, the manual match, the import of JSON entries and the
    selection toggles. Entries are processed one after the other. */
module PlaylistManager {
  import opened Builtins
  import opened Types
  import opened Scoring
  import opened TrackCleaner
  import LrcService

  /** The arguments of one `findBestMatch` call made for an entry. */
  datatype Lookup = Lookup(trackName: string, artistName: string, albumName: string, duration: int)

  /** How a lookup ended: with a match or none, or with an error carrying an optional
      HTTP status and a message (empty when the error has none). */
  datatype Attempt = Resolved(found: Option<LrcLibTrack>) | Threw(status: Option<int>, message: string)

  /** The lookup as bulk processing sees it, with the search strategy already fixed. */
  type Finder = Lookup -> Attempt

  /** The finder backed by the lyrics-store client. The client turns every failure
      it sees into "no match"; a search body that decodes to no list of tracks is
      one of them here. */
  function StoreFinder(store: LrcService.LyricsStore, strategy: SearchStrategy): Finder {
    (l: Lookup) => Resolved(LrcService.FindBestMatch(store, l.trackName, l.artistName, l.albumName, l.duration, strategy))
  }

  /** Cancellation: `Some(n)` means the user cancels once `n` lookups have completed
      (`Some(0)`: before any). */
  predicate Aborted(cancel: Option<nat>, done: nat) {
    cancel.Some? && cancel.value <= done
  }

  /** The lookup for an entry under a given track name: `albumName || ''` and
      `duration || 0`. */
  function LookupFor(entry: PlaylistEntry, trackName: string): Lookup {
    Lookup(
      trackName,
      entry.artistName,
      if entry.albumName.Some? then entry.albumName.value else "",
      if entry.duration.Some? then entry.duration.value else 0)
  }

  /** What the scorer is told about an entry: its own (uncleaned) name and its duration. */
  function QueryOf(entry: PlaylistEntry): Query {
    Query(entry.trackName, entry.artistName, entry.duration)
  }

  /** An error counts as rate limiting when its status is 429 or its message mentions 429. */
  predicate IsRateLimit(status: Option<int>, message: string) {
    status == Some(429) || Contains(message, "429")
  }

  /** The entry after processing, the number of lookups it made, and whether it asked
      for a rate-limit pause. */
  datatype EntryOutcome = EntryOutcome(entry: PlaylistEntry, lookups: nat, paused: bool)

  /** The end of a lookup that threw: back to pending with a pause on rate limiting,
      otherwise not found. */
  function Failed(searching: PlaylistEntry, status: Option<int>, message: string, lookups: nat): EntryOutcome {
    if IsRateLimit(status, message) then EntryOutcome(searching.(status := Pending), lookups, true)
    else EntryOutcome(searching.(status := NotFound), lookups, false)
  }

  /** The two pure components processing relies on: the track-name cleaner and the
      confidence scorer. The pass is stated for any pair and run with `Standard()`. */
  datatype Services = Services(clean: string -> string, score: (Query, LrcLibTrack) -> MatchResult)

  /** The components the playlist manager uses: `cleanTrackName` and `calculateConfidence`. */
  function Standard(): (s: Services)
    ensures s.clean == CleanTrackName && s.score == Confidence
    ensures ScoresItsTrack(s)
  {
    Services(CleanTrackName, Confidence)
  }

  /** The scorer reports the candidate it scored. */
  ghost predicate ScoresItsTrack(services: Services) {
    forall query, track :: services.score(query, track).track == track
  }

  /** The end of a lookup that resolved: left searching when cancelled meanwhile,
      otherwise found (scored against the entry's own name) or not found. */
  function Settled(searching: PlaylistEntry, found: Option<LrcLibTrack>, score: (Query, LrcLibTrack) -> MatchResult,
                   cancel: Option<nat>, done: nat, lookups: nat): EntryOutcome {
    if Aborted(cancel, done) then EntryOutcome(searching, lookups, false)
    else if found.Some? then
      EntryOutcome(searching.(status := Found, matchData := Some(score(QueryOf(searching), found.value))), lookups, false)
    else EntryOutcome(searching.(status := NotFound), lookups, false)
  }

  /** `processEntry`, `done` lookups into the pass: unless cancelled, mark the entry
      searching and look it up under its own name, with one retry. */
  function ProcessEntry(entry: PlaylistEntry, services: Services, finder: Finder, cancel: Option<nat>, done: nat): (o: EntryOutcome)
    ensures o.lookups <= 2
  {
    if Aborted(cancel, done) then EntryOutcome(entry, 0, false)
    else LookUp(entry.(status := Searching), entry.trackName, 1, services, finder, cancel, done, 0)
  }

  /** One lookup of a searching entry under `name`, made after `done + lookups`
      lookups, with `retries` retries left: an error ends the entry; a match settles
      it; no match settles it as not found unless a retry is left, no cancellation
      came in, and cleaning changes the name, in which case the cleaned name is
      looked up. */
  function LookUp(searching: PlaylistEntry, name: string, retries: nat, services: Services, finder: Finder,
                  cancel: Option<nat>, done: nat, lookups: nat): (o: EntryOutcome)
    ensures lookups < o.lookups <= lookups + 1 + retries
    decreases retries
  {
    match finder(LookupFor(searching, name))
    case Threw(status, message) => Failed(searching, status, message, lookups + 1)
    case Resolved(Some(track)) => Settled(searching, Some(track), services.score, cancel, done + lookups + 1, lookups + 1)
    case Resolved(None) =>
      if retries > 0 && !Aborted(cancel, done + lookups + 1) && services.clean(name) != name
      then LookUp(searching, services.clean(name), retries - 1, services, finder, cancel, done, lookups + 1)
      else Settled(searching, None, services.score, cancel, done + lookups + 1, lookups + 1)
  }

  /** How a processed entry may differ from the entry it started as: not at all; only
      in its status, which is then searching, pending or not found; or found, with
      match data scored against its own name, duration and the matched track. */
  predicate ProcessedFrom(before: PlaylistEntry, after: PlaylistEntry, score: (Query, LrcLibTrack) -> MatchResult) {
    || after == before
    || (after == before.(status := after.status) && after.status in {Searching, Pending, NotFound})
    || (after.status == Found && after.matchData.Some?
        && after == before.(status := Found, matchData := after.matchData)
        && after.matchData.value == score(QueryOf(before), after.matchData.value.track))
  }

  /** The rules of one entry: the retry is made exactly when the first lookup resolved
      to nothing, no cancellation came in between and cleaning changes the name; a
      pause is asked for only with a pending entry; the outcome is one of the allowed
      changes; and an entry is left searching only under cancellation. */
  lemma ProcessEntryRules(entry: PlaylistEntry, services: Services, finder: Finder, cancel: Option<nat>, done: nat)
    requires ScoresItsTrack(services)
    ensures var o := ProcessEntry(entry, services, finder, cancel, done);
      && (o.lookups == 2 <==>
            !Aborted(cancel, done) && finder(LookupFor(entry, entry.trackName)) == Resolved(None)
            && !Aborted(cancel, done + 1) && services.clean(entry.trackName) != entry.trackName)
      && (o.lookups == 0 <==> Aborted(cancel, done))
      && (o.paused ==> o.entry.status == Pending)
      && ProcessedFrom(entry, o.entry, services.score)
      && (o.entry.status == Searching && entry.status != Searching ==> cancel.Some?)
  {
  }

  /** The retry looks up the cleaned name with the same artist, album and duration. */
  lemma RetryLookup(entry: PlaylistEntry)
    ensures var retry := LookupFor(entry, CleanTrackName(entry.trackName));
      var first := LookupFor(entry, entry.trackName);
      && retry.trackName == CleanTrackName(entry.trackName)
      && retry.artistName == first.artistName && retry.albumName == first.albumName
      && retry.duration == first.duration
  {
  }

  /** With a finder that never throws, no entry asks for a pause. */
  lemma {:induction false} LookUpNoPause(searching: PlaylistEntry, name: string, retries: nat, services: Services,
                                        finder: Finder, cancel: Option<nat>, done: nat, lookups: nat)
    requires forall l :: finder(l).Resolved?
    ensures !LookUp(searching, name, retries, services, finder, cancel, done, lookups).paused
    decreases retries
  {
    if retries > 0 {
      LookUpNoPause(searching, services.clean(name), retries - 1, services, finder, cancel, done, lookups + 1);
    }
  }

  /** An entry the pass leaves alone: outside a non-empty selection, or already found. */
  predicate Skipped(entry: PlaylistEntry, selected: set<string>) {
    (|selected| > 0 && entry.id !in selected) || entry.status == Found
  }

  /** The processing of one entry, `done` lookups into the pass. */
  type Step = (PlaylistEntry, nat) -> EntryOutcome

  /** `processEntry` with fixed components, finder and cancellation. */
  function EntryStep(services: Services, finder: Finder, cancel: Option<nat>): Step {
    (entry: PlaylistEntry, done: nat) => ProcessEntry(entry, services, finder, cancel, done)
  }

  /** The entries after the pass, the lookups made in total, and the pause flag. */
  datatype PassState = PassState(entries: seq<PlaylistEntry>, lookups: nat, paused: bool)

  /** `processAll` from index `i`, after `done` lookups: stop once cancelled, skip
      the skipped entries, process the others in order. */
  function PassFrom(entries: seq<PlaylistEntry>, i: nat, selected: set<string>, step: Step,
                    cancel: Option<nat>, done: nat, paused: bool): (r: PassState)
    requires i <= |entries|
    ensures |r.entries| == |entries|
    ensures r.lookups >= done
    decreases |entries| - i
  {
    if i == |entries| || Aborted(cancel, done) then PassState(entries, done, paused)
    else if Skipped(entries[i], selected) then PassFrom(entries, i + 1, selected, step, cancel, done, paused)
    else
      var o := step(entries[i], done);
      PassFrom(entries[i := o.entry], i + 1, selected, step, cancel, done + o.lookups, paused || o.paused)
  }

  /** The whole pass with the playlist manager's own components, from the first entry
      with no lookup made and no pause. */
  function ProcessAllSpec(entries: seq<PlaylistEntry>, selected: set<string>, finder: Finder, cancel: Option<nat>): PassState {
    PassFrom(entries, 0, selected, EntryStep(Standard(), finder, cancel), cancel, 0, false)
  }

  /** `processEntry` on the shared array: marks the entry searching before the first
      lookup and writes its final state in place. */
  method ProcessEntryAt(entries: array<PlaylistEntry>, index: nat, services: Services, finder: Finder, cancel: Option<nat>, done: nat)
    returns (lookups: nat, paused: bool)
    requires index < entries.Length
    modifies entries
    ensures var o := ProcessEntry(old(entries[index]), services, finder, cancel, done);
      entries[..] == old(entries[..])[index := o.entry] && lookups == o.lookups && paused == o.paused
  {
    if Aborted(cancel, done) {
      return 0, false;
    }
    var entry := entries[index];
    entries[index] := entry.(status := Searching);
    var attempt := finder(LookupFor(entry, entry.trackName));
    lookups := 1;
    if attempt.Resolved? && attempt.found.None? {
      if Aborted(cancel, done + 1) {
        return lookups, false;
      }
      var cleaned := services.clean(entry.trackName);
      if cleaned != entry.trackName {
        attempt := finder(LookupFor(entry, cleaned));
        lookups := 2;
      }
    }
    paused := false;
    if attempt.Threw? {
      if IsRateLimit(attempt.status, attempt.message) {
        paused := true;
        entries[index] := entries[index].(status := Pending);
      } else {
        entries[index] := entries[index].(status := NotFound);
      }
      return;
    }
    if Aborted(cancel, done + lookups) {
      return;
    }
    if attempt.found.Some? {
      var matchData := services.score(QueryOf(entry), attempt.found.value);
      entries[index] := entries[index].(status := Found, matchData := Some(matchData));
    } else {
      entries[index] := entries[index].(status := NotFound);
    }
  }

  /** `processAll`, one entry after the other: stops at cancellation, skips entries
      outside a non-empty selection and entries already found, and processes the rest. */
  method ProcessAll(entries: array<PlaylistEntry>, selected: set<string>, services: Services, finder: Finder, cancel: Option<nat>)
    returns (lookups: nat, paused: bool)
    modifies entries
    ensures PassState(entries[..], lookups, paused)
      == PassFrom(old(entries[..]), 0, selected, EntryStep(services, finder, cancel), cancel, 0, false)
  {
    ghost var pass := PassFrom(entries[..], 0, selected, EntryStep(services, finder, cancel), cancel, 0, false);
    lookups, paused := 0, false;
    var i := 0;
    while i < entries.Length
      invariant 0 <= i <= entries.Length
      invariant PassFrom(entries[..], i, selected, EntryStep(services, finder, cancel), cancel, lookups, paused) == pass
    {
      var stop;
      lookups, paused, stop := Advance(entries, i, selected, services, finder, cancel, lookups, paused);
      if stop {
        break;
      }
      i := i + 1;
    }
  }

  /** One turn of the `processAll` loop at entry `i`: stop when cancelled, move on
      past a skipped entry, or process the entry. */
  method Advance(entries: array<PlaylistEntry>, i: nat, selected: set<string>, services: Services, finder: Finder,
                 cancel: Option<nat>, done: nat, paused: bool)
    returns (lookups: nat, paused': bool, stop: bool)
    requires i < entries.Length
    modifies entries
    ensures stop ==> Aborted(cancel, done) && entries[..] == old(entries[..]) && lookups == done && paused' == paused
    ensures !stop ==> (PassFrom(old(entries[..]), i, selected, EntryStep(services, finder, cancel), cancel, done, paused)
      == PassFrom(entries[..], i + 1, selected, EntryStep(services, finder, cancel), cancel, lookups, paused'))
  {
    if Aborted(cancel, done) {
      return done, paused, true;
    }
    stop := false;
    if (|selected| > 0 && entries[i].id !in selected) || entries[i].status == Found {
      SkippedStep(entries[..], i, selected, EntryStep(services, finder, cancel), cancel, done, paused);
      return done, paused, false;
    }
    ghost var before := entries[..];
    var n, p := ProcessEntryAt(entries, i, services, finder, cancel, done);
    lookups, paused' := done + n, paused || p;
    ProcessedStep(before, entries[..], i, selected, services, finder, cancel, done, paused, n, p);
  }

  /** A skipped entry moves the pass on by one and changes nothing. */
  lemma SkippedStep(entries: seq<PlaylistEntry>, i: nat, selected: set<string>, step: Step,
                    cancel: Option<nat>, done: nat, paused: bool)
    requires i < |entries| && !Aborted(cancel, done) && Skipped(entries[i], selected)
    ensures PassFrom(entries, i, selected, step, cancel, done, paused)
      == PassFrom(entries, i + 1, selected, step, cancel, done, paused)
  {
  }

  /** A processed entry moves the pass on by one. */
  lemma ProcessedStep(before: seq<PlaylistEntry>, after: seq<PlaylistEntry>, i: nat, selected: set<string>,
                      services: Services, finder: Finder, cancel: Option<nat>, done: nat, paused: bool, n: nat, p: bool)
    requires i < |before| && !Aborted(cancel, done) && !Skipped(before[i], selected)
    requires var o := ProcessEntry(before[i], services, finder, cancel, done);
      after == before[i := o.entry] && n == o.lookups && p == o.paused
    ensures PassFrom(before, i, selected, EntryStep(services, finder, cancel), cancel, done, paused)
      == PassFrom(after, i + 1, selected, EntryStep(services, finder, cancel), cancel, done + n, paused || p)
  {
    var step := EntryStep(services, finder, cancel);
    assert step(before[i], done) == ProcessEntry(before[i], services, finder, cancel, done);
    PassFromUnfold(before, i, selected, step, cancel, done, paused);
  }

  /** `processAll` with the playlist manager's own cleaner and scorer. */
  method ProcessPlaylist(entries: array<PlaylistEntry>, selected: set<string>, finder: Finder, cancel: Option<nat>)
    returns (lookups: nat, paused: bool)
    modifies entries
    ensures PassState(entries[..], lookups, paused) == ProcessAllSpec(old(entries[..]), selected, finder, cancel)
  {
    lookups, paused := ProcessAll(entries, selected, Standard(), finder, cancel);
  }

  /** Entries before `i` and skipped entries are left as they were by a pass. */
  lemma {:induction false} PassFromKeeps(entries: seq<PlaylistEntry>, i: nat, selected: set<string>, step: Step,
                                        cancel: Option<nat>, done: nat, paused: bool)
    requires i <= |entries|
    ensures var r := PassFrom(entries, i, selected, step, cancel, done, paused);
      forall k :: 0 <= k < |entries| && (k < i || Skipped(entries[k], selected)) ==> r.entries[k] == entries[k]
    decreases |entries| - i
  {
    if i == |entries| || Aborted(cancel, done) {
    } else if Skipped(entries[i], selected) {
      PassFromKeeps(entries, i + 1, selected, step, cancel, done, paused);
    } else {
      var o := step(entries[i], done);
      var next := entries[i := o.entry];
      PassFromKeeps(next, i + 1, selected, step, cancel, done + o.lookups, paused || o.paused);
      var r := PassFrom(next, i + 1, selected, step, cancel, done + o.lookups, paused || o.paused);
      forall k | 0 <= k < |entries| && (k < i || Skipped(entries[k], selected))
        ensures r.entries[k] == entries[k]
      {
        assert next[k] == entries[k];
      }
    }
  }

  /** The change an entry may undergo in a pass: one of the allowed ones, and left
      searching only under cancellation. */
  ghost predicate Changed(before: PlaylistEntry, after: PlaylistEntry, score: (Query, LrcLibTrack) -> MatchResult, cancel: Option<nat>) {
    && ProcessedFrom(before, after, score)
    && (after.status == Searching && before.status != Searching ==> cancel.Some?)
  }

  /** A step that changes each entry only in an allowed way. */
  ghost predicate StepChanges(step: Step, score: (Query, LrcLibTrack) -> MatchResult, cancel: Option<nat>) {
    forall entry, done :: Changed(entry, step(entry, done).entry, score, cancel)
  }

  /** Every entry changes during a pass only in one of the allowed ways, and is left
      searching only under cancellation. */
  lemma PassFromChanges(entries: seq<PlaylistEntry>, i: nat, selected: set<string>, step: Step,
                        score: (Query, LrcLibTrack) -> MatchResult, cancel: Option<nat>, done: nat, paused: bool)
    requires i <= |entries| && StepChanges(step, score, cancel)
    ensures var r := PassFrom(entries, i, selected, step, cancel, done, paused);
      forall k :: 0 <= k < |entries| ==> Changed(entries[k], r.entries[k], score, cancel)
  {
    forall k | 0 <= k < |entries|
      ensures Changed(entries[k], PassFrom(entries, i, selected, step, cancel, done, paused).entries[k], score, cancel)
    {
      PassFromChangesAt(entries, i, selected, step, score, cancel, done, paused, k);
    }
  }

  /** The same, one entry at a time. */
  lemma {:induction false} PassFromChangesAt(entries: seq<PlaylistEntry>, i: nat, selected: set<string>, step: Step,
                                            score: (Query, LrcLibTrack) -> MatchResult, cancel: Option<nat>,
                                            done: nat, paused: bool, k: nat)
    requires i <= |entries| && k < |entries| && StepChanges(step, score, cancel)
    ensures Changed(entries[k], PassFrom(entries, i, selected, step, cancel, done, paused).entries[k], score, cancel)
    decreases |entries| - i
  {
    if i == |entries| || Aborted(cancel, done) {
      ChangedSelf(entries[k], score, cancel);
    } else if Skipped(entries[i], selected) {
      PassFromChangesAt(entries, i + 1, selected, step, score, cancel, done, paused, k);
    } else if k == i {
      ProcessedEntryChanged(entries, i, selected, step, score, cancel, done, paused);
    } else {
      var o := step(entries[i], done);
      PassFromChangesAt(entries[i := o.entry], i + 1, selected, step, score, cancel, done + o.lookups, paused || o.paused, k);
      PassFromOther(entries, i, selected, step, cancel, done, paused, k);
    }
  }

  lemma ChangedSelf(entry: PlaylistEntry, score: (Query, LrcLibTrack) -> MatchResult, cancel: Option<nat>)
    ensures Changed(entry, entry, score, cancel)
  {
  }

  /** The entry a pass processes ends as the step left it. */
  lemma ProcessedEntryChanged(entries: seq<PlaylistEntry>, i: nat, selected: set<string>, step: Step,
                              score: (Query, LrcLibTrack) -> MatchResult, cancel: Option<nat>, done: nat, paused: bool)
    requires i < |entries| && !Aborted(cancel, done) && !Skipped(entries[i], selected)
    requires StepChanges(step, score, cancel)
    ensures Changed(entries[i], PassFrom(entries, i, selected, step, cancel, done, paused).entries[i], score, cancel)
  {
    var o := step(entries[i], done);
    var next := entries[i := o.entry];
    PassFromUnfold(entries, i, selected, step, cancel, done, paused);
    PassFromKeeps(next, i + 1, selected, step, cancel, done + o.lookups, paused || o.paused);
    assert PassFrom(entries, i, selected, step, cancel, done, paused).entries[i] == o.entry;
  }

  /** Processing entry `i` leaves every other entry to the rest of the pass. */
  lemma PassFromOther(entries: seq<PlaylistEntry>, i: nat, selected: set<string>, step: Step,
                      cancel: Option<nat>, done: nat, paused: bool, k: nat)
    requires i < |entries| && !Aborted(cancel, done) && !Skipped(entries[i], selected)
    requires k < |entries| && k != i
    ensures var o := step(entries[i], done);
      && entries[i := o.entry][k] == entries[k]
      && PassFrom(entries, i, selected, step, cancel, done, paused).entries[k]
         == PassFrom(entries[i := o.entry], i + 1, selected, step, cancel, done + o.lookups, paused || o.paused).entries[k]
  {
    PassFromUnfold(entries, i, selected, step, cancel, done, paused);
  }

  lemma PassFromUnfold(entries: seq<PlaylistEntry>, i: nat, selected: set<string>, step: Step,
                        cancel: Option<nat>, done: nat, paused: bool)
    requires i < |entries| && !Aborted(cancel, done) && !Skipped(entries[i], selected)
    ensures var o := step(entries[i], done);
      PassFrom(entries, i, selected, step, cancel, done, paused)
        == PassFrom(entries[i := o.entry], i + 1, selected, step, cancel, done + o.lookups, paused || o.paused)
  {
  }

  /** With at most two lookups per processed entry, a pass from `i` makes at most two
      per remaining entry, and once cancellation is due no entry is started: a pass
      cancelled after `c` lookups makes at most `c + 1`. */
  lemma {:induction false} PassFromLookups(entries: seq<PlaylistEntry>, i: nat, selected: set<string>, step: Step,
                                          cancel: Option<nat>, done: nat, paused: bool)
    requires i <= |entries|
    requires forall entry, d :: step(entry, d).lookups <= 2
    ensures var r := PassFrom(entries, i, selected, step, cancel, done, paused);
      && r.lookups <= done + 2 * (|entries| - i)
      && (cancel.Some? ==> r.lookups <= if done >= cancel.value then done else cancel.value + 1)
    decreases |entries| - i
  {
    if i == |entries| || Aborted(cancel, done) {
    } else if Skipped(entries[i], selected) {
      PassFromLookups(entries, i + 1, selected, step, cancel, done, paused);
    } else {
      var o := step(entries[i], done);
      PassFromLookups(entries[i := o.entry], i + 1, selected, step, cancel, done + o.lookups, paused || o.paused);
    }
  }

  /** A pass over entries that are all skipped changes nothing and looks nothing up. */
  lemma {:induction false} PassFromAllSkipped(entries: seq<PlaylistEntry>, i: nat, selected: set<string>, step: Step,
                                             cancel: Option<nat>, done: nat, paused: bool)
    requires i <= |entries|
    requires forall k :: i <= k < |entries| ==> Skipped(entries[k], selected)
    ensures PassFrom(entries, i, selected, step, cancel, done, paused) == PassState(entries, done, paused)
    decreases |entries| - i
  {
    if i < |entries| && !Aborted(cancel, done) {
      PassFromAllSkipped(entries, i + 1, selected, step, cancel, done, paused);
    }
  }

  /** With a step that never asks for a pause the pause flag keeps its value. */
  lemma {:induction false} PassFromNoPause(entries: seq<PlaylistEntry>, i: nat, selected: set<string>, step: Step,
                                          cancel: Option<nat>, done: nat, paused: bool)
    requires i <= |entries|
    requires forall entry, d :: !step(entry, d).paused
    ensures PassFrom(entries, i, selected, step, cancel, done, paused).paused == paused
    decreases |entries| - i
  {
    if i == |entries| || Aborted(cancel, done) {
    } else if Skipped(entries[i], selected) {
      PassFromNoPause(entries, i + 1, selected, step, cancel, done, paused);
    } else {
      var o := step(entries[i], done);
      PassFromNoPause(entries[i := o.entry], i + 1, selected, step, cancel, done + o.lookups, paused || o.paused);
    }
  }

  /** What `processEntry` guarantees every entry of the pass. */
  lemma EntryStepProperties(services: Services, finder: Finder, cancel: Option<nat>)
    requires ScoresItsTrack(services)
    ensures StepChanges(EntryStep(services, finder, cancel), services.score, cancel)
    ensures forall entry, d :: EntryStep(services, finder, cancel)(entry, d).lookups <= 2
  {
    forall entry, d ensures Changed(entry, EntryStep(services, finder, cancel)(entry, d).entry, services.score, cancel) {
      ProcessEntryRules(entry, services, finder, cancel, d);
    }
  }

  /** The whole pass: same length; found entries and entries outside a non-empty
      selection untouched; every other entry changed only in an allowed way, with
      match data from `calculateConfidence`; at most two lookups per entry and at most
      one beyond a cancellation; a playlist that is all found, or a cancellation
      before the first lookup, leaves everything as it was. */
  lemma ProcessAllProperties(entries: seq<PlaylistEntry>, selected: set<string>, finder: Finder, cancel: Option<nat>)
    ensures var r := ProcessAllSpec(entries, selected, finder, cancel);
      && |r.entries| == |entries|
      && (forall k :: 0 <= k < |entries| && Skipped(entries[k], selected) ==> r.entries[k] == entries[k])
      && (forall k :: 0 <= k < |entries| ==> Changed(entries[k], r.entries[k], Confidence, cancel))
      && r.lookups <= 2 * |entries|
      && (cancel.Some? ==> r.lookups <= cancel.value + 1)
      && ((forall k :: 0 <= k < |entries| ==> entries[k].status == Found) ==> r == PassState(entries, 0, false))
      && (cancel == Some(0) ==> r == PassState(entries, 0, false))
  {
    var step := EntryStep(Standard(), finder, cancel);
    EntryStepProperties(Standard(), finder, cancel);
    PassFromKeeps(entries, 0, selected, step, cancel, 0, false);
    PassFromChanges(entries, 0, selected, step, Confidence, cancel, 0, false);
    PassFromLookups(entries, 0, selected, step, cancel, 0, false);
    if forall k :: 0 <= k < |entries| ==> entries[k].status == Found {
      PassFromAllSkipped(entries, 0, selected, step, cancel, 0, false);
    }
  }

  /** Looking up through the lyrics-store client never ends in a pause. */
  lemma StoreFinderNeverPauses(entries: seq<PlaylistEntry>, selected: set<string>, store: LrcService.LyricsStore,
                               strategy: SearchStrategy, cancel: Option<nat>)
    ensures !ProcessAllSpec(entries, selected, StoreFinder(store, strategy), cancel).paused
  {
    var finder := StoreFinder(store, strategy);
    var step := EntryStep(Standard(), finder, cancel);
    forall entry, d ensures !step(entry, d).paused {
      if !Aborted(cancel, d) {
        LookUpNoPause(entry.(status := Searching), entry.trackName, 1, Standard(), finder, cancel, d, 0);
      }
    }
    PassFromNoPause(entries, 0, selected, step, cancel, 0, false);
  }

  /** `assignManualMatch`: with an entry being edited, the entry with its id becomes
      found with the chosen track, scored without a duration; every other entry, and
      everything when nothing is edited, stays as it was. */
  function AssignManualMatch(entries: seq<PlaylistEntry>, editingId: Option<string>, track: LrcLibTrack): (r: seq<PlaylistEntry>)
    ensures |r| == |entries|
  {
    seq(|entries|, k requires 0 <= k < |entries| =>
      if editingId.Some? && entries[k].id == editingId.value
      then entries[k].(status := Found,
                       matchData := Some(Confidence(Query(entries[k].trackName, entries[k].artistName, None), track)))
      else entries[k])
  }

  /** Only the edited entry changes; it is found with the chosen track, its score is
      the title and artist terms renormalised without a duration, and its third reason
      says the duration comparison was skipped. Assigning the same match again
      changes nothing more. */
  lemma AssignManualMatchProperties(entries: seq<PlaylistEntry>, editingId: Option<string>, track: LrcLibTrack)
    ensures var r := AssignManualMatch(entries, editingId, track);
      && (forall k :: 0 <= k < |entries| && (editingId.None? || entries[k].id != editingId.value) ==> r[k] == entries[k])
      && (forall k :: 0 <= k < |entries| && editingId.Some? && entries[k].id == editingId.value ==>
            && r[k].status == Found && r[k].matchData.Some?
            && r[k].matchData.value.track == track
            && r[k].matchData.value.confidenceReasons[2] == SkippedReason
            && r[k].matchData.value.confidenceScore
               == (TitleWeight * Similarity(entries[k].trackName, track.trackName)
                   + ArtistWeight * Similarity(entries[k].artistName, track.artistName)) / (TitleWeight + ArtistWeight)
            && r[k] == entries[k].(status := Found, matchData := r[k].matchData))
      && AssignManualMatch(r, editingId, track) == r
  {
    var r := AssignManualMatch(entries, editingId, track);
    forall k | 0 <= k < |entries| && editingId.Some? && entries[k].id == editingId.value
      ensures r[k].matchData.Some? && r[k].matchData.value.confidenceReasons[2] == SkippedReason
      ensures r[k].matchData.value.confidenceScore
        == (TitleWeight * Similarity(entries[k].trackName, track.trackName)
            + ArtistWeight * Similarity(entries[k].artistName, track.artistName)) / (TitleWeight + ArtistWeight)
    {
      ConfidenceWithoutDuration(Query(entries[k].trackName, entries[k].artistName, None), track);
    }
    assert AssignManualMatch(r, editingId, track) == r;
  }

  /** One element of an imported JSON array; absent and non-string fields are `None`. */
  datatype JsonItem = JsonItem(
    id: Option<string>,
    trackName: Option<string>,
    title: Option<string>,
    artistName: Option<string>,
    artist: Option<string>,
    albumName: Option<string>,
    duration: Option<int>,
    fileName: Option<string>,
    status: Option<Status>)

  /** `a || b` for an optional string: `a` unless it is absent or empty. */
  function OrElse(a: Option<string>, b: string): string {
    if a.Some? && a.value != "" then a.value else b
  }

  /** The entry an item becomes; `newId` is the id generated for it, used when
      `keepIdentity` is off (file import) or the item has no id of its own (editing).
      With `keepIdentity` on, an item's own status is kept as well. */
  function Normalise(item: JsonItem, newId: string, keepIdentity: bool): PlaylistEntry {
    PlaylistEntry(
      if keepIdentity then OrElse(item.id, newId) else newId,
      None,
      OrElse(item.trackName, OrElse(item.title, "")),
      OrElse(item.artistName, OrElse(item.artist, "")),
      item.albumName,
      Some(if item.duration.Some? then item.duration.value else 0),
      if keepIdentity && item.status.Some? then item.status.value else Pending,
      None,
      item.fileName)
  }

  /** An entry survives the import filter when it has both a track and an artist name. */
  predicate Importable(entry: PlaylistEntry) {
    entry.trackName != "" && entry.artistName != ""
  }

  /** JSON import (file import with `keepIdentity` off, applying edits with it on):
      every item normalised with its own fresh id, then the entries lacking a track
      or artist name dropped, in order. */
  function ImportEntries(items: seq<JsonItem>, freshIds: seq<string>, keepIdentity: bool): (r: seq<PlaylistEntry>)
    requires |freshIds| == |items|
    ensures |r| <= |items|
  {
    if items == [] then []
    else
      var entry := Normalise(items[0], freshIds[0], keepIdentity);
      (if Importable(entry) then [entry] else []) + ImportEntries(items[1..], freshIds[1..], keepIdentity)
  }

  /** Every imported entry is importable and unmatched; on file import it is also
      pending and carries one of the fresh ids. */
  lemma {:induction false} ImportEntriesSound(items: seq<JsonItem>, freshIds: seq<string>, keepIdentity: bool)
    requires |freshIds| == |items|
    ensures forall e :: e in ImportEntries(items, freshIds, keepIdentity) ==> Importable(e) && e.matchData.None?
    ensures !keepIdentity ==>
      forall e :: e in ImportEntries(items, freshIds, keepIdentity) ==> e.status == Pending && e.id in freshIds
  {
    if items != [] {
      ImportEntriesSound(items[1..], freshIds[1..], keepIdentity);
      assert forall id :: id in freshIds[1..] ==> id in freshIds;
    }
  }

  /** Every item whose entry is importable is imported. */
  lemma {:induction false} ImportEntriesComplete(items: seq<JsonItem>, freshIds: seq<string>, keepIdentity: bool)
    requires |freshIds| == |items|
    ensures forall k :: 0 <= k < |items| && Importable(Normalise(items[k], freshIds[k], keepIdentity)) ==>
      Normalise(items[k], freshIds[k], keepIdentity) in ImportEntries(items, freshIds, keepIdentity)
  {
    if items != [] {
      ImportEntriesComplete(items[1..], freshIds[1..], keepIdentity);
      var rest := ImportEntries(items[1..], freshIds[1..], keepIdentity);
      forall k | 1 <= k < |items| && Importable(Normalise(items[k], freshIds[k], keepIdentity))
        ensures Normalise(items[k], freshIds[k], keepIdentity) in rest
      {
        assert items[1..][k - 1] == items[k] && freshIds[1..][k - 1] == freshIds[k];
      }
    }
  }

  /** The name fallbacks: `trackName`, else `title`; `artistName`, else `artist`;
      a missing or zero duration becomes 0. */
  lemma NormaliseFallbacks(item: JsonItem, newId: string, keepIdentity: bool)
    ensures var e := Normalise(item, newId, keepIdentity);
      && (item.trackName.Some? && item.trackName.value != "" ==> e.trackName == item.trackName.value)
      && (item.trackName.None? || item.trackName.value == "" ==> e.trackName == OrElse(item.title, ""))
      && (item.artistName.Some? && item.artistName.value != "" ==> e.artistName == item.artistName.value)
      && (item.artistName.None? || item.artistName.value == "" ==> e.artistName == OrElse(item.artist, ""))
      && e.duration.Some? && (item.duration.None? ==> e.duration.value == 0)
  {
  }

  /** `toggleSelection`: the id's membership flips, every other id keeps its own. */
  function ToggleSelection(selected: set<string>, id: string): (r: set<string>)
    ensures id in r <==> id !in selected
    ensures forall other :: other != id ==> (other in r <==> other in selected)
  {
    if id in selected then selected - {id} else selected + {id}
  }

  /** Toggling the same id twice restores the selection. */
  lemma ToggleSelectionTwice(selected: set<string>, id: string)
    ensures ToggleSelection(ToggleSelection(selected, id), id) == selected
  {
  }

  function Ids(entries: seq<PlaylistEntry>): set<string> {
    set k | 0 <= k < |entries| :: entries[k].id
  }

  /** `toggleSelectAll`: clears the selection when it has as many ids as there are
      entries, and selects every entry otherwise. */
  function ToggleSelectAll(selected: set<string>, entries: seq<PlaylistEntry>): (r: set<string>)
    ensures r == {} || r == Ids(entries)
  {
    if |selected| == |entries| then {} else Ids(entries)
  }

  /** With distinct ids, selecting everything and toggling clears the selection, and
      toggling an empty selection of a non-empty list selects everything. */
  lemma ToggleSelectAllProperties(entries: seq<PlaylistEntry>)
    requires forall k, l :: 0 <= k < l < |entries| ==> entries[k].id != entries[l].id
    ensures ToggleSelectAll(Ids(entries), entries) == {}
    ensures entries != [] ==> ToggleSelectAll({}, entries) == Ids(entries)
  {
    IdsCount(entries);
  }

  /** Distinct ids: as many ids as entries. */
  lemma {:induction false} IdsCount(entries: seq<PlaylistEntry>)
    requires forall k, l :: 0 <= k < l < |entries| ==> entries[k].id != entries[l].id
    ensures |Ids(entries)| == |entries|
  {
    if entries != [] {
      var rest := entries[..|entries| - 1];
      IdsCount(rest);
      IdsOfLast(entries);
    }
  }

  /** The ids of a non-empty list: those before the last entry, and the last one's,
      which is new when the ids are distinct. */
  lemma IdsOfLast(entries: seq<PlaylistEntry>)
    requires entries != []
    requires forall k, l :: 0 <= k < l < |entries| ==> entries[k].id != entries[l].id
    ensures Ids(entries) == Ids(entries[..|entries| - 1]) + {entries[|entries| - 1].id}
    ensures entries[|entries| - 1].id !in Ids(entries[..|entries| - 1])
  {
    var rest := entries[..|entries| - 1];
    var last := entries[|entries| - 1].id;
    forall id | id in Ids(entries) ensures id in Ids(rest) + {last} {
      var k :| 0 <= k < |entries| && entries[k].id == id;
      if k < |entries| - 1 { assert rest[k] == entries[k]; }
    }
    forall id | id in Ids(rest) ensures id in Ids(entries) {
      var k :| 0 <= k < |rest| && rest[k].id == id;
      assert entries[k].id == id;
    }
    forall k | 0 <= k < |rest| ensures rest[k].id != last {
      assert rest[k] == entries[k];
    }
  }
}
