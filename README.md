# music: a Dafny model

This project models the core of `music`, a personal music tool. It has three
generations.

- **The Go command-line program.** It has several parts:
  - a last.fm scrobbler: the current `lastfm watch`, the older `lastfm` loop, and `lastfm import`;
  - a small SQLite layer: schema migrations and the table of pending plays;
  - `simpleconfig`, a `key=value` configuration file;
  - `play`'s song filter and its newest-first sorting;
  - the tag library: `tags`, `spotify set-origin`, and the playlist files;
  - `install`, a downloader front end;
  - utilities: reading the current song from `playerctl`, and path helpers.
- **The TypeScript player**, with its filter, its tag file, and its folder and URL helpers.
- **The Rust player**, with its filter and its `play` command.

The entities whose fields the program updates in place are Dafny classes. Each of those
classes has methods whose `modifies` clauses name the class. These entities are:
- the watcher's track state;
- the migration table;
- the plays table;
- the configuration;
- the tag library and tag file;
- the set-origin associations.

Pure computations are functions, each with lemmas that state its properties. Loops in
the source are `while` loops, proved against those functions. Anything outside the
program is a parameter of the method that needs it. That covers:
- the player's output;
- HTTP responses;
- MD5;
- the file system;
- the user's answers;
- `shlex`;
- the current time.

Every module corresponds to one source file:

| module | source file |
|---|---|
| `ArrayUtils` | `array-utils/array-utils.go` |
| `CurrentSong` | `utils/get-current-song.go` |
| `PlayFilter` | `commands/play/does-song-pass.go` |
| `SongFilter` | `src/does-song-pass.ts` |
| `Import` | `commands/lastfm/import.go` |
| `Install` | `commands/install.go` |
| `LastfmSignature` | the request signing of `commands/lastfm/watch.go` |
| `LegacyLastfm` | `commands/lastfm/lastfm.go` |
| `MainRs` | `src/main.rs` |
| `MainTs` | `src/main.ts` |
| `Migrations` | `db/migrations.go` |
| `PlayArrayMethods` | `commands/play/array-methods.go` |
| `Queries` | `db/queries.go` |
| `SetOrigin` | `commands/spotify/set-origin.go` |
| `SimpleConfig` | `simpleconfig/simpleconfig.go` |
| `SortSongs` | `commands/play/sort-songs.go` |
| `StringUtils` | `string-utils/string-utils.go` |
| `Tags` | `commands/tags/tags.go` |
| `TagList` | `src/tags.ts` |
| `Utils` | `utils/utils.go` |
| `Watch` | everything else in `commands/lastfm/watch.go` |

The remaining modules are for the model's own use:
- `SongSort`, newest-first ordering;
- `Text`, string operations with Go's, JavaScript's and Rust's semantics;
- `Wrappers`, `Option` and `Result`.

## Model

| member | source | states |
|---|---|---|
| ArrayUtils.Every | array-utils/array-utils.go:3-11 | true exactly when the validator holds for every element, including on an empty slice |
| ArrayUtils.Some | array-utils/array-utils.go:13-21 | true exactly when the validator holds for some element; false on an empty slice |
| ArrayUtils.Includes | array-utils/array-utils.go:23-27 | true exactly when the item is an element |
| ArrayUtils.FilterEmptyStrings | array-utils/array-utils.go:29-39 | the output is the input with the "" entries dropped, in order |
| ArrayUtils.NonEmptyMembers | array-utils/array-utils.go:29-39 | a string is kept exactly when it occurs in the input and is not "" |
| ArrayUtils.NonEmptyLength | array-utils/array-utils.go:29-39 | the output length is the input length minus the number of "" entries |
| ArrayUtils.NonEmptyIdentity | array-utils/array-utils.go:29-39 | a slice without "" entries comes back unchanged |
| ArrayUtils.NonEmptyIdempotent | array-utils/array-utils.go:29-39 | filtering twice is the same as filtering once |
| ArrayUtils.NonEmptyAppend | array-utils/array-utils.go:29-39 | filtering distributes over concatenation |
| CurrentSong.ParseMetadata | utils/get-current-song.go:33-49 | the loop over the output's lines builds the metadata map, one entry per line that has key and value |
| CurrentSong.MetadataLastLineWins | utils/get-current-song.go:35-48 | a key given by several lines takes the value of the last one |
| CurrentSong.MetadataAbsentKey | utils/get-current-song.go:35-48 | a key that no line gives is absent from the map |
| CurrentSong.MetadataKeysFromLines | utils/get-current-song.go:35-48 | every key of the map, with its value, comes from some line |
| CurrentSong.IgnoredLine | utils/get-current-song.go:36-45 | a blank line, or one with fewer than three fields, leaves the map unchanged |
| CurrentSong.LineEntryOfWords | utils/get-current-song.go:41-48 | "player key v1 v2" gives the key, with v1 and v2 joined by one space whatever whitespace separated them; the player name is dropped |
| CurrentSong.GetCurrentPlayingSong | utils/get-current-song.go:25-60 | a failed command gives cantGetMetadata; an empty or missing artist, title or length gives missingFields; otherwise the three values, all non-empty |
| PlayFilter.CheckQueries | commands/play/does-song-pass.go:27-45 | the loop rejects exactly when some exclusion is accepted; otherwise it reports whether some query was accepted |
| PlayFilter.DoesSongPass | commands/play/does-song-pass.go:5-54 | the result is the filter predicate Passes: the term requirement and the tag requirement both hold, and any accepted exclusion rejects |
| PlayFilter.SingleWordQuery | commands/play/does-song-pass.go:56-65 | a query without '#' or ',' is accepted exactly when the validator accepts it lower-cased, with its '!' removed |
| PlayFilter.TrailingCommaMatchesAll | commands/play/does-song-pass.go:56-65 | a word followed by ',' has an empty alternative, which every path contains |
| PlayFilter.QueryTextComma | commands/play/does-song-pass.go:57 | lower-casing and un-prefixing a word followed by ',' keeps the comma last and adds no '#' or ',' |
| PlayFilter.CommaSplits | commands/play/does-song-pass.go:58-61 | such text is a single section whose alternatives include "" |
| PlayFilter.LowerKeepsSymbol | commands/play/does-song-pass.go:57 | lower-casing neither adds nor removes '#', ',' or '!' |
| PlayFilter.BarePathUnderMusic | commands/play/does-song-pass.go:13 | a path under the lower-cased music directory is matched by the part below it |
| PlayFilter.BarePathFirstOnly | commands/play/does-song-pass.go:13 | only the first occurrence of the directory is removed |
| PlayFilter.ExclusionRules | commands/play/does-song-pass.go:27-53 | an accepted exclusion rejects whatever else matches; terms that are all exclusions, none accepted, satisfy the term requirement |
| PlayFilter.PassesIsConjunction | commands/play/does-song-pass.go:5-54 | no terms and no tags pass every song; when tags are given, a song passes only if some non-exclusion tag accepted it |
| SongFilter.MatchTerm | src/does-song-pass.ts:9-23 | whether the term is an exclusion, and whether every '#' section has a ',' alternative the path contains |
| SongFilter.BeforeAll | src/does-song-pass.ts:8-30 | after i terms, the loop's flags say whether some term matched, and whether some matching exclusion was seen |
| SongFilter.FlagsAtEnd | src/does-song-pass.ts:8-30 | once every term has been seen, those flags are "some term matches" and "some exclusion matches" |
| SongFilter.ExcludedEarly | src/does-song-pass.ts:24-26 | a matching exclusion found early is a matching exclusion of the whole list |
| SongFilter.DoesSongPass | src/does-song-pass.ts:1-37 | the result is Passes: no terms pass; a matching exclusion rejects; only exclusions, none matching, pass; otherwise some term must match |
| SongFilter.ExclusionOfLowered | src/does-song-pass.ts:9-11 | a term is an exclusion after lower-casing exactly when it starts with '!' as written |
| SongFilter.SingleWordMatches | src/does-song-pass.ts:17-21 | a term with no '#' and no ',' matches exactly when the path contains it |
| SongFilter.SingleTerm | src/does-song-pass.ts:1-37 | one plain term passes exactly the paths that contain it lower-cased; an exclusion passes exactly the paths that do not |
| SongFilter.ExclusionRules | src/does-song-pass.ts:24-36 | a matching exclusion rejects; only exclusions, none matching, pass; any other list passes exactly when some term matches and no exclusion matches |
| SongFilter.OnlyExclusionsNeverPass | src/main.ts:41-73 | under the later rule, which has no all-exclusions exception, a non-empty list of only exclusions never passes |
| Import.SelectFormat | commands/lastfm/import.go:144-148 | parsing succeeds exactly when one of --json and --text is given, and picks that one; each wrong combination gives its own message |
| Import.ImportTextFile | commands/lastfm/import.go:100-141 | the scanner loop gives the entries of the log: one per header whose next line is a scrobbling verdict |
| Import.OtherLineSkipped | commands/lastfm/import.go:108 | a line without "new song detected" adds nothing |
| Import.NoVerdictSkipped | commands/lastfm/import.go:109-112 | a header followed by a line that is not a scrobbling verdict adds nothing, and that line is not read as a header |
| Import.SecondHeaderConsumed | commands/lastfm/import.go:109-112 | of two headers in a row, the second is consumed as the first one's verdict line and yields nothing |
| Import.UnmatchedHeaderSkipped | commands/lastfm/import.go:113-115 | a header that the capture expression does not match is skipped silently |
| Import.BadTimeAborts | commands/lastfm/import.go:116-121 | a scrobbled header whose date does not parse fails the whole import |
| Import.ScrobbledHeaderFirst | commands/lastfm/import.go:113-128 | a scrobbled header gives artist, title and Unix time, placed ahead of the entries of the lines after it, so entries keep file order |
| Import.EntryProvenance | commands/lastfm/import.go:105-134 | every entry comes from a matched header directly followed by a verdict line |
| Import.EntriesBound | commands/lastfm/import.go:105-134 | the number of entries is at most half the number of lines |
| Import.PrependPrepend | commands/lastfm/import.go:123-127 | adding entries in front twice is the same as adding both lists at once |
| Import.BatchEnd | commands/lastfm/import.go:187-191 | a batch holds 1 to 50 songs, and exactly 50 unless it ends at the last song |
| Import.BatchesCover | commands/lastfm/import.go:186-239 | the batches start at the cursor, end at the last song, and follow one another; all but the last hold 50 songs |
| Import.BatchesCount | commands/lastfm/import.go:186-239 | the number of batches is the number of songs divided by 50, rounded up |
| Import.IndexedKeyNotFixed | commands/lastfm/import.go:196-206 | an indexed key such as "artist[3]" is never method, api_key, sk, api_sig or format |
| Import.IndexedKeyInjective | commands/lastfm/import.go:203-205 | distinct positions or distinct kinds give distinct keys |
| Import.BatchValuesContent | commands/lastfm/import.go:196-206 | a batch carries the three fixed keys, and artist[i], track[i] and timestamp[i] for the i-th song, and nothing else |
| Import.BatchFixedKeys | commands/lastfm/import.go:197-199 | method is track.scrobble; api_key and sk are the credentials |
| Import.BatchSongValues | commands/lastfm/import.go:201-206 | song i's artist, title and time are stored under its three indexed keys |
| Import.BatchSongValue | commands/lastfm/import.go:201-206 | the same, for one kind of key |
| Import.BatchValuesStep | commands/lastfm/import.go:201-206 | one more song adds exactly its three keys |
| Import.EarlierSongKept | commands/lastfm/import.go:201-206 | a later song's keys do not overwrite an earlier song's |
| Import.LastSongAdded | commands/lastfm/import.go:203-205 | the last song's keys hold its values |
| Import.BatchKeys | commands/lastfm/import.go:196-206 | the key set of a batch is the three fixed keys and the songs' indexed keys |
| Import.NewKeysAreNew | commands/lastfm/import.go:203-205 | the keys of song n differ from every key of an earlier song |
| Import.FillBatch | commands/lastfm/import.go:196-206 | the fill loop builds exactly the batch parameters |
| Import.BatchSignatureCovers | commands/lastfm/import.go:218-219 | a sent batch has format json, and its api_sig is the digest of every other parameter except format, followed by the secret |
| Import.SignBatch | commands/lastfm/import.go:218-219 | api_sig is set from the signature, and then format is set |
| Import.IsYesTrimmed | commands/lastfm/import.go:213 | the answer confirms exactly when it trims to "y" |
| Import.Ask | commands/lastfm/import.go:208-216 | the prompt confirms exactly when the answer for that batch trims to "y"; the end of input declines |
| Import.SendBatch | commands/lastfm/import.go:196-225 | a request is sent only for a confirmed batch; a transport error or a status above 299 is the failure that ends the import |
| Import.SendAfterSend | commands/lastfm/import.go:186-239 | the loop's running list of requests, with the rest sent after it, is the whole run |
| Import.SendBatches | commands/lastfm/import.go:179-241 | the cursor loop sends exactly the requests, and ends with the outcome, of the batch-by-batch run |
| Import.AllDeclined | commands/lastfm/import.go:213-216 | declining every batch sends nothing and ends without error |
| Import.FailureStops | commands/lastfm/import.go:221-229 | a failed import stops at the request that failed, which is the last one sent; every request before it succeeded, and every request of a successful import did |
| Import.AllSent | commands/lastfm/import.go:186-239 | with all batches confirmed and accepted, the i-th request carries exactly the i-th batch, and the import succeeds |
| Import.ImportRunner | commands/lastfm/import.go:143-242 | a flag error or a parse error sends nothing and is the result; otherwise the parsed songs are sent in batches |
| Install.Dispatch | commands/install.go:56-65 | a link containing "spotify" goes to spotdl; any other link needs a folder, otherwise "folder is required for youtube links" |
| Install.FormatFolderNameIdempotent | commands/install.go:230-232 | normalising a folder name twice is the same as normalising it once |
| Install.ScanByMatches | commands/install.go:163-177 | continuing the folder loop from a choice gives the single match, keeps the choice, or fails on a second match |
| Install.ChosenFolderSpec | commands/install.go:163-183 | a folder is chosen exactly when one directory matches the normalised name; no match gives "invalid folder"; more than one gives an error |
| Install.SelectFolder | commands/install.go:163-183 | the folder loop returns exactly the folder chosen by that rule |
| Install.YoutubeDlArgs | commands/install.go:185-215 | the argument list: the fixed options, the output template in the chosen folder, then the split extra arguments, then "--" and the video URL; a split error is returned |
| Install.UrlIsLast | commands/install.go:185-215 | the URL is the last argument, right after "--", and the extra arguments sit between the template and "--" |
| Install.SpotdlOutput | commands/install.go:104-114 | spotdl's output path: "Random" with artist and title for the folder "random"; the folder with the title; or an artist folder |
| Install.AfterDownload | commands/install.go:78-95 | an empty answer, or one starting with y or Y, ends the command; otherwise beet imports the newest file, or reports that beet is missing |
| LastfmSignature.Set | commands/lastfm/watch.go:87-90 | url.Values.Set gives the key its one value and keeps every other key |
| LastfmSignature.LessIrreflexive | commands/lastfm/watch.go:70 | no string is before itself in Go's string order |
| LastfmSignature.LessTransitive | commands/lastfm/watch.go:70 | that order is transitive |
| LastfmSignature.LessTotal | commands/lastfm/watch.go:70 | of two distinct strings, one is before the other |
| LastfmSignature.LessAsymmetric | commands/lastfm/watch.go:70 | that order is asymmetric |
| LastfmSignature.SortedKeys | commands/lastfm/watch.go:64-70 | the keys of a map, each once, in strictly ascending order |
| LastfmSignature.LeastExists | commands/lastfm/watch.go:70 | a non-empty key set has a least key |
| LastfmSignature.StrictlySortedUnique | commands/lastfm/watch.go:64-74 | two strictly ascending listings of the same keys are equal, so the signature does not depend on the order in which the map is enumerated |
| LastfmSignature.AscendingDistinctIsStrict | commands/lastfm/watch.go:70 | sorting keys with no repeats leaves them strictly ascending |
| LastfmSignature.DistinctNoRepeats | commands/lastfm/watch.go:64-68 | a listing without duplicates counts each key once |
| LastfmSignature.PreHashOfAscendingKeys | commands/lastfm/watch.go:72-76 | concatenating key and first value in any strictly ascending listing of the keys, then the secret, gives the pre-hash string |
| LastfmSignature.PreHashExample | commands/lastfm/watch.go:61-90 | for method and api_key, "api_key" comes first |
| LastfmSignature.PairsOfTwo | commands/lastfm/watch.go:72-74 | two keys give key, value, key, value in that order |
| LastfmSignature.SortStrings | commands/lastfm/watch.go:70 | sort.Strings leaves the array ascending and a permutation of what it held |
| LastfmSignature.SwapExtendsAscending | commands/lastfm/watch.go:70 | swapping the least remaining key into place extends the sorted prefix |
| LastfmSignature.LeastFrom | commands/lastfm/watch.go:70 | finds a key that no later key is before |
| LastfmSignature.CollectSortedKeys | commands/lastfm/watch.go:64-70 | the collected and sorted keys are exactly the parameter names, strictly ascending |
| LastfmSignature.MapKeys | commands/lastfm/watch.go:66-68 | ranging over a map visits every key exactly once |
| LastfmSignature.GenerateSignature | commands/lastfm/watch.go:61-83 | the signature is the digest of the pre-hash string, whatever order the map is enumerated in |
| LastfmSignature.FormatAfterSigning | commands/lastfm/watch.go:129-131 | removing api_sig and format from the sent parameters gives back the signed ones |
| LastfmSignature.SignedThenFormat | commands/lastfm/watch.go:129-131 | setting format after signing leaves a signature over every other parameter |
| LastfmSignature.NothingAfterSigning | commands/lastfm/watch.go:90 | removing api_sig gives back the signed parameters |
| LastfmSignature.ScrobbleKeys | commands/lastfm/watch.go:166-172 | the scrobble parameters are exactly method, api_key, artist, track, timestamp and sk |
| LastfmSignature.ScrobbleParams | commands/lastfm/watch.go:165-174 | track.scrobble's parameters: api_sig signs every parameter except itself and format, which is set after it |
| LastfmSignature.SessionKeys | commands/lastfm/watch.go:126-128 | the parameters of auth.getSession are exactly method, api_key and token |
| LastfmSignature.SessionParams | commands/lastfm/watch.go:124-131 | auth.getSession's parameters: format is set after signing, so it is not signed |
| LastfmSignature.AuthTokenKeys | commands/lastfm/watch.go:87-89 | the parameters of auth.gettoken are exactly method, format and api_key |
| LastfmSignature.AuthTokenParams | commands/lastfm/watch.go:85-90 | auth.gettoken's parameters: format is set before signing, so it is signed |
| LegacyLastfm.LegacyDecisionIsAttemptScrobble | commands/lastfm/lastfm.go:367-406 | the inline decision of the old loop is watch.go's attemptScrobble with the delay fixed at DEFAULT_INTERVAL_SECONDS |
| LegacyLastfm.LegacyFailureSkips | commands/lastfm/lastfm.go:316-361 | a failed position read or metadata read, or missing fields, skips the round with every loop variable unchanged |
| LegacyLastfm.LegacyDecisionOnlyOnChange | commands/lastfm/lastfm.go:366-407 | a decision is taken exactly when artist or title changed while a track with a usable length was playing |
| LegacyLastfm.LegacySameTrack | commands/lastfm/lastfm.go:426-428 | with the same artist and title only the last position moves, even when it went backwards |
| LegacyLastfm.LegacyNewTrack | commands/lastfm/lastfm.go:409-425 | a new artist or title starts a session at the sample: -1 or a length of at least 30 s from "vlc:time" |
| LegacyLastfm.RewindJudgedOnlyByWatch | commands/lastfm/lastfm.go:366-428 | a rewind within a session is ignored by the old loop and judged by watch.go's loop |
| LegacyLastfm.LegacyStepConsistent | commands/lastfm/lastfm.go:313-430 | a round keeps artist and title set together, and the length -1 or at least 30 s |
| LegacyLastfm.LegacyObserveConsistent | commands/lastfm/lastfm.go:363-428 | the same for a round whose reads succeeded |
| LegacyLastfm.LegacyRunConsistent | commands/lastfm/lastfm.go:312-431 | any run of rounds keeps that invariant |
| LegacyLastfm.LegacyRunExtend | commands/lastfm/lastfm.go:312-431 | a run with one more round appends that round's decision |
| LegacyLastfm.LegacyRunScrobblesHaveTrack | commands/lastfm/lastfm.go:366-407 | every scrobble of a run is for a session with a track |
| LegacyLastfm.LegacyDecisionSession | commands/lastfm/lastfm.go:394 | a scrobble carries the current session's track |
| LegacyLastfm.WatchForTracks | commands/lastfm/lastfm.go:304-432 | the loop over a finite run of rounds makes the run's decisions and ends in its state |
| LegacyLastfm.UsernameRejected | commands/lastfm/lastfm.go:239-248 | a username line is an unknown key here, but accepted by watch.go |
| LegacyLastfm.LegacyScanNoUsername | commands/lastfm/lastfm.go:228-249 | no scan of this revision fills in the username |
| LegacyLastfm.LegacyLineNoUsername | commands/lastfm/lastfm.go:239-248 | no line sets the username |
| LegacyLastfm.LegacyCredentialsOutcome | commands/lastfm/lastfm.go:253-263 | every failure returns empty credentials; a missing API key is reported before a missing secret |
| LegacyLastfm.LegacyApplyLine | commands/lastfm/lastfm.go:228-249 | one line: blank lines are skipped, the trimmed key selects the field, and an unknown key fails |
| LegacyLastfm.LegacyReadCredentials | commands/lastfm/lastfm.go:224-263 | the scanner loop gives the outcome of scanning every line and then checking the result |
| LegacyLastfm.LegacyScanStep | commands/lastfm/lastfm.go:228-249 | one more line applies that line to what was read so far |
| LegacyLastfm.LegacyScanFails | commands/lastfm/lastfm.go:247 | a failing line decides the whole scan |
| LegacyLastfm.LegacyScanLast | commands/lastfm/lastfm.go:228-249 | the last line applies to what the lines before it gave |
| LegacyLastfm.LegacyErrorSticks | commands/lastfm/lastfm.go:247 | lines after a failure are not looked at |
| Watch.Threshold | commands/lastfm/watch.go:340-347 | half the length when the padded listen time exceeds it, else 240 s when that is exceeded, else -1; a threshold that is passed is below the padded time |
| Watch.AttemptScrobble | commands/lastfm/watch.go:339-378 | no scrobble if no listen condition holds; a scrobble of the session's artist, track and start time when the real time exceeds the threshold minus 10 s; the reason is "half way" exactly when that condition held |
| Watch.ScrobbleNeedsListening | commands/lastfm/watch.go:339-378 | a scrobble needs the song played past half its length or past 240 s, and real time no more than 10 s short of that |
| Watch.HalfWayTakesPrecedence | commands/lastfm/watch.go:343-361 | past half way with enough real time, the reason is "over half way" even when the minimum was also passed |
| Watch.ReadPosition | commands/lastfm/watch.go:322-337 | a position is read exactly when the command succeeds, does not say "No player could handle this command", and parses after trimming |
| Watch.SessionLength | commands/lastfm/watch.go:445-455 | the session length is "vlc:time" when it parses to at least 30 s, otherwise -1 |
| Watch.StepPositionFailure | commands/lastfm/watch.go:386-396 | a failed position read with a track makes one attempt at position 0, whatever the length, then clears artist and title; without a track nothing happens |
| Watch.StepMetadataFailure | commands/lastfm/watch.go:398-429 | a failed metadata read, or one missing artist, title or "vlc:length", leaves the state unchanged |
| Watch.ObserveAttempt | commands/lastfm/watch.go:434-436 | an attempt is made exactly when the identity changed or the position went back, a track was playing and its length was usable |
| Watch.ObserveNewTrack | commands/lastfm/watch.go:438-455 | a new identity starts a new session at this sample |
| Watch.ObserveSameTrack | commands/lastfm/watch.go:456-463 | with the same identity the position is recorded, and the start time is reset exactly when the position went back |
| Watch.StepConsistent | commands/lastfm/watch.go:384-465 | a round keeps artist and title set and cleared together, and a playing track's length -1 or at least 30 s |
| Watch.ObserveConsistent | commands/lastfm/watch.go:425-463 | the same for a round whose reads succeeded |
| Watch.UnusableLengthScrobbledOnClose | commands/lastfm/watch.go:386-391 | a track whose length could not be used is scrobbled as "over half way" once the player goes away, because that attempt skips the length check |
| Watch.RunExtend | commands/lastfm/watch.go:383-466 | a run with one more round appends that round's attempt |
| Watch.RunConsistent | commands/lastfm/watch.go:383-466 | any run keeps the invariant |
| Watch.ExitDecision | commands/lastfm/watch.go:519-529 | on exit, one attempt exactly when a track is playing and its position can be read |
| Watch.CurrentTrackInfo.constructor | commands/lastfm/watch.go:469-475 | every field starts at its zero value |
| Watch.CurrentTrackInfo.Tick | commands/lastfm/watch.go:384-465 | one iteration updates the fields as one round does, and returns its attempt |
| Watch.CurrentTrackInfo.CloseSession | commands/lastfm/watch.go:386-396 | the position read failed, so the session is closed |
| Watch.CurrentTrackInfo.Apply | commands/lastfm/watch.go:431-463 | the part of an iteration after both reads succeeded |
| Watch.CurrentTrackInfo.WatchForTracks | commands/lastfm/watch.go:380-467 | the loop over a finite run makes the run's attempts in order and leaves its state in the fields |
| Watch.CredentialLineParts | commands/lastfm/watch.go:249-251 | the key ends at the first '=', and the value keeps any later '=' |
| Watch.ApiKeyLine | commands/lastfm/watch.go:253-255 | an api_key line sets exactly ApiKey, to the trimmed value |
| Watch.UnknownKeyLine | commands/lastfm/watch.go:262-263 | an unknown key fails with the key as written, untrimmed |
| Watch.BlankCredentialLine | commands/lastfm/watch.go:245-247 | blank lines change nothing |
| Watch.ScanStep | commands/lastfm/watch.go:242-265 | one more line applies that line to what was read so far |
| Watch.ScanLast | commands/lastfm/watch.go:242-265 | the last line applies to what the lines before it gave |
| Watch.ScanFails | commands/lastfm/watch.go:263 | a failing line decides the whole scan |
| Watch.CredentialErrorSticks | commands/lastfm/watch.go:263 | lines after a failure are not looked at |
| Watch.CredentialsOutcome | commands/lastfm/watch.go:269-281 | an unknown key gives empty credentials; a missing key or secret returns what was read, key first; without a session key the authorisation is needed |
| Watch.ApplyLine | commands/lastfm/watch.go:243-264 | the loop body for one line is the line's effect on the credentials |
| Watch.ReadCredentials | commands/lastfm/watch.go:238-281 | the scanner loop gives the outcome of scanning every line and then checking |
| MainRs.WrittenPathKeepsMusicDirectory | src/main.rs:70-78 | as written: for a music directory ending in "Music", removing it from the lower-cased path removes nothing |
| MainRs.LoweredHoldsMusic | src/main.rs:70-76 | the lower-cased path of a song under the music directory contains "music" |
| MainRs.MusicTermPassesEverySong | src/main.rs:51-94 | as written, the term "music" passes every song under home + "/Music" |
| MainRs.MusicTermMatches | src/main.rs:80-90 | the single term "music" passes any path that contains it |
| MainRs.SongPathBelowMusic | src/main.rs:70-78 | corrected: a song below the music directory is matched by its lower-cased path below it |
| MainRs.CheckTerm | src/main.rs:59-92 | one term: whether it is an exclusion, and whether every section has an alternative that the song's path contains, the path being the corrected one of the finding below (the lower-cased music directory removed) |
| MainRs.DoesSongPass | src/main.rs:51-94 | no terms pass; a matching exclusion rejects; otherwise some term must match, with no all-exclusions exception; decided on the corrected path |
| MainRs.OnlyExclusionsRejectEverySong | src/main.rs:51-94 | a non-empty list of only exclusions passes no song |
| MainRs.Passing | src/main.rs:103-115 | the passing files of the walk, each a file of the walk that passes the corrected filter |
| MainRs.PassingPrefix | src/main.rs:103-115 | walking further only adds songs at the end |
| MainRs.Take | src/main.rs:109-113 | at most n elements, taken from the front, and all of them when there are fewer |
| MainRs.GetSongsByTerms | src/main.rs:96-118 | the walk loop returns the first `limit` files in walk order that pass the corrected filter |
| MainRs.ArrangeSongs | src/main.rs:210-221 | the sorts and the truncation keep the matched songs, at most `limit` of them, in walk order unless a time sort was asked for |
| MainRs.VlcArgs | src/main.rs:250-252 | vlc gets the songs, followed by "--no-random" exactly when the order is to be kept |
| MainRs.PlayMatching | src/main.rs:191-254 | no match under the corrected filter fails with "Didn't match anything"; otherwise the settled songs are printed for --dry-paths, or passed to vlc |
| MainRs.PlayCommand | src/main.rs:162-255 | a negative limit panics; no limit, no terms and no flags play the whole directory recursively; otherwise the first `limit` matches of the corrected filter are played |
| MainRs.CorrectedFilterDiffers | src/main.rs:70-78 | the two paths part on an ordinary song: as written the term "music" passes "/h/Music/a.mp3", with the corrected path it does not |
| MainRs.CorrectedAgreesOnLowerDirectory | src/main.rs:70-78 | the as-written and the corrected filter decide alike whenever the music directory has no upper-case letter |
| MainTs.DoesSongPass | src/main.ts:41-73 | the inline filter decides by the later rule: some term matches and no exclusion does, with no all-exclusions exception |
| MainTs.InlineAgainstModule | src/main.ts:41-73 | this copy and src/does-song-pass.ts agree, except on a list of only exclusions none of which matches, which only the module passes |
| MainTs.FirstWithKeyIsFirst | src/main.ts:254-262 | the folder chosen is the first one with the same normalised name; when none has it, nothing is chosen |
| MainTs.SelectFolder | src/main.ts:250-266 | the loop chooses that folder, or fails with "Invalid folder" |
| MainTs.YoutubeUrl | src/main.ts:268-270 | the URL always starts with https:// |
| MainTs.YoutubeUrlIdempotent | src/main.ts:268-270 | a built URL is kept as it is, and a bare id can be read back from its URL |
| Migrations.MigrationsAscending | db/migrations.go:12-57 | the listed versions strictly increase, lie in 1..3, and end at 3 |
| Migrations.Max | db/migrations.go:62 | max is an element that no element exceeds |
| Migrations.CurrentVersion | db/migrations.go:59-64 | 0 for no rows, otherwise the largest recorded version |
| Migrations.CurrentVersionAtMost | db/migrations.go:62 | rows bounded by b give a current version of at most b |
| Migrations.CurrentVersionIs | db/migrations.go:62 | a row that no other row exceeds is the current version |
| Migrations.Pending | db/migrations.go:85-88 | exactly the migrations above the current version, in list order |
| Migrations.Versions | db/migrations.go:95 | the versions of the migrations, in order |
| Migrations.ExecuteRunsPending | db/migrations.go:85-99 | the transaction succeeds exactly when no statement of a pending migration fails; it then runs exactly the pending migrations, in order |
| Migrations.NothingPending | db/migrations.go:85-88 | with nothing above the current version, no statement runs |
| Migrations.ExecuteStops | db/migrations.go:90-98 | the first failing statement decides the outcome of the transaction |
| Migrations.Database.constructor | db/migrations.go:67-72 | a fresh database has no migrations table and no rows |
| Migrations.Database.GetCurrentVersion | db/migrations.go:59-64 | the current version, or 0 together with the read error |
| Migrations.Database.RunMigrations | db/migrations.go:67-102 | the tables and the error are those of running the migrations from the version read |
| Migrations.FailureRollsBack | db/migrations.go:90-98 | any failure leaves the version rows and the applied scripts as they were |
| Migrations.MigrateSucceeded | db/migrations.go:67-102 | a run without error got past every statement and committed what it ran |
| Migrations.SuccessRunsPending | db/migrations.go:85-101 | a successful run applies and records exactly the pending migrations, in order |
| Migrations.SuccessIffNoFailure | db/migrations.go:67-102 | a run fails exactly when one of its statements does |
| Migrations.SuccessReachesLast | db/migrations.go:67-102 | after a successful run, the current version is the last migration's |
| Migrations.RowsReachLast | db/migrations.go:78-101 | rows with the pending versions appended end at the last version, whether the start came from the rows or from a failed read |
| Migrations.PendingInRange | db/migrations.go:85-99 | the versions that run come from the list |
| Migrations.LastPending | db/migrations.go:85-88 | below the last version, the last migration runs |
| Migrations.SecondRunIsNoOp | db/migrations.go:67-102 | a second run over an up-to-date database changes nothing and returns no error |
| Migrations.ReadErrorIgnored | db/migrations.go:78 | a failed version read is not reported; the run proceeds from version 0 |
| PlayArrayMethods.SortByNew | commands/play/array-methods.go:5-9 | the songs end newest modification time first, and are a permutation of the input |
| SortSongs.TimeOfSelection | commands/play/sort-songs.go:9-15 | "a" compares access times, "c" change times, and anything else modification times |
| SortSongs.SortByNew | commands/play/sort-songs.go:7-17 | the songs end non-increasing by the chosen time, and are a permutation of the input |
| SongSort.SortByKeyDescending | commands/play/sort-songs.go:8-16 | the in-place sort leaves no entry newer than an entry before it, and is a permutation |
| SongSort.NewestFrom | commands/play/sort-songs.go:8-16 | finds an entry of the suffix that is newest |
| SongSort.SwapExtendsPrefix | commands/play/sort-songs.go:8-16 | swapping the newest remaining entry into place extends the sorted prefix and keeps the multiset |
| SongSort.NewestFirstAdjacent | commands/play/array-methods.go:5-9 | newest-first order means adjacent entries do not increase |
| SongSort.TiesInEitherOrder | commands/play/array-methods.go:6-8 | sort.Slice is not stable: two equal times are allowed in either order |
| Queries.InsertArgs | db/queries.go:47-63 | thirteen arguments are bound, one per placeholder |
| Queries.InsertArgsRoundTrip | db/queries.go:34-63 | the columns and the arguments correspond one to one, and the parameters can be read back from the arguments |
| Queries.Unfulfilled | db/queries.go:68-70 | the select returns at most the table's rows |
| Queries.UnfulfilledExactly | db/queries.go:68-70 | exactly the rows that are unfulfilled and scrobbable |
| Queries.Plays | db/queries.go:82-88 | one play per selected row, with its id, album, artist, title and start time |
| Queries.Ids | db/queries.go:108-111 | the update's arguments are the plays' ids, in order |
| Queries.MarkFulfilled | db/queries.go:96-98 | a row is updated exactly when its id is listed |
| Queries.MarkFulfilledExactly | db/queries.go:96-98 | afterwards a row is fulfilled exactly when it was before or its id is listed; no other column changes |
| Queries.MarkFulfilledIdempotent | db/queries.go:96-98 | repeating the update changes nothing more |
| Queries.MarkedNotPending | db/queries.go:68-116 | after the plays that were read are marked, none of them is pending |
| Queries.NonePending | db/queries.go:68-70 | a table without pending rows selects nothing |
| Queries.Repeat | db/queries.go:105-110 | n copies of the placeholder |
| Queries.CountCharAppend | db/queries.go:113 | counting a character distributes over concatenation |
| Queries.PlaceholdersShape | db/queries.go:105-113 | the IN list is "?" and "," alternating: n placeholders and n - 1 commas |
| Queries.PlaysTable.constructor | db/queries.go:34-45 | an empty table |
| Queries.PlaysTable.InsertIntoPlays | db/queries.go:47-65 | exactly one row more, holding the parameters under a fresh id; on an SQLite error, no change |
| Queries.PlaysTable.GetUnfulfilledPlays | db/queries.go:72-94 | the pending plays in table order; any query, scan or rows error gives nil and that error |
| Queries.PlaysTable.UpdateUnfulfilledPlays | db/queries.go:100-116 | no statement for an empty list; otherwise one placeholder per play bound to its id, and exactly those rows fulfilled unless SQLite fails |
| Queries.MarkFulfilledKeepsIds | db/queries.go:96-98 | the update keeps the ids distinct and below the next one |
| SetOrigin.AssociateSpec | commands/spotify/set-origin.go:66-78 | only the tag's own association changes; a non-empty origin is stored; an empty origin removes an existing non-empty association, and an absent one is an error |
| SetOrigin.SetThenClear | commands/spotify/set-origin.go:66-78 | setting an origin and then clearing it leaves the map without the tag; clearing a second time fails |
| SetOrigin.Configuration.constructor | commands/spotify/set-origin.go:64 | the configuration holds the given associations |
| SetOrigin.Configuration.SetupOrigin | commands/spotify/set-origin.go:45-85 | errors in order: the tag library, an unknown tag, a missing association, the write; the stored map changes only when no error is returned |
| SimpleConfig.ApplyLine | simpleconfig/simpleconfig.go:60-80 | empty and comment lines are skipped; a line not split into exactly two parts by '=' is an invalid line; an error keeps the values |
| SimpleConfig.SplitPair | simpleconfig/simpleconfig.go:66-69 | "key=value" without another '=' splits into key and value |
| SimpleConfig.SplitThree | simpleconfig/simpleconfig.go:66 | a value holding '=' splits into three parts or more |
| SimpleConfig.ValueWithEqualsRejected | simpleconfig/simpleconfig.go:66-80 | a value holding '=' makes the line invalid |
| SimpleConfig.KeyChecked | simpleconfig/simpleconfig.go:68-77 | an allowed key is stored with its value; any other key is an invalid key |
| SimpleConfig.LaterDuplicateWins | simpleconfig/simpleconfig.go:59-81 | of two lines with the same key, the later value is kept |
| SimpleConfig.EmptyAllowedRejectsAll | simpleconfig/simpleconfig.go:68-80 | with an empty allowed set every line that is not skipped is an error |
| SimpleConfig.SerializeAppend | simpleconfig/simpleconfig.go:100-107 | writing one more key appends its "key=value\n" line |
| SimpleConfig.ReadWrittenLine | simpleconfig/simpleconfig.go:59-81 | reading a written line stores its key and value, and reading goes on with the rest |
| SimpleConfig.ReadWritten | simpleconfig/simpleconfig.go:59-107 | reading written text stores every written key with its value, keeps the other values, and reports no error |
| SimpleConfig.RoundTrip | simpleconfig/simpleconfig.go:48-112 | writing and then reading into an empty config gives back the same values, when keys and values hold no '=' or newline, keys do not start with '#', and values do not end in '\r' |
| SimpleConfig.Config.constructor | simpleconfig/simpleconfig.go:12-16 | the zero Config: no values, no name, a nil allowed-key map |
| SimpleConfig.Config.ReadConfig | simpleconfig/simpleconfig.go:48-88 | an open error is returned with no change; otherwise the lines are applied in order up to the first bad one |
| SimpleConfig.Config.Get | simpleconfig/simpleconfig.go:114-117 | the value and true for a stored key; "" and false otherwise |
| SimpleConfig.Config.Set | simpleconfig/simpleconfig.go:119-128 | an allowed key gets the value and no other key changes; any other key is an error and nothing changes |
| SimpleConfig.Config.WriteConfig | simpleconfig/simpleconfig.go:90-112 | one "key=value\n" line per stored key, each key once, in map order; an open error writes nothing |
| SimpleConfig.NewConfig | simpleconfig/simpleconfig.go:18-46 | the allowed-key set is always built; a missing file is created and gives no values; stat, create and open errors are reported; an existing file is read |
| StringUtils.BareNameWithoutDirectory | string-utils/string-utils.go:25-27 | a path that does not contain musicPath + "/" is unchanged |
| StringUtils.BareNameUnderDirectory | string-utils/string-utils.go:25-27 | a path directly under the directory loses exactly that directory |
| StringUtils.BareNameRemovesFirstOnly | string-utils/string-utils.go:25-27 | only the first occurrence is cut out; later ones stay |
| StringUtils.BareNameDoublesTrailingSlash | string-utils/string-utils.go:25-27 | the '/' is added even when the directory ends in one, so "/m/x" under "/m/" stays unchanged |
| Utils.DirectoryPrefixEndsInSlash | utils/utils.go:33-35 | the removed prefix ends in '/'; a '/' is added only when it is missing |
| Utils.BareNameWithoutDirectory | utils/utils.go:32-38 | a path that does not contain the prefix is unchanged |
| Utils.BareNameUnderDirectory | utils/utils.go:32-38 | a path directly under the directory loses it, whether or not the directory was given with its trailing '/' |
| Utils.RevisionsDifferOnTrailingSlash | utils/utils.go:32-38 | this revision strips "/m/" from "/m/x", while string-utils.go's leaves it unchanged |
| Tags.FlagError | commands/tags/tags.go:104-116 | exactly the refused flag combinations fail: --delete with --editor or without a tag, and --check with --editor; each has its own message, checked in source order |
| Tags.AppendNewSpec | commands/tags/tags.go:307-311 | appending keeps the existing songs first and in order, adds exactly the missing non-empty songs, and adds no duplicate |
| Tags.ChangedTagSpec | commands/tags/tags.go:299-314 | the stored tag is modified now; an existing tag keeps its creation time; a new or replaced tag holds exactly the non-empty songs; an appended one keeps its old songs first |
| Tags.PlaylistLinesSpec | commands/tags/tags.go:86-97 | one line per non-empty song, in order, holding its path relative to the playlists directory; the first failure of filepath.Rel is the error |
| Tags.PrefixKeepsError | commands/tags/tags.go:89-93 | a failure among the first songs is the failure for all of them |
| Tags.UpdateAPlaylistFile | commands/tags/tags.go:86-101 | the text written is the given content followed by the songs' lines, or the path error |
| Tags.TagLibrary.constructor | commands/tags/tags.go:43-61 | the library holds the given tags |
| Tags.TagLibrary.ChangeSongsInTag | commands/tags/tags.go:292-345 | the playlist starts with the header, or in append mode with the existing file; a stat, read or path error stops the change; otherwise the changed tag is stored and tags.json is written |
| Tags.TagLibrary.DeleteTag | commands/tags/tags.go:266-279 | an unknown tag is reported and nothing changes; otherwise the tag is removed, unless writing fails |
| Tags.OnlyNamedTagChanges | commands/tags/tags.go:266-345 | changing or deleting a tag leaves every other tag as it was |
| TagList.GetTags | src/tags.ts:14-20 | a missing or empty tags file gives no tags; otherwise the stored array |
| TagList.Find | src/tags.ts:24 | the first tag with the name, or none exactly when no tag has it |
| TagList.AppendMissingSpec | src/tags.ts:32-36 | existing songs stay first and in order; exactly the missing songs are added, with no duplicate |
| TagList.GoAppendDropsEmpty | src/tags.ts:32-36 | the Go command's append is this one after the empty songs are dropped |
| TagList.AddedTagsSpec | src/tags.ts:22-39 | a new tag is pushed last with the songs as given; otherwise only the first tag of that name changes, and it keeps its songs |
| TagList.TagsJson.constructor | src/tags.ts:6-7 | the file holds the given state |
| TagList.TagsJson.AddTags | src/tags.ts:22-40 | the file afterwards holds the tags with the name added or extended |
| Text.FolderNameIdempotent | commands/install.go:230-232 | lower-casing and then replacing space runs by '-' is idempotent |
| Text.DashRunsNoSpace | commands/install.go:231 | no space survives the replacement |
| Text.Split | commands/play/does-song-pass.go:58-61 | strings.Split of one separator gives at least one piece, none holding the separator |
| Text.SplitCons | simpleconfig/simpleconfig.go:66 | the first separator ends the first piece |
| Text.LinesCons | simpleconfig/simpleconfig.go:57-60 | bufio's line scanner yields a line without its trailing '\r', then the lines after it |
| Text.Fields | utils/get-current-song.go:41 | strings.Fields gives non-empty runs |
| Text.ReplaceAllPrefix | src/main.rs:78 | str::replace removes a pattern at the front and goes on with the rest |
| Text.ReplaceAllAbsent | src/main.rs:78 | str::replace of an absent pattern changes nothing |
| Text.IndexFrom | commands/play/does-song-pass.go:13 | finds the first occurrence at or after a position |
| Text.LowerLacksUpper | src/main.rs:76-78 | a lower-cased text never contains a pattern with an upper-case letter |
| Text.NatToStringInjective | commands/lastfm/import.go:126 | distinct Unix times give distinct decimal strings |

## Left out

- Running playerctl, vlc, youtube-dl, spotdl, beet, xdg-open and `$EDITOR`: their output is an input string or a sample datatype, and their exit status an error value.
- HTTP, the network and JSON decoding of responses: a Last.fm submission is the `post` oracle, which returns a status or a transport error. getAuthToken, getSession and the browser authorisation flow, with the credentials append after it, are not modelled.
- MD5 and hex encoding (RFC 1321) in generateSignature: the digest is the `digest` parameter, applied to the canonical string the model computes.
- The regular-expression engine and `time.Parse` in the importer: the header match is the `capture` oracle and the timestamp parse the `parseTime` oracle.
- `strconv.ParseFloat`: the `parseFloat` oracle. Positions and lengths are reals, without float64 rounding.
- `shlex.Split` of the extra youtube-dl arguments: the `splitArgs` parameter.
- Filesystem walks, stat timestamps and the sort itself: the directory listing is a sequence of entries, stat times are integers, and sortByNew's result is the `sortByNew` parameter, required to be a permutation.
- `filepath.Join` cleaning of "." and "..", and `filepath.Rel` in updateAPlaylistFile: joins are plain '/' joins, and the relative path is the `relativePath` oracle.
- Unicode case mapping: lower-casing is modelled on ASCII letters only.
- Concurrency, signals, the lock file, `os.Exit`, `time.Sleep` and the polling interval. Graceful exit is modelled only as its final attemptScrobble. Scanner errors and bufio's token-length limit are not modelled.
- A Go panic: a credentials line without '=' makes `strings.SplitN(...)[1]` panic in commands/lastfm/watch.go and commands/lastfm/lastfm.go. The model reports it as an error.
- `credentials.Get` and `setupOrGetCredentials` in commands/lastfm/import.go: the credentials are a parameter of the import.
- SQL row order: GetUnfulfilledPlays returns rows in table order.
- The columns that db/queries.go reads and writes are not all created by the migrations in db/migrations.go. The two files are modelled separately, and this mismatch is not modelled.
- WriteConfig: only the error of opening the file is modelled; writer and flush errors are not.
- The `Install` subcommand of src/main.rs, which only prints its arguments, and play_vlc's process spawning.
- The check, edit and list modes of commands/tags/tags.go and their `$EDITOR` flows; findLatestFile in commands/install.go.
- commands/play/tags.go beyond its Tag type: its changeSongsInTag marshals the unchanged map and tests inclusion the wrong way round, so it states no rule.
- Live query UIs, lyrics, the Spotify import, recent and suggest; importJsonFile, whose result is an input of the import.
- Import.ImportRunner: the time-parse error message does not carry `time.Parse`'s own error text.
- Tags.TagLibrary.ChangeSongsInTag: the read of tags.json (commands/tags/tags.go:293-297) is assumed to succeed.
- Install.AfterDownload: `fmt.Scanln` reads a single word; the answer is taken as given.
- MainRs.PlayCommand: every play run without --dry-paths prints its song list (src/main.rs:231-248), and that printout is not modelled. Nor is the panic of `song.remove(0)` at src/main.rs:240 when removing the music directory leaves a path empty, as for the file "/h/Music/h/Music" under "/h/Music". `--dry-run` only makes play_vlc return before starting vlc (src/main.rs:127-129). The songs it plays are the matches of the corrected filter.
- MainRs.CheckTerm: matches against the path with the lower-cased music directory removed (the corrected half of the finding below), where src/main.rs:78 removes the music directory as spelt and so removes nothing; MainRs.CorrectedFilterDiffers shows an input on which they part.
- MainRs.DoesSongPass: decides on that corrected path, so it is MainRs.Passes and not the program's MainRs.WrittenPasses; the two agree when the music directory has no upper-case letter (MainRs.CorrectedAgreesOnLowerDirectory).
- MainRs.Passing: selects the files that pass the corrected filter, not those src/main.rs:103-115 selects.
- MainRs.GetSongsByTerms: returns the first `limit` files passing the corrected filter, not those of does_song_pass as written.
- MainRs.PlayMatching: plays the matches of the corrected filter.
- MainRs.ArrangeSongs: the Rust comparator (src/main.rs:197-208) sorts the oldest song first; the model only uses that the sort reorders.
- Import.Answer: answers are read one line per prompt, as typed at a terminal. commands/lastfm/import.go:210 makes a new buffered reader for every batch, so with piped input the first reader can swallow the later answers; that buffering is not modelled.

## Findings

| source | as written | input that shows it | evidently intended | confidence | as-written member | corrected member |
|---|---|---|---|---|---|---|
| src/main.rs:70-78 | the song path is ASCII lower-cased, then the music directory is removed as spelt, so its capital 'M' in "Music" is never found and nothing is removed | music directory home + "/Music" and the single term "music": every song under it passes | the lower-cased music directory is removed, so terms see only the path below it | not executed | MainRs.MusicTermPassesEverySong | MainRs.SongPathBelowMusic |

MainRs.DoesSongPass and the rest of the Rust model use the corrected MainRs.SongPath.
