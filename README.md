# foo_nsync, modelled in Dafny

foo_nsync keeps foobar2000 playlists in step with playlists generated on a small
server. It has two halves, and this project models the logic of both.

The plugin, written in C++:

- **Scheduler** (`Scheduler`). A one-second timer tick decides which jobs are due. A
  busy flag per job keeps runs of the same job from overlapping. Each run has two
  stages: a hash check, then a download of the playlist only when the hash moved or
  the target playlist is gone. The download rewrites the target playlist.
- **Manifest reader** (`Manifest`). Reads an M3U8 manifest line by line. Paths
  relative to the server (`/stream/...`) are put after the job's server url.
- **Album art** (`Artwork`). Recognises the plugin's stream urls and rewrites them to
  artwork urls. Keeps a bounded recency-ordered cache of fetched images and a set of
  urls whose fetch failed. Each extractor instance resolves a front cover at most once.
- **HTTP client** (`Http`). Splits a url into scheme, host, port and path, and turns
  a request's outcome into a body or an error text.
- **Job registry** (`Jobs`). The `SyncJob` record, the field order in which it is
  serialised, and the ordered job list with the settings it saves and loads.
- **Preferences page** (`Preferences`). The page's working copy of the registry: add,
  edit, remove, sync now, apply, reset, and the test for unsaved changes.

The server, written in Python:

- **Playlist generator** (`Generator`). Scans source directories for audio files,
  finds artwork, writes one `.m3u8` per source, and rewrites a file only when its
  text changed.
- **Request handler** (`Server`). Picks a route from the request path, takes the
  playlist name or audio path out of it, and handles the stream handler's `Range`
  arithmetic and send loop.

`Strings` holds the string functions of the C runtime and of Python's `str` that
these use. `Common` holds `Option`, `Result`, the 32-bit integer types and a
first-match search.

Some things that are I/O or foreign calls in the program are parameters here:

- What an HTTP request produced is a `Transport` value. A completion handler receives
  `success`, `response` and `error`.
- The host's playlists are a map from name to the locations they hold.
- Observer notifications are appended to an event log. Requests that were issued are
  appended to a request log.
- The server's file system is a value. It holds the directories that exist and the
  regular files, in listing order.
- The generator's output is a map from path to text. Paths whose writes fail are a set.
- Reading an existing playlist back is Python's text-mode read (`ReadText`): `\r\n` and a
  lone `\r` become `\n`. The generator compares that text with the new one.
- `urllib.parse.unquote` is a function parameter.
- The bytes fetched for an artwork url are a parameter of `ArtworkInstance.Query`.

Where the system's specification and its code disagree, the model follows the code:

- There is no stage that asks the server to refresh before the hash check. A run is
  the hash check and then, when needed, the download.
- The target playlist is cleared and given the whole list again. It is not reconciled
  against a case-insensitive set of existing entries.
- A run reports percentages 10 (checking), 50 (downloading) and 80 (updating). It
  never reports 30.
- The artwork url replaces the first `/stream/` in the url, wherever it occurs. The
  specification speaks of the suffix after the marker.
- `bytes=-N` is read as bytes 0 to N. It is not read as the last N bytes, as
  section 2.1 of RFC 7233 defines it.
- The stored hash advances after every successful download, even when the manifest
  had no entries and no playlist was touched.

## Model

| member | source | states |
|---|---|---|
| Jobs.Encode | src/config.h:20-27 | six fields are written, in order: server url, endpoint, target playlist, enabled flag, interval, last hash |
| Jobs.Decode | src/config.h:30-37 | reading succeeds exactly when the six values have the expected kinds; the job then serialises back to those values, and `lastError` stays the reader's |
| Jobs.ReadAfterWrite | src/config.h:20-37 | reading what was written restores every field except `lastError` |
| Jobs.EncodeIgnoresLastError | src/config.h:15-27 | two jobs serialise alike exactly when they differ at most in `lastError` |
| Jobs.LastErrorLost | src/config.h:13-37 | a job restored into a default `SyncJob` has an empty `lastError` |
| Jobs.FieldStream.Put | src/config.h:21-26 | one value is appended to the stream |
| Jobs.FieldStream.GetText | src/config.h:31-33 | reads a text when the next value is one and advances; otherwise fails and leaves the position |
| Jobs.FieldStream.GetFlag | src/config.h:34 | the same for a flag |
| Jobs.FieldStream.GetNumber | src/config.h:35 | the same for a number |
| Jobs.FieldStream.WriteJob | src/config.h:20-27 | the stream grows by exactly `Encode(job)` |
| Jobs.FieldStream.ReadJob | src/config.h:30-37 | the field-by-field reads give `Decode` of the remaining stream and consume six values on success |
| Jobs.Erase | src/config.cpp:30-35 | one element shorter; the elements before the index are kept, and those after it shift down by one |
| Jobs.EraseMultiset | src/config.cpp:30-35 | erasing loses exactly one occurrence of the erased job |
| Jobs.SyncConfig.constructor | src/config.cpp:21-23 | the registry starts with the persisted jobs and settings |
| Jobs.SyncConfig.JobCount | src/config.h:59 | the count is the length of the job list |
| Jobs.SyncConfig.GetJob | src/config.h:60 | needs an index below the count; the result is element `i` of the list |
| Jobs.SyncConfig.SetJobInPlace | src/config.h:61 | a write through the mutable reference replaces only that job and saves nothing |
| Jobs.SyncConfig.IsEnabled | src/config.h:68 | the stored switch; SetEnabled's contract states it reads back |
| Jobs.SyncConfig.GetDefaultInterval | src/config.h:71 | the stored default interval; SetDefaultInterval's contract states it reads back |
| Jobs.SyncConfig.SetEnabled | src/config.h:69 | the getter returns what was set; nothing else changes |
| Jobs.SyncConfig.SetDefaultInterval | src/config.h:72 | the getter returns what was set; nothing else changes |
| Jobs.SyncConfig.Save | src/config.cpp:44-52 | the persisted copy becomes the in-memory jobs and settings; these are unchanged |
| Jobs.SyncConfig.Load | src/config.cpp:54-62 | the in-memory jobs and settings become the persisted copy |
| Jobs.SyncConfig.AddJob | src/config.cpp:25-28 | the job is appended at the end and the result saved |
| Jobs.SyncConfig.RemoveJob | src/config.cpp:30-35 | an index in range erases exactly that job and saves; any other index changes nothing |
| Jobs.SyncConfig.UpdateJob | src/config.cpp:37-42 | an index in range replaces exactly that job and saves; any other index changes nothing |
| Jobs.SaveThenLoad | src/config.cpp:44-62 | loading what was just saved gives back the same jobs and settings |
| Scheduler.CppRem | src/sync_manager.cpp:70 | C++ `%`: the remainder's magnitude is that of the operands, and a nonzero remainder has the dividend's sign |
| Scheduler.Resized | src/sync_manager.cpp:41-43 | `resize(n, false)`: length `n`, kept slots keep their flag, new slots are false |
| Scheduler.ResizedSame | src/sync_manager.cpp:41-43 | resizing to the current length changes nothing |
| Scheduler.StartList | src/sync_manager.cpp:66-74 | a pass starts only jobs below the bound |
| Scheduler.Starts | src/sync_manager.cpp:66-72 | the test a pass applies to job `i`; StartListMembers states the pass starts exactly the jobs it holds for |
| Scheduler.StartListMembers | src/sync_manager.cpp:66-74 | a pass starts job `i` exactly when the job is enabled and idle and, for a timer pass, the tick is a multiple of its interval |
| Scheduler.StartListIncreasing | src/sync_manager.cpp:92-97 | a pass starts jobs in index order, each at most once |
| Scheduler.TimerStartsOnMultiples | src/sync_manager.cpp:66-72 | an enabled idle job is started by a timer pass exactly when its interval divides the tick |
| Scheduler.CheckingEvents | src/sync_manager.cpp:120-122 | one "Checking..." 10% notification per started job, in order |
| Scheduler.HashRequests | src/sync_manager.cpp:125-128 | one hash check per started job, to `server_url/hash/endpoint`, in order |
| Scheduler.LaunchedSnoc | src/sync_manager.cpp:112-128 | starting one more job extends the busy flags, the events and the requests by that job alone |
| Scheduler.Abandoned | src/sync_manager.cpp:131-134 | the guarded abandon write: only an existing slot is cleared, and every other flag stays |
| Scheduler.AbandonedAsWritten | src/sync_manager.cpp:131-133 | the unchecked abandon write needs an index below the number of flags |
| Scheduler.AbandonAfterReloadOutOfRange | src/sync_manager.cpp:38-44 | once the flags follow the job count, every index that takes the abandon branch is past the end of the flags |
| Scheduler.StaleIndexAfterShrink | src/sync_manager.cpp:181-183 | two jobs and one slot after a removal: index 1 takes the abandon branch and has no flag to clear |
| Scheduler.SyncManager.constructor | src/sync_manager.h:39-57 | timer off, no flags, tick 0, empty logs |
| Scheduler.SyncManager.CheckAndSyncJob | src/sync_manager.cpp:112-128 | an index past the count is ignored; otherwise the job is marked busy, announced and its hash check issued |
| Scheduler.HashUrl | src/sync_manager.cpp:126 | `server_url/hash/endpoint`; Server.PluginRequestsRouted states the server routes it to the hash handler with the endpoint |
| Scheduler.PlaylistUrl | src/sync_manager.cpp:176 | `server_url/playlist/endpoint`; Server.PluginRequestsRouted states the server routes it to the playlist handler with the endpoint |
| Scheduler.SyncManager.StartPass | src/sync_manager.cpp:66-74 | the pass starts exactly the jobs of `StartList`, in order |
| Scheduler.SyncManager.PassStep | src/sync_manager.cpp:66-74 | one loop iteration starts job `i` exactly when `Starts` says so |
| Scheduler.SyncManager.OnTimer | src/sync_manager.cpp:60-75 | the tick always goes up by one; when disabled nothing else changes; otherwise the due jobs for the new tick start |
| Scheduler.SyncManager.SyncAll | src/sync_manager.cpp:90-98 | every enabled idle job starts, whatever the global switch says |
| Scheduler.SyncManager.ReloadConfig | src/sync_manager.cpp:38-44 | the busy flags are resized to the job count |
| Scheduler.SyncManager.SyncNow | src/sync_manager.cpp:77-88 | short flags are grown first; the job starts exactly when it exists and is idle, enabled or not |
| Scheduler.SyncManager.IsSyncing | src/sync_manager.cpp:100-102 | true exactly when the index has a flag and the flag is set |
| Scheduler.SyncManager.StartTimer | src/sync_manager.cpp:46-51 | the timer runs; nothing else changes |
| Scheduler.SyncManager.StopTimer | src/sync_manager.cpp:53-58 | the timer is off; nothing else changes |
| Scheduler.SyncManager.Start | src/sync_manager.cpp:18-31 | flags sized to the job count; when enabled with jobs, the timer runs and every enabled job starts |
| Scheduler.SyncManager.Stop | src/sync_manager.cpp:33-36 | the timer stops; runs in flight are not cancelled |
| Scheduler.SyncManager.FindOrCreatePlaylist | src/sync_manager.cpp:264-275 | an existing playlist is kept as it is; a missing one is created empty |
| Scheduler.SyncManager.UpdatePlaylist | src/sync_manager.cpp:277-326 | no entries touch no playlist; otherwise the target becomes exactly the resolved entries, in order |
| Scheduler.SyncManager.OnHashComplete | src/sync_manager.cpp:129-178 | abandon for a vanished job; a failure records the error and ends with "Error"; the same hash with the playlist present clears the error and ends; otherwise the download is issued and the job stays busy |
| Scheduler.SyncManager.OnPlaylistComplete | src/sync_manager.cpp:179-219 | a failure records the error, keeps the hash and ends with "Error"; a success rewrites the playlist, records the new hash even for an empty manifest, clears the error, saves and ends with "OK" |
| Manifest.LineEnd | src/sync_manager.cpp:229-232 | the line ends at the first '\n' or '\r' at or after the start, or at the end of the text |
| Manifest.BreaksEnd | src/sync_manager.cpp:257-260 | a run of line breaks ends at the first other character, or at the end of the text |
| Manifest.Lines | src/sync_manager.cpp:228-261 | the text between runs of line breaks; LinesNoBreaks, EntriesLine and EntriesSingleLine state how it splits |
| Manifest.KeepAll | src/sync_manager.cpp:235-253 | each line's `Keep`, in order; KeepAllShape states the shape of what is kept |
| Manifest.Entries | src/sync_manager.cpp:223-262 | the kept lines of the text, in order; ParseM3u8 computes it, EntriesShape states what an entry looks like |
| Manifest.Trim | src/sync_manager.cpp:240-241 | the trimmed line is a prefix of the line and does not end with a tab |
| Manifest.Keep | src/sync_manager.cpp:235-253 | a line contributes exactly when it is nonempty, not a comment and not blank after trimming, and then contributes its trimmed text |
| Manifest.ParseM3u8 | src/sync_manager.cpp:223-262 | the two-pointer scan returns exactly `Entries`: the kept lines, in order, duplicates kept |
| Manifest.ScanLine | src/sync_manager.cpp:229-232 | the inner loop stops at `LineEnd` |
| Manifest.SkipLineBreaks | src/sync_manager.cpp:257-260 | the inner loop stops at `BreaksEnd` |
| Manifest.EntriesLine | src/sync_manager.cpp:228-261 | a line, any nonempty run of '\n'/'\r', then the rest: the line's contribution comes first, then the rest's entries |
| Manifest.EntriesSingleLine | src/sync_manager.cpp:228-261 | a text without a line break is one line |
| Manifest.EntriesTerminated | src/sync_manager.cpp:223-262 | newline-terminated break-free lines are read back line by line, in order |
| Manifest.LinesNoBreaks | src/sync_manager.cpp:229-232 | no raw line holds a line break |
| Manifest.KeepShaped | src/sync_manager.cpp:235-253 | what a break-free line contributes is nonempty, not a comment and not tab-terminated |
| Manifest.KeepAllShape | src/sync_manager.cpp:235-253 | the same for every line of a list |
| Manifest.EntriesShape | src/sync_manager.cpp:235-253 | every entry is nonempty, not a comment, break-free and does not end with a tab |
| Manifest.TrimOrder | src/sync_manager.cpp:240-241 | spaces are stripped before tabs, so spaces before a final tab survive |
| Manifest.Resolve | src/sync_manager.cpp:287-291 | a `/stream/` path is put after the server url; any other path is unchanged |
| Manifest.ResolveAll | src/sync_manager.cpp:283-298 | every path is resolved, in order, and none is added or dropped |
| Manifest.ResolvePaths | src/sync_manager.cpp:283-298 | the in-place rewriting loop computes `ResolveAll` |
| Manifest.ResolveEndsWithPath | src/sync_manager.cpp:287-291 | a resolved path ends with the manifest's path |
| Manifest.Example | src/sync_manager.cpp:223-262 | a comment, a stream path, a blank line and a CRLF-terminated local path give the two paths, in order |
| Common.FirstFrom | src/artwork_extractor.cpp:207-214 | the index found lies in the searched range |
| Common.FirstFromFirst | src/artwork_extractor.cpp:207-214 | the entry found is accepted and no earlier one is; no answer means no entry is accepted |
| Common.ToInt32 | src/http_client.cpp:89 | the `(int)` cast keeps values below 2^31 and wraps larger ones to negative |
| Artwork.IsNsyncStreamUrl | src/artwork_extractor.cpp:79-92 | true exactly for a non-null path that starts with `http://` or `https://` and contains `/stream/` |
| Artwork.StreamUrlToArtworkUrl | src/artwork_extractor.cpp:94-107 | the first `/stream/` becomes `/artwork/`; ReplacesFirstMarker and ArtworkUrlRoundTrip state it |
| Artwork.ReplacesFirstMarker | src/artwork_extractor.cpp:94-107 | the first `/stream/` becomes `/artwork/`, prefix and remainder kept; a url without the marker is unchanged |
| Artwork.ArtworkUrlRoundTrip | src/artwork_extractor.cpp:94-107 | putting `/stream/` back where `/artwork/` went gives the stream url again |
| Artwork.RemoveAll | src/artwork_extractor.cpp:24 | every occurrence of the url goes and every other url stays |
| Artwork.Evict | src/artwork_extractor.cpp:35-39 | eviction leaves a prefix of the recency list, and empties it if the cache was still full |
| Artwork.EvictDropsBack | src/artwork_extractor.cpp:35-39 | a cached url is evicted exactly when it is in the cut-off back of the list; kept urls keep their image |
| Artwork.CutKeepsLast | src/artwork_extractor.cpp:36-37 | popping the back url keeps it inside the cut-off part of the list |
| Artwork.EvictBelowCapacity | src/artwork_extractor.cpp:35-39 | when every cached url is on the list, eviction keeps that true and ends below 100 entries |
| Artwork.ArtworkCache.constructor | src/artwork_extractor.cpp:15-16 | the cache starts empty |
| Artwork.ArtworkCache.Get | src/artwork_extractor.cpp:19-29 | a hit returns the stored image and moves the url to the front, with no other copy of it; a miss changes nothing |
| Artwork.ArtworkCache.Put | src/artwork_extractor.cpp:31-43 | evicts, then stores the image and puts the url at the front; keeps the cache bounded |
| Artwork.ArtworkCache.Clear | src/artwork_extractor.cpp:68-72 | map and list are emptied |
| Artwork.FailedUrls.constructor | src/artwork_extractor.cpp:10 | the set starts empty |
| Artwork.FailedUrls.IsFailed | src/artwork_extractor.cpp:45-48 | membership in the failed set; MarkFailed's contract states a marked url tests as failed |
| Artwork.FailedUrls.MarkFailed | src/artwork_extractor.cpp:50-57 | the url is marked as failed; the set is emptied first when above 1000 |
| Artwork.FailedUrls.Clear | src/artwork_extractor.cpp:64-67 | the set is emptied |
| Artwork.OnQuit | src/artwork_extractor.cpp:63-73 | both caches are emptied |
| Artwork.ArtworkInstance.constructor | src/artwork_extractor.cpp:111-115 | the instance keeps the stream url and its artwork url, not yet checked |
| Artwork.ArtworkInstance.Query | src/artwork_extractor.cpp:117-168 | only the front cover; a checked instance answers from memory; otherwise the global cache, then the failed set, then a fetch; a failed or empty fetch marks the url failed, and a good one is cached |
| Artwork.ArtworkInstance.QueryPaths | src/artwork_extractor.cpp:170-179 | an empty path list exactly for the front cover |
| Artwork.IsOurPath | src/artwork_extractor.cpp:183-186 | the stream-url test, ignoring the extension |
| Artwork.Open | src/artwork_extractor.cpp:188-197 | an instance exactly for a stream url; anything else is an unsupported format |
| Artwork.FallbackOpen | src/artwork_extractor.cpp:201-217 | an instance for the first item with a stream url, else "not found" |
| Artwork.FallbackChoosesFirst | src/artwork_extractor.cpp:201-217 | the chosen item is a stream url and no earlier one is; "not found" means none is |
| Http.DefaultPort | src/http_client.cpp:51-54 | 443 exactly for the scheme `https`; 80 otherwise |
| Http.ParseUrl | src/http_client.cpp:26-61 | fails exactly when there is no `://`; otherwise the scheme is the text before the first `://` |
| Http.SplitAuthority | src/http_client.cpp:37-58 | the host holds no `:` or `/`; the path is `/`, or the tail of the text from its first `/` |
| Http.SchemeEnd | src/http_client.cpp:30-33 | the first `://` is the one after a scheme without `:` |
| Http.SplitWithoutPort | src/http_client.cpp:49-58 | host and optional path with no port: the default port, and `/` for a missing path |
| Http.SplitWithPortText | src/http_client.cpp:40-48 | a `:` before the path ends the host, and the port is `atoi` of the text up to the path |
| Http.SplitWithPort | src/http_client.cpp:40-48 | a decimal port after the host is read back as that number |
| Http.ParseBuilt | src/http_client.cpp:30-34 | a url built from a scheme splits after the scheme's `://` |
| Http.ParseWithoutPort | src/http_client.cpp:26-61 | parsing `scheme://host/path` gives back scheme, host, default port and path |
| Http.ParseWithPort | src/http_client.cpp:26-61 | parsing `scheme://host:port/path` gives back scheme, host, port and path |
| Http.ReassembleSplit | src/http_client.cpp:49-58 | without a `:` before the path, host and path make up the text after `://` again |
| Http.ReassembleWithoutPort | src/http_client.cpp:26-61 | without a port, scheme, `://`, host and path make up the url again |
| Http.Precheck | src/http_client.cpp:63-160 | succeeds exactly for a response with status 200 to a parseable url; otherwise the error text of the first failing check: no session, `Invalid URL`, `Connection failed (error N)`, `Request creation failed (error N)`, `Request failed (error N)`, `HTTP <code>` |
| Http.CodeText | src/http_client.cpp:158 | `(int)` of the status code in decimal, the number in the `HTTP <code>` error that Precheck's contract names |
| Http.TextRequest | src/http_client.cpp:63-185 | the body exactly on status 200, whatever its length; otherwise each of the six error texts, in the order the checks run |
| Http.BinaryRequest | src/http_client.cpp:187-314 | success also needs at least one byte; an empty body fails with no error text; every earlier failure keeps its error text |
| Preferences.ClampInterval | src/preferences.cpp:32-33 | the control's value through the `int` cast, raised to at least 10 |
| Preferences.ClampWrapsLarge | src/preferences.cpp:32-33 | a control value of 2^31 or more wraps negative and reads back as 10 |
| Preferences.EditedJob | src/preferences.cpp:19-38 | the five edited fields are read back; the hash and the error stay |
| Preferences.AllSettings | src/preferences.cpp:250-258 | the five compared fields of every job, in order |
| Preferences.ChangedIffSettingsDiffer | src/preferences.cpp:244-261 | the page has changed exactly when the switch or the list of compared fields differs |
| Preferences.ChangedIgnoresHashAndError | src/preferences.cpp:250-258 | hashes and errors never count as a change |
| Preferences.PreferencesPage.constructor | src/preferences.cpp:45-75 | the page opens with a copy of the registry's switch and jobs |
| Preferences.PreferencesPage.OnInitDialog | src/preferences.cpp:59-65 | the switch and every job are copied, in order |
| Preferences.PreferencesPage.OnEnabledChanged | src/preferences.cpp:144-147 | the switch follows the check box |
| Preferences.PreferencesPage.OnAdd | src/preferences.cpp:149-163 | the edited default job is appended only when the dialog returns OK |
| Preferences.PreferencesPage.OnEdit | src/preferences.cpp:165-174 | a selected job is edited in place only when the dialog returns OK; no selection changes nothing |
| Preferences.PreferencesPage.OnRemove | src/preferences.cpp:176-184 | exactly the selected job is erased; no selection changes nothing |
| Preferences.PreferencesPage.Apply | src/preferences.cpp:215-232 | the registry takes the page's switch and jobs and the busy flags follow; afterwards nothing has changed |
| Preferences.PreferencesPage.OnSyncNow | src/preferences.cpp:186-197 | with a selection, apply and then sync that job when it is idle; no selection changes nothing |
| Preferences.PreferencesPage.Reset | src/preferences.cpp:234-242 | switched on with no jobs |
| Preferences.PreferencesPage.HasChanged | src/preferences.cpp:244-261 | the comparison loop computes `Changed` |
| Strings.IndexOf | src/http_client.cpp:30 | `strstr`: the first occurrence, or none anywhere |
| Strings.IndexOfUnique | src/artwork_extractor.cpp:97 | an occurrence with none before it is the one found |
| Strings.IndexOfChar | src/http_client.cpp:37-38 | `strchr`: the first occurrence of the character, or none in the text |
| Strings.IndexOfCharUnique | src/http_client.cpp:37-38 | the first occurrence is the one found |
| Strings.IndexOfCharAppend | src/http_client.cpp:37-38 | searching a text whose first part lacks the character finds it in the second part, shifted |
| Strings.LastIndexOfChar | server/generate_playlists.py:138 | the index found holds the character |
| Strings.LastIndexOfCharLast | server/generate_playlists.py:138 | no occurrence follows the one found; none found means none at all |
| Strings.NatToString | src/http_client.cpp:158 | nonempty decimal digits with no leading zero, whose value is the number |
| Strings.IntToString | src/http_client.cpp:158 | a non-negative number is printed as `NatToString` prints it |
| Strings.LeadingDigits | src/http_client.cpp:45-47 | the longest digit prefix |
| Strings.SkipCSpace | src/http_client.cpp:45-47 | a suffix that starts with no white space |
| Strings.AtoiOfNatToString | src/http_client.cpp:45-47 | `atoi` reads back a printed number, whatever non-digit follows |
| Strings.Atoi | src/http_client.cpp:45-47 | C `atoi`: white space, optional sign, leading digits, 0 for none; AtoiOfDigits and AtoiOfNatToString state its reading |
| Strings.AtoiOfDigits | src/http_client.cpp:45-47 | `atoi` of digits followed by a non-digit is their value |
| Strings.Split | server/main.py:304-305 | `split` gives at least one piece, and no piece holds the separator |
| Strings.SplitAppend | server/main.py:304-305 | a text without the separator, the separator, then more: that text is the first piece |
| Strings.SplitNone | server/main.py:304-305 | no separator gives the whole text as the only piece |
| Strings.SplitHead | server/main.py:195 | the first piece is the text up to the first separator |
| Strings.Lower | server/generate_playlists.py:101 | case is folded character by character, length kept |
| Strings.LexLeqRefl | server/generate_playlists.py:104 | the sort order is reflexive |
| Strings.LexLeq | server/generate_playlists.py:104 | Python's string order; LexLeqRefl, LexLeqTotal and LexLeqTransitive state it is a total order |
| Strings.LexLeqTotal | server/generate_playlists.py:104 | the sort order is total |
| Strings.LexLeqTransitive | server/generate_playlists.py:104 | the sort order is transitive |
| Strings.PyIntOfDigits | server/main.py:306-307 | `int` of plain digits is their value |
| Strings.PyInt | server/main.py:306-307 | Python `int`; PyIntOfDigits, PyIntOfNatToString, PyIntRejects and PyIntUnsigned state what it accepts and yields |
| Strings.PyIntOfNatToString | server/main.py:306-307 | `int` reads back what `str` prints |
| Strings.PyIntRejects | server/main.py:306-307 | a text starting with no space, sign or digit is a `ValueError` |
| Strings.PyIntUnsigned | server/main.py:306-307 | without a `-` the number is not negative |
| Strings.TrimTrailing | src/sync_manager.cpp:240-241 | every trailing occurrence of the character is dropped, and nothing else |
| Generator.NameStartSplits | server/generate_playlists.py:153 | the last component holds no `/`, and a `/` precedes it unless it is the whole path |
| Generator.BaseNameTail | server/generate_playlists.py:153 | the name is a `/`-free tail of the path |
| Generator.Join | server/generate_playlists.py:76 | `directory / name` puts a `/` between them |
| Generator.SuffixShape | server/generate_playlists.py:101 | a suffix is empty, or a `.` and at least one more character with no other `.` |
| Generator.StemThenSuffix | server/generate_playlists.py:153 | stem then suffix is the name |
| Generator.Utf8 | server/generate_playlists.py:157 | one to four bytes; ASCII is itself, and anything else uses only bytes of 0x80 or more |
| Generator.QuoteByte | server/generate_playlists.py:157 | a safe ASCII byte is itself; any other byte becomes `%XX` |
| Generator.Quote | server/generate_playlists.py:157 | quoted text is made only of safe characters and `%` |
| Generator.QuoteKeepsSafe | server/generate_playlists.py:157 | text of safe characters is left as it is |
| Generator.QuotedIsPlain | server/generate_playlists.py:148 | quoted text holds no line break, space, tab or `#` |
| Generator.Candidates | server/generate_playlists.py:75-76 | the fixed artwork names as paths in the directory, in priority order |
| Generator.FirstImageFromFound | server/generate_playlists.py:81-84 | a pattern's answer is a listed file in the directory; none exactly when no pattern yields a file |
| Generator.ArtworkListed | server/generate_playlists.py:72-86 | any artwork found is a listed file |
| Generator.ArtworkPriority | server/generate_playlists.py:75-78 | when a fixed name exists, the answer is it or an earlier fixed name |
| Generator.ArtworkFallback | server/generate_playlists.py:80-86 | only when no fixed name exists do the patterns decide |
| Generator.FindArtwork | server/generate_playlists.py:72-86 | the loops compute `FirstArtwork` |
| Generator.FindImage | server/generate_playlists.py:81-84 | the pattern loops compute `FirstImageFrom` |
| Generator.MatchingMembers | server/generate_playlists.py:100-102 | the kept files are exactly those listed and accepted |
| Generator.Insert | server/generate_playlists.py:104 | inserting into a sorted list keeps it sorted and adds exactly that element |
| Generator.SortStrings | server/generate_playlists.py:104 | the result is sorted and a permutation of the input |
| Generator.ScanResultContents | server/generate_playlists.py:89-105 | the scan is sorted and holds exactly the listed audio files under an existing directory |
| Generator.ScanDirectory | server/generate_playlists.py:89-105 | the loop and sort compute `ScanResult` |
| Generator.CollectAudio | server/generate_playlists.py:100-102 | the loop keeps the accepted files in listing order |
| Generator.FileLines | server/generate_playlists.py:147-158 | the optional `#EXTIMG`, then `#EXTINF:-1,<stem>`, then `/stream<quoted path>` |
| Generator.ArtworkFor | server/generate_playlists.py:135-144 | no artwork when off; artwork of the same directory is reused without a search; otherwise a search, and a hit becomes the last artwork |
| Generator.BuildFrom | server/generate_playlists.py:131-158 | no more directories with artwork than files |
| Generator.BuildStep | server/generate_playlists.py:131-158 | one more file appends its lines and carries the lookup's state |
| Generator.JoinThenNewline | server/generate_playlists.py:171 | joining with newlines plus a final newline terminates every line |
| Generator.ContentShape | server/generate_playlists.py:125-171 | the text starts with `#EXTM3U` and a newline, and ends with a newline |
| Generator.StreamLines | server/generate_playlists.py:157-158 | one location line per file, in order |
| Generator.KeepStreamLine | server/generate_playlists.py:157-158 | the plugin's reader keeps a location line whole |
| Generator.KeepTagLines | server/generate_playlists.py:149-154 | the reader drops the tag lines |
| Generator.KeepFileLines | server/generate_playlists.py:147-158 | of one file's lines the reader keeps just the location line |
| Generator.FileLinesNoBreaks | server/generate_playlists.py:147-158 | a file's lines hold no line break when its stem holds none |
| Generator.BuildUnbroken | server/generate_playlists.py:131-158 | all generated lines are break-free when every stem is |
| Generator.BuildKeeps | server/generate_playlists.py:131-158 | the reader keeps exactly the location lines of the files, in order |
| Generator.ContentEntries | server/generate_playlists.py:125-171 | reading a generated playlist yields one `/stream` location per file, in file order |
| Generator.ContentReadsBack | server/generate_playlists.py:171 | the reader drops the header and keeps what it keeps of the lines |
| Generator.GeneratePlaylist | server/generate_playlists.py:108-199 | equal text writes nothing and answers false; otherwise the text is written, and the answer is whether the write went through |
| Generator.BuildLines | server/generate_playlists.py:131-170 | the loop computes `BuildFrom` over all files |
| Generator.AddFile | server/generate_playlists.py:131-158 | one loop pass advances `BuildFrom` by one file |
| Generator.LookUpArtwork | server/generate_playlists.py:135-144 | the lookup computes `ArtworkFor` with `find_artwork` |
| Generator.AppendFileLines | server/generate_playlists.py:147-158 | the appends add exactly the file's lines |
| Generator.PlanFor | server/generate_playlists.py:222-238 | only a usable source gets a playlist, and it goes to `<output>/<name>.m3u8` |
| Generator.ProcessSources | server/generate_playlists.py:202-241 | the loop computes `ProcessFrom`: the files written and their count |
| Generator.ProcessSource | server/generate_playlists.py:222-239 | one loop pass computes `Store` of the source's plan |
| Generator.UpdatedAtMost | server/generate_playlists.py:207-241 | at most one playlist per source is counted |
| Generator.SkippedChangeNothing | server/generate_playlists.py:227-236 | sources that get no playlist write nothing and count nothing |
| Generator.UnusableNoPlan | server/generate_playlists.py:227-229 | a source without a name or a path gets no playlist |
| Generator.OthersUntouched | server/generate_playlists.py:222-241 | a file that is no source's playlist keeps its text, or stays absent |
| Generator.OutputPathInjective | server/generate_playlists.py:120 | two names that both start with `/`, or both do not, give the same playlist file only when they are equal |
| Generator.AbsoluteNameShares | server/generate_playlists.py:120 | a name starting with `/` can give the same file as a different plain name: `/out/x` and `x` under `/out` |
| Generator.NamesSeparateTargets | server/generate_playlists.py:222-238 | with distinct names that all start with `/` or none does, no two sources share a playlist file |
| Generator.PlaylistStays | server/generate_playlists.py:222-241 | once processed, a source's file holds its text, or else the file it had before, which already read back as that text, through the rest of the run |
| Generator.RerunFrom | server/generate_playlists.py:174-186 | when no playlist text holds a carriage return, a run over what an earlier run left finds every file reading back as its text, and writes and counts nothing |
| Generator.RerunUpdatesNothing | server/generate_playlists.py:202-241 | with distinct, alike names and no stem holding a carriage return, running `process_sources` again on the same files writes nothing and counts 0 |
| Generator.ReadText | server/generate_playlists.py:177-178 | Python's text-mode read: the result holds no `\r`; text without `\r` reads back unchanged; nonempty text reads as nonempty text |
| Generator.ReadTextAppend | server/generate_playlists.py:177-178 | reading is done piecewise wherever the cut does not split a `\r\n` pair |
| Generator.ReadTextBreaks | server/generate_playlists.py:177-178 | a run of line breaks reads back as a run of newlines |
| Generator.EntriesOfReadText | server/generate_playlists.py:177-179 | the plugin's reader finds the same entries in a file's bytes as in the text Python reads from it |
| Generator.FileLinesWithoutCR | server/generate_playlists.py:147-158 | a file's lines hold no `\r` when its stem holds none |
| Generator.BuildWithoutCR | server/generate_playlists.py:131-158 | no generated line holds a `\r` when no stem does |
| Generator.JoinLinesWithoutCR | server/generate_playlists.py:171 | joining with newlines adds no `\r` |
| Generator.PlaylistTextReadsBack | server/generate_playlists.py:171-179 | a playlist text whose stems hold no `\r` reads back as itself |
| Generator.Store | server/generate_playlists.py:174-195 | at most one more playlist is counted; a writable target then reads back as its text |
| Generator.ProcessFrom | server/generate_playlists.py:222-241 | the fold of `Store` over the sources' plans; UpdatedAtMost, SkippedChangeNothing, OthersUntouched and PlaylistStays state its properties |
| Generator.OutputPath | server/generate_playlists.py:120 | `<output>/<name>.m3u8`, or `<name>.m3u8` when the name starts with `/`; OutputPathInjective and AbsoluteNameShares state when names share a file |
| Generator.Content | server/generate_playlists.py:171 | the header and the lines joined by newlines, with a final newline; ContentShape and ContentReadsBack state what it holds |
| Generator.FirstArtwork | server/generate_playlists.py:75-86 | `find_artwork`: ArtworkPriority, ArtworkFallback and ArtworkListed state the priority order and that the result is a listed file |
| Generator.ScanResult | server/generate_playlists.py:94-105 | `scan_directory`: ScanResultContents states it is sorted and holds exactly the listed audio files under an existing directory |
| Generator.Parent | server/generate_playlists.py:138 | `Path.parent`: `.` for a bare name, `/` directly under the root, else the text before the last `/` |
| Generator.BaseName | server/generate_playlists.py:153 | `Path.name`; BaseNameTail states it is the `/`-free tail of the path |
| Generator.Suffix | server/generate_playlists.py:101 | `Path.suffix`; SuffixShape states it is empty or a `.` and at least one more character, with no other `.` |
| Generator.Stem | server/generate_playlists.py:153 | `Path.stem`; StemThenSuffix states stem and suffix make up the name |
| Server.ArtworkPath | server/main.py:194-202 | the audio path always starts with `/` |
| Server.HashRoute | server/main.py:127-130 | every name after `/hash/` reaches the hash handler with that name |
| Server.PlaylistRoute | server/main.py:143-146 | every name after `/playlist/` reaches the playlist handler with that name |
| Server.RouteNames | server/main.py:127-146 | the hash and playlist handlers are reached exactly for their prefixes, and the name is the rest of the path |
| Server.ExactRoutes | server/main.py:103-188 | only the exact paths reach the status, list and legacy handlers |
| Server.OtherRoutes | server/main.py:190-354 | the artwork and stream handlers are reached exactly for their prefixes, and every path matching no test is a 404 |
| Server.RouteOf | server/main.py:103-354 | the tests in source order; RouteNames, ExactRoutes and OtherRoutes state which paths reach which handler |
| Server.ArtworkPathDropsQuery | server/main.py:195 | the query is cut off before decoding |
| Server.ArtworkPathDecodes | server/main.py:195-202 | the decoded text, with a `/` put in front only when it lacks one |
| Server.PluginRequestsRouted | server/main.py:127-146 | the plugin's hash and playlist urls for a job reach these handlers with the job's endpoint |
| Server.PlaylistFile | server/main.py:127-188 | the file the hash and playlist handlers open: `pathlib`'s join of the playlist directory and `<name>.m3u8`, or `master_playlist.m3u8` for the legacy paths; AbsoluteNameEscapes states where an absolute name leads |
| Server.ServedPlaylist | server/main.py:143-188 | a playlist body is sent only by the playlist handlers; ServedFile and AbsoluteNameEscapes state which file |
| Server.ServedFile | server/main.py:143-159 | `/playlist/<name>` sends the text of the file `pathlib` joins for `<name>.m3u8` when it exists, whatever the name |
| Server.AbsoluteNameEscapes | server/main.py:127-159 | a name starting with `/` replaces the playlist directory: the hash and playlist handlers open `<name>.m3u8` wherever it is |
| Server.SafePlaylistFile | server/main.py:127-159 | the corrected choice of file; SafeFileInside states it lies directly in the playlist directory |
| Server.SafeServedPlaylist | server/main.py:143-159 | the corrected download; SafeServedInside and SafeAgreesOnPlainNames state its guarantees |
| Server.SafeFileInside | server/main.py:127-159 | corrected, every file opened is a `/`-free name joined to the playlist directory |
| Server.SafeServedInside | server/main.py:143-159 | corrected, a download sends only a file directly inside the playlist directory |
| Server.SafeAgreesOnPlainNames | server/main.py:143-159 | the correction refuses names holding a `/` and agrees with the code on every other name |
| Server.GeneratedPlaylistStored | server/generate_playlists.py:222-241 | with distinct, alike names, after a run, a usable source with files has its playlist text in its file, or the earlier file that already read back as that text |
| Server.GeneratedPlaylistServed | server/main.py:143-159 | with distinct, alike names, after a run, downloading a source's playlist and reading it gives the `/stream` locations of its files, in order, whichever of the two files is kept |
| Server.ParseRange | server/main.py:299-309 | the step-by-step parsing computes `RangeBounds` |
| Server.RangeOfNumbers | server/main.py:303-307 | `unit=a-b` gives `a` and `b` |
| Server.RangeOpenEnd | server/main.py:303-307 | `unit=a-` runs to the last byte |
| Server.RangeSuffixFromStart | server/main.py:303-307 | `unit=-n` gives 0 to n |
| Server.RangeKeepsStart | server/main.py:303-309 | a bad end keeps the start already read and the default end |
| Server.RangeWithoutUnit | server/main.py:300-309 | a header without `=` is ignored: the whole file |
| Server.RangeStartNatural | server/main.py:303-307 | the start is never negative |
| Server.StreamSpan | server/main.py:299-309 | the span never starts below 0 |
| Server.StreamReplyOfSpan | server/main.py:302-324 | with a header, the headers are those announced over the parsed span |
| Server.StreamStatus | server/main.py:302-324 | 200 exactly without a header; 416 exactly for a start at or past the end, with `Connection: close`, the error page's length and the `Content-Range` only after the page; other lengths are `end - start + 1` |
| Server.RangeHeaderText | server/main.py:311-318 | with a range, the 206's head carries `bytes start-end/len`; the 416's head carries no `Content-Range`, and `bytes */len` is written after the page |
| Server.RangeBounds | server/main.py:299-309 | the parsed bounds; ParseRange computes them, and RangeOfNumbers, RangeOpenEnd, RangeSuffixFromStart, RangeKeepsStart and RangeWithoutUnit state them per header shape |
| Server.Announce | server/main.py:311-324 | the headers over a span, with the 416 as `send_error` sends it; AnnounceStatus states the status and header rules |
| Server.RangePageHasLength | server/main.py:312 | the page `send_error` writes for the 416 is 351 characters long, its `Content-Length` |
| Server.LateContentRange | server/main.py:311-315 | a range starting past the file gets a 416 whose head has no `Content-Range`; the line follows the error page |
| Server.CorrectedUnsatisfiable | server/main.py:311-315 | corrected, the 416 carries `bytes */len` in its head and nothing follows the page |
| Server.StreamReply | server/main.py:298-324 | the headers for a request; StreamStatus and RangeHeaderText state the status and header rules |
| Server.ContentRangeText | server/main.py:313-318 | the header's text; RangeHeaderText states it for both branches |
| Server.AnnounceStatus | server/main.py:311-324 | the same over a given span |
| Server.BytesSent | server/main.py:332-344 | the send loop writes no more than the file holds from the start |
| Server.SendBody | server/main.py:332-344 | the block loop computes `BytesSent` |
| Server.SpanOfNumbers | server/main.py:303-307 | the span of `unit=a-b` is `a` to `b` |
| Server.OverlongContentLength | server/main.py:307-344 | a range ending past the file announces more bytes than are sent |
| Server.NegativeContentLength | server/main.py:317-324 | a reversed range announces a negative length with status 206 |
| Server.CorrectedLengthIsSent | server/main.py:317-344 | corrected, the announced length is what the loop sends, and a 206 span lies inside the file |
| Server.CorrectionAgreesInside | server/main.py:311-324 | for a range inside the file the correction changes nothing |
| Server.Clamp | server/main.py:317-324 | the corrected span; CorrectedLengthIsSent states a 206 span lies inside the file |
| Server.CorrectedAnnounce | server/main.py:311-324 | the corrected headers; CorrectedLengthIsSent states the length is what the loop sends, CorrectedUnsatisfiable the 416's head, CorrectionAgreesInside that in-file ranges are unchanged |
| Server.CorrectedStreamReply | server/main.py:317-324 | the corrected handler over the parsed span |
| Server.ArtworkServedListed | server/main.py:205-245 | artwork is served only for an existing audio file, and it is a listed file |
| Server.ArtworkServed | server/main.py:205-245 | the artwork for an existing audio file's directory; ArtworkServedListed states its guarantees |

## Left out

- The WinHTTP transport: sessions, connections, timeouts and the read loops. Their outcome is the `Transport` parameter.
- The worker threads of `get_async`/`post_async` and the hop back to the main thread. A completion is a method call.
- The Win32 timer: only whether it runs is kept.
- The artwork caches' mutexes. The caches are modelled one operation at a time.
- The host's services: the playlist manager, album art data objects, service factories and abort callbacks. Exceptions are result values.
- Console logging, and the byte layout of the persisted settings blob. The persisted list is a sequence of field values.
- Observer registration (`add_callback`/`remove_callback`). Notifications go to one event log.
- The find of a playlist by name is exact on the map. The host's case-insensitive lookup is not modelled.
- The controls of the preferences page and of the edit dialog: list view, labels, dark mode, and the status columns its observer callbacks update.
- Strings.Atoi: C's `atoi` overflow is undefined; here the value is unbounded.
- Manifest.Trim: pfc's `skip_trailing_char` is taken to drop every trailing occurrence of the character. The pfc source is not part of this model.
- Scheduler.SyncManager.OnTimer: the tick is unbounded; the source's `int` counter could overflow after about 68 years.
- Scheduler.SyncManager.OnTimer and Scheduler.SyncManager.SyncAll: the source indexes `m_syncing[i]` without a size check (src/sync_manager.cpp:68, 94) and divides by `poll_interval_seconds` (:70). The model makes these preconditions: `BusyCovers` says the flags cover every job, and `IntervalsUsable` says every interval is nonzero. The call sites keep them: `start` and `reload_config` resize the flags to the job count, and the edit dialog raises intervals to at least 10. A persisted interval of 0, from a settings file edited by hand, would divide by zero.
- The server's socket handling, file reads and writes, MD5, mimetypes and `translate_path`.
- The `/list` handler's directory glob.
- The branch of the `/stream/` handler that serves artwork for an `artwork`/`cover`/`art` query.
- A failing write in the send loop. `Server.SendBody` counts what the file can give.
- The `.artwork` sidecar files of `generate_playlist`. `process_sources` always leaves them switched off.
- Loading the configuration file, watch mode and the command line. The default `recursive` is handled where the file is read and is a plain flag here.
- Python's `int` accepts Unicode white space and digits; only the ASCII ones are modelled.
- `urllib.parse.unquote` is a parameter. `pathlib` normalisation is assumed: paths have no `//` and no trailing `/`.
- A playlist file that cannot be read. The source catches the exception and rewrites the file; the model reads every existing file.
- The locale's encoding for reading a playlist back. Reading is modelled as UTF-8 with universal newlines. Under a locale that is not UTF-8, every playlist with non-ASCII text reads back differently and is rewritten on each run.
- Writing a playlist is modelled with `\n` line ends, as on POSIX. On Windows the write turns `\n` into `\r\n`; the read turns it back.
- RerunFrom: requires that no playlist text holds a `\r`. A stem with a `\r` reads back as a `\n`, so Python rewrites that playlist and counts it on every run.
- RerunUpdatesNothing: requires that no scanned file's stem holds a `\r`, for the reason given for RerunFrom.
- Strings.Lower: only ASCII letters are lowered. Python's `str.lower` covers all of Unicode: U+212A KELVIN SIGN becomes `k`, and U+0130 becomes two characters. The extension test is still exact: outside ASCII only the Kelvin sign lowers to ASCII text, and no audio extension holds a `k`.
- Generator.Quote: Python's `quote` raises on the lone surrogates `pathlib` uses for undecodable file names. Nothing at generate_playlists.py:157 catches it, so `process_sources` stops at that source. Dafny characters cannot hold surrogates.
- Generator.OutputPath: `pathlib` also drops `.` components, so in Python `x` and `./x` share one file; here they do not. The absolute-name rule is modelled.
- Generator.NamesSeparateTargets, Generator.RerunUpdatesNothing, Server.GeneratedPlaylistStored and Server.GeneratedPlaylistServed: require that the names all start with `/` or none does. `Generator.AbsoluteNameShares` shows that otherwise distinct names can share one file; the later source then overwrites the earlier one.
- Server.ServedPlaylist: files are keyed by path text, so `..` is not resolved. In Python `/playlist/../etc/x` opens `/data/../etc/x.m3u8`, which the operating system resolves to `/etc/x.m3u8`; here it is a 404 unless that text is a key. `Server.SafePlaylistFile` refuses such names too, since they hold a `/`.
- Server.Announce: the 416's page is the template of Python 3.12's `http.server`, so `Server.RangePageLength` is 351; other Python versions' pages differ. The page's `Content-Type` header and its body are not part of `Reply`.
- The generated playlists are not themselves files of the scanned `FileSystem`.

## Findings

| source | as written | input that shows it | evidently intended | confidence | as-written member | corrected member |
|---|---|---|---|---|---|---|
| src/sync_manager.cpp:131-133 | a completion whose job index is at or past the job count clears `m_syncing[job_index]` without a bounds check; the same happens at lines 181-183 | two jobs with the second running; the user removes a job and applies, so `reload_config` shrinks the flags to one slot; the hash check then completes with index 1 and writes past the end | clear the flag only when the slot exists | not executed | Scheduler.AbandonedAsWritten | Scheduler.Abandoned |
| server/main.py:324 | `Content-Length` is `end - start + 1` even when the range ends at or past the end of the file | `Range: bytes=0-99` on a 10-byte file announces 100 bytes, and the send loop sends 10 | clamp the end to the last byte, as section 2.1 of RFC 7233 requires | not executed | Server.OverlongContentLength | Server.CorrectedLengthIsSent |
| server/main.py:317-324 | a range whose end is before its start is answered with 206 and a negative `Content-Length` | `Range: bytes=5-3` on a 10-byte file announces a length of -1 | treat the range as invalid and send the whole file with 200, as section 2.1 of RFC 7233 requires | not executed | Server.NegativeContentLength | Server.CorrectedLengthIsSent |
| server/main.py:311-315 | `send_error(416)` has already ended the head and written its page when `Content-Range` is sent, so the head has none and the line follows the page | `Range: bytes=20-30` on a 10-byte file | a 416 whose head carries `Content-Range: bytes */10`, as section 4.4 of RFC 7233 requires | not executed | Server.LateContentRange | Server.CorrectedUnsatisfiable |
| server/main.py:129-146 | the request name is joined to the playlist directory with `pathlib`, which lets a name starting with `/` replace the directory | `GET /playlist//etc/x` sends `/etc/x.m3u8`, and `/hash//etc/x` hashes it | serve only `<name>.m3u8` directly inside the playlist directory | not executed | Server.AbsoluteNameEscapes | Server.SafeServedInside |

`Scheduler.StaleIndexAfterShrink` spells out the first row's input. After the shrink,
index 1 is not below the number of flags, so `Scheduler.AbandonedAsWritten` cannot be
applied to it. `Scheduler.AbandonAfterReloadOutOfRange` shows that this happens to
every index that takes the abandon branch once the flags follow the job count. The
completion handlers `OnHashComplete` and `OnPlaylistComplete` use the guarded write.

For the second, third and fourth rows, `Server.CorrectedStreamReply` is the corrected handler.
It works over the span `Server.Clamp` gives. `Server.CorrectionAgreesInside` shows that
the correction agrees with the code for every range that lies inside the file and is
not reversed.

For the last row, `Server.SafeServedPlaylist` is the corrected download.
`Server.SafeAgreesOnPlainNames` shows that it refuses exactly the names holding a `/`
and otherwise sends what the code sends. The generator's names in
`Server.GeneratedPlaylistServed` are taken as the code handles them.
