# Spotlight: a verified model of its searchable file index, timers and player gating

Spotlight is a small desktop launcher. A Tauri back end written in Rust sits
behind a React front end. This project models the parts that hold logic, in Dafny:

- **The file index.** The back end builds a tree of `DirNode`s for the user's
  home directory, skipping hidden entries. Every directory node holds its own
  files, its subdirectories and `tokens`: the lower-cased names of all files
  below it. `search_tree` walks the tree and skips every subtree whose tokens
  cannot match the query. `build_index`, `is_index_done` and `search_index` are
  the commands around a shared `Option<DirNode>` cell.
  `src-tauri/src/lib.rs` repeats `src-tauri/src/file_search.rs` line for line,
  so one model (`FileSearch`) covers both. The table cites whichever copy a row
  is closest to.
- **The back-end countdown** `TimerState`: duration, start time, remaining time
  and running flag, driven by an explicit clock reading `now`, in nanoseconds
  (`TimerBackend`).
- **The countdown screen**: `formatTime`/`parseTime` for `HH:MM:SS`, and the
  panel's state cells and handlers (`TimerView`).
- **The stopwatch screen**: `formatTime` for `MM:SS:CC`, its reset, toggle and
  10 ms tick (`StopwatchView`).
- **The player screen**, in both copies. The root component's built-in one and
  the standalone one differ only in how they read a currently-playing reply.
  The model covers the command gate `deviceId && token`, the requests issued,
  the read-then-act toggle and the snapshot update (`Playback`).
- **The root component**: index polling, the search field and its result
  paging, the screen offers, and switching screens (`AppScreen`).

The file system, the network and the browser SDK are inputs:

- A directory listing is a value of type `Listing`. It is either unreadable or
  a sequence of entries, each a file, a subdirectory with its own listing, or
  something else.
- Each HTTP reply and each SDK event is a parameter of the step that receives it.
- The player records the requests it issues in a ghost log, `sent`.

Behaviour worth noting:

- **Token order.** `build_tree` pushes tokens in listing order. A file's token
  and a subdirectory's block of tokens therefore interleave in the order the
  entries come. The token invariant `FileSearch.WellIndexed` is stated as a
  multiset equality:
  - a node's tokens are, as a multiset, its own lower-cased file names together
    with the tokens of its subdirectories;
  - and every subdirectory is itself well indexed.
- **A zero-second countdown.** `start_timer(0)` leaves the timer running with
  nothing remaining. It stops at the next update. `TimerState` can therefore
  be running with zero remaining.
- **No stale-result guard.** A file search that answers late overwrites newer
  results (`AppScreen.StaleResultShown`).
- **`not_ready` only logs.** The player never becomes not ready again.
- **Token refresh.** The token is refreshed on every entry to the player screen.
- **204 "nothing playing".** The root component's player treats a 204 as ok,
  fails to parse its empty body and changes nothing. The standalone player
  clears the track.
- **Search status.** Search replies are applied without checking the status.
- **Play status.** `apiPlay` sets `isPlaying` whatever status the play request gets.

## Model

| member | source | states |
|---|---|---|
| Text.NatToStringDigits | src/Timer.jsx:46-48 | `toString` of a non-negative integer is a non-empty digit string whose decimal value is the integer |
| Text.PadZerosValue | src/Timer.jsx:46-48 | `padStart(w, "0")` of a digit string keeps it a digit string of the same value, of length max(len, w) |
| Text.FieldDigits | src/Stopwatch.jsx:18 | a padded display field of n ≥ 0 is a `:`-free digit string of value n, at least 2 wide, exactly 2 wide when n < 100 |
| Text.SplitThree | src/Timer.jsx:52 | `split(":")` of three `:`-free fields joined by `:` gives exactly those three fields |
| Text.SplitNoSep | src/Timer.jsx:52 | a string without the separator splits into itself alone |
| Text.ParseIntDigits | src/Timer.jsx:52 | `parseInt(s, 10)` of a non-empty digit string is its decimal value |
| Text.Lower | src-tauri/src/file_search.rs:52 | `to_lowercase` (and `toLowerCase`), ASCII only; its properties are in Text.LowerIdempotent and the search lemmas |
| Text.NatToString | src/Timer.jsx:46-48 | `toString` of a non-negative integer, without leading zeros; its properties are in Text.NatToStringDigits |
| Text.PadStart | src/Timer.jsx:46-48 | `padStart(width, fill)`: left-pads up to the width, never truncates; its properties are in Text.PadZerosValue |
| Text.Split | src/Timer.jsx:52 | `split(sep)` on one character, which always yields at least one part; exact results are in Text.SplitThree and Text.SplitNoSep |
| Text.ParseInt | src/Timer.jsx:52 | `parseInt(s, 10)`: skips leading white space, takes an optional sign and the longest digit prefix, and gives NaN when there is no digit; see Text.ParseIntDigits |
| Text.Contains | src-tauri/src/file_search.rs:71 | `contains` (and `includes`): the substring occurs at some position |
| Text.StartsWith | src-tauri/src/file_search.rs:28 | `starts_with`: the string begins with the prefix |
| Text.IntToString | src/Timer.jsx:46 | `toString` of any integer: a `-` sign before the digits of a negative one |
| Text.TruncRem | src/Timer.jsx:44-45 | JavaScript's `%` on integers, whose sign follows the dividend |
| Text.Field | src/Stopwatch.jsx:18 | one display field: the number's text padded to 2 with `0`; see Text.FieldDigits |
| Text.LowerIdempotent | src/App.jsx:286-296 | lower-casing twice equals lower-casing once |
| FileSearch.IsHiddenPath | src-tauri/src/lib.rs:27-32 | `is_hidden_path`: the UTF-8 file name starts with `.` or is `Library`; characterised exactly in FileSearch.IsHiddenPathIff |
| FileSearch.IsHiddenPathIff | src-tauri/src/file_search.rs:25-30 | a path is hidden iff its last component is a UTF-8 name that starts with `.` or equals `Library`; no name, or a non-UTF-8 name, is not hidden |
| FileSearch.ChildHidden | src-tauri/src/lib.rs:49-50 | an entry's path is hidden exactly when its own name is |
| FileSearch.BuildTree | src-tauri/src/file_search.rs:32-62 | the loop builds exactly the specification tree `TreeOf`; a hidden or unreadable directory gives the empty node |
| FileSearch.TreeOfWellIndexed | src-tauri/src/lib.rs:48-63 | every built tree satisfies the token invariant: own lower-cased file names plus the subdirectories' tokens, at every level |
| FileSearch.ScanWellIndexed | src-tauri/src/file_search.rs:46-59 | the invariant holds after every prefix of the entry loop |
| FileSearch.TokensArePreorderNames | src-tauri/src/file_search.rs:50-57 | under the invariant, the multiset of a node's tokens is that of the lower-cased names of all files in its subtree |
| FileSearch.TokenOfEveryFile | src-tauri/src/file_search.rs:52-56 | under the invariant, every file below a node has its lower-cased name among the node's tokens |
| FileSearch.TreeOfIndexesVisibleFiles | src-tauri/src/file_search.rs:37-53 | every file in a built tree is reached through the listing: its path is that of a `File` entry, possibly inside the listings of `Dir` entries; no directory on the way and not its own name is hidden, and its name is the lossy rendering of the entry name |
| FileSearch.AnyContains | src-tauri/src/file_search.rs:66 | the pruning test: some token contains the lower-cased query; see FileSearch.PruneLosesNothing |
| FileSearch.SearchTree | src-tauri/src/file_search.rs:64-79 | the recursion appends exactly `Found(node, lower(query))` to `out`, and `out` stays an unchanged prefix |
| FileSearch.MatchesMember | src-tauri/src/file_search.rs:70-74 | a path is among a node's own matches iff it is the path of one of its files whose lower-cased name contains the query |
| FileSearch.NoMatches | src-tauri/src/file_search.rs:70-74 | files none of whose lower-cased names contain the query produce no matches |
| FileSearch.PruneLosesNothing | src-tauri/src/file_search.rs:66-68 | under the invariant, when no token contains the query, no file in the subtree matches, so pruning loses nothing |
| FileSearch.SearchIsPreorderFilter | src-tauri/src/lib.rs:66-81 | under the invariant, the results are exactly the matching files of the pre-order walk (own files, then subdirectories in order), in that order |
| FileSearch.FoundSound | src-tauri/src/file_search.rs:65-74 | every result is the path of a file in the subtree whose lower-cased name contains the lower-cased query |
| FileSearch.FoundComplete | src-tauri/src/lib.rs:66-81 | under the invariant, every file in the subtree whose lower-cased name contains the query is in the results |
| FileSearch.IndexState.constructor | src-tauri/src/lib.rs:143 | the shared cell starts empty |
| FileSearch.IndexState.BuildIndex | src-tauri/src/lib.rs:83-91 | the cell then holds the tree built for the root, which satisfies the token invariant |
| FileSearch.IndexState.IsIndexDone | src-tauri/src/file_search.rs:90-93 | reports true iff the cell holds a tree |
| FileSearch.IndexState.SearchIndex | src-tauri/src/lib.rs:98-105 | no tree gives `[]`; otherwise exactly the search of the stored tree from an empty vector, which is the pre-order filter of its files |
| TimerBackend.Elapsed | src-tauri/src/timer.rs:24 | `start.elapsed()` read at `now`, saturating at zero |
| TimerBackend.RemainingAt | src-tauri/src/timer.rs:24-31 | the remaining time `update_remaining` computes for a run; see TimerBackend.RemainingBounds and TimerBackend.RemainingMonotone |
| TimerBackend.RemainingBounds | src-tauri/src/timer.rs:24-31 | the updated remaining time is at most the duration, zero iff the elapsed time has reached it, and otherwise duration − elapsed |
| TimerBackend.RemainingMonotone | src-tauri/src/timer.rs:24-31 | as the clock advances the remaining time never grows |
| TimerBackend.TimerState.constructor | src-tauri/src/timer.rs:12-19 | zero duration and remaining, no start time, stopped |
| TimerBackend.TimerState.UpdateRemaining | src-tauri/src/timer.rs:21-34 | no-op unless running with a start time; at or past the duration: zero, stopped, no start time; before it: duration − elapsed, strictly positive; keeps remaining ≤ duration |
| TimerBackend.TimerState.StartTimer | src-tauri/src/timer.rs:37-44 | duration is the given seconds, remaining is the whole duration, started at `now`, running |
| TimerBackend.TimerState.PauseTimer | src-tauri/src/timer.rs:46-52 | remaining brought up to date, then stopped with no start time; duration unchanged |
| TimerBackend.TimerState.ResetTimer | src-tauri/src/timer.rs:54-60 | remaining is the duration again, stopped, no start time, duration unchanged |
| TimerBackend.TimerState.GetRemaining | src-tauri/src/timer.rs:62-67 | reports the remaining time after the update, which is `RemainingAt(now)` while running |
| TimerBackend.RereadIsStable | src-tauri/src/timer.rs:62-67 | two readings at the same instant agree |
| TimerView.FormatTime | src/Timer.jsx:42-49 | `formatTime` on integer seconds, with `Math.floor` of the quotients and JavaScript's truncating `%`; its shape is in TimerView.FormatTimeShape and its inverse in TimerView.ParseFormatRoundTrip |
| TimerView.FormatSeconds | src/Timer.jsx:15-17 | `formatTime` of the fractional seconds the back end reports, with JavaScript's `%` on numbers; equal to the integer display by TimerView.FormatSecondsFloor |
| TimerView.ParseTime | src/Timer.jsx:51-62 | `parseTime`: exactly three parts that all parse give h·3600 + m·60 + s, anything else 0; see TimerView.ParseTimeDigits and TimerView.ParseFormatRoundTrip |
| TimerView.FormatTimeShape | src/Timer.jsx:42-49 | for secs ≥ 0: three `:`-separated digit fields of width ≥ 2, minutes and seconds exactly 2 digits and below 60, and h·3600 + m·60 + s = secs |
| TimerView.FormatSecondsFloor | src/Timer.jsx:42-49 | for a non-negative fractional reading, the display is that of its whole seconds |
| TimerView.ParseTimeDigits | src/Timer.jsx:51-62 | three non-empty digit fields parse to h·3600 + m·60 + s, with no range check on any field |
| TimerView.ParseFormatRoundTrip | src/Timer.jsx:42-62 | `parseTime(formatTime(s)) == s` for every s ≥ 0 |
| TimerView.InitialInputFormatted | src/Timer.jsx:7-10 | the initial text `01:00:00` is the display of the initial 3600 s |
| TimerView.Seconds | src-tauri/src/timer.rs:66 | `as_secs_f64` of the remaining nanoseconds, as an exact quotient; see TimerView.SecondsFacts |
| TimerView.RealRem | src/Timer.jsx:44-45 | JavaScript's `%` on numbers, `x − y·trunc(x/y)`; see TimerView.RealRemNonNegative |
| TimerView.SecondsFacts | src-tauri/src/timer.rs:66 | the reading in seconds is non-negative, positive iff nanoseconds remain, and its whole part is the whole seconds |
| TimerView.TimerPanel.constructor | src/Timer.jsx:7-10 | duration 3600, remaining 0, stopped, input `01:00:00` |
| TimerView.TimerPanel.HandleInputChange | src/Timer.jsx:64-73 | input always becomes the text; only when stopped, duration and remaining become `parseTime(text)` |
| TimerView.TimerPanel.StartTimer | src/Timer.jsx:24-28 | a representable duration starts the back end with it and shows the full duration, running; otherwise the command rejects and nothing changes |
| TimerView.TimerPanel.PauseTimer | src/Timer.jsx:30-33 | both the panel and the back end are stopped with no start time; the back end's remaining time is brought up to date at `now`; duration unchanged |
| TimerView.TimerPanel.ResetTimer | src/Timer.jsx:35-40 | remaining is the duration, input is `formatTime(duration)`, stopped; the back end is reset to its full duration with no start time |
| TimerView.TimerPanel.Tick | src/Timer.jsx:12-19 | stopped: nothing changes; running: the back end is updated at `now` (remaining is `RemainingAt(now)` while it runs), remaining and input show that reading, and the panel stops iff nothing remains |
| StopwatchView.FieldsOf | src/Stopwatch.jsx:14-16 | seconds below 60, centiseconds below 100, and ms = min·60000 + sec·1000 + cs·10 + ms mod 10 |
| StopwatchView.FormatTime | src/Stopwatch.jsx:13-20 | `formatTime` of the stopwatch: minutes, seconds and centiseconds, each padded to 2; see StopwatchView.FormatTimeShape and StopwatchView.FormatTimeSameIff |
| StopwatchView.FieldsOfCentis | src/Stopwatch.jsx:13-19 | the fields depend only on the whole centiseconds ms/10 |
| StopwatchView.FormatTimeShape | src/Stopwatch.jsx:13-19 | three `:`-separated digit fields, minutes at least 2 wide and unbounded, seconds and centiseconds exactly 2 digits with values below 60 and 100 |
| StopwatchView.FormatTimeSameIff | src/Stopwatch.jsx:13-19 | two times display the same text iff they have the same whole centiseconds |
| StopwatchView.StopwatchPanel.constructor | src/Stopwatch.jsx:5-6 | zero time, stopped |
| StopwatchView.StopwatchPanel.Reset | src/Stopwatch.jsx:8-11 | zero time, stopped |
| StopwatchView.StopwatchPanel.Toggle | src/Stopwatch.jsx:43 | running flips, time unchanged |
| StopwatchView.StopwatchPanel.Tick | src/Stopwatch.jsx:22-31 | adds exactly 10 iff running on the stopwatch screen, else nothing; time never decreases |
| Playback.AfterCurrentlyPlaying | src/Spotify.jsx:103-120 | the snapshot after a currently-playing reply, for each copy (src/App.jsx:141-149 for the root component's); its properties are in the lemmas below |
| Playback.ErrorReplyKeeps | src/Spotify.jsx:108 | a reply that is not ok leaves track and playing state unchanged, in both copies |
| Playback.NoContentDiffers | src/Spotify.jsx:103-107 | a 204 clears the standalone player's track and stops it; the root component's player keeps its snapshot |
| Playback.ItemReplaces | src/Spotify.jsx:111-116 | an ok reply with an item replaces the snapshot by {name, artist names or `[]`} and its `is_playing` |
| Playback.NoItemRules | src/Spotify.jsx:117-120 | an ok reply whose JSON is `null` or has no item clears the standalone player's track and stops it; the root component's player keeps its snapshot (src/App.jsx:143) |
| Playback.MissingArtistsKeeps | src/App.jsx:146 | in the root component an item without `artists` throws in `map`, so track and playing state are kept |
| Playback.UnchangedOrReplaced | src/App.jsx:141-149 | the snapshot is either kept or replaced as a whole by one that depends only on the reply |
| Playback.InAppNeverClears | src/App.jsx:143-149 | the root component's player never turns a shown track into none |
| Playback.ToggleChoice | src/App.jsx:179-190 | the toggle proceeds iff the read is ok and parses, and pauses iff the read reports playing |
| Playback.Player.CanCommand | src/Spotify.jsx:77 | the gate `deviceId && token` of every playback command: a non-empty device id and a non-empty token |
| Playback.Player.constructor | src/Spotify.jsx:6-13 | no token, no device, not ready, not playing, empty track, so no command can pass the gate |
| Playback.Player.LoadSpotify | src/Spotify.jsx:15-60 | one refresh request; on success the token is stored and the SDK hook installed; on failure nothing else changes |
| Playback.Player.OnReady | src/Spotify.jsx:37-41 | the device is stored and the controls become ready |
| Playback.Player.OnNotReady | src/Spotify.jsx:43-45 | nothing changes |
| Playback.Player.SetSpotifySearch | src/App.jsx:209 | only the search text changes |
| Playback.Player.SearchSpotify | src/App.jsx:106-117 | without a token no request and no change; otherwise one search request, whatever the status: a JSON object replaces both lists (a missing list becomes empty), any other non-null JSON value empties both, and a null or unparsable body changes nothing |
| Playback.Player.FetchCurrentTrack | src/Spotify.jsx:93-101 | without a token nothing is sent; otherwise one currently-playing read |
| Playback.Player.OnCurrentlyPlaying | src/Spotify.jsx:103-120 | a rejected fetch changes nothing; a reply sets the snapshot to `AfterCurrentlyPlaying` for this copy |
| Playback.Player.ApiPlay | src/Spotify.jsx:76-91 | gated on device and token: no request and no change when closed; otherwise a play request, and once it resolves playing is set and the current track read |
| Playback.Player.PlayTrack | src/App.jsx:152 | the play request carries `{uris: [uri]}`, under the same gate; the requests sent, `isPlaying` and the outstanding reads are given on every path, as for `apiPlay` |
| Playback.Player.PlayPlaylist | src/App.jsx:153 | the play request carries `{context_uri}`, under the same gate; the requests sent, `isPlaying` and the outstanding reads are given on every path, as for `apiPlay` |
| Playback.Player.SkipNext | src/App.jsx:155-162 | gated; a next request, then one current-track read (one more outstanding read) once it resolves; playing state unchanged |
| Playback.Player.SkipPrevious | src/Spotify.jsx:136-143 | gated; a previous request, then one current-track read (one more outstanding read) once it resolves; playing state unchanged |
| Playback.Player.TogglePlayPause | src/Spotify.jsx:145-164 | gated; a failed read stops there; reported playing: pause request, then not playing and one read; otherwise play, then playing and two reads (from `apiPlay` and the toggle); the outstanding reads are counted on every path |
| Playback.Player.PollTick | src/Spotify.jsx:166-170 | on the player screen with a token, one currently-playing read and one more outstanding read; nothing else |
| AppScreen.ShowsLoadMore | src/App.jsx:305 | the "Load more" button shows iff showCount < \|results\| |
| AppScreen.HiddenCount | src/App.jsx:308 | the count on the button, \|results\| − showCount; see AppScreen.HiddenCountIsRest |
| AppScreen.Displayed | src/App.jsx:300 | the first min(showCount, \|results\|) results, a prefix of the results |
| AppScreen.HiddenCountIsRest | src/App.jsx:305-308 | while "Load more" shows, its count is positive and is the number of results not displayed |
| AppScreen.AllDisplayedWithoutButton | src/App.jsx:300-305 | without the button every result is displayed |
| AppScreen.LoadMoreExtends | src/App.jsx:300-307 | one more page keeps what was displayed and appends the next results |
| AppScreen.OffersPlayer | src/App.jsx:286 | the Spotify entry shows iff indexing is done and the lower-cased query contains `play` |
| AppScreen.OffersStopwatch | src/App.jsx:292 | the Stopwatch entry shows iff indexing is done and the lower-cased query contains `stopwatch` |
| AppScreen.OffersIgnoreCase | src/App.jsx:286-296 | a query and its lower-cased form offer the same screens |
| AppScreen.OffersPlayerGrow | src/App.jsx:286 | a query that offers the player still offers it with text added on either side |
| AppScreen.App.constructor | src/App.jsx:9-23 | not indexed, empty query and results, a page of 10, the file search screen; the player in its initial state (no token or device, not playing, empty track and lists, nothing sent or pending); the stopwatch at zero and stopped |
| AppScreen.App.StartIndex | src/App.jsx:26-39 | the index is requested and polling begins |
| AppScreen.App.IndexerFinishes | src-tauri/src/file_search.rs:81-88 | the stored tree is the one built for the fixed root |
| AppScreen.App.PollIndex | src/App.jsx:30-36 | the first poll that sees the tree sets indexing done and stops polling; indexing done never goes back |
| AppScreen.App.SetSearch | src/App.jsx:41-55 | an empty new query clears the results and resets the page; a non-empty one issues a lookup; the same text does nothing |
| AppScreen.App.SearchResolves | src/App.jsx:48-52 | a lookup's answer replaces the results wholesale and resets the page, whatever the current query |
| AppScreen.App.LoadMore | src/App.jsx:307 | showCount grows by exactly 10, results unchanged |
| AppScreen.App.SetMode | src/App.jsx:58-62 | callable for the player or the stopwatch only from the search screen, once indexing is done and the lower-cased query contains `play` or `stopwatch` (src/App.jsx:286-296); entering the player screen refreshes the token every time and installs the SDK hook on success, keeping the device, readiness, track and search; entering the stopwatch mounts it at zero; nothing else changes |
| AppScreen.App.PlaybackPoll | src/App.jsx:194-198 | a currently-playing read, with one more outstanding read, only on the player screen with a token; the session and search stay |
| AppScreen.App.StopwatchTick | src/Stopwatch.jsx:22-31 | adds 10 ms only while running on the stopwatch screen; running unchanged |
| AppScreen.StaleResultShown | src/App.jsx:48-54 | typing `a` then `ab`, with the `a` lookup answering last, leaves the matches for `a` under the query `ab` |

## Left out

- The file system calls `read_dir`, `is_file`, `is_dir` and `entries.flatten()`: the directory is an input `Listing`. An unreadable directory is `Unreadable`, and entries that fail to read are not in it. Symbolic links are not modelled; a `Listing` is a finite tree.
- `std::thread::spawn` and the `Arc<Mutex<…>>` cell: storing the tree is one atomic assignment (`FileSearch.IndexState.BuildIndex`), reached through `AppScreen.App.IndexerFinishes` at any point after the request.
- Lower-casing is ASCII only. Rust's `to_lowercase` and JavaScript's `toLowerCase` fold all of Unicode.
- `to_string_lossy` is modelled as an opaque name for a non-UTF-8 file name; the replacement characters are not computed.
- `refresh_spotify_token` (environment variables, and the OAuth 2.0 refresh-token grant of section 6 of RFC 6749): its outcome is the `refresh` parameter.
- Spotify Web API `fetch` calls, the SDK script injection and `window.Spotify.Player`: replies and SDK events are parameters. `initialization_error` and `authentication_error` only log and are not modelled.
- `encodeURIComponent` of the search text: the request records the raw text.
- A currently-playing reply with no `is_playing` field is modelled as `false`. Entries of the search lists are taken as given; `null` entries are not modelled.
- `setInterval`/`clearInterval` timing and React re-render timing are not modelled. Each firing of an interval and each handler is an explicit step method.
- Only two replies arrive in steps of their own: the currently-playing reply (`Playback.Player.OnCurrentlyPlaying`) and the file search answer (`AppScreen.App.SearchResolves`).
- Every other reply completes inside the step that issues it, as a parameter of that step. These are the token refresh (`refresh`), the Spotify search reply (`reply`), the toggle's state read (`read`), and whether play, pause, next or previous resolved (`resolved`). Every timer command the countdown screen invokes also completes in its step, including `get_remaining` in the tick.
- As a result the model does not capture these interleavings:
  - a late Spotify search reply overwriting newer track and playlist lists;
  - a `get_remaining` reply awaited across a `resetTimer` that then overwrites the reset display (`src/Timer.jsx:13-18` against `src/Timer.jsx:35-40`);
  - a second entry to the player screen while the first token refresh is still in flight.
- AppScreen.App.IndexerFinishes: may store a tree again after indexing is done. The root component calls `build_index` once per mount, so a second store does not happen in the source. The extra behaviour only overwrites the cell with another well-indexed tree.
- The Back buttons render through `setMode`, and are covered by `AppScreen.App.SetMode`, whose preconditions carry the gating of the `▶ Spotify` and `Stopwatch` buttons; JSX, MUI and CSS rendering are not modelled.
- The tray menu, window show/hide and Tauri bootstrap in `src-tauri/src/lib.rs:139-191` are not modelled.
- The timer commands are not registered with the invoke handler in `src-tauri/src/lib.rs:148-153`. The countdown screen is not mounted by the root component, and neither is the standalone player. Both are modelled as written, on their own.
- TimerView.TimerPanel.Tick: `as_secs_f64` is modelled as the exact quotient nanos/10^9 (`TimerView.Seconds`), not as the rounded `f64`.
- JavaScript numbers are modelled as unbounded integers, so precision loss beyond 2^53 in `formatTime` and `parseTime` is not modelled.
- TimerBackend.TimerState.StartTimer: `Duration::from_secs` cannot overflow, and the model relies only on `seconds` being a `u64`, which `TimerView.TimerPanel.StartTimer` checks before calling.
- `Instant::elapsed` is `now − start`, saturating at zero (`TimerBackend.Elapsed`); the clock is the parameter `now`.
- `src-tauri/src/spotify.rs` is not part of this model.
