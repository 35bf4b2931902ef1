# Music player media cache: a Dafny model

This project models the core of a small music-player web service. The
server proxies a remote music API and caches audio, lyrics and covers in a
local directory tree. The browser client keeps a play queue, parses LRC
lyrics and formats numbers and times. This model covers:

- **Storage layer** (`storage-utils.js`):
  - file names with illegal characters replaced;
  - the layout `<root>/<source>/<artist>/<album>/<title>/<title>.{mp3|flac|lrc|jpg}`, with Node's `path.join` semantics;
  - the cache probes;
  - write-once saving, which streams into a `.tmp` file and renames it on success;
  - write-once lyrics;
  - the library scan;
  - the decision part of the streaming proxy: which headers go upstream, which are mirrored back, and whether a copy is saved.
- **Task registry and save-all route** (`server.js`):
  - the in-memory map of download tasks, its merge-and-stamp update and its 10-minute expiry timers;
  - the batch "save all" route: validation, pre-registration of every song, batches of five, and the accounting.
- **Playlist history** (`playlist-history-utils.js`): a JSON file of at most 100 entries, newest first and unique by (platform, id).
- **Browser client** (`public/app.js`):
  - the play queue: add, remove, clear, drag-and-drop reordering, next/previous under the four play modes, and the mode cycle;
  - the LRC parser and the active-lyric search;
  - `formatTime`, `formatNumber`, the client-side `sanitizeFileName` and the search history.

## How the model is built

- **JavaScript values** are the datatype `JsValue.Value`. The model includes their
  truthiness, `||`, property access (which throws on null and undefined), `===`
  and template-string conversion.
- **Strings** are `seq<char>`. `JsText` models `trim` (the full ECMAScript
  whitespace set), `indexOf`, first-occurrence `replace`, `split`,
  `padStart`/`padEnd` and the integer `toString`.
- **The file system** is a map from paths (sequences of names) to directories and files
  (`FileSystem`). `mkdir -p` creates the whole chain or nothing.
- **Network transfers** are inputs:
  - A save is told what the GET would deliver (`Storage.Fetch`).
  - The proxy is told what the upstream answered (`StreamProxy.Upstream`).
  - Save-all is told what each song's remote calls return (`SaveAll.SongReport`).
- **Time** is a parameter `now` in milliseconds. The `setTimeout` cleanup is a
  list of pending timers, which `TaskRegistry.Registry.AdvanceTo` fires.
- **Randomness:** the index `Math.random()` would choose is a parameter `pick`.
- **Mutable state** is held in classes:
  - the media store (`Storage.MediaStore`);
  - the task map (`TaskRegistry.Registry`);
  - the playlist history file (`PlaylistHistory.HistoryFile`);
  - the search history (`SearchHistory.SearchStore`);
  - the player (`PlayQueue.Player`).

  Each method is proved against a function of the old state. The properties
  are lemmas about those functions.
- **Behaviour of the code worth knowing:**
  - A leftover `.tmp` file makes later saves report success without fetching.
    It is not overwritten by a retry.
  - There are no retries and no backoff.
  - A terminal task update schedules a fresh, unconditional timer. The timer does not restart an existing window: the first due timer deletes the task even when the task was updated since (`TaskRegistry.ExpiryUnconditional`).
  - Only the artist, album and title are sanitised. The source (platform) segment is used as given.

## Model

| member | source | states |
|---|---|---|
| Sanitize.SanitizeIsSafe | storage-utils.js:12-16 | the stored name is never empty, contains none of `<>:"/\|?*` or a control character, and has no surrounding whitespace |
| Sanitize.SanitizeFixedPoint | storage-utils.js:12-16 | a name that is already safe, non-empty and trimmed is returned unchanged |
| Sanitize.SanitizeIdempotent | storage-utils.js:12-16 | sanitising twice is the same as sanitising once |
| Sanitize.SanitizeUnknown | storage-utils.js:12-16 | the result is "未知" exactly when the input is empty or cleans and trims to "" or to "未知" itself |
| Sanitize.SanitizeBlank | storage-utils.js:12-16 | cleaning and trimming give "" exactly when every character is non-control whitespace (tabs and newlines become `_` first) |
| Sanitize.ReplaceIllegal | storage-utils.js:14 | each illegal character becomes `_`, every other character is kept, and the length is unchanged |
| Sanitize.SanitizeExample | storage-utils.js:12-16 | a slash between two ordinary characters becomes `_` and the rest is kept |
| Sanitize.SanitizeBlankExample | storage-utils.js:12-16 | a lone space gives "未知" |
| Layout.KeyOfSafe | storage-utils.js:26-37 | the cache key keeps the source and holds safe artist, album and title names |
| Layout.KeyOfSanitisedInputs | storage-utils.js:26-37 | feeding already-sanitised names gives the same key as the raw names |
| Layout.Siblings | storage-utils.js:40-65 | audio, lyrics and cover of a song are `<title>.mp3/.flac`, `<title>.lrc` and `<title>.jpg` in the same song directory |
| Layout.ExtensionByQuality | storage-utils.js:40-51 | the extension is `.flac` exactly for "flac" and "flac24bit", otherwise `.mp3`, and `.mp3` for the default "320k" |
| Layout.DirectoryLayout | storage-utils.js:26-37 | with plain names the song directory is `root/source/artist/album/title` |
| Layout.TmpPath | storage-utils.js:76 | the `.tmp` sibling is a different path in the same directory |
| Layout.UnsanitisedSourceLeavesRoot | storage-utils.js:26-37 | a source of `..` places the song directory outside the storage root |
| Layout.DotDotTitlesShareAFile | storage-utils.js:26-51 | titles sanitised to `..` collapse onto the artist directory, so songs of different albums share one audio path |
| FileSystem.MkdirPSpec | storage-utils.js:19-23 | `mkdir -p` succeeds exactly when no prefix of the path is a file; on success the chain is directories, old entries are unchanged and only prefixes are added |
| FileSystem.MkdirPIdempotent | storage-utils.js:19-23 | creating a directory chain twice is the same as once |
| FileSystem.MkdirPWellFormed | storage-utils.js:19-23 | `mkdir -p` keeps every entry below a directory |
| FileSystem.JoinOfPlainParts | storage-utils.js:26-37 | `path.join` with plain names is concatenation |
| Storage.EnsureDirsSpec | storage-utils.js:19-37 | after resolving a song directory both the root and the directory exist, the file system stays well formed, and nothing that existed changes |
| Storage.EnsureDirsIdempotent | storage-utils.js:19-37 | resolving the same directory again changes nothing |
| Storage.ResolveAgain | storage-utils.js:19-37 | after a failed resolution, resolving again fails the same way and changes nothing more |
| Storage.SaveOnceSkips | storage-utils.js:78-87 | an existing file or `.tmp` sibling returns the final path without fetching and without changes |
| Storage.SaveOnceFetches | storage-utils.js:89-99 | the network is used only when neither file nor `.tmp` exists, and request and stream failures are rethrown |
| Storage.SaveOnceResult | storage-utils.js:97-114 | for a fresh path, a complete download succeeds exactly when the directory resolves to a directory, and the new file system is then the resolved one with the fetched bytes at the final path; a fetching success leaves no `.tmp`; a failure leaves neither file |
| Storage.SaveOnceFrame | storage-utils.js:73-158 | no entry other than the final file changes, and only directories and the final file are added |
| Storage.WriteOnceSpec | storage-utils.js:161-178 | existing lyrics are kept; a fresh file in a directory that resolves is written with exactly the given text and its path returned; a failure leaves no file; nothing else changes |
| Storage.ProbeSpec | storage-utils.js:195-210 | the probe reports the path exactly when an entry (file or directory) exists there; for an absent path it succeeds exactly when the directory resolves; it keeps every old entry and adds only directories |
| Storage.ReadTextSpec | storage-utils.js:181-192 | an existing lyrics file reads as its text (bytes decoded) without changes, a directory or an absent file as nothing, and old entries stay |
| Storage.ReadAfterWrite | storage-utils.js:161-192 | lyrics written by `saveLyrics` are read back unchanged by `readLocalLyrics` |
| Storage.MediaStore.constructor | storage-utils.js:9 | a store over a well-formed file system with a plain storage root |
| Storage.MediaStore.GetSongStorageDir | storage-utils.js:26-37 | the new file system is the resolved one, and the result is the song directory or the `mkdir` error |
| Storage.MediaStore.GetLocalSongPath | storage-utils.js:195-201 | state and result are the audio probe of the resolved path |
| Storage.MediaStore.GetLocalCoverPath | storage-utils.js:204-210 | state and result are the cover probe of the resolved path |
| Storage.MediaStore.ReadLocalLyrics | storage-utils.js:181-192 | the lyrics text, or nothing when the file is absent or a step throws |
| Storage.MediaStore.DownloadAndSaveSong | storage-utils.js:73-115 | new state, result and network use are those of the write-once save of the audio path |
| Storage.MediaStore.DownloadAndSaveCover | storage-utils.js:118-158 | new state, result and network use are those of the write-once save of the cover path |
| Storage.MediaStore.SaveLyrics | storage-utils.js:161-178 | new state and result are the write-once text save of the lyrics path |
| Storage.MediaStore.GetStoragePath | storage-utils.js:40-65 | the new file system is the resolved one, and the result is `<title><ext>` in the song directory or the `mkdir` error |
| Storage.MediaStore.GetLocalPath | storage-utils.js:195-210 | state and result are the probe of `<title><ext>` in the song directory |
| Storage.MediaStore.LocalSong | storage-utils.js:195-201 | state and result are the probe of the audio path for the quality |
| Storage.MediaStore.LocalCover | storage-utils.js:204-210 | state and result are the probe of the cover path |
| Storage.MediaStore.ReadLyricsFile | storage-utils.js:181-192 | state and result are those of reading the lyrics path: the text, or nothing when absent, a directory, or a step throws |
| Storage.MediaStore.Download | storage-utils.js:73-115 | new state, result and network use are those of the write-once save of `<title><ext>`, also when resolving the path throws |
| Storage.MediaStore.SaveSong | storage-utils.js:73-115 | new state, result and network use are those of the write-once save of the audio path |
| Storage.MediaStore.SaveCover | storage-utils.js:118-158 | new state, result and network use are those of the write-once save of the cover path |
| Storage.MediaStore.WriteText | storage-utils.js:165-171 | an existing entry is kept with success; otherwise the text is written when the parent is a directory, and ENOTDIR leaves the state unchanged |
| Storage.MediaStore.WriteLyrics | storage-utils.js:161-178 | new state and result are the write-once text save of the lyrics path |
| Storage.MediaStore.Transfer | storage-utils.js:84-114 | the skip rule, then fetch into `.tmp` and rename, or delete `.tmp` and rethrow |
| LibraryScan.FindSongFile | storage-utils.js:240 | the index of the first listed file that starts with the sanitised title and ends in `.mp3` or `.flac` |
| LibraryScan.ScanSongDir | storage-utils.js:235-254 | the song directory's entry: none unless it is a directory holding a matching audio file |
| LibraryScan.ScanSongDirs | storage-utils.js:229-256 | the loop over an album's listing collects each song directory's entry in listing order |
| LibraryScan.ScanAlbumDirs | storage-utils.js:224-257 | the loop over an artist's listing collects each album's items in listing order |
| LibraryScan.ScanArtistDirs | storage-utils.js:219-258 | the loop over a platform's listing collects each artist's items in listing order |
| LibraryScan.ScanLibrary | storage-utils.js:213-263 | the result equals the four-level scan of platform, artist, album and song directories |
| LibraryScan.ScanMissingRoot | storage-utils.js:215 | a missing storage root gives an empty library |
| LibraryScan.SongEntrySpec | storage-utils.js:236-253 | a song directory gives at most one entry, which exists exactly when it holds a matching audio file, and carries the names, format and relative path |
| LibraryScan.FormatOfAudio | storage-utils.js:248 | the format is the extension after the last dot, `mp3` or `flac` |
| LibraryScan.ScanComplete | storage-utils.js:213-263 | every song directory with a matching audio file is listed, and only those |
| LibraryScan.ScanSound | storage-utils.js:213-263 | every listed item comes from some song directory's entry |
| StreamProxy.PartialExactly | storage-utils.js:268-269 | a request is partial exactly when a Range is given and does not start with `bytes=0-` |
| StreamProxy.UpstreamHeaders | storage-utils.js:272-273 | the Range header is forwarded exactly when one was given |
| StreamProxy.Mirror | storage-utils.js:287-291 | exactly the upstream headers among the mirrored names that have non-empty values are copied |
| StreamProxy.DecideSpec | storage-utils.js:266-331 | the body is piped exactly for a 2xx answer, with that status and only the four mirrored headers; a copy is saved, to the given path, exactly for a non-partial request answered 200 with a target path |
| StreamProxy.NoPartialSaves | storage-utils.js:298 | a partial range or a 206 answer never saves a copy |
| StreamProxy.FullRangeSaves | storage-utils.js:298 | `bytes=0-` with a 200 answer saves to the target |
| TaskRegistry.TaskIdInjective | server.js:741 | for a source and a quality without `_`, two keys `${source}_${id}_${quality}` are equal exactly when source, quality and the id's string form are equal |
| TaskRegistry.TaskIdCollision | server.js:786 | a source containing `_` makes keys collide: (`a_b`, `c`) and (`a`, `b_c`) share a task |
| TaskRegistry.UrlRouteQuality | server.js:81 | the quality is always truthy, and a truthy `br` is kept |
| TaskRegistry.SaveAllQuality | server.js:713 | the quality is never undefined, and a given quality is kept, falsy or not |
| TaskRegistry.DefaultQualitiesSplitTasks | server.js:81 | the save-all default ("flac24bit") and the url-route default ("320k") give the same song two different task keys |
| TaskRegistry.FalsyQualityKeptBySaveAll | server.js:713 | an empty or null quality is kept by save-all but replaced by "320k" in the url route, so the keys differ |
| TaskRegistry.MergeSpec | server.js:13-16 | new fields override old ones, old fields survive, `lastUpdate` is now, and a new task gets id and startTime |
| TaskRegistry.UpsertConsistent | server.js:13-21 | an update keeps the map, the insertion order and the timers consistent |
| TaskRegistry.UpsertStamps | server.js:14-15 | an update stamps `lastUpdate`, keeps an existing startTime, and a new task gets startTime now and goes last in order |
| TaskRegistry.UpsertSchedules | server.js:17-20 | a timer 600000 ms ahead is appended exactly when the status is completed or failed, and old timers are kept |
| TaskRegistry.ExpireSpec | server.js:18 | firing timers removes exactly the tasks with a due timer, leaves the others unchanged, and keeps exactly the future timers |
| TaskRegistry.ExpiryUnconditional | server.js:17-20 | a task marked terminal is gone 10 minutes later whatever updates come before the deadline |
| TaskRegistry.ValuesSpec | server.js:36-42 | the task list has one entry per task, in insertion order |
| TaskRegistry.FireDue | server.js:18 | the loop removes the due tasks and keeps the pending timers |
| TaskRegistry.Registry.constructor | server.js:11 | the registry starts empty |
| TaskRegistry.Registry.Update | server.js:13-21 | the new state is the merge-and-schedule update of the old one |
| TaskRegistry.Registry.AdvanceTo | server.js:18 | the new state is the old one with the due timers fired |
| TaskRegistry.Registry.List | server.js:36-42 | the values of the map in insertion order |
| SaveAll.ValidateSpec | server.js:705-730 | a request is accepted exactly when the body and source are truthy and songs is an array of 1 to 5000; a falsy body gives "请求体为空", a missing source or empty songs "缺少必要参数", more than 5000 songs "歌曲数量过多，最多支持500首"; the quality defaults |
| SaveAll.PreregisterSpec | server.js:739-750 | when every song has an id, each gets a pending task under its key and nothing else changes |
| SaveAll.PreregisterThrows | server.js:739-750 | a null or undefined song makes pre-registration throw |
| SaveAll.PreregisterStops | server.js:739-750 | after a throw, no later song is registered |
| SaveAll.ProcessSpec | server.js:756-849 | a song succeeds exactly as "已存在" or "成功", fails exactly as "失败" with an error, is "已存在" exactly when already cached, and reports its id |
| SaveAll.OutcomesPending | server.js:756-849 | no per-song update marks a task completed or failed |
| SaveAll.RunCounts | server.js:732-855 | success plus failed equals the songs completed, and details follow completion order |
| SaveAll.RunSchedulesNothing | server.js:756-849 | save-all schedules no expiry timer |
| SaveAll.RunAccounts | server.js:732-856 | for any completion order of each batch of five, the order is a schedule (every song once, within its batch), total, success and failed add up, and every song's detail appears once |
| SaveAll.SongInfo | server.js:759-767 | the info is present exactly when the body is truthy, `code` is 200 and `data` is truthy, and then it is that `data` |
| SaveAll.BatchesAreSchedule | server.js:753-849 | finishing each batch of five in any order of its own completes every song exactly once and never before an earlier batch's songs |
| SaveAll.CompletionsShape | server.js:753-849 | after b batches exactly the first min(5b, n) songs have completed, each once and in its own batch |
| SaveAll.Record | server.js:772-848 | the registry gets the song's task update, if any, and success or failed grows by one with the song's detail appended |
| SaveAll.RunBatch | server.js:755-849 | one batch's callbacks settle in the given order: registry and results are the run extended by that batch |
| SaveAll.RunBatches | server.js:753-849 | the completion order built batch by batch is a schedule, and the registry and results equal the run of the outcomes in that order |
| SaveAll.RegisterSong | server.js:740-750 | a song with an id gets its pending task unless one exists under its key |
| SaveAll.PreregisterAll | server.js:739-750 | the registry after the loop is the pre-registration function, and no error means every song had an id |
| SaveAll.SaveAllRoute | server.js:702-865 | a rejected body gives 400 with its message and no change; a throwing pre-registration gives 500; otherwise 200 with the results of running the batches in a schedule built from one order per batch |
| PlaylistHistory.HistoryFile.constructor | playlist-history-utils.js:8-16 | the file starts in the given state |
| PlaylistHistory.HistoryFile.GetHistory | playlist-history-utils.js:19-28 | the new file and result are those of reading the history |
| PlaylistHistory.HistoryFile.Add | playlist-history-utils.js:31-60 | the new file and result are those of the add operation |
| PlaylistHistory.HistoryFile.Remove | playlist-history-utils.js:75-86 | the new file and result are those of the remove operation |
| PlaylistHistory.HistoryFile.Clear | playlist-history-utils.js:63-72 | the new file and result are those of clearing |
| PlaylistHistory.ReadSpec | playlist-history-utils.js:8-28 | a missing or unparseable file reads as `[]`, a readable one as its content, and a missing file is created when writable |
| PlaylistHistory.AddSpec | playlist-history-utils.js:31-60 | add succeeds exactly when writable and no entry is null; the new entry comes first, followed by the first 99 entries the filter keeps (all when fewer), so same-key entries are dropped and the newest others kept in order |
| PlaylistHistory.AddKeepsKeysUnique | playlist-history-utils.js:31-60 | after add, the new key occurs only at the head, and unique keys stay unique |
| PlaylistHistory.RemoveSpec | playlist-history-utils.js:75-86 | remove succeeds under the same conditions and keeps every occurrence of the other entries and none with the key, in order |
| PlaylistHistory.RemoveIdempotent | playlist-history-utils.js:75-86 | removing twice is the same as removing once |
| PlaylistHistory.ClearSpec | playlist-history-utils.js:63-72 | clear succeeds exactly when writable and leaves `[]` |
| PlaylistHistory.FilterSpec | playlist-history-utils.js:40-41 | the filter throws exactly on a null or undefined entry; otherwise it keeps every occurrence of the entries with another key and none with the key, in order |
| PlaylistHistory.FilterCounts | playlist-history-utils.js:40-41 | a filter that does not throw keeps each entry without the key as often as it occurs, and no entry with the key |
| PlaylistHistory.NumericIdSurvivesQueryRemove | server.js:1015-1021 | an entry added with a numeric id is not removed by the string id from the query |
| SearchHistory.SearchStore.constructor | public/app.js:95-103 | the history starts empty |
| SearchHistory.SearchStore.Save | public/app.js:105-122 | the stored history becomes the saved history, or stays when storage fails |
| SearchHistory.SavedBlank | public/app.js:106 | a blank keyword leaves the history unchanged |
| SearchHistory.SavedSpec | public/app.js:105-122 | the trimmed keyword comes first, followed by the first 9 entries the filter keeps (all when fewer): case-insensitive duplicates are dropped, order is kept, at most 10 remain |
| SearchHistory.SavedTrimmedUnique | public/app.js:105-122 | a trimmed keyword leaves no case-insensitive duplicate |
| SearchHistory.UntrimmedKeywordKeepsDuplicate | public/app.js:111-113 | saving " Foo" over "foo" keeps both "Foo" and "foo" |
| SearchHistory.DropSameSpec | public/app.js:111 | the filter keeps every occurrence of the entries whose lower case differs and none of the others, in order |
| SearchHistory.DropSameCounts | public/app.js:111 | the filter keeps each entry whose lower case differs as often as it occurs, and no other entry |
| PlayQueue.Player.constructor | public/app.js:792 | an empty queue, no current song, sequence mode |
| PlayQueue.Player.AddToQueue | public/app.js:1018-1028 | the queue becomes the add function's result; index and mode are unchanged |
| PlayQueue.Player.RemoveFromQueue | public/app.js:1031-1040 | queue and index become the removal function's result |
| PlayQueue.Player.ClearQueue | public/app.js:1043-1048 | the queue is empty and there is no current song |
| PlayQueue.Player.Drop | public/app.js:1112-1130 | no change without a drag or onto itself; otherwise the corrected reorder of queue and index |
| PlayQueue.Player.PlayNext | public/app.js:2114-2137 | the index becomes the next-index function's result, and the queue is unchanged |
| PlayQueue.Player.PlayPrevious | public/app.js:2090-2111 | the index becomes the previous-index function's result, and the queue is unchanged |
| PlayQueue.Player.SwitchPlayMode | public/app.js:2163-2176 | the mode becomes the next one in the cycle |
| PlayQueue.AddedSpec | public/app.js:1018-1028 | a song already queued (same platform and id) leaves the queue unchanged, any other is appended, and the queue stays duplicate-free |
| PlayQueue.RemovedAtSpec | public/app.js:1031-1040 | an out-of-range index changes nothing; otherwise exactly that song goes, the index stays in range and still points at the same song unless that one was removed |
| PlayQueue.ReorderedSpec | public/app.js:1116-1129 | reordering is a permutation that puts the dragged song at its new index, and the current index follows the current song |
| PlayQueue.ReorderedAsWrittenLosesCurrent | public/app.js:1125 | the shipped index update moves the current index off the playing song when dragging forward onto it |
| PlayQueue.ReorderedAsWrittenElsewhere | public/app.js:1123-1129 | the shipped and corrected updates agree except on a forward drag onto the current song |
| PlayQueue.NextIndexSpec | public/app.js:2114-2137 | next stays in range: random takes the pick, single keeps the index, the end wraps to 0 in loop mode and stops otherwise, else it advances by one |
| PlayQueue.PreviousIndexSpec | public/app.js:2090-2111 | previous stays in range: random takes the pick, the start wraps to the last in loop mode and stops otherwise, else it goes back by one |
| PlayQueue.NextModeSpec | public/app.js:2163-2166 | the modes cycle sequence, loop, random, single, an unknown mode goes to sequence, and four switches return to the start |
| Lyrics.ParseLrc | public/app.js:1382-1418 | the result equals the parse function: per-line entries collected, then stably sorted by time |
| Lyrics.CollectLines | public/app.js:1390-1412 | the loop over the lines collects exactly the entries of each line, in line order |
| Lyrics.PushEntries | public/app.js:1407-1411 | one entry per time, in order, with the line's text, and nothing when there is no tag or no text |
| Lyrics.ScanLine | public/app.js:1390-1406 | one time per tag matched left to right, and the text with each matched tag removed once and trimmed |
| Lyrics.ActiveIndex | public/app.js:1488-1497 | the index is the last of the leading run of lines not after the current time, and in sorted lyrics every later line starts later |
| Lyrics.SortByTimeSpec | public/app.js:1415 | the sort is ordered by time, a permutation, and stable: lines with equal times keep their order |
| Lyrics.ParsedSpec | public/app.js:1382-1418 | the result is sorted and a stable permutation of all lines' entries, and empty text gives none |
| Lyrics.ParsedTexts | public/app.js:1406-1407 | every parsed line has non-empty, trimmed text |
| Lyrics.LineEntriesSpec | public/app.js:1407-1411 | a line gives no entries when it has no tag or empty text, otherwise one entry per tag with that tag's time and the line's text |
| Lyrics.CollectedFrom | public/app.js:1390-1412 | every collected entry comes from one of the lines |
| Lyrics.NextMatchLeftmost | public/app.js:1388-1396 | each match is the leftmost tag at or after the search position |
| Lyrics.NextMatchValid | public/app.js:1388 | every match found is a well-formed tag: two or three minute digits, two second digits, and an optional fraction of two or three digits |
| Lyrics.MatchesValid | public/app.js:1388-1396 | the global `exec` loop sees matches inside the line at or after its start, left to right and not overlapping |
| Lyrics.TimeOfSpec | public/app.js:1397-1401 | the time is minutes and seconds plus a fraction padded to milliseconds: none adds 0, two digits are hundredths, three are milliseconds |
| Lyrics.TwoTagsExample | public/app.js:1382-1412 | `[00:01.50][01:02]la` gives "la" at 1500 ms and at 62000 ms |
| Formatters.FormatTimeRoundTrip | public/app.js:575-580 | for 0 to 99:59 the result is `mm:ss` with seconds below 60 and reads back as the whole seconds |
| Formatters.FormatTimeNaN | public/app.js:576 | NaN shows as "00:00" |
| Formatters.FormatTimeNegative | public/app.js:577-579 | -30 seconds shows as "-1:-30" |
| Formatters.FormatNumberSpec | public/app.js:1770-1772 | the regex inserts a comma before every full group of three digits from the right; a minus sign stays in front |
| Formatters.GroupDigitsRoundTrip | public/app.js:1770-1772 | deleting the commas gives back the digits |
| Formatters.GroupDigitsShape | public/app.js:1770-1772 | a number of n digits gets (n-1)/3 commas, none at either end |
| Formatters.FormatNumberExample | public/app.js:1770-1772 | 1234567 groups as "1,234,567" |
| Formatters.ClientFileName | public/app.js:1750-1753 | a falsy name gives "未知", a string is sanitised, any other value throws |
| Formatters.ClientFileNameSafe | public/app.js:1750-1753 | the client's result is safe, non-empty and trimmed, and sanitising it again changes nothing |

## Left out

- Network transfers are parameters, not modelled code. This covers the axios GET (`Storage.Fetch`), the upstream answer of the proxy (`StreamProxy.Upstream`) and save-all's remote calls for a song's info and url (`SaveAll.SongReport`). Timeouts and their message text are not modelled.
- Save-all's storage calls are parameters too: `SaveAll.SongReport` also carries what `getLocalSongPath` (`cached`) and `downloadAndSaveSong` (`download`) return for each song. Their file-system effects (the song-directory `mkdir`, the audio, lyrics and cover writes, the `.tmp` skip) are not composed with `Storage.MediaStore`; the lyrics and cover saves are not modelled; their errors are caught and do not change a song's outcome.
- Concurrency is not modelled. The async interleaving of two saves of the same file is not modelled, except that a leftover `.tmp` file is part of the state. Save-all's `Promise.all` batches are modelled through one completion order (a permutation) per batch (`SaveAll.RunBatches`).
- SaveAll.Record: a song's pending task update is applied when the song completes. The code makes it after the url answer and before awaiting the download. So when two songs of one batch share a key, the task's name and artist may come from a different song than the model's order gives.
- Progress callbacks are not modelled (the percentage updates during a download). Neither is `ensureSongCached` or any other caller of the storage layer.
- The byte pipe of the streaming proxy is not modelled. Neither are the client disconnect and the response-header writing. Only the decisions are modelled (`StreamProxy.Decide`).
- Console logging is left out.
- UTF-8 decoding of a lyrics file read as bytes is a parameter (`decode`).
- `toLowerCase` is modelled on ASCII letters only. Strings are sequences of code points, not of UTF-16 units.
- Numbers:
  - Lyric times are integers in milliseconds, not floating-point seconds.
  - `Lyrics.ActiveIndex` takes an integer current time.
  - `formatTime` works on exact reals. It does not model Infinity or a non-number argument beyond NaN.
  - `formatNumber` works on integers only.
  - JSON and JavaScript values hold integer numbers only (`JsValue.Num`). Fractional, NaN and infinite numbers are not modelled, and neither is exponent formatting. This covers request ids, the `${song.id}` in a task key, history ids and the `code === 200` test. It leaves out, for example, a task key `…_1.5_…` for a fractional id, NaN written as `null` into the history file, and `1e+21` in the key of a large id.
- The `Date.now()` clock and `setTimeout` are modelled through the `now` parameter and a list of timers. The model does not require successive `now` values to increase.
- `Math.random` is the `pick` parameter.
- The DOM, `localStorage` and the player side effects are left out: `playSong`, `saveQueueState`, the queue display and the play-mode button.
- Search entries are strings. A stored JSON item that is not a string (which would make `toLowerCase` throw) is not modelled.
- The order of directory listings is a parameter of the scan (`LibraryScan.Listing`). It is not derived from the operating system.
- The file system has no symbolic links and no permission errors, so `statSync` and `readdirSync` never throw during the scan. The catch in `scanLibrary` that returns the items collected so far is therefore never reached, and the model's scan never stops early.
- The statistics route, the search and URL routes and the rest of the HTTP layer are left out. Only the task key, the quality defaults, the task list, the save-all route and the playlist-history delete query appear.
- SaveAll.ValidateSpec: the route accepts up to 5000 songs while its rejection message says 500. The model keeps both as written.
- TaskRegistry.ExpiryUnconditional: save-all tasks never reach "completed" or "failed" (`SaveAll.OutcomesPending`), so they are never expired.
- PlaylistHistory.AddSpec: when the history file exists but does not parse, `add` reads it as empty and then overwrites it.

## Findings

| source | as written | input that shows it | evidently intended | confidence | as-written member | corrected member |
|---|---|---|---|---|---|---|
| public/app.js:1125 | after a drop the current index is lowered when `currentQueueIndex > draggedIndex && currentQueueIndex <= dropIndex` | queue [A, B, C] playing C (index 2), drag A (index 0) onto index 2: the queue becomes [B, A, C] but the index becomes 1, now pointing at A | compare with `newIndex` (`dropIndex - 1` on a forward drag), so the index stays on C | not executed | PlayQueue.ReorderedAsWrittenLosesCurrent | PlayQueue.ReorderedSpec |
