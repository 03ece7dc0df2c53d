# XcelerateDL download engines, modelled in Dafny

XcelerateDL is a download manager. This project models and proves properties of three parts of it.

- **`HttpDownloader`** (idm.py) is a segmented HTTP downloader.
  - It cleans the file name taken from the URL.
  - It asks the server for the file size and whether it accepts byte ranges.
  - It splits the file into parts, one per thread. The last part absorbs the remainder.
  - Each part is fetched with up to three attempts into a part file. Bytes are appended when the part file already exists.
  - Progress is kept in a resume record, validated against the URL and file name.
  - When a round ends with no errors and every byte is there, the parts are checked for their exact sizes and joined in ascending part order.
  - Rounds are retried up to the global retry count. Pause sets the shutdown flag and saves the resume record.
- **`YoutubeDownloader`** (test_yt.py) downloads a stream in chunks.
  - It picks a stream and reads its `Content-Length`.
  - It plans `num_threads` chunks and pre-sizes a temporary file.
  - Each chunk is fetched from `start + downloaded` to `end` and written at that offset. Writing stops before a block once the stop flag is set.
  - Progress is saved to and loaded from a progress record.
  - At the end the temporary file is renamed over the output.
- **`MainWindow`** (gui.py), its downloads-history logic only.
  - It files active downloads as completed or incomplete.
  - It moves or removes the first history entry with a given URL.
  - It toggles the light/dark theme and stores it in the settings.
  - It rebuilds the resume list from the incomplete entries, with defaults for missing fields.

How the model represents the system:

- Each downloader is a Dafny `class`, and the fields Python changes in place are `var` fields.
- The disk is fields as well: the resume or progress record as an `Option`, part and temporary files as `map`s to byte sequences, and the history file as an `Option<History>`.
- Network answers are method parameters: the HEAD reply, and for each part the scripted replies of its attempts.
- Threads become sequential calls, in the order the source starts them.
- The pure parts (part sizes, ranges, name cleaning, the merge check) are functions with lemmas.
- Each method's contract ties its new state to those functions.

Files:

| file | module | contents |
|---|---|---|
| common.dfy | Common | bytes, `Option`, block flattening, ascending order of a key set, sums over maps |
| idm_plan.dfy | IdmPlan | the pure logic of idm.py |
| idm_engine.dfy | IdmEngine | class `HttpDownloader` and the worker and round semantics |
| yt_engine.dfy | YtEngine | the chunk plan, offset writes and class `YoutubeDownloader` |
| gui_history.dfy | GuiHistory | history entries and class `MainWindow` |

## Model

| member | source | states |
|---|---|---|
| Common.AscendingIsSortedEnumeration | idm.py:333 | `sorted(part_progress.keys())` is modelled by `Ascending`, which lists every key exactly once in strictly increasing order |
| Common.SumValues | idm.py:76 | the loop summing the part progress yields `Total` of the map |
| IdmPlan.KeepAllowed | idm.py:66 | the kept characters are all ASCII letters, digits, `.`, `-` or `_`; there are no more of them than in the name; a name made only of such characters is kept whole |
| IdmPlan.CleanFilename | idm.py:63-67 | the cleaned name is non-empty, at most 255 characters, and made only of allowed characters |
| IdmPlan.KeepAllowedEmptyIff | idm.py:66 | nothing is kept exactly when no character of the name is allowed |
| IdmPlan.CleanFilenameCases | idm.py:66-67 | with no allowed character the name is `download`; otherwise it is a prefix of the kept characters, and all of them when they fit in 255 |
| IdmPlan.CleanFilenameIdempotent | idm.py:63-67 | an already clean name is unchanged, and cleaning twice equals cleaning once |
| IdmPlan.LastPartAbsorbsRemainder | idm.py:216-218 | the last part is the file size minus (threads - 1) chunk sizes, and is never smaller than a chunk |
| IdmPlan.SumPartSizesTail | idm.py:212-219 | the parts from k to the last add up to the file size minus k chunk sizes |
| IdmPlan.PartSizesSumToFileSize | idm.py:212-219 | the sizes of all parts add up to the file size |
| IdmPlan.FreshPlan | idm.py:369-373 | a fresh plan has parts 0 to threads-1 with ranges, only part 0 without, and all progress 0 |
| IdmPlan.FreshPlanCoversFile | idm.py:207-210 | a fresh plan has total progress 0 and, for a known size, its expected size is the file size |
| IdmPlan.FreshRangesTileFile | idm.py:228-235 | the fresh ranges start at 0, are as long as their parts, each starts right after the previous one, and the last ends at the last byte |
| IdmPlan.ResumedRangeSkipsDownloaded | idm.py:228-241 | with ranges, the request starts `progress` bytes later and ends at the same byte; without ranges, parts other than 0 request nothing, and part 0 asks `bytes=progress-` only when progress > 0 |
| IdmPlan.SnapshotRoundTrip | idm.py:92-135 | a saved record is accepted back exactly for the same URL and file name, and returns the same parts and thread count |
| IdmPlan.KeepExisting | idm.py:84-89 | resetting missing parts keeps the set of part ids |
| IdmPlan.KeepExistingProperties | idm.py:84-90 | parts whose file exists keep their progress, missing ones get 0, nothing changes when all files exist, and resetting twice equals resetting once |
| IdmPlan.KeepExistingLowersTotal | idm.py:84-90 | resetting missing parts never raises the downloaded total |
| IdmPlan.AttemptEffect | idm.py:252-310 | an attempt that opens no part file writes no bytes |
| IdmPlan.StreamedEffect | idm.py:261-310 | an accepted reply opens the part file; a shutdown seen before block k writes exactly the first k blocks and pauses; otherwise it writes all blocks, then retries if the connection dropped and completes if not |
| IdmPlan.SegmentNoOpenNoData | idm.py:248-318 | attempts that never open the part file write nothing |
| IdmPlan.SegmentExhaustedIff | idm.py:248-318 | a segment ends in the error count exactly when every remaining attempt up to the third is rejected |
| IdmPlan.AsWrittenDoubleCountsExistingBytes | idm.py:261-277 | as written, the progress after appending to a part file of e > 0 bytes is 2e + n, not the file length e + n (e = 5, n = 3 gives 13) |
| IdmPlan.CorrectedProgressResumesAtFileEnd | idm.py:228-234 | with the corrected progress, the next range request starts right after the bytes already in the part file, and ends at the part's end |
| IdmPlan.TruncatedPartRefused | idm.py:333-345 | a missing part file, or one a byte short, fails the merge check |
| IdmPlan.JoinLength | idm.py:348-352 | joining parts of their expected sizes gives the sum of those sizes |
| IdmPlan.VerifiedMergeHasFileSize | idm.py:329-352 | when the merge check passes on a fresh plan, the merged file is exactly the file's size |
| IdmPlan.PartsVerifiedByKeys | idm.py:333-345 | the merge check depends only on which parts are planned, not on their progress |
| IdmPlan.PartEnd | idm.py:229-234 | each part ends where the next begins, and the last ends at the file size |
| IdmPlan.JoinTail | idm.py:348-352 | joining parts p to the last, each holding its byte range of the resource, gives the resource from part p's start |
| IdmPlan.MergedOutputIsResource | idm.py:329-357 | if every part file holds its range of the resource, the merged output is the resource byte for byte |
| IdmEngine.HttpDownloader.constructor | idm.py:36-61 | the name is cleaned and the flags are reset; a stored record is loaded only when it is complete and for this URL and name, with missing part files reset and the byte count equal to the total progress |
| IdmEngine.HttpDownloader.InitResumeData | idm.py:69-82 | no record leaves the state alone; a rejected record clears the resume data; an accepted one loads its parts, resets missing files and sets the byte count and the original thread count |
| IdmEngine.HttpDownloader.VerifyExistingParts | idm.py:84-90 | progress of missing part files becomes 0 and the byte count is the new total |
| IdmEngine.HttpDownloader.ClearResumeData | idm.py:101-110 | the resume record, the progress map and the part files are gone |
| IdmEngine.HttpDownloader.SaveResumeData | idm.py:121-157 | nothing is saved without ranges and size, or when the disk refuses; otherwise the record is the snapshot of the current state |
| IdmEngine.HttpDownloader.GetFileSize | idm.py:177-205 | success exactly when the HEAD answered with a readable length; the size and the unknown flag follow the header; with ranges nothing else changes; without ranges a single thread is used and any old resume record, progress and part files are cleared |
| IdmEngine.HttpDownloader.StreamBody | idm.py:266-310 | the part file grows by the blocks streamed before a shutdown, the progress is the part file length (the corrected update of the idm.py:277 finding), the byte count grows by the same amount, and a shutdown is reported exactly when it cut the stream |
| IdmEngine.HttpDownloader.TryAttempt | idm.py:249-318 | the new part state and the attempt's end are those of `AttemptOutcome`; the shutdown flag is set exactly on a pause, and the pause saves the resume record |
| IdmEngine.HttpDownloader.RetryAttempts | idm.py:243-318 | up to three attempts run as `AttemptsFrom` says, and the error count rises by one exactly when all of them fail |
| IdmEngine.HttpDownloader.DownloadSegment | idm.py:221-318 | the request is `SegmentRequest` for the stored progress, and the new state is `WorkerRun` of the part |
| IdmEngine.HttpDownloader.RunRound | idm.py:379-392 | the new state is `RoundFrom` over the part ids in ascending order |
| IdmEngine.HttpDownloader.VerifyParts | idm.py:333-345 | the result is the merge check `PartsVerified` on the current state |
| IdmEngine.HttpDownloader.MergeFiles | idm.py:329-360 | success exactly when the merge check passes; then the output is the parts joined in ascending order and the resume data is gone; otherwise nothing changes |
| IdmEngine.HttpDownloader.SuperviseRounds | idm.py:377-424 | at most the global retry count of rounds run; the merge is reached exactly when the flag was already set, or after a round that did not pause, had no errors and counted all bytes of a non-empty file; with the flag clear, the final state, the merge decision and the round count are `Supervise` of the old state; the set of planned parts is kept |
| IdmEngine.HttpDownloader.RoundTurn | idm.py:378-424 | one turn of the round loop: it merges exactly after a round with no pause that passed the completion test, stops on a pause, a merge or the third round, and otherwise leaves `Supervise` from the next round to go |
| IdmEngine.HttpDownloader.StartDownload | idm.py:362-430 | a failed HEAD fails at once; a shutdown during a round fails; on success the output is the verified join of the parts and the resume data is cleared; the parts the merge saw are the kept plan (with ranges and a non-empty plan) or the fresh plan, and their state is what `Supervise` reaches from `SizedStart` of the old state; for a fresh plan of known size the output has exactly the file size |
| IdmEngine.HttpDownloader.PlanTransfer | idm.py:366-373 | a readable HEAD answer gives the state `SizedStart` of the old one: with ranges the plan is kept, without them the resume data is discarded, and an empty plan becomes the fresh plan; otherwise nothing changes |
| IdmEngine.HttpDownloader.PauseDownload | idm.py:432-436 | the shutdown flag is set and the resume record is saved when saving is allowed |
| IdmEngine.HttpDownloader.ResumeDownload | idm.py:438-441 | the flag is cleared and a download starts; a new output is the verified join of the parts the merge saw, which are the kept or the fresh plan in the state `Supervise` reaches from `SizedStart`; for a fresh plan of known size the output has exactly the file size |
| IdmEngine.JoinParts | idm.py:348-352 | the loop writing part files in ascending order yields `Join` of the parts |
| IdmEngine.AttemptsFromAppends | idm.py:248-318 | running the attempts appends exactly `SegmentData` to the part file and ends with `SegmentEnd` |
| IdmEngine.AppendedNone | idm.py:261-262 | an attempt that opens no file leaves the part state unchanged |
| IdmEngine.AppendedNothing | idm.py:261-272 | opening an existing part file and writing nothing leaves it unchanged |
| IdmEngine.AppendedTwice | idm.py:261-277 | appending twice to a part file equals appending the concatenation once |
| IdmEngine.AsWrittenResumeSkipsBytes | idm.py:228-277 | for a part file already holding bytes, the update as written makes the next range start past the end of the file by as many bytes as it held, while the corrected update starts right after the end |
| IdmEngine.WorkerErrorsIff | idm.py:316-317 | a worker adds at most one error, and adds one exactly when it was not paused, had a request to make, and all three attempts failed |
| IdmEngine.WorkerTouchesOnlyItsPart | idm.py:221-318 | a worker leaves the files and progress of every other part unchanged |
| IdmEngine.WorkerCountsItsBytes | idm.py:273-277 | the byte count grows by exactly the bytes appended to the worker's part file |
| IdmEngine.RoundLeavesOthers | idm.py:382-392 | a round leaves parts it does not visit unchanged |
| IdmEngine.RoundSkipsCompleteParts | idm.py:382-391 | a part whose progress already reaches its expected size is not downloaded again |
| IdmEngine.RoundErrors | idm.py:379-408 | a round adds at most one error per part, and none when no part exhausts its attempts |
| IdmEngine.RoundKeepsParts | idm.py:382-392 | a round keeps the set of part ids |
| IdmEngine.RoundOfPlanKeepsParts | idm.py:382-392 | a round over the planned parts in ascending order keeps the set of planned parts |
| IdmEngine.SuperviseStep | idm.py:377-424 | after the round from a state, the loop stops with the merge after a pause-free round that passes the completion test, without it on a pause or after the third round, and otherwise goes on with the next round |
| IdmEngine.SuperviseKeepsParts | idm.py:377-424 | the rounds keep the set of planned parts, run between one and three rounds, and try the merge only after a pause-free round that passed the completion test |
| YtEngine.PlanCoversFile | test_yt.py:54-64 | the planned chunks start at 0, each starts right after the previous one, the last ends at the last byte, nothing is downloaded yet, and their lengths add up to the total size |
| YtEngine.PlannedChunksMeet | test_yt.py:57-60 | each fresh chunk but the last ends on the byte before the next chunk starts |
| YtEngine.SumLengthsOfPlan | test_yt.py:54-64 | chunks k to the last cover the file from k chunk sizes onward |
| YtEngine.FreshChunksNothingDownloaded | test_yt.py:60-64 | fresh chunks have nothing downloaded |
| YtEngine.DownloadedSumUpdate | test_yt.py:112-113 | adding to one chunk's counter adds the same amount to the sum of counters |
| YtEngine.WriteAtContents | test_yt.py:105-111 | a seek and write puts the data at the offset, keeps every other byte and fills a gap past the end with zeros |
| YtEngine.WriteAtLength | test_yt.py:105-111 | the file grows only when the write runs past its end |
| YtEngine.WriteAtIndex | test_yt.py:105-111 | each byte after a write is the data, the old byte or a zero filler |
| YtEngine.WriteAtTwice | test_yt.py:106-111 | two consecutive writes equal one write of the concatenated data |
| YtEngine.StreamCut | test_yt.py:107-109 | the loop that checks the stop flag before each block writes exactly `StreamedBlocks`, and the flag afterwards is `StoppedAfter` |
| YtEngine.SumDownloaded | test_yt.py:75 | the loop yields the sum of the chunks' counters |
| YtEngine.ChunkStepKeeps | test_yt.py:90-113 | one chunk keeps the chunk count and the gap between the total and the chunk counters, never shortens the temp file and never clears the stop flag |
| YtEngine.ChunksUpToKeeps | test_yt.py:139-162 | the same holds for any number of chunks run in order |
| YtEngine.LastSave | test_yt.py:155-158 | the save point found is the last one below the chunk count, and none is found exactly when there is no save point |
| YtEngine.PlanStep | test_yt.py:54-64 | chunk m of a fresh plan starts where chunks 0 to m-1 reach, and either covers nothing or ends inside the file, so that chunks 0 to m reach its end |
| YtEngine.WriteExtendsPrefix | test_yt.py:105-111 | writing the next bytes of the content at their offset into a file holding the content so far, then zeros, extends the content prefix |
| YtEngine.FillStep | test_yt.py:90-113 | a chunk answered with its bytes of the content extends the filled prefix of the temp file to the chunk's end and keeps the later chunks as planned |
| YtEngine.FreshChunksWriteContent | test_yt.py:130-162 | on a fresh download, chunks 0 to n-1 answered with their bytes of the content leave the content up to their reach in the temp file, followed by zeros |
| YtEngine.FilledAll | test_yt.py:130-162 | once all chunks of a fresh plan are filled, the temp file is exactly the content and the stop flag is clear |
| YtEngine.ContentRepliesRebuildFile | test_yt.py:122-162 | a fresh download whose every chunk is answered with its bytes of the content leaves exactly the content in the temp file, with the stop flag clear |
| YtEngine.YoutubeDownloader.constructor | test_yt.py:12-27 | the temp and progress paths are the output path plus `.tmp` and `.progress`; the counters, chunks, title and stream URL are empty |
| YtEngine.YoutubeDownloader.SelectStream | test_yt.py:29-45 | success exactly when a stream was picked, which sets the stream URL and title; otherwise they are unchanged |
| YtEngine.YoutubeDownloader.GetTotalSize | test_yt.py:47-52 | success exactly when the HEAD gives a number other than 0; a missing header sets 0; a failed HEAD or a non-number leaves the size |
| YtEngine.YoutubeDownloader.InitializeChunks | test_yt.py:54-64 | the chunks are `FreshChunks` of the size and thread count, built by the append loop |
| YtEngine.YoutubeDownloader.LoadProgress | test_yt.py:66-77 | a saved record is loaded exactly when present, with the counter equal to the sum of the chunk counters; otherwise nothing changes |
| YtEngine.YoutubeDownloader.SaveProgress | test_yt.py:79-88 | the record holds the stream URL, size, chunks, output and temp paths |
| YtEngine.YoutubeDownloader.SaveThenLoad | test_yt.py:66-88 | saving and then loading restores the size, chunks, paths and URL, and recomputes the counter |
| YtEngine.YoutubeDownloader.WriteBlock | test_yt.py:110-113 | one write at the offset, with the chunk counter and the total counter both grown by its length |
| YtEngine.YoutubeDownloader.WriteBlocks | test_yt.py:105-113 | the blocks before the stop point are written contiguously from the start offset; both counters grow by their length |
| YtEngine.YoutubeDownloader.DownloadChunk | test_yt.py:90-113 | the request range is `start + downloaded` to `end`, or none when past the end; a failed request changes nothing; otherwise the streamed data lands at the range start; the counter stays the sum of the chunk counters plus its old offset; the new state is `ChunkStep` of the old one |
| YtEngine.YoutubeDownloader.CombineChunks | test_yt.py:115-120 | the old output is removed; the temp file is renamed to the output and the progress record is removed exactly when the temp file exists |
| YtEngine.YoutubeDownloader.Prepare | test_yt.py:124-137 | resuming loads the record and selects a stream only when it has no URL; a fresh start needs a stream and a positive size, plans fresh chunks and creates a zero-filled temp file of that size; a negative size empties the temp file before failing, and the other failures leave the files alone; on every path, failures included, the url, size, chunks and files are the set-up's (`SetupUrl`, `SetupSize`, `SetupChunks`, `SetupFiles`): a zero or absent length leaves size 0 and the old chunks, a negative one plans fresh chunks, and a stream picked before a failing HEAD keeps its url |
| YtEngine.YoutubeDownloader.RunChunks | test_yt.py:139-162 | the chunk count is kept, the counter stays the sum of the chunk counters plus its old offset, the temp file only grows, the stop flag is never cleared; with no save point the record is unchanged, and a save after the last chunk records the final state; the files, chunks, counter and flag are `ChunksUpTo` of the old ones over all chunks, and the record is the one saved after the last save point (`SavedProgress`) |
| YtEngine.YoutubeDownloader.Download | test_yt.py:122-173 | completed exactly when not stopped; unless it failed, the chunks, counter and flag are those of the chunks run in order (`ChunksUpTo`) from the loaded or fresh start (`StartState`); a pause leaves the files of that run and the last saved record; completion renames that run's temp file over the output and removes the record; the url, size and paths are the set-up's on every path; a failure saves the record of the state it leaves: a failed set-up leaves the set-up's chunks and files, and a failed rename leaves that run's chunks and counter with the output already removed; a fresh completed download had a stream and a positive size and its output is at least that size |
| YtEngine.YoutubeDownloader.Fail | test_yt.py:170-173 | a failure sets the stop flag and saves the progress record |
| GuiHistory.ContainsIff | gui.py:148 | the substring test holds exactly when the marker occurs at some offset |
| GuiHistory.FiledCount | gui.py:137-167 | every active download is filed in exactly one of the two lists |
| GuiHistory.FiledByStatus | gui.py:148-151 | an entry is filed as completed exactly when its status contains `completed successfully` |
| GuiHistory.FileDownloads | gui.py:139-151 | the loop appends the filed entries to the completed and incomplete lists in order and keeps the settings |
| GuiHistory.FirstMatch | gui.py:758-765 | the index found holds the URL and no earlier entry does; none is found exactly when no entry holds it |
| GuiHistory.RemoveFirstRemovesOne | gui.py:624-627 | removing the first match shortens the list by one and drops exactly that entry from its multiset; with no match the list is unchanged |
| GuiHistory.PopFirstMatch | gui.py:785-788 | the loop returns the list without its first match, and that entry |
| GuiHistory.RemoveFirstsBound | gui.py:620-627 | removing one match per selected URL removes at most one entry per URL and only entries of the list |
| GuiHistory.PopSelected | gui.py:620-627 | the loop over the selected rows removes the first match of each URL in turn |
| GuiHistory.Toggled | gui.py:236-237 | the new theme is `light` or `dark`, and `light` exactly when the old one was `dark` |
| GuiHistory.ToggleTwice | gui.py:234-240 | toggling twice restores `light` and `dark` and sends any other value to `light` |
| GuiHistory.ItemOf | gui.py:589-603 | a missing URL becomes `""`, progress 0, type `http` and output path `""`; a present URL, progress, type and output path are kept |
| GuiHistory.MainWindow.constructor | gui.py:798-824 | the theme is unset, no downloads are active, the history file is as found (an empty one is created when it is missing), and the resume list has one row per incomplete entry, as `RefreshResumeList` builds it |
| GuiHistory.MainWindow.SaveDownloadStates | gui.py:123-173 | the history (or a fresh one with the current theme) gets the HTTP downloads and then the YouTube downloads filed by status; the entry count grows by exactly the number of active downloads; without a file and with the theme unset, reading the theme raises and nothing is written |
| GuiHistory.MainWindow.UpdateDownloadHistory | gui.py:748-771 | the first incomplete entry with the URL is removed and, when completed, appended to the completed list; everything else is unchanged |
| GuiHistory.MainWindow.ClearSelectedResume | gui.py:610-636 | with rows selected, each selected URL removes its first incomplete match and the completed list and settings are unchanged |
| GuiHistory.MainWindow.StopResumeDownload | gui.py:773-796 | the first incomplete entry with the URL is removed, and the completed list and settings are unchanged |
| GuiHistory.MainWindow.LoadUserSettings | gui.py:176-187 | the theme is the stored setting, or `light` when the file, the settings or the key is missing |
| GuiHistory.MainWindow.SaveUserSettings | gui.py:189-205 | the settings exist afterwards, hold the current theme, keep their other keys, and the entry lists are unchanged (empty for a new file); while the theme is unset, nothing is written |
| GuiHistory.MainWindow.ToggleTheme | gui.py:234-240 | an unset theme counts as `light`; the theme is toggled and stored in the settings, whose other keys are kept; the entry lists are unchanged, or empty for a new file |
| GuiHistory.MainWindow.RefreshResumeList | gui.py:571-607 | without a file an empty history is created and the list is empty; otherwise the list has one row per incomplete entry, with its defaults |

## Left out

- Threads, the lock, the signal handler and the monitor loops are not modelled. Workers run one after another in the order the source starts them, and a pause is seen only at the points the attempt scripts name.
- The network is not modelled. HEAD replies, GET replies (status, blocks, exceptions, a pause seen before block k) and the stream choice are inputs. So is whether the disk accepts a write of the resume record.
- JSON encoding, `fsync`, the atomic replace with its permission retries, `_check_directory_permissions` and malformed JSON files are left out. The stored records are typed values, and idm.py's malformed recorded values are only the missing fields.
- Speed, ETA and percentage values are left out, because they are floating point. `calculate_stats` and the logging are left out too.
- Time-based saves are left out: every second in idm.py and test_yt.py. In test_yt.py the save points are a parameter set (`saves`). `_safe_save_resume` is not part of this model.
- Stream selection through pytubefix, idm.py's urlparse and the Qt/tkinter widgets are left out. So are the widget removal in the resume list (`takeItem`), `apply_theme` and the button icon.
- IdmPlan.CleanFilename: `isalnum` is treated as ASCII letters and digits only. Python's is Unicode-aware.
- Thread counts are positive (`Pos`), so the ZeroDivisionError on 0 threads is not modelled. Nor is test_yt.py's division by a zero `total_size` in the monitor loop.
- Python's dict order is modelled as ascending part ids. The fresh plan is built in that order, and loaded records are assumed to be too.
- YtEngine.YoutubeDownloader.Download: a thread started while another's write is in progress cannot interleave. The stop flag is checked only between a chunk's blocks.
- Timestamps are an integer parameter. History files lacking the `completed` or `incomplete` key are not modelled.
- gui.py's `hasattr` checks on the history path and the active-download lists are left out. Those fields always exist in the model.
- GuiHistory.MainWindow.constructor:
  - gui.py defines `__init__` twice, and the second definition (line 798) replaces the first (line 56).
  - So only the first definition's settings creation and its `load_user_settings` call never run. Building the resume tab (line 818) still refreshes the resume list, creating a missing history file.
  - `current_theme` does not exist until it is toggled or loaded. The model keeps it as an `Option` that starts as `None`.
  - `load_user_settings` is kept as its own method.
- IdmEngine.HttpDownloader.StartDownload:
  - A size of 0 (unknown or empty) never passes the completion test at idm.py:410. A round with no errors then counts as a failed round.
  - The model follows the code here and proves the consequence: success implies `ReadyToMerge`.
  - The branch that returns nothing after a failed merge is modelled as `false`.
  - The part state at the merge is `Supervise`'s, which runs the corrected progress update of the idm.py:277 finding, not the update as written.
- IdmEngine.HttpDownloader.GetFileSize: a `Content-Length` that is a negative integer is not modelled. `HeaderValue.Number` holds a `nat`.
- IdmEngine.HttpDownloader.StreamBody: runs the corrected progress update of the idm.py:277 finding (the part file length), not the update as written.
- IdmEngine.HttpDownloader.TryAttempt: runs the corrected progress update of the idm.py:277 finding, through `StreamBody`.
- IdmEngine.HttpDownloader.RetryAttempts: runs the corrected progress update of the idm.py:277 finding, through `TryAttempt`.
- IdmEngine.HttpDownloader.DownloadSegment: runs the corrected progress update of the idm.py:277 finding, through `RetryAttempts`.
- IdmEngine.HttpDownloader.RunRound: runs the corrected progress update of the idm.py:277 finding, through `DownloadSegment`.
- IdmEngine.HttpDownloader.RoundTurn: runs the corrected progress update of the idm.py:277 finding, through `RunRound`.
- IdmEngine.HttpDownloader.SuperviseRounds: runs the corrected progress update of the idm.py:277 finding, through `RoundTurn`. Its state is `Supervise`'s. With the update as written, a part that was appended to and then paused records more than its file holds. A later round can then skip it as complete (idm.py:389) and never finish it.
- IdmEngine.HttpDownloader.ResumeDownload: runs the corrected progress update of the idm.py:277 finding, through `StartDownload`.
- IdmEngine.AppendedTwice: is about `Appended`, which carries the corrected progress update of the idm.py:277 finding. `AppendedAsWritten` is the update as written.
- IdmEngine.AttemptsFromAppends: is about `Appended`, which carries the corrected progress update of the idm.py:277 finding. With `AppendedAsWritten`, two appending attempts record more progress than one append of both pieces, by the length of the first piece.
- IdmEngine.WorkerCountsItsBytes: the progress equal to the file length is the corrected update of the idm.py:277 finding. `AsWrittenResumeSkipsBytes` shows what the update as written gives instead.

## Findings

| source | as written | input that shows it | evidently intended | confidence | as-written member | corrected member |
|---|---|---|---|---|---|---|
| idm.py:277 | when bytes are appended to an existing part file, progress is set to the file position at opening plus the position after the write | a part file holding 5 bytes gets 3 more: progress becomes 13, but the file holds 8 bytes, so resuming skips 5 bytes of the resource | progress is the length of the part file, so a resumed range starts right after the bytes already written | not executed | IdmEngine.AsWrittenResumeSkipsBytes | IdmPlan.CorrectedProgressResumesAtFileEnd |
