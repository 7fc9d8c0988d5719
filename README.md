# podcast-helper, modelled in Dafny

This project models the core logic of podcast-helper. That tool downloads a
podcast episode, transcribes it, asks a language model which stretches are
unwanted content (ads, sponsor reads), cuts those stretches out of the audio,
and republishes the feed with the edited audio. It exists in two forms:
command-line scripts at the top of the repository, and a web application in
`podcast-content-optimizer/` (a Python backend and a TypeScript frontend).
The model covers these parts:

- **Durations** (`time_utils.dfy`, `time_format_ts.dfy`). The backend
  `parse_duration` and `format_duration`, and the frontend `formatDuration`.
  It proves the round trips and the ways the three renderings differ.
- **Splicing segments out of audio** (`slices.dfy`, `sorting.dfy`,
  `audio_editor_sweep.dfy`, `audio_editor_cut.dfy`). Audio is a sequence of
  millisecond frames, cut with Python's slice semantics. Both `edit_audio`
  versions are methods that sort the caller's segment array in place. Each is
  proved equal to a specification function. That function is then related to
  `Keep`, the reference meaning "drop every frame some segment covers".
- **The backend processor** (`podcast_processor.dfy`, `job_manager.dfy`,
  `tasks.dfy`). Functions say what each pipeline stage reports to the job
  ledger and saves to the record store. Methods over a `RecordStore` class
  and a `JobLedger` class (a Redis key store with one-hour expiry) are proved
  to do exactly that. Lemmas cover the completed-record short-circuit, the
  skip-if-stored checks, the fallback when editing fails, failure reporting
  and the order of the saved statuses.
- **Feed rewriting** (`feed.dfy`, `rss_modifier.dfy`,
  `rss_modifier_root.dfy`). Parsed feeds are abstract entries and links. The
  model covers the backend's one-hour cache of rewritten feeds, its field
  filters and enclosure choice, and the command-line rewriter.
- **The command-line processor** (`podcast_processor_root.dfy`): the index
  check, the artifact file names, the transcript lines and the shape of the
  result.
- **Episode listing and console paging** (`episodes_console.dfy`,
  `episodes_backend.dfy`).
- **The frontend's file path codec** (`file_path_codec.dfy`). This is
  `encodeURIComponent` and `decodeURIComponent` applied per path segment,
  following section 15.1.3 of ECMA-262 5.1. It covers full UTF-8, and
  decoding an encoded path is proved to return the path for every string.
- **The frontend's stage display** (`processing_status.dfy`).

Everything the code calls but does not define is either a parameter or an
outcome held in a `Collaborators` value. That covers feedparser, downloads,
Whisper, the language model, pydub's export, Firebase, `urljoin` and the
helpers `safe_filename`, `get_episode_folder` and `file_path_to_url`. Clocks
are parameters in whole seconds. The Celery task has three instants: `t0`
for its opening writes, `now` for the processor's writes and `t1` for its
closing writes. The processor's two `datetime.now().isoformat()` readings
(lines 66 and 205 of `backend/podcast_processor.py`) are the two strings of
a `Stamps` value. The processed-podcast store behind
`save_processed_podcast` and `load_processed_podcasts` is not part of this
model. It is modelled as a map keyed by (rss_url, episode_title), where a
save replaces the record under its key.

The backend processor takes `get_podcast_episodes` and its other helpers from
`from utils import (...)` (`backend/podcast_processor.py`:3-8). Next to it
sit both a `utils` package (`backend/utils/`, holding `time_utils.py`) and a
module `backend/utils.py`, so which one the import reaches is not settled by
the sources. The package's own `get_podcast_episodes` is not part of this
model. The module's version (`backend/utils.py`:19-25, modelled as
`BackendEpisodes`) yields episodes without a `podcast_title` or `url` key, so
`episodes[0]['podcast_title']` at `backend/podcast_processor.py`:37 would
raise `KeyError` on its output. `BackendProcessor` therefore takes the episode
list as an outcome (`Collaborators.episodes`) that already carries those
keys, and does not connect it to `BackendEpisodes.GetPodcastEpisodes`. In the
same way, the `edit_audio` call (line 184) is the outcome
`Collaborators.editing`, an optional error message; it is not connected to
`CutEditor.EditAudio`.

The command-line `edit_audio` (`audio_editor.py`:9-12) sorts the segments by
start and says it builds the audio "with unwanted content removed". Its loop
sets `last_end = end` with no clamp, so a segment nested in an earlier one
moves the cursor back and brings cut audio back. `SweepEditor.Sweep` is the
code as written. `SweepEditor.ClampedSweep` keeps the cursor from moving
back, and is proved to remove exactly the covered frames, which is what the
comment at line 12 says the function does (see Findings).

Other behaviours of the code that the model keeps:

- A negative episode index is not rejected; it picks from the end of the
  list, in both processors.
- A job id containing ':' is never listed by `get_current_jobs`
  (`JobManager.ColonIdIsLost`).
- The backend item filter `elem not in ('links')` tests against a string,
  not a tuple. So it is a substring test, and keys such as `link` are
  dropped (`BackendRss.FiltersDiffer`).
- The backend's on-disk check joins `output` to a relative path that already
  starts with `output/`, so it looks under `output/output/…`
  (`BackendRss.EditedEnclosureUrl`).
- A processed enclosure in the backend feed has no `type` attribute.
- The backend `itunes:duration` rewrite never fires: `new_item.find` with a
  prefixed name finds nothing in the freshly built tree. It is therefore not
  modelled.

## Model

| member | source | states |
|---|---|---|
| TimeUtils.Component | podcast-content-optimizer/backend/utils/time_utils.py:16-21 | a colon-separated component converts exactly when it is decimal integer text, to that integer |
| TimeUtils.ParseDuration | podcast-content-optimizer/backend/utils/time_utils.py:3-26 | numeric input comes back unchanged; text of two or three colon-separated parts succeeds exactly when every part is an integer; text of any other part count succeeds exactly when the whole text is an integer, with that value, and otherwise fails with "Invalid duration format: " followed by the text; text of four or more parts always fails that way |
| TimeUtils.ParseThreeParts | podcast-content-optimizer/backend/utils/time_utils.py:15-18 | "h:m:s" with integer parts parses to h*3600 + m*60 + s |
| TimeUtils.ParseTwoParts | podcast-content-optimizer/backend/utils/time_utils.py:19-21 | "m:s" with integer parts parses to m*60 + s |
| TimeUtils.ParseExamples | podcast-content-optimizer/backend/utils/time_utils.py:15-21 | "01:02:03" is 3723 seconds and "02:03" is 123 |
| TimeUtils.FormatDuration | podcast-content-optimizer/backend/utils/time_utils.py:28-46 | the result is an error exactly when the format is not one of the three, with message "Invalid format: " + format |
| TimeUtils.FormatFields | podcast-content-optimizer/backend/utils/time_utils.py:36-40 | for n >= 0, "HH:MM:SS" shows padded h, m, s with m, s < 60 and h*3600 + m*60 + s = n |
| TimeUtils.FormatParseRoundTrip | podcast-content-optimizer/backend/utils/time_utils.py:15-18 | parsing the "HH:MM:SS" rendering of any n >= 0 gives back n |
| TimeUtils.ShortFormatDropsHours | podcast-content-optimizer/backend/utils/time_utils.py:36-42 | "MM:SS" parses back to n mod 3600, which is n exactly when n < 3600 |
| TimeUtils.SecondsFormatIsRemainder | podcast-content-optimizer/backend/utils/time_utils.py:36-44 | "SS" renders n mod 60, because `divmod` rebinds `seconds` |
| TimeUtils.SecondsFormatExample | podcast-content-optimizer/backend/utils/time_utils.py:43-44 | 75 seconds render as "15" under "SS" |
| TimeUtils.FormatDurationIntended | podcast-content-optimizer/backend/utils/time_utils.py:28-46 | the corrected rendering agrees on the other formats, and its "SS" output parses back to the input |
| TimeUtils.ColonIsNotInt | podcast-content-optimizer/backend/utils/time_utils.py:15 | text containing ':' is never an integer, so a split part never holds one |
| FrontendTime.JsRem | podcast-content-optimizer/frontend/src/utils/timeUtils.ts:3-4 | JavaScript's `%` agrees with the mathematical remainder for a non-negative dividend, and otherwise lies in (-b, 0] |
| FrontendTime.FieldsInRange | podcast-content-optimizer/frontend/src/utils/timeUtils.ts:1-8 | the default format shows floor(s/3600), floor((s%3600)/60) and s%60, padded; minutes and seconds are below 60 and add back to s |
| FrontendTime.MinutesFoldHours | podcast-content-optimizer/frontend/src/utils/timeUtils.ts:9-10 | "MM:SS" shows floor(s/60) minutes and parses back to s, losing nothing |
| FrontendTime.SecondsFormatIsWhole | podcast-content-optimizer/frontend/src/utils/timeUtils.ts:11-12 | "SS" is the whole input as a string, and parses back to it |
| FrontendTime.AgreesWithBackend | podcast-content-optimizer/frontend/src/utils/timeUtils.ts:2-8 | for n >= 0 the frontend's "HH:MM:SS" equals the backend's |
| FrontendTime.DisagreesBelowZero | podcast-content-optimizer/frontend/src/utils/timeUtils.ts:2-8 | at -1 the backend shows "-1:59:59" and the frontend "-1:-1:-1" |
| FrontendTime.FormatDuration | podcast-content-optimizer/frontend/src/utils/timeUtils.ts:1-14 | for seconds >= 0, every format's text is read back by the backend's `parse_duration` as that number of seconds |
| Strings.IntToStringParses | podcast-content-optimizer/backend/utils/time_utils.py:16-18 | the decimal rendering of any integer parses back to it |
| Strings.Pad2Parses | podcast-content-optimizer/backend/utils/time_utils.py:39-40 | a two-digit padded field is all digits and parses back to its value |
| Strings.Pad2 | podcast-content-optimizer/frontend/src/utils/timeUtils.ts:7-12 | padding adds one '0' to a single digit and leaves every other integer's text alone |
| Strings.SplitLength | podcast-content-optimizer/frontend/src/utils.ts:2 | `split` yields one more piece than there are separators |
| Strings.JoinSplit | podcast-content-optimizer/frontend/src/utils.ts:2 | joining the pieces of a split restores the string |
| Strings.SplitJoin | podcast-content-optimizer/frontend/src/utils.ts:6 | splitting a join of separator-free pieces gives the pieces back |
| Strings.ReplaceChar | podcast_processor.py:30 | `replace(' ', '_')` keeps the length and swaps exactly the spaces |
| Strings.Basename | podcast_processor.py:85 | a basename contains no '/' |
| Strings.BasenameNoSlash | podcast_processor.py:85 | the basename of a name without '/' is the name itself |
| Slices.Bound | audio_editor.py:24 | a slice bound is clamped into [0, n] and an in-range bound is unchanged |
| Slices.PyIndex | podcast_processor.py:21 | a Python index in [-n, n) selects position i, or n + i when negative |
| Slices.SliceInBounds | audio_editor.py:24 | an in-range slice is the ordinary subsequence |
| Slices.SliceBackwards | audio_editor.py:24 | a slice whose start is past its end is empty |
| Slices.KeepTake | audio_editor.py:19-32 | uncovered frames are kept in order |
| Slices.KeepSkip | audio_editor.py:19-32 | covered frames are dropped |
| Sorting.Insert | audio_editor.py:10 | inserting keeps every element and adds exactly one |
| Sorting.SortByKey | audio_editor.py:10 | the sorted list is a permutation of its input |
| Sorting.SortByKeySorted | audio_editor.py:10 | the result is ordered by key |
| Sorting.SortByKeyOfSorted | audio_editor.py:10 | a list already in key order is unchanged, so the sort is stable on it |
| Sorting.WithKey | audio_editor.py:10 | the elements of a list whose key is k, in their order: each kept element has key k, and there are no more of them than the list holds |
| Sorting.InsertWithKey | audio_editor.py:10 | inserting one element changes the elements of key k only by putting that element in front, when its key is k |
| Sorting.SortByKeyStable | audio_editor.py:10 | the sort is stable: the elements of each key come out in their input order |
| Sorting.SortInPlace | podcast-content-optimizer/backend/audio_editor.py:16 | the array is overwritten with its stable key order |
| SweepEditor.MsRanges | audio_editor.py:20-21 | each segment's seconds become a millisecond range, times 1000, one per segment |
| SweepEditor.EditAudio | audio_editor.py:5-40 | the caller's segment array is sorted in place by start, and the output is the cursor sweep over it from 0 |
| SweepEditor.ProcessSegments | audio_editor.py:17-32 | the loop over the sorted segments, with `last_end` moving to each end, computes the sweep |
| SweepEditor.SweepNothing | audio_editor.py:13-32 | with no segments the whole audio is returned |
| SweepEditor.SweepLength | audio_editor.py:19-32 | for in-bounds, disjoint segments the output length is the audio length minus the spans |
| SweepEditor.SweepKeepsWhenDisjoint | audio_editor.py:19-32 | for in-bounds, disjoint segments the sweep removes exactly the covered frames |
| SweepEditor.SweepIsClampedWhenDisjoint | audio_editor.py:24-27 | without nesting, the missing clamp makes no difference |
| SweepEditor.NestedSegmentReappears | audio_editor.py:24-27 | with a segment nested in an earlier one, cut audio comes back, whereas the clamped sweep removes it |
| SweepEditor.ClampedSweepKeeps | audio_editor.py:19-32 | the clamped sweep removes exactly the covered frames for any sorted, in-bounds segments, overlapping or nested |
| SweepEditor.ClampedSweepFrom | audio_editor.py:19-32 | from any cursor past the earlier segments, the clamped sweep keeps exactly the uncovered frames from there on |
| CutEditor.TimeToMs | podcast-content-optimizer/backend/audio_editor.py:31-33 | a time without exactly two colons raises |
| CutEditor.TimeToMsValue | podcast-content-optimizer/backend/audio_editor.py:31-33 | "h:m:s" is (h*3600 + m*60 + s)*1000, which is 1000 times the seconds `parse_duration` gives |
| CutEditor.MsRanges | podcast-content-optimizer/backend/audio_editor.py:20-21 | one millisecond range per segment, in order |
| CutEditor.EditAudio | podcast-content-optimizer/backend/audio_editor.py:4-29 | no segments returns the audio; a bad start time raises before anything is sorted; otherwise the array is sorted in place by start, a bad end raises, and the result is the last-first cuts |
| CutEditor.CutReversed | podcast-content-optimizer/backend/audio_editor.py:19-22 | the reversed loop computes the last-first cuts |
| CutEditor.SortedKeepsParsing | podcast-content-optimizer/backend/audio_editor.py:16 | sorting neither creates nor removes a time that fails to parse |
| CutEditor.CutSegmentsMeaning | podcast-content-optimizer/backend/audio_editor.py:19-22 | the loop fails exactly when some end time fails to parse, and otherwise applies every cut last-first |
| CutEditor.CutNothing | podcast-content-optimizer/backend/audio_editor.py:7-10 | no cuts leave the audio unchanged |
| CutEditor.BackwardsCutDuplicates | podcast-content-optimizer/backend/audio_editor.py:22 | a segment with end < start duplicates [end, start) and grows the audio by start - end |
| CutEditor.CutAllKeeps | podcast-content-optimizer/backend/audio_editor.py:16-22 | for sorted, disjoint, in-bounds segments the last-first cuts remove exactly the covered frames |
| CutEditor.KeepBelow | podcast-content-optimizer/backend/audio_editor.py:19-22 | cutting below a point leaves the audio after it untouched |
| CutEditor.KeepLast | podcast-content-optimizer/backend/audio_editor.py:19-22 | removing the covered frames equals removing the earlier ranges from the prefix and then appending what follows the last range |
| CutEditor.CutAllIsSweep | podcast-content-optimizer/backend/audio_editor.py:16-22 | on disjoint, in-bounds segments the two editors agree |
| CutEditor.CutAllLength | podcast-content-optimizer/backend/audio_editor.py:16-22 | the output is shorter than the input by the total span |
| JobManager.StatusOf | podcast-content-optimizer/backend/job_manager.py:17-19 | a status read returns the stored value, and only while its key is live |
| JobManager.LogsOf | podcast-content-optimizer/backend/job_manager.py:26-29 | a non-empty log read comes from a live key |
| JobManager.JobLedger.constructor | podcast-content-optimizer/backend/job_manager.py:1-5 | the store starts empty |
| JobManager.JobLedger.UpdateJobStatus | podcast-content-optimizer/backend/job_manager.py:7-15 | the whole status record under `job_status:{id}` is overwritten with a 3600 s expiry; logs are untouched |
| JobManager.JobLedger.AppendJobLog | podcast-content-optimizer/backend/job_manager.py:21-24 | the entry goes at the tail of the live log and the expiry is reset to 3600 s; statuses are untouched |
| JobManager.JobLedger.GetCurrentJobs | podcast-content-optimizer/backend/job_manager.py:31-38 | the scan visits only the live `job_status:*` keys, since expired ones are gone from Redis; the result holds exactly the entries read back by `split(':')[1]` from those keys whose status is 'queued' or 'in_progress', one per such key |
| JobManager.JobLedger.ReadBack | podcast-content-optimizer/backend/job_manager.py:34-37 | one scanned key yields an entry exactly when its `split(':')[1]` id reads back a live 'queued' or 'in_progress' status, and the entry is that id with that status |
| JobManager.JobLedger.DeleteJob | podcast-content-optimizer/backend/job_manager.py:40-42 | both keys of the job are removed and nothing else |
| JobManager.JobLedger.GetJobStatus | podcast-content-optimizer/backend/job_manager.py:17-19 | a status is returned exactly when one was written under `job_status:{id}` and has not expired, and it is the one written |
| JobManager.JobLedger.GetJobLogs | podcast-content-optimizer/backend/job_manager.py:26-29 | the whole list stored under `job_log:{id}` while it is live, and `[]` when the key is missing or has expired |
| JobManager.KeysDistinct | podcast-content-optimizer/backend/job_manager.py:15-22 | different jobs have different keys |
| JobManager.StatusAfterWrite | podcast-content-optimizer/backend/job_manager.py:7-19 | after a write, reading the job gives the record until it expires; other jobs read as before |
| JobManager.LogAfterAppend | podcast-content-optimizer/backend/job_manager.py:21-29 | after an append, the log is the old log plus the entry until it expires; other jobs' logs are unchanged |
| JobManager.LogsInAppendOrder | podcast-content-optimizer/backend/job_manager.py:21-29 | appending entries to a fresh log reads them back in append order |
| JobManager.DeleteForgets | podcast-content-optimizer/backend/job_manager.py:40-42 | after deletion the status is None and the logs are []; other jobs are unchanged |
| JobManager.ScanIdOfKey | podcast-content-optimizer/backend/job_manager.py:34 | the scanned id is the text up to the first ':', which is the id itself when it holds no ':' |
| JobManager.CurrentJobsExact | podcast-content-optimizer/backend/job_manager.py:31-38 | with ':'-free ids, a job is listed exactly when its live status is 'queued' or 'in_progress' |
| JobManager.ExpiredKeyNotScanned | podcast-content-optimizer/backend/job_manager.py:33-37 | an expired key adds no entry: with `job_status:a` live and queued and `job_status:a:b` expired, only the first key qualifies |
| JobManager.ColonIdIsLost | podcast-content-optimizer/backend/job_manager.py:34 | an instance of `ScanIdOfKey`, kept as an illustration: a queued job with id "a:b" is not listed |
| BackendProcessor.PathJoin | podcast-content-optimizer/backend/podcast_processor.py:41-49 | `os.path.join` with an absolute second part returns that part |
| BackendProcessor.ApplySavesAppend | podcast-content-optimizer/backend/podcast_processor.py:60-215 | saves compose: applying a + b is applying a, then b |
| BackendProcessor.Posted | podcast-content-optimizer/backend/job_manager.py:7-15 | one ledger write per report |
| BackendProcessor.PostedAppend | podcast-content-optimizer/backend/podcast_processor.py:25-248 | the writes of a + b are those of a followed by those of b |
| BackendProcessor.ApplyReportsAppend | podcast-content-optimizer/backend/podcast_processor.py:25-248 | status updates compose: a + b is a, then b |
| BackendProcessor.ApplyReportsLast | podcast-content-optimizer/backend/job_manager.py:7-15 | after several reports the stored status is the last one, stamped now with a fresh expiry |
| BackendProcessor.ReportsCompose | podcast-content-optimizer/backend/podcast_processor.py:25-248 | both the status map and the write history compose over concatenated reports |
| BackendProcessor.RecordStore.constructor | podcast-content-optimizer/backend/podcast_processor.py:52 | the store starts with the given records |
| BackendProcessor.RecordStore.Save | podcast-content-optimizer/backend/podcast_processor.py:68 | a save replaces the record under its (rss_url, episode_title) key |
| BackendProcessor.Post | podcast-content-optimizer/backend/podcast_processor.py:26 | one `update_job_status` call writes exactly that report |
| BackendProcessor.ProcessPodcastEpisode | podcast-content-optimizer/backend/podcast_processor.py:21-248 | the returned result, the final record store and the job-status writes are exactly those the run specification gives |
| BackendProcessor.Process | podcast-content-optimizer/backend/podcast_processor.py:21-248 | the first report is "Fetching episodes" at 10; a failed run ends with the 'failed'/ERROR/0 report carrying "Error: " and the message; a successful run had an index inside the episode list |
| BackendProcessor.Pipeline | podcast-content-optimizer/backend/podcast_processor.py:24-68 | the body of the `try` reports "Fetching episodes" first, and succeeds only for an index inside the episode list |
| BackendProcessor.RunPipeline | podcast-content-optimizer/backend/podcast_processor.py:25-242 | the body of the `try` does what `Pipeline` specifies: fetch, index check, choice, names, short-circuit, then the stages |
| BackendProcessor.DownloadStage | podcast-content-optimizer/backend/podcast_processor.py:70-87 | the download stage, skipped when the input is stored, does what `Download` specifies |
| BackendProcessor.TranscribeStage | podcast-content-optimizer/backend/podcast_processor.py:89-143 | the transcription stage, skipped when the transcript is stored, does what `Transcribe` specifies |
| BackendProcessor.DetectStage | podcast-content-optimizer/backend/podcast_processor.py:145-173 | content detection does what `Detect` specifies |
| BackendProcessor.EditStage | podcast-content-optimizer/backend/podcast_processor.py:175-197 | editing, with its fallback, does what `Edit` specifies |
| BackendProcessor.FinishStage | podcast-content-optimizer/backend/podcast_processor.py:199-242 | the result, the final save and the completion and cleanup reports are those `Finish` specifies |
| BackendProcessor.IndexPastEnd | podcast-content-optimizer/backend/podcast_processor.py:33-34 | an index past the end raises "Episode index out of range" after the two fetch reports, and saves nothing |
| BackendProcessor.NegativeIndexFromEnd | podcast-content-optimizer/backend/podcast_processor.py:33-37 | a negative index is accepted and runs exactly as the matching index from the end |
| BackendProcessor.CompletedShortCircuit | podcast-content-optimizer/backend/podcast_processor.py:52-57 | a completed record is returned unchanged with no save, and no collaborator after the fetch matters |
| BackendProcessor.StoredInputSkipsDownload | podcast-content-optimizer/backend/podcast_processor.py:72-84 | with the input already stored, the download outcome has no effect on the run |
| BackendProcessor.StoredTranscriptSkipsWhisper | podcast-content-optimizer/backend/podcast_processor.py:91-143 | with the transcript already stored, neither the Whisper load nor the transcription affects the run |
| BackendProcessor.DetectSame | podcast-content-optimizer/backend/podcast_processor.py:145-197 | detection onwards depends only on the detection, editing and upload outcomes |
| BackendProcessor.TranscribeSame | podcast-content-optimizer/backend/podcast_processor.py:89-197 | transcription onwards depends only on its own outcomes and the later ones |
| BackendProcessor.EditingNeverFailsRun | podcast-content-optimizer/backend/podcast_processor.py:179-197 | whether the run succeeds does not depend on whether editing raises |
| BackendProcessor.DownloadEditingIrrelevant | podcast-content-optimizer/backend/podcast_processor.py:70-197 | from the download stage on, success does not depend on editing |
| BackendProcessor.TranscribeEditingIrrelevant | podcast-content-optimizer/backend/podcast_processor.py:89-197 | from transcription on, success does not depend on editing |
| BackendProcessor.DetectEditingIrrelevant | podcast-content-optimizer/backend/podcast_processor.py:145-197 | from detection on, success does not depend on editing |
| BackendProcessor.EditFallsBack | podcast-content-optimizer/backend/podcast_processor.py:179-197 | with nothing to cut, or an editing or upload failure, the run succeeds with `edited_url` equal to the input file |
| BackendProcessor.AscendingThen | podcast-content-optimizer/backend/podcast_processor.py:60-215 | ascending saves followed by ascending saves starting no lower stay ascending |
| BackendProcessor.AscendingWeaker | podcast-content-optimizer/backend/podcast_processor.py:60-215 | ascending from a rank implies ascending from any lower rank |
| BackendProcessor.FinishAscends | podcast-content-optimizer/backend/podcast_processor.py:214-215 | the final save does not move the status back |
| BackendProcessor.EditAscends | podcast-content-optimizer/backend/podcast_processor.py:175-215 | from editing on, saved statuses never move back |
| BackendProcessor.DetectAscends | podcast-content-optimizer/backend/podcast_processor.py:145-215 | from detection on, saved statuses never move back |
| BackendProcessor.TranscribeAscends | podcast-content-optimizer/backend/podcast_processor.py:89-215 | from transcription on, saved statuses never move back |
| BackendProcessor.DownloadAscends | podcast-content-optimizer/backend/podcast_processor.py:70-215 | from the download stage on, saved statuses never move back |
| BackendProcessor.StatusesAdvance | podcast-content-optimizer/backend/podcast_processor.py:60-215 | starting from no record or a processing/downloaded one, the saved statuses follow processing, downloaded, transcribed, content_detected, edited, completed and never move back |
| BackendProcessor.ThenCompletesWell | podcast-content-optimizer/backend/podcast_processor.py:199-242 | earlier reports and saves do not change how a successful run ends |
| BackendProcessor.EditCompletesWell | podcast-content-optimizer/backend/podcast_processor.py:175-242 | from editing on, success ends with the 'completed' save, `edited_url` equal to `output_file`, and the reports completed/100, then CLEANUP 95 and 98 |
| BackendProcessor.FinishCompletesWell | podcast-content-optimizer/backend/podcast_processor.py:199-242 | the finish stage ends that way |
| BackendProcessor.DetectCompletesWell | podcast-content-optimizer/backend/podcast_processor.py:145-242 | from detection on, success ends that way and detection was reported complete |
| BackendProcessor.TranscribeCompletesWell | podcast-content-optimizer/backend/podcast_processor.py:89-242 | from transcription on, likewise |
| BackendProcessor.DownloadCompletesWell | podcast-content-optimizer/backend/podcast_processor.py:70-242 | from the download stage on, likewise |
| BackendProcessor.CompletedRun | podcast-content-optimizer/backend/podcast_processor.py:199-242 | a run that is not short-circuited and succeeds saves 'completed' with `edited_url` = `output_file`, returns that record, ran detection, and reports 'completed'/100 followed by 'in_progress' CLEANUP 95 and 98 |
| Tasks.ProcessPodcastTask | podcast-content-optimizer/backend/api/tasks.py:8-25 | the wrapper returns the processor's record or {"error": msg}; its status writes are INITIALIZATION at the start time, the processor's reports, then COMPLETION or FAILED at the end time; the job's log is rewritten at the end time as the log read at the start plus the start entry (or, when the start entry has expired by then, nothing) followed by the closing entry, with a fresh 3600 s expiry |
| Tasks.Begin | podcast-content-optimizer/backend/api/tasks.py:11-12 | 'in_progress'/INITIALIZATION/0 is written and an INITIALIZATION log entry appended |
| Tasks.Close | podcast-content-optimizer/backend/api/tasks.py:16-24 | the closing status and log entry are written for success or failure at the end time, completing the task's statuses, writes and log |
| Tasks.FinalStatus | podcast-content-optimizer/backend/api/tasks.py:16-24 | read at the end time, the job's final status is 'completed'/COMPLETION/100 exactly when the processor succeeded, and otherwise 'failed'/FAILED/0 with "Error: " and the message |
| Tasks.TaskLogs | podcast-content-optimizer/backend/api/tasks.py:11-24 | the job's log read before it expires is the old log plus the start and closing entries, or the closing entry alone when the start entry had expired before the close; read later it is empty |
| Tasks.OneInstant | podcast-content-optimizer/backend/api/tasks.py:8-25 | when start, run and close happen at one instant, the task's statuses and writes are those of INITIALIZATION, the processor's reports and the closing report, in that order |
| Tasks.Output | podcast-content-optimizer/backend/api/tasks.py:19-25 | a failure is returned as {"error": msg} and nothing else instead of raising, and a success returns the record |
| Tasks.CleanupOverwritten | podcast-content-optimizer/backend/api/tasks.py:16 | the processor's last report is CLEANUP 98 'in_progress', and the wrapper overwrites it with 'completed'/100 |
| Feed.Get | podcast-content-optimizer/backend/utils.py:22-23 | `entry.get(key)` finds a value exactly when the key is present, and the value is stored under it |
| Feed.Attribute | rss_modifier.py:13-23 | attribute access succeeds exactly when the field is present, with its value |
| Feed.FirstOfType | utils.py:12-19 | the link found has the wanted type, and none is found exactly when no link has it |
| Feed.FirstOfTypeIsFirst | utils.py:12-19 | the link found is the first of that type |
| BackendEpisodes.GetPodcastEpisodes | podcast-content-optimizer/backend/utils.py:5-32 | a malformed feed raises the prefixed "Invalid RSS feed" message; otherwise there is one episode per entry, in order, numbered from 1, with 'Untitled' and 'Unknown date' only for missing fields |
| BackendEpisodes.NumbersIdentifyEntries | podcast-content-optimizer/backend/utils.py:19-25 | numbers strictly increase, and episode k comes from the k-th entry |
| BackendEpisodes.DefaultsOnlyWhenMissing | podcast-content-optimizer/backend/utils.py:22-23 | a title or date the entry has is kept; 'Untitled' appears only for a missing title or one that is literally 'Untitled' |
| ConsoleUtils.FindAudio | utils.py:12-19 | the link loop stops at the first 'audio/mpeg' link |
| ConsoleUtils.GetPodcastEpisodes | utils.py:8-20 | the loop builds the listing specification, failing where an entry with audio lacks a title or date |
| ConsoleUtils.Episodes | utils.py:8-20 | a listing has one episode per entry with an audio/mpeg link, so never more episodes than entries |
| ConsoleUtils.ListingErrorPersists | utils.py:11-19 | a failure on a prefix of the entries is the failure of the whole listing |
| ConsoleUtils.EpisodesFromEntries | utils.py:11-19 | at most one episode per entry, one per entry with an audio link, each carrying that entry's title, date and first audio link |
| ConsoleUtils.EpisodesConcat | utils.py:11-19 | listing a + b is listing a followed by listing b, so order is preserved |
| ConsoleUtils.Strip | utils.py:59 | stripping never lengthens and leaves no blank at either end |
| ConsoleUtils.Lower | utils.py:59 | lowercasing maps exactly the ASCII capitals |
| ConsoleUtils.ChooseEpisode | utils.py:38-75 | the paging loop produces the choice and the pages shown that the session specification gives |
| ConsoleUtils.PageWindow | utils.py:44-45 | a page shows at most ten episodes, starting at page*10 and ending at or before the total |
| ConsoleUtils.StepOf | utils.py:59-75 | one answer: the session stops exactly on "q", and a pick is a typed number n within the list, giving index n - 1 |
| ConsoleUtils.StepKeepsPageValid | utils.py:64-67 | only 'p' and 'n' turn the page, and the new page is still a valid one |
| ConsoleUtils.PagesStayValid | utils.py:43-75 | every page shown in a session is valid |
| ConsoleUtils.PickIsTypedNumber | utils.py:68-75 | a pick is a typed number n with 1 <= n <= total, selecting index n-1; any other unrecognised input re-prompts |
| ConsoleUtils.SessionOutcome | utils.py:38-75 | a selected episode is one of the listed episodes, and every page shown is valid |
| ConsoleUtils.SelectedListed | utils.py:38-75 | from any page, a selected episode is one of the listed episodes |
| ConsoleUtils.QuitIgnoresCaseAndBlanks | utils.py:59-63 | " Q\n" quits |
| BackendRss.FilterFields | podcast-content-optimizer/backend/rss_modifier.py:54-56 | the copied fields are exactly those whose key the filter keeps, in order |
| BackendRss.FiltersDiffer | podcast-content-optimizer/backend/rss_modifier.py:54-74 | the item filter drops 'link', 'ink', 's' and '' (substrings of "links") but keeps 'items'; the channel filter drops only 'items' and 'links' |
| BackendRss.LongerIsNotInside | podcast-content-optimizer/backend/rss_modifier.py:73 | a key longer than "links" always passes the item filter |
| BackendRss.FirstMatch | podcast-content-optimizer/backend/rss_modifier.py:80 | a match found is a processed record with the feed's rss_url and the item's title |
| BackendRss.FirstMatchIsFirst | podcast-content-optimizer/backend/rss_modifier.py:80 | the match is the first such record, and no match means no record matches |
| BackendRss.CreateModifiedRssFeed | podcast-content-optimizer/backend/rss_modifier.py:43-100 | the loops build the rewritten channel that the feed specification gives |
| BackendRss.ModifiedFeed | podcast-content-optimizer/backend/rss_modifier.py:43-100 | a built channel has one item per feed entry, each built from its entry |
| BackendRss.CopyFields | podcast-content-optimizer/backend/rss_modifier.py:72-74 | the copy loop copies the filtered fields |
| BackendRss.BuildItem | podcast-content-optimizer/backend/rss_modifier.py:70-97 | one pass of the item loop builds the specified item |
| BackendRss.ItemsErrorPersists | podcast-content-optimizer/backend/rss_modifier.py:70-97 | a failing item fails the whole feed |
| BackendRss.EnclosuresErrorPersists | podcast-content-optimizer/backend/rss_modifier.py:77-97 | a failing enclosure fails the whole item |
| BackendRss.ItemsFollowEntries | podcast-content-optimizer/backend/rss_modifier.py:70-97 | one item per entry, in order, with the filtered fields and one enclosure per enclosure link |
| BackendRss.EnclosureCount | podcast-content-optimizer/backend/rss_modifier.py:77-79 | each `rel == 'enclosure'` link yields exactly one enclosure |
| BackendRss.UnmatchedCopiesLinks | podcast-content-optimizer/backend/rss_modifier.py:94-97 | without a processed record, each enclosure copies an enclosure link's href, type and length |
| BackendRss.MatchedPointsAtEdit | podcast-content-optimizer/backend/rss_modifier.py:82-85 | with a processed record, each enclosure points at `urljoin(url_root, relative_path)` and has no type |
| BackendRss.EditedEnclosureUrl | podcast-content-optimizer/backend/rss_modifier.py:82-90 | the URL joins "output/{podcast}/{episode}/{basename(edited_url)}"; the length is "1000000" exactly when "output/" + that path exists |
| BackendRss.PlaceholderSize | podcast-content-optimizer/backend/rss_modifier.py:23-26 | `get_audio_info` reports size 1000000 for every path |
| BackendRss.RssCache.constructor | podcast-content-optimizer/backend/rss_modifier.py:20-21 | the cache starts empty |
| BackendRss.RssCache.GetOrCreateModifiedRss | podcast-content-optimizer/backend/rss_modifier.py:103-120 | a fresh entry is returned with the cache unchanged, whatever the records and root; otherwise the feed is rebuilt and, when the rebuild succeeds, stored with the timestamp of the second clock reading, taken after the rebuild (line 117), while freshness is judged by the first (line 107) |
| BackendRss.RssCache.InvalidateRssCache | podcast-content-optimizer/backend/rss_modifier.py:122-126 | only that feed's key is removed |
| BackendRss.CacheKeysDistinct | podcast-content-optimizer/backend/rss_modifier.py:104 | different feed URLs have different cache keys |
| BackendRss.StoredIsFresh | podcast-content-optimizer/backend/rss_modifier.py:107-118 | a stored feed is served for exactly 3600 s from the timestamp it was stored with; other feeds are unaffected |
| BackendRss.InvalidateForcesRebuild | podcast-content-optimizer/backend/rss_modifier.py:122-126 | after invalidation the next call rebuilds; other feeds are unaffected; an absent key changes nothing |
| RootRss.RootFeed | rss_modifier.py:4-36 | a channel is built exactly when the channel fields and every entry's item can be built, and it has one item per entry, each the item of that entry |
| RootRss.CreateModifiedRssFeed | rss_modifier.py:4-36 | the loops build the channel `RootFeed` specifies |
| RootRss.BuildItem | rss_modifier.py:18-33 | the item's fields, then the link loop stopping at the first MP3 link, build the specified item |
| RootRss.FirstOfTypeAt | rss_modifier.py:26-33 | an MP3 link with none before it is the one the loop stops at |
| RootRss.RootItemsErrorPersists | rss_modifier.py:18-23 | an entry missing a field fails the whole feed |
| RootRss.ItemsFollowEntries | rss_modifier.py:18-23 | one item per entry, in order; the feed fails exactly when some entry fails |
| RootRss.ItemFields | rss_modifier.py:19-23 | an entry becomes an item exactly when it has a title, link, description and date, copied in that order, the date as pubDate |
| RootRss.OneEnclosure | rss_modifier.py:26-33 | at most one enclosure, present exactly when the entry has an MP3 link, typed 'audio/mpeg' |
| RootRss.EnclosureIsProcessedUrl | rss_modifier.py:30 | for a title without '/', the enclosure URL equals the `edited_url` the command-line processor returns |
| RootRss.ChannelShape | rss_modifier.py:13-15 | the channel has exactly the title, link and description, and fails when one is missing |
| RootProcessor.Lines | podcast_processor.py:57-59 | one line per segment, "start - end: text" |
| RootProcessor.ProcessPodcastEpisode | podcast_processor.py:10-90 | the run returns or raises what `Outcome` gives, and writes the transcript exactly when transcription produced segments |
| RootProcessor.WriteTranscript | podcast_processor.py:57-59 | the write loop produces the transcript text |
| RootProcessor.TranscriptAppend | podcast_processor.py:57-59 | each segment adds its line and a newline at the end |
| RootProcessor.IndexPastEnd | podcast_processor.py:18-19 | an index at or past the end raises before anything is written |
| RootProcessor.NegativeIndexFromEnd | podcast_processor.py:18-21 | a negative index is not rejected and selects from the end |
| RootProcessor.TranscriptionFailed | podcast_processor.py:50-52 | a missing result or one without segments raises "Transcription failed" and writes no transcript |
| RootProcessor.OneLinePerSegment | podcast_processor.py:57-59 | with newline-free fields, the transcript splits into exactly the segment lines in order and has one newline per segment |
| RootProcessor.Outcome | podcast_processor.py:10-90 | a successful run picked an episode that was transcribed, and returns exactly the three keys, with `edited_url` "/output/" + basename of the output file and the transcript and unwanted-content paths |
| RootProcessor.EditedUrlOfPlainTitle | podcast_processor.py:79-85 | for a title without '/', `edited_url` is "/output/" + title with underscores + "_edited.mp3" |
| RootProcessor.PathsDistinct | podcast_processor.py:30-79 | the four artifact paths of one episode differ |
| PathCodec.EncodeIdentity | podcast-content-optimizer/frontend/src/utils.ts:2 | a segment is left unchanged exactly when all its characters are unreserved |
| PathCodec.EncodedIsWellEncoded | podcast-content-optimizer/frontend/src/utils.ts:2 | an encoded segment holds only unreserved characters and %XX triples |
| PathCodec.WellEncodedNoSlash | podcast-content-optimizer/frontend/src/utils.ts:2 | such a segment contains no '/' |
| PathCodec.EncodeFilePath | podcast-content-optimizer/frontend/src/utils.ts:1-3 | encoding keeps the number of '/', and the pieces of the result are the encoded pieces of the path, empty ones included |
| PathCodec.EncodedSegmentsWellEncoded | podcast-content-optimizer/frontend/src/utils.ts:1-3 | every segment of an encoded path is unreserved characters and %XX triples |
| PathCodec.DecodeEscapeOfChar | podcast-content-optimizer/frontend/src/utils.ts:6 | the escapes of one character's UTF-8 bytes decode back to that character |
| PathCodec.ComponentRoundTrip | podcast-content-optimizer/frontend/src/utils.ts:1-7 | decoding an encoded segment returns it, for every string |
| PathCodec.DecodeAllEncodeAll | podcast-content-optimizer/frontend/src/utils.ts:1-7 | decoding the encoded segments returns them all |
| PathCodec.PathRoundTrip | podcast-content-optimizer/frontend/src/utils.ts:1-7 | `decodeFilePath(encodeFilePath(p)) == p` for every string |
| PathCodec.BadEscapeRaises | podcast-content-optimizer/frontend/src/utils.ts:5-7 | a '%' not followed by two hex digits makes `decodeFilePath` raise |
| PathCodec.BadEscapeInSegment | podcast-content-optimizer/frontend/src/utils.ts:6 | such a '%' makes `decodeURIComponent` raise |
| PathCodec.DecodeAll | podcast-content-optimizer/frontend/src/utils.ts:6 | the pieces decode exactly when each one does, giving one decoded piece per piece, in order |
| PathCodec.DecodeFilePath | podcast-content-optimizer/frontend/src/utils.ts:5-7 | decoding succeeds exactly when every '/'-separated piece is a valid `decodeURIComponent` input |
| StageStatus.IndexOf | podcast-content-optimizer/frontend/src/components/ProcessingStatus.tsx:34-35 | `indexOf` is -1 exactly for an absent stage, and otherwise the first position holding it |
| StageStatus.Shown | podcast-content-optimizer/frontend/src/components/ProcessingStatus.tsx:55-65 | one status per stage, in stage order |
| StageStatus.IndexOfStage | podcast-content-optimizer/frontend/src/components/ProcessingStatus.tsx:3-12 | the stage names are distinct, so each stage's index is its position |
| StageStatus.UnknownStageAllPending | podcast-content-optimizer/frontend/src/components/ProcessingStatus.tsx:33-39 | a current stage outside the list (CLEANUP, ERROR, FAILED) shows every stage pending |
| StageStatus.Classification | podcast-content-optimizer/frontend/src/components/ProcessingStatus.tsx:41-47 | earlier stages are completed, the current one in progress, later ones pending |
| StageStatus.KnownStageShape | podcast-content-optimizer/frontend/src/components/ProcessingStatus.tsx:3-47 | with a known current stage exactly one stage is in progress, and the completed ones are the first k, k being its index |
| StageStatus.UnknownStageIsPending | podcast-content-optimizer/frontend/src/components/ProcessingStatus.tsx:37-39 | a stage outside the list is always pending |
| StageStatus.GetStageStatus | podcast-content-optimizer/frontend/src/components/ProcessingStatus.tsx:33-48 | a stage is in progress exactly when it is a listed stage and the current one, and completed exactly when it is listed before the current stage |

Some helpers carry small contracts that the proofs above use and have no row
of their own. `PathCodec.EncodeURIComponent` and `PathCodec.DecodeEscape`
model the JavaScript library calls, and are characterised by
`PathCodec.ComponentRoundTrip`, `PathCodec.EncodedIsWellEncoded` and
`PathCodec.BadEscapeInSegment`. `Strings.ParseInt` is Python's `int()` on
text, characterised by `Strings.IntToStringParses` and
`TimeUtils.ColonIsNotInt`. `JobManager.ScanPreserves` is the loop step of
`JobManager.JobLedger.GetCurrentJobs`.

## Left out

- Floating point. Durations and segment times are whole seconds. Fractional input to `parse_duration` and `time_to_ms`, `float()` of free text and the transcript's `:.2f` formatting are not modelled. The conversion of a single-part string is modelled as integer parsing.
- Unicode text handling. `str.strip`, `str.lower` and `str.isdigit` are modelled on ASCII blanks, capitals and digits; Python also accepts other Unicode ones.
- Lone surrogates. Dafny strings cannot hold them, so the `URIError` that `encodeURIComponent` raises on them is not modelled.
- XML. feedparser's parsing and ElementTree's serialisation are not modelled. Feeds are lists of entries with fields and links.
- The backend feed's channel image (`download_image`, lines 28-41 and 59-68 of `backend/rss_modifier.py`): it is network and file I/O.
- The backend `itunes:duration` rewrite (`backend/rss_modifier.py`:91-93): it can never apply to the freshly built item.
- External services: downloading, Whisper, the language model, pydub's decode and export, and Firebase upload and lookup. They are outcomes in `Collaborators`, not computations.
- `save_processed_podcast`, `load_processed_podcasts`, `file_exists_in_firebase`, `safe_filename`, `get_episode_folder` and `file_path_to_url` are not part of this model. The store is a map with replace-by-key, and the others are function parameters.
- `download_episode` in `backend/utils.py` (it uses `requests` and `tqdm` without importing them) and `download_episode` in `utils.py`: network I/O.
- Removal of local files in the backend processor's cleanup loop. Only its job-status reports are modelled.
- The command-line processor's JSON dump of the unwanted content and the export of the edited audio. Only the transcript file's contents are modelled.
- `run_with_animation` and `animate`: threads and terminal output. The task is called directly.
- The console's printed menus and messages, and `sys.exit`: quitting is a `Stop` outcome.
- Logging, Celery (the task decorator, the `AsyncResult` check), Redis and Flask plumbing, `cache.py`, and the frontend beyond `formatDuration`, the path codec and `getStageStatus` (`formatDate` is locale-dependent).
- Redis key scans see the key set in some order. `JobManager.JobLedger.GetCurrentJobs` states the result as a set of jobs, one per key, not its order.
- BackendProcessor.ProcessPodcastEpisode: all of the processor's status writes carry one instant `now`, so a status or log entry that expires during the run is not modelled; only the task's opening and closing writes have instants of their own.
- Strings.ParseInt and TimeUtils.Component: Python's `int()` also accepts surrounding whitespace and underscores between digits (`int(" 02")` is 2, `int("1_0")` is 10), and its error message quotes the text with `repr`. The model accepts only an optional sign and ASCII digits, and its messages append the bare text.
- SweepEditor.EditAudio and CutEditor.EditAudio: a segment without 'start_time' or 'end_time', or without 'description' in the command-line editor, raises `KeyError` (`audio_editor.py`:10, 20-21 and 29; `backend/audio_editor.py`:16 and 20-21). Segments are modelled as records that always have these fields.
- BackendProcessor.Collaborators: the episode list and the outcome of `edit_audio` are outcomes, not connected to `BackendEpisodes.GetPodcastEpisodes` or `CutEditor.EditAudio`. The `get_podcast_episodes` of the `backend/utils/` package is not part of this model, and the one in `backend/utils.py` yields no 'podcast_title' or 'url' key, which `backend/podcast_processor.py`:37 and 80 read (see the paragraph on collaborators above). Likewise, in the command-line processor `RootProcessor.Collaborators.editing` is the outcome of `edit_audio` (`podcast_processor.py`:81), an optional error message, and is not connected to `SweepEditor.EditAudio`.
- Feed.Link and Feed.Entry: every entry has a `links` list and every link has `rel`, `type`, `href` and `length`. The feed parser creates `entry.links` only when the entry has a link or an enclosure element, and an enclosure's `type`, `length` and `href` only when the element carries those attributes. The `AttributeError` the source then raises is not modelled: reading `entry.links` and `link.type` (`utils.py`:12-13, `rss_modifier.py`:25-26), and reading `item.links`, `link.rel`, `link.href`, `link.type` and `link.length` (`backend/rss_modifier.py`:77-97). Missing entry fields are modelled, through `Feed.Attribute`.
- Concurrency. Two processes writing the same Redis keys or record store at once are not modelled.

## Findings

| source | as written | input that shows it | evidently intended | confidence | as-written member | corrected member |
|---|---|---|---|---|---|---|
| podcast-content-optimizer/backend/utils/time_utils.py:36-44 | the second `divmod` rebinds `seconds`, so "SS" renders only n mod 60 | 75 seconds under "SS" give "15" | "SS" renders the whole duration, as the frontend does, so it parses back to n | not executed | TimeUtils.SecondsFormatExample | TimeUtils.FormatDurationIntended |
| audio_editor.py:19-27 | `last_end = end` with no clamp, so a segment nested in an earlier one moves the cursor back | segments [1,6) and [2,3) on frames 0..9 give 0,3,4,5,6,7,8,9 | the cursor never moves back, so exactly the covered frames are removed: 0,6,7,8,9 | not executed | SweepEditor.NestedSegmentReappears | SweepEditor.ClampedSweepKeeps |
