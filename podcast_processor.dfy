/** Model of `process_podcast_episode` in `backend/podcast_processor.py`:
    fetch the episode list, pick one, short-circuit on a completed record,
    then download, transcribe, detect unwanted content and edit — the first
    two skipped when their artifact is already in storage — saving the
    processed-podcast record after the stages and reporting progress to the
    job ledger. Every collaborator (feed fetch, download, Whisper, the LLM,
    the editor, Firebase upload and lookup, file naming) is an outcome or a
    function given in `Collaborators`.

    The stages are specified by functions (`Pipeline`, `Download`, …) that
    say what each stage from that point on reports and saves; the method
    `ProcessPodcastEpisode` performs the run against a `RecordStore` and a
    `JobManager.JobLedger` and is proved to do exactly that. */
module BackendProcessor {
  import opened Wrappers
  import JobManager
  import CutEditor
  import Slices

  /** A processed-podcast record, the JSON object the record store keeps. */
  type Record = map<string, string>

  /** The store key, (rss_url, episode_title). */
  type Key = (string, string)

  /** The processed podcasts, at most one per key. */
  type Store = map<Key, Record>

  /** An episode as the fetch helper returns it. */
  datatype Episode = Episode(title: string, url: string, podcastTitle: string)

  /** What the nested `transcribe()` hands back: `None` (it swallows every
      error), a result without "segments", or a usable result. */
  datatype TranscribeOutcome = NoResult | WithoutSegments | WithSegments

  /** The behaviour of everything the processor calls but does not define.
      An `Option<string>` is the message of the exception a call raises. */
  datatype Collaborators = Collaborators(
    episodes: Result<seq<Episode>>,            // get_podcast_episodes
    safeFilename: string -> string,            // safe_filename
    episodeFolder: (string, string) -> string, // get_episode_folder
    existsInStorage: string -> bool,           // file_exists_in_firebase
    pathToUrl: string -> string,               // file_path_to_url
    upload: string -> Result<string>,          // upload_to_firebase, on a local path
    download: Option<string>,                  // download_episode
    whisperLoad: Option<string>,               // whisper.load_model
    transcription: TranscribeOutcome,          // the nested transcribe()
    detection: Result<Option<seq<CutEditor.Segment>>>, // find_unwanted_content; None: no 'unwanted_content' key
    editing: Option<string>)                   // edit_audio

  /** One `update_job_status` call, without its time stamp. */
  datatype Report = Report(status: string, stage: string, progress: int, message: string)

  /** One `save_processed_podcast` call: the store key and the record. */
  datatype Save = Save(key: Key, record: Record)

  /** What a run does from some point on: the record it returns or the
      message of the exception it raises, and its job-status reports and its
      saves, in order. */
  datatype Run = Run(result: Result<Record>, reports: seq<Report>, saves: seq<Save>)

  /** The file names and storage paths of one episode. */
  datatype Names = Names(podcastTitle: string, title: string, key: Key,
                         localInput: string, localTranscript: string, localUnwanted: string,
                         localOutput: string, storedInput: string, storedTranscript: string)

  /** `os.path.join(a, b)` for two parts. */
  function PathJoin(a: string, b: string): (r: string)
    ensures |b| > 0 && b[0] == '/' ==> r == b
  {
    if |b| > 0 && b[0] == '/' then b
    else if a == "" || a[|a| - 1] == '/' then a + b
    else a + "/" + b
  }

  function NamesFor(c: Collaborators, rssUrl: string, podcastTitle: string, title: string): Names
  {
    var folder := c.episodeFolder(podcastTitle, title);
    var input := c.safeFilename("original_" + title + ".mp3");
    var output := c.safeFilename("edited_" + title + ".mp3");
    Names(podcastTitle, title, (rssUrl, title),
          PathJoin(folder, input), PathJoin(folder, "transcript.txt"),
          PathJoin(folder, "unwanted_content.json"), PathJoin(folder, output),
          podcastTitle + "/" + title + "/" + input,
          podcastTitle + "/" + title + "/transcript.txt")
  }

  /** The reports of the stages, as the source writes them. */
  const Fetching := Report("in_progress", "FETCH_EPISODES", 10, "Fetching episodes")
  const Fetched := Report("in_progress", "FETCH_EPISODES", 20, "Episodes fetched")
  const Downloading := Report("in_progress", "DOWNLOAD", 30, "Downloading episode")
  const Downloaded := Report("in_progress", "DOWNLOAD", 40, "Episode downloaded")
  const LoadingWhisper := Report("in_progress", "TRANSCRIPTION", 50, "Initializing Whisper model")
  const Transcribed := Report("in_progress", "TRANSCRIPTION", 60, "Transcription completed")
  const Detecting := Report("in_progress", "CONTENT_DETECTION", 70, "Starting unwanted content detection")
  const Detected := Report("in_progress", "CONTENT_DETECTION", 80, "Unwanted content detection completed")
  const Editing := Report("in_progress", "AUDIO_EDITING", 90, "Starting audio editing")
  const Completed := Report("completed", "COMPLETION", 100, "Podcast processing completed")
  const CleaningUp := Report("in_progress", "CLEANUP", 95, "Cleaning up local files")
  const CleanedUp := Report("in_progress", "CLEANUP", 98, "Local files cleaned up")

  function TranscriptionFailure(e: string): Report
  {
    Report("in_progress", "TRANSCRIPTION", 60, "Transcription failed: " + e)
  }

  function EditingFailure(e: string): Report
  {
    Report("in_progress", "AUDIO_EDITING", 90, "Audio editing failed: " + e)
  }

  /** The outer `except` reports this, then re-raises. */
  function FailureReport(e: string): Report
  {
    Report("failed", "ERROR", 0, "Error: " + e)
  }

  /** What was reported and saved before a later stage's run. */
  function Then(reports: seq<Report>, saves: seq<Save>, run: Run): (r: Run)
  {
    Run(run.result, reports + run.reports, saves + run.saves)
  }

  /** The two `datetime.now().isoformat()` readings of a run: the one taken
      when a new record is created (line 66) and the one taken when the
      result is built (line 205). */
  datatype Stamps = Stamps(created: string, finished: string)

  /** The new record created when none is stored for the episode. */
  function NewRecord(podcastTitle: string, title: string, rssUrl: string, jobId: string, stamp: string): Record
  {
    map["podcast_title" := podcastTitle, "episode_title" := title, "rss_url" := rssUrl,
        "status" := "processing", "job_id" := jobId, "timestamp" := stamp]
  }

  /** The whole call: the body of the `try`, then the outer handler, which
      reports 'failed'/ERROR/0 and re-raises. Every run starts by reporting
      the fetch; a failed run always ends with the failure report, whatever
      stage raised; only an episode index in range can succeed. */
  function Process(c: Collaborators, store: Store, rssUrl: string, index: int,
                   jobId: string, stamps: Stamps): (r: Run)
    ensures r.reports != [] && r.reports[0] == Fetching
    ensures r.result.Err? ==> r.reports[|r.reports| - 1] == FailureReport(r.result.msg)
    ensures r.result.Ok? ==> InRange(c, index)
  {
    var run := Pipeline(c, store, rssUrl, index, jobId, stamps);
    if run.result.Err? then Run(run.result, run.reports + [FailureReport(run.result.msg)], run.saves)
    else run
  }

  /** Lines 25-68: fetch, select, look the record up, save the record to
      work on; then the stages. */
  function Pipeline(c: Collaborators, store: Store, rssUrl: string, index: int,
                    jobId: string, stamps: Stamps): (r: Run)
    ensures r.reports != [] && r.reports[0] == Fetching
    ensures r.result.Ok? ==> InRange(c, index)
  {
    match c.episodes
    case Err(e) => Run(Err(e), [Fetching], [])
    case Ok(eps) =>
      if index >= |eps| then Run(Err("Episode index out of range"), [Fetching, Fetched], [])
      else if index < -|eps| then Run(Err("list index out of range"), [Fetching, Fetched], [])
      else
        var chosen := eps[Slices.PyIndex(index, |eps|)];
        var n := NamesFor(c, rssUrl, eps[0].podcastTitle, chosen.title);
        var existing := if n.key in store then store[n.key] else map[];
        if existing != map[] && "status" !in existing then Run(Err("'status'"), [Fetching, Fetched], [])
        else if existing != map[] && existing["status"] == "completed" then Run(Ok(existing), [Fetching, Fetched], [])
        else
          var data := if existing != map[] then existing
                      else NewRecord(n.podcastTitle, n.title, rssUrl, jobId, stamps.created);
          Then([Fetching, Fetched], [Save(n.key, data)], Download(c, n, jobId, stamps, data))
  }

  /** Lines 70-87: reuse the stored input file, or download and upload it. */
  function Download(c: Collaborators, n: Names, jobId: string, stamps: Stamps, data: Record): Run
  {
    if c.existsInStorage(n.storedInput) then
      var d := data["input_file" := c.pathToUrl(n.storedInput)];
      Then([], [Save(n.key, d)], Transcribe(c, n, jobId, stamps, d))
    else if c.download.Some? then Run(Err(c.download.value), [Downloading], [])
    else
      match c.upload(n.localInput)
      case Err(e) => Run(Err(e), [Downloading, Downloaded], [])
      case Ok(url) =>
        var d := data["status" := "downloaded"]["input_file" := url];
        Then([Downloading, Downloaded], [Save(n.key, d)], Transcribe(c, n, jobId, stamps, d))
  }

  /** Lines 89-143: reuse the stored transcript, or run Whisper and upload;
      a failure here is reported by the inner handler and re-raised. */
  function Transcribe(c: Collaborators, n: Names, jobId: string, stamps: Stamps, data: Record): Run
    requires "input_file" in data
  {
    if c.existsInStorage(n.storedTranscript) then
      Detect(c, n, jobId, stamps, data["transcript_file" := c.pathToUrl(n.storedTranscript)])
    else if c.whisperLoad.Some? then
      Run(Err(c.whisperLoad.value), [LoadingWhisper, TranscriptionFailure(c.whisperLoad.value)], [])
    else if c.transcription != WithSegments then
      var e := "Transcription failed or returned unexpected result";
      Run(Err(e), [LoadingWhisper, TranscriptionFailure(e)], [])
    else
      match c.upload(n.localTranscript)
      case Err(e) => Run(Err(e), [LoadingWhisper, Transcribed, TranscriptionFailure(e)], [])
      case Ok(url) =>
        var d := data["status" := "transcribed"]["transcript_file" := url];
        Then([LoadingWhisper, Transcribed], [Save(n.key, d)], Detect(c, n, jobId, stamps, d))
  }

  /** Lines 145-173: content detection, on every run that gets this far. */
  function Detect(c: Collaborators, n: Names, jobId: string, stamps: Stamps, data: Record): Run
    requires "input_file" in data && "transcript_file" in data
  {
    match c.detection
    case Err(e) => Run(Err(e), [Detecting], [])
    case Ok(None) => Run(Err("'unwanted_content'"), [Detecting], [])
    case Ok(Some(segs)) =>
      match c.upload(n.localUnwanted)
      case Err(e) => Run(Err(e), [Detecting, Detected], [])
      case Ok(url) =>
        var d := data["status" := "content_detected"]["unwanted_content_file" := url];
        Then([Detecting, Detected], [Save(n.key, d)], Edit(c, n, jobId, stamps, segs, d))
  }

  /** The output file of the editing stage: the uploaded edit, the input
      file when there is nothing to cut, or the error that makes it fall back
      to the input file. */
  function EditOutcome(c: Collaborators, n: Names, segs: seq<CutEditor.Segment>, input: string): Result<string>
  {
    if segs == [] then Ok(input)
    else if c.editing.Some? then Err(c.editing.value)
    else c.upload(n.localOutput)
  }

  /** Lines 175-197: edit, or fall back to the input file on any error; an
      error here never fails the run. */
  function Edit(c: Collaborators, n: Names, jobId: string, stamps: Stamps, segs: seq<CutEditor.Segment>,
                data: Record): Run
    requires "input_file" in data && "transcript_file" in data && "unwanted_content_file" in data
  {
    match EditOutcome(c, n, segs, data["input_file"])
    case Ok(out) =>
      var d := data["output_file" := out]["status" := "edited"];
      Then([Editing], [Save(n.key, d)], Finish(n, jobId, stamps, d))
    case Err(e) =>
      Then([Editing, EditingFailure(e)], [], Finish(n, jobId, stamps, data["output_file" := data["input_file"]]))
  }

  /** The result dict of lines 199-209. */
  function ResultRecord(n: Names, jobId: string, stamp: string, data: Record): Record
    requires "output_file" in data && "transcript_file" in data && "unwanted_content_file" in data
  {
    map["podcast_title" := n.podcastTitle, "episode_title" := n.title, "rss_url" := n.key.0,
        "status" := "completed", "job_id" := jobId, "timestamp" := stamp,
        "edited_url" := data["output_file"], "transcript_file" := data["transcript_file"],
        "unwanted_content_file" := data["unwanted_content_file"]]
  }

  /** Lines 199-242: merge the result into the record, save it, report
      completion and then the two cleanup steps. */
  function Finish(n: Names, jobId: string, stamps: Stamps, data: Record): Run
    requires "output_file" in data && "transcript_file" in data && "unwanted_content_file" in data
  {
    var result := ResultRecord(n, jobId, stamps.finished, data);
    Run(Ok(result), [Completed, CleaningUp, CleanedUp], [Save(n.key, data + result)])
  }

  // ---------------------------------------------------------------------
  // The store and the ledger after a run

  /** The store after the saves, in order; a save replaces the record under
      its key. */
  function ApplySaves(m: Store, saves: seq<Save>): Store
    decreases |saves|
  {
    if saves == [] then m else ApplySaves(m[saves[0].key := saves[0].record], saves[1..])
  }

  lemma {:induction false} ApplySavesAppend(m: Store, a: seq<Save>, b: seq<Save>)
    ensures ApplySaves(m, a + b) == ApplySaves(ApplySaves(m, a), b)
    decreases |a|
  {
    if a == [] {
      assert a + b == b;
    } else {
      assert (a + b)[0] == a[0] && (a + b)[1..] == a[1..] + b;
      ApplySavesAppend(m[a[0].key := a[0].record], a[1..], b);
    }
  }

  /** The status record a report becomes at time `now`. */
  function Stamped(r: Report, now: int): JobManager.JobStatus
  {
    JobManager.JobStatus(r.status, r.stage, r.progress, r.message, now)
  }

  /** The `update_job_status` calls of a run, as the ledger records them. */
  function Posted(jobId: string, reports: seq<Report>, now: int): (w: seq<(string, JobManager.JobStatus)>)
    ensures |w| == |reports|
  {
    if reports == [] then [] else [(jobId, Stamped(reports[0], now))] + Posted(jobId, reports[1..], now)
  }

  lemma {:induction false} PostedAppend(jobId: string, a: seq<Report>, b: seq<Report>, now: int)
    ensures Posted(jobId, a + b, now) == Posted(jobId, a, now) + Posted(jobId, b, now)
  {
    if a == [] {
      assert a + b == b;
    } else {
      assert (a + b)[0] == a[0] && (a + b)[1..] == a[1..] + b;
      PostedAppend(jobId, a[1..], b, now);
    }
  }

  /** The status map after the reports, in order; each one overwrites the
      job's record and resets its expiry. */
  function ApplyReports(m: map<string, JobManager.Expiring<JobManager.JobStatus>>, jobId: string,
                        reports: seq<Report>, now: int): map<string, JobManager.Expiring<JobManager.JobStatus>>
    decreases |reports|
  {
    if reports == [] then m
    else ApplyReports(m[JobManager.StatusKey(jobId) := JobManager.Expiring(Stamped(reports[0], now), now + JobManager.TTL)],
                      jobId, reports[1..], now)
  }

  lemma {:induction false} ApplyReportsAppend(m: map<string, JobManager.Expiring<JobManager.JobStatus>>, jobId: string,
                                              a: seq<Report>, b: seq<Report>, now: int)
    ensures ApplyReports(m, jobId, a + b, now) == ApplyReports(ApplyReports(m, jobId, a, now), jobId, b, now)
    decreases |a|
  {
    if a == [] {
      assert a + b == b;
    } else {
      assert (a + b)[0] == a[0] && (a + b)[1..] == a[1..] + b;
      ApplyReportsAppend(m[JobManager.StatusKey(jobId) := JobManager.Expiring(Stamped(a[0], now), now + JobManager.TTL)],
                         jobId, a[1..], b, now);
    }
  }

  /** Only the last report of a run survives in the status map. */
  lemma {:induction false} ApplyReportsLast(m: map<string, JobManager.Expiring<JobManager.JobStatus>>, jobId: string,
                                            reports: seq<Report>, now: int)
    requires reports != []
    decreases |reports|
    ensures ApplyReports(m, jobId, reports, now)
            == m[JobManager.StatusKey(jobId) := JobManager.Expiring(Stamped(reports[|reports| - 1], now), now + JobManager.TTL)]
  {
    if |reports| > 1 {
      ApplyReportsLast(m[JobManager.StatusKey(jobId) := JobManager.Expiring(Stamped(reports[0], now), now + JobManager.TTL)],
                       jobId, reports[1..], now);
    }
  }

  /** Reporting `a` and then `b` is reporting `a + b`. */
  lemma ReportsCompose(m: map<string, JobManager.Expiring<JobManager.JobStatus>>,
                       w: seq<(string, JobManager.JobStatus)>, jobId: string,
                       a: seq<Report>, b: seq<Report>, now: int)
    ensures ApplyReports(m, jobId, a + b, now) == ApplyReports(ApplyReports(m, jobId, a, now), jobId, b, now)
    ensures w + Posted(jobId, a + b, now) == w + Posted(jobId, a, now) + Posted(jobId, b, now)
  {
    ApplyReportsAppend(m, jobId, a, b, now);
    PostedAppend(jobId, a, b, now);
  }

  /** The ledger holds exactly the effect of `reports`, posted at `now`, on
      the state it had before; logs are untouched. */
  ghost predicate Reported(ledger: JobManager.JobLedger,
                           statuses: map<string, JobManager.Expiring<JobManager.JobStatus>>,
                           writes: seq<(string, JobManager.JobStatus)>,
                           logs: map<string, JobManager.Expiring<seq<JobManager.LogEntry>>>,
                           jobId: string, reports: seq<Report>, now: int)
    reads ledger
  {
    && ledger.statuses == ApplyReports(statuses, jobId, reports, now)
    && ledger.writes == writes + Posted(jobId, reports, now)
    && ledger.logs == logs
  }

  // ---------------------------------------------------------------------
  // The run, step by step

  /** The processed-podcast store (`load_processed_podcasts` and
      `save_processed_podcast`), upserting by (rss_url, episode_title). */
  class RecordStore {
    var records: Store

    constructor (initial: Store)
      ensures records == initial
    {
      records := initial;
    }

    method Save(key: Key, data: Record)
      modifies this
      ensures records == old(records)[key := data]
    {
      records := records[key := data];
    }
  }

  /** `update_job_status(job_id, …)` with the report's fields. */
  method Post(ledger: JobManager.JobLedger, jobId: string, r: Report, now: int)
    modifies ledger
    ensures Reported(ledger, old(ledger.statuses), old(ledger.writes), old(ledger.logs), jobId, [r], now)
  {
    ledger.UpdateJobStatus(jobId, r.status, r.stage, r.progress, r.message, now);
  }

  /** `process_podcast_episode(rss_url, episode_index, job_id)`. All its
      status writes carry the time `now`. */
  method ProcessPodcastEpisode(c: Collaborators, store: RecordStore, ledger: JobManager.JobLedger,
                               rssUrl: string, index: int, jobId: string, now: int, stamps: Stamps)
    returns (r: Result<Record>)
    modifies store, ledger
    ensures var run := Process(c, old(store.records), rssUrl, index, jobId, stamps);
            && r == run.result
            && store.records == ApplySaves(old(store.records), run.saves)
            && Reported(ledger, old(ledger.statuses), old(ledger.writes), old(ledger.logs), jobId, run.reports, now)
  {
    ghost var run := Pipeline(c, store.records, rssUrl, index, jobId, stamps);
    r := RunPipeline(c, store, ledger, rssUrl, index, jobId, now, stamps);
    if r.Err? {
      ghost var s1, w1 := ledger.statuses, ledger.writes;
      Post(ledger, jobId, FailureReport(r.msg), now);
      ReportsCompose(old(ledger.statuses), old(ledger.writes), jobId, run.reports, [FailureReport(r.msg)], now);
    }
  }

  /** The body of the outer `try`. */
  method RunPipeline(c: Collaborators, store: RecordStore, ledger: JobManager.JobLedger,
                     rssUrl: string, index: int, jobId: string, now: int, stamps: Stamps)
    returns (r: Result<Record>)
    modifies store, ledger
    ensures var run := Pipeline(c, old(store.records), rssUrl, index, jobId, stamps);
            && r == run.result
            && store.records == ApplySaves(old(store.records), run.saves)
            && Reported(ledger, old(ledger.statuses), old(ledger.writes), old(ledger.logs), jobId, run.reports, now)
  {
    Post(ledger, jobId, Fetching, now);
    if c.episodes.Err? {
      return Err(c.episodes.msg);
    }
    var episodes := c.episodes.value;
    Post(ledger, jobId, Fetched, now);
    ReportsCompose(old(ledger.statuses), old(ledger.writes), jobId, [Fetching], [Fetched], now);
    assert [Fetching] + [Fetched] == [Fetching, Fetched];
    if index >= |episodes| {
      return Err("Episode index out of range");
    }
    if index < -|episodes| {
      return Err("list index out of range");
    }
    var chosen := episodes[Slices.PyIndex(index, |episodes|)];
    var n := NamesFor(c, rssUrl, episodes[0].podcastTitle, chosen.title);
    var processed := store.records;
    var existing := if n.key in processed then processed[n.key] else map[];
    if existing != map[] && "status" !in existing {
      return Err("'status'");
    }
    if existing != map[] && existing["status"] == "completed" {
      return Ok(existing);
    }
    var data := if existing != map[] then existing
                else NewRecord(n.podcastTitle, n.title, rssUrl, jobId, stamps.created);
    store.Save(n.key, data);
    ghost var s2, w2 := ledger.statuses, ledger.writes;
    r := DownloadStage(c, n, store, ledger, jobId, now, stamps, data);
    ghost var rest := Download(c, n, jobId, stamps, data);
    ApplySavesAppend(old(store.records), [Save(n.key, data)], rest.saves);
    ReportsCompose(old(ledger.statuses), old(ledger.writes), jobId, [Fetching, Fetched], rest.reports, now);
  }

  method DownloadStage(c: Collaborators, n: Names, store: RecordStore, ledger: JobManager.JobLedger,
                       jobId: string, now: int, stamps: Stamps, data: Record)
    returns (r: Result<Record>)
    modifies store, ledger
    ensures var run := Download(c, n, jobId, stamps, data);
            && r == run.result
            && store.records == ApplySaves(old(store.records), run.saves)
            && Reported(ledger, old(ledger.statuses), old(ledger.writes), old(ledger.logs), jobId, run.reports, now)
  {
    var d := data;
    var before: seq<Report> := [];
    if c.existsInStorage(n.storedInput) {
      d := data["input_file" := c.pathToUrl(n.storedInput)];
    } else {
      Post(ledger, jobId, Downloading, now);
      if c.download.Some? {
        assert Download(c, n, jobId, stamps, data) == Run(Err(c.download.value), [Downloading], []);
        return Err(c.download.value);
      }
      Post(ledger, jobId, Downloaded, now);
      ReportsCompose(old(ledger.statuses), old(ledger.writes), jobId, [Downloading], [Downloaded], now);
      assert [Downloading] + [Downloaded] == [Downloading, Downloaded];
      before := [Downloading, Downloaded];
      var url := c.upload(n.localInput);
      if url.Err? {
        assert Download(c, n, jobId, stamps, data) == Run(Err(url.msg), before, []);
        return Err(url.msg);
      }
      d := data["status" := "downloaded"]["input_file" := url.value];
    }
    assert Reported(ledger, old(ledger.statuses), old(ledger.writes), old(ledger.logs), jobId, before, now);
    store.Save(n.key, d);
    assert store.records == ApplySaves(old(store.records), [Save(n.key, d)]);
    r := TranscribeStage(c, n, store, ledger, jobId, now, stamps, d);
    ghost var rest := Transcribe(c, n, jobId, stamps, d);
    assert Download(c, n, jobId, stamps, data) == Then(before, [Save(n.key, d)], rest);
    ApplySavesAppend(old(store.records), [Save(n.key, d)], rest.saves);
    ReportsCompose(old(ledger.statuses), old(ledger.writes), jobId, before, rest.reports, now);
  }

  method TranscribeStage(c: Collaborators, n: Names, store: RecordStore, ledger: JobManager.JobLedger,
                         jobId: string, now: int, stamps: Stamps, data: Record)
    returns (r: Result<Record>)
    requires "input_file" in data
    modifies store, ledger
    ensures var run := Transcribe(c, n, jobId, stamps, data);
            && r == run.result
            && store.records == ApplySaves(old(store.records), run.saves)
            && Reported(ledger, old(ledger.statuses), old(ledger.writes), old(ledger.logs), jobId, run.reports, now)
  {
    if c.existsInStorage(n.storedTranscript) {
      r := DetectStage(c, n, store, ledger, jobId, now, stamps, data["transcript_file" := c.pathToUrl(n.storedTranscript)]);
      return;
    }
    Post(ledger, jobId, LoadingWhisper, now);
    var failure: Option<string> := None;
    if c.whisperLoad.Some? {
      failure := c.whisperLoad;
    } else if c.transcription != WithSegments {
      failure := Some("Transcription failed or returned unexpected result");
    }
    if failure.Some? {
      Post(ledger, jobId, TranscriptionFailure(failure.value), now);
      ReportsCompose(old(ledger.statuses), old(ledger.writes), jobId, [LoadingWhisper], [TranscriptionFailure(failure.value)], now);
      assert [LoadingWhisper] + [TranscriptionFailure(failure.value)] == [LoadingWhisper, TranscriptionFailure(failure.value)];
      return Err(failure.value);
    }
    Post(ledger, jobId, Transcribed, now);
    ReportsCompose(old(ledger.statuses), old(ledger.writes), jobId, [LoadingWhisper], [Transcribed], now);
    assert [LoadingWhisper] + [Transcribed] == [LoadingWhisper, Transcribed];
    var url := c.upload(n.localTranscript);
    if url.Err? {
      Post(ledger, jobId, TranscriptionFailure(url.msg), now);
      ReportsCompose(old(ledger.statuses), old(ledger.writes), jobId, [LoadingWhisper, Transcribed], [TranscriptionFailure(url.msg)], now);
      assert [LoadingWhisper, Transcribed] + [TranscriptionFailure(url.msg)]
          == [LoadingWhisper, Transcribed, TranscriptionFailure(url.msg)];
      return Err(url.msg);
    }
    var d := data["status" := "transcribed"]["transcript_file" := url.value];
    store.Save(n.key, d);
    ghost var s1, w1 := ledger.statuses, ledger.writes;
    r := DetectStage(c, n, store, ledger, jobId, now, stamps, d);
    ghost var rest := Detect(c, n, jobId, stamps, d);
    ApplySavesAppend(old(store.records), [Save(n.key, d)], rest.saves);
    ReportsCompose(old(ledger.statuses), old(ledger.writes), jobId, [LoadingWhisper, Transcribed], rest.reports, now);
  }

  method DetectStage(c: Collaborators, n: Names, store: RecordStore, ledger: JobManager.JobLedger,
                     jobId: string, now: int, stamps: Stamps, data: Record)
    returns (r: Result<Record>)
    requires "input_file" in data && "transcript_file" in data
    modifies store, ledger
    ensures var run := Detect(c, n, jobId, stamps, data);
            && r == run.result
            && store.records == ApplySaves(old(store.records), run.saves)
            && Reported(ledger, old(ledger.statuses), old(ledger.writes), old(ledger.logs), jobId, run.reports, now)
  {
    Post(ledger, jobId, Detecting, now);
    if c.detection.Err? {
      return Err(c.detection.msg);
    }
    if c.detection.value.None? {
      return Err("'unwanted_content'");
    }
    var segs := c.detection.value.value;
    Post(ledger, jobId, Detected, now);
    ReportsCompose(old(ledger.statuses), old(ledger.writes), jobId, [Detecting], [Detected], now);
    assert [Detecting] + [Detected] == [Detecting, Detected];
    var url := c.upload(n.localUnwanted);
    if url.Err? {
      return Err(url.msg);
    }
    var d := data["status" := "content_detected"]["unwanted_content_file" := url.value];
    store.Save(n.key, d);
    ghost var s1, w1 := ledger.statuses, ledger.writes;
    r := EditStage(c, n, store, ledger, jobId, now, stamps, segs, d);
    ghost var rest := Edit(c, n, jobId, stamps, segs, d);
    ApplySavesAppend(old(store.records), [Save(n.key, d)], rest.saves);
    ReportsCompose(old(ledger.statuses), old(ledger.writes), jobId, [Detecting, Detected], rest.reports, now);
  }

  method EditStage(c: Collaborators, n: Names, store: RecordStore, ledger: JobManager.JobLedger,
                   jobId: string, now: int, stamps: Stamps, segs: seq<CutEditor.Segment>, data: Record)
    returns (r: Result<Record>)
    requires "input_file" in data && "transcript_file" in data && "unwanted_content_file" in data
    modifies store, ledger
    ensures var run := Edit(c, n, jobId, stamps, segs, data);
            && r == run.result
            && store.records == ApplySaves(old(store.records), run.saves)
            && Reported(ledger, old(ledger.statuses), old(ledger.writes), old(ledger.logs), jobId, run.reports, now)
  {
    Post(ledger, jobId, Editing, now);
    var d := data;
    var before := [Editing];
    var saved: seq<Save> := [];
    var out := EditOutcome(c, n, segs, data["input_file"]);
    if out.Ok? {
      d := data["output_file" := out.value]["status" := "edited"];
      store.Save(n.key, d);
      saved := [Save(n.key, d)];
    } else {
      d := data["output_file" := data["input_file"]];
      Post(ledger, jobId, EditingFailure(out.msg), now);
      ReportsCompose(old(ledger.statuses), old(ledger.writes), jobId, [Editing], [EditingFailure(out.msg)], now);
      assert [Editing] + [EditingFailure(out.msg)] == [Editing, EditingFailure(out.msg)];
      before := [Editing, EditingFailure(out.msg)];
    }
    ghost var s1, w1, m1 := ledger.statuses, ledger.writes, store.records;
    r := FinishStage(n, store, ledger, jobId, now, stamps, d);
    ghost var rest := Finish(n, jobId, stamps, d);
    ApplySavesAppend(old(store.records), saved, rest.saves);
    ReportsCompose(old(ledger.statuses), old(ledger.writes), jobId, before, rest.reports, now);
  }

  method FinishStage(n: Names, store: RecordStore, ledger: JobManager.JobLedger,
                     jobId: string, now: int, stamps: Stamps, data: Record)
    returns (r: Result<Record>)
    requires "output_file" in data && "transcript_file" in data && "unwanted_content_file" in data
    modifies store, ledger
    ensures var run := Finish(n, jobId, stamps, data);
            && r == run.result
            && store.records == ApplySaves(old(store.records), run.saves)
            && Reported(ledger, old(ledger.statuses), old(ledger.writes), old(ledger.logs), jobId, run.reports, now)
  {
    var result := ResultRecord(n, jobId, stamps.finished, data);
    store.Save(n.key, data + result);
    Post(ledger, jobId, Completed, now);
    Post(ledger, jobId, CleaningUp, now);
    Post(ledger, jobId, CleanedUp, now);
    ReportsCompose(old(ledger.statuses), old(ledger.writes), jobId, [Completed], [CleaningUp], now);
    ReportsCompose(old(ledger.statuses), old(ledger.writes), jobId, [Completed, CleaningUp], [CleanedUp], now);
    assert [Completed] + [CleaningUp] == [Completed, CleaningUp];
    assert [Completed, CleaningUp] + [CleanedUp] == [Completed, CleaningUp, CleanedUp];
    r := Ok(result);
  }

  // ---------------------------------------------------------------------
  // What a run promises

  /** The episode list was fetched and the index selects one of its entries. */
  predicate InRange(c: Collaborators, index: int)
  {
    c.episodes.Ok? && 0 <= index + |c.episodes.value| && index < |c.episodes.value|
  }

  function Chosen(c: Collaborators, index: int): Episode
    requires InRange(c, index)
  {
    c.episodes.value[Slices.PyIndex(index, |c.episodes.value|)]
  }

  function NamesOf(c: Collaborators, rssUrl: string, index: int): Names
    requires InRange(c, index)
  {
    NamesFor(c, rssUrl, c.episodes.value[0].podcastTitle, Chosen(c, index).title)
  }

  /** The stored record for the chosen episode; `{}` when there is none,
      which Python treats like a missing one. */
  function Existing(c: Collaborators, store: Store, rssUrl: string, index: int): Record
    requires InRange(c, index)
  {
    var key := (rssUrl, Chosen(c, index).title);
    if key in store then store[key] else map[]
  }

  predicate ShortCircuits(c: Collaborators, store: Store, rssUrl: string, index: int)
    requires InRange(c, index)
  {
    var e := Existing(c, store, rssUrl, index);
    e != map[] && "status" in e && e["status"] == "completed"
  }

  /** An index at or past the end fails after the two fetch reports and
      before any record is saved. */
  lemma IndexPastEnd(c: Collaborators, store: Store, rssUrl: string, index: int, jobId: string, stamps: Stamps)
    requires c.episodes.Ok? && index >= |c.episodes.value|
    ensures Process(c, store, rssUrl, index, jobId, stamps)
            == Run(Err("Episode index out of range"),
                   [Fetching, Fetched, FailureReport("Episode index out of range")], [])
  {
  }

  /** A negative index is not rejected: it picks the episode that many
      places from the end, and the run is the run for that position. */
  lemma NegativeIndexFromEnd(c: Collaborators, store: Store, rssUrl: string, index: int, jobId: string, stamps: Stamps)
    requires c.episodes.Ok? && -|c.episodes.value| <= index < 0
    ensures InRange(c, index)
    ensures Chosen(c, index) == c.episodes.value[|c.episodes.value| + index]
    ensures Process(c, store, rssUrl, index, jobId, stamps)
            == Process(c, store, rssUrl, index + |c.episodes.value|, jobId, stamps)
  {
  }

  /** A completed record is returned as stored, after only the two fetch
      reports and with no save; no collaborator besides the episode fetch is
      consulted. */
  lemma CompletedShortCircuit(c: Collaborators, c': Collaborators, store: Store, rssUrl: string,
                              index: int, jobId: string, stamps: Stamps)
    requires InRange(c, index) && ShortCircuits(c, store, rssUrl, index)
    requires c'.episodes == c.episodes
    ensures Process(c, store, rssUrl, index, jobId, stamps)
            == Run(Ok(Existing(c, store, rssUrl, index)), [Fetching, Fetched], [])
    ensures Process(c', store, rssUrl, index, jobId, stamps) == Process(c, store, rssUrl, index, jobId, stamps)
  {
  }

  /** An input file already in storage is reused: how the download would
      have gone makes no difference. */
  lemma StoredInputSkipsDownload(c: Collaborators, store: Store, rssUrl: string, index: int,
                                 jobId: string, stamps: Stamps, download: Option<string>)
    requires InRange(c, index) && c.existsInStorage(NamesOf(c, rssUrl, index).storedInput)
    ensures Process(c.(download := download), store, rssUrl, index, jobId, stamps)
            == Process(c, store, rssUrl, index, jobId, stamps)
  {
    var c' := c.(download := download);
    var e := Existing(c, store, rssUrl, index);
    var n := NamesOf(c, rssUrl, index);
    assert NamesOf(c', rssUrl, index) == n;
    var data := if e != map[] then e else NewRecord(n.podcastTitle, n.title, rssUrl, jobId, stamps.created);
    TranscribeSame(c, c', n, jobId, stamps, data["input_file" := c.pathToUrl(n.storedInput)]);
    assert Download(c', n, jobId, stamps, data) == Download(c, n, jobId, stamps, data);
  }

  /** A transcript already in storage is reused: Whisper is not consulted. */
  lemma StoredTranscriptSkipsWhisper(c: Collaborators, store: Store, rssUrl: string, index: int,
                                     jobId: string, stamps: Stamps,
                                     load: Option<string>, t: TranscribeOutcome)
    requires InRange(c, index) && c.existsInStorage(NamesOf(c, rssUrl, index).storedTranscript)
    ensures Process(c.(whisperLoad := load, transcription := t), store, rssUrl, index, jobId, stamps)
            == Process(c, store, rssUrl, index, jobId, stamps)
  {
    var c' := c.(whisperLoad := load, transcription := t);
    var e := Existing(c, store, rssUrl, index);
    var n := NamesOf(c, rssUrl, index);
    assert NamesOf(c', rssUrl, index) == n;
    var data := if e != map[] then e else NewRecord(n.podcastTitle, n.title, rssUrl, jobId, stamps.created);
    DownloadIgnoresWhisper(c, load, t, n, jobId, stamps, data);
  }

  lemma DownloadIgnoresWhisper(c: Collaborators, load: Option<string>, t: TranscribeOutcome,
                               n: Names, jobId: string, stamps: Stamps, data: Record)
    requires c.existsInStorage(n.storedTranscript)
    ensures Download(c.(whisperLoad := load, transcription := t), n, jobId, stamps, data)
            == Download(c, n, jobId, stamps, data)
  {
    if c.existsInStorage(n.storedInput) {
      TranscribeIgnoresWhisper(c, load, t, n, jobId, stamps, data["input_file" := c.pathToUrl(n.storedInput)]);
    } else if c.download.None? && c.upload(n.localInput).Ok? {
      var url := c.upload(n.localInput).value;
      TranscribeIgnoresWhisper(c, load, t, n, jobId, stamps, data["status" := "downloaded"]["input_file" := url]);
    }
  }

  lemma TranscribeIgnoresWhisper(c: Collaborators, load: Option<string>, t: TranscribeOutcome,
                                 n: Names, jobId: string, stamps: Stamps, d: Record)
    requires c.existsInStorage(n.storedTranscript) && "input_file" in d
    ensures Transcribe(c.(whisperLoad := load, transcription := t), n, jobId, stamps, d)
            == Transcribe(c, n, jobId, stamps, d)
  {
    var c' := c.(whisperLoad := load, transcription := t);
    DetectSame(c, c', n, jobId, stamps, d["transcript_file" := c.pathToUrl(n.storedTranscript)]);
  }

  /** The later stages consult only the collaborators they name. */
  lemma DetectSame(c: Collaborators, c': Collaborators, n: Names, jobId: string, stamps: Stamps, data: Record)
    requires "input_file" in data && "transcript_file" in data
    requires c'.detection == c.detection && c'.editing == c.editing && c'.upload == c.upload
    ensures Detect(c', n, jobId, stamps, data) == Detect(c, n, jobId, stamps, data)
  {
    if c.detection.Ok? && c.detection.value.Some? && c.upload(n.localUnwanted).Ok? {
      var segs := c.detection.value.value;
      var d := data["status" := "content_detected"]["unwanted_content_file" := c.upload(n.localUnwanted).value];
      assert EditOutcome(c', n, segs, d["input_file"]) == EditOutcome(c, n, segs, d["input_file"]);
      assert Edit(c', n, jobId, stamps, segs, d) == Edit(c, n, jobId, stamps, segs, d);
    }
  }

  lemma TranscribeSame(c: Collaborators, c': Collaborators, n: Names, jobId: string, stamps: Stamps, data: Record)
    requires "input_file" in data
    requires c'.detection == c.detection && c'.editing == c.editing && c'.upload == c.upload
    requires c'.existsInStorage == c.existsInStorage && c'.pathToUrl == c.pathToUrl
    requires c'.whisperLoad == c.whisperLoad && c'.transcription == c.transcription
    ensures Transcribe(c', n, jobId, stamps, data) == Transcribe(c, n, jobId, stamps, data)
  {
    if c.existsInStorage(n.storedTranscript) {
      DetectSame(c, c', n, jobId, stamps, data["transcript_file" := c.pathToUrl(n.storedTranscript)]);
    } else if c.whisperLoad.None? && c.transcription == WithSegments && c.upload(n.localTranscript).Ok? {
      DetectSame(c, c', n, jobId, stamps, data["status" := "transcribed"]["transcript_file" := c.upload(n.localTranscript).value]);
    }
  }

  /** Whether the editor fails makes no difference to whether the run
      succeeds. */
  lemma EditingNeverFailsRun(c: Collaborators, store: Store, rssUrl: string, index: int,
                             jobId: string, stamps: Stamps, editing: Option<string>)
    ensures Process(c.(editing := editing), store, rssUrl, index, jobId, stamps).result.Ok?
            == Process(c, store, rssUrl, index, jobId, stamps).result.Ok?
  {
    var c' := c.(editing := editing);
    if InRange(c, index) && !ShortCircuits(c, store, rssUrl, index) {
      var e := Existing(c, store, rssUrl, index);
      if e == map[] || "status" in e {
        var n := NamesOf(c, rssUrl, index);
        assert NamesOf(c', rssUrl, index) == n;
        var data := if e != map[] then e else NewRecord(n.podcastTitle, n.title, rssUrl, jobId, stamps.created);
        DownloadEditingIrrelevant(c, editing, n, jobId, stamps, data);
      }
    }
  }

  lemma DownloadEditingIrrelevant(c: Collaborators, editing: Option<string>, n: Names, jobId: string,
                                  stamps: Stamps, data: Record)
    ensures Download(c.(editing := editing), n, jobId, stamps, data).result.Ok?
            == Download(c, n, jobId, stamps, data).result.Ok?
  {
    if c.existsInStorage(n.storedInput) {
      TranscribeEditingIrrelevant(c, editing, n, jobId, stamps, data["input_file" := c.pathToUrl(n.storedInput)]);
    } else if c.download.None? && c.upload(n.localInput).Ok? {
      var d := data["status" := "downloaded"]["input_file" := c.upload(n.localInput).value];
      TranscribeEditingIrrelevant(c, editing, n, jobId, stamps, d);
    }
  }

  lemma TranscribeEditingIrrelevant(c: Collaborators, editing: Option<string>, n: Names, jobId: string,
                                    stamps: Stamps, data: Record)
    requires "input_file" in data
    ensures Transcribe(c.(editing := editing), n, jobId, stamps, data).result.Ok?
            == Transcribe(c, n, jobId, stamps, data).result.Ok?
  {
    if c.existsInStorage(n.storedTranscript) {
      DetectEditingIrrelevant(c, editing, n, jobId, stamps, data["transcript_file" := c.pathToUrl(n.storedTranscript)]);
    } else if c.whisperLoad.None? && c.transcription == WithSegments && c.upload(n.localTranscript).Ok? {
      var d := data["status" := "transcribed"]["transcript_file" := c.upload(n.localTranscript).value];
      DetectEditingIrrelevant(c, editing, n, jobId, stamps, d);
    }
  }

  lemma DetectEditingIrrelevant(c: Collaborators, editing: Option<string>, n: Names, jobId: string,
                                stamps: Stamps, data: Record)
    requires "input_file" in data && "transcript_file" in data
    ensures Detect(c.(editing := editing), n, jobId, stamps, data).result.Ok?
            == Detect(c, n, jobId, stamps, data).result.Ok?
  {
  }

  /** With nothing to cut, or when editing or its upload fails, the run
      still completes, and its edited URL is the input file. */
  lemma EditFallsBack(c: Collaborators, n: Names, jobId: string, stamps: Stamps,
                      segs: seq<CutEditor.Segment>, data: Record)
    requires "input_file" in data && "transcript_file" in data && "unwanted_content_file" in data
    requires segs == [] || c.editing.Some? || c.upload(n.localOutput).Err?
    ensures var run := Edit(c, n, jobId, stamps, segs, data);
            run.result.Ok? && run.result.value["edited_url"] == data["input_file"]
  {
  }

  /** How far a record's status says it has come, in the order the stages
      set it; -1 for anything else. */
  function Rank(r: Record): int
  {
    if "status" !in r then -1
    else
      match r["status"]
      case "processing" => 0
      case "downloaded" => 1
      case "transcribed" => 2
      case "content_detected" => 3
      case "edited" => 4
      case "completed" => 5
      case _ => -1
  }

  /** The saved statuses never move back, starting from rank `lo`. */
  predicate Ascending(saves: seq<Save>, lo: int)
    decreases |saves|
  {
    saves == [] || (lo <= Rank(saves[0].record) && Ascending(saves[1..], Rank(saves[0].record)))
  }

  lemma {:induction false} AscendingThen(pre: seq<Save>, rest: seq<Save>, lo: int, mid: int)
    requires Ascending(pre, lo) && Ascending(rest, mid)
    requires pre != [] ==> Rank(pre[|pre| - 1].record) <= mid
    requires pre == [] ==> lo <= mid
    ensures Ascending(pre + rest, lo)
    decreases |pre|
  {
    if pre == [] {
      assert pre + rest == rest;
      AscendingWeaker(rest, lo, mid);
    } else {
      assert (pre + rest)[0] == pre[0] && (pre + rest)[1..] == pre[1..] + rest;
      AscendingThen(pre[1..], rest, Rank(pre[0].record), mid);
    }
  }

  lemma AscendingWeaker(saves: seq<Save>, lo: int, mid: int)
    requires lo <= mid && Ascending(saves, mid)
    ensures Ascending(saves, lo)
  {
  }

  /** Each stage's saves, from a record no further along than the stage,
      never move the status back. */
  lemma FinishAscends(n: Names, jobId: string, stamps: Stamps, data: Record)
    requires "output_file" in data && "transcript_file" in data && "unwanted_content_file" in data
    requires Rank(data) <= 5
    ensures Ascending(Finish(n, jobId, stamps, data).saves, Rank(data))
  {
    var result := ResultRecord(n, jobId, stamps.finished, data);
    assert (data + result)["status"] == "completed";
  }

  lemma EditAscends(c: Collaborators, n: Names, jobId: string, stamps: Stamps,
                    segs: seq<CutEditor.Segment>, data: Record)
    requires "input_file" in data && "transcript_file" in data && "unwanted_content_file" in data
    requires 0 <= Rank(data) <= 4
    ensures Ascending(Edit(c, n, jobId, stamps, segs, data).saves, Rank(data))
  {
    match EditOutcome(c, n, segs, data["input_file"])
    case Ok(out) =>
      var d := data["output_file" := out]["status" := "edited"];
      FinishAscends(n, jobId, stamps, d);
      AscendingThen([Save(n.key, d)], Finish(n, jobId, stamps, d).saves, Rank(data), 4);
    case Err(e) =>
      var d := data["output_file" := data["input_file"]];
      assert Rank(d) == Rank(data);
      FinishAscends(n, jobId, stamps, d);
      assert [] + Finish(n, jobId, stamps, d).saves == Finish(n, jobId, stamps, d).saves;
  }

  lemma DetectAscends(c: Collaborators, n: Names, jobId: string, stamps: Stamps, data: Record)
    requires "input_file" in data && "transcript_file" in data
    requires 0 <= Rank(data) <= 3
    ensures Ascending(Detect(c, n, jobId, stamps, data).saves, Rank(data))
  {
    if c.detection.Ok? && c.detection.value.Some? && c.upload(n.localUnwanted).Ok? {
      var segs := c.detection.value.value;
      var d := data["status" := "content_detected"]["unwanted_content_file" := c.upload(n.localUnwanted).value];
      EditAscends(c, n, jobId, stamps, segs, d);
      AscendingThen([Save(n.key, d)], Edit(c, n, jobId, stamps, segs, d).saves, Rank(data), 3);
    }
  }

  lemma TranscribeAscends(c: Collaborators, n: Names, jobId: string, stamps: Stamps, data: Record)
    requires "input_file" in data
    requires 0 <= Rank(data) <= 2
    ensures Ascending(Transcribe(c, n, jobId, stamps, data).saves, Rank(data))
  {
    if c.existsInStorage(n.storedTranscript) {
      var d := data["transcript_file" := c.pathToUrl(n.storedTranscript)];
      assert Rank(d) == Rank(data);
      DetectAscends(c, n, jobId, stamps, d);
    } else if c.whisperLoad.None? && c.transcription == WithSegments && c.upload(n.localTranscript).Ok? {
      var d := data["status" := "transcribed"]["transcript_file" := c.upload(n.localTranscript).value];
      DetectAscends(c, n, jobId, stamps, d);
      AscendingThen([Save(n.key, d)], Detect(c, n, jobId, stamps, d).saves, Rank(data), 2);
    }
  }

  lemma DownloadAscends(c: Collaborators, n: Names, jobId: string, stamps: Stamps, data: Record)
    requires 0 <= Rank(data) <= 1
    ensures Ascending(Download(c, n, jobId, stamps, data).saves, Rank(data))
  {
    if c.existsInStorage(n.storedInput) {
      var d := data["input_file" := c.pathToUrl(n.storedInput)];
      assert Rank(d) == Rank(data);
      TranscribeAscends(c, n, jobId, stamps, d);
      AscendingThen([Save(n.key, d)], Transcribe(c, n, jobId, stamps, d).saves, Rank(data), Rank(d));
    } else if c.download.None? && c.upload(n.localInput).Ok? {
      var d := data["status" := "downloaded"]["input_file" := c.upload(n.localInput).value];
      TranscribeAscends(c, n, jobId, stamps, d);
      AscendingThen([Save(n.key, d)], Transcribe(c, n, jobId, stamps, d).saves, Rank(data), 1);
    }
  }

  /** A run on a new episode, or on one whose record is still 'processing'
      or 'downloaded', saves statuses in the order processing, downloaded,
      transcribed, content_detected, edited, completed, never going back. */
  lemma StatusesAdvance(c: Collaborators, store: Store, rssUrl: string, index: int, jobId: string, stamps: Stamps)
    requires InRange(c, index)
    requires var e := Existing(c, store, rssUrl, index); e == map[] || 0 <= Rank(e) <= 1
    ensures Ascending(Process(c, store, rssUrl, index, jobId, stamps).saves, 0)
  {
    var e := Existing(c, store, rssUrl, index);
    var n := NamesOf(c, rssUrl, index);
    var data := if e != map[] then e else NewRecord(n.podcastTitle, n.title, rssUrl, jobId, stamps.created);
    if e == map[] || e["status"] != "completed" {
      assert 0 <= Rank(data) <= 1;
      DownloadAscends(c, n, jobId, stamps, data);
      AscendingThen([Save(n.key, data)], Download(c, n, jobId, stamps, data).saves, 0, Rank(data));
    }
  }

  /** The tail a completed run ends with: the last save marks the record
      'completed' with `edited_url` equal to its `output_file`, the result is
      that record's summary, and the ledger is told 'completed'/100 and then,
      going back, 'in_progress' CLEANUP 95 and 98. */
  predicate CompletesWell(run: Run)
  {
    run.result.Ok? ==>
      && |run.reports| >= 3
      && run.reports[|run.reports| - 3..] == [Completed, CleaningUp, CleanedUp]
      && run.saves != []
      && var last := run.saves[|run.saves| - 1].record;
      && "status" in last && last["status"] == "completed"
      && "edited_url" in last && "output_file" in last && last["edited_url"] == last["output_file"]
      && "edited_url" in run.result.value && run.result.value["edited_url"] == last["edited_url"]
      && "status" in run.result.value && run.result.value["status"] == "completed"
  }

  lemma ThenCompletesWell(reports: seq<Report>, saves: seq<Save>, run: Run)
    requires CompletesWell(run)
    ensures CompletesWell(Then(reports, saves, run))
  {
    var t := Then(reports, saves, run);
    if run.result.Ok? {
      assert t.reports[|t.reports| - 3..] == run.reports[|run.reports| - 3..];
      assert t.saves[|t.saves| - 1] == run.saves[|run.saves| - 1];
    }
  }

  lemma EditCompletesWell(c: Collaborators, n: Names, jobId: string, stamps: Stamps,
                          segs: seq<CutEditor.Segment>, data: Record)
    requires "input_file" in data && "transcript_file" in data && "unwanted_content_file" in data
    ensures CompletesWell(Edit(c, n, jobId, stamps, segs, data))
  {
    var o := EditOutcome(c, n, segs, data["input_file"]);
    if o.Ok? {
      var d := data["output_file" := o.value]["status" := "edited"];
      var f := Finish(n, jobId, stamps, d);
      assert Edit(c, n, jobId, stamps, segs, data) == Then([Editing], [Save(n.key, d)], f);
      FinishCompletesWell(n, jobId, stamps, d);
      ThenCompletesWell([Editing], [Save(n.key, d)], f);
    } else {
      var d := data["output_file" := data["input_file"]];
      var f := Finish(n, jobId, stamps, d);
      assert Edit(c, n, jobId, stamps, segs, data) == Then([Editing, EditingFailure(o.msg)], [], f);
      FinishCompletesWell(n, jobId, stamps, d);
      ThenCompletesWell([Editing, EditingFailure(o.msg)], [], f);
    }
  }

  lemma FinishCompletesWell(n: Names, jobId: string, stamps: Stamps, data: Record)
    requires "output_file" in data && "transcript_file" in data && "unwanted_content_file" in data
    ensures CompletesWell(Finish(n, jobId, stamps, data))
  {
    var result := ResultRecord(n, jobId, stamps.finished, data);
    var last := data + result;
    assert "output_file" !in result;
    assert last["status"] == "completed" && last["edited_url"] == data["output_file"];
    assert last["output_file"] == data["output_file"];
  }

  lemma DetectCompletesWell(c: Collaborators, n: Names, jobId: string, stamps: Stamps, data: Record)
    requires "input_file" in data && "transcript_file" in data
    ensures CompletesWell(Detect(c, n, jobId, stamps, data))
    ensures Detect(c, n, jobId, stamps, data).result.Ok? ==>
              Detected in Detect(c, n, jobId, stamps, data).reports
  {
    if c.detection.Ok? && c.detection.value.Some? && c.upload(n.localUnwanted).Ok? {
      var segs := c.detection.value.value;
      var d := data["status" := "content_detected"]["unwanted_content_file" := c.upload(n.localUnwanted).value];
      EditCompletesWell(c, n, jobId, stamps, segs, d);
      ThenCompletesWell([Detecting, Detected], [Save(n.key, d)], Edit(c, n, jobId, stamps, segs, d));
      assert Detect(c, n, jobId, stamps, data).reports[1] == Detected;
    }
  }

  lemma TranscribeCompletesWell(c: Collaborators, n: Names, jobId: string, stamps: Stamps, data: Record)
    requires "input_file" in data
    ensures CompletesWell(Transcribe(c, n, jobId, stamps, data))
    ensures Transcribe(c, n, jobId, stamps, data).result.Ok? ==>
              Detected in Transcribe(c, n, jobId, stamps, data).reports
  {
    if c.existsInStorage(n.storedTranscript) {
      DetectCompletesWell(c, n, jobId, stamps, data["transcript_file" := c.pathToUrl(n.storedTranscript)]);
    } else if c.whisperLoad.None? && c.transcription == WithSegments && c.upload(n.localTranscript).Ok? {
      var d := data["status" := "transcribed"]["transcript_file" := c.upload(n.localTranscript).value];
      DetectCompletesWell(c, n, jobId, stamps, d);
      ThenCompletesWell([LoadingWhisper, Transcribed], [Save(n.key, d)], Detect(c, n, jobId, stamps, d));
    }
  }

  lemma DownloadCompletesWell(c: Collaborators, n: Names, jobId: string, stamps: Stamps, data: Record)
    ensures CompletesWell(Download(c, n, jobId, stamps, data))
    ensures Download(c, n, jobId, stamps, data).result.Ok? ==>
              Detected in Download(c, n, jobId, stamps, data).reports
  {
    if c.existsInStorage(n.storedInput) {
      var d := data["input_file" := c.pathToUrl(n.storedInput)];
      TranscribeCompletesWell(c, n, jobId, stamps, d);
      ThenCompletesWell([], [Save(n.key, d)], Transcribe(c, n, jobId, stamps, d));
    } else if c.download.None? && c.upload(n.localInput).Ok? {
      var d := data["status" := "downloaded"]["input_file" := c.upload(n.localInput).value];
      TranscribeCompletesWell(c, n, jobId, stamps, d);
      ThenCompletesWell([Downloading, Downloaded], [Save(n.key, d)], Transcribe(c, n, jobId, stamps, d));
    }
  }

  /** A run that is not short-circuited and succeeds has run content
      detection, saved the record as 'completed' with `edited_url` equal to
      its `output_file`, and reported 'completed'/100 followed by
      'in_progress' CLEANUP 95 and 98: the progress reported last is not the
      final state. */
  lemma CompletedRun(c: Collaborators, store: Store, rssUrl: string, index: int, jobId: string, stamps: Stamps)
    requires InRange(c, index) && !ShortCircuits(c, store, rssUrl, index)
    ensures CompletesWell(Process(c, store, rssUrl, index, jobId, stamps))
    ensures Process(c, store, rssUrl, index, jobId, stamps).result.Ok? ==>
              Detected in Process(c, store, rssUrl, index, jobId, stamps).reports
  {
    var e := Existing(c, store, rssUrl, index);
    if e == map[] || "status" in e {
      var n := NamesOf(c, rssUrl, index);
      var data := if e != map[] then e else NewRecord(n.podcastTitle, n.title, rssUrl, jobId, stamps.created);
      DownloadCompletesWell(c, n, jobId, stamps, data);
      ThenCompletesWell([Fetching, Fetched], [Save(n.key, data)], Download(c, n, jobId, stamps, data));
    }
  }
}
