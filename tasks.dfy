/** Model of `process_podcast_task` in `backend/api/tasks.py`: the job-status
    wrapper a worker runs around `process_podcast_episode`. It marks the job
    started, runs the processor and then marks it completed or failed, logging
    each step; an exception never escapes, it is turned into an `{"error": …}`
    result. The Celery decorator and the logging calls are not modelled. */
module Tasks {
  import opened Wrappers
  import JobManager
  import BackendProcessor

  /** The status written before the processor runs. */
  const Starting := BackendProcessor.Report("in_progress", "INITIALIZATION", 0, "Starting podcast processing")

  /** The log entry written before the processor runs. */
  const Started := JobManager.LogEntry("INITIALIZATION", "Task started")

  /** The status written once the processor has returned or raised. */
  function Closing(result: Result<BackendProcessor.Record>): BackendProcessor.Report
  {
    match result
    case Ok(_) => BackendProcessor.Report("completed", "COMPLETION", 100, "Podcast processing completed")
    case Err(e) => BackendProcessor.Report("failed", "FAILED", 0, "Error: " + e)
  }

  /** The log entry written once the processor has returned or raised. */
  function Closed(result: Result<BackendProcessor.Record>): JobManager.LogEntry
  {
    match result
    case Ok(_) => JobManager.LogEntry("COMPLETION", "Task completed successfully")
    case Err(e) => JobManager.LogEntry("FAILED", "Task failed: " + e)
  }

  /** What the task returns. It never raises: a failure comes back as a
      record whose one key "error" holds the processor's message, and a
      success returns the processor's record unchanged. */
  function Output(result: Result<BackendProcessor.Record>): (r: BackendProcessor.Record)
    ensures result.Err? ==> r.Keys == {"error"} && r["error"] == result.msg
    ensures result.Ok? ==> r == result.value
  {
    match result
    case Ok(r) => r
    case Err(e) => map["error" := e]
  }

  /** Every status the task posts for the job, the processor's in between. */
  function TaskReports(run: BackendProcessor.Run): seq<BackendProcessor.Report>
  {
    [Starting] + run.reports + [Closing(run.result)]
  }

  /** The status map after the task: the start report posted at `t0`, the
      processor's reports at `now` and the closing report at `t1`. */
  function TaskStatuses(m: map<string, JobManager.Expiring<JobManager.JobStatus>>, jobId: string,
                        run: BackendProcessor.Run, t0: int, now: int, t1: int)
    : map<string, JobManager.Expiring<JobManager.JobStatus>>
  {
    var begun := BackendProcessor.ApplyReports(m, jobId, [Starting], t0);
    var ran := BackendProcessor.ApplyReports(begun, jobId, run.reports, now);
    BackendProcessor.ApplyReports(ran, jobId, [Closing(run.result)], t1)
  }

  /** The `update_job_status` calls of the task, each with its own time. */
  function TaskPosts(jobId: string, run: BackendProcessor.Run, t0: int, now: int, t1: int)
    : seq<(string, JobManager.JobStatus)>
  {
    BackendProcessor.Posted(jobId, [Starting], t0) + BackendProcessor.Posted(jobId, run.reports, now)
    + BackendProcessor.Posted(jobId, [Closing(run.result)], t1)
  }

  /** The job's log list after the task. The start entry re-arms the list's
      one-hour expiry at `t0`; when the closing entry is appended at `t1`
      the list is either still live, or has expired and starts afresh. */
  function TaskLog(logs: map<string, JobManager.Expiring<seq<JobManager.LogEntry>>>, jobId: string,
                   result: Result<BackendProcessor.Record>, t0: int, t1: int): seq<JobManager.LogEntry>
  {
    (if t1 < t0 + JobManager.TTL then JobManager.LogsOf(logs, jobId, t0) + [Started] else []) + [Closed(result)]
  }

  /** `process_podcast_task(rss_url, episode_index, job_id)`. Lines 11-12 run
      at `t0`, the processor's status writes at `now`, lines 16-17 or 23-24
      at `t1`. */
  method ProcessPodcastTask(c: BackendProcessor.Collaborators, store: BackendProcessor.RecordStore,
                            ledger: JobManager.JobLedger, rssUrl: string, index: int, jobId: string,
                            t0: int, now: int, t1: int, stamps: BackendProcessor.Stamps)
    returns (out: BackendProcessor.Record)
    modifies store, ledger
    ensures var run := BackendProcessor.Process(c, old(store.records), rssUrl, index, jobId, stamps);
            && out == Output(run.result)
            && store.records == BackendProcessor.ApplySaves(old(store.records), run.saves)
            && ledger.statuses == TaskStatuses(old(ledger.statuses), jobId, run, t0, now, t1)
            && ledger.writes == old(ledger.writes) + TaskPosts(jobId, run, t0, now, t1)
            && ledger.logs == old(ledger.logs)[JobManager.LogKey(jobId) := JobManager.Expiring(
                 TaskLog(old(ledger.logs), jobId, run.result, t0, t1), t1 + JobManager.TTL)]
  {
    ghost var run := BackendProcessor.Process(c, store.records, rssUrl, index, jobId, stamps);
    ghost var s0, w0, l0 := ledger.statuses, ledger.writes, ledger.logs;
    Begin(ledger, jobId, t0);
    var result := BackendProcessor.ProcessPodcastEpisode(c, store, ledger, rssUrl, index, jobId, now, stamps);
    Close(ledger, jobId, result, t0, t1, s0, w0, l0, run, now);
    out := Output(result);
  }

  /** Lines 11-12: mark the job started and log it. */
  method Begin(ledger: JobManager.JobLedger, jobId: string, t0: int)
    modifies ledger
    ensures BackendProcessor.Reported(ledger, old(ledger.statuses), old(ledger.writes), ledger.logs, jobId, [Starting], t0)
    ensures ledger.logs == old(ledger.logs)[JobManager.LogKey(jobId) := JobManager.Expiring(
              JobManager.LogsOf(old(ledger.logs), jobId, t0) + [Started], t0 + JobManager.TTL)]
  {
    BackendProcessor.Post(ledger, jobId, Starting, t0);
    ledger.AppendJobLog(jobId, Started, t0);
  }

  /** Lines 16-17 or 23-24, at `t1`: mark the job completed or failed and log
      it. The ghost parameters describe what came before: `Begin` at `t0` on
      the ledger state `s0`, `w0`, `l0`, then the processor's `run` at `now`. */
  method Close(ledger: JobManager.JobLedger, jobId: string, result: Result<BackendProcessor.Record>,
               t0: int, t1: int,
               ghost s0: map<string, JobManager.Expiring<JobManager.JobStatus>>,
               ghost w0: seq<(string, JobManager.JobStatus)>,
               ghost l0: map<string, JobManager.Expiring<seq<JobManager.LogEntry>>>,
               ghost run: BackendProcessor.Run, ghost now: int)
    modifies ledger
    requires run.result == result
    requires ledger.statuses == BackendProcessor.ApplyReports(
               BackendProcessor.ApplyReports(s0, jobId, [Starting], t0), jobId, run.reports, now)
    requires ledger.writes == w0 + BackendProcessor.Posted(jobId, [Starting], t0)
                             + BackendProcessor.Posted(jobId, run.reports, now)
    requires ledger.logs == l0[JobManager.LogKey(jobId) := JobManager.Expiring(
               JobManager.LogsOf(l0, jobId, t0) + [Started], t0 + JobManager.TTL)]
    ensures ledger.statuses == TaskStatuses(s0, jobId, run, t0, now, t1)
    ensures ledger.writes == w0 + TaskPosts(jobId, run, t0, now, t1)
    ensures ledger.logs == l0[JobManager.LogKey(jobId) := JobManager.Expiring(
              TaskLog(l0, jobId, result, t0, t1), t1 + JobManager.TTL)]
  {
    BackendProcessor.Post(ledger, jobId, Closing(result), t1);
    ledger.AppendJobLog(jobId, Closed(result), t1);
    ghost var p0, pr := BackendProcessor.Posted(jobId, [Starting], t0), BackendProcessor.Posted(jobId, run.reports, now);
    ghost var pc := BackendProcessor.Posted(jobId, [Closing(result)], t1);
    assert ledger.writes == w0 + p0 + pr + pc;
    assert w0 + p0 + pr + pc == w0 + (p0 + pr + pc);
  }

  /** Right after the task, `get_job_status` reads 'completed'/COMPLETION/100
      exactly when the processor returned, and 'failed'/FAILED/0 with the
      message otherwise, whatever the processor reported last. */
  lemma {:induction false} FinalStatus(m: map<string, JobManager.Expiring<JobManager.JobStatus>>,
                                       run: BackendProcessor.Run, jobId: string, t0: int, now: int, t1: int)
    ensures var st := JobManager.StatusOf(TaskStatuses(m, jobId, run, t0, now, t1), jobId, t1);
            && st.Some?
            && (st.value.status == "completed" <==> run.result.Ok?)
            && (run.result.Ok? ==> st.value == JobManager.JobStatus("completed", "COMPLETION", 100,
                                                                    "Podcast processing completed", t1))
            && (run.result.Err? ==> st.value == JobManager.JobStatus("failed", "FAILED", 0,
                                                                     "Error: " + run.result.msg, t1))
  {
    var begun := BackendProcessor.ApplyReports(m, jobId, [Starting], t0);
    var ran := BackendProcessor.ApplyReports(begun, jobId, run.reports, now);
    BackendProcessor.ApplyReportsLast(ran, jobId, [Closing(run.result)], t1);
  }

  /** When the whole task happens within one instant, its status writes are
      exactly `TaskReports`, in order. */
  lemma {:induction false} OneInstant(m: map<string, JobManager.Expiring<JobManager.JobStatus>>,
                                      run: BackendProcessor.Run, jobId: string, now: int)
    ensures TaskStatuses(m, jobId, run, now, now, now) == BackendProcessor.ApplyReports(m, jobId, TaskReports(run), now)
    ensures TaskPosts(jobId, run, now, now, now) == BackendProcessor.Posted(jobId, TaskReports(run), now)
  {
    BackendProcessor.ApplyReportsAppend(m, jobId, [Starting], run.reports, now);
    BackendProcessor.ApplyReportsAppend(m, jobId, [Starting] + run.reports, [Closing(run.result)], now);
    BackendProcessor.PostedAppend(jobId, [Starting], run.reports, now);
    BackendProcessor.PostedAppend(jobId, [Starting] + run.reports, [Closing(run.result)], now);
  }

  /** Right after the task, and until the list expires an hour later,
      `get_job_logs` reads the closing entry last. Before it comes the log as
      it was plus the start entry when the task took under an hour; a task
      that took an hour or more has lost both, and its log is the closing
      entry alone. From `t1 + TTL` on the log reads empty. */
  lemma TaskLogs(logs: map<string, JobManager.Expiring<seq<JobManager.LogEntry>>>,
                 result: Result<BackendProcessor.Record>, jobId: string, t0: int, t1: int, t: int)
    ensures var after := logs[JobManager.LogKey(jobId) := JobManager.Expiring(
              TaskLog(logs, jobId, result, t0, t1), t1 + JobManager.TTL)];
            var read := JobManager.LogsOf(after, jobId, t);
            && (t < t1 + JobManager.TTL && t1 < t0 + JobManager.TTL
                ==> read == JobManager.LogsOf(logs, jobId, t0) + [Started, Closed(result)])
            && (t < t1 + JobManager.TTL && t0 + JobManager.TTL <= t1 ==> read == [Closed(result)])
            && (t1 + JobManager.TTL <= t ==> read == [])
  {
    var before := JobManager.LogsOf(logs, jobId, t0);
    assert before + [Started] + [Closed(result)] == before + [Started, Closed(result)];
  }

  /** On a full, successful run the processor's last status is the
      'in_progress' CLEANUP 98 report, and the task's 'completed' status
      overwrites it. */
  lemma {:induction false} CleanupOverwritten(c: BackendProcessor.Collaborators, store: BackendProcessor.Store,
                                              rssUrl: string, index: int, jobId: string,
                                              stamps: BackendProcessor.Stamps,
                                              m: map<string, JobManager.Expiring<JobManager.JobStatus>>,
                                              t0: int, now: int, t1: int)
    requires BackendProcessor.InRange(c, index) && !BackendProcessor.ShortCircuits(c, store, rssUrl, index)
    requires BackendProcessor.Process(c, store, rssUrl, index, jobId, stamps).result.Ok?
    ensures var run := BackendProcessor.Process(c, store, rssUrl, index, jobId, stamps);
            && run.reports[|run.reports| - 1] == BackendProcessor.CleanedUp
            && BackendProcessor.CleanedUp.status == "in_progress" && BackendProcessor.CleanedUp.progress == 98
            && JobManager.StatusOf(TaskStatuses(m, jobId, run, t0, now, t1), jobId, t1)
               == Some(JobManager.JobStatus("completed", "COMPLETION", 100, "Podcast processing completed", t1))
  {
    var run := BackendProcessor.Process(c, store, rssUrl, index, jobId, stamps);
    BackendProcessor.CompletedRun(c, store, rssUrl, index, jobId, stamps);
    var k := |run.reports|;
    assert run.reports[k - 3..][2] == run.reports[k - 1];
    FinalStatus(m, run, jobId, t0, now, t1);
  }
}
