/** Model of `backend/job_manager.py`: job status records and job logs kept
    in Redis under `job_status:{id}` and `job_log:{id}`, each with a one-hour
    expiry. The store is two maps from Redis key to an expiring value; the
    clock is the `now` parameter, in whole seconds. JSON encoding is the
    identity here. */
module JobManager {
  import opened Wrappers
  import opened Strings

  /** The expiry `setex` and `expire` are given, in seconds. */
  const TTL := 3600
  const StatusPrefix := "job_status:"
  const LogPrefix := "job_log:"

  /** The dict `update_job_status` serialises. */
  datatype JobStatus = JobStatus(status: string, currentStage: string, progress: int,
                                 message: string, timestamp: int)

  /** The `{'stage': …, 'message': …}` entries the task wrapper appends. */
  datatype LogEntry = LogEntry(stage: string, message: string)

  /** A Redis value with its expiry time; it is gone once `now` reaches it. */
  datatype Expiring<T> = Expiring(value: T, expiresAt: int)

  predicate Live<T>(e: Expiring<T>, now: int) { now < e.expiresAt }

  function StatusKey(jobId: string): string { StatusPrefix + jobId }

  function LogKey(jobId: string): string { LogPrefix + jobId }

  /** `get_job_status` on the store `m`: the stored record, or `None` when the
      key is absent or has expired. */
  function StatusOf(m: map<string, Expiring<JobStatus>>, jobId: string, now: int): (r: Option<JobStatus>)
    ensures r.Some? ==> StatusKey(jobId) in m && Live(m[StatusKey(jobId)], now)
    ensures r.Some? ==> r.value == m[StatusKey(jobId)].value
  {
    var k := StatusKey(jobId);
    if k in m && Live(m[k], now) then Some(m[k].value) else None
  }

  /** `get_job_logs`: `lrange(key, 0, -1)`, the whole list, or `[]` when the
      key is absent or has expired. */
  function LogsOf(m: map<string, Expiring<seq<LogEntry>>>, jobId: string, now: int): (r: seq<LogEntry>)
    ensures r != [] ==> LogKey(jobId) in m && Live(m[LogKey(jobId)], now)
  {
    var k := LogKey(jobId);
    if k in m && Live(m[k], now) then m[k].value else []
  }

  /** The job id `get_current_jobs` reads back from a scanned key:
      `key.split(':')[1]`. */
  function ScanId(key: string): string
    requires StatusPrefix <= key
  {
    var rest := key[|StatusPrefix|..];
    assert key == "job_status" + [':'] + rest;
    SplitPrefix("job_status", rest, ':');
    Split(key, ':')[1]
  }

  /** The statuses `get_current_jobs` reports. */
  predicate Active(st: Option<JobStatus>)
  {
    st.Some? && st.value.status in ["queued", "in_progress"]
  }

  /** The keys `scan_iter` returns: a key whose time to live has run out is
      gone from Redis, so only the live ones are scanned. */
  function ScannedKeys<T>(m: map<string, Expiring<T>>, now: int): set<string>
  {
    set k | k in m && Live(m[k], now)
  }

  /** Scanned keys among `ks` whose read-back status is active. */
  function Qualifying(m: map<string, Expiring<JobStatus>>, ks: set<string>, now: int): set<string>
  {
    set k | k in ks && StatusPrefix <= k && Active(StatusOf(m, ScanId(k), now))
  }

  /** The `{'job_id', 'status'}` entries reported for the keys `ks`. */
  function JobsFrom(m: map<string, Expiring<JobStatus>>, ks: set<string>, now: int): set<(string, JobStatus)>
  {
    set k | k in Qualifying(m, ks, now) :: (ScanId(k), StatusOf(m, ScanId(k), now).value)
  }

  /** The Redis key store of the job manager. `writes` records every call of
      `update_job_status`, for stating what a caller reported over time. */
  class JobLedger {
    var statuses: map<string, Expiring<JobStatus>>
    var logs: map<string, Expiring<seq<LogEntry>>>
    ghost var writes: seq<(string, JobStatus)>

    constructor ()
      ensures statuses == map[] && logs == map[] && writes == []
    {
      statuses := map[];
      logs := map[];
      writes := [];
    }

    /** `update_job_status`: `setex` overwrites the whole record and sets a
        fresh one-hour expiry. */
    method UpdateJobStatus(jobId: string, status: string, currentStage: string, progress: int,
                           message: string, now: int)
      modifies this
      ensures statuses == old(statuses)[StatusKey(jobId) :=
                Expiring(JobStatus(status, currentStage, progress, message, now), now + TTL)]
      ensures logs == old(logs)
      ensures writes == old(writes) + [(jobId, JobStatus(status, currentStage, progress, message, now))]
    {
      var record := JobStatus(status, currentStage, progress, message, now);
      statuses := statuses[StatusKey(jobId) := Expiring(record, now + TTL)];
      writes := writes + [(jobId, record)];
    }

    /** `get_job_status`, read from this store. */
    function GetJobStatus(jobId: string, now: int): (r: Option<JobStatus>)
      reads this
      ensures r.Some? <==> StatusKey(jobId) in statuses && Live(statuses[StatusKey(jobId)], now)
      ensures r.Some? ==> r.value == statuses[StatusKey(jobId)].value
    {
      StatusOf(statuses, jobId, now)
    }

    /** `append_job_log`: `rpush` appends at the tail (an expired list counts
        as absent, so it starts over), then `expire` resets the expiry. */
    method AppendJobLog(jobId: string, entry: LogEntry, now: int)
      modifies this
      ensures logs == old(logs)[LogKey(jobId) := Expiring(LogsOf(old(logs), jobId, now) + [entry], now + TTL)]
      ensures statuses == old(statuses) && writes == old(writes)
    {
      logs := logs[LogKey(jobId) := Expiring(LogsOf(logs, jobId, now) + [entry], now + TTL)];
    }

    /** `get_job_logs`, read from this store: the whole live list under
        `job_log:{id}`, and `[]` for a missing or expired key. */
    function GetJobLogs(jobId: string, now: int): (r: seq<LogEntry>)
      reads this
      ensures LogKey(jobId) in logs && Live(logs[LogKey(jobId)], now) ==> r == logs[LogKey(jobId)].value
      ensures !(LogKey(jobId) in logs && Live(logs[LogKey(jobId)], now)) ==> r == []
    {
      LogsOf(logs, jobId, now)
    }

    /** `get_current_jobs`: scan the live `job_status:*` keys in whatever
        order Redis returns them, read each one back by its `split(':')[1]`
        id, and report the queued and in-progress ones. One entry per
        qualifying key. */
    method GetCurrentJobs(now: int) returns (jobs: seq<(string, JobStatus)>)
      ensures forall j :: j in jobs <==> j in JobsFrom(statuses, ScannedKeys(statuses, now), now)
      ensures |jobs| == |Qualifying(statuses, ScannedKeys(statuses, now), now)|
    {
      jobs := [];
      var todo := ScannedKeys(statuses, now);
      ghost var done: set<string> := {};
      while todo != {}
        invariant done !! todo && done + todo == ScannedKeys(statuses, now)
        invariant forall j :: j in jobs <==> j in JobsFrom(statuses, done, now)
        invariant |jobs| == |Qualifying(statuses, done, now)|
        decreases |todo|
      {
        var key :| key in todo;
        MoveOne(done, todo, key);
        var entry := ReadBack(key, now);
        ScanPreserves(statuses, done, key, now, jobs, entry);
        if entry.Some? {
          jobs := jobs + [entry.value];
        }
        done := done + {key};
        todo := todo - {key};
      }
    }

    /** The body of the scan loop for one key: read the status back under
        the key's `split(':')[1]` and keep it when queued or in progress. */
    method ReadBack(key: string, now: int) returns (entry: Option<(string, JobStatus)>)
      ensures entry.Some? <==> StatusPrefix <= key && Active(StatusOf(statuses, ScanId(key), now))
      ensures entry.Some? ==> entry.value == (ScanId(key), StatusOf(statuses, ScanId(key), now).value)
    {
      entry := None;
      if StatusPrefix <= key {
        var jobId := ScanId(key);
        var status := GetJobStatus(jobId, now);
        if Active(status) {
          entry := Some((jobId, status.value));
        }
      }
    }

    /** `delete_job`: both keys go; nothing else changes. */
    method DeleteJob(jobId: string)
      modifies this
      ensures statuses == old(statuses) - {StatusKey(jobId)}
      ensures logs == old(logs) - {LogKey(jobId)}
      ensures writes == old(writes)
    {
      statuses := statuses - {StatusKey(jobId)};
      logs := logs - {LogKey(jobId)};
    }
  }

  /** Scanning one more key adds that key, and its entry, exactly when it
      qualifies. */
  lemma ScanStep(m: map<string, Expiring<JobStatus>>, done: set<string>, key: string, now: int)
    requires key !in done
    ensures var q := StatusPrefix <= key && Active(StatusOf(m, ScanId(key), now));
            && key !in Qualifying(m, done, now)
            && Qualifying(m, done + {key}, now) == Qualifying(m, done, now) + (if q then {key} else {})
            && JobsFrom(m, done + {key}, now)
               == JobsFrom(m, done, now) + (if q then {(ScanId(key), StatusOf(m, ScanId(key), now).value)} else {})
  {
  }

  /** Scanning one more key keeps the reported entries in step with the
      qualifying keys scanned so far. */
  lemma ScanPreserves(m: map<string, Expiring<JobStatus>>, done: set<string>, key: string, now: int,
                      jobs: seq<(string, JobStatus)>, entry: Option<(string, JobStatus)>)
    requires key !in done
    requires forall j :: j in jobs <==> j in JobsFrom(m, done, now)
    requires |jobs| == |Qualifying(m, done, now)|
    requires entry.Some? <==> StatusPrefix <= key && Active(StatusOf(m, ScanId(key), now))
    requires entry.Some? ==> entry.value == (ScanId(key), StatusOf(m, ScanId(key), now).value)
    ensures var next := if entry.Some? then jobs + [entry.value] else jobs;
            && (forall j :: j in next <==> j in JobsFrom(m, done + {key}, now))
            && |next| == |Qualifying(m, done + {key}, now)|
  {
    ScanStep(m, done, key, now);
  }

  lemma MoveOne<T>(done: set<T>, todo: set<T>, key: T)
    requires key in todo && done !! todo
    ensures (done + {key}) !! (todo - {key})
    ensures (done + {key}) + (todo - {key}) == done + todo
  {
  }

  /** Different ids never share a key. */
  lemma KeysDistinct(a: string, b: string)
    ensures StatusKey(a) == StatusKey(b) ==> a == b
    ensures LogKey(a) == LogKey(b) ==> a == b
  {
    if StatusKey(a) == StatusKey(b) {
      assert a == StatusKey(a)[|StatusPrefix|..];
    }
    if LogKey(a) == LogKey(b) {
      assert a == LogKey(a)[|LogPrefix|..];
    }
  }

  /** After a status write at time t the record reads back unchanged until
      t + 3600, then it is gone; no other job's status moves. */
  lemma StatusAfterWrite(m: map<string, Expiring<JobStatus>>, jobId: string, rec: JobStatus,
                         t: int, other: string, now: int)
    ensures StatusOf(m[StatusKey(jobId) := Expiring(rec, t + TTL)], jobId, now)
            == if now < t + TTL then Some(rec) else None
    ensures other != jobId ==>
              StatusOf(m[StatusKey(jobId) := Expiring(rec, t + TTL)], other, now) == StatusOf(m, other, now)
  {
    KeysDistinct(jobId, other);
  }

  /** An append at time t adds the entry at the tail of the live list and
      keeps the whole list readable until t + 3600; other logs do not move. */
  lemma LogAfterAppend(m: map<string, Expiring<seq<LogEntry>>>, jobId: string, e: LogEntry,
                       t: int, other: string, now: int)
    ensures LogsOf(m[LogKey(jobId) := Expiring(LogsOf(m, jobId, t) + [e], t + TTL)], jobId, now)
            == if now < t + TTL then LogsOf(m, jobId, t) + [e] else []
    ensures other != jobId ==>
              LogsOf(m[LogKey(jobId) := Expiring(LogsOf(m, jobId, t) + [e], t + TTL)], other, now)
              == LogsOf(m, other, now)
  {
    KeysDistinct(jobId, other);
  }

  /** Appends at times that keep the log live accumulate in order. */
  lemma {:induction false} LogsInAppendOrder(m: map<string, Expiring<seq<LogEntry>>>, jobId: string,
                                             es: seq<LogEntry>, t: int)
    requires LogKey(jobId) !in m
    ensures LogsOf(AppendAll(m, jobId, es, t), jobId, t) == es
    decreases |es|
  {
    if es != [] {
      var init := es[..|es| - 1];
      LogsInAppendOrder(m, jobId, init, t);
      LogAfterAppend(AppendAll(m, jobId, init, t), jobId, es[|es| - 1], t, jobId, t);
    }
  }

  /** The log map after appending `es` one by one at time t. */
  function AppendAll(m: map<string, Expiring<seq<LogEntry>>>, jobId: string, es: seq<LogEntry>, t: int)
    : map<string, Expiring<seq<LogEntry>>>
    decreases |es|
  {
    if es == [] then m
    else
      var before := AppendAll(m, jobId, es[..|es| - 1], t);
      before[LogKey(jobId) := Expiring(LogsOf(before, jobId, t) + [es[|es| - 1]], t + TTL)]
  }

  /** After `delete_job` the status reads `None` and the log `[]`; every
      other job reads as before. */
  lemma DeleteForgets(s: map<string, Expiring<JobStatus>>, l: map<string, Expiring<seq<LogEntry>>>,
                      jobId: string, other: string, now: int)
    ensures StatusOf(s - {StatusKey(jobId)}, jobId, now) == None
    ensures LogsOf(l - {LogKey(jobId)}, jobId, now) == []
    ensures other != jobId ==> StatusOf(s - {StatusKey(jobId)}, other, now) == StatusOf(s, other, now)
    ensures other != jobId ==> LogsOf(l - {LogKey(jobId)}, other, now) == LogsOf(l, other, now)
  {
    KeysDistinct(jobId, other);
  }

  /** The id read back from `job_status:{id}` is `id` up to its first ':'. */
  lemma ScanIdOfKey(jobId: string)
    ensures ':' !in jobId ==> ScanId(StatusKey(jobId)) == jobId
    ensures ScanId(StatusKey(jobId)) == Split(jobId, ':')[0]
  {
    var k := StatusKey(jobId);
    assert k[|StatusPrefix|..] == jobId;
    assert k == "job_status" + [':'] + jobId;
    SplitPrefix("job_status", jobId, ':');
    if ':' !in jobId {
      SplitNoSep(jobId, ':');
    }
  }

  /** When no stored job id contains ':', the scan reports exactly the live
      jobs whose status is queued or in progress, each with its own record. */
  lemma CurrentJobsExact(m: map<string, Expiring<JobStatus>>, jobId: string, st: JobStatus, now: int)
    requires forall k :: k in m && StatusPrefix <= k ==> ':' !in k[|StatusPrefix|..]
    ensures (jobId, st) in JobsFrom(m, ScannedKeys(m, now), now)
            <==> StatusOf(m, jobId, now) == Some(st) && Active(Some(st))
  {
    var k := StatusKey(jobId);
    if StatusOf(m, jobId, now) == Some(st) && Active(Some(st)) {
      assert k[|StatusPrefix|..] == jobId;
      ScanIdOfKey(jobId);
      assert k in ScannedKeys(m, now);
      assert k in Qualifying(m, ScannedKeys(m, now), now);
    }
    if (jobId, st) in JobsFrom(m, ScannedKeys(m, now), now) {
      var k' :| k' in Qualifying(m, ScannedKeys(m, now), now)
                && (jobId, st) == (ScanId(k'), StatusOf(m, ScanId(k'), now).value);
    }
  }

  /** An expired key is not scanned, so it adds no entry even when its
      `split(':')[1]` id reads back an active status of another job: with
      `job_status:a` live and queued and `job_status:a:b` expired, exactly
      one job is reported. */
  lemma ExpiredKeyNotScanned(st: JobStatus, t: int, now: int)
    requires Active(Some(st)) && now < t + TTL
    ensures var m := map[StatusKey("a") := Expiring(st, t + TTL), StatusKey("a:b") := Expiring(st, now)];
            Qualifying(m, ScannedKeys(m, now), now) == {StatusKey("a")}
  {
    var m := map[StatusKey("a") := Expiring(st, t + TTL), StatusKey("a:b") := Expiring(st, now)];
    assert StatusKey("a") != StatusKey("a:b") by { assert |StatusKey("a")| != |StatusKey("a:b")|; }
    assert ScannedKeys(m, now) == {StatusKey("a")};
    ScanIdOfKey("a");
    assert StatusKey("a")[|StatusPrefix|..] == "a";
  }

  /** A job whose id contains ':' is never reported: its key reads back under
      the id's first part, which has no status of its own. */
  lemma ColonIdIsLost()
    ensures JobsFrom(map[StatusKey("a:b") := Expiring(JobStatus("queued", "DOWNLOAD", 30, "", 0), TTL)],
                     {StatusKey("a:b")}, 0) == {}
  {
    var m := map[StatusKey("a:b") := Expiring(JobStatus("queued", "DOWNLOAD", 30, "", 0), TTL)];
    ScanIdOfKey("a:b");
    assert "a:b" == "a" + [':'] + "b";
    SplitPrefix("a", "b", ':');
    assert ScanId(StatusKey("a:b")) == "a";
    assert StatusKey("a") != StatusKey("a:b");
    assert Qualifying(m, {StatusKey("a:b")}, 0) == {};
  }
}
