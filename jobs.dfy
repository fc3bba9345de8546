/**
 * A job record of the in-memory registry and the transitions the worker
 * applies to it: queued -> running -> done | error.
 */
module Jobs {
  import opened Wrappers

  datatype Status = Queued | Running | Done | Error

  /** The progress note stored while the engine runs; main.py writes "Separating stems…" (with a Unicode ellipsis). */
  const RunningDetail: string := "Separating stems\U{2026}"
  /** The note returned to the submitter, which is never stored in the registry. */
  const WaitingDetail: string := "Waiting for worker"
  /** The error reported for an id the registry does not hold. */
  const NotFoundMessage: string := "Not found"
  /** The fixed error stored when the separation engine exits with a non-zero code. */
  const EngineFailureMessage: string := "Processing failed (model)"
  /** Longest error text stored for an unexpected exception. */
  const ErrorLimit: nat := 300

  /** The value of `JOBS[jid]`: a status and three optional fields. */
  datatype JobRecord = JobRecord(
    status: Status,
    detail: Option<string>,
    downloads: Option<map<string, string>>,
    error: Option<string>)

  /** The answer to a status query (`JobOut`). */
  datatype JobOut = JobOut(
    id: string,
    status: Status,
    detail: Option<string>,
    downloads: Option<map<string, string>>,
    error: Option<string>)

  /** How a job's background execution ended. */
  datatype Termination = Completed(downloads: map<string, string>) | Failed(message: string)

  /** The status as main.py spells it on the wire. */
  function StatusText(s: Status): (t: string)
    ensures ParseStatus(t) == Some(s)
  {
    match s
    case Queued => "queued"
    case Running => "running"
    case Done => "done"
    case Error => "error"
  }

  /** The inverse of StatusText on the four status words. */
  function ParseStatus(t: string): (s: Option<Status>)
    ensures s.Some? <==> t in {"queued", "running", "done", "error"}
  {
    if t == "queued" then Some(Queued)
    else if t == "running" then Some(Running)
    else if t == "done" then Some(Done)
    else if t == "error" then Some(Error)
    else None
  }

  /** `str(e)[:300]`: the stored text of an unexpected exception. */
  function Truncate(text: string): (m: string)
    ensures |m| <= ErrorLimit && |m| <= |text| && m == text[..|m|]
    ensures |m| == if |text| <= ErrorLimit then |text| else ErrorLimit
  {
    if |text| <= ErrorLimit then text else text[..ErrorLimit]
  }

  /** The record `create_job` inserts. */
  const QueuedRecord: JobRecord := JobRecord(Queued, None, None, None)

  /** The record after the worker's first write: running, with the progress note. */
  function Started(rec: JobRecord): (r: JobRecord)
    ensures r.status == Running && r.detail == Some(RunningDetail)
    ensures r.downloads == rec.downloads && r.error == rec.error
  {
    rec.(status := Running, detail := Some(RunningDetail))
  }

  /**
   * The record after the worker's last write. Success stores the status and
   * the downloads; failure stores the status and the message. No other
   * field is touched, so the progress note stays as it was.
   */
  function Finish(rec: JobRecord, t: Termination): (r: JobRecord)
    ensures r.detail == rec.detail
    ensures t.Completed? ==> r.status == Done && r.downloads == Some(t.downloads) && r.error == rec.error
    ensures t.Failed? ==> r.status == Error && r.error == Some(t.message) && r.downloads == rec.downloads
  {
    match t
    case Completed(d) => rec.(status := Done, downloads := Some(d))
    case Failed(m) => rec.(status := Error, error := Some(m))
  }

  /**
   * The fields that go with each status: nothing while queued, the progress
   * note from running on, a full download map exactly when done and a
   * bounded message exactly when failed.
   */
  ghost predicate WellFormed(rec: JobRecord, stems: set<string>) {
    match rec.status
    case Queued => rec.detail == None && rec.downloads == None && rec.error == None
    case Running => rec.detail == Some(RunningDetail) && rec.downloads == None && rec.error == None
    case Done =>
      && rec.detail == Some(RunningDetail) && rec.error == None
      && rec.downloads.Some? && rec.downloads.value.Keys == stems
    case Error =>
      && rec.detail == Some(RunningDetail) && rec.downloads == None
      && rec.error.Some? && |rec.error.value| <= ErrorLimit
  }

  /** A termination the registry can store: every download name present, the message bounded. */
  ghost predicate Storable(t: Termination, stems: set<string>) {
    match t
    case Completed(d) => d.Keys == stems
    case Failed(m) => |m| <= ErrorLimit
  }

  /** A job's sequence of statuses is a prefix of queued, running, done or of queued, running, error. */
  ghost predicate IsLifecyclePrefix(h: seq<Status>) {
    || h == [Queued]
    || h == [Queued, Running]
    || h == [Queued, Running, Done]
    || h == [Queued, Running, Error]
  }

  /** Running a queued job to any storable termination yields a well-formed terminal record. */
  lemma FinishWellFormed(t: Termination, stems: set<string>)
    requires Storable(t, stems)
    ensures WellFormed(Finish(Started(QueuedRecord), t), stems)
    ensures Finish(Started(QueuedRecord), t).status in {Done, Error}
  {
  }

  /** Statuses along a lifecycle never go back: each one is later in the order than the one before. */
  lemma {:induction false} LifecycleMonotone(h: seq<Status>, i: nat, j: nat)
    requires IsLifecyclePrefix(h) && i < j < |h|
    ensures Rank(h[i]) < Rank(h[j])
    ensures h[i] !in {Done, Error}
  {
  }

  /** The position of a status in the lifecycle; the two terminal statuses share the last one. */
  function Rank(s: Status): nat {
    match s
    case Queued => 0
    case Running => 1
    case Done => 2
    case Error => 2
  }
}
