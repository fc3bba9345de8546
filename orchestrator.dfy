/**
 * The job service: the process-wide registry `JOBS`, job submission, status
 * queries, and the background worker that drives one job from queued
 * through running to done or error and then releases its workspace.
 */
module Orchestrator {
  import opened Wrappers
  import opened Paths
  import opened Jobs
  import opened Publisher

  /** The separation model the engine runs; the engine writes its stems under a directory of this name. */
  const ModelName: string := "htdemucs_ft"

  /** How the call to the separation engine ended. */
  datatype EngineOutcome =
    | EngineSucceeded
    | CalledProcessError           // the engine exited with a non-zero code
    | EngineRaised(message: string) // anything else, e.g. the engine binary is missing

  /** What went wrong while accepting a submission. */
  datatype SubmitFault =
    | WorkspaceNotCreated(message: string)  // the temporary directory could not be made
    | InputNotWritten(message: string)      // the uploaded bytes could not be stored in it

  /** The arguments of the worker a submission schedules. */
  datatype Launch = Launch(inpath: string, tmpdir: string)

  /** The engine's output directory inside a workspace. */
  function OutDir(tmpdir: string): string {
    Join(tmpdir, "out")
  }

  /** Where the engine leaves the stems: the model's directory, then the input's base name without extension. */
  function StemsDir(tmpdir: string, inpath: string): string {
    Join(Join(OutDir(tmpdir), ModelName), SplitExtRoot(Basename(inpath)))
  }

  /** For a workspace path without a trailing separator the stems lie in `<tmpdir>/out/htdemucs_ft/<base>`. */
  lemma StemsDirLayout(tmpdir: string, inpath: string)
    requires |tmpdir| > 0 && tmpdir[|tmpdir| - 1] != '/'
    ensures StemsDir(tmpdir, inpath) == tmpdir + "/" + "out" + "/" + ModelName + "/" + SplitExtRoot(Basename(inpath))
    ensures '/' !in SplitExtRoot(Basename(inpath))
  {
    var name := Basename(inpath);
    SplitExtRootNoSeparator(name);
    OutputLayout(tmpdir, SplitExtRoot(name));
  }

  /** Joining the output directory, the model and a plain name inserts one separator before each. */
  lemma OutputLayout(tmpdir: string, base: string)
    requires |tmpdir| > 0 && tmpdir[|tmpdir| - 1] != '/' && '/' !in base
    ensures Join(Join(OutDir(tmpdir), ModelName), base) == tmpdir + "/" + "out" + "/" + ModelName + "/" + base
  {
    var out := tmpdir + "/" + "out";
    assert out[|out| - 1] == 't';
    var model := out + "/" + ModelName;
    assert model[|model| - 1] == 't';
    if |base| > 0 {
      assert base[0] in base;
    }
  }

  /**
   * How the worker's attempt ends, given how each external step went: the
   * workspace's output directory, the engine, and each stem's upload.
   */
  function RunResult(jid: string, base: Option<string>, mkdirFault: Option<string>,
                     engine: EngineOutcome, outcomes: seq<UploadOutcome>): (t: Termination)
    requires |outcomes| == |Stems|
    ensures Storable(t, StemNames)
  {
    if mkdirFault.Some? then Failed(Truncate(mkdirFault.value))
    else match engine
      case CalledProcessError => Failed(EngineFailureMessage)
      case EngineRaised(m) => Failed(Truncate(m))
      case EngineSucceeded =>
        match Publish(jid, base, outcomes)
        case Ok(d) => Completed(d)
        case Err(m) => Failed(Truncate(m))
  }

  /**
   * The classification of a worker's attempt: it completes exactly when the
   * directory was made, the engine succeeded, the public base is set and all
   * four uploads went through, and then with the job's own URLs; an engine
   * exit failure gets the fixed message; anything else raised ends it with
   * that error's text cut to the limit.
   */
  lemma RunResultCases(jid: string, base: Option<string>, mkdirFault: Option<string>,
                       engine: EngineOutcome, outcomes: seq<UploadOutcome>)
    requires |outcomes| == |Stems|
    ensures var t := RunResult(jid, base, mkdirFault, engine, outcomes);
      && (t.Completed? <==>
            mkdirFault.None? && engine == EngineSucceeded && base.Some? &&
            forall i :: 0 <= i < |outcomes| ==> outcomes[i] == Uploaded)
      && (t.Completed? ==> t.downloads == Downloads(jid, base.value))
      && (mkdirFault.Some? ==> t == Failed(Truncate(mkdirFault.value)))
      && (mkdirFault.None? && engine == CalledProcessError ==> t == Failed(EngineFailureMessage))
      && (mkdirFault.None? && engine.EngineRaised? ==> t == Failed(Truncate(engine.message)))
      && (mkdirFault.None? && engine == EngineSucceeded && t.Failed? ==>
            t.message == Truncate(Publish(jid, base, outcomes).error))
  {
  }

  /**
   * The body of the worker's `try` and its two handlers: makes the output
   * directory, runs the engine, publishes the stems and turns the running
   * record into its final form. An engine exit failure gets the fixed
   * message; anything else raised gets its text cut to the limit.
   */
  method AttemptJob(jid: string, running: JobRecord, inpath: string, tmpdir: string, base: Option<string>,
                    mkdirFault: Option<string>, engine: EngineOutcome, outcomes: seq<UploadOutcome>)
    returns (final: JobRecord, attempted: seq<Upload>)
    requires |outcomes| == |Stems|
    ensures final == Finish(running, RunResult(jid, base, mkdirFault, engine, outcomes))
    ensures mkdirFault.None? && engine == EngineSucceeded ==> attempted == Attempted(jid, StemsDir(tmpdir, inpath), base, outcomes)
    ensures mkdirFault.Some? || engine != EngineSucceeded ==> attempted == []
  {
    attempted := [];
    if mkdirFault.Some? {
      final := running.(status := Error, error := Some(Truncate(mkdirFault.value)));
      return;
    }
    match engine
    case CalledProcessError =>
      final := running.(status := Error, error := Some(EngineFailureMessage));
    case EngineRaised(m) =>
      final := running.(status := Error, error := Some(Truncate(m)));
    case EngineSucceeded =>
      var published;
      published, attempted := PublishStems(jid, StemsDir(tmpdir, inpath), base, outcomes);
      assert RunResult(jid, base, mkdirFault, engine, outcomes) ==
        if published.Ok? then Completed(published.value) else Failed(Truncate(published.error));
      match published
      case Ok(d) =>
        final := running.(status := Done, downloads := Some(d));
      case Err(m) =>
        final := running.(status := Error, error := Some(Truncate(m)));
  }

  /**
   * What holds of one job: its history is a prefix of the lifecycle and ends
   * in its status, its fields match that status, and a finished job's
   * downloads are its own public URLs.
   */
  ghost predicate JobOk(base: Option<string>, jid: string, rec: JobRecord, h: seq<Status>) {
    && IsLifecyclePrefix(h)
    && h[|h| - 1] == rec.status
    && WellFormed(rec, StemNames)
    && (rec.status == Done ==> base.Some? && rec.downloads == Some(Downloads(jid, base.value)))
  }

  /**
   * The service invariant: every job is well formed, and each scheduled
   * worker belongs to a still-queued job and owns a live workspace of its own.
   */
  ghost predicate Consistent(base: Option<string>, jobs: map<string, JobRecord>, history: map<string, seq<Status>>,
                             scheduled: map<string, Launch>, live: set<string>) {
    && jobs.Keys == history.Keys
    && scheduled.Keys <= jobs.Keys
    && (forall jid :: jid in jobs ==> JobOk(base, jid, jobs[jid], history[jid]))
    && (forall jid :: jid in scheduled ==>
          jobs[jid] == QueuedRecord && history[jid] == [Queued] && scheduled[jid].tmpdir in live)
    && (forall j1, j2 :: j1 in scheduled && j2 in scheduled && j1 != j2 ==>
          scheduled[j1].tmpdir != scheduled[j2].tmpdir)
  }

  /** Inserting a fresh queued job, possibly with a new worker on a new workspace, keeps the invariant. */
  lemma ConsistentAfterCreate(base: Option<string>, jobs: map<string, JobRecord>, history: map<string, seq<Status>>,
                              scheduled: map<string, Launch>, live: set<string>,
                              jid: string, tmpdir: string, src: string, launched: bool)
    requires Consistent(base, jobs, history, scheduled, live)
    requires jid !in jobs && tmpdir !in live
    ensures Consistent(base, jobs[jid := QueuedRecord], history[jid := [Queued]],
                       if launched then scheduled[jid := Launch(src, tmpdir)] else scheduled,
                       live + {tmpdir})
    ensures Consistent(base, jobs[jid := QueuedRecord], history[jid := [Queued]], scheduled, live)
  {
    var jobs1, history1 := jobs[jid := QueuedRecord], history[jid := [Queued]];
    forall j | j in jobs1
      ensures JobOk(base, j, jobs1[j], history1[j])
    {
      if j != jid {
        assert JobOk(base, j, jobs[j], history[j]);
      }
    }
    if launched {
      var scheduled1 := scheduled[jid := Launch(src, tmpdir)];
      forall j | j in scheduled1
        ensures jobs1[j] == QueuedRecord && history1[j] == [Queued] && scheduled1[j].tmpdir in live + {tmpdir}
      {
      }
    }
  }

  /**
   * Starting a scheduled worker keeps the invariant: its job becomes running,
   * and its workspace is no longer claimed by any scheduled worker.
   */
  lemma ConsistentAfterStart(base: Option<string>, jobs: map<string, JobRecord>, history: map<string, seq<Status>>,
                             scheduled: map<string, Launch>, live: set<string>, jid: string)
    requires Consistent(base, jobs, history, scheduled, live)
    requires jid in scheduled
    ensures Consistent(base, jobs[jid := Started(jobs[jid])], history[jid := [Queued, Running]], scheduled - {jid}, live)
    ensures jobs[jid] == QueuedRecord && history[jid] == [Queued] && history[jid] + [Running] == [Queued, Running]
    ensures forall j :: j in scheduled - {jid} ==> scheduled[j].tmpdir != scheduled[jid].tmpdir
  {
  }

  /** Storing a well-formed terminal record for a running job keeps the invariant. */
  lemma ConsistentAfterRecord(base: Option<string>, jobs: map<string, JobRecord>, history: map<string, seq<Status>>,
                              scheduled: map<string, Launch>, live: set<string>, jid: string, rec: JobRecord)
    requires Consistent(base, jobs, history, scheduled, live)
    requires jid in jobs && jobs[jid].status == Running
    requires rec.status in {Done, Error} && WellFormed(rec, StemNames)
    requires rec.status == Done ==> base.Some? && rec.downloads == Some(Downloads(jid, base.value))
    ensures Consistent(base, jobs[jid := rec], history[jid := [Queued, Running, rec.status]], scheduled, live)
    ensures history[jid] == [Queued, Running] && jid !in scheduled
    ensures history[jid] + [rec.status] == [Queued, Running, rec.status]
  {
    assert JobOk(base, jid, jobs[jid], history[jid]);
  }

  /** Removing a workspace that no scheduled worker owns keeps the invariant. */
  lemma ConsistentAfterRelease(base: Option<string>, jobs: map<string, JobRecord>, history: map<string, seq<Status>>,
                               scheduled: map<string, Launch>, live: set<string>, tmpdir: string)
    requires Consistent(base, jobs, history, scheduled, live)
    requires forall j :: j in scheduled ==> scheduled[j].tmpdir != tmpdir
    ensures Consistent(base, jobs, history, scheduled, live - {tmpdir})
  {
  }

  /** A second update of the same key overrides the first. */
  lemma UpdateTwice<K, V>(m: map<K, V>, k: K, a: V, b: V)
    ensures m[k := a][k := b] == m[k := b]
  {
  }

  class JobService {
    /** The configured public base URL of the object store; absent when the setting is missing. */
    const publicBase: Option<string>
    /** `JOBS`: job id to record. */
    var jobs: map<string, JobRecord>

    /** Every status each job has had, oldest first. */
    ghost var history: map<string, seq<Status>>
    /** Workers submitted but not yet started, with their arguments. */
    ghost var scheduled: map<string, Launch>
    /** Workspaces that currently exist. */
    ghost var live: set<string>
    /** Every workspace release, in order. */
    ghost var releaseLog: seq<string>

    ghost predicate Valid()
      reads this
    {
      Consistent(publicBase, jobs, history, scheduled, live)
    }

    /** The service at process start: no jobs, no workspaces. */
    constructor (base: Option<string>)
      ensures Valid()
      ensures publicBase == base && jobs == map[]
      ensures history == map[] && scheduled == map[] && live == {}
      ensures releaseLog == []
    {
      publicBase := base;
      jobs := map[];
      history := map[];
      scheduled := map[];
      live := {};
      releaseLog := [];
    }

    /**
     * Accepts a submission under the fresh id `jid` and the fresh workspace
     * `tmpdir`. The queued record is stored first; only when the workspace
     * is made and the input written is the worker scheduled. A failure after
     * the insert leaves the job queued for good.
     */
    method CreateJob(jid: string, tmpdir: string, filename: string, fault: Option<SubmitFault>)
      returns (r: Result<JobOut, string>)
      requires Valid() && jid !in jobs && tmpdir !in live
      modifies this
      ensures Valid()
      ensures jobs == old(jobs)[jid := QueuedRecord]
      ensures history == old(history)[jid := [Queued]]
      ensures fault.None? ==> r == Ok(JobOut(jid, Queued, Some(WaitingDetail), None, None))
      ensures fault.Some? ==> r == Err(fault.value.message)
      ensures scheduled == if fault.None? then old(scheduled)[jid := Launch(Join(tmpdir, filename), tmpdir)]
                           else old(scheduled)
      ensures live == if fault.Some? && fault.value.WorkspaceNotCreated? then old(live) else old(live) + {tmpdir}
      ensures releaseLog == old(releaseLog)
    {
      ConsistentAfterCreate(publicBase, jobs, history, scheduled, live, jid, tmpdir, Join(tmpdir, filename), fault.None?);
      jobs := jobs[jid := QueuedRecord];
      history := history[jid := [Queued]];
      if fault.Some? && fault.value.WorkspaceNotCreated? {
        return Err(fault.value.message);
      }
      live := live + {tmpdir};
      var src := Join(tmpdir, filename);
      if fault.Some? {
        return Err(fault.value.message);
      }
      scheduled := scheduled[jid := Launch(src, tmpdir)];
      r := Ok(JobOut(jid, Queued, Some(WaitingDetail), None, None));
    }

    /** The status query: the stored fields of a known job, a not-found error otherwise. */
    function GetJob(jid: string): (out: JobOut)
      reads this
      requires Valid()
      ensures out.id == jid
      ensures jid !in jobs ==> out.status == Error && out.error == Some(NotFoundMessage)
      ensures jid !in jobs ==> out.detail == None && out.downloads == None
      ensures jid in jobs ==>
        out.status == jobs[jid].status && out.detail == jobs[jid].detail &&
        out.downloads == jobs[jid].downloads && out.error == jobs[jid].error
      ensures out.status == Done ==> out.downloads.Some? && out.downloads.value.Keys == StemNames && out.error == None
      ensures out.status == Error ==> out.downloads == None && out.error.Some? && |out.error.value| <= ErrorLimit
      ensures out.status in {Queued, Running} ==> out.downloads == None && out.error == None
    {
      if jid !in jobs then JobOut(jid, Error, None, None, Some(NotFoundMessage))
      else
        assert JobOk(publicBase, jid, jobs[jid], history[jid]);
        var j := jobs[jid];
        JobOut(jid, j.status, j.detail, j.downloads, j.error)
    }

    /**
     * The first step of the worker: the job is marked running, with its
     * progress note, before anything else happens; the worker is no longer
     * pending and no pending worker shares its workspace.
     */
    method MarkRunning(jid: string) returns (running: JobRecord)
      requires Valid() && jid in scheduled
      modifies this
      ensures Valid()
      ensures running == Started(QueuedRecord) && jobs == old(jobs)[jid := running]
      ensures history == old(history)[jid := old(history)[jid] + [Running]]
      ensures history[jid] == [Queued, Running]
      ensures scheduled == old(scheduled) - {jid}
      ensures forall j :: j in scheduled ==> scheduled[j].tmpdir != old(scheduled)[jid].tmpdir
      ensures live == old(live) && releaseLog == old(releaseLog)
    {
      ConsistentAfterStart(publicBase, jobs, history, scheduled, live, jid);
      running := Started(jobs[jid]);
      jobs := jobs[jid := running];
      history := history[jid := history[jid] + [Running]];
      scheduled := scheduled - {jid};
    }

    /** Stores the final record of a running job; only that entry changes. */
    method Record(jid: string, final: JobRecord)
      requires Valid() && jid in jobs && jobs[jid].status == Running
      requires final.status in {Done, Error} && WellFormed(final, StemNames)
      requires final.status == Done ==> publicBase.Some? && final.downloads == Some(Downloads(jid, publicBase.value))
      modifies this
      ensures Valid()
      ensures jobs == old(jobs)[jid := final]
      ensures history == old(history)[jid := old(history)[jid] + [final.status]]
      ensures history[jid] == [Queued, Running, final.status]
      ensures scheduled == old(scheduled) && live == old(live) && releaseLog == old(releaseLog)
    {
      ConsistentAfterRecord(publicBase, jobs, history, scheduled, live, jid, final);
      jobs := jobs[jid := final];
      history := history[jid := history[jid] + [final.status]];
    }

    /** The worker's `finally`: removes a workspace no pending worker owns; removal never raises. */
    method Release(tmpdir: string)
      requires Valid() && forall j :: j in scheduled ==> scheduled[j].tmpdir != tmpdir
      modifies this
      ensures Valid()
      ensures live == old(live) - {tmpdir} && releaseLog == old(releaseLog) + [tmpdir]
      ensures jobs == old(jobs) && history == old(history) && scheduled == old(scheduled)
    {
      ConsistentAfterRelease(publicBase, jobs, history, scheduled, live, tmpdir);
      live := live - {tmpdir};
      releaseLog := releaseLog + [tmpdir];
    }

    /**
     * The background worker for `jid`: marks the job running, makes the
     * output directory, runs the engine, publishes the stems, records the
     * outcome, and in every case releases the workspace once.
     */
    method Run(jid: string, inpath: string, tmpdir: string,
               mkdirFault: Option<string>, engine: EngineOutcome, outcomes: seq<UploadOutcome>)
      returns (attempted: seq<Upload>)
      requires Valid() && jid in scheduled && scheduled[jid] == Launch(inpath, tmpdir)
      requires |outcomes| == |Stems|
      modifies this
      ensures Valid()
      ensures jobs == old(jobs)[jid := Finish(Started(QueuedRecord), RunResult(jid, publicBase, mkdirFault, engine, outcomes))]
      ensures jobs[jid].status in {Done, Error}
      ensures history == old(history)[jid := [Queued, Running, jobs[jid].status]]
      ensures scheduled == old(scheduled) - {jid}
      ensures live == old(live) - {tmpdir}
      ensures releaseLog == old(releaseLog) + [tmpdir]
      ensures mkdirFault.None? && engine == EngineSucceeded ==>
                attempted == Attempted(jid, StemsDir(tmpdir, inpath), publicBase, outcomes)
      ensures mkdirFault.Some? || engine != EngineSucceeded ==> attempted == []
    {
      ghost var jobs0, history0 := jobs, history;
      var running := MarkRunning(jid);
      var final;
      final, attempted := AttemptJob(jid, running, inpath, tmpdir, publicBase, mkdirFault, engine, outcomes);
      ghost var t := RunResult(jid, publicBase, mkdirFault, engine, outcomes);
      FinishWellFormed(t, StemNames);
      RunResultCases(jid, publicBase, mkdirFault, engine, outcomes);
      Record(jid, final);
      Release(tmpdir);
      UpdateTwice(jobs0, jid, running, final);
      UpdateTwice(history0, jid, history0[jid] + [Running], [Queued, Running, final.status]);
    }
  }
}
