# Stem extractor job service: a verified model of the job lifecycle

The service accepts an audio upload, creates a job under a fresh id and
answers status queries about it. In the background, a worker runs the
`htdemucs_ft` separation model on the upload and publishes the four stems
(vocals, drums, bass, other) to an object store. It then records the public
URLs, or an error, in the in-memory registry `JOBS`. This project models
that job lifecycle in Dafny and proves what each step promises.

- `wrappers.dfy` (`Wrappers`): `Option` and `Result`.
- `paths.dfy` (`Paths`): the POSIX path and string helpers the worker relies on:
  - `str.rfind`, `os.path.join`, `os.path.basename`;
  - the root half of `os.path.splitext`;
  - `str.rstrip` with one character.
- `jobs.dfy` (`Jobs`):
  - the record stored per job and the answer to a status query;
  - the statuses and their wire spelling;
  - the two writes the worker makes to a record (running, then done or error);
  - the fields that belong with each status;
  - the 300-character cut of exception text.
- `publisher.dfy` (`Publisher`):
  - object keys `stems/<jid>/<stem>.wav` and public URLs `rstrip(base, '/') + "/" + key`;
  - the download map of a finished job;
  - the upload loop. It goes through the stems in order, stops at the first step that raises, and hands the map back only when all four succeed. It is a `while` loop proved against the recursive specification `Publish`/`Attempted`.
- `orchestrator.dfy` (`Orchestrator`):
  - the stems directory `<tmpdir>/out/htdemucs_ft/<base>`;
  - the classification of how a worker's attempt ends;
  - the class `JobService`. It holds `jobs` (the registry) and ghost bookkeeping:
    - the status history of every job;
    - the workers submitted but not yet started;
    - the workspaces that exist;
    - the log of workspace releases.
  - its methods `CreateJob`, `GetJob` and `Run`. `Run` is made of three state steps, `MarkRunning`, `Record` and `Release`, with the attempt itself (`AttemptJob`) between the first two.

The class invariant `Valid()` says several things:
- every stored record has the fields its status calls for;
- each job's history is a prefix of queued, running, done or error, and ends in its current status;
- a done job holds exactly its own four public URLs;
- every pending worker belongs to a still-queued job and owns a live workspace that no other pending worker owns.

Every state step keeps this invariant. The external world enters as
parameters:
- the fresh id and workspace name;
- which submission step failed;
- whether making the output directory failed;
- how the engine exited;
- what each upload call did.

## Model

| member | source | states |
|---|---|---|
| Paths.RFind | main.py:63 | the index of the last occurrence of the character, or -1; nothing after it is that character |
| Paths.JoinShape | main.py:62-64 | `os.path.join`: the second path ends the result; an absolute second path is the whole result; a relative one follows the first path, with exactly one separator between them when the first is non-empty |
| Paths.Basename | main.py:63 | the result has no separator, is a suffix of the path, and is the whole path or follows a separator |
| Paths.SplitExtRootPrefix | main.py:63 | the root returned by `os.path.splitext` is a prefix of the path |
| Paths.SplitExtRootCases | main.py:63 | a cut is made exactly at the last dot of the last component, when a non-dot character precedes it there; otherwise the component has no dot or only leading dots |
| Paths.SplitExtRootNoSeparator | main.py:63-64 | the root of a base name contains no separator, so the stems directory is one level below the model directory |
| Paths.RStrip | main.py:71 | the result is a prefix of the input, does not end in the character, and only that character was removed |
| Jobs.StatusText | main.py:38 | each status has a wire word, and that word parses back to the same status |
| Jobs.ParseStatus | main.py:30 | exactly the four status words parse |
| Jobs.Truncate | main.py:76 | `str(e)[:300]`: a prefix of the text, of length min(len, 300) |
| Jobs.Started | main.py:56 | the worker's first write: status running with the progress note; downloads and error untouched |
| Jobs.Finish | main.py:72-76 | the worker's last write: done with the downloads, or error with the message; the progress note is kept, not cleared |
| Jobs.FinishWellFormed | main.py:56-76 | a queued record that is started and then finished with any storable outcome is a well-formed done or error record |
| Jobs.LifecycleMonotone | main.py:54-76 | along a lifecycle prefix, statuses strictly advance and a terminal status is never followed by another |
| Publisher.ParseKey | main.py:69 | a parsed key is rebuilt exactly by `stems/<jid>/<stem>.wav` from its parts |
| Publisher.ParseObjectKey | main.py:69 | the object key of a job and a separator-free stem parses back to that job and stem |
| Publisher.StemNamesListed | main.py:67 | the set of stem names holds exactly the four stems of the upload order |
| Publisher.Downloads | main.py:66-72 | a finished job's download map has exactly the keys vocals, drums, bass, other |
| Publisher.CollectedByStem | main.py:66-71 | after the first n stems the loop's map holds exactly those stems, each mapped to the public URL of its own object key |
| Publisher.DownloadsByStem | main.py:71 | each download entry equals `rstrip(base, '/') + "/" + "stems/<jid>/<stem>.wav"` |
| Publisher.DownloadsIdentifyJob | main.py:69-71 | two download URLs are equal only for the same job and the same stem |
| Publisher.RequestsInOrder | main.py:67-70 | the j-th upload request is for the j-th stem in the order vocals, drums, bass, other, with the stem file path, the key and `audio/wav` |
| Publisher.RequestsPrefix | main.py:67-70 | the requests for fewer stems are a prefix of the requests for more |
| Publisher.FirstFailure | main.py:67-71 | the first publication step that raises, if any: every earlier step went through |
| Publisher.Publish | main.py:66-72 | publishing succeeds iff the public base is set and all four uploads succeed, and then yields the job's download map; otherwise the error is exactly what the first raising step raised: that upload's own error, or the missing-base error right after a successful upload, with every earlier step clean |
| Publisher.PublishWithoutBase | main.py:70-71 | without a public base, publishing fails at the first stem: with its upload's error, or else with `'NoneType' object has no attribute 'rstrip'` |
| Publisher.AttemptedSteps | main.py:67-71 | the uploads attempted are a non-empty prefix of the four requests; all but the last went through; a short prefix ends at the step that raised; all four went through iff publishing succeeds |
| Publisher.PublishStems | main.py:66-72 | the loop returns exactly `Publish`'s result and attempts exactly `Attempted`'s uploads, in order, stopping at the first failure |
| Orchestrator.StemsDirLayout | main.py:57-64 | the stems of input `inpath` lie in `<tmpdir>/out/htdemucs_ft/<basename of inpath without extension>` |
| Orchestrator.OutputLayout | main.py:62-64 | joining the output directory, the model name and a plain name inserts one separator before each |
| Orchestrator.RunResult | main.py:55-76 | every outcome of an attempt is storable: all four download names, or a message of at most 300 characters |
| Orchestrator.RunResultCases | main.py:55-76 | the attempt completes iff the directory was made, the engine succeeded, the base is set and all uploads succeeded, and then with the job's own URLs; an engine exit failure gives `Processing failed (model)`; anything else raised gives its text cut to 300 |
| Orchestrator.AttemptJob | main.py:57-76 | the `try` body and its two handlers turn the running record into `Finish(running, RunResult(..))`; the uploads are attempted only after the engine succeeded, exactly as `Attempted` says |
| Orchestrator.ConsistentAfterCreate | main.py:37-43 | inserting a fresh queued job, with or without a worker on a fresh workspace, keeps the invariant |
| Orchestrator.ConsistentAfterStart | main.py:56 | marking a pending job running keeps the invariant, and frees its workspace from every pending worker |
| Orchestrator.ConsistentAfterRecord | main.py:72-76 | storing a well-formed terminal record for a running job keeps the invariant |
| Orchestrator.ConsistentAfterRelease | main.py:77-78 | removing a workspace no pending worker owns keeps the invariant |
| Orchestrator.JobService.constructor | main.py:26 | the registry starts empty, with no workspaces and no pending workers |
| Orchestrator.JobService.CreateJob | main.py:36-44 | inserts the queued record with no detail, downloads or error under the fresh id, and answers `queued` with `Waiting for worker`; the worker is scheduled only when the workspace was made and the input written; on a failure after the insert the job stays queued and a made workspace stays live |
| Orchestrator.JobService.GetJob | main.py:47-52 | an unknown id gives status error with `Not found`; a known id gives exactly the stored fields; a done answer has all four downloads, an error answer a bounded message, and the registry is only read |
| Orchestrator.JobService.MarkRunning | main.py:56 | the job becomes running with the progress note before anything else; only its entry changes, and its history grows from queued by appending running |
| Orchestrator.JobService.Record | main.py:72-76 | the terminal record replaces the running one; only that entry changes, and the job's history is the old one with the terminal status appended (queued, running, terminal) |
| Orchestrator.JobService.Release | main.py:77-78 | the workspace is removed and logged once; the registry is untouched |
| Orchestrator.JobService.Run | main.py:54-78 | the job ends done or error with `Finish(Started(queued), RunResult(..))`; every other entry is unchanged; the history is queued, running, then the terminal status; the workspace is released exactly once on every path; the uploads attempted are exactly `Attempted`'s, or none when the engine or the directory failed |

## Left out

- The FastAPI application, CORS, routing and the pydantic serialisation of `JobOut` are not modelled; `JobOut` is a datatype and statuses have `StatusText` for their wire spelling.
- Environment configuration, the bucket name and the boto3 client are not modelled. The public base URL is a constant `Option<string>` of the service, and each upload call is an abstract outcome, `Uploaded` or `UploadFailed(message)`.
- The `demucs` process is an abstract `EngineOutcome`: success, a non-zero exit (`CalledProcessError`), or any other exception with its text. A run that succeeds but leaves no stem files shows up as a failing upload.
- Filesystem effects are not modelled: `mkdtemp`, `makedirs`, writing the upload, `rmtree`. The workspaces that exist are the ghost set `live`, and releases are the ghost log `releaseLog`. A failure to make the output directory is a parameter of `Run`. Removal never fails, as `ignore_errors=True` promises.
- `asyncio` scheduling and concurrency between jobs are not modelled. Each `Run` is one sequential execution; the ghost map `scheduled` stands for the coroutine `create_task` submits.
- Orchestrator.JobService.CreateJob: id and workspace freshness are preconditions. `uuid.uuid4` and `mkdtemp` are taken to return an unused id and a new directory (`jid !in jobs`, `tmpdir !in live`).
- Orchestrator.JobService.Run: requires a pending worker with matching arguments. It is called only through the coroutine `create_task` schedules, so a missing or already-started job cannot reach it.
- The `job_<jid>_` prefix of the workspace name is not modelled; workspace names are opaque strings.
- The bytes of the upload are not modelled; only whether writing them failed.
- Exceptions that are not `Exception` (cancellation, `KeyboardInterrupt`) are not modelled.

## Notes on the code's behaviour

The model follows the code where it differs from the service's documented
intent:
- The progress note `Separating stems…` is not cleared when a job finishes. Done and error records keep it (`Jobs.Finish`, `Jobs.WellFormed`).
- The client's filename is joined into the workspace unchecked. An absolute filename replaces the workspace path entirely (`Paths.JoinShape`), and no traversal check is modelled because none exists.
- If writing the upload fails after the queued record was inserted, the job stays queued for good, no worker is scheduled, and the workspace is never removed (`Orchestrator.JobService.CreateJob`).
- Without a configured public base, the first upload still happens. The error `'NoneType' object has no attribute 'rstrip'` follows, is caught as a generic failure and is stored truncated (`Publisher.Publish`).
