/** `_background_process` of routes.py: the background task that transcribes one
    recording, stores the transcript and reports the job's progress in the
    job table. Cancel requests are served by other threads while the background task
    runs; the model fixes the points at which one may land. */
module Pipeline {
  import opened Wrappers
  import opened Text
  import opened GcsNames
  import opened GcsStorage
  import opened Whisper
  import opened Registry

  /** The model size the background task asks for. */
  const Model: string := "medium"
  /** The window length the background task asks for, in seconds. */
  const ChunkSeconds: nat := 30

  /** Where a concurrent `cancel_job_route` request can fall: before the
      task starts, while the recording downloads, while it is transcribed,
      between the second cancel check and `set_job_status(job_id, "done")`,
      and after the background task has finished. */
  datatype Moment = BeforeStart | DuringDownload | DuringTranscription | DuringUpload | AfterFinish

  /** What the calls of one run of the background task give: whether the job is in
      the table when it starts, whether the final transcript is already
      stored, the download, the transcription, and whether the
      notification is published. */
  datatype Run = Run(known: bool, stored: bool, download: Result<string, Exception>,
                     transcript: Result<string, Exception>, published: bool)

  // ---------------------------------------------------------------------------
  // The background task as a function of what its calls return

  /** A cancel request served at `m`, on a job the table holds. */
  function Cancels(m: Moment, cancels: set<Moment>): seq<Status> {
    if m in cancels then [Cancelled] else []
  }

  /** The statuses written from the `try` block on: a failed download ends
      in `error`; a cancel seen by the first cancel check ends the background task
      without a further write. */
  function TryWrites(run: Run, cancels: set<Moment>): seq<Status> {
    if run.download.Err? then Cancels(DuringDownload, cancels) + [Error]
    else if DuringDownload in cancels then Cancels(DuringDownload, cancels)
    else Cancels(DuringDownload, cancels) + TranscribeWrites(run, cancels)
  }

  /** The statuses written from the transcription on: a failed
      transcription ends in `error`; a cancel seen by the second cancel check
      ends the background task without a further write. */
  function TranscribeWrites(run: Run, cancels: set<Moment>): seq<Status> {
    if run.transcript.Err? then Cancels(DuringTranscription, cancels) + [Error]
    else if DuringTranscription in cancels then Cancels(DuringTranscription, cancels)
    else Cancels(DuringTranscription, cancels) + FinishWrites(run, cancels)
  }

  /** The statuses written from the upload on: `done`, then `error` when the
      notification fails. */
  function FinishWrites(run: Run, cancels: set<Moment>): seq<Status> {
    if run.published then Cancels(DuringUpload, cancels) + [Done]
    else Cancels(DuringUpload, cancels) + [Done] + [Error]
  }

  /** The statuses the background task itself writes: a stored transcript
      short-circuits to `done`, and its notification is outside the `try`,
      so its failure writes nothing. */
  function TaskWrites(run: Run, cancels: set<Moment>): seq<Status> {
    if run.stored then [Done] else [Running] + TryWrites(run, cancels)
  }

  /** Every status written to the job during and after one run, in order. */
  function Writes(run: Run, cancels: set<Moment>): seq<Status> {
    (if run.known then Cancels(BeforeStart, cancels) else [])
    + TaskWrites(run, cancels)
    + Cancels(AfterFinish, cancels)
  }

  /** The job table after `writes` went to job `jobId`: the last one wins. */
  function Apply(jobs: map<string, Status>, jobId: string, writes: seq<Status>): map<string, Status> {
    if writes == [] then jobs else jobs[jobId := writes[|writes| - 1]]
  }

  /** The run reaches `upload_transcript`. */
  predicate Uploads(run: Run, cancels: set<Moment>) {
    !run.stored && run.download.Ok? && DuringDownload !in cancels
    && run.transcript.Ok? && DuringTranscription !in cancels
  }

  /** The bucket after a run: untouched when the transcript was stored, the
      download failed or a cancel stopped the background task first; otherwise the
      transcription's chunk uploads and auto-merge, followed by the final
      upload. */
  ghost function BucketAfter(blobs: map<string, string>, bucketName: string, recordingName: string,
                             sessionId: string, run: Run, samples: nat, rate: nat, recognize: Recognizer,
                             failing: set<string>, cancels: set<Moment>): map<string, string>
  {
    if run.stored || run.download.Err? || DuringDownload in cancels then blobs
    else
      StoredAfter(TranscribeBucket(blobs, bucketName, run.download.value, samples, rate, ChunkSeconds, Model,
                                   recognize, Some(sessionId), Some(recordingName), failing),
                  recordingName, run, cancels)
  }

  /** After the transcription: unless it failed or a cancel stopped the background task,
      the transcript replaces whatever the final transcript blob held. */
  function StoredAfter(blobs: map<string, string>, recordingName: string, run: Run, cancels: set<Moment>)
    : map<string, string>
  {
    if run.transcript.Ok? && DuringTranscription !in cancels
    then blobs[FinalTranscriptBlob(recordingName) := run.transcript.value]
    else blobs
  }

  /** The transcript name a run publishes, when the publication goes through. */
  function Notice(run: Run, recordingName: string, cancels: set<Moment>): Option<string> {
    if !run.published then None
    else if run.stored then Some(recordingName)
    else if Uploads(run, cancels) then Some(NotificationName(recordingName))
    else None
  }

  /** The exception that escapes the background task: only the notification of the
      short-circuit path, which no `try` covers. */
  function Raised(run: Run): Option<Exception> {
    if run.stored && !run.published then Some(PublishFailed) else None
  }

  // ---------------------------------------------------------------------------
  // The background task

  lemma ApplyAppend(jobs: map<string, Status>, jobId: string, a: seq<Status>, b: seq<Status>)
    ensures Apply(Apply(jobs, jobId, a), jobId, b) == Apply(jobs, jobId, a + b)
  {
    if b != [] {
      assert (a + b)[|a + b| - 1] == b[|b| - 1];
    } else {
      assert a + b == a;
    }
  }

  /** A cancel request at `m`, served by `cancel_job_route`, which writes only
      for a job the table holds. */
  method ServeCancel(registry: Jobs, jobId: string, m: Moment, cancels: set<Moment>) returns (written: seq<Status>)
    modifies registry
    ensures written == if jobId in old(registry.jobs) then Cancels(m, cancels) else []
    ensures registry.jobs == Apply(old(registry.jobs), jobId, written)
    ensures registry.sessions == old(registry.sessions)
  {
    written := [];
    if m in cancels {
      var response := registry.CancelJobRoute(jobId);
      if response.code == 200 {
        written := [Cancelled];
      }
    }
  }

  /** `set_job_status` as one more write of the run. */
  method Write(registry: Jobs, jobId: string, status: Status, ghost jobs0: map<string, Status>,
               writes: seq<Status>) returns (writes': seq<Status>)
    requires registry.jobs == Apply(jobs0, jobId, writes)
    modifies registry
    ensures writes' == writes + [status]
    ensures registry.jobs == Apply(jobs0, jobId, writes')
    ensures registry.sessions == old(registry.sessions)
  {
    registry.SetJobStatus(jobId, status);
    writes' := writes + [status];
    ApplyAppend(jobs0, jobId, writes, [status]);
  }

  /** The `try` block, entered with the job `running`. */
  method RunTry(registry: Jobs, bucket: Bucket, recordingName: string, jobId: string, sessionId: string,
                samples: nat, rate: nat, recognize: Recognizer, failing: set<string>, publishFails: bool,
                cancels: set<Moment>, ghost run: Run)
    returns (written: seq<Status>, notice: Option<string>)
    requires !run.stored && run.published == !publishFails
    requires run.download == bucket.DownloadAudio(recordingName)
    requires run.transcript == TranscribeResult(samples, rate, ChunkSeconds, Model, recognize)
    requires jobId in registry.jobs && registry.jobs[jobId] == Running
    modifies registry, bucket
    ensures written == TryWrites(run, cancels)
    ensures registry.jobs == Apply(old(registry.jobs), jobId, written)
    ensures registry.sessions == old(registry.sessions)
    ensures bucket.blobs == BucketAfter(old(bucket.blobs), bucket.name, recordingName, sessionId, run,
                                        samples, rate, recognize, failing, cancels)
    ensures notice == Notice(run, recordingName, cancels)
  {
    ghost var jobs0 := registry.jobs;
    var before := ServeCancel(registry, jobId, DuringDownload, cancels);
    var download := bucket.DownloadAudio(recordingName);
    written, notice := Downloaded(registry, bucket, download, recordingName, jobId, sessionId, samples, rate,
                                  recognize, failing, publishFails, cancels, run, jobs0, before);
  }

  /** The `try` block after `download_audio` returned or raised. */
  method Downloaded(registry: Jobs, bucket: Bucket, download: Result<string, Exception>, recordingName: string,
                    jobId: string, sessionId: string, samples: nat, rate: nat, recognize: Recognizer,
                    failing: set<string>, publishFails: bool, cancels: set<Moment>, ghost run: Run,
                    ghost jobs0: map<string, Status>, before: seq<Status>)
    returns (written: seq<Status>, notice: Option<string>)
    requires !run.stored && run.published == !publishFails && run.download == download
    requires run.transcript == TranscribeResult(samples, rate, ChunkSeconds, Model, recognize)
    requires before == Cancels(DuringDownload, cancels)
    requires registry.jobs == Apply(jobs0, jobId, before)
    requires jobId in registry.jobs
    requires registry.jobs[jobId] == if DuringDownload in cancels then Cancelled else Running
    modifies registry, bucket
    ensures written == TryWrites(run, cancels)
    ensures registry.jobs == Apply(jobs0, jobId, written)
    ensures registry.sessions == old(registry.sessions)
    ensures bucket.blobs == BucketAfter(old(bucket.blobs), bucket.name, recordingName, sessionId, run,
                                        samples, rate, recognize, failing, cancels)
    ensures notice == Notice(run, recordingName, cancels)
  {
    if download.Err? {
      written := Write(registry, jobId, Error, jobs0, before);
      notice := None;
    } else {
      written, notice := Proceed(registry, bucket, download.value, recordingName, jobId, sessionId, samples,
                                 rate, recognize, failing, publishFails, cancels, run, jobs0, before);
    }
  }

  /** The first cancel check, then the transcription. */
  method Proceed(registry: Jobs, bucket: Bucket, localAudio: string, recordingName: string,
                 jobId: string, sessionId: string, samples: nat, rate: nat, recognize: Recognizer,
                 failing: set<string>, publishFails: bool, cancels: set<Moment>, ghost run: Run,
                 ghost jobs0: map<string, Status>, before: seq<Status>)
    returns (written: seq<Status>, notice: Option<string>)
    requires !run.stored && run.published == !publishFails && run.download == Ok(localAudio)
    requires run.transcript == TranscribeResult(samples, rate, ChunkSeconds, Model, recognize)
    requires before == Cancels(DuringDownload, cancels)
    requires registry.jobs == Apply(jobs0, jobId, before)
    requires jobId in registry.jobs
    requires registry.jobs[jobId] == if DuringDownload in cancels then Cancelled else Running
    modifies registry, bucket
    ensures written == TryWrites(run, cancels)
    ensures registry.jobs == Apply(jobs0, jobId, written)
    ensures registry.sessions == old(registry.sessions)
    ensures bucket.blobs == BucketAfter(old(bucket.blobs), bucket.name, recordingName, sessionId, run,
                                        samples, rate, recognize, failing, cancels)
    ensures notice == Notice(run, recordingName, cancels)
  {
    written, notice := before, None;
    if registry.GetJobStatus(jobId) == Some(Cancelled) {
      return;
    }
    var rest;
    rest, notice := TranscribePhase(registry, bucket, localAudio, recordingName, jobId, sessionId,
                                    samples, rate, recognize, failing, publishFails, cancels, run);
    ApplyAppend(jobs0, jobId, written, rest);
    written := written + rest;
  }

  /** From `transcribe_audio_in_chunks` to the end of the `try` block. */
  method TranscribePhase(registry: Jobs, bucket: Bucket, localAudio: string, recordingName: string,
                         jobId: string, sessionId: string, samples: nat, rate: nat, recognize: Recognizer,
                         failing: set<string>, publishFails: bool, cancels: set<Moment>, ghost run: Run)
    returns (written: seq<Status>, notice: Option<string>)
    requires run.published == !publishFails
    requires run.transcript == TranscribeResult(samples, rate, ChunkSeconds, Model, recognize)
    requires jobId in registry.jobs && registry.jobs[jobId] == Running
    modifies registry, bucket
    ensures written == TranscribeWrites(run, cancels)
    ensures registry.jobs == Apply(old(registry.jobs), jobId, written)
    ensures registry.sessions == old(registry.sessions)
    ensures bucket.blobs == StoredAfter(TranscribeBucket(old(bucket.blobs), bucket.name, localAudio, samples,
                                                         rate, ChunkSeconds, Model, recognize, Some(sessionId),
                                                         Some(recordingName), failing),
                                        recordingName, run, cancels)
    ensures notice == if run.transcript.Ok? && DuringTranscription !in cancels && run.published
                      then Some(NotificationName(recordingName)) else None
  {
    ghost var jobs0 := registry.jobs;
    notice := None;
    var transcript, _, _ := TranscribeAudioInChunks(bucket, localAudio, samples, rate, Some(Model), 0,
                                                    ChunkSeconds, Some(sessionId), Some(recordingName),
                                                    recognize, failing);
    written := ServeCancel(registry, jobId, DuringTranscription, cancels);
    if transcript.Err? {
      written := Write(registry, jobId, Error, jobs0, written);
      return;
    }
    if registry.GetJobStatus(jobId) == Some(Cancelled) {
      return;
    }
    var rest;
    rest, notice := FinishPhase(registry, bucket, localAudio, transcript.value, recordingName, jobId,
                                publishFails, cancels, run);
    ApplyAppend(jobs0, jobId, written, rest);
    written := written + rest;
  }

  /** `upload_transcript`, `set_job_status(job_id, "done")` and the
      notification, with a cancel that lands just before `done`. */
  method FinishPhase(registry: Jobs, bucket: Bucket, localAudio: string, transcript: string,
                     recordingName: string, jobId: string, publishFails: bool, cancels: set<Moment>,
                     ghost run: Run)
    returns (written: seq<Status>, notice: Option<string>)
    requires run.published == !publishFails
    requires jobId in registry.jobs
    modifies registry, bucket
    ensures written == FinishWrites(run, cancels)
    ensures registry.jobs == Apply(old(registry.jobs), jobId, written)
    ensures registry.sessions == old(registry.sessions)
    ensures bucket.blobs == old(bucket.blobs)[FinalTranscriptBlob(recordingName) := transcript]
    ensures notice == if publishFails then None else Some(NotificationName(recordingName))
  {
    ghost var jobs0 := registry.jobs;
    notice := None;
    written := ServeCancel(registry, jobId, DuringUpload, cancels);
    var _ := UploadTranscript(bucket, localAudio, transcript, recordingName);
    written := Write(registry, jobId, Done, jobs0, written);
    // publish_to_pubsub(form_id, f"{os.path.splitext(recording_name)[0]}.txt")
    if publishFails {
      written := Write(registry, jobId, Error, jobs0, written);
    } else {
      notice := Some(NotificationName(recordingName));
    }
  }

  /** The body of the background task once a cancel before its start is served: the
      short-circuit on a stored transcript, or `running` and the `try` block. */
  method Task(registry: Jobs, bucket: Bucket, recordingName: string, jobId: string, sessionId: string,
              samples: nat, rate: nat, recognize: Recognizer, failing: set<string>, publishFails: bool,
              cancels: set<Moment>, ghost run: Run)
    returns (written: seq<Status>, notice: Option<string>, raised: Option<Exception>)
    requires run.stored == bucket.TranscriptExists(recordingName)
    requires run.download == bucket.DownloadAudio(recordingName)
    requires run.transcript == TranscribeResult(samples, rate, ChunkSeconds, Model, recognize)
    requires run.published == !publishFails
    modifies registry, bucket
    ensures written == TaskWrites(run, cancels)
    ensures registry.jobs == Apply(old(registry.jobs), jobId, written)
    ensures registry.sessions == old(registry.sessions)
    ensures bucket.blobs == BucketAfter(old(bucket.blobs), bucket.name, recordingName, sessionId, run,
                                        samples, rate, recognize, failing, cancels)
    ensures notice == Notice(run, recordingName, cancels)
    ensures raised == Raised(run)
  {
    if bucket.TranscriptExists(recordingName) {
      StoredTranscriptSkipsWork(bucket.blobs, bucket.name, recordingName, sessionId, run, samples, rate,
                                recognize, failing, cancels);
      written, notice, raised := ShortCircuit(registry, recordingName, jobId, publishFails, cancels, run);
    } else {
      written, notice := Start(registry, bucket, recordingName, jobId, sessionId, samples, rate, recognize,
                               failing, publishFails, cancels, run);
      raised := None;
      assert raised == Raised(run);
    }
  }

  /** A stored transcript: `done`, and the notification of the recording's
      own name, outside the `try`. */
  method ShortCircuit(registry: Jobs, recordingName: string, jobId: string, publishFails: bool,
                      cancels: set<Moment>, ghost run: Run)
    returns (written: seq<Status>, notice: Option<string>, raised: Option<Exception>)
    requires run.stored && run.published == !publishFails
    modifies registry
    ensures written == TaskWrites(run, cancels) == [Done]
    ensures registry.jobs == Apply(old(registry.jobs), jobId, written)
    ensures registry.sessions == old(registry.sessions)
    ensures notice == Notice(run, recordingName, cancels)
    ensures notice == if publishFails then None else Some(recordingName)
    ensures raised == Raised(run)
    ensures raised == if publishFails then Some(PublishFailed) else None
  {
    written := Write(registry, jobId, Done, registry.jobs, []);
    assert written == [Done];
    // publish_to_pubsub(form_id, recording_name)
    if publishFails {
      notice, raised := None, Some(PublishFailed);
    } else {
      notice, raised := Some(recordingName), None;
    }
  }

  /** `set_job_status(job_id, "running")` and the `try` block. */
  method Start(registry: Jobs, bucket: Bucket, recordingName: string, jobId: string, sessionId: string,
               samples: nat, rate: nat, recognize: Recognizer, failing: set<string>, publishFails: bool,
               cancels: set<Moment>, ghost run: Run)
    returns (written: seq<Status>, notice: Option<string>)
    requires !run.stored && run.published == !publishFails
    requires run.download == bucket.DownloadAudio(recordingName)
    requires run.transcript == TranscribeResult(samples, rate, ChunkSeconds, Model, recognize)
    modifies registry, bucket
    ensures written == TaskWrites(run, cancels) == [Running] + TryWrites(run, cancels)
    ensures registry.jobs == Apply(old(registry.jobs), jobId, written)
    ensures registry.sessions == old(registry.sessions)
    ensures bucket.blobs == BucketAfter(old(bucket.blobs), bucket.name, recordingName, sessionId, run,
                                        samples, rate, recognize, failing, cancels)
    ensures notice == Notice(run, recordingName, cancels)
  {
    ghost var jobs0 := registry.jobs;
    written := Write(registry, jobId, Running, jobs0, []);
    assert written == [Running];
    var rest;
    rest, notice := RunTry(registry, bucket, recordingName, jobId, sessionId, samples, rate, recognize,
                           failing, publishFails, cancels, run);
    ApplyAppend(jobs0, jobId, written, rest);
    written := written + rest;
  }

  /** `_background_process(form_id, audio_id, recording_name, job_id,
      session_id)` run to its end, with the cancel requests `cancels`
      served where they fall. `samples` and `rate` are the decoded recording,
      `recognize` the speech model, `failing` the chunk blobs whose deletion
      fails during the auto-merge, `publishFails` whether publishing the
      notification raises. */
  method BackgroundProcess(registry: Jobs, bucket: Bucket, formId: string, recordingName: string, jobId: string,
                           sessionId: string, samples: nat, rate: nat, recognize: Recognizer,
                           failing: set<string>, publishFails: bool, cancels: set<Moment>)
    returns (writes: seq<Status>, notice: Option<string>, raised: Option<Exception>)
    modifies registry, bucket
    ensures var run := Run(jobId in old(registry.jobs), old(bucket.TranscriptExists(recordingName)),
                           old(bucket.DownloadAudio(recordingName)),
                           TranscribeResult(samples, rate, ChunkSeconds, Model, recognize), !publishFails);
      && writes == Writes(run, cancels)
      && registry.jobs == Apply(old(registry.jobs), jobId, writes)
      && bucket.blobs == BucketAfter(old(bucket.blobs), bucket.name, recordingName, sessionId, run,
                                     samples, rate, recognize, failing, cancels)
      && notice == Notice(run, recordingName, cancels)
      && raised == Raised(run)
    ensures registry.sessions == old(registry.sessions)
  {
    ghost var jobs0 := registry.jobs;
    ghost var run := Run(jobId in registry.jobs, bucket.TranscriptExists(recordingName),
                         bucket.DownloadAudio(recordingName),
                         TranscribeResult(samples, rate, ChunkSeconds, Model, recognize), !publishFails);
    var before := ServeCancel(registry, jobId, BeforeStart, cancels);
    var task;
    task, notice, raised := Task(registry, bucket, recordingName, jobId, sessionId, samples, rate, recognize,
                                 failing, publishFails, cancels, run);
    ApplyAppend(jobs0, jobId, before, task);
    writes := before + task;
    var after := ServeCancel(registry, jobId, AfterFinish, cancels);
    ApplyAppend(jobs0, jobId, writes, after);
    writes := writes + after;
  }

  // ---------------------------------------------------------------------------
  // What a run writes

  function Last(s: seq<Status>): Status
    requires s != []
  {
    s[|s| - 1]
  }

  /** Every run leaves the job in a terminal status: the feed of
      `process_audio` ends for every job the background task has run. */
  lemma FinalStatusIsTerminal(run: Run, cancels: set<Moment>)
    ensures Writes(run, cancels) != []
    ensures Terminal(Some(Last(Writes(run, cancels))))
  {
    var before := if run.known then Cancels(BeforeStart, cancels) else [];
    var task := TaskWrites(run, cancels);
    assert task != [] && Terminal(Some(Last(task))) by {
      if !run.stored {
        assert Last(task) == Last(TryWrites(run, cancels));
        if run.download.Ok? && DuringDownload !in cancels {
          assert Last(TryWrites(run, cancels)) == Last(TranscribeWrites(run, cancels));
          if run.transcript.Ok? && DuringTranscription !in cancels {
            assert Last(TranscribeWrites(run, cancels)) == Last(FinishWrites(run, cancels));
          }
        }
      }
    }
    LastOfAppend(before + task, Cancels(AfterFinish, cancels));
    LastOfAppend(before, task);
  }

  lemma LastOfAppend(a: seq<Status>, b: seq<Status>)
    requires a + b != []
    ensures b != [] ==> Last(a + b) == Last(b)
    ensures b == [] ==> Last(a + b) == Last(a)
  {
    if b == [] {
      assert a + b == a;
    }
  }

  /** With nothing in the way the job goes `running`, then `done`. */
  lemma HappyPath(run: Run)
    requires !run.stored && run.download.Ok? && run.transcript.Ok? && run.published
    ensures Writes(run, {}) == [Running, Done]
  {
    assert TryWrites(run, {}) == [Done];
  }

  /** A stored transcript skips the download and the transcription: the job
      never goes `running`, goes `done`, and the bucket is untouched. */
  lemma StoredTranscriptSkipsWork(blobs: map<string, string>, bucketName: string, recordingName: string,
                                  sessionId: string, run: Run, samples: nat, rate: nat, recognize: Recognizer,
                                  failing: set<string>, cancels: set<Moment>)
    requires run.stored
    ensures Running !in Writes(run, cancels) && Done in Writes(run, cancels)
    ensures BucketAfter(blobs, bucketName, recordingName, sessionId, run, samples, rate, recognize,
                        failing, cancels) == blobs
  {
    var before := if run.known then Cancels(BeforeStart, cancels) else [];
    assert Writes(run, cancels) == before + [Done] + Cancels(AfterFinish, cancels);
    assert Writes(run, cancels)[|before|] == Done;
  }

  /** `cancel_job_route` on a job that has not started yet writes
      `cancelled`, and the background task then overwrites it with `running`: the
      cancel is lost and the job ends `done`. */
  lemma PendingCancelIsLost(run: Run)
    requires run.known && !run.stored && run.download.Ok? && run.transcript.Ok? && run.published
    ensures Writes(run, {BeforeStart}) == [Cancelled, Running, Done]
    ensures Last(Writes(run, {BeforeStart})) == Done
  {
    assert TryWrites(run, {BeforeStart}) == [Done];
  }

  /** A cancel that lands while the recording downloads or while it is
      transcribed is seen by the next cancel check: the background task stops there,
      the job stays `cancelled` and never goes `done`. */
  lemma CheckpointCancelHolds(run: Run, cancels: set<Moment>)
    requires !run.stored && run.download.Ok? && AfterFinish !in cancels
    requires DuringDownload in cancels
             || (DuringTranscription in cancels && run.transcript.Ok?)
    ensures Last(Writes(run, cancels)) == Cancelled
    ensures Done !in Writes(run, cancels)
  {
    var before := if run.known then Cancels(BeforeStart, cancels) else [];
    var tail := if DuringDownload in cancels then [Cancelled] else Cancels(DuringDownload, cancels) + [Cancelled];
    assert TryWrites(run, cancels) == tail;
    assert Writes(run, cancels) == before + [Running] + tail;
    LastOfAppend(before + [Running], tail);
  }

  /** A cancel seen at the first check stops the background task before the
      transcription: the bucket is left as it was and nothing is published. */
  lemma CancelDuringDownloadLeavesBucket(blobs: map<string, string>, bucketName: string, recordingName: string,
                                         sessionId: string, run: Run, samples: nat, rate: nat, recognize: Recognizer,
                                         failing: set<string>, cancels: set<Moment>)
    requires !run.stored && DuringDownload in cancels
    ensures BucketAfter(blobs, bucketName, recordingName, sessionId, run, samples, rate, recognize, failing, cancels)
            == blobs
    ensures Notice(run, recordingName, cancels) == None
  {
  }

  /** A cancel seen at the second check skips the final upload: the bucket is
      what the transcription left, chunk uploads and auto-merge included, and
      nothing is published. */
  lemma CancelDuringTranscriptionSkipsUpload(blobs: map<string, string>, bucketName: string, recordingName: string,
                                             sessionId: string, run: Run, samples: nat, rate: nat,
                                             recognize: Recognizer, failing: set<string>, cancels: set<Moment>)
    requires !run.stored && run.download.Ok? && DuringDownload !in cancels && DuringTranscription in cancels
    ensures BucketAfter(blobs, bucketName, recordingName, sessionId, run, samples, rate, recognize, failing, cancels)
            == TranscribeBucket(blobs, bucketName, run.download.value, samples, rate, ChunkSeconds, Model,
                                recognize, Some(sessionId), Some(recordingName), failing)
    ensures Notice(run, recordingName, cancels) == None
  {
  }

  /** The job ends `cancelled`, yet the final transcript blob is not left
      empty: the auto-merge inside `transcribe_audio_in_chunks` already stored
      the merged chunk text under that name before the second cancel check. */
  lemma CancelDuringTranscriptionKeepsAutoMerge(blobs: map<string, string>, bucketName: string, recordingName: string,
                                                sessionId: string, run: Run, samples: nat, rate: nat,
                                                recognize: Recognizer, failing: set<string>, cancels: set<Moment>)
    requires !run.stored && run.download.Ok? && DuringDownload !in cancels && DuringTranscription in cancels
    requires run.download.value != "" && recordingName != "" && sessionId != "" && rate > 0
    requires !StartsWith(FinalTranscriptBlob(recordingName), ChunkPrefix(sessionId))
    ensures var after := BucketAfter(blobs, bucketName, recordingName, sessionId, run, samples, rate, recognize,
                                     failing, cancels);
      FinalTranscriptBlob(recordingName) in after &&
      after[FinalTranscriptBlob(recordingName)]
        == MergedText(SessionChunks(blobs, Some(sessionId), LoopTexts(Model, samples, rate, ChunkSeconds, recognize)),
                      sessionId)
  {
    var chunks := SessionChunks(blobs, Some(sessionId), LoopTexts(Model, samples, rate, ChunkSeconds, recognize));
    MergeUploadsFinalTranscript(chunks, bucketName, sessionId, Some(run.download.value), Some(recordingName), failing);
    CancelDuringTranscriptionSkipsUpload(blobs, bucketName, recordingName, sessionId, run, samples, rate, recognize,
                                         failing, cancels);
  }

  /** A cancel that lands after the second cancel check is overwritten by
      `done`. */
  lemma CancelDuringUploadIsLost(run: Run, cancels: set<Moment>)
    requires Uploads(run, cancels) && run.published
    requires DuringUpload in cancels && AfterFinish !in cancels
    ensures Cancelled in Writes(run, cancels)
    ensures Last(Writes(run, cancels)) == Done
  {
    var before := if run.known then Cancels(BeforeStart, cancels) else [];
    var tail := [Cancelled, Done];
    assert TryWrites(run, cancels) == tail;
    assert Writes(run, cancels) == before + [Running] + tail;
    assert Writes(run, cancels)[|before| + 1] == Cancelled;
    LastOfAppend(before + [Running], tail);
  }

  /** A failed download or transcription leaves the job `error`, unless a
      later cancel overwrites it. */
  lemma FailureEndsInError(run: Run, cancels: set<Moment>)
    requires !run.stored && AfterFinish !in cancels
    requires run.download.Err? || (DuringDownload !in cancels && run.transcript.Err?)
    ensures Last(Writes(run, cancels)) == Error
    ensures Done !in Writes(run, cancels)
  {
    var before := if run.known then Cancels(BeforeStart, cancels) else [];
    var tail;
    if run.download.Err? {
      tail := Cancels(DuringDownload, cancels) + [Error];
    } else {
      tail := Cancels(DuringTranscription, cancels) + [Error];
      assert TryWrites(run, cancels) == Cancels(DuringDownload, cancels) + tail;
    }
    assert Done !in tail;
    assert Writes(run, cancels) == before + [Running] + TryWrites(run, cancels);
    LastOfAppend(before + [Running], TryWrites(run, cancels));
  }

  /** A notification that fails after the upload is caught by the `try`:
      the job goes `done` and then `error`, with the transcript stored. On
      the short-circuit path the same failure escapes the background task and the job
      stays `done`. */
  lemma PublishFailureAfterDone(run: Run)
    requires !run.published && run.download.Ok? && run.transcript.Ok?
    ensures !run.stored ==> Writes(run, {}) == [Running, Done, Error]
    ensures run.stored ==> Writes(run, {}) == [Done] && Raised(run) == Some(PublishFailed)
    ensures Notice(run, "", {}) == None
  {
    if !run.stored {
      assert TryWrites(run, {}) == [Done, Error];
    }
  }

  /** A cancel after the background task finished overwrites whatever it wrote last. */
  lemma CancelAfterFinishWins(run: Run, cancels: set<Moment>)
    requires AfterFinish in cancels
    ensures Last(Writes(run, cancels)) == Cancelled
  {
  }

  /** `done` means the final transcript is in the bucket: it was there
      before, or the run uploaded it. */
  lemma DoneMeansStored(blobs: map<string, string>, bucketName: string, recordingName: string,
                        sessionId: string, run: Run, samples: nat, rate: nat, recognize: Recognizer,
                        failing: set<string>, cancels: set<Moment>)
    requires run.stored == (FinalTranscriptBlob(recordingName) in blobs)
    requires Last(Writes(run, cancels)) == Done
    ensures FinalTranscriptBlob(recordingName) in
              BucketAfter(blobs, bucketName, recordingName, sessionId, run, samples, rate, recognize,
                          failing, cancels)
  {
    if !run.stored && !Uploads(run, cancels) {
      if run.download.Err? || (DuringDownload !in cancels && run.transcript.Err?) {
        if AfterFinish !in cancels {
          FailureEndsInError(run, cancels);
        }
      } else if AfterFinish !in cancels {
        CheckpointCancelHolds(run, cancels);
      }
    }
  }

  /** The transcript the background task uploads replaces the one the auto-merge at the
      end of the transcription stored under the same name. */
  lemma UploadReplacesMergedTranscript(blobs: map<string, string>, bucketName: string, recordingName: string,
                                       sessionId: string, run: Run, samples: nat, rate: nat,
                                       recognize: Recognizer, failing: set<string>, cancels: set<Moment>)
    requires Uploads(run, cancels)
    ensures var after := BucketAfter(blobs, bucketName, recordingName, sessionId, run, samples, rate,
                                     recognize, failing, cancels);
            FinalTranscriptBlob(recordingName) in after
            && after[FinalTranscriptBlob(recordingName)] == run.transcript.value
  {
  }
}
