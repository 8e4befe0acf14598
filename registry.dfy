/** The in-memory job and session tables of routes.py, the request handlers
    that read and change them, and the status feed `process_audio` streams
    back. Flask's request and response plumbing is reduced to a status code
    and a body. */
module Registry {
  import opened Wrappers
  import opened Calls
  import opened GcsStorage

  /** The status strings a job goes through. */
  datatype Status = Pending | Running | Done | Error | Cancelled

  /** `f"{status}"`: how the feed prints a status; a job the table does not
      hold prints as `None`. */
  function StatusText(s: Option<Status>): string {
    match s
    case None => "None"
    case Some(Pending) => "pending"
    case Some(Running) => "running"
    case Some(Done) => "done"
    case Some(Error) => "error"
    case Some(Cancelled) => "cancelled"
  }

  /** The feed prints each status, and an unknown job, under its own text, so a
      reader of the feed can tell every status apart. */
  lemma StatusTextInjective(s: Option<Status>, t: Option<Status>)
    ensures StatusText(s) == StatusText(t) <==> s == t
  {
  }

  /** `status in ("done", "error", "cancelled")`. */
  predicate Terminal(s: Option<Status>) {
    s == Some(Done) || s == Some(Error) || s == Some(Cancelled)
  }

  /** `JOB_TIMEOUT`, in seconds. */
  const JobTimeout: nat := 3600
  /** The `time.sleep(20)` between two polls of the feed. */
  const PollInterval: nat := 20

  /** The JSON body of a response, or the streamed feed. */
  datatype Body =
    | ErrorMessage(error: string)
    | JobStatusBody(jobId: string, status: Status)
    | SessionStatusBody(sessionId: string, jobId: string, sessionStatus: Option<Status>)
    | Message(message: string)
    | MergedBody(length: nat, sessionId: string, mergedBlob: string, url: string)
    | Streamed

  datatype Response = Response(code: nat, body: Body)

  /** `_jobs` (job id to status) and `_sessions` (session id to job id). */
  class Jobs {
    var jobs: map<string, Status>
    var sessions: map<string, string>

    constructor()
      ensures jobs == map[] && sessions == map[]
    {
      jobs := map[];
      sessions := map[];
    }

    /** `get_job_status`: `_jobs.get(job_id)`, with no default status. */
    function GetJobStatus(jobId: string): (r: Option<Status>)
      reads this
      ensures r.Some? <==> jobId in jobs
      ensures r.Some? ==> r.value == jobs[jobId]
    {
      if jobId in jobs then Some(jobs[jobId]) else None
    }

    /** `set_job_status`: the last write to a job wins; no other job and no
        session changes. */
    method SetJobStatus(jobId: string, status: Status)
      modifies this
      ensures GetJobStatus(jobId) == Some(status)
      ensures forall j :: j != jobId ==> GetJobStatus(j) == old(GetJobStatus(j))
      ensures jobs == old(jobs)[jobId := status] && sessions == old(sessions)
    {
      jobs := jobs[jobId := status];
    }

    /** `cancel_job`: sets `cancelled` whatever the job's status was. */
    method CancelJob(jobId: string)
      modifies this
      ensures jobs == old(jobs)[jobId := Cancelled] && sessions == old(sessions)
    {
      SetJobStatus(jobId, Cancelled);
    }

    /** `cancel_job_route`: 404 for a job the table does not hold, which stays
        absent; otherwise the job is cancelled, even one already `done` or
        `error`. */
    method CancelJobRoute(jobId: string) returns (r: Response)
      modifies this
      ensures jobId !in old(jobs) ==> r == Response(404, ErrorMessage("Unknown job_id")) && jobs == old(jobs)
      ensures jobId in old(jobs) ==> r == Response(200, Message("Job " + jobId + " cancelled"))
                                     && jobs == old(jobs)[jobId := Cancelled]
      ensures sessions == old(sessions)
    {
      if jobId !in jobs {
        return Response(404, ErrorMessage("Unknown job_id"));
      }
      CancelJob(jobId);
      r := Response(200, Message("Job " + jobId + " cancelled"));
    }

    /** `job_status`: 404 exactly for a job the table does not hold, else the
        stored status. */
    function JobStatusRoute(jobId: string): (r: Response)
      reads this
      ensures r.code == 404 <==> jobId !in jobs
      ensures r.code == 404 ==> r.body == ErrorMessage("Unknown job_id")
      ensures r.code != 404 ==> r == Response(200, JobStatusBody(jobId, jobs[jobId]))
    {
      match GetJobStatus(jobId)
      case None => Response(404, ErrorMessage("Unknown job_id"))
      case Some(status) => Response(200, JobStatusBody(jobId, status))
    }

    /** `status_by_session`: 404 for a session without a (non-empty) job id;
        otherwise the job's status, `None` when the job table lacks it. */
    function StatusBySessionRoute(sessionId: string): (r: Response)
      reads this
      ensures r.code == 404 <==> sessionId !in sessions || sessions[sessionId] == ""
      ensures r.code == 404 ==> r.body == ErrorMessage("Unknown session_id")
      ensures r.code != 404 ==>
        r == Response(200, SessionStatusBody(sessionId, sessions[sessionId], GetJobStatus(sessions[sessionId])))
    {
      var jobId := if sessionId in sessions then Some(sessions[sessionId]) else None;
      if !Truthy(jobId) then Response(404, ErrorMessage("Unknown session_id"))
      else Response(200, SessionStatusBody(sessionId, jobId.value, GetJobStatus(jobId.value)))
    }

    /** `process_audio` with the request's `recording_name` and the freshly
        generated session and job ids. Without a recording name: 400 and no
        change. Otherwise the job is `pending` and the session resolves to
        it before the background task is submitted; the submitted call passes three
        arguments to `_background_process`'s five parameters, so the background task
        ends in TypeError without running. */
    method ProcessAudio(recordingName: Option<string>, sessionId: string, jobId: string)
      returns (r: Response, task: Option<Result<(), Exception>>)
      modifies this
      ensures !Truthy(recordingName) ==>
        r == Response(400, ErrorMessage("Missing 'recording_name'")) && task == None &&
        jobs == old(jobs) && sessions == old(sessions)
      ensures Truthy(recordingName) ==>
        r == Response(202, Streamed) && task == Some(Err(TypeError)) &&
        jobs == old(jobs)[jobId := Pending] && sessions == old(sessions)[sessionId := jobId]
      ensures Truthy(recordingName) && jobId != "" ==>
        StatusBySessionRoute(sessionId) == Response(200, SessionStatusBody(sessionId, jobId, Some(Pending)))
    {
      if !Truthy(recordingName) {
        return Response(400, ErrorMessage("Missing 'recording_name'")), None;
      }
      SetJobStatus(jobId, Pending);
      sessions := sessions[sessionId := jobId];
      // executor.submit(_background_process, recording_name, job_id, session_id)
      task := Some(Bind(BackgroundParams, 3, []));
      SubmittedTaskCannotBind();
      r := Response(202, Streamed);
    }

    /** `time.sleep(20)` in the feed of `jobId`, while other requests are
        served: with `cancel`, a cancel request for the job. */
    method Sleep(jobId: string, cancel: bool)
      modifies this
      ensures jobs == if cancel && jobId in old(jobs) then old(jobs)[jobId := Cancelled] else old(jobs)
      ensures sessions == old(sessions)
    {
      if cancel {
        var _ := CancelJobRoute(jobId);
      }
    }

    /** One poll of a feed: read the job's status and stop after a terminal
        status or once `elapsed` is past the timeout; otherwise sleep, which
        may serve a cancel, and so move the job table one poll on. */
    method Poll(jobId: string, elapsed: nat, cancel: bool, ghost jobs0: map<string, Status>,
                ghost initial: Option<Status>, ghost cancels: nat -> bool, ghost k: nat)
      returns (status: Option<Status>, stop: bool)
      requires cancel == cancels(k)
      requires jobId in jobs0 <==> initial.Some?
      requires jobs == Track(jobs0, jobId, Observed(initial, cancels, k))
      modifies this
      ensures status == Observed(initial, cancels, k)
      ensures stop == Stops(status, elapsed)
      ensures jobs == if stop then old(jobs) else Track(jobs0, jobId, Observed(initial, cancels, k + 1))
      ensures sessions == old(sessions)
    {
      status := GetJobStatus(jobId);
      stop := Terminal(status) || elapsed > JobTimeout;
      if !stop {
        assert jobId in jobs <==> status.Some?;
        Sleep(jobId, cancel);
        assert Observed(initial, cancels, k + 1) == if cancel && status.Some? then Some(Cancelled) else status;
      }
    }

    /** `event_stream` for one job: a start line, then one status line per
        poll; after a poll that reads a terminal status, or once more than
        `JOB_TIMEOUT` seconds have passed, a final line with that status.
        `lag(k)` is the time beyond the 20-second sleeps that has passed at
        poll `k`; `cancels(k)` says whether a cancel request for the job is
        served during the sleep after poll `k`. */
    method EventStream(jobId: string, sessionId: string, lag: nat -> nat, cancels: nat -> bool)
      returns (lines: seq<Line>)
      modifies this
      ensures lines == [Started(jobId, sessionId)]
                       + PollLines(ObservedFrom(old(GetJobStatus(jobId)), cancels), lag, 0)
      ensures Final(GetJobStatus(jobId)) == lines[|lines| - 1]
      ensures forall j :: j != jobId ==> GetJobStatus(j) == old(GetJobStatus(j))
      ensures sessions == old(sessions)
    {
      ghost var initial := GetJobStatus(jobId);
      var start := Started(jobId, sessionId);
      var polls, k := Polls(jobId, lag, cancels, initial);
      lines := [start] + polls;
      forall j | j != jobId
        ensures GetJobStatus(j) == old(GetJobStatus(j))
      {
      }
    }

    /** The polling loop of `event_stream`: the lines it yields, and the job
        table after the `k`-th poll, the one that ended it. */
    method Polls(jobId: string, lag: nat -> nat, cancels: nat -> bool, ghost initial: Option<Status>)
      returns (polls: seq<Line>, k: nat)
      requires initial == GetJobStatus(jobId)
      modifies this
      ensures polls == PollLines(ObservedFrom(initial, cancels), lag, 0)
      ensures polls != [] && polls[|polls| - 1] == Final(Observed(initial, cancels, k))
      ensures jobs == Track(old(jobs), jobId, Observed(initial, cancels, k))
      ensures sessions == old(sessions)
    {
      ghost var observe := ObservedFrom(initial, cancels);
      polls := [];
      k := 0;
      var elapsed := lag(0);
      while true
        invariant elapsed == Elapsed(lag, k)
        invariant jobs == Track(old(jobs), jobId, Observed(initial, cancels, k))
        invariant polls == PollPrefix(observe, k)
        invariant NoStopBefore(observe, lag, k)
        invariant sessions == old(sessions)
        decreases JobTimeout + 1 - elapsed
      {
        var status, stop := Poll(jobId, elapsed, cancels(k), old(jobs), initial, cancels, k);
        assert status == observe(k);
        polls := polls + [StatusLine(status)];
        if stop {
          polls := polls + [Final(status)];
          PollLinesStop(observe, lag, k);
          return;
        }
        PollContinues(observe, lag, k);
        k := k + 1;
        elapsed := elapsed + PollInterval + lag(k);
      }
    }
  }

  // ---------------------------------------------------------------------------
  // The status feed as a function of what each poll reads

  /** A line of the feed: `Started job: …, session: …`, `Status: …` and `Final: …`. */
  datatype Line = Started(jobId: string, sessionId: string) | StatusLine(status: Option<Status>) | Final(finalStatus: Option<Status>)

  /** The text of a line as the feed writes it. */
  function LineText(line: Line): string {
    match line
    case Started(jobId, sessionId) => "Started job: " + jobId + ", session: " + sessionId + "\n"
    case StatusLine(s) => "Status: " + StatusText(s) + "\n"
    case Final(s) => "Final: " + StatusText(s) + "\n"
  }

  /** Seconds since the feed started at poll `k`: each poll after the first
      follows a 20-second sleep, and `lag` adds the time spent elsewhere. */
  function Elapsed(lag: nat -> nat, k: nat): nat {
    if k == 0 then lag(0) else Elapsed(lag, k - 1) + PollInterval + lag(k)
  }

  lemma {:induction false} ElapsedAtLeast(lag: nat -> nat, k: nat)
    ensures Elapsed(lag, k) >= PollInterval * k
  {
    if k > 0 {
      ElapsedAtLeast(lag, k - 1);
    }
  }

  lemma {:induction false} ElapsedMonotone(lag: nat -> nat, j: nat, k: nat)
    requires j <= k
    ensures Elapsed(lag, j) <= Elapsed(lag, k)
    decreases k - j
  {
    if j < k {
      ElapsedMonotone(lag, j, k - 1);
    }
  }

  /** Whether the feed ends after a poll that read `status` at `elapsed` seconds. */
  predicate Stops(status: Option<Status>, elapsed: nat) {
    Terminal(status) || elapsed > JobTimeout
  }

  /** The lines from poll `k` on, when poll `j` reads `observe(j)`; each
      poll comes later than the one before, so the timeout ends the feed. */
  function PollLines(observe: nat -> Option<Status>, lag: nat -> nat, k: nat): seq<Line>
    decreases JobTimeout + 1 - Elapsed(lag, k)
  {
    if Stops(observe(k), Elapsed(lag, k)) then [StatusLine(observe(k)), Final(observe(k))]
    else [StatusLine(observe(k))] + PollLines(observe, lag, k + 1)
  }

  /** What poll `k` reads when the job's status is `initial` when the feed
      starts and cancel requests come as `cancels` says: a cancel sets
      `cancelled` on a job the table holds and leaves an unknown job unknown. */
  function Observed(initial: Option<Status>, cancels: nat -> bool, k: nat): (r: Option<Status>)
    ensures r.None? <==> initial.None?
  {
    if k == 0 then initial
    else
      var before := Observed(initial, cancels, k - 1);
      if cancels(k - 1) && before.Some? then Some(Cancelled) else before
  }

  /** The job table `jobs` after the job `jobId` came to read `status`. */
  function Track(jobs: map<string, Status>, jobId: string, status: Option<Status>): map<string, Status> {
    if status.Some? then jobs[jobId := status.value] else jobs
  }

  function ObservedFrom(initial: Option<Status>, cancels: nat -> bool): nat -> Option<Status> {
    (k: nat) => Observed(initial, cancels, k)
  }

  /** A poll that does not stop the feed comes before the timeout, and the
      next one is later by a sleep and its lag. */
  lemma PollContinues(observe: nat -> Option<Status>, lag: nat -> nat, k: nat)
    requires NoStopBefore(observe, lag, k)
    requires !Stops(observe(k), Elapsed(lag, k))
    ensures NoStopBefore(observe, lag, k + 1)
    ensures Elapsed(lag, k) <= JobTimeout
    ensures Elapsed(lag, k + 1) == Elapsed(lag, k) + PollInterval + lag(k + 1)
    ensures PollPrefix(observe, k + 1) == PollPrefix(observe, k) + [StatusLine(observe(k))]
  {
  }

  /** None of the first `k` polls stops the feed. */
  predicate NoStopBefore(observe: nat -> Option<Status>, lag: nat -> nat, k: nat) {
    forall j :: 0 <= j < k ==> !Stops(observe(j), Elapsed(lag, j))
  }

  /** The status lines of polls `0` to `k - 1`. */
  function PollPrefix(observe: nat -> Option<Status>, k: nat): (r: seq<Line>)
    ensures |r| == k
  {
    if k == 0 then [] else PollPrefix(observe, k - 1) + [StatusLine(observe(k - 1))]
  }

  /** When none of the first `k` polls stops the feed, the feed is their
      status lines followed by the lines from poll `k` on. */
  lemma {:induction false} PollLinesAfterPrefix(observe: nat -> Option<Status>, lag: nat -> nat, k: nat)
    requires NoStopBefore(observe, lag, k)
    ensures PollLines(observe, lag, 0) == PollPrefix(observe, k) + PollLines(observe, lag, k)
  {
    if k > 0 {
      var line := StatusLine(observe(k - 1));
      var before, rest := PollPrefix(observe, k - 1), PollLines(observe, lag, k);
      assert PollLines(observe, lag, 0) == before + PollLines(observe, lag, k - 1) by {
        assert NoStopBefore(observe, lag, k - 1);
        PollLinesAfterPrefix(observe, lag, k - 1);
      }
      assert PollLines(observe, lag, k - 1) == [line] + rest by {
        assert !Stops(observe(k - 1), Elapsed(lag, k - 1));
      }
      assert PollPrefix(observe, k) == before + [line];
      assert before + ([line] + rest) == before + [line] + rest;
    }
  }

  /** When poll `k` is the first to stop the feed, the feed is the status
      lines of polls `0` to `k` and a final line. */
  lemma PollLinesStop(observe: nat -> Option<Status>, lag: nat -> nat, k: nat)
    requires NoStopBefore(observe, lag, k)
    requires Stops(observe(k), Elapsed(lag, k))
    ensures PollLines(observe, lag, 0)
         == PollPrefix(observe, k) + [StatusLine(observe(k))] + [Final(observe(k))]
  {
    PollLinesAfterPrefix(observe, lag, k);
  }

  /** The feed ends with a final line repeating the status of the last poll,
      which stopped it. */
  lemma {:induction false} PollLinesEndWithFinal(observe: nat -> Option<Status>, lag: nat -> nat, k: nat)
    ensures var lines := PollLines(observe, lag, k);
      |lines| >= 2 &&
      var last := k + |lines| - 2;
      lines[|lines| - 1] == Final(observe(last)) && lines[|lines| - 2] == StatusLine(observe(last)) &&
      Stops(observe(last), Elapsed(lag, last))
    decreases JobTimeout + 1 - Elapsed(lag, k)
  {
    if !Stops(observe(k), Elapsed(lag, k)) {
      PollLinesEndWithFinal(observe, lag, k + 1);
    }
  }

  /** Every line but the last reports one poll, in order, and every poll
      before the last read a non-terminal status within the timeout: the feed
      stops at the first poll that can stop it, and a `None` status alone
      never does. */
  lemma {:induction false} PollLinesStopAtFirstStop(observe: nat -> Option<Status>, lag: nat -> nat, k: nat)
    ensures var lines := PollLines(observe, lag, k);
      forall i :: 0 <= i < |lines| - 1 ==>
        lines[i] == StatusLine(observe(k + i)) &&
        (i < |lines| - 2 ==> !Terminal(observe(k + i)) && Elapsed(lag, k + i) <= JobTimeout)
    decreases JobTimeout + 1 - Elapsed(lag, k)
  {
    var lines := PollLines(observe, lag, k);
    if !Stops(observe(k), Elapsed(lag, k)) {
      var rest := PollLines(observe, lag, k + 1);
      PollLinesStopAtFirstStop(observe, lag, k + 1);
      PollLinesEndWithFinal(observe, lag, k + 1);
      forall i | 0 <= i < |lines| - 1
        ensures lines[i] == StatusLine(observe(k + i))
        ensures i < |lines| - 2 ==> !Terminal(observe(k + i)) && Elapsed(lag, k + i) <= JobTimeout
      {
        if i > 0 {
          assert lines[i] == rest[i - 1];
          assert k + 1 + (i - 1) == k + i;
        }
      }
    }
  }

  /** From poll `k` on there are at most `182 - k` polls. */
  lemma {:induction false} PollLinesBounded(observe: nat -> Option<Status>, lag: nat -> nat, k: nat)
    requires k <= 181
    ensures |PollLines(observe, lag, k)| <= 183 - k
    decreases 181 - k
  {
    ElapsedAtLeast(lag, k);
    if !Stops(observe(k), Elapsed(lag, k)) {
      PollLinesBounded(observe, lag, k + 1);
    }
  }

  /** The whole feed has at most 184 lines: a start line, at most 182 polls
      and a final line. */
  lemma StreamBounded(jobId: string, sessionId: string, observe: nat -> Option<Status>, lag: nat -> nat)
    ensures 3 <= |[Started(jobId, sessionId)] + PollLines(observe, lag, 0)| <= 184
  {
    PollLinesBounded(observe, lag, 0);
    PollLinesEndWithFinal(observe, lag, 0);
  }

  /** A job the table never holds is polled until the timeout and reported
      as `None`. */
  lemma UnknownJobPolledUntilTimeout(lag: nat -> nat, cancels: nat -> bool)
    ensures var lines := PollLines(ObservedFrom(None, cancels), lag, 0);
      lines[|lines| - 1] == Final(None) && Elapsed(lag, |lines| - 2) > JobTimeout
  {
    PollLinesEndWithFinal(ObservedFrom(None, cancels), lag, 0);
  }

  /** After `process_audio` the job only ever reads `pending` or, once a
      cancel request came, `cancelled`. */
  lemma {:induction false} ProcessAudioJobOnlyPendingOrCancelled(cancels: nat -> bool, k: nat)
    ensures Observed(Some(Pending), cancels, k) == Some(Pending)
         || Observed(Some(Pending), cancels, k) == Some(Cancelled)
  {
    if k > 0 {
      ProcessAudioJobOnlyPendingOrCancelled(cancels, k - 1);
    }
  }

  /** The feed of a job `process_audio` registered never reports `done` or
      `error` (its task never runs): it ends `cancelled` after a cancel
      request, or `pending` at the timeout. */
  lemma ProcessAudioFeedNeverFinishes(lag: nat -> nat, cancels: nat -> bool)
    ensures var lines := PollLines(ObservedFrom(Some(Pending), cancels), lag, 0);
      lines[|lines| - 1] == Final(Some(Cancelled)) ||
      (lines[|lines| - 1] == Final(Some(Pending)) && Elapsed(lag, |lines| - 2) > JobTimeout)
  {
    var lines := PollLines(ObservedFrom(Some(Pending), cancels), lag, 0);
    PollLinesEndWithFinal(ObservedFrom(Some(Pending), cancels), lag, 0);
    ProcessAudioJobOnlyPendingOrCancelled(cancels, |lines| - 2);
  }

  /** A cancel request served after poll `c`, before the timeout and while
      the job was still `pending`, ends the feed at the next poll with
      `Final: cancelled`. */
  lemma CancelEndsFeed(lag: nat -> nat, cancels: nat -> bool, c: nat)
    requires cancels(c)
    requires forall j :: 0 <= j < c ==> !cancels(j)
    requires Elapsed(lag, c) <= JobTimeout
    ensures PollLines(ObservedFrom(Some(Pending), cancels), lag, 0)
         == PendingPolls(c + 1) + [StatusLine(Some(Cancelled)), Final(Some(Cancelled))]
  {
    var observe := ObservedFrom(Some(Pending), cancels);
    assert forall j :: 0 <= j < c + 1 ==> observe(j) == Some(Pending) by {
      NoCancelStaysPending(cancels, c);
    }
    assert observe(c + 1) == Some(Cancelled) by {
      NoCancelStaysPending(cancels, c);
    }
    assert PollLines(observe, lag, 0) == PollPrefix(observe, c + 1) + PollLines(observe, lag, c + 1) by {
      forall j | 0 <= j < c + 1
        ensures !Stops(observe(j), Elapsed(lag, j))
      {
        ElapsedMonotone(lag, j, c);
      }
      PollLinesAfterPrefix(observe, lag, c + 1);
    }
    assert PollPrefix(observe, c + 1) == PendingPolls(c + 1) by {
      PendingPrefix(observe, c + 1);
    }
    assert PollLines(observe, lag, c + 1) == [StatusLine(Some(Cancelled)), Final(Some(Cancelled))] by {
      assert Stops(observe(c + 1), Elapsed(lag, c + 1));
    }
  }

  /** `n` status lines reading `pending`. */
  function PendingPolls(n: nat): (r: seq<Line>)
    ensures |r| == n
    ensures forall i :: 0 <= i < n ==> r[i] == StatusLine(Some(Pending))
  {
    if n == 0 then [] else PendingPolls(n - 1) + [StatusLine(Some(Pending))]
  }

  lemma {:induction false} NoCancelStaysPending(cancels: nat -> bool, c: nat)
    requires forall j :: 0 <= j < c ==> !cancels(j)
    ensures forall k :: 0 <= k <= c ==> Observed(Some(Pending), cancels, k) == Some(Pending)
  {
    if c > 0 {
      NoCancelStaysPending(cancels, c - 1);
    }
  }

  lemma {:induction false} PendingPrefix(observe: nat -> Option<Status>, n: nat)
    requires forall j :: 0 <= j < n ==> observe(j) == Some(Pending)
    ensures PollPrefix(observe, n) == PendingPolls(n)
  {
    if n > 0 {
      PendingPrefix(observe, n - 1);
    }
  }

  // ---------------------------------------------------------------------------
  // merge_transcript_route

  /** The response `merge_transcript_route` makes of a merge's outcome: 200
      with the merged text's length, the session and the final blob's name
      and address, or 500 for any exception. */
  function MergeResponse(sessionId: string, result: Result<MergeResult, Exception>): (r: Response)
    ensures r.code == 200 <==> result.Ok?
    ensures r.code != 200 ==> r == Response(500, ErrorMessage("Merge failed"))
    ensures result.Ok? ==>
      r.body == MergedBody(|result.value.text|, sessionId, result.value.blob, result.value.url)
  {
    match result
    case Ok(merged) => Response(200, MergedBody(|merged.text|, sessionId, merged.blob, merged.url))
    case Err(_) => Response(500, ErrorMessage("Merge failed"))
  }

  /** `merge_transcript_route`: 400 without a session id. Otherwise the merge
      is called without local audio and without a recording name, so after
      deleting the session's chunks it raises, and the route answers 500. */
  method MergeTranscriptRoute(bucket: Bucket, sessionId: Option<string>, failing: set<string>)
    returns (r: Response)
    modifies bucket
    ensures !Truthy(sessionId) ==> r == Response(400, ErrorMessage("Missing session_id")) && bucket.blobs == old(bucket.blobs)
    ensures Truthy(sessionId) ==> r == Response(500, ErrorMessage("Merge failed"))
    ensures Truthy(sessionId) ==>
      bucket.blobs == old(bucket.blobs) - (ChunkKeys(old(bucket.blobs), sessionId.value) - failing)
  {
    if !Truthy(sessionId) {
      return Response(400, ErrorMessage("Missing session_id"));
    }
    ghost var blobs0 := bucket.blobs;
    var result, _ := MergeTranscriptChunks(bucket, sessionId.value, None, None, failing);
    MergeWithoutRecordingFailsAfterDeleting(blobs0, bucket.name, sessionId.value, None, failing);
    r := MergeResponse(sessionId.value, result);
  }
}
