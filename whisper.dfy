/** utils/whisper_utils.py: choosing the speech model and the chunked
    transcription loop. The recogniser itself is a parameter: given the
    model and a window's sample bounds it yields the window's text, or
    nothing when transcribing that window raises. */
module Whisper {
  import opened Wrappers
  import opened Text
  import opened GcsNames
  import opened GcsStorage
  import opened Windows
  import opened Calls

  /** One gigabyte as `auto_select_model` counts it (`total / 1e9`). */
  const GB: nat := 1_000_000_000

  /** `auto_select_model`, on the machine's total memory in bytes. */
  function AutoSelectModel(memoryBytes: nat): (r: string)
    ensures r == "base" || r == "small" || r == "medium" || r == "large"
  {
    if memoryBytes >= 24 * GB then "large"
    else if memoryBytes >= 16 * GB then "medium"
    else if memoryBytes >= 8 * GB then "small"
    else "base"
  }

  /** The size order of the models `auto_select_model` can pick. */
  function ModelRank(model: string): nat {
    if model == "large" then 3
    else if model == "medium" then 2
    else if model == "small" then 1
    else 0
  }

  /** The selected model is one step up for each of the 8, 16 and 24 GB
      thresholds the memory reaches. */
  lemma AutoSelectByThresholds(memoryBytes: nat)
    ensures AutoSelectModel(memoryBytes) in ["base", "small", "medium", "large"]
    ensures ModelRank(AutoSelectModel(memoryBytes))
         == (if memoryBytes >= 8 * GB then 1 else 0)
          + (if memoryBytes >= 16 * GB then 1 else 0)
          + (if memoryBytes >= 24 * GB then 1 else 0)
  {
  }

  /** More memory never selects a smaller model. */
  lemma AutoSelectMonotone(less: nat, more: nat)
    requires less <= more
    ensures ModelRank(AutoSelectModel(less)) <= ModelRank(AutoSelectModel(more))
  {
    AutoSelectByThresholds(less);
    AutoSelectByThresholds(more);
  }

  /** `model_size or auto_select_model()`. */
  function ChooseModel(modelSize: Option<string>, memoryBytes: nat): (r: string)
    ensures r != ""
  {
    if Truthy(modelSize) then modelSize.value else AutoSelectModel(memoryBytes)
  }

  /** A given model size is used whatever the memory; the memory decides only
      when no size (or an empty one) is given. */
  lemma ChooseModelAutoOnlyWithoutSize(modelSize: Option<string>, memory1: nat, memory2: nat)
    ensures Truthy(modelSize) ==> ChooseModel(modelSize, memory1) == ChooseModel(modelSize, memory2) == modelSize.value
    ensures !Truthy(modelSize) ==> ChooseModel(modelSize, memory1) == AutoSelectModel(memory1)
  {
  }

  /** `model.transcribe` on the samples `[first, end)` with a model: the
      text, or `None` when it raises. */
  type Recognizer = (string, nat, nat) -> Option<string>

  /** What the recogniser yields for the first `n` windows, in window order. */
  function WindowPrefix(model: string, samples: nat, rate: nat, width: nat, recognize: Recognizer, n: nat)
    : (r: seq<Option<string>>)
    ensures |r| == n
  {
    if n == 0 then []
    else WindowPrefix(model, samples, rate, width, recognize, n - 1)
         + [recognize(model, WindowStart(n - 1, rate, width), WindowEnd(n - 1, samples, rate, width))]
  }

  /** What the recogniser yields for each window, in window order. */
  function WindowTexts(model: string, samples: nat, rate: nat, width: nat, recognize: Recognizer): seq<Option<string>>
    requires rate > 0 && width > 0
  {
    WindowPrefix(model, samples, rate, width, recognize, WindowCount(samples, rate, width))
  }

  /** Window `k` of the prefix is the recogniser's answer on window `k`. */
  lemma {:induction false} WindowPrefixAt(model: string, samples: nat, rate: nat, width: nat, recognize: Recognizer, n: nat, k: nat)
    requires k < n
    ensures WindowPrefix(model, samples, rate, width, recognize, n)[k]
         == recognize(model, WindowStart(k, rate, width), WindowEnd(k, samples, rate, width))
  {
    if k < n - 1 {
      WindowPrefixAt(model, samples, rate, width, recognize, n - 1, k);
    }
  }

  /** One entry per window, each the recogniser's answer on that window. */
  lemma WindowTextsAreRecognised(model: string, samples: nat, rate: nat, width: nat, recognize: Recognizer)
    requires rate > 0 && width > 0
    ensures |WindowTexts(model, samples, rate, width, recognize)| == WindowCount(samples, rate, width)
    ensures forall k :: 0 <= k < WindowCount(samples, rate, width) ==>
      WindowTexts(model, samples, rate, width, recognize)[k]
        == recognize(model, WindowStart(k, rate, width), WindowEnd(k, samples, rate, width))
  {
    forall k | 0 <= k < WindowCount(samples, rate, width)
      ensures WindowTexts(model, samples, rate, width, recognize)[k]
           == recognize(model, WindowStart(k, rate, width), WindowEnd(k, samples, rate, width))
    {
      WindowPrefixAt(model, samples, rate, width, recognize, WindowCount(samples, rate, width), k);
    }
  }

  /** The windows of `range(0, ceil(duration), chunk_seconds)`: none for a
      negative step. */
  function LoopTexts(model: string, samples: nat, rate: nat, chunkSeconds: int, recognize: Recognizer): seq<Option<string>>
    requires rate > 0
  {
    if chunkSeconds > 0 then WindowTexts(model, samples, rate, chunkSeconds as nat, recognize) else []
  }

  /** The texts of the windows whose transcription succeeded, in order. */
  function Successes(texts: seq<Option<string>>): (r: seq<string>)
    ensures |r| <= |texts|
  {
    if texts == [] then []
    else
      var last := texts[|texts| - 1];
      Successes(texts[..|texts| - 1]) + (if last.Some? then [last.value] else [])
  }

  /** The indices of the windows whose transcription succeeded, in order. */
  function UploadedIndices(texts: seq<Option<string>>): seq<nat> {
    if texts == [] then []
    else UploadedIndices(texts[..|texts| - 1]) + (if texts[|texts| - 1].Some? then [|texts| - 1] else [])
  }

  /** The bucket after the loop's chunk uploads for a session. */
  function ChunksUploaded(blobs: map<string, string>, sessionId: string, texts: seq<Option<string>>): map<string, string> {
    if texts == [] then blobs
    else ChunkUpload(ChunksUploaded(blobs, sessionId, texts[..|texts| - 1]), sessionId, |texts| - 1, texts[|texts| - 1])
  }

  /** The upload of window `index`'s text, when it has one. */
  function ChunkUpload(blobs: map<string, string>, sessionId: string, index: nat, t: Option<string>): map<string, string> {
    if t.Some? then blobs[ChunkBlobName(sessionId, index) := Strip(t.value)] else blobs
  }

  /** `full_transcript.strip()` after the loop. */
  function LoopTranscript(texts: seq<Option<string>>): string {
    Strip(JoinStripped(Successes(texts)))
  }

  /** The value `transcribe_audio_in_chunks` returns or the exception it
      raises: a zero sample rate fails the duration, a zero step fails `range`. */
  function TranscribeResult(samples: nat, rate: nat, chunkSeconds: int, model: string, recognize: Recognizer)
    : Result<string, Exception>
  {
    if rate == 0 then Err(ZeroDivisionError)
    else if chunkSeconds == 0 then Err(ValueError)
    else Ok(LoopTranscript(LoopTexts(model, samples, rate, chunkSeconds, recognize)))
  }

  /** The bucket after `transcribe_audio_in_chunks`: chunk uploads and the
      auto-merge, both only for a truthy session id. */
  ghost function TranscribeBucket(blobs: map<string, string>, bucketName: string, filePath: string,
                                  samples: nat, rate: nat, chunkSeconds: int, model: string,
                                  recognize: Recognizer, sessionId: Option<string>,
                                  recordingName: Option<string>, failing: set<string>): map<string, string>
  {
    if rate == 0 || chunkSeconds == 0 || !Truthy(sessionId) then blobs
    else
      var texts := LoopTexts(model, samples, rate, chunkSeconds, recognize);
      MergeSpec(SessionChunks(blobs, sessionId, texts), bucketName, sessionId.value,
                Some(filePath), recordingName, failing).after
  }

  lemma DivExact(k: nat, width: nat)
    requires width > 0
    ensures k * width / width == k
  {
    var q, rem := k * width / width, k * width % width;
    assert q * width + rem == k * width && 0 <= rem < width;
    assert (q + 1) * width == q * width + width;
    assert (k + 1) * width == k * width + width;
    if q < k {
      MulMono(q + 1, k, width);
    } else if k < q {
      MulMono(k + 1, q, width);
    }
  }

  /** Window `k` starts at second `i == k * width`, so its sample bounds are
      the loop's `int(start * sr)` and `int(end * sr)`. */
  lemma WindowAtSecond(k: nat, i: nat, samples: nat, rate: nat, width: nat)
    requires i == k * width
    ensures i * rate == WindowStart(k, rate, width)
    ensures WindowEnd(k, samples, rate, width) == if (i + width) * rate < samples then (i + width) * rate else samples
  {
    assert (k + 1) * width == i + width;
  }

  lemma SuccessesSnoc(texts: seq<Option<string>>, t: Option<string>)
    ensures Successes(texts + [t]) == Successes(texts) + (if t.Some? then [t.value] else [])
  {
    assert (texts + [t])[..|texts|] == texts;
  }

  lemma ChunksUploadedSnoc(blobs: map<string, string>, sessionId: string, texts: seq<Option<string>>, t: Option<string>)
    ensures ChunksUploaded(blobs, sessionId, texts + [t]) == ChunkUpload(ChunksUploaded(blobs, sessionId, texts), sessionId, |texts|, t)
  {
    var all := texts + [t];
    assert all[..|all| - 1] == texts;
  }

  /** The bucket after the chunk uploads of the windows `texts`: only a
      truthy session id uploads. */
  function SessionChunks(blobs: map<string, string>, sessionId: Option<string>, texts: seq<Option<string>>)
    : map<string, string>
  {
    if Truthy(sessionId) then ChunksUploaded(blobs, sessionId.value, texts) else blobs
  }

  /** One pass of the loop body on window `index`, whose transcription gave
      `t`: a success is stripped, appended to the transcript with a space and
      uploaded as chunk `index`; a failure changes nothing. */
  method TranscribeWindow(bucket: Bucket, full: string, t: Option<string>, index: nat, sessionId: Option<string>,
                          ghost texts: seq<Option<string>>, ghost blobs0: map<string, string>)
    returns (full': string)
    requires index == |texts|
    requires full == JoinStripped(Successes(texts))
    requires bucket.blobs == SessionChunks(blobs0, sessionId, texts)
    modifies bucket
    ensures full' == JoinStripped(Successes(texts + [t]))
    ensures bucket.blobs == SessionChunks(blobs0, sessionId, texts + [t])
  {
    full' := full;
    if t.Some? {
      var chunkText := Strip(t.value);
      full' := full + (chunkText + " ");
      if Truthy(sessionId) {
        UploadTranscriptChunk(bucket, sessionId.value, chunkText, index);
      }
    }
    SuccessesSnoc(texts, t);
    if t.Some? {
      JoinStrippedSnoc(Successes(texts), t.value);
    } else {
      assert Successes(texts) + [] == Successes(texts);
    }
    if Truthy(sessionId) {
      ChunksUploadedSnoc(blobs0, sessionId.value, texts, t);
    }
  }

  /** The loop of `transcribe_audio_in_chunks` for a positive step: window
      `i // chunk_seconds` starts at second `i`; each is transcribed and
      handled by the loop body. */
  method TranscribeWindows(bucket: Bucket, model: string, samples: nat, rate: nat, width: nat,
                           sessionId: Option<string>, recognize: Recognizer)
    returns (full: string)
    requires rate > 0 && width > 0
    modifies bucket
    ensures full == JoinStripped(Successes(WindowTexts(model, samples, rate, width, recognize)))
    ensures bucket.blobs == SessionChunks(old(bucket.blobs), sessionId, WindowTexts(model, samples, rate, width, recognize))
  {
    // `range(0, math.ceil(duration), chunk_seconds)` yields `i == k * chunk_seconds`
    // for each window number `k` below the window count
    var count := WindowCount(samples, rate, width);
    ghost var blobs0 := bucket.blobs;
    ghost var texts: seq<Option<string>> := [];
    full := "";
    var k: nat := 0;
    while k < count
      invariant k <= count
      invariant texts == WindowPrefix(model, samples, rate, width, recognize, k)
      invariant full == JoinStripped(Successes(texts))
      invariant bucket.blobs == SessionChunks(blobs0, sessionId, texts)
    {
      var i := k * width;
      // the samples from `int(i * sr)` to `int(min(i + chunk_seconds, duration) * sr)`
      var t := recognize(model, WindowStart(k, rate, width), WindowEnd(k, samples, rate, width));
      assert i / width == k by { DivExact(k, width); }
      full := TranscribeWindow(bucket, full, t, i / width, sessionId, texts, blobs0);
      texts := texts + [t];
      k := k + 1;
    }
  }

  /** `transcribe_audio_in_chunks(file_path, model_size, chunk_seconds,
      session_id, recording_name)` on audio of `samples` samples at `rate`
      per second. Returns the transcript, the model used and the names whose
      notification went out after the auto-merge. */
  method TranscribeAudioInChunks(bucket: Bucket, filePath: string, samples: nat, rate: nat,
                                 modelSize: Option<string>, memoryBytes: nat, chunkSeconds: int,
                                 sessionId: Option<string>, recordingName: Option<string>,
                                 recognize: Recognizer, failing: set<string>)
    returns (r: Result<string, Exception>, model: string, notified: seq<string>)
    modifies bucket
    ensures model == ChooseModel(modelSize, memoryBytes)
    ensures r == TranscribeResult(samples, rate, chunkSeconds, model, recognize)
    ensures bucket.blobs == TranscribeBucket(old(bucket.blobs), bucket.name, filePath, samples, rate,
                                             chunkSeconds, model, recognize, sessionId, recordingName, failing)
    ensures notified == []
  {
    model := ChooseModel(modelSize, memoryBytes);
    notified := [];
    if rate == 0 {
      r := Err(ZeroDivisionError);
      return;
    }
    if chunkSeconds == 0 {
      r := Err(ValueError);
      return;
    }
    ghost var blobs0 := bucket.blobs;
    ghost var texts := LoopTexts(model, samples, rate, chunkSeconds, recognize);
    var full := "";
    if chunkSeconds > 0 {
      full := TranscribeWindows(bucket, model, samples, rate, chunkSeconds, sessionId, recognize);
    }
    assert full == JoinStripped(Successes(texts)) && bucket.blobs == SessionChunks(blobs0, sessionId, texts);
    if Truthy(sessionId) {
      ghost var loopBlobs := bucket.blobs;
      var merged, _ := MergeTranscriptChunks(bucket, sessionId.value, Some(filePath), recordingName, failing);
      assert bucket.blobs == MergeSpec(loopBlobs, bucket.name, sessionId.value, Some(filePath), recordingName, failing).after;
      if merged.Ok? {
        // `publish_to_pubsub(form_id=..., recording_name=merge_result['url'])`
        var url := merged.value.url;
        var call := Bind(PublishParams, 0, ["form_id", "recording_name"]);
        AutoMergeNotificationCannotBind();
        if call.Ok? {
          notified := [url];
        }
      }
    }
    r := Ok(Strip(full));
  }

  // ---------------------------------------------------------------------------
  // Properties of the loop

  /** A window is uploaded exactly when its transcription succeeded, and the
      indices are uploaded in increasing order. */
  lemma {:induction false} UploadedIndicesAreSuccesses(texts: seq<Option<string>>)
    ensures forall k :: k in UploadedIndices(texts) <==> 0 <= k < |texts| && texts[k].Some?
    ensures forall a, b :: 0 <= a < b < |UploadedIndices(texts)| ==>
      UploadedIndices(texts)[a] < UploadedIndices(texts)[b]
  {
    if texts != [] {
      var n := |texts| - 1;
      var front := texts[..n];
      var before := UploadedIndices(front);
      UploadedIndicesAreSuccesses(front);
      forall a, b | 0 <= a < b < |UploadedIndices(texts)|
        ensures UploadedIndices(texts)[a] < UploadedIndices(texts)[b]
      {
        if b == |before| {
          assert before[a] in before;
        }
      }
    }
  }

  /** Two maps agree on `key`: both lack it or both hold the same value. */
  predicate SameEntry(m1: map<string, string>, m2: map<string, string>, key: string) {
    (key in m1 <==> key in m2) && (key in m1 ==> m1[key] == m2[key])
  }

  /** After the loop the bucket holds, for every successful window `k`, chunk
      `k` with the window's stripped text. */
  lemma {:induction false} ChunksUploadedHoldsSuccesses(blobs: map<string, string>, sessionId: string,
                                                        texts: seq<Option<string>>)
    ensures forall k :: 0 <= k < |texts| && texts[k].Some? ==>
      ChunkBlobName(sessionId, k) in ChunksUploaded(blobs, sessionId, texts) &&
      ChunksUploaded(blobs, sessionId, texts)[ChunkBlobName(sessionId, k)] == Strip(texts[k].value)
  {
    if texts != [] {
      var n := |texts| - 1;
      var front := texts[..n];
      var before := ChunksUploaded(blobs, sessionId, front);
      var after := ChunksUploaded(blobs, sessionId, texts);
      assert after == ChunkUpload(before, sessionId, n, texts[n]);
      ChunksUploadedHoldsSuccesses(blobs, sessionId, front);
      forall k | 0 <= k < n && texts[k].Some?
        ensures ChunkBlobName(sessionId, k) in after && after[ChunkBlobName(sessionId, k)] == Strip(texts[k].value)
      {
        assert texts[k] == front[k];
        assert ChunkBlobName(sessionId, k) != ChunkBlobName(sessionId, n) by {
          if ChunkBlobName(sessionId, k) == ChunkBlobName(sessionId, n) {
            ChunkBlobNameInjective(sessionId, k, n);
          }
        }
      }
    }
  }

  /** The loop leaves the chunk of a failed window, or of an index past the
      last window, as it was. */
  lemma {:induction false} ChunksUploadedKeepsUnsent(blobs: map<string, string>, sessionId: string,
                                                     texts: seq<Option<string>>)
    ensures forall k: nat :: (k < |texts| ==> texts[k].None?) ==>
      SameEntry(ChunksUploaded(blobs, sessionId, texts), blobs, ChunkBlobName(sessionId, k))
  {
    if texts != [] {
      var n := |texts| - 1;
      var front := texts[..n];
      ChunksUploadedKeepsUnsent(blobs, sessionId, front);
      forall k: nat | k < |texts| ==> texts[k].None?
        ensures SameEntry(ChunksUploaded(blobs, sessionId, texts), blobs, ChunkBlobName(sessionId, k))
      {
        if k < n {
          assert texts[k] == front[k];
        }
        if ChunkBlobName(sessionId, k) == ChunkBlobName(sessionId, n) {
          ChunkBlobNameInjective(sessionId, k, n);
        }
      }
    }
  }

  /** The loop leaves every blob outside the session's chunk prefix as it was. */
  lemma {:induction false} ChunksUploadedKeepsOutsidePrefix(blobs: map<string, string>, sessionId: string,
                                                            texts: seq<Option<string>>)
    ensures forall key :: !StartsWith(key, ChunkPrefix(sessionId)) ==>
      SameEntry(ChunksUploaded(blobs, sessionId, texts), blobs, key)
  {
    if texts != [] {
      ChunksUploadedKeepsOutsidePrefix(blobs, sessionId, texts[..|texts| - 1]);
    }
  }

  /** The loop adds no blob but the chunks of successful windows. */
  lemma {:induction false} ChunksUploadedAddsOnlyChunks(blobs: map<string, string>, sessionId: string,
                                                        texts: seq<Option<string>>)
    ensures forall key :: key in ChunksUploaded(blobs, sessionId, texts) ==>
      key in blobs || exists k :: 0 <= k < |texts| && texts[k].Some? && key == ChunkBlobName(sessionId, k)
  {
    if texts != [] {
      var n := |texts| - 1;
      var front := texts[..n];
      ChunksUploadedAddsOnlyChunks(blobs, sessionId, front);
      forall key | key in ChunksUploaded(blobs, sessionId, texts) && key !in blobs
        ensures exists k :: 0 <= k < |texts| && texts[k].Some? && key == ChunkBlobName(sessionId, k)
      {
        if key in ChunksUploaded(blobs, sessionId, front) {
          var k :| 0 <= k < |front| && front[k].Some? && key == ChunkBlobName(sessionId, k);
          assert texts[k] == front[k];
        } else {
          assert texts[n].Some? && key == ChunkBlobName(sessionId, n);
        }
      }
    }
  }

  lemma {:induction false} SuccessesAppend(a: seq<Option<string>>, b: seq<Option<string>>)
    ensures Successes(a + b) == Successes(a) + Successes(b)
    decreases |b|
  {
    if b == [] {
      assert a + b == a;
    } else {
      var front := b[..|b| - 1];
      assert a + b == (a + front) + [b[|b| - 1]];
      assert b == front + [b[|b| - 1]];
      SuccessesSnoc(a + front, b[|b| - 1]);
      SuccessesSnoc(front, b[|b| - 1]);
      SuccessesAppend(a, front);
    }
  }

  /** A window whose transcription raises adds nothing to the transcript: the
      loop goes on as if the window were not there. */
  lemma FailedWindowAddsNothing(before: seq<Option<string>>, after: seq<Option<string>>)
    ensures LoopTranscript(before + [None] + after) == LoopTranscript(before + after)
  {
    SuccessesAppend(before + [None], after);
    SuccessesSnoc(before, None);
    assert Successes(before) + [] == Successes(before);
    SuccessesAppend(before, after);
  }

  /** The transcript is the stripped join of the successful windows' texts:
      appending a window appends its stripped text and a space, before the
      final strip. */
  lemma LoopTranscriptOfSnoc(texts: seq<Option<string>>, t: string)
    ensures LoopTranscript(texts + [Some(t)]) == Strip(JoinStripped(Successes(texts)) + (Strip(t) + " "))
  {
    SuccessesSnoc(texts, Some(t));
    JoinStrippedSnoc(Successes(texts), t);
  }

  /** A failed middle window leaves a gap in the uploaded chunk indices. */
  lemma UploadedIndicesCanHaveGaps(a: string, c: string)
    ensures UploadedIndices([Some(a), None, Some(c)]) == [0, 2]
  {
    assert [Some(a)][..0] == [];
    assert UploadedIndices([Some(a)]) == [0];
    assert [Some(a), None][..1] == [Some(a)];
    assert UploadedIndices([Some(a), None]) == [0];
    assert [Some(a), None, Some(c)][..2] == [Some(a), None];
  }
}
