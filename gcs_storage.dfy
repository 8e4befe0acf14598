/** The Cloud Storage side of utils/gcs_utils.py: one bucket, held as a map
    from blob name to text, and the operations that read and change it. */
module GcsStorage {
  import opened Wrappers
  import opened Text
  import opened Ordering
  import opened GcsNames

  /** The bucket `GCP_BUCKET_NAME`: blob names and their text contents. */
  class Bucket {
    const name: string
    var blobs: map<string, string>

    constructor(name: string, blobs: map<string, string>)
      ensures this.name == name && this.blobs == blobs
    {
      this.name := name;
      this.blobs := blobs;
    }

    /** `blob.upload_from_string(text)`: creates or replaces the blob. */
    method Upload(path: string, text: string)
      modifies this
      ensures blobs == old(blobs)[path := text]
    {
      blobs := blobs[path := text];
    }

    /** `blob.delete()`: fails for a missing blob and for the blobs in
        `failing`, whose deletion the service refuses. */
    method Delete(path: string, failing: set<string>) returns (ok: bool)
      modifies this
      ensures ok <==> path in old(blobs) && path !in failing
      ensures blobs == if ok then old(blobs) - {path} else old(blobs)
    {
      ok := path in blobs && path !in failing;
      if ok {
        blobs := blobs - {path};
      }
    }

    /** `bucket.list_blobs(prefix=prefix)`: every blob under the prefix, once
        each, in whatever order the service returns them. */
    method ListPrefix(prefix: string) returns (names: seq<string>)
      ensures Distinct(names)
      ensures forall n :: n in names <==> n in blobs && StartsWith(n, prefix)
    {
      var left := set n | n in blobs && StartsWith(n, prefix);
      names := [];
      while left != {}
        invariant Distinct(names)
        invariant forall n :: n in names ==> n !in left
        invariant forall n :: n in names || n in left <==> n in blobs && StartsWith(n, prefix)
        decreases |left|
      {
        var n :| n in left;
        names := names + [n];
        left := left - {n};
      }
    }

    /** `transcript_exists`: whether the recording's final transcript is stored. */
    predicate TranscriptExists(recordingName: string)
      reads this
    {
      FinalTranscriptBlob(recordingName) in blobs
    }

    /** `get_transcript_content`: the final transcript's text, or
        FileNotFoundError when it is not stored. */
    function GetTranscriptContent(recordingName: string): (r: Result<string, Exception>)
      reads this
      ensures r.Ok? <==> TranscriptExists(recordingName)
      ensures r.Ok? ==> r.value == blobs[FinalTranscriptBlob(recordingName)]
      ensures r.Err? ==> r.error == FileNotFound(FinalTranscriptBlob(recordingName))
    {
      var path := FinalTranscriptBlob(recordingName);
      if path in blobs then Ok(blobs[path]) else Err(FileNotFound(path))
    }

    /** `download_audio`: the stored blob the recording refers to (the local
        copy is its content), IndexError for a public URL without an object
        path, GCSFileNotFoundError for a missing blob. */
    function DownloadAudio(recordingName: string): (r: Result<string, Exception>)
      reads this
      ensures r.Ok? <==> ParseBlobPath(recordingName).Ok? && ParseBlobPath(recordingName).value in blobs
      ensures r.Ok? ==> r == ParseBlobPath(recordingName)
      ensures ParseBlobPath(recordingName).Ok? && r.Err? ==>
                r.error == GcsFileNotFound(ParseBlobPath(recordingName).value)
    {
      match ParseBlobPath(recordingName)
      case Err(e) => Err(e)
      case Ok(path) => if path in blobs then Ok(path) else Err(GcsFileNotFound(path))
    }
  }

  /** `upload_transcript_chunk_to_gcs`. */
  method UploadTranscriptChunk(bucket: Bucket, sessionId: string, chunkText: string, chunkIndex: nat)
    modifies bucket
    ensures bucket.blobs == old(bucket.blobs)[ChunkBlobName(sessionId, chunkIndex) := chunkText]
  {
    bucket.Upload(ChunkBlobName(sessionId, chunkIndex), chunkText);
  }

  /** `upload_transcript`: stores the text as the recording's final transcript
      and returns that blob's name. */
  method UploadTranscript(bucket: Bucket, localAudio: string, transcriptText: string, recordingName: string)
    returns (blobPath: string)
    modifies bucket
    ensures blobPath == FinalTranscriptBlob(recordingName)
    ensures bucket.blobs == old(bucket.blobs)[blobPath := transcriptText]
  {
    blobPath := FinalTranscriptBlob(recordingName);
    bucket.Upload(blobPath, transcriptText);
  }

  // ---------------------------------------------------------------------------
  // merge_transcript_chunks

  /** The dictionary a merge returns. */
  datatype MergeResult = MergeResult(text: string, blob: string, url: string)

  /** Everything a merge does: what it returns, the bucket afterwards and the
      chunk blobs it tried to delete, in order. */
  datatype MergeOutcome = MergeOutcome(
    result: Result<MergeResult, Exception>,
    after: map<string, string>,
    attempted: seq<string>)

  /** The chunk blobs of a session stored in the bucket. */
  function ChunkKeys(blobs: map<string, string>, sessionId: string): set<string> {
    set n | n in blobs && StartsWith(n, ChunkPrefix(sessionId))
  }

  /** The stored texts of the named blobs, in the given order. */
  function Contents(blobs: map<string, string>, names: seq<string>): (r: seq<string>)
    requires forall n :: n in names ==> n in blobs
    ensures |r| == |names|
    ensures forall i :: 0 <= i < |names| ==> r[i] == blobs[names[i]]
  {
    seq(|names|, i requires 0 <= i < |names| => blobs[names[i]])
  }

  /** The chunk blobs of a session in the order the merge reads them. */
  ghost function MergeOrder(blobs: map<string, string>, sessionId: string): (r: seq<string>)
    ensures StrictlySorted(r)
    ensures forall n :: n in r <==> n in ChunkKeys(blobs, sessionId)
    ensures |r| == |ChunkKeys(blobs, sessionId)|
  {
    SortedNames(ChunkKeys(blobs, sessionId))
  }

  /** The final transcript text of a merge: each chunk stripped and followed
      by a space, the whole stripped again. */
  ghost function MergedText(blobs: map<string, string>, sessionId: string): string {
    Strip(JoinStripped(Contents(blobs, MergeOrder(blobs, sessionId))))
  }

  /** The blobs whose deletion the service accepts. */
  function Deleted(names: seq<string>, failing: set<string>): set<string> {
    set n | n in names && n !in failing
  }

  /** What `merge_transcript_chunks(session_id, local_audio, recording_name)`
      does to a bucket holding `blobs`. */
  ghost function MergeSpec(blobs: map<string, string>, bucketName: string, sessionId: string,
                           localAudio: Option<string>, recordingName: Option<string>,
                           failing: set<string>): MergeOutcome
  {
    var names := MergeOrder(blobs, sessionId);
    var text := MergedText(blobs, sessionId);
    var uploaded :=
      if Truthy(localAudio) && Truthy(recordingName)
      then blobs[FinalTranscriptBlob(recordingName.value) := text]
      else blobs;
    var result :=
      if recordingName.None? then Err(AttributeError)
      else
        var blob := FinalTranscriptBlob(recordingName.value);
        Ok(MergeResult(text, blob, PublicUrl(bucketName, blob)));
    MergeOutcome(result, uploaded - Deleted(names, failing), names)
  }

  lemma ContentsSnoc(blobs: map<string, string>, names: seq<string>, i: nat)
    requires i < |names|
    requires forall n :: n in names ==> n in blobs
    ensures Contents(blobs, names[..i + 1]) == Contents(blobs, names[..i]) + [blobs[names[i]]]
  {
    assert names[..i + 1] == names[..i] + [names[i]];
  }

  /** The merge's first loop: downloads the named blobs in order and
      appends each stripped text and a space. */
  method ConcatChunks(bucket: Bucket, names: seq<string>) returns (merged: string)
    requires forall n :: n in names ==> n in bucket.blobs
    ensures merged == JoinStripped(Contents(bucket.blobs, names))
  {
    var blobs := bucket.blobs;
    merged := "";
    var i := 0;
    while i < |names|
      invariant 0 <= i <= |names|
      invariant merged == JoinStripped(Contents(blobs, names[..i]))
    {
      var chunk := blobs[names[i]];
      JoinStrippedSnoc(Contents(blobs, names[..i]), chunk);
      ContentsSnoc(blobs, names, i);
      merged := merged + (Strip(chunk) + " ");
      i := i + 1;
    }
    assert names[..|names|] == names;
  }

  /** The merge's cleanup loop: one delete attempt per blob, a refused
      deletion only logged. */
  method DeleteChunks(bucket: Bucket, names: seq<string>, failing: set<string>)
    requires Distinct(names)
    requires forall n :: n in names ==> n in bucket.blobs
    modifies bucket
    ensures bucket.blobs == old(bucket.blobs) - Deleted(names, failing)
  {
    var i := 0;
    while i < |names|
      invariant 0 <= i <= |names|
      invariant bucket.blobs == old(bucket.blobs) - Deleted(names[..i], failing)
    {
      assert names[i] !in names[..i];
      var _ := bucket.Delete(names[i], failing);
      assert Deleted(names[..i + 1], failing)
          == Deleted(names[..i], failing) + (if names[i] in failing then {} else {names[i]});
      i := i + 1;
    }
    assert names[..|names|] == names;
  }

  lemma StrictlySortedDistinct(s: seq<string>)
    requires StrictlySorted(s)
    ensures Distinct(s)
  {
    forall i, j | 0 <= i < j < |s| ensures s[i] != s[j] {
      if s[i] == s[j] { LexIrreflexive(s[i]); }
    }
  }

  /** `merge_transcript_chunks`: lists the session's chunk blobs, sorts them
      by name, concatenates their stripped texts, uploads the result as the
      final transcript when both the local audio and the recording are given,
      tries to delete every chunk blob and then builds the returned names;
      without a recording that last step raises AttributeError. */
  method MergeTranscriptChunks(bucket: Bucket, sessionId: string, localAudio: Option<string>,
                               recordingName: Option<string>, failing: set<string>)
    returns (r: Result<MergeResult, Exception>, attempted: seq<string>)
    modifies bucket
    ensures var spec := MergeSpec(old(bucket.blobs), bucket.name, sessionId, localAudio, recordingName, failing);
      r == spec.result && bucket.blobs == spec.after && attempted == spec.attempted
  {
    ghost var blobs0 := bucket.blobs;
    var listing := bucket.ListPrefix(ChunkPrefix(sessionId));
    var names := SortByName(listing);
    SortByNameOfListing(listing, ChunkKeys(blobs0, sessionId));
    assert names == MergeOrder(blobs0, sessionId);

    var merged := ConcatChunks(bucket, names);
    var text := Strip(merged);
    assert text == MergedText(blobs0, sessionId);

    if Truthy(localAudio) && Truthy(recordingName) {
      var _ := UploadTranscript(bucket, localAudio.value, text, recordingName.value);
    }
    StrictlySortedDistinct(names);
    DeleteChunks(bucket, names, failing);
    attempted := names;

    if recordingName.None? {
      r := Err(AttributeError);
    } else {
      var blob := FinalTranscriptBlob(recordingName.value);
      r := Ok(MergeResult(text, blob, PublicUrl(bucket.name, blob)));
    }
  }

  // ---------------------------------------------------------------------------
  // Properties of a merge

  /** A session without chunk blobs merges to the empty text and deletes nothing. */
  lemma MergeOfNoChunks(blobs: map<string, string>, bucketName: string, sessionId: string,
                        localAudio: Option<string>, recordingName: Option<string>, failing: set<string>)
    requires ChunkKeys(blobs, sessionId) == {}
    ensures MergedText(blobs, sessionId) == ""
    ensures MergeSpec(blobs, bucketName, sessionId, localAudio, recordingName, failing).attempted == []
    ensures recordingName.Some? ==>
      MergeSpec(blobs, bucketName, sessionId, localAudio, recordingName, failing).result.value.text == ""
  {
    var names := MergeOrder(blobs, sessionId);
    assert |names| == 0;
    assert Contents(blobs, names) == [];
  }

  lemma {:induction false} DistinctOccursOnce(s: seq<string>, x: string)
    requires Distinct(s) && x in s
    ensures multiset(s)[x] == 1
  {
    if s[0] == x {
      assert x !in s[1..];
    } else {
      DistinctOccursOnce(s[1..], x);
    }
    assert s == [s[0]] + s[1..];
  }

  /** The merge attempts to delete exactly the session's chunk blobs, each once. */
  lemma MergeDeletesEachChunkOnce(blobs: map<string, string>, bucketName: string, sessionId: string,
                                  localAudio: Option<string>, recordingName: Option<string>, failing: set<string>)
    ensures var attempted := MergeSpec(blobs, bucketName, sessionId, localAudio, recordingName, failing).attempted;
      (forall n :: n in attempted <==> n in ChunkKeys(blobs, sessionId)) &&
      forall n :: n in ChunkKeys(blobs, sessionId) ==> multiset(attempted)[n] == 1
  {
    var names := MergeOrder(blobs, sessionId);
    StrictlySortedDistinct(names);
    forall n | n in ChunkKeys(blobs, sessionId) ensures multiset(names)[n] == 1 {
      DistinctOccursOnce(names, n);
    }
  }

  /** A refused deletion neither stops the others nor fails the merge: afterwards
      exactly the refused chunk blobs remain, whether or not a recording was given. */
  lemma MergeKeepsOnlyRefusedChunks(blobs: map<string, string>, bucketName: string, sessionId: string,
                                    localAudio: Option<string>, recordingName: Option<string>, failing: set<string>)
    ensures var spec := MergeSpec(blobs, bucketName, sessionId, localAudio, recordingName, failing);
      forall n :: n in ChunkKeys(blobs, sessionId) ==> (n in spec.after <==> n in failing)
  {
  }

  /** Without a recording name the merge raises AttributeError, but only after
      it has deleted the chunk blobs; nothing is uploaded. */
  lemma MergeWithoutRecordingFailsAfterDeleting(blobs: map<string, string>, bucketName: string, sessionId: string,
                                                localAudio: Option<string>, failing: set<string>)
    ensures var spec := MergeSpec(blobs, bucketName, sessionId, localAudio, None, failing);
      spec.result == Err(AttributeError) &&
      spec.after == blobs - (ChunkKeys(blobs, sessionId) - failing)
  {
    var names := MergeOrder(blobs, sessionId);
    assert Deleted(names, failing) == ChunkKeys(blobs, sessionId) - failing;
  }

  /** Without both the local audio and the recording name nothing is
      uploaded: only the accepted deletions change the bucket. */
  lemma MergeUploadsOnlyWithBoth(blobs: map<string, string>, bucketName: string, sessionId: string,
                                 localAudio: Option<string>, recordingName: Option<string>, failing: set<string>)
    requires !(Truthy(localAudio) && Truthy(recordingName))
    ensures MergeSpec(blobs, bucketName, sessionId, localAudio, recordingName, failing).after
         == blobs - (ChunkKeys(blobs, sessionId) - failing)
  {
    var names := MergeOrder(blobs, sessionId);
    assert Deleted(names, failing) == ChunkKeys(blobs, sessionId) - failing;
  }

  /** With both given, the final transcript holds the merged text (unless its
      name is itself one of the session's chunk blobs, which the cleanup
      then removes). */
  lemma MergeUploadsFinalTranscript(blobs: map<string, string>, bucketName: string, sessionId: string,
                                    localAudio: Option<string>, recordingName: Option<string>, failing: set<string>)
    requires Truthy(localAudio) && Truthy(recordingName)
    requires !StartsWith(FinalTranscriptBlob(recordingName.value), ChunkPrefix(sessionId))
    ensures var after := MergeSpec(blobs, bucketName, sessionId, localAudio, recordingName, failing).after;
      FinalTranscriptBlob(recordingName.value) in after &&
      after[FinalTranscriptBlob(recordingName.value)] == MergedText(blobs, sessionId)
  {
    var final := FinalTranscriptBlob(recordingName.value);
    var names := MergeOrder(blobs, sessionId);
    assert final !in ChunkKeys(blobs, sessionId);
    assert final !in Deleted(names, failing);
  }

  /** Blobs that are neither chunk blobs of the session nor the final
      transcript are left as they were. */
  lemma MergeLeavesOtherBlobs(blobs: map<string, string>, bucketName: string, sessionId: string,
                              localAudio: Option<string>, recordingName: Option<string>, failing: set<string>,
                              n: string)
    requires n in blobs && !StartsWith(n, ChunkPrefix(sessionId))
    requires recordingName.Some? ==> n != FinalTranscriptBlob(recordingName.value)
    ensures var spec := MergeSpec(blobs, bucketName, sessionId, localAudio, recordingName, failing);
      n in spec.after && spec.after[n] == blobs[n]
  {
  }

  /** The merge reads chunk blobs in name order, so the text of chunk 10
      comes before the text of chunk 2. */
  lemma MergeReadsChunkTenBeforeTwo(blobs: map<string, string>, sessionId: string)
    requires ChunkBlobName(sessionId, 2) in blobs && ChunkBlobName(sessionId, 10) in blobs
    ensures var names := MergeOrder(blobs, sessionId);
      exists i, j :: 0 <= i < j < |names| &&
        names[i] == ChunkBlobName(sessionId, 10) && names[j] == ChunkBlobName(sessionId, 2)
  {
    var names := MergeOrder(blobs, sessionId);
    var ten, two := ChunkBlobName(sessionId, 10), ChunkBlobName(sessionId, 2);
    assert ten in ChunkKeys(blobs, sessionId) && two in ChunkKeys(blobs, sessionId);
    var i :| 0 <= i < |names| && names[i] == ten;
    var j :| 0 <= j < |names| && names[j] == two;
    ChunkTenSortsBeforeTwo(sessionId);
    if j <= i {
      if j == i {
        LexIrreflexive(ten);
      } else {
        LexAsymmetric(ten, two);
      }
      assert false;
    }
  }

  /** The returned URL points at the returned blob in the bucket: parsing it
      gives the blob name back. */
  lemma MergeUrlLocatesBlob(blobs: map<string, string>, bucketName: string, sessionId: string,
                            localAudio: Option<string>, recordingName: Option<string>, failing: set<string>)
    requires bucketName != [] && '/' !in bucketName && PlainUrlText(bucketName)
    requires recordingName.Some? && PlainUrlText(FinalTranscriptBlob(recordingName.value))
    ensures var r := MergeSpec(blobs, bucketName, sessionId, localAudio, recordingName, failing).result;
      r.Ok? && r.value.blob == FinalTranscriptBlob(recordingName.value) &&
      ParseBlobPath(r.value.url) == Ok(r.value.blob)
  {
    var blob := FinalTranscriptBlob(recordingName.value);
    ParseBlobPathOfPublicUrl(bucketName, blob, "");
    assert PublicUrl(bucketName, blob) + "" == PublicUrl(bucketName, blob);
  }
}
