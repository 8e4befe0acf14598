/** The blob names of utils/gcs_utils.py: recording references in their three
    spellings, the per-chunk transcript names and the final transcript name. */
module GcsNames {
  import opened Wrappers
  import opened Text

  /** `TRANSCRIPT_BUCKET_PATH` at its default value. */
  const TranscriptBucketPath: string := "transcripts"
  const PublicHost: string := "https://storage.googleapis.com/"
  const GsScheme: string := "gs://"

  // ---------------------------------------------------------------------------
  // urllib.parse.urlparse(url).path

  /** Characters `urlsplit` deletes anywhere in the URL. */
  predicate IsUnsafeUrlChar(c: char) {
    c == '\t' || c == '\r' || c == '\n'
  }

  function RemoveUnsafe(s: string): (r: string)
    ensures |r| <= |s|
    ensures forall i :: 0 <= i < |r| ==> !IsUnsafeUrlChar(r[i])
  {
    if s == [] then [] else (if IsUnsafeUrlChar(s[0]) then [] else [s[0]]) + RemoveUnsafe(s[1..])
  }

  /** `url.lstrip()` of the C0 control characters and space. */
  function LStripControl(s: string): (r: string)
    ensures |r| <= |s| && r == s[|s| - |r|..]
  {
    if s != [] && s[0] <= ' ' then LStripControl(s[1..]) else s
  }

  predicate IsAsciiAlpha(c: char) {
    ('a' <= c <= 'z') || ('A' <= c <= 'Z')
  }

  predicate IsSchemeChar(c: char) {
    IsAsciiAlpha(c) || ('0' <= c <= '9') || c == '+' || c == '-' || c == '.'
  }

  function AsciiLower(s: string): (r: string)
    ensures |r| == |s|
  {
    if s == [] then []
    else [if 'A' <= s[0] <= 'Z' then (s[0] as int + 32) as char else s[0]] + AsciiLower(s[1..])
  }

  /** The scheme and the rest: a scheme is recognised before the first `:` when
      it is non-empty, starts with a letter and uses only scheme characters. */
  function SplitScheme(url: string): (r: (string, string))
    ensures r.0 == [] ==> r.1 == url
  {
    var i := IndexOf(url, ':');
    if 0 < i < |url| && IsAsciiAlpha(url[0]) && forall k :: 0 <= k < i ==> IsSchemeChar(url[k])
    then (AsciiLower(url[..i]), url[i + 1..])
    else ("", url)
  }

  predicate EndsNetloc(c: char) {
    c == '/' || c == '?' || c == '#'
  }

  /** Position of the first `/`, `?` or `#` of `s`, or `|s|`: where the
      network location ends. */
  function NetlocEnd(s: string): (r: nat)
    ensures r <= |s|
    ensures r < |s| ==> EndsNetloc(s[r])
    ensures forall i :: 0 <= i < r ==> !EndsNetloc(s[i])
  {
    if s == [] then 0 else if EndsNetloc(s[0]) then 0 else 1 + NetlocEnd(s[1..])
  }

  /** Everything before the first `c` (`s.split(c, 1)[0]`). */
  function BeforeFirst(s: string, c: char): (r: string)
    ensures c !in r && StartsWith(s, r)
    ensures c !in s ==> r == s
  {
    s[..IndexOf(s, c)]
  }

  /** Schemes whose last path segment may carry `;params`. */
  const UsesParams: set<string> := {"", "ftp", "hdl", "prospero", "http", "imap", "https", "shttp",
    "rtsp", "rtsps", "rtspu", "sip", "sips", "mms", "sftp", "tel"}

  /** The path without the `;params` of its last segment (`_splitparams`). */
  function WithoutParams(url: string): (r: string)
    ensures StartsWith(url, r)
  {
    var slash := LastIndexOf(url, '/');
    if slash >= 0 then url[..slash + IndexOf(url[slash..], ';')]
    else url[..IndexOf(url, ';')]
  }

  /** The URL as `urlsplit` sees it: leading controls and tabs/newlines gone. */
  function CleanUrl(url: string): string {
    RemoveUnsafe(LStripControl(url))
  }

  /** What follows the network location, when the URL has one. */
  function AfterNetloc(rest: string): string {
    if StartsWith(rest, "//") then rest[2..][NetlocEnd(rest[2..])..] else rest
  }

  /** The path, for schemes that take `;params`, without them. */
  function DropParams(scheme: string, path: string): (r: string)
    ensures StartsWith(path, r)
    ensures '#' !in path && '?' !in path ==> '#' !in r && '?' !in r
  {
    if scheme in UsesParams && ';' in path then
      var p := WithoutParams(path);
      assert forall k :: 0 <= k < |p| ==> p[k] == path[k];
      p
    else path
  }

  /** `urlparse(url).path`. */
  function UrlPath(url: string): (r: string)
    ensures '#' !in r && '?' !in r
  {
    var (scheme, rest) := SplitScheme(CleanUrl(url));
    var path := BeforeFirst(BeforeFirst(AfterNetloc(rest), '#'), '?');
    DropParams(scheme, path)
  }

  // ---------------------------------------------------------------------------
  // os.path

  /** `os.path.basename(p)`: the part after the last `/`. */
  function Basename(p: string): (r: string)
    ensures '/' !in r
    ensures |r| <= |p| && r == p[|p| - |r|..]
  {
    p[LastIndexOf(p, '/') + 1..]
  }

  /** `os.path.splitext(p)[0]`: `p` without the extension of its last
      component; a component made only of leading dots has no extension. */
  function SplitExtRoot(p: string): (r: string)
    ensures StartsWith(p, r)
    ensures r == p || (p[|r|] == '.' && '/' !in p[|r|..] && '.' !in p[|r| + 1..])
  {
    var sep := LastIndexOf(p, '/');
    var dot := LastIndexOf(p, '.');
    if dot > sep && exists j :: sep < j < dot && p[j] != '.' then p[..dot] else p
  }

  // ---------------------------------------------------------------------------
  // gcs_utils.py

  /** `parse_blob_path`: the blob path inside the bucket of a public URL or a
      `gs://` reference; any other string is already a blob path. A public URL
      whose path has no `/` after the bucket raises IndexError. */
  function ParseBlobPath(s: string): (r: Result<string, Exception>)
    ensures r.Err? ==> StartsWith(s, PublicHost) && r.error == IndexError
    ensures !StartsWith(s, PublicHost) && !StartsWith(s, GsScheme) ==> r == Ok(s)
  {
    if StartsWith(s, PublicHost) then AfterFirstSlash(LStripSlashes(UrlPath(s)))
    else if StartsWith(s, GsScheme) then Ok(LastOfFirstSlash(s[|GsScheme|..]))
    else Ok(s)
  }

  /** `q.split("/", 1)[1]`, which raises IndexError when `q` has no `/`. */
  function AfterFirstSlash(q: string): (r: Result<string, Exception>)
    ensures r.Err? <==> '/' !in q
    ensures r.Err? ==> r.error == IndexError
  {
    var k := IndexOf(q, '/');
    if k < |q| then Ok(q[k + 1..]) else Err(IndexError)
  }

  /** `("gs:/" + "/" + rest).split("/", 3)[-1]`: what follows the first `/` of
      `rest`, or all of `rest` when it has none. */
  function LastOfFirstSlash(rest: string): (r: string)
    ensures '/' !in rest ==> r == rest
  {
    var k := IndexOf(rest, '/');
    if k < |rest| then rest[k + 1..] else rest
  }

  /** `s.lstrip("/")`. */
  function LStripSlashes(s: string): (r: string)
    ensures |r| <= |s| && r == s[|s| - |r|..] && (r == [] || r[0] != '/')
  {
    if s != [] && s[0] == '/' then LStripSlashes(s[1..]) else s
  }

  /** `extract_filename`: the last component of the reference, taken from the
      URL path for references that start with `http`. */
  function ExtractFilename(recordingName: string): (r: string)
    ensures '/' !in r
  {
    if StartsWith(recordingName, "http") then Basename(UrlPath(recordingName))
    else Basename(recordingName)
  }

  /** The file name of a recording without its extension. */
  function TranscriptStem(recordingName: string): (r: string)
    ensures '/' !in r
  {
    var name := ExtractFilename(recordingName);
    var stem := SplitExtRoot(name);
    assert stem == name[..|stem|];
    stem
  }

  /** The final transcript blob of a recording (`upload_transcript`,
      `transcript_exists`, `get_transcript_content` and the `blob` of a merge):
      one flat name under the transcript folder, ending in `.txt`. */
  function FinalTranscriptBlob(recordingName: string): (r: string)
    ensures StartsWith(r, TranscriptBucketPath + "/")
    ensures |r| >= |TranscriptBucketPath| + 5 && r[|r| - 4..] == ".txt"
    ensures '/' !in r[|TranscriptBucketPath| + 1..]
  {
    var folder := TranscriptBucketPath + "/";
    assert |folder| == |TranscriptBucketPath| + 1;
    TxtUnder(folder, TranscriptStem(recordingName))
  }

  /** `<folder><stem>.txt`, for a stem without `/`. */
  function TxtUnder(folder: string, stem: string): (r: string)
    requires '/' !in stem
    ensures StartsWith(r, folder) && |r| == |folder| + |stem| + 4
    ensures r[|r| - 4..] == ".txt" && '/' !in r[|folder|..]
  {
    var file := stem + ".txt";
    assert '/' !in file by { assert forall k :: 0 <= k < |file| ==> file[k] == if k < |stem| then stem[k] else ".txt"[k - |stem|]; }
    DropPrefix(folder, file);
    folder + file
  }

  /** The name published when the pipeline finishes (routes.py:64): the
      recording reference itself with its extension replaced by `.txt`. */
  function NotificationName(recordingName: string): (r: string)
    ensures |r| >= 4 && r[|r| - 4..] == ".txt"
  {
    SplitExtRoot(recordingName) + ".txt"
  }

  /** The listing prefix shared by all chunk blobs of a session. */
  function ChunkPrefix(sessionId: string): string {
    TranscriptBucketPath + "/" + sessionId + "_part"
  }

  /** The blob a transcript chunk is uploaded to (`upload_transcript_chunk_to_gcs`). */
  function ChunkBlobName(sessionId: string, index: nat): (r: string)
    ensures StartsWith(r, ChunkPrefix(sessionId))
  {
    ChunkPrefix(sessionId) + NatToString(index) + ".txt"
  }

  /** The externally resolvable address merge returns for a blob. */
  function PublicUrl(bucketName: string, blob: string): string {
    PublicHost + bucketName + "/" + blob
  }

  // ---------------------------------------------------------------------------
  // Properties of the names

  /** Text that survives `urlsplit` unchanged and holds no URL delimiter. */
  predicate PlainUrlText(x: string) {
    forall i :: 0 <= i < |x| ==> x[i] != '?' && x[i] != '#' && x[i] != ';' && !IsUnsafeUrlChar(x[i])
  }

  lemma {:induction false} RemoveUnsafeConcat(x: string, y: string)
    ensures RemoveUnsafe(x + y) == RemoveUnsafe(x) + RemoveUnsafe(y)
    decreases |x|
  {
    if x == [] {
      assert x + y == y;
    } else {
      assert (x + y)[0] == x[0] && (x + y)[1..] == x[1..] + y;
      RemoveUnsafeConcat(x[1..], y);
    }
  }

  lemma {:induction false} RemoveUnsafeOfPlain(x: string)
    requires forall i :: 0 <= i < |x| ==> !IsUnsafeUrlChar(x[i])
    ensures RemoveUnsafe(x) == x
    decreases |x|
  {
    if x != [] {
      RemoveUnsafeOfPlain(x[1..]);
      assert x == [x[0]] + x[1..];
    }
  }

  lemma BeforeFirstConcat(x: string, y: string, c: char)
    requires c !in x
    ensures BeforeFirst(x + y, c) == x + BeforeFirst(y, c)
  {
    IndexOfConcat(x, y, c);
  }

  lemma {:induction false} NetlocEndConcat(x: string, y: string)
    requires forall i :: 0 <= i < |x| ==> !EndsNetloc(x[i])
    ensures NetlocEnd(x + y) == |x| + NetlocEnd(y)
    decreases |x|
  {
    if x == [] {
      assert x + y == y;
    } else {
      assert (x + y)[0] == x[0] && (x + y)[1..] == x[1..] + y;
      NetlocEndConcat(x[1..], y);
    }
  }

  /** The host of the public URLs. */
  const PublicDomain: string := "storage.googleapis.com"

  /** No character of the public host is removed or stripped. */
  lemma PublicHostIsPlain()
    ensures PublicHost[0] == 'h'
    ensures forall i :: 0 <= i < |PublicHost| ==> !IsUnsafeUrlChar(PublicHost[i])
  {
  }

  /** Cleaning leaves a URL whose first character is kept and whose start is
      free of tabs and newlines unchanged up to its tail. */
  lemma CleanPlainPrefix(host: string, z: string, tail: string)
    requires host != [] && host[0] > ' '
    requires forall i :: 0 <= i < |host| ==> !IsUnsafeUrlChar(host[i])
    requires PlainUrlText(z)
    ensures CleanUrl(host + z + tail) == host + (z + RemoveUnsafe(tail))
  {
    var url := host + z + tail;
    assert url[0] == host[0];
    assert LStripControl(url) == url;
    ConcatAssoc(host, z, tail);
    RemoveUnsafeConcat(host, z + tail);
    RemoveUnsafeConcat(z, tail);
    RemoveUnsafeOfPlain(z);
    RemoveUnsafeOfPlain(host);
  }

  /** `urlsplit`'s cleaning of a public URL only touches its tail. */
  lemma CleanPublicUrl(z: string, tail: string)
    requires PlainUrlText(z)
    ensures CleanUrl(PublicHost + z + tail) == PublicHost + (z + RemoveUnsafe(tail))
  {
    PublicHostIsPlain();
    CleanPlainPrefix(PublicHost, z, tail);
  }

  /** The first character of a tail that starts with a kept character stays first. */
  lemma RemoveUnsafeHead(tail: string)
    requires tail == [] || !IsUnsafeUrlChar(tail[0])
    ensures RemoveUnsafe(tail) == [] || (tail != [] && RemoveUnsafe(tail)[0] == tail[0])
  {
  }

  /** The public host as scheme, `//` and network location. */
  lemma PublicHostParts(w: string)
    ensures PublicHost + w == "https:" + ("//" + (PublicDomain + ("/" + w)))
  {
    assert PublicHost == "https:" + ("//" + (PublicDomain + "/"));
    ConcatAssoc("https:", "//" + (PublicDomain + "/"), w);
    ConcatAssoc("//", PublicDomain + "/", w);
    ConcatAssoc(PublicDomain, "/", w);
  }

  /** An `https:` URL is split at its first colon. */
  lemma SchemeOfHttps(rest: string)
    ensures SplitScheme("https:" + rest) == ("https", rest)
  {
    var url := "https:" + rest;
    assert IndexOf(url, ':') == 5 by {
      IndexOfConcat("https:", rest, ':');
      assert IndexOf("https:", ':') == 5;
    }
    assert url[..5] == "https";
    assert forall k :: 0 <= k < 5 ==> IsSchemeChar(url[k]);
    HttpsIsLower();
    assert url[6..] == rest;
  }

  lemma HttpsIsLower()
    ensures AsciiLower("https") == "https"
  {
  }

  /** The network location of a public URL ends at the `/` of its path. */
  lemma NetlocOfPublicUrl(y: string)
    requires y != [] && y[0] == '/'
    ensures AfterNetloc("//" + (PublicDomain + y)) == y
  {
    var rest := "//" + (PublicDomain + y);
    assert StartsWith(rest, "//");
    assert rest[2..] == PublicDomain + y;
    assert forall i :: 0 <= i < |PublicDomain| ==> !EndsNetloc(PublicDomain[i]);
    NetlocEndConcat(PublicDomain, y);
    assert NetlocEnd(y) == 0;
  }

  /** A query or fragment after plain path text is cut off. */
  lemma PathBeforeQuery(y: string, tail: string)
    requires PlainUrlText(y)
    requires tail == [] || tail[0] == '?' || tail[0] == '#'
    ensures BeforeFirst(BeforeFirst(y + tail, '#'), '?') == y
  {
    assert '#' !in y && '?' !in y;
    BeforeFirstConcat(y, tail, '#');
    var f := BeforeFirst(tail, '#');
    assert f == [] || f[0] == '?';
    BeforeFirstConcat(y, f, '?');
    assert BeforeFirst(f, '?') == [];
  }

  /** The path of a URL that cleans to `https://<public domain><y><t>`. */
  lemma UrlPathOfCleaned(url: string, y: string, t: string)
    requires y != [] && y[0] == '/' && PlainUrlText(y)
    requires t == [] || t[0] == '?' || t[0] == '#'
    requires CleanUrl(url) == "https:" + ("//" + (PublicDomain + (y + t)))
    ensures UrlPath(url) == y
  {
    var rest := "//" + (PublicDomain + (y + t));
    SchemeOfHttps(rest);
    ConcatAssoc(PublicDomain, y, t);
    NetlocOfPublicUrl(y + t);
    PathBeforeQuery(y, t);
    assert ';' !in y;
    assert DropParams("https", y) == y;
  }

  /** The URL path of a public object URL, with an optional query or
      fragment after it, is `/<bucket>/<object path>`. */
  lemma UrlPathOfPublicUrl(bucketName: string, path: string, tail: string)
    requires bucketName != [] && '/' !in bucketName && PlainUrlText(bucketName)
    requires PlainUrlText(path)
    requires tail == [] || tail[0] == '?' || tail[0] == '#'
    ensures UrlPath(PublicUrl(bucketName, path) + tail) == "/" + bucketName + "/" + path
  {
    var url := PublicUrl(bucketName, path) + tail;
    var z := bucketName + "/" + path;
    var y := "/" + z;
    var tail' := RemoveUnsafe(tail);
    assert PlainUrlText(z);
    assert y == "/" + bucketName + "/" + path by {
      ConcatAssoc("/", bucketName + "/", path);
      ConcatAssoc("/", bucketName, "/");
    }
    assert CleanUrl(url) == "https:" + ("//" + (PublicDomain + (y + tail'))) by {
      assert url == PublicHost + z + tail by {
        ConcatAssoc(PublicHost, bucketName + "/", path);
        ConcatAssoc(PublicHost, bucketName, "/");
      }
      CleanPublicUrl(z, tail);
      PublicHostParts(z + tail');
      ConcatAssoc("/", z, tail');
    }
    assert tail' == [] || tail'[0] == '?' || tail'[0] == '#' by { RemoveUnsafeHead(tail); }
    assert y[0] == '/' && PlainUrlText(y);
    UrlPathOfCleaned(url, y, tail');
  }

  /** The part after a `/`-free first segment. */
  lemma AfterSlashOfSegment(segment: string, path: string)
    requires '/' !in segment
    ensures AfterFirstSlash(segment + "/" + path) == Ok(path)
    ensures LastOfFirstSlash(segment + "/" + path) == path
  {
    var q := segment + "/" + path;
    ConcatAssoc(segment, "/", path);
    IndexOfConcat(segment, "/" + path, '/');
    assert IndexOf("/" + path, '/') == 0;
    assert q[|segment| + 1..] == path;
  }

  /** Parsing a public object URL gives back the object path. */
  lemma ParseBlobPathOfPublicUrl(bucketName: string, path: string, tail: string)
    requires bucketName != [] && '/' !in bucketName && PlainUrlText(bucketName)
    requires PlainUrlText(path)
    requires tail == [] || tail[0] == '?' || tail[0] == '#'
    ensures ParseBlobPath(PublicUrl(bucketName, path) + tail) == Ok(path)
  {
    var url := PublicUrl(bucketName, path) + tail;
    var z := bucketName + "/" + path;
    PublicUrlHasHost(bucketName, path, tail);
    UrlPathOfPublicUrl(bucketName, path, tail);
    assert UrlPath(url) == "/" + z by {
      ConcatAssoc("/", bucketName + "/", path);
      ConcatAssoc("/", bucketName, "/");
    }
    assert LStripSlashes("/" + z) == z by {
      assert z[0] == bucketName[0];
      LStripOneSlash(z);
    }
    AfterSlashOfSegment(bucketName, path);
  }

  lemma PublicUrlHasHost(bucketName: string, path: string, tail: string)
    ensures StartsWith(PublicUrl(bucketName, path) + tail, PublicHost)
  {
    var z := bucketName + "/" + path;
    assert PublicUrl(bucketName, path) + tail == PublicHost + (z + tail) by {
      ConcatAssoc(PublicHost, bucketName + "/", path);
      ConcatAssoc(PublicHost, bucketName, "/");
      ConcatAssoc(PublicHost, z, tail);
    }
    DropPrefix(PublicHost, z + tail);
  }

  lemma LStripOneSlash(z: string)
    requires z != [] && z[0] != '/'
    ensures LStripSlashes("/" + z) == z
  {
    assert ("/" + z)[1..] == z;
  }

  /** Parsing a `gs://<bucket>/<path>` reference gives back the object path. */
  lemma ParseBlobPathOfGsReference(bucketName: string, path: string)
    requires '/' !in bucketName
    ensures ParseBlobPath(GsScheme + bucketName + "/" + path) == Ok(path)
  {
    var s := GsScheme + bucketName + "/" + path;
    var rest := bucketName + "/" + path;
    assert s == GsScheme + rest by {
      ConcatAssoc(GsScheme, bucketName + "/", path);
      ConcatAssoc(GsScheme, bucketName, "/");
    }
    assert !StartsWith(s, PublicHost) by { assert s[0] == 'g'; }
    DropPrefix(GsScheme, rest);
    AfterSlashOfSegment(bucketName, path);
  }

  /** The query and fragment of a public URL do not reach the file name. */
  lemma ExtractFilenameOfPublicUrl(bucketName: string, path: string, tail: string)
    requires bucketName != [] && '/' !in bucketName && PlainUrlText(bucketName)
    requires PlainUrlText(path)
    requires tail == [] || tail[0] == '?' || tail[0] == '#'
    ensures ExtractFilename(PublicUrl(bucketName, path) + tail) == Basename(path)
  {
    var url := PublicUrl(bucketName, path) + tail;
    assert StartsWith(url, "http") by { assert url[..4] == "http"; }
    UrlPathOfPublicUrl(bucketName, path, tail);
    BasenameAfterSlash("/" + bucketName, path);
  }

  lemma BasenameAfterSlash(dir: string, name: string)
    ensures Basename(dir + "/" + name) == Basename(name)
  {
    var s := dir + "/" + name;
    var k := LastIndexOf(name, '/');
    if k >= 0 {
      assert s[|dir| + 1 + k] == '/';
      assert s[|dir| + 1 + k + 1..] == name[k + 1..];
    } else {
      assert s[|dir|] == '/';
      assert s[|dir| + 1..] == name;
    }
  }

  /** A reference that does not start with `http` is named by its last component. */
  lemma ExtractFilenameOfPlainPath(dir: string, name: string)
    requires dir != [] && dir[0] != 'h'
    ensures ExtractFilename(dir + "/" + name) == Basename(name)
  {
    var s := dir + "/" + name;
    assert !StartsWith(s, "http") by {
      assert s[0] == dir[0];
      if 4 <= |s| { assert s[..4][0] == s[0]; }
    }
    assert ExtractFilename(s) == Basename(s);
    BasenameAfterSlash(dir, name);
  }

  /** The final transcript blob depends on the file name only. */
  lemma FinalTranscriptOfFilename(recordingName: string)
    ensures FinalTranscriptBlob(recordingName)
         == TranscriptBucketPath + "/" + SplitExtRoot(ExtractFilename(recordingName)) + ".txt"
  {
    ConcatAssoc(TranscriptBucketPath + "/", TranscriptStem(recordingName), ".txt");
  }

  /** A recording has one final transcript name whichever way it is referred
      to: by public URL (with or without a query) or by `gs://` reference. */
  lemma FinalTranscriptOfEitherReference(bucketName: string, path: string, tail: string)
    requires bucketName != [] && '/' !in bucketName && PlainUrlText(bucketName)
    requires PlainUrlText(path)
    requires tail == [] || tail[0] == '?' || tail[0] == '#'
    ensures FinalTranscriptBlob(PublicUrl(bucketName, path) + tail)
         == FinalTranscriptBlob(GsScheme + bucketName + "/" + path)
         == TranscriptBucketPath + "/" + SplitExtRoot(Basename(path)) + ".txt"
  {
    var url, gs := PublicUrl(bucketName, path) + tail, GsScheme + bucketName + "/" + path;
    ExtractFilenameOfPublicUrl(bucketName, path, tail);
    ExtractFilenameOfPlainPath(GsScheme + bucketName, path);
    FinalTranscriptOfFilename(url);
    FinalTranscriptOfFilename(gs);
  }

  /** Two recordings with the same file name in different folders share one
      final transcript, so the second one short-circuits on the first one's. */
  lemma FinalTranscriptIgnoresFolder(bucketName: string, dir1: string, dir2: string, name: string)
    ensures FinalTranscriptBlob(GsScheme + bucketName + "/" + dir1 + "/" + name)
         == FinalTranscriptBlob(GsScheme + bucketName + "/" + dir2 + "/" + name)
  {
    ExtractFilenameOfPlainPath(GsScheme + bucketName + "/" + dir1, name);
    ExtractFilenameOfPlainPath(GsScheme + bucketName + "/" + dir2, name);
    FinalTranscriptOfFilename(GsScheme + bucketName + "/" + dir1 + "/" + name);
    FinalTranscriptOfFilename(GsScheme + bucketName + "/" + dir2 + "/" + name);
  }

  /** Chunk blobs of one session with different indices have different names. */
  lemma ChunkBlobNameInjective(sessionId: string, i: nat, j: nat)
    requires ChunkBlobName(sessionId, i) == ChunkBlobName(sessionId, j)
    ensures i == j
  {
    var p := ChunkPrefix(sessionId);
    var a, b := NatToString(i), NatToString(j);
    assert |a| == |b|;
    assert a == ChunkBlobName(sessionId, i)[|p|..|p| + |a|];
    assert b == ChunkBlobName(sessionId, j)[|p|..|p| + |b|];
    NatToStringInjective(i, j);
  }

  /** For single-digit indices the name order is the index order. */
  lemma ChunkOrderBelowTen(sessionId: string, i: nat, j: nat)
    requires i < 10 && j < 10
    ensures LexLess(ChunkBlobName(sessionId, i), ChunkBlobName(sessionId, j)) <==> i < j
  {
    var p := ChunkPrefix(sessionId);
    assert ChunkBlobName(sessionId, i) == p + ([DigitChar(i)] + ".txt");
    assert ChunkBlobName(sessionId, j) == p + ([DigitChar(j)] + ".txt");
    LexCommonPrefix(p, [DigitChar(i)] + ".txt", [DigitChar(j)] + ".txt");
    if i == j {
      LexIrreflexive([DigitChar(i)] + ".txt");
    } else {
      LexFirstDifference(DigitChar(i), ".txt", DigitChar(j), ".txt");
    }
  }

  /** The merge's name order is not the index order: chunk 10 sorts before chunk 2. */
  lemma ChunkTenSortsBeforeTwo(sessionId: string)
    ensures LexLess(ChunkBlobName(sessionId, 10), ChunkBlobName(sessionId, 2))
  {
    var p := ChunkPrefix(sessionId);
    assert NatToString(10) == ['1', '0'];
    assert ChunkBlobName(sessionId, 10) == p + (['1'] + ("0" + ".txt"));
    assert ChunkBlobName(sessionId, 2) == p + (['2'] + ".txt");
    LexCommonPrefix(p, ['1'] + ("0" + ".txt"), ['2'] + ".txt");
    LexFirstDifference('1', "0" + ".txt", '2', ".txt");
  }

  /** Session ids without `_` (the generated `session-<hex>` ids) never list
      each other's chunks: a chunk blob under another session's prefix is the
      same session's. */
  lemma ChunkPrefixIsolatesSessions(sessionId: string, other: string, index: nat)
    requires '_' !in sessionId && '_' !in other
    requires StartsWith(ChunkBlobName(other, index), ChunkPrefix(sessionId))
    ensures other == sessionId
  {
    var folder := TranscriptBucketPath + "/";
    var u, v := other + ("_part" + NatToString(index) + ".txt"), sessionId + "_part";
    assert ChunkBlobName(other, index) == folder + u by {
      ConcatAssoc(folder + other, "_part", NatToString(index));
      ConcatAssoc(folder + other, "_part" + NatToString(index), ".txt");
      ConcatAssoc(folder, other, "_part" + NatToString(index) + ".txt");
    }
    assert ChunkPrefix(sessionId) == folder + v by {
      ConcatAssoc(folder, sessionId, "_part");
    }
    assert StartsWith(u, v) by {
      assert (folder + u)[..|folder + v|] == folder + v;
      assert forall i :: 0 <= i < |v| ==> u[i] == (folder + u)[|folder| + i] && v[i] == (folder + v)[|folder| + i];
    }
    SameBeforeUnderscore(other, sessionId, "_part" + NatToString(index) + ".txt", "_part");
  }

  /** Two `_`-free names each followed by `_` agree when one text starts with the other. */
  lemma SameBeforeUnderscore(a: string, b: string, x: string, y: string)
    requires '_' !in a && '_' !in b
    requires x != [] && x[0] == '_' && y != [] && y[0] == '_'
    requires StartsWith(a + x, b + y)
    ensures a == b
  {
    var m := if |a| < |b| then |a| else |b|;
    assert (a + x)[m] == (b + y)[m];
    assert |a| == |b|;
    assert forall i :: 0 <= i < |a| ==> a[i] == (a + x)[i] && b[i] == (b + y)[i];
  }
}
