# Audio transcription service: job table, chunked transcription and transcript storage

This project is a Dafny model of the core of a Flask service that transcribes recorded
audio with Whisper and stores the transcripts in a Google Cloud Storage bucket.

- **routes.py.** The in-memory `_jobs` and `_sessions` tables are the fields of the
  class `Registry.Jobs`. The request handlers are methods and functions of that
  class:
  - `process_audio`, with its `event_stream` status feed
  - `cancel_job_route`, `job_status` and `status_by_session`
  - `merge_transcript_route`

  The background task `_background_process` is `Pipeline.BackgroundProcess`. It runs
  against the job table and the bucket, and cancel requests are served at the points
  where another thread can interleave.
- **utils/gcs_utils.py.** The blob names are pure functions in `GcsNames`:
  - `parse_blob_path`, built on a model of `urllib.parse.urlparse`
  - `extract_filename`
  - the final `<stem>.txt` transcript name and the `<session>_part<i>.txt` chunk names

  The bucket is the class `GcsStorage.Bucket`, a map from blob name to text.
  Uploads, deletions, listings, `transcript_exists`, `get_transcript_content` and
  `download_audio` work on that map. `merge_transcript_chunks` is a method with two
  loops, proved against the ghost specification `MergeSpec`.
- **utils/whisper_utils.py.** `auto_select_model` takes the machine's memory as a
  parameter. `model_size or auto_select_model()` is modelled as written.
  `transcribe_audio_in_chunks` is a method with a loop over the 30-second windows.
  The audio is a number of samples at a sample rate. The speech model is a
  recogniser function: it returns a text, or nothing when the window's
  transcription raises.

Quirks of the code are modelled as written and stated as lemmas:
- The submitted call at routes.py:114 passes three arguments to five parameters, so
  the background task raises TypeError and never runs (`Calls.SubmittedTaskCannotBind`). Its
  consequence is that a job's feed never ends before the timeout unless the job is
  cancelled (`Registry.ProcessAudioFeedNeverFinishes`).
- The auto-merge notification uses keywords that `publish_to_pubsub` does not accept
  (`Calls.AutoMergeNotificationCannotBind`). The exception is caught at
  whisper_utils.py:121.
- Chunk blobs are merged in name order, so chunk 10 comes before chunk 2
  (`GcsStorage.MergeReadsChunkTenBeforeTwo`).
- `merge_transcript_route` calls the merge without a recording name. The merge
  deletes the chunks and then raises, so the route always answers 500
  (`Registry.Jobs.MergeTranscriptRoute`).
- A cancel is an unconditional overwrite. A cancel of a pending job is lost to
  `running` and `done` (`Pipeline.PendingCancelIsLost`). The background task's
  upload replaces the transcript the auto-merge stored under the same name
  (`Pipeline.UploadReplacesMergedTranscript`).
- A cancel seen at the second check skips the final upload, but the auto-merge inside
  the transcription has already stored the merged chunk text under the final transcript
  name, so a cancelled job can still have a transcript
  (`Pipeline.CancelDuringTranscriptionKeepsAutoMerge`).

The modules:
- `Wrappers`: Option, Result, the Python exceptions and truthiness.
- `Text`: `strip`, `startswith`, `str(n)` and string order.
- `Ordering`: `sorted` by name.
- `GcsNames`, `GcsStorage`, `Windows` and `Whisper`.
- `Calls`: Python argument binding.
- `Registry`: routes.py's tables and handlers.
- `Pipeline`: `_background_process`.

## Model

| member | source | states |
|---|---|---|
| Text.LStrip | utils/whisper_utils.py:106 | the result is a suffix of the input, everything cut off is whitespace, and it does not start with whitespace |
| Text.RStrip | utils/whisper_utils.py:106 | the result is a prefix of the input, everything cut off is whitespace, and it does not end with whitespace |
| Text.Strip | utils/whisper_utils.py:106 | the stripped text has no whitespace at either end, and it is empty exactly when the input is all whitespace |
| Text.StripUnpadded | utils/gcs_utils.py:105 | a text without boundary whitespace is its own strip |
| Text.StripIdempotent | utils/gcs_utils.py:105 | stripping twice is stripping once, so the merge's second strip of an already stripped chunk changes nothing |
| Text.JoinStripped | utils/gcs_utils.py:102-106 | the merged text of `strip(chunk) + " "` pieces is empty exactly when there are no pieces |
| Text.JoinStrippedSnoc | utils/gcs_utils.py:105 | one more chunk appends its stripped text and a space |
| Text.JoinStrippedAppend | utils/whisper_utils.py:109 | joining splits over concatenation of the piece lists |
| Text.JoinStrippedOfStripped | utils/gcs_utils.py:105 | joining pieces that were already stripped gives the same text |
| Text.StripAll | utils/whisper_utils.py:106 | each element is the strip of the corresponding input |
| Text.IndexOf | utils/gcs_utils.py:39 | the position of the first occurrence of a character, or the length when there is none |
| Text.LastIndexOf | utils/gcs_utils.py:47-48 | the position of the last occurrence of a character (`rfind`), or -1 |
| Text.IndexOfConcat | utils/gcs_utils.py:39 | the first occurrence in a concatenation is in the first part when it holds the character, else shifted into the second |
| Text.NatToString | utils/gcs_utils.py:72 | `str(i)` is non-empty decimal digits, one digit exactly below 10, ending in the last digit of `i` |
| Text.NatToStringInjective | utils/gcs_utils.py:72 | different chunk indices are spelled differently |
| Text.LexIrreflexive | utils/gcs_utils.py:100 | no name sorts before itself |
| Text.LexTransitive | utils/gcs_utils.py:100 | Python's string order is transitive |
| Text.LexTotal | utils/gcs_utils.py:100 | any two different names are ordered one way |
| Text.LexAsymmetric | utils/gcs_utils.py:100 | two names are never ordered both ways |
| Text.LexCommonPrefix | utils/gcs_utils.py:100 | a shared prefix does not change the order of two names |
| Text.LexFirstDifference | utils/gcs_utils.py:100 | the order of two names is decided by their first differing character |
| Ordering.Insert | utils/gcs_utils.py:100 | insertion adds exactly one occurrence of the name |
| Ordering.InsertElements | utils/gcs_utils.py:100 | insertion adds no name but the inserted one |
| Ordering.InsertSorted | utils/gcs_utils.py:100 | insertion keeps a list sorted |
| Ordering.InsertStrictlySorted | utils/gcs_utils.py:100 | inserting a new name keeps a list strictly sorted |
| Ordering.SortByName | utils/gcs_utils.py:100 | `sorted` gives a sorted permutation of the listing, strictly sorted when the listing has no repeats |
| Ordering.LeastExists | utils/gcs_utils.py:100 | every non-empty set of names has a least name |
| Ordering.SortedNames | utils/gcs_utils.py:100 | the names of a set in strictly increasing order, each once |
| Ordering.StrictlySortedUnique | utils/gcs_utils.py:100 | two strictly sorted lists with the same names are equal |
| Ordering.SortByNameOfListing | utils/gcs_utils.py:100 | sorting any repeat-free listing of the chunk blobs gives the same order |
| Windows.CeilDiv | utils/whisper_utils.py:97 | `math.ceil(x / d)` is the least multiple count covering `x` |
| Windows.LtCeilDiv | utils/whisper_utils.py:97 | `m < ceil(x / d)` exactly when `m * d < x` |
| Windows.WindowExists | utils/whisper_utils.py:97-100 | window `k` is produced by the `range` exactly when it starts before the last sample |
| Windows.WindowCountIsCeilOfDuration | utils/whisper_utils.py:97 | rounding the duration up and then the window count up equals rounding up once |
| Windows.WindowNonEmpty | utils/whisper_utils.py:98-100 | every window holds at least one sample |
| Windows.WindowsContiguous | utils/whisper_utils.py:98-100 | each window ends where the next one starts |
| Windows.LastWindowEndsAtEnd | utils/whisper_utils.py:99-100 | the last window ends at the last sample |
| Windows.WindowsPartition | utils/whisper_utils.py:97-100 | every sample lies in exactly one window |
| Windows.NinetySecondsInThirties | utils/whisper_utils.py:97-100 | 90 seconds give three full 30-second windows |
| Windows.HundredSecondsInThirties | utils/whisper_utils.py:97-100 | 100 seconds give four windows, the last one of 10 seconds |
| GcsNames.RemoveUnsafe | utils/gcs_utils.py:38 | `urlsplit` removes every tab, carriage return and line feed |
| GcsNames.LStripControl | utils/gcs_utils.py:38 | the URL loses only a prefix of leading control characters and spaces |
| GcsNames.AsciiLower | utils/gcs_utils.py:38 | lower-casing keeps the length of the scheme |
| GcsNames.SplitScheme | utils/gcs_utils.py:38 | without a recognised scheme the whole URL is the rest |
| GcsNames.NetlocEnd | utils/gcs_utils.py:38 | the network location ends at the first `/`, `?` or `#` |
| GcsNames.BeforeFirst | utils/gcs_utils.py:38 | the part before the first delimiter is a prefix that does not contain it |
| GcsNames.WithoutParams | utils/gcs_utils.py:38 | dropping `;params` leaves a prefix of the path |
| GcsNames.DropParams | utils/gcs_utils.py:38 | the parameter-free path is a prefix and keeps out `?` and `#` |
| GcsNames.UrlPath | utils/gcs_utils.py:38-39 | `urlparse(url).path` contains no `?` or `#` |
| GcsNames.Basename | utils/gcs_utils.py:47-48 | `os.path.basename` is a `/`-free suffix of the path |
| GcsNames.SplitExtRoot | utils/gcs_utils.py:81 | `os.path.splitext(p)[0]` is `p`, or `p` cut at a final dot of its last component that is not a leading dot |
| GcsNames.ParseBlobPath | utils/gcs_utils.py:35-42 | only a public URL can fail, with IndexError, and a reference that is neither a public URL nor `gs://` is returned as is |
| GcsNames.AfterFirstSlash | utils/gcs_utils.py:39 | `split("/", 1)[1]` raises IndexError exactly when there is no `/` |
| GcsNames.LastOfFirstSlash | utils/gcs_utils.py:41 | `split("/", 3)[-1]` of a `gs://` reference without a further `/` is the rest itself |
| GcsNames.LStripSlashes | utils/gcs_utils.py:39 | `lstrip("/")` removes a prefix and leaves no leading `/` |
| GcsNames.ExtractFilename | utils/gcs_utils.py:44-48 | the file name of a recording contains no `/` |
| GcsNames.TranscriptStem | utils/gcs_utils.py:80-81 | the stem of the file name contains no `/` |
| GcsNames.FinalTranscriptBlob | utils/gcs_utils.py:80-88 | the final transcript lies directly in the transcripts folder and ends in `.txt` |
| GcsNames.TxtUnder | utils/gcs_utils.py:88 | `<folder><stem>.txt` starts with the folder, has no `/` after it and ends in `.txt` |
| GcsNames.NotificationName | routes.py:64 | the published name ends in `.txt` |
| GcsNames.ChunkPrefix | utils/gcs_utils.py:99 | defines the listing prefix `transcripts/<session>_part` |
| GcsNames.ChunkBlobName | utils/gcs_utils.py:72 | a chunk blob name starts with its session's listing prefix |
| GcsNames.PublicUrl | utils/gcs_utils.py:124 | defines the public address `https://storage.googleapis.com/<bucket>/<blob>` |
| GcsNames.RemoveUnsafeConcat | utils/gcs_utils.py:38 | removing unsafe characters distributes over concatenation |
| GcsNames.RemoveUnsafeOfPlain | utils/gcs_utils.py:38 | text without unsafe characters is kept as is |
| GcsNames.BeforeFirstConcat | utils/gcs_utils.py:38 | cutting at a delimiter absent from the first part cuts in the second |
| GcsNames.NetlocEndConcat | utils/gcs_utils.py:38 | the network location end skips a prefix without delimiters |
| GcsNames.PublicHostIsPlain | utils/gcs_utils.py:37 | the public host holds no character that `urlsplit` removes |
| GcsNames.CleanPlainPrefix | utils/gcs_utils.py:38 | cleaning a URL with a plain start only touches its tail |
| GcsNames.CleanPublicUrl | utils/gcs_utils.py:37-38 | cleaning a public URL only touches its tail |
| GcsNames.RemoveUnsafeHead | utils/gcs_utils.py:38 | a kept first character stays first |
| GcsNames.PublicHostParts | utils/gcs_utils.py:37 | the public host is the `https` scheme, `//` and the storage domain |
| GcsNames.SchemeOfHttps | utils/gcs_utils.py:38 | an `https:` URL splits into scheme `https` and the rest |
| GcsNames.HttpsIsLower | utils/gcs_utils.py:38 | the scheme `https` is already lower case |
| GcsNames.NetlocOfPublicUrl | utils/gcs_utils.py:38 | the network location of a public URL ends at the `/` of its path |
| GcsNames.PathBeforeQuery | utils/gcs_utils.py:38 | a query or fragment after the path is cut off |
| GcsNames.UrlPathOfCleaned | utils/gcs_utils.py:38-39 | the path of a cleaned public URL is the text between host and query |
| GcsNames.UrlPathOfPublicUrl | utils/gcs_utils.py:38-39 | the URL path of `https://storage.googleapis.com/<bucket>/<path>[?…]` is `/<bucket>/<path>` |
| GcsNames.AfterSlashOfSegment | utils/gcs_utils.py:39-41 | the part after a `/`-free first segment is what both splits return |
| GcsNames.ParseBlobPathOfPublicUrl | utils/gcs_utils.py:35-39 | parsing a public object URL, with or without a query, gives back the object path |
| GcsNames.PublicUrlHasHost | utils/gcs_utils.py:37 | a public URL starts with the public host |
| GcsNames.LStripOneSlash | utils/gcs_utils.py:39 | `lstrip("/")` removes a single leading slash |
| GcsNames.ParseBlobPathOfGsReference | utils/gcs_utils.py:40-41 | parsing `gs://<bucket>/<path>` gives back the object path |
| GcsNames.ExtractFilenameOfPublicUrl | utils/gcs_utils.py:46-47 | the query of a public URL does not reach the file name |
| GcsNames.BasenameAfterSlash | utils/gcs_utils.py:48 | the basename ignores the folders before a `/` |
| GcsNames.ExtractFilenameOfPlainPath | utils/gcs_utils.py:48 | a reference not starting with `h` is named by its last component |
| GcsNames.FinalTranscriptOfFilename | utils/gcs_utils.py:80-88 | the final transcript blob is `transcripts/<splitext(filename)[0]>.txt` |
| GcsNames.FinalTranscriptOfEitherReference | utils/gcs_utils.py:133-138 | a recording referred to by public URL or by `gs://` reference has the same final transcript |
| GcsNames.FinalTranscriptIgnoresFolder | utils/gcs_utils.py:133-138 | recordings with one file name in different folders share a final transcript |
| GcsNames.ChunkBlobNameInjective | utils/gcs_utils.py:72 | different indices of one session give different chunk blobs |
| GcsNames.ChunkOrderBelowTen | utils/gcs_utils.py:72 | for indices below ten the name order is the index order, both ways |
| GcsNames.ChunkTenSortsBeforeTwo | utils/gcs_utils.py:72 | `…_part10.txt` sorts before `…_part2.txt` |
| GcsNames.ChunkPrefixIsolatesSessions | utils/gcs_utils.py:99 | for `_`-free session ids a listing by one session's prefix holds no other session's chunk |
| GcsNames.SameBeforeUnderscore | utils/gcs_utils.py:99 | two `_`-free names followed by `_` agree when one text starts with the other |
| GcsStorage.Bucket.constructor | utils/gcs_utils.py:60 | a bucket with the given name and blobs |
| GcsStorage.Bucket.Upload | utils/gcs_utils.py:89-90 | an upload creates or replaces exactly that blob |
| GcsStorage.Bucket.Delete | utils/gcs_utils.py:115 | a deletion succeeds exactly for a stored blob the service does not refuse, and removes only that blob |
| GcsStorage.Bucket.ListPrefix | utils/gcs_utils.py:100 | the listing holds every blob under the prefix, each once, and nothing else |
| GcsStorage.Bucket.TranscriptExists | utils/gcs_utils.py:133-138 | defines `transcript_exists`: the recording's final transcript blob is stored |
| GcsStorage.Bucket.GetTranscriptContent | utils/gcs_utils.py:148-160 | the final transcript's text exactly when it exists, else FileNotFoundError naming its blob |
| GcsStorage.Bucket.DownloadAudio | utils/gcs_utils.py:56-67 | succeeds exactly when the parsed blob path is stored; a stored path is returned, a missing one raises the not-found error with that path |
| GcsStorage.UploadTranscriptChunk | utils/gcs_utils.py:69-75 | the chunk text is stored under `transcripts/<session>_part<i>.txt`, nothing else changes |
| GcsStorage.UploadTranscript | utils/gcs_utils.py:78-93 | the text is stored under the recording's final transcript blob, whose name is returned |
| GcsStorage.Contents | utils/gcs_utils.py:104 | the texts of the named blobs, in order |
| GcsStorage.MergeOrder | utils/gcs_utils.py:99-100 | the merge reads the session's chunk blobs, each once, in strictly increasing name order |
| GcsStorage.ContentsSnoc | utils/gcs_utils.py:103-104 | reading one more blob appends its text |
| GcsStorage.ConcatChunks | utils/gcs_utils.py:102-106 | the first loop builds the stripped join of the chunk texts in listing order |
| GcsStorage.DeleteChunks | utils/gcs_utils.py:113-118 | the cleanup loop removes exactly the chunks whose deletion is not refused |
| GcsStorage.StrictlySortedDistinct | utils/gcs_utils.py:100 | a strictly sorted listing has no repeats |
| GcsStorage.MergeSpec | utils/gcs_utils.py:96-130 | defines the merge's outcome: the stripped join in name order, the final upload only with both arguments, the deletion of every chunk not refused, and AttributeError without a recording name |
| GcsStorage.MergeTranscriptChunks | utils/gcs_utils.py:96-130 | the result, the bucket afterwards and the deletion attempts are those of `MergeSpec` |
| GcsStorage.MergeOfNoChunks | utils/gcs_utils.py:102-118 | with no chunks the merged text is empty and no deletion is attempted |
| GcsStorage.DistinctOccursOnce | utils/gcs_utils.py:113 | a name of a repeat-free listing occurs once |
| GcsStorage.MergeDeletesEachChunkOnce | utils/gcs_utils.py:113-118 | every chunk blob of the session is attempted exactly once, and nothing else |
| GcsStorage.MergeKeepsOnlyRefusedChunks | utils/gcs_utils.py:113-118 | after the merge a chunk remains exactly when its deletion was refused |
| GcsStorage.MergeWithoutRecordingFailsAfterDeleting | utils/gcs_utils.py:109-123 | without a recording name the merge raises AttributeError after deleting the chunks and uploads nothing |
| GcsStorage.MergeUploadsOnlyWithBoth | utils/gcs_utils.py:109-110 | without both the local audio and the recording name no final transcript is written |
| GcsStorage.MergeUploadsFinalTranscript | utils/gcs_utils.py:109-110 | with both, the final transcript holds the merged text |
| GcsStorage.MergeLeavesOtherBlobs | utils/gcs_utils.py:96-130 | blobs that are neither chunks of the session nor the final transcript are untouched |
| GcsStorage.MergeReadsChunkTenBeforeTwo | utils/gcs_utils.py:99-105 | with chunks 2 and 10 stored, the text of chunk 10 is merged before that of chunk 2 |
| GcsStorage.MergeUrlLocatesBlob | utils/gcs_utils.py:121-129 | the returned URL parses back to the returned blob |
| Calls.Bind | routes.py:114 | a call binds exactly when the positional arguments fit, every keyword names a parameter they left open, no keyword repeats and every parameter gets a value; otherwise TypeError |
| Calls.SubmittedTaskCannotBind | routes.py:114 | three positional arguments for `_background_process` raise TypeError |
| Calls.AutoMergeNotificationCannotBind | utils/whisper_utils.py:118 | the keywords `form_id` and `recording_name` raise TypeError, while the two positional calls bind |
| Whisper.AutoSelectModel | utils/whisper_utils.py:43-52 | the model picked for the machine's memory is always one of base, small, medium and large |
| Whisper.ChooseModel | utils/whisper_utils.py:73 | `model_size or auto_select_model()` never hands an empty model name to Whisper |
| Whisper.AutoSelectByThresholds | utils/whisper_utils.py:43-52 | the model is base, small, medium or large, one step up per 8, 16 and 24 GB threshold reached |
| Whisper.AutoSelectMonotone | utils/whisper_utils.py:43-52 | more memory never selects a smaller model |
| Whisper.ChooseModelAutoOnlyWithoutSize | utils/whisper_utils.py:73 | a non-empty model size wins whatever the memory; otherwise the memory decides |
| Whisper.WindowPrefix | utils/whisper_utils.py:97-105 | one recogniser answer per window so far |
| Whisper.WindowPrefixAt | utils/whisper_utils.py:97-105 | entry `k` is the recogniser's answer on window `k` |
| Whisper.WindowTextsAreRecognised | utils/whisper_utils.py:97-105 | one answer per window, each the recogniser's on that window's samples |
| Whisper.Successes | utils/whisper_utils.py:104-113 | the successful windows' texts are at most as many as the windows |
| Whisper.DivExact | utils/whisper_utils.py:111 | `i // chunk_seconds` recovers the window index |
| Whisper.WindowAtSecond | utils/whisper_utils.py:98-100 | the sample bounds `int(start * sr)` and `int(end * sr)` are those of the window |
| Whisper.SuccessesSnoc | utils/whisper_utils.py:104-113 | a successful window adds its text and a failed one nothing |
| Whisper.ChunksUploadedSnoc | utils/whisper_utils.py:110-111 | one more window uploads at most its own chunk |
| Whisper.TranscribeWindow | utils/whisper_utils.py:104-113 | one loop pass extends the transcript and the chunk uploads by that window |
| Whisper.TranscribeWindows | utils/whisper_utils.py:95-113 | the loop's transcript is the join of the successful windows' stripped texts and the bucket gets their chunks |
| Whisper.TranscribeResult | utils/whisper_utils.py:86-124 | defines the outcome: ZeroDivisionError for a zero sample rate, ValueError for a zero step, else the stripped join of the successful windows' texts |
| Whisper.TranscribeBucket | utils/whisper_utils.py:104-121 | defines the bucket afterwards: with a non-empty session id, the successful windows' chunks and then the auto-merge; otherwise the bucket is unchanged |
| Whisper.TranscribeAudioInChunks | utils/whisper_utils.py:69-124 | the model is `model_size or auto`; the result is the stripped transcript, or ZeroDivisionError for rate 0 and ValueError for a zero step; the bucket gets the chunks and the auto-merge; nothing is published |
| Whisper.UploadedIndicesAreSuccesses | utils/whisper_utils.py:110-111 | a chunk index is uploaded exactly when its window succeeded, in increasing order |
| Whisper.ChunksUploadedHoldsSuccesses | utils/whisper_utils.py:106-111 | every successful window's stripped text is stored under its chunk blob |
| Whisper.ChunksUploadedKeepsUnsent | utils/whisper_utils.py:112-113 | the chunk of a failed window, or past the last window, is left as it was |
| Whisper.ChunksUploadedKeepsOutsidePrefix | utils/whisper_utils.py:111 | blobs outside the session's chunk prefix are untouched |
| Whisper.ChunksUploadedAddsOnlyChunks | utils/whisper_utils.py:111 | every new blob is the chunk of a successful window |
| Whisper.SuccessesAppend | utils/whisper_utils.py:109 | the successes of two runs of windows concatenate |
| Whisper.FailedWindowAddsNothing | utils/whisper_utils.py:112-113 | a window whose transcription raises leaves the transcript unchanged |
| Whisper.LoopTranscriptOfSnoc | utils/whisper_utils.py:109 | a successful last window appends its stripped text before the final strip |
| Whisper.UploadedIndicesCanHaveGaps | utils/whisper_utils.py:111-113 | a failed middle window leaves a gap in the chunk indices |
| Registry.StatusText | routes.py:121-123 | defines how the feed prints a status, with `None` for an unknown job |
| Registry.StatusTextInjective | routes.py:121-123 | two statuses print the same text exactly when they are equal |
| Registry.Jobs.constructor | routes.py:22-23 | both tables start empty |
| Registry.Jobs.GetJobStatus | routes.py:32-35 | the job's status exactly when the table holds it, else none |
| Registry.Jobs.SetJobStatus | routes.py:27-29 | the last write wins; no other job and no session changes |
| Registry.Jobs.CancelJob | routes.py:38-39 | the job becomes `cancelled` whatever its status was |
| Registry.Jobs.CancelJobRoute | routes.py:205-209 | 404 with no change for an unknown job, else 200 and the job overwritten with `cancelled` |
| Registry.Jobs.JobStatusRoute | routes.py:226-230 | 404 exactly for an unknown job, else 200 with its status |
| Registry.Jobs.StatusBySessionRoute | routes.py:247-252 | 404 exactly when the session has no non-empty job id, else 200 with the job and its status |
| Registry.Jobs.ProcessAudio | routes.py:102-127 | 400 and no change without a recording name; else the job is `pending`, the session maps to it, the answer is 202 and the background task fails with TypeError |
| Registry.Jobs.Sleep | routes.py:125 | a cancel served during the sleep writes `cancelled` for a known job |
| Registry.Jobs.Poll | routes.py:119-125 | one poll reads the tracked status, stops on a terminal status or the timeout, and otherwise advances the job by one sleep |
| Registry.Jobs.EventStream | routes.py:116-125 | the feed is the start line and the poll lines of the statuses the job goes through; its last line is the job's final status; no other job changes |
| Registry.Jobs.Polls | routes.py:119-125 | the loop yields the poll lines and ends with a final line for the status it last read |
| Registry.PollContinues | routes.py:122-125 | a poll that does not stop comes before the timeout, adds its status line, and the next poll follows a 20-second sleep |
| Registry.ElapsedAtLeast | routes.py:122-125 | poll `k` comes at least `20 * k` seconds after the start |
| Registry.ElapsedMonotone | routes.py:122-125 | later polls are never earlier |
| Registry.Observed | routes.py:120 | a poll reads nothing exactly when the job was unknown at the start |
| Registry.PollPrefix | routes.py:121 | one status line per poll |
| Registry.PollLinesAfterPrefix | routes.py:119-125 | while no poll stops, the feed is their status lines followed by the rest |
| Registry.PollLinesStop | routes.py:122-124 | the first poll that stops adds its status line and the final line |
| Registry.PollLinesEndWithFinal | routes.py:122-124 | the feed ends with a final line repeating the last status read |
| Registry.PollLinesStopAtFirstStop | routes.py:119-125 | every line but the last reports a poll, in order, and only the last poll stops |
| Registry.PollLinesBounded | routes.py:122-125 | from poll `k` on there are at most `183 - k` lines |
| Registry.StreamBounded | routes.py:116-125 | a feed has between 3 and 184 lines |
| Registry.UnknownJobPolledUntilTimeout | routes.py:120-124 | an unknown job is polled until the timeout and reported as `None` |
| Registry.ProcessAudioJobOnlyPendingOrCancelled | routes.py:111-114 | with the background task unable to run, the job only reads `pending`, or `cancelled` after a cancel |
| Registry.ProcessAudioFeedNeverFinishes | routes.py:111-124 | without a cancel the feed never reports `done` or `error` |
| Registry.CancelEndsFeed | routes.py:122-125 | a first cancel after poll `c` ends the feed at the next poll with `cancelled` |
| Registry.PendingPolls | routes.py:121 | `n` status lines reading `pending` |
| Registry.NoCancelStaysPending | routes.py:111-114 | without a cancel the job stays `pending` |
| Registry.PendingPrefix | routes.py:121 | polls that read `pending` give `pending` status lines |
| Registry.MergeResponse | routes.py:183-194 | 200 with the text's length, session, blob and URL exactly when the merge returns; 500 for any exception |
| Registry.MergeTranscriptRoute | routes.py:177-194 | 400 with no change without a session id; otherwise the chunks not refused are deleted and the answer is 500 |
| Pipeline.Writes | routes.py:42-70 | defines the statuses a run writes, in order: a cancel before the start, then `done` for a stored transcript or `running` and the `try` block's writes, then a cancel after the end |
| Pipeline.BucketAfter | routes.py:44-63 | defines the bucket after a run: untouched for a stored transcript, a failed download or a cancel at the first check; else the transcription's uploads, then the final upload unless the transcription failed or a cancel came at the second check |
| Pipeline.Notice | routes.py:46-64 | defines the published name: the recording name on the short-circuit, the `.txt` name after the upload, nothing otherwise or when the publication fails |
| Pipeline.Raised | routes.py:44-47 | defines the escaping exception: only the short-circuit's failed publication, which no `try` covers |
| Pipeline.ApplyAppend | routes.py:27-29 | writing two runs of statuses is writing their concatenation |
| Pipeline.ServeCancel | routes.py:205-209 | a cancel request writes `cancelled` only for a job the table holds |
| Pipeline.Write | routes.py:27-29 | one more status write to the job |
| Pipeline.ShortCircuit | routes.py:44-47 | a stored transcript: `done`, and the recording's name published or the publish error escaping |
| Pipeline.Start | routes.py:49-70 | `running`, then what the `try` block writes, stores and publishes |
| Pipeline.Task | routes.py:44-70 | the background task writes `TaskWrites`, leaves the bucket as `BucketAfter` and publishes `Notice` |
| Pipeline.RunTry | routes.py:50-70 | the `try` block's writes, bucket and notification |
| Pipeline.Downloaded | routes.py:51-53 | a failed download writes `error`, else the background task goes on |
| Pipeline.Proceed | routes.py:52-60 | a cancel seen at the first check ends the background task without a write |
| Pipeline.TranscribePhase | routes.py:55-60 | a failed transcription writes `error`, a cancel seen at the second check ends the background task, else the upload follows; the bucket gets the chunks, the auto-merge and the upload |
| Pipeline.FinishPhase | routes.py:62-64 | the transcript replaces the final blob, the job goes `done`, and a failed notification adds `error` |
| Pipeline.BackgroundProcess | routes.py:42-70 | the job's writes, the bucket afterwards, the published name and the escaping exception are those of the run's specification |
| Pipeline.FinalStatusIsTerminal | routes.py:42-70 | every run leaves the job `done`, `error` or `cancelled` |
| Pipeline.LastOfAppend | routes.py:27-29 | the last write of two runs is the second run's last, if any |
| Pipeline.HappyPath | routes.py:49-63 | with nothing in the way the job goes `running` then `done` |
| Pipeline.StoredTranscriptSkipsWork | routes.py:44-47 | a stored transcript: never `running`, `done` written, the bucket untouched |
| Pipeline.PendingCancelIsLost | routes.py:49 | a cancel before the background task starts is overwritten by `running`, and the job ends `done` |
| Pipeline.CheckpointCancelHolds | routes.py:52-60 | a cancel during the download or the transcription ends the job `cancelled`, never `done` |
| Pipeline.CancelDuringDownloadLeavesBucket | routes.py:50-52 | a cancel at the first check leaves the bucket as it was and publishes nothing |
| Pipeline.CancelDuringTranscriptionSkipsUpload | routes.py:54-59 | a cancel at the second check skips the final upload: the bucket is what the transcription left, and nothing is published |
| Pipeline.CancelDuringTranscriptionKeepsAutoMerge | routes.py:54-59 | a job cancelled at the second check still has the auto-merged chunk text under its final transcript name |
| Pipeline.CancelDuringUploadIsLost | routes.py:59-63 | a cancel after the second check is overwritten by `done` |
| Pipeline.FailureEndsInError | routes.py:65-70 | a failed download or transcription ends the job `error`, never `done`, unless a later cancel overwrites it |
| Pipeline.PublishFailureAfterDone | routes.py:46-70 | a failing notification after the upload gives `running`, `done`, `error`; on the short-circuit it escapes with the job `done` |
| Pipeline.CancelAfterFinishWins | routes.py:205-209 | a cancel after the background task finished overwrites its last status |
| Pipeline.DoneMeansStored | routes.py:44-63 | a job that ends `done` has its final transcript in the bucket |
| Pipeline.UploadReplacesMergedTranscript | routes.py:62 | after an upload the final blob holds the background task's transcript, whatever the auto-merge stored there |

## Left out

- The Flask layer is not modelled: request parsing, JSON encoding, the swagger metadata, the `/health` and `/test` routes and logging. Handlers take their parsed arguments and return a code and a body.
- Threads and the executor are not modelled. Concurrency is reduced to cancel requests served at fixed points (`Pipeline.Moment`), or during a feed's sleep (`cancels(k)`).
- The clock, `uuid4` and `time.sleep` are parameters. Session and job ids are inputs, and elapsed time is whole seconds given by `lag`. Sub-second time is not modelled.
- The GCS client is a map from blob name to text. The bucket name comes from the environment and is a field. `TRANSCRIPT_BUCKET_PATH` is fixed at its default `transcripts`. Upload failures and network errors are not modelled. Refused deletions are an input set.
- GcsStorage.Bucket.DownloadAudio: returns the blob path instead of the name of a fresh temporary file, because the temporary file system is not modelled.
- Local files are not modelled: the `.txt` file written next to the audio and the `.transcript.txt` output file.
- Whisper, torch and torchaudio are not modelled. The recording is a sample count and a rate, and the speech model is a recogniser function. A `torchaudio.load` failure other than a zero rate, and `filetype` MIME detection, are left out.
- Floating point is not modelled. Durations are whole sample counts, and `int(start * sr)` and `int(end * sr)` are exact. Non-integer durations and float rounding are not captured.
- `urlparse` is modelled for the parts these references use. IPv6 netlocs and NFKC netloc validation are left out.
- `publish_to_pubsub` is not modelled beyond its signature and a flag saying whether it raises. Its topic check, JSON message and future callback belong to utils/pubsub_processing_utils.py. Postgres, OpenAI and main.py are not part of this model.
- Pipeline.BackgroundProcess: assumes a recording name is given. `form_id` and `audio_id` only reach the publish call, or nothing.
- Registry.Jobs.ProcessAudio: does not run the background task. The submitted call cannot bind, so nothing runs `_background_process` from the route. `Pipeline.BackgroundProcess` models the background task as if it were called with its five arguments.
- `transcribe_audio` (whisper_utils.py:54-67) is not called by the core and is left out.
