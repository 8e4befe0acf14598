/** How Python binds the arguments of a call to the parameters of a function
    without defaults, which decides two calls of the core: the background task submitted
    at routes.py:114 and the notification at utils/whisper_utils.py:118. */
module Calls {
  import opened Wrappers

  /** The parameters of `_background_process` (routes.py:42). */
  const BackgroundParams: seq<string> := ["form_id", "audio_id", "recording_name", "job_id", "session_id"]

  /** The parameters of `publish_to_pubsub` (utils/pubsub_processing_utils.py:16). */
  const PublishParams: seq<string> := ["db_id", "transcript_name"]

  predicate NoRepeats(s: seq<string>) {
    forall i, j :: 0 <= i < j < |s| ==> s[i] != s[j]
  }

  /** Binding `positional` positional arguments and the named keyword
      arguments: too many positional arguments, an unknown or repeated
      keyword, or a parameter left without a value raise TypeError. */
  function Bind(params: seq<string>, positional: nat, keywords: seq<string>): (r: Result<(), Exception>)
    ensures r.Ok? <==> positional <= |params| && NoRepeats(keywords)
                       && (forall k :: 0 <= k < |keywords| ==> keywords[k] in params[positional..])
                       && positional + |keywords| == |params|
    ensures r.Err? ==> r.error == TypeError
  {
    if positional > |params| then Err(TypeError)
    else if exists k :: 0 <= k < |keywords| && keywords[k] !in params[positional..] then Err(TypeError)
    else if !NoRepeats(keywords) then Err(TypeError)
    else if positional + |keywords| != |params| then Err(TypeError)
    else Ok(())
  }

  /** `executor.submit(_background_process, recording_name, job_id, session_id)`
      passes three arguments to five parameters: the background task raises TypeError as
      soon as the executor runs it. */
  lemma SubmittedTaskCannotBind()
    ensures Bind(BackgroundParams, 3, []) == Err(TypeError)
  {
  }

  /** `publish_to_pubsub(form_id=..., recording_name=...)` names parameters the
      function does not have, so the auto-merge notification always raises
      TypeError, while the positional calls of routes.py:46 and routes.py:64 bind. */
  lemma AutoMergeNotificationCannotBind()
    ensures Bind(PublishParams, 0, ["form_id", "recording_name"]) == Err(TypeError)
    ensures Bind(PublishParams, 2, []) == Ok(())
  {
    var keywords := ["form_id", "recording_name"];
    assert PublishParams[0..] == ["db_id", "transcript_name"];
    assert keywords[0] != "db_id" && keywords[0] != "transcript_name";
    assert keywords[0] !in PublishParams[0..];
  }
}
