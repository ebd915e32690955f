/** The transcript filter of experiment/chatbot/voice_chatbot.py, whose handler awaits a callback
    for each text instead of storing it. The callback's own work (the model call and speech) is
    not modelled; the texts it is called with, in order, are. */
module VoiceChatbot {
  import opened PyStr
  import opened Transcripts

  /** `MyTranscribeHandler.handle_transcript_event`: the texts passed to `output_callback`, one
      call per final result whose first alternative is non-empty once stripped. */
  method HandleTranscriptEvent(results: seq<TranscriptResult>) returns (callbacks: seq<string>)
    ensures callbacks == FirstAlternatives(results)
    ensures Forwardable(callbacks) && |callbacks| <= |results|
  {
    callbacks := [];
    var i := 0;
    while i < |results|
      invariant 0 <= i <= |results|
      invariant callbacks == FirstAlternatives(results[..i])
      invariant |callbacks| <= i
    {
      var result := results[i];
      FirstAlternativesSnoc(results, i);
      i := i + 1;
      if result.isPartial {
        continue;
      }
      if result.alternatives != [] {
        var text := Strip(result.alternatives[0]);
        if text != [] {
          callbacks := callbacks + [text];
        }
      }
    }
    assert results[..i] == results;
    FirstAlternativesForwardable(results);
  }
}
