/** `VoiceAssistant` of sonic_test/voice_streaming.py: final transcripts are queued, a pipeline
    turn takes one, handles barge-in, asks the model for a reply and has it synthesised into the
    audio queue by a Polly task it awaits; `stop` cancels what still runs and empties both queues.
    The reply text, the audio chunks a synthesis queues, and the stop event are inputs. */
module VoiceStreaming {
  import opened Options
  import opened Tasks
  import opened Transcripts
  import opened PyStr
  import opened Chunking

  /** One chunk of PCM audio read from Polly's `AudioStream`. */
  type AudioChunk = seq<Byte>

  /** The fields of `VoiceAssistant` the pipeline reads and writes. */
  datatype Assistant = Assistant(
    transcripts: seq<string>,     // `transcript_queue`, front first
    audio: seq<AudioChunk>,       // `audio_output_queue`, front first
    stopSet: bool,                // `stop_event.is_set()`
    services: seq<Handle>,        // transcription, pipeline and playback tasks once started
    polly: Option<Handle>,        // `current_polly_task`
    tasks: seq<Task>,             // every task the assistant created
    speaking: bool)               // `is_assistant_speaking`

  /** Every handle the assistant holds names a task of its log. */
  ghost predicate Wf(s: Assistant) {
    && InLog(s.tasks, s.polly)
    && (forall i :: 0 <= i < |s.services| ==> s.services[i] < |s.tasks|)
  }

  /** `VoiceAssistant()`: empty queues, nothing started, not speaking. */
  function Initial(): (r: Assistant)
    ensures Wf(r) && !r.speaking && r.transcripts == [] && r.audio == []
  {
    Assistant([], [], false, [], None, [], false)
  }

  /** `start`: the transcription, pipeline and playback tasks are created. */
  function Started(s: Assistant): (r: Assistant)
    requires Wf(s)
    ensures Wf(r) && |r.services| == 3 && |r.tasks| == |s.tasks| + 3
    ensures forall i :: 0 <= i < 3 ==> r.services[i] == |s.tasks| + i && r.tasks[r.services[i]].state == Running
    ensures r.tasks[..|s.tasks|] == s.tasks
    ensures r.transcripts == s.transcripts && r.audio == s.audio && r.speaking == s.speaking && r.polly == s.polly
  {
    var n := |s.tasks|;
    var tasks := s.tasks + [Task(Service("transcription"), Running), Task(Service("pipeline"), Running), Task(Service("playback"), Running)];
    s.(services := [n, n + 1, n + 2], tasks := tasks)
  }

  /** The barge-in block of `_run_bedrock_polly_pipeline`: while speaking, a Polly task that has
      not finished is cancelled, the audio queue is emptied and the flag is reset. */
  function AfterBargeIn(s: Assistant): (r: Assistant)
    requires Wf(s)
    ensures Wf(r) && !r.speaking && |r.tasks| == |s.tasks| && SameExcept(s.tasks, r.tasks, s.polly)
    ensures r.transcripts == s.transcripts && r.polly == s.polly && r.stopSet == s.stopSet && r.services == s.services
    ensures !s.speaking ==> r == s
    ensures s.speaking ==> r.audio == [] && !Pending(r.tasks, r.polly)
    ensures s.speaking && Pending(s.tasks, s.polly) ==> r.tasks[s.polly.value].state == Cancelled
    ensures !Pending(s.tasks, s.polly) ==> r.tasks == s.tasks
  {
    if !s.speaking then s
    else
      var tasks := if Pending(s.tasks, s.polly) then Cancel(s.tasks, s.polly.value) else s.tasks;
      s.(tasks := tasks, audio := [], speaking := false)
  }

  /** The pipeline skips synthesis when the model call raised, the reply is empty, or the stop
      event is set. */
  predicate SkipsSpeech(s: Assistant, reply: Option<string>) {
    reply.None? || reply.value == "" || s.stopSet
  }

  /** One turn of `_run_bedrock_polly_pipeline` on the oldest transcript: barge-in, the model's
      `reply` (`None` when the call raised), then, unless skipped, a Polly task for the reply that
      queues `chunks` and that the turn awaits to its end. */
  function Turn(s: Assistant, reply: Option<string>, chunks: seq<AudioChunk>): (r: Assistant)
    requires Wf(s) && s.transcripts != []
    ensures Wf(r) && !r.speaking
    ensures r.transcripts == s.transcripts[1..] && r.stopSet == s.stopSet && r.services == s.services
    ensures var b := AfterBargeIn(s.(transcripts := s.transcripts[1..]));
      && (SkipsSpeech(s, reply) ==> r == b)
      && (!SkipsSpeech(s, reply) ==>
            && r.polly == Some(|s.tasks|) && r.tasks == b.tasks + [Task(Synthesis(reply.value), Done)]
            && r.audio == b.audio + chunks)
    ensures r.audio == (if s.speaking then [] else s.audio) + (if SkipsSpeech(s, reply) then [] else chunks)
    ensures |r.tasks| == |s.tasks| + (if SkipsSpeech(s, reply) then 0 else 1)
  {
    var b := AfterBargeIn(s.(transcripts := s.transcripts[1..]));
    if SkipsSpeech(s, reply) then
      assert b.audio + [] == b.audio;
      b
    else
      var h := |b.tasks|;
      var tasks := Complete(Spawn(b.tasks, Synthesis(reply.value)), h);
      b.(polly := Some(h), tasks := tasks, audio := b.audio + chunks, speaking := false)
  }

  /** `tasks[h].cancel()` for each `h` of `hs` that has not finished, in order. */
  function CancelAll(tasks: seq<Task>, hs: seq<Handle>): (r: seq<Task>)
    requires forall i :: 0 <= i < |hs| ==> hs[i] < |tasks|
    ensures |r| == |tasks|
    decreases |hs|
  {
    if hs == [] then tasks else CancelAll(Cancel(tasks, hs[0]), hs[1..])
  }

  /** After `CancelAll`, each listed task that was running is cancelled, a task that had
      already finished keeps its state, and every task not listed is as it was. */
  lemma {:induction false} CancelAllSpec(tasks: seq<Task>, hs: seq<Handle>)
    requires forall i :: 0 <= i < |hs| ==> hs[i] < |tasks|
    ensures forall i :: 0 <= i < |hs| ==> CancelAll(tasks, hs)[hs[i]].state != Running
    ensures forall i :: 0 <= i < |hs| && tasks[hs[i]].state == Running ==> CancelAll(tasks, hs)[hs[i]].state == Cancelled
    ensures forall j :: 0 <= j < |tasks| && tasks[j].state != Running ==> CancelAll(tasks, hs)[j] == tasks[j]
    ensures forall j :: 0 <= j < |tasks| && j !in hs ==> CancelAll(tasks, hs)[j] == tasks[j]
    ensures forall j :: 0 <= j < |tasks| ==> CancelAll(tasks, hs)[j].work == tasks[j].work
    decreases |hs|
  {
    if hs != [] {
      var t1 := Cancel(tasks, hs[0]);
      CancelAllSpec(t1, hs[1..]);
      var r := CancelAll(tasks, hs);
      assert t1[hs[0]].state != Running;
      forall i | 0 <= i < |hs|
        ensures r[hs[i]].state != Running
        ensures tasks[hs[i]].state == Running ==> r[hs[i]].state == Cancelled
      {
        if i > 0 {
          assert hs[1..][i - 1] == hs[i];
        } else if hs[0] in hs[1..] {
          var k :| 0 <= k < |hs[1..]| && hs[1..][k] == hs[0];
        }
      }
    }
  }

  /** `tasks_to_cancel` of `stop`: the three service tasks, and the Polly task if it has not
      finished. */
  function ToCancel(s: Assistant): (r: seq<Handle>)
    requires Wf(s)
    ensures forall i :: 0 <= i < |r| ==> r[i] < |s.tasks|
    ensures |r| == |s.services| + (if Pending(s.tasks, s.polly) then 1 else 0) && r[..|s.services|] == s.services
    ensures Pending(s.tasks, s.polly) ==> r[|r| - 1] == s.polly.value
  {
    s.services + (if Pending(s.tasks, s.polly) then [s.polly.value] else [])
  }

  /** `stop` on an assistant `start` never reached: `__init__` creates no service task, so
      building `tasks_to_cancel` fails on the missing `transcribe_task` attribute right after the
      stop event is set. */
  predicate StopRaises(s: Assistant)
  {
    s.services == []
  }

  /** `stop`: the stop event is set; then, on a started assistant, every service task and the
      Polly task that has not finished is cancelled and both queues are emptied. On an assistant
      that was never started, `stop` raises once the event is set and nothing else changes. */
  function AfterStop(s: Assistant): (r: Assistant)
    requires Wf(s)
    ensures Wf(r) && r.stopSet
    ensures StopRaises(s) ==> r == s.(stopSet := true)
    ensures !StopRaises(s) ==> r.transcripts == [] && r.audio == []
    ensures r.speaking == s.speaking && r.polly == s.polly && r.services == s.services
  {
    if StopRaises(s) then s.(stopSet := true)
    else s.(stopSet := true, tasks := CancelAll(s.tasks, ToCancel(s)), transcripts := [], audio := [])
  }

  /** After `stop` no service task is still running, and after a `stop` that does not raise
      neither is the Polly task. */
  lemma StopEndsEverything(s: Assistant)
    requires Wf(s)
    ensures forall i :: 0 <= i < |s.services| ==> AfterStop(s).tasks[s.services[i]].state != Running
    ensures !StopRaises(s) ==> !Pending(AfterStop(s).tasks, s.polly)
  {
    if !StopRaises(s) {
      var hs := ToCancel(s);
      CancelAllSpec(s.tasks, hs);
      forall i | 0 <= i < |s.services|
        ensures AfterStop(s).tasks[s.services[i]].state != Running
      {
        assert hs[i] == s.services[i];
      }
      if Pending(s.tasks, s.polly) {
        assert hs[|hs| - 1] == s.polly.value;
      } else if s.polly.Some? {
        if s.polly.value !in hs {
          assert AfterStop(s).tasks[s.polly.value] == s.tasks[s.polly.value];
        }
      }
    }
  }

  /** What happens to the assistant, one step at a time. */
  datatype Event =
    | Begin                                           // `start`
    | Heard(results: seq<TranscriptResult>)           // a transcript event
    | Replied(reply: Option<string>, chunks: seq<AudioChunk>) // a pipeline turn
    | Stopped                                         // `stop`

  /** The assistant after `events`; a turn with nothing queued waits and changes nothing. */
  function Run(s: Assistant, events: seq<Event>): (r: Assistant)
    requires Wf(s)
    ensures Wf(r)
    decreases |events|
  {
    if events == [] then s else Run(Next(s, events[0]), events[1..])
  }

  /** The service tasks run: `start` has created them and `stop` has not been called. Transcript
      events come from the transcription task and turns from the pipeline task, whose loop ends
      once the stop event is set, so neither happens outside this window. */
  predicate Serving(s: Assistant)
  {
    s.services != [] && !s.stopSet
  }

  /** What one event does to the assistant. */
  function Next(s: Assistant, e: Event): (r: Assistant)
    requires Wf(s)
    ensures Wf(r)
    ensures !s.speaking ==> !r.speaking
  {
    match e
    case Begin => Started(s)
    case Heard(results) =>
      if !Serving(s) then s else s.(transcripts := s.transcripts + FirstAlternatives(results))
    case Replied(reply, chunks) =>
      if !Serving(s) || s.transcripts == [] then s else Turn(s, reply, chunks)
    case Stopped => AfterStop(s)
  }

  /** `is_assistant_speaking` is only ever true inside the Polly task the pipeline awaits, whose
      `finally` resets it: in any run from a quiet state it is false whenever the pipeline looks at
      it, so the barge-in block never runs. */
  lemma {:induction false} NeverSpeakingBetweenTurns(s: Assistant, events: seq<Event>)
    requires Wf(s) && !s.speaking
    ensures !Run(s, events).speaking
    ensures AfterBargeIn(Run(s, events)) == Run(s, events)
    decreases |events|
  {
    if events != [] {
      NeverSpeakingBetweenTurns(Next(s, events[0]), events[1..]);
    }
  }

  /** The consequence: a user who speaks while the previous reply is still queued for playback
      does not silence it. From a fresh assistant, a reply queues one chunk; the next utterance is
      taken with that chunk still at the front of the audio queue. */
  lemma StaleAudioSurvivesBargeIn(chunk: AudioChunk)
    ensures var s := Run(Initial(), [Begin, Heard([TranscriptResult(false, ["hello"])]), Replied(Some("hi"), [chunk]),
                                     Heard([TranscriptResult(false, ["stop"])])]);
      && s.transcripts == ["stop"] && s.audio == [chunk]
      && Turn(s, None, []).audio == [chunk]
  {
    var r1 := [TranscriptResult(false, ["hello"])];
    var r2 := [TranscriptResult(false, ["stop"])];
    var e3 := [Heard(r2)];
    var e2 := [Replied(Some("hi"), [chunk])] + e3;
    var e1 := [Heard(r1)] + e2;
    var s0 := Next(Initial(), Begin);
    var s1 := Next(s0, Heard(r1));
    HelloHeard(s0);
    var s2 := Next(s1, Replied(Some("hi"), [chunk]));
    HiQueued(s1, chunk);
    var s3 := Next(s2, Heard(r2));
    StopHeard(s2, chunk);
    assert Run(s3, []) == s3;
    RunStep(s2, e3);
    RunStep(s1, e2);
    RunStep(s0, e1);
    RunStep(Initial(), [Begin] + e1);
    assert [Begin] + e1 == [Begin, Heard(r1), Replied(Some("hi"), [chunk]), Heard(r2)];
  }

  /** A run goes through its first event, then the rest. */
  lemma RunStep(s: Assistant, events: seq<Event>)
    requires Wf(s) && events != []
    ensures Run(s, events) == Run(Next(s, events[0]), events[1..])
  {
  }

  lemma HelloHeard(s0: Assistant)
    requires s0 == Next(Initial(), Begin)
    ensures var s1 := Next(s0, Heard([TranscriptResult(false, ["hello"])]));
      && s1.transcripts == ["hello"] && s1.audio == [] && !s1.speaking && Serving(s1)
  {
    FirstTextOfWord("hello");
  }

  lemma HiQueued(s1: Assistant, chunk: AudioChunk)
    requires Wf(s1) && s1.transcripts == ["hello"] && s1.audio == [] && !s1.speaking && Serving(s1)
    ensures var s2 := Next(s1, Replied(Some("hi"), [chunk]));
      && s2.transcripts == [] && s2.audio == [chunk] && !s2.speaking && Serving(s2)
  {
    assert !SkipsSpeech(s1, Some("hi"));
    assert [] + [chunk] == [chunk];
  }

  lemma StopHeard(s2: Assistant, chunk: AudioChunk)
    requires Wf(s2) && s2.transcripts == [] && s2.audio == [chunk] && !s2.speaking && Serving(s2)
    ensures var s3 := Next(s2, Heard([TranscriptResult(false, ["stop"])]));
      && s3.transcripts == ["stop"] && s3.audio == [chunk]
      && Turn(s3, None, []).audio == [chunk]
  {
    FirstTextOfWord("stop");
    var s3 := Next(s2, Heard([TranscriptResult(false, ["stop"])]));
    assert SkipsSpeech(s3, None);
    assert [chunk] + [] == [chunk];
  }

  /** A one-result event with a single word forwards that word. */
  lemma FirstTextOfWord(w: string)
    requires w == "hello" || w == "stop"
    ensures FirstAlternatives([TranscriptResult(false, [w])]) == [w]
  {
    assert [TranscriptResult(false, [w])][..0] == [];
    StripSpec(w);
    assert IsStripped(w) by {
      assert !IsSpace(w[0]) && !IsSpace(w[|w| - 1]);
    }
  }

  /** Barge-in as the comment on the block describes it: a new utterance interrupts the
      assistant whenever its speech is still pending, that is while it is speaking or while audio
      of an earlier reply waits in the queue. */
  function AfterBargeInIntended(s: Assistant): (r: Assistant)
    requires Wf(s)
    ensures Wf(r) && !r.speaking && r.audio == [] && |r.tasks| == |s.tasks|
    ensures r.transcripts == s.transcripts && r.polly == s.polly && r.stopSet == s.stopSet && r.services == s.services
    ensures !Pending(r.tasks, r.polly)
    ensures !s.speaking && s.audio == [] && !Pending(s.tasks, s.polly) ==> r == s
  {
    if !s.speaking && s.audio == [] && !Pending(s.tasks, s.polly) then s
    else
      var tasks := if Pending(s.tasks, s.polly) then Cancel(s.tasks, s.polly.value) else s.tasks;
      s.(tasks := tasks, audio := [], speaking := false)
  }

  /** A pipeline turn with the intended barge-in. */
  function TurnIntended(s: Assistant, reply: Option<string>, chunks: seq<AudioChunk>): (r: Assistant)
    requires Wf(s) && s.transcripts != []
    ensures Wf(r) && !r.speaking && r.transcripts == s.transcripts[1..]
  {
    var b := AfterBargeInIntended(s.(transcripts := s.transcripts[1..]));
    if SkipsSpeech(s, reply) then b
    else
      var h := |b.tasks|;
      var tasks := Complete(Spawn(b.tasks, Synthesis(reply.value)), h);
      b.(polly := Some(h), tasks := tasks, audio := b.audio + chunks, speaking := false)
  }

  /** With the intended barge-in a new utterance always silences earlier replies: after the turn
      the audio queue holds exactly this turn's speech. */
  lemma IntendedTurnSilencesEarlierReplies(s: Assistant, reply: Option<string>, chunks: seq<AudioChunk>)
    requires Wf(s) && s.transcripts != []
    ensures TurnIntended(s, reply, chunks).audio == if SkipsSpeech(s, reply) then [] else chunks
  {
    assert [] + chunks == chunks;
  }

  /** The intended turn differs from the written one only when speech of an earlier reply is
      still pending. */
  lemma IntendedAgreesWhenQuiet(s: Assistant, reply: Option<string>, chunks: seq<AudioChunk>)
    requires Wf(s) && s.transcripts != [] && !s.speaking && s.audio == [] && !Pending(s.tasks, s.polly)
    ensures TurnIntended(s, reply, chunks) == Turn(s, reply, chunks)
  {
  }

  class VoiceAssistant {
    var transcriptQueue: seq<string>
    var audioOutputQueue: seq<AudioChunk>
    var stopEvent: bool
    var services: seq<Handle>
    var currentPollyTask: Option<Handle>
    var tasks: seq<Task>
    var isAssistantSpeaking: bool

    function State(): Assistant
      reads this
    {
      Assistant(transcriptQueue, audioOutputQueue, stopEvent, services, currentPollyTask, tasks, isAssistantSpeaking)
    }

    ghost predicate Valid()
      reads this
    {
      Wf(State())
    }

    constructor ()
      ensures Valid() && State() == Initial()
    {
      transcriptQueue, audioOutputQueue, stopEvent := [], [], false;
      services, currentPollyTask, tasks, isAssistantSpeaking := [], None, [], false;
    }

    /** `MyTranscribeHandler.handle_transcript_event`: partial results, results without
        alternatives and empty texts are skipped; the stripped first alternative of every other
        result is put on `transcript_queue`, in order. */
    method HandleTranscriptEvent(results: seq<TranscriptResult>)
      modifies this
      ensures transcriptQueue == old(transcriptQueue) + FirstAlternatives(results)
      ensures State() == old(State()).(transcripts := transcriptQueue)
    {
      var i := 0;
      while i < |results|
        invariant 0 <= i <= |results|
        invariant transcriptQueue == old(transcriptQueue) + FirstAlternatives(results[..i])
        invariant State() == old(State()).(transcripts := transcriptQueue)
      {
        var result := results[i];
        FirstAlternativesSnoc(results, i);
        if result.isPartial || result.alternatives == [] {
          ExtendBy(old(transcriptQueue), FirstAlternatives(results[..i]), [], FirstAlternatives(results[..i + 1]));
          i := i + 1;
          continue;
        }
        var text := Strip(result.alternatives[0]);
        if text != [] {
          transcriptQueue := transcriptQueue + [text];
          ExtendBy(old(transcriptQueue), FirstAlternatives(results[..i]), [text], FirstAlternatives(results[..i + 1]));
        } else {
          ExtendBy(old(transcriptQueue), FirstAlternatives(results[..i]), [], FirstAlternatives(results[..i + 1]));
        }
        i := i + 1;
      }
      assert results[..i] == results;
    }

    /** `start` */
    method Start()
      requires Valid()
      modifies this
      ensures Valid() && State() == Started(old(State()))
    {
      var n := |tasks|;
      tasks := tasks + [Task(Service("transcription"), Running), Task(Service("pipeline"), Running), Task(Service("playback"), Running)];
      services := [n, n + 1, n + 2];
    }

    /** `while not self.audio_output_queue.empty(): self.audio_output_queue.get_nowait()` */
    method DrainAudio()
      modifies this
      ensures audioOutputQueue == []
      ensures State() == old(State()).(audio := [])
    {
      while audioOutputQueue != []
        invariant State() == old(State()).(audio := audioOutputQueue)
        decreases |audioOutputQueue|
      {
        audioOutputQueue := audioOutputQueue[1..];
      }
    }

    /** The same drain on `transcript_queue`. */
    method DrainTranscripts()
      modifies this
      ensures transcriptQueue == []
      ensures State() == old(State()).(transcripts := [])
    {
      while transcriptQueue != []
        invariant State() == old(State()).(transcripts := transcriptQueue)
        decreases |transcriptQueue|
      {
        transcriptQueue := transcriptQueue[1..];
      }
    }

    /** The barge-in block. */
    method BargeIn()
      requires Valid()
      modifies this
      ensures Valid() && State() == AfterBargeIn(old(State()))
    {
      if isAssistantSpeaking {
        if currentPollyTask.Some? && tasks[currentPollyTask.value].state == Running {
          tasks := Cancel(tasks, currentPollyTask.value);
        }
        DrainAudio();
        isAssistantSpeaking := false;
      }
    }

    /** `_synthesize_and_queue_audio` run to its end as task `h`: the flag is set on entry,
        the chunks read before the stream ended, the task was cancelled or an error occurred are
        queued, and `finally` resets the flag on every one of those paths. */
    method SynthesizeAndQueueAudio(h: Handle, chunks: seq<AudioChunk>)
      requires Valid() && h < |tasks|
      modifies this
      ensures Valid() && !isAssistantSpeaking
      ensures audioOutputQueue == old(audioOutputQueue) + chunks
      ensures tasks == Complete(old(tasks), h)
      ensures transcriptQueue == old(transcriptQueue) && stopEvent == old(stopEvent)
      ensures services == old(services) && currentPollyTask == old(currentPollyTask)
    {
      isAssistantSpeaking := true;
      audioOutputQueue := audioOutputQueue + chunks;
      isAssistantSpeaking := false;
      tasks := Complete(tasks, h);
    }

    /** One turn of `_run_bedrock_polly_pipeline`, taking the oldest transcript. */
    method PipelineTurn(reply: Option<string>, chunks: seq<AudioChunk>)
      requires Valid() && transcriptQueue != []
      modifies this
      ensures Valid() && State() == Turn(old(State()), reply, chunks)
    {
      transcriptQueue := transcriptQueue[1..];
      BargeIn();
      if reply.None? || reply.value == "" || stopEvent {
        return;
      }
      var h := |tasks|;
      currentPollyTask := Some(h);
      tasks := Spawn(tasks, Synthesis(reply.value));
      SynthesizeAndQueueAudio(h, chunks);
    }

    /** The barge-in block as intended: pending speech of an earlier reply, whether still being
        synthesised or already queued, is silenced. */
    method BargeInIntended()
      requires Valid()
      modifies this
      ensures Valid() && State() == AfterBargeInIntended(old(State()))
    {
      var pending := currentPollyTask.Some? && tasks[currentPollyTask.value].state == Running;
      if isAssistantSpeaking || audioOutputQueue != [] || pending {
        if pending {
          tasks := Cancel(tasks, currentPollyTask.value);
        }
        DrainAudio();
        isAssistantSpeaking := false;
      }
    }

    /** A pipeline turn with the intended barge-in. */
    method PipelineTurnIntended(reply: Option<string>, chunks: seq<AudioChunk>)
      requires Valid() && transcriptQueue != []
      modifies this
      ensures Valid() && State() == TurnIntended(old(State()), reply, chunks)
    {
      transcriptQueue := transcriptQueue[1..];
      BargeInIntended();
      if reply.None? || reply.value == "" || stopEvent {
        return;
      }
      var h := |tasks|;
      currentPollyTask := Some(h);
      tasks := Spawn(tasks, Synthesis(reply.value));
      SynthesizeAndQueueAudio(h, chunks);
    }

    /** `stop` */
    method Stop() returns (raised: bool)
      requires Valid()
      modifies this
      ensures raised == StopRaises(old(State()))
      ensures Valid() && State() == AfterStop(old(State()))
    {
      stopEvent := true;
      if services == [] {
        return true;
      }
      var toCancel := ToCancel(State());
      var i := 0;
      while i < |toCancel|
        invariant 0 <= i <= |toCancel| && |tasks| == |old(tasks)|
        invariant CancelAll(tasks, toCancel[i..]) == CancelAll(old(tasks), toCancel)
        invariant State() == old(State()).(stopSet := true, tasks := tasks)
      {
        assert toCancel[i..][1..] == toCancel[i + 1..];
        var h := toCancel[i];
        if tasks[h].state == Running {
          tasks := Cancel(tasks, h);
        }
        i := i + 1;
      }
      DrainTranscripts();
      DrainAudio();
      raised := false;
    }
  }
}
