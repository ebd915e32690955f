/** The voice-command controller of app2.py: the module-level `is_active` and `current_task`
    with the functions that change them, the Bedrock intent classification wrapped in
    `retry_sync`, the transcript handler, and the `write_chunks` upload loop. */
module App2 {
  import opened Options
  import opened Tasks
  import opened PyStr
  import opened Intents
  import opened Transcripts
  import opened Chunking
  import opened RetryUtils
  import FlowUtils
  import Live

  /** What one `invoke_model` call of `_invoke_sync` yields. `Raised`: the call, the JSON
      decoding, or reading `content[0]` raised. `NoContent`: `content` is missing, not a list,
      or empty. `FirstText(t)`: `content[0].get("text", "")` is `t`. */
  datatype Reply = Raised | NoContent | FirstText(text: string)

  /** The intents `_invoke_sync` accepts from the model. */
  predicate Recognised(t: string) {
    t == START || t == STOP || t == INTERRUPT || t == COMMAND
  }

  /** One call of `_invoke_sync`: a reply it cannot use is COMMAND, a failure is re-raised to
      `retry_sync`. */
  function InvokeSync(reply: Reply): (r: Outcome<string>)
    ensures r.Raised? <==> reply.Raised?
    ensures r.Raised? ==> r.caught
    ensures r.Returned? ==> Recognised(r.value)
    ensures reply.NoContent? ==> r == Returned(COMMAND)
    ensures reply.FirstText? && Recognised(Upper(Strip(reply.text))) ==> r == Returned(Upper(Strip(reply.text)))
    ensures reply.FirstText? && !Recognised(Upper(Strip(reply.text))) ==> r == Returned(COMMAND)
  {
    match reply
    case Raised => Outcome.Raised(true)
    case NoContent => Returned(COMMAND)
    case FirstText(t) =>
      var u := Upper(Strip(t));
      if Recognised(u) then Returned(u) else Returned(COMMAND)
  }

  /** `classify_intent`: `_invoke_sync` under `retry_sync(retries=2, delay=0.5)`, where
      `replies(k)` is what attempt `k` yields; IGNORE once both attempts raised. */
  function ClassifyIntent(replies: nat -> Reply): (r: string)
    ensures Recognised(r) || r == IGNORE
    ensures r == IGNORE <==> replies(0).Raised? && replies(1).Raised?
    ensures !replies(0).Raised? ==> Outcome.Returned(r) == InvokeSync(replies(0))
    ensures replies(0).Raised? && !replies(1).Raised? ==> Outcome.Returned(r) == InvokeSync(replies(1))
  {
    var attempts := (k: nat) => InvokeSync(replies(k));
    var run := Retry(2, 0.5, 2.0, attempts);
    ClassifierRun(replies);
    if run.result.Success? then run.result.value else IGNORE
  }

  /** What `retry_sync` makes of two `_invoke_sync` attempts: the first that does not raise
      decides, and the call fails only when both raise. */
  lemma ClassifierRun(replies: nat -> Reply)
    ensures var run := Retry(2, 0.5, 2.0, (k: nat) => InvokeSync(replies(k)));
      && (!replies(0).Raised? ==> run.result == Success(InvokeSync(replies(0)).value))
      && (replies(0).Raised? && !replies(1).Raised? ==> run.result == Success(InvokeSync(replies(1)).value))
      && (replies(0).Raised? && replies(1).Raised? ==> run.result == Failed(true))
  {
    var attempts := (k: nat) => InvokeSync(replies(k));
    if !replies(0).Raised? {
      RetrySucceedsAt(2, 0.5, 2.0, attempts, 0);
    } else if !replies(1).Raised? {
      assert AllCaught(attempts, 0, 1);
      RetrySucceedsAt(2, 0.5, 2.0, attempts, 1);
    } else {
      assert AllCaught(attempts, 0, 2);
      RetryExhausted(2, 0.5, 2.0, attempts);
    }
  }

  /** The branches of `handle_intent_from_text` under `is_active_lock`, for `text` classified
      as `intent`. */
  function Dispatch(s: Session, intent: string, text: string): (r: Session)
    requires InLog(s.tasks, s.current)
    ensures r.active == (if intent == START then true else if intent == STOP then false else s.active)
    ensures |r.tasks| == |s.tasks| + (if intent == COMMAND && s.active then 1 else 0)
    ensures SameExcept(s.tasks, r.tasks, s.current)
    ensures intent == COMMAND && s.active ==>
      r.tasks[|s.tasks|] == Task(Command(text), Running) && r.current == Some(|s.tasks|)
    ensures s.current.Some? ==> r.tasks[s.current.value].work == s.tasks[s.current.value].work
    ensures s.current.Some? ==>
      ((r.tasks[s.current.value].state != s.tasks[s.current.value].state)
       <==> (Pending(s.tasks, s.current)
             && ((intent == START && !s.active) || (s.active && (intent == STOP || intent == INTERRUPT || intent == COMMAND)))))
    ensures s.current.Some? ==>
      r.tasks[s.current.value].state == s.tasks[s.current.value].state || r.tasks[s.current.value].state == Cancelled
    ensures (intent == START && s.active) || (intent == STOP && !s.active) ==> r == s
    ensures (intent == INTERRUPT || intent == COMMAND) && !s.active ==> r == s
    ensures intent !in {START, STOP, INTERRUPT, COMMAND} ==> r == s
    ensures SessionInvariant(s) ==> SessionInvariant(r)
  {
    var cancelled := if Pending(s.tasks, s.current) then Session(s.active, None, Cancel(s.tasks, s.current.value)) else s;
    if intent == START then
      if !s.active then cancelled.(active := true) else s
    else if intent == STOP then
      if s.active then cancelled.(active := false) else s
    else if intent == INTERRUPT then
      if s.active then cancelled else s
    else if intent == COMMAND then
      if s.active then
        var (tasks, h) := CancelAndReplace(s.tasks, s.current, text);
        Session(s.active, Some(h), tasks)
      else s
    else
      s
  }

  function Run(s: Session, steps: seq<Step>): (r: Session)
    requires InLog(s.tasks, s.current)
    ensures InLog(r.tasks, r.current)
    decreases |steps|
  {
    if steps == [] then s
    else Run(Dispatch(s, steps[0].intent, steps[0].text), steps[1..])
  }

  lemma {:induction false} RunAppend(s: Session, a: seq<Step>, b: seq<Step>)
    requires InLog(s.tasks, s.current)
    ensures Run(s, a + b) == Run(Run(s, a), b)
    decreases |a|
  {
    if a == [] {
      assert a + b == b;
    } else {
      assert (a + b)[1..] == a[1..] + b;
      RunAppend(Dispatch(s, a[0].intent, a[0].text), a[1..], b);
    }
  }

  lemma {:induction false} RunKeepsInvariant(s: Session, steps: seq<Step>)
    requires SessionInvariant(s)
    ensures SessionInvariant(Run(s, steps))
    decreases |steps|
  {
    if steps != [] {
      RunKeepsInvariant(Dispatch(s, steps[0].intent, steps[0].text), steps[1..]);
    }
  }

  /** In standby nothing but START has an effect. */
  lemma {:induction false} StandbyIgnoresAllButStart(s: Session, steps: seq<Step>)
    requires InLog(s.tasks, s.current) && !s.active && NoStart(steps)
    ensures Run(s, steps) == s
    decreases |steps|
  {
    if steps != [] {
      assert steps[0].intent != START;
      StandbyIgnoresAllButStart(Dispatch(s, steps[0].intent, steps[0].text), steps[1..]);
    }
  }

  /** For the same intents, app2.py starts and cancels exactly the command tasks that
      tools/flow_utils.py does, and keeps the same flag. */
  lemma {:induction false} AgreesWithFlowUtils(f: Session, a: Session, steps: seq<Step>)
    requires SessionInvariant(f) && SessionInvariant(a) && Live.Agree(f, a)
    ensures Live.Agree(FlowUtils.Run(f, steps), Run(a, steps))
    decreases |steps|
  {
    if steps != [] {
      var i, t := steps[0].intent, steps[0].text;
      var f', a' := FlowUtils.Dispatch(f, i, t), Dispatch(a, i, t);
      assert Live.Agree(f', a');
      AgreesWithFlowUtils(f', a', steps[1..]);
    }
  }

  /** The classified utterances, the `j`-th classified from `replies(j)`. */
  function Classified(texts: seq<string>, replies: nat -> nat -> Reply): (r: seq<Step>)
    ensures |r| == |texts|
    ensures forall j :: 0 <= j < |texts| ==> r[j] == Step(ClassifyIntent(replies(j)), texts[j])
  {
    seq(|texts|, j requires 0 <= j < |texts| => Step(ClassifyIntent(replies(j)), texts[j]))
  }

  /** Handling one more utterance is one more dispatch after the run so far. */
  lemma RunClassifiedSnoc(s: Session, texts: seq<string>, text: string, replies: nat -> nat -> Reply)
    requires InLog(s.tasks, s.current)
    ensures var before := Run(s, Classified(texts, replies));
      Run(s, Classified(texts + [text], replies)) == Dispatch(before, ClassifyIntent(replies(|texts|)), text)
  {
    var step := Step(ClassifyIntent(replies(|texts|)), text);
    assert Classified(texts + [text], replies) == Classified(texts, replies) + [step];
    RunAppend(s, Classified(texts, replies), [step]);
    var before := Run(s, Classified(texts, replies));
    assert Run(before, [step]) == Run(Dispatch(before, step.intent, step.text), []);
  }

  /** The uploaded recording is sent as consecutive slices of `size` bytes. */
  const CHUNK_SIZE: nat := 8000

  class VoiceServer {
    var isActive: bool
    var currentTask: Option<Handle>
    /** Every command task started so far. */
    var tasks: seq<Task>

    function State(): Session
      reads this
    {
      Session(isActive, currentTask, tasks)
    }

    ghost predicate Valid()
      reads this
    {
      SessionInvariant(State())
    }

    constructor ()
      ensures Valid() && !isActive && currentTask == None && tasks == []
    {
      isActive, currentTask, tasks := false, None, [];
    }

    /** `cancellable_socket_handle_text`: the previous task is cancelled if it has not
        finished (its handle is overwritten, not cleared first), and a task for `text` becomes
        current. */
    method CancellableSocketHandleText(text: string)
      requires InLog(tasks, currentTask)
      modifies this
      ensures currentTask.Some? && isActive == old(isActive)
      ensures (tasks, currentTask.value) == CancelAndReplace(old(tasks), old(currentTask), text)
    {
      if currentTask.Some? && tasks[currentTask.value].state == Running {
        tasks := Cancel(tasks, currentTask.value);
      }
      currentTask := Some(|tasks|);
      tasks := Spawn(tasks, Command(text));
    }

    /** `handle_intent_from_text`, with `replies` the classifier attempts for `text`.
        `interrupted` is the INTERRUPT branch's flag that picks the status shown. */
    method HandleIntentFromText(text: string, replies: nat -> Reply) returns (intent: string, interrupted: bool)
      requires InLog(tasks, currentTask)
      modifies this
      ensures old(Valid()) ==> Valid()
      ensures intent == ClassifyIntent(replies)
      ensures State() == Dispatch(old(State()), intent, text)
      ensures interrupted <==> intent == INTERRUPT && old(isActive) && Pending(old(tasks), old(currentTask))
    {
      intent := ClassifyIntent(replies);
      interrupted := false;
      if intent == START {
        if !isActive {
          isActive := true;
          if currentTask.Some? && tasks[currentTask.value].state == Running {
            tasks := Cancel(tasks, currentTask.value);
            currentTask := None;
          }
        }
      } else if intent == STOP {
        if isActive {
          isActive := false;
          if currentTask.Some? && tasks[currentTask.value].state == Running {
            tasks := Cancel(tasks, currentTask.value);
            currentTask := None;
          }
        }
      } else if intent == INTERRUPT {
        if isActive {
          if currentTask.Some? && tasks[currentTask.value].state == Running {
            tasks := Cancel(tasks, currentTask.value);
            currentTask := None;
            interrupted := true;
          }
        }
      } else if intent == COMMAND {
        if isActive {
          CancellableSocketHandleText(text);
        }
      }
    }

    /** `MyTranscriptHandler.handle_transcript_event`: each final result's first alternative,
        stripped, is handled when non-empty, `replies(j)` answering the `j`-th classification.
        A final result without alternatives raises `IndexError` and ends the event. */
    method HandleTranscriptEvent(results: seq<TranscriptResult>, replies: nat -> nat -> Reply) returns (raised: bool)
      requires Valid()
      modifies this
      ensures Valid()
      ensures raised == FirstAlternativesUnchecked(results).raised
      ensures State() == Run(old(State()), Classified(FirstAlternativesUnchecked(results).texts, replies))
    {
      var i := 0;
      var handled: seq<string> := [];
      assert Classified(handled, replies) == [];
      while i < |results|
        invariant 0 <= i <= |results|
        invariant Valid()
        invariant !FirstAlternativesUnchecked(results[..i]).raised
        invariant handled == FirstAlternativesUnchecked(results[..i]).texts
        invariant State() == Run(old(State()), Classified(handled, replies))
      {
        var result := results[i];
        UncheckedStep(results, i);
        if !result.isPartial {
          if result.alternatives == [] {
            FirstUncheckedStops(results, i + 1);
            return true;
          }
          var text := Strip(result.alternatives[0]);
          if text != [] {
            RunClassifiedSnoc(old(State()), handled, text, replies);
            var intent, interrupted := HandleIntentFromText(text, replies(|handled|));
            handled := handled + [text];
          }
        }
        i := i + 1;
      }
      assert results[..i] == results;
      return false;
    }

    /** The command task `h` runs to its end; its handle stays as `current_task`. */
    method CommandFinishes(h: Handle)
      requires Valid() && h < |tasks|
      modifies this
      ensures Valid()
      ensures tasks == Complete(old(tasks), h)
      ensures isActive == old(isActive) && currentTask == old(currentTask)
    {
      tasks := Complete(tasks, h);
    }
  }

  /** The `write_chunks` loop: `pcm_data[i:i+8000]` for `i` in `range(0, len(pcm_data), 8000)`,
      counting the bytes sent. */
  method WriteChunks(pcmData: seq<Byte>) returns (sent: seq<seq<Byte>>, totalSent: nat)
    ensures sent == Chunks(pcmData, CHUNK_SIZE)
    ensures Flatten(sent) == pcmData && WellSized(sent, CHUNK_SIZE)
    ensures totalSent == |pcmData|
  {
    sent, totalSent := [], 0;
    var i := 0;
    while i < |pcmData|
      invariant sent + ChunksFrom(pcmData, CHUNK_SIZE, i) == Chunks(pcmData, CHUNK_SIZE)
      invariant totalSent == Min(i, |pcmData|)
      decreases |pcmData| - i
    {
      var chunk := pcmData[i..Min(i + CHUNK_SIZE, |pcmData|)];
      ChunksStep(pcmData, CHUNK_SIZE, sent, i);
      sent := sent + [chunk];
      totalSent := totalSent + |chunk|;
      i := i + CHUNK_SIZE;
    }
    assert sent + [] == sent;
    ChunksCover(pcmData, CHUNK_SIZE);
  }
}
