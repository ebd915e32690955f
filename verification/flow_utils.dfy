/** `LiveTranscriber` of tools/flow_utils.py: final transcript fragments are buffered, a silence
    timer flushes them as one utterance, and the classified intent drives the `active` flag and
    the single current command task. */
module FlowUtils {
  import opened Options
  import opened Tasks
  import opened PyStr
  import opened Intents
  import opened Debounce

  /** `classify_intent`: the model's reply stripped and upper-cased; `None` stands for a call
      that raised, which becomes IGNORE. */
  function ClassifyIntent(reply: Option<string>): (r: string)
    ensures reply.None? ==> r == IGNORE
    ensures reply.Some? ==> IsStripped(r) && |r| == |Strip(reply.value)|
    ensures reply.Some? ==> forall i :: 0 <= i < |r| ==> !('a' <= r[i] <= 'z')
    ensures reply.Some? ==> var t := reply.value;
      && TrimmedAt(t, StripStart(t), |r|)
      && forall i :: 0 <= i < |r| ==> r[i] == UpperChar(t[StripStart(t) + i])
  {
    match reply
    case None => IGNORE
    case Some(t) =>
      UpperOfStrip(t);
      Upper(Strip(t))
  }

  /** Upper-casing the stripped reply changes each character of the slice on its own, and only
      lower-case ASCII letters, so the ends stay non-whitespace. */
  lemma UpperOfStrip(t: string)
    ensures var r := Upper(Strip(t));
      && IsStripped(r) && |r| == |Strip(t)|
      && (forall i :: 0 <= i < |r| ==> !('a' <= r[i] <= 'z'))
      && TrimmedAt(t, StripStart(t), |r|)
      && (forall i :: 0 <= i < |r| ==> r[i] == UpperChar(t[StripStart(t) + i]))
  {
    StripSpec(t);
    var st := Strip(t);
    var r := Upper(st);
    var a := StripStart(t);
    forall i | 0 <= i < |r|
      ensures r[i] == UpperChar(t[a + i]) && !('a' <= r[i] <= 'z')
    {
      assert st[i] == t[a + i];
      UpperCharSpace(st[i]);
    }
    if r != [] {
      UpperCharSpace(st[0]);
      UpperCharSpace(st[|st| - 1]);
    }
  }

  /** An intent word in any ASCII case, padded with any whitespace, is that intent. */
  lemma PaddedIntent(pre: string, w: string, post: string, intent: string)
    requires AllSpace(pre) && AllSpace(post)
    requires intent in {START, STOP, INTERRUPT, COMMAND} && Upper(w) == intent
    ensures ClassifyIntent(Some(pre + w + post)) == intent
  {
    assert UpperChar(w[0]) == intent[0] && UpperChar(w[|w| - 1]) == intent[|intent| - 1];
    StripPadded(pre, w, post);
  }

  /** `_cancel_current`: the current task is cancelled if it has not finished, and the handle is
      cleared in every case. */
  function AfterCancelCurrent(s: Session): (r: Session)
    requires InLog(s.tasks, s.current)
    ensures r.current == None && r.active == s.active
    ensures |r.tasks| == |s.tasks| && SameExcept(s.tasks, r.tasks, s.current)
    ensures s.current.Some? ==> r.tasks[s.current.value].state != Running
    ensures s.current.Some? ==> r.tasks[s.current.value].work == s.tasks[s.current.value].work
    ensures s.current.Some? && !Pending(s.tasks, s.current) ==> r.tasks == s.tasks
  {
    Session(s.active, None, if Pending(s.tasks, s.current) then Cancel(s.tasks, s.current.value) else s.tasks)
  }

  /** The intent branches of `flush_buffer`, for an utterance `text` classified as `intent`. */
  function Dispatch(s: Session, intent: string, text: string): (r: Session)
    requires InLog(s.tasks, s.current)
    ensures r.active == (intent == START || (s.active && intent != STOP))
    ensures |r.tasks| == |s.tasks| + (if intent == COMMAND && s.active then 1 else 0)
    ensures SameExcept(s.tasks, r.tasks, s.current)
    ensures intent == COMMAND && s.active ==>
      r.tasks[|s.tasks|] == Task(Command(text), Running) && r.current == Some(|s.tasks|)
    ensures s.current.Some? ==> r.tasks[s.current.value].work == s.tasks[s.current.value].work
    ensures s.current.Some? ==>
      ((r.tasks[s.current.value].state != s.tasks[s.current.value].state)
       <==> (Pending(s.tasks, s.current) && s.active && (intent == STOP || intent == INTERRUPT || intent == COMMAND)))
    ensures s.current.Some? ==>
      r.tasks[s.current.value].state == s.tasks[s.current.value].state || r.tasks[s.current.value].state == Cancelled
    ensures intent == START ==> r.current == s.current && r.tasks == s.tasks
    ensures intent == STOP ==> r.current == if s.active then None else s.current
    ensures intent == INTERRUPT ==> r.current == if s.active && Pending(s.tasks, s.current) then None else s.current
    ensures intent == COMMAND && !s.active ==> r == s
    ensures intent !in {START, STOP, INTERRUPT, COMMAND} ==> r == s
    ensures SessionInvariant(s) ==> SessionInvariant(r)
  {
    if intent == START then
      Session(true, s.current, s.tasks)
    else if intent == STOP then
      var c := if s.active then AfterCancelCurrent(s) else s;
      Session(false, c.current, c.tasks)
    else if intent == INTERRUPT then
      if s.active && Pending(s.tasks, s.current) then AfterCancelCurrent(s) else s
    else if intent == COMMAND then
      if !s.active then s
      else
        var c := if Pending(s.tasks, s.current) then AfterCancelCurrent(s) else s;
        Session(c.active, Some(|c.tasks|), Spawn(c.tasks, Command(text)))
    else
      s
  }

  /** The controller state after a sequence of classified utterances. */
  function Run(s: Session, steps: seq<Step>): (r: Session)
    requires InLog(s.tasks, s.current)
    ensures InLog(r.tasks, r.current)
    decreases |steps|
  {
    if steps == [] then s
    else Run(Dispatch(s, steps[0].intent, steps[0].text), steps[1..])
  }

  /** A run of utterances keeps the session invariant: at most one command task is running,
      it is the current one, and none runs in standby. */
  lemma {:induction false} RunKeepsInvariant(s: Session, steps: seq<Step>)
    requires SessionInvariant(s)
    ensures SessionInvariant(Run(s, steps))
    decreases |steps|
  {
    if steps != [] {
      RunKeepsInvariant(Dispatch(s, steps[0].intent, steps[0].text), steps[1..]);
    }
  }

  /** In standby, no utterance short of START has any effect: no command is started, no task is
      cancelled and the controller stays in standby. */
  lemma {:induction false} StandbyIgnoresAllButStart(s: Session, steps: seq<Step>)
    requires InLog(s.tasks, s.current) && !s.active && NoStart(steps)
    ensures Run(s, steps) == s
    decreases |steps|
  {
    if steps != [] {
      assert steps[0].intent != START;
      StandbyIgnoresAllButStart(Dispatch(s, steps[0].intent, steps[0].text), steps[1..]);
    }
  }

  class LiveTranscriber {
    /** `buffer` and `timer_task`, with the timers started so far. */
    const debounce: FragmentBuffer
    var active: bool
    var currentTask: Option<Handle>
    /** Every command task this transcriber started. */
    var tasks: seq<Task>

    function State(): Session
      reads this
    {
      Session(active, currentTask, tasks)
    }

    ghost predicate Valid()
      reads this, debounce
    {
      debounce.Valid() && SessionInvariant(State())
    }

    constructor ()
      ensures Valid() && fresh(debounce)
      ensures debounce.buffer == [] && debounce.timerTask == None
      ensures !active && currentTask == None && tasks == []
    {
      debounce := new FragmentBuffer();
      active, currentTask, tasks := false, None, [];
    }

    /** `_cancel_current` */
    method CancelCurrent()
      requires InLog(tasks, currentTask)
      modifies this
      ensures State() == AfterCancelCurrent(old(State()))
    {
      if currentTask.Some? && tasks[currentTask.value].state == Running {
        tasks := Cancel(tasks, currentTask.value);
      }
      currentTask := None;
    }

    /** `flush_buffer`, with `reply` the classifier's answer for the utterance (`None` when the
        call raises). An empty buffer is left alone; otherwise the utterance is classified and
        acted on. */
    method FlushBuffer(reply: Option<string>) returns (utterance: Option<string>)
      requires Valid()
      modifies this, debounce
      ensures Valid()
      ensures utterance == Utterance(old(debounce.buffer)) && debounce.buffer == []
      ensures debounce.timerTask == old(debounce.timerTask) && debounce.timers == old(debounce.timers)
      ensures utterance.None? ==> State() == old(State())
      ensures utterance.Some? ==> State() == Dispatch(old(State()), ClassifyIntent(reply), utterance.value)
    {
      utterance := debounce.TakeUtterance();
      if utterance.None? {
        return;
      }
      var intent := ClassifyIntent(reply);
      ActOnIntent(intent, utterance.value);
    }

    /** The intent branches of `flush_buffer`. */
    method ActOnIntent(intent: string, text: string)
      requires SessionInvariant(State())
      modifies this
      ensures SessionInvariant(State())
      ensures State() == Dispatch(old(State()), intent, text)
    {
      if intent == START {
        active := true;
        return;
      }
      if intent == STOP {
        if active {
          CancelCurrent();
        }
        active := false;
        return;
      }
      if intent == INTERRUPT {
        if active && currentTask.Some? && tasks[currentTask.value].state == Running {
          CancelCurrent();
        }
        return;
      }
      if intent == COMMAND {
        if !active {
          return;
        }
        if currentTask.Some? && tasks[currentTask.value].state == Running {
          CancelCurrent();
        }
        currentTask := Some(|tasks|);
        tasks := Spawn(tasks, Command(text));
        return;
      }
    }

    /** `_start_silence_timer` resumed after its sleep: a cancelled timer swallows its
        `CancelledError` and does nothing; the running one flushes the buffer and finishes. */
    method TimerFires(h: Handle, reply: Option<string>) returns (utterance: Option<string>)
      requires Valid() && h < |debounce.timers|
      modifies this, debounce
      ensures Valid()
      ensures h < |debounce.timers| && debounce.timers[h].state != Running
      ensures old(debounce.timers[h].state) != Running ==>
        utterance == None && State() == old(State()) && debounce.buffer == old(debounce.buffer)
      ensures old(debounce.timers[h].state) == Running ==>
        && debounce.timerTask == Some(h)
        && utterance == Utterance(old(debounce.buffer))
        && debounce.buffer == []
        && (utterance.None? ==> State() == old(State()))
        && (utterance.Some? ==> State() == Dispatch(old(State()), ClassifyIntent(reply), utterance.value))
    {
      if debounce.timers[h].state != Running {
        return None;
      }
      utterance := FlushBuffer(reply);
      debounce.Finish(h);
    }

    /** The command task `h` runs to its end; its handle stays as `current_task`. */
    method CommandFinishes(h: Handle)
      requires Valid() && h < |tasks|
      modifies this
      ensures Valid()
      ensures tasks == Complete(old(tasks), h)
      ensures active == old(active) && currentTask == old(currentTask)
    {
      tasks := Complete(tasks, h);
    }
  }
}
