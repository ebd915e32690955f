/** `LiveTranscriber` of live_transcriber/live_transcriber.py. Same buffer and timer as the
    tools/flow_utils.py variant, but the classifier reply is only stripped, a failing classifier
    call escapes the timer task, STOP cancels whatever the state, and `_cancel_current` keeps the
    handle of a task that has already finished. */
module Live {
  import opened Options
  import opened Tasks
  import opened PyStr
  import opened Intents
  import opened Debounce
  import FlowUtils

  /** `classify_intent`: the model's reply stripped, with its case kept. */
  function ClassifyIntent(reply: string): (r: string)
    ensures IsStripped(r) && |r| <= |reply|
    ensures IsStripped(reply) ==> r == reply
    ensures TrimmedAt(reply, StripStart(reply), |r|) && r == reply[StripStart(reply)..StripStart(reply) + |r|]
  {
    StripSpec(reply);
    Strip(reply)
  }

  /** Whitespace around the reply is dropped and its case is kept. */
  lemma PaddedReply(pre: string, w: string, post: string)
    requires AllSpace(pre) && AllSpace(post) && IsStripped(w)
    ensures ClassifyIntent(pre + w + post) == w
  {
    StripPadded(pre, w, post);
  }

  /** The two classifiers part ways on a lower-case reply: "start" with any whitespace around it
      is START for the tools/flow_utils.py transcriber, but "start" here, which no branch of
      `flush_buffer` matches. */
  lemma LowerCaseReplyDiffers(pre: string, post: string)
    requires AllSpace(pre) && AllSpace(post)
    ensures FlowUtils.ClassifyIntent(Some(pre + "start" + post)) == START
    ensures ClassifyIntent(pre + "start" + post) == "start" != START
  {
    var w := "start";
    UpperOfStart(w);
    FlowUtils.PaddedIntent(pre, w, post, START);
    assert IsStripped(w);
    PaddedReply(pre, w, post);
    assert w != START by { assert w[0] != START[0]; }
  }

  lemma UpperOfStart(w: string)
    requires w == "start"
    ensures Upper(w) == START
  {
    assert |Upper(w)| == |START| == 5;
    forall i | 0 <= i < 5
      ensures Upper(w)[i] == START[i]
    {
      assert Upper(w)[i] == UpperChar(w[i]);
    }
  }

  /** `_cancel_current`: only a task that has not finished is cancelled, and only then is the
      handle cleared. */
  function AfterCancelCurrent(s: Session): (r: Session)
    requires InLog(s.tasks, s.current)
    ensures r.active == s.active && |r.tasks| == |s.tasks|
    ensures !Pending(s.tasks, s.current) ==> r == s
    ensures Pending(s.tasks, s.current) ==>
      r.current == None && r.tasks == s.tasks[s.current.value := Task(s.tasks[s.current.value].work, Cancelled)]
  {
    if Pending(s.tasks, s.current) then Session(s.active, None, Cancel(s.tasks, s.current.value)) else s
  }

  /** The intent branches of `flush_buffer`, for an utterance `text` classified as `intent`. */
  function Dispatch(s: Session, intent: string, text: string): (r: Session)
    requires InLog(s.tasks, s.current)
    ensures r.active == (intent == START || (s.active && intent != STOP))
    ensures |r.tasks| == |s.tasks| + (if intent == COMMAND && s.active then 1 else 0)
    ensures SameExcept(s.tasks, r.tasks, s.current)
    ensures intent == COMMAND && s.active ==>
      r.tasks[|s.tasks|] == Task(Command(text), Running) && r.current == Some(|s.tasks|)
    ensures s.current.Some? ==> r.tasks[s.current.value].work == s.tasks[s.current.value].work
    ensures s.current.Some? ==>
      ((r.tasks[s.current.value].state != s.tasks[s.current.value].state)
       <==> (Pending(s.tasks, s.current) && (intent == STOP || (s.active && (intent == INTERRUPT || intent == COMMAND)))))
    ensures s.current.Some? ==>
      r.tasks[s.current.value].state == s.tasks[s.current.value].state || r.tasks[s.current.value].state == Cancelled
    ensures intent == START ==> r.current == s.current && r.tasks == s.tasks
    ensures intent == STOP ==> r.current == if Pending(s.tasks, s.current) then None else s.current
    ensures intent == INTERRUPT ==> r.current == if s.active && Pending(s.tasks, s.current) then None else s.current
    ensures intent == COMMAND && !s.active ==> r == s
    ensures intent !in {START, STOP, INTERRUPT, COMMAND} ==> r == s
    ensures SessionInvariant(s) ==> SessionInvariant(r)
  {
    if intent == START then
      Session(true, s.current, s.tasks)
    else if intent == STOP then
      AfterCancelCurrent(Session(false, s.current, s.tasks))
    else if intent == INTERRUPT && s.active then
      AfterCancelCurrent(s)
    else if intent == COMMAND && s.active then
      var c := AfterCancelCurrent(s);
      Session(c.active, Some(|c.tasks|), Spawn(c.tasks, Command(text)))
    else
      s
  }

  /** The controller state after a sequence of classified utterances. */
  function Run(s: Session, steps: seq<Step>): (r: Session)
    requires InLog(s.tasks, s.current)
    ensures InLog(r.tasks, r.current)
    decreases |steps|
  {
    if steps == [] then s
    else Run(Dispatch(s, steps[0].intent, steps[0].text), steps[1..])
  }

  lemma {:induction false} RunKeepsInvariant(s: Session, steps: seq<Step>)
    requires SessionInvariant(s)
    ensures SessionInvariant(Run(s, steps))
    decreases |steps|
  {
    if steps != [] {
      RunKeepsInvariant(Dispatch(s, steps[0].intent, steps[0].text), steps[1..]);
    }
  }

  /** In standby, no utterance short of START has any effect. Unlike the tools/flow_utils.py
      variant this rests on the invariant: STOP in standby calls `_cancel_current`, which finds
      nothing running only because no command runs in standby. */
  lemma {:induction false} StandbyIgnoresAllButStart(s: Session, steps: seq<Step>)
    requires SessionInvariant(s) && !s.active && NoStart(steps)
    ensures Run(s, steps) == s
    decreases |steps|
  {
    if steps != [] {
      assert steps[0].intent != START;
      StandbyIgnoresAllButStart(Dispatch(s, steps[0].intent, steps[0].text), steps[1..]);
    }
  }

  /** A tools/flow_utils.py session `f` and a live_transcriber.py session `l` that have the same
      flag and tasks, and hold the same handle whenever it names a running task. */
  ghost predicate Agree(f: Session, l: Session) {
    && f.active == l.active && f.tasks == l.tasks
    && InLog(f.tasks, f.current) && InLog(l.tasks, l.current)
    && (Pending(f.tasks, f.current) <==> Pending(l.tasks, l.current))
    && (Pending(f.tasks, f.current) ==> f.current == l.current)
  }

  /** For the same intents, the two variants start and cancel exactly the same command tasks and
      agree on the flag; they differ only in whether a finished task's handle is kept. */
  lemma {:induction false} VariantsAgree(f: Session, l: Session, steps: seq<Step>)
    requires SessionInvariant(f) && SessionInvariant(l) && Agree(f, l)
    ensures Agree(FlowUtils.Run(f, steps), Run(l, steps))
    decreases |steps|
  {
    if steps != [] {
      var i, t := steps[0].intent, steps[0].text;
      var f', l' := FlowUtils.Dispatch(f, i, t), Dispatch(l, i, t);
      assert Agree(f', l');
      VariantsAgree(f', l', steps[1..]);
    }
  }

  /** The one place the variants' handles differ: STOP after the current command finished
      clears the handle in tools/flow_utils.py and keeps it here. */
  lemma FinishedHandleKept(s: Session, text: string)
    requires InLog(s.tasks, s.current) && s.active && s.current.Some? && s.tasks[s.current.value].state == Done
    ensures Dispatch(s, STOP, text).current == s.current
    ensures FlowUtils.Dispatch(s, STOP, text).current == None
  {
  }

  class LiveTranscriber {
    /** `buffer` and `timer_task`, with the timers started so far. */
    const debounce: FragmentBuffer
    var active: bool
    var currentTask: Option<Handle>
    /** Every command task this transcriber started. */
    var tasks: seq<Task>

    function State(): Session
      reads this
    {
      Session(active, currentTask, tasks)
    }

    ghost predicate Valid()
      reads this, debounce
    {
      debounce.Valid() && SessionInvariant(State())
    }

    constructor ()
      ensures Valid() && fresh(debounce)
      ensures debounce.buffer == [] && debounce.timerTask == None
      ensures !active && currentTask == None && tasks == []
    {
      debounce := new FragmentBuffer();
      active, currentTask, tasks := false, None, [];
    }

    /** `_cancel_current` */
    method CancelCurrent()
      requires InLog(tasks, currentTask)
      modifies this
      ensures State() == AfterCancelCurrent(old(State()))
    {
      if currentTask.Some? && tasks[currentTask.value].state == Running {
        tasks := Cancel(tasks, currentTask.value);
        currentTask := None;
      }
    }

    /** `flush_buffer`, with `reply` what the classifier call returns for the utterance, or
        `None` when it raises. The exception leaves `flush_buffer` (`raised`) after the buffer was
        cleared and before any intent is acted on. */
    method FlushBuffer(reply: Option<string>) returns (utterance: Option<string>, raised: bool)
      requires Valid()
      modifies this, debounce
      ensures Valid()
      ensures utterance == Utterance(old(debounce.buffer)) && debounce.buffer == []
      ensures debounce.timerTask == old(debounce.timerTask) && debounce.timers == old(debounce.timers)
      ensures raised <==> utterance.Some? && reply.None?
      ensures utterance.None? || raised ==> State() == old(State())
      ensures utterance.Some? && reply.Some? ==>
        State() == Dispatch(old(State()), ClassifyIntent(reply.value), utterance.value)
    {
      raised := false;
      utterance := debounce.TakeUtterance();
      if utterance.None? {
        return;
      }
      if reply.None? {
        raised := true;
        return;
      }
      var intent := ClassifyIntent(reply.value);
      ActOnIntent(intent, utterance.value);
    }

    /** The intent branches of `flush_buffer`. */
    method ActOnIntent(intent: string, text: string)
      requires SessionInvariant(State())
      modifies this
      ensures SessionInvariant(State())
      ensures State() == Dispatch(old(State()), intent, text)
    {
      if intent == START {
        active := true;
        return;
      }
      if intent == STOP {
        active := false;
        CancelCurrent();
        return;
      }
      if intent == INTERRUPT && active {
        CancelCurrent();
        return;
      }
      if intent == COMMAND && active {
        CancelCurrent();
        currentTask := Some(|tasks|);
        tasks := Spawn(tasks, Command(text));
        return;
      }
    }

    /** `_start_silence_timer` resumed after its sleep: a cancelled timer swallows its
        `CancelledError`; the running one flushes the buffer and ends, normally or with the
        classifier's exception, which it does not catch. */
    method TimerFires(h: Handle, reply: Option<string>) returns (utterance: Option<string>, raised: bool)
      requires Valid() && h < |debounce.timers|
      modifies this, debounce
      ensures Valid()
      ensures h < |debounce.timers| && debounce.timers[h].state != Running
      ensures old(debounce.timers[h].state) != Running ==>
        utterance == None && !raised && State() == old(State()) && debounce.buffer == old(debounce.buffer)
      ensures old(debounce.timers[h].state) == Running ==>
        && debounce.timerTask == Some(h)
        && utterance == Utterance(old(debounce.buffer))
        && debounce.buffer == []
        && (raised <==> utterance.Some? && reply.None?)
        && (utterance.None? || raised ==> State() == old(State()))
        && (utterance.Some? && reply.Some? ==>
              State() == Dispatch(old(State()), ClassifyIntent(reply.value), utterance.value))
    {
      if debounce.timers[h].state != Running {
        return None, false;
      }
      utterance, raised := FlushBuffer(reply);
      debounce.Finish(h);
    }

    /** The command task `h` runs to its end; its handle stays as `current_task`. */
    method CommandFinishes(h: Handle)
      requires Valid() && h < |tasks|
      modifies this
      ensures Valid()
      ensures tasks == Complete(old(tasks), h)
      ensures active == old(active) && currentTask == old(currentTask)
    {
      tasks := Complete(tasks, h);
    }
  }
}
