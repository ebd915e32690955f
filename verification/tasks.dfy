/** Abstract asyncio task handles. A component keeps the log of every task it created in a
    sequence; a handle is a position in that log. What asyncio would run concurrently is
    reduced to the three states a handle can report. */
module Tasks {
  import opened Options

  /** `Running`: `done()` is false. `Done`: finished on its own. `Cancelled`: `cancel()` was
      called while it was running. */
  datatype TaskState = Running | Done | Cancelled

  /** The coroutine a task runs. */
  datatype Work =
    | SilenceTimer            // `_start_silence_timer()`
    | Command(text: string)   // the command callback, `handle_text(text)`
    | Synthesis(text: string) // `_synthesize_and_queue_audio(text)`
    | Service(name: string)   // a long-running worker of the voice assistant

  datatype Task = Task(work: Work, state: TaskState)

  type Handle = nat

  /** `h is not None and not h.done()` */
  predicate Pending(tasks: seq<Task>, h: Option<Handle>) {
    h.Some? && h.value < |tasks| && tasks[h.value].state == Running
  }

  /** The handle, if any, names a task of the log. */
  predicate InLog(tasks: seq<Task>, h: Option<Handle>) {
    h.Some? ==> h.value < |tasks|
  }

  /** `tasks[h].cancel()`: a running task becomes cancelled; on a finished task it does nothing. */
  function Cancel(tasks: seq<Task>, h: Handle): (r: seq<Task>)
    requires h < |tasks|
    ensures |r| == |tasks|
  {
    if tasks[h].state == Running then tasks[h := Task(tasks[h].work, Cancelled)] else tasks
  }

  /** `asyncio.create_task(work)`: a new running task at the end of the log. */
  function Spawn(tasks: seq<Task>, w: Work): (r: seq<Task>)
    ensures |r| == |tasks| + 1
  {
    tasks + [Task(w, Running)]
  }

  /** The task behind `h` runs to its end: an event of the event loop, not a call of the model. */
  function Complete(tasks: seq<Task>, h: Handle): (r: seq<Task>)
    requires h < |tasks|
    ensures |r| == |tasks|
  {
    if tasks[h].state == Running then tasks[h := Task(tasks[h].work, Done)] else tasks
  }

  /** Every running command task is the one held as current: at most one command is in flight. */
  ghost predicate OnlyCurrentCommandRuns(tasks: seq<Task>, current: Option<Handle>) {
    forall i :: 0 <= i < |tasks| && tasks[i].work.Command? && tasks[i].state == Running ==> current == Some(i)
  }

  /** Each task other than `h` is the same in `a` and `b`. */
  ghost predicate SameExcept(a: seq<Task>, b: seq<Task>, h: Option<Handle>) {
    |a| <= |b| && forall i :: 0 <= i < |a| && Some(i) != h ==> b[i] == a[i]
  }

  /** The cancel-then-replace step shared by `cancellable_socket_handle_text` in app.py,
      app_ngrok.py and app2.py: cancel the current command task if it has not finished, then
      start a command task for `text` and hold it as current. */
  function CancelAndReplace(tasks: seq<Task>, current: Option<Handle>, text: string): (r: (seq<Task>, Handle))
    requires InLog(tasks, current)
    ensures r.1 == |tasks| && |r.0| == |tasks| + 1
    ensures r.0[r.1] == Task(Command(text), Running)
    ensures SameExcept(tasks, r.0, current)
    ensures current.Some? ==> r.0[current.value].work == tasks[current.value].work
    ensures current.Some? ==> r.0[current.value].state == if Pending(tasks, current) then Cancelled else tasks[current.value].state
    ensures OnlyCurrentCommandRuns(tasks, current) ==> OnlyCurrentCommandRuns(r.0, Some(r.1))
  {
    var cancelled := if Pending(tasks, current) then Cancel(tasks, current.value) else tasks;
    (Spawn(cancelled, Command(text)), |tasks|)
  }

  /** The state an intent-driven controller keeps: the `active` flag, the current command handle,
      and the log of tasks it started. */
  datatype Session = Session(active: bool, current: Option<Handle>, tasks: seq<Task>)

  /** What every controller keeps true: the current handle names a command task of the log, no
      other command runs, and none runs at all in standby. */
  ghost predicate SessionInvariant(s: Session) {
    && InLog(s.tasks, s.current)
    && (s.current.Some? ==> s.tasks[s.current.value].work.Command?)
    && OnlyCurrentCommandRuns(s.tasks, s.current)
    && (!s.active ==> !Pending(s.tasks, s.current))
  }
}
