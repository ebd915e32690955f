/** The command dispatch and transcriber start-up of app.py: every transcript text replaces the
    command task in flight, and the live transcriber is started with one retry. The same
    `cancellable_socket_handle_text` is written out again in app_ngrok.py, whose model uses this
    class. */
module App {
  import opened Options
  import opened Tasks
  import opened RetryUtils

  /** The commands started for `texts`, one after the other, from the log `tasks` with `current`
      held: each cancels its predecessor if still running and becomes current. */
  function HandleTexts(tasks: seq<Task>, current: Option<Handle>, texts: seq<string>): (r: (seq<Task>, Option<Handle>))
    requires InLog(tasks, current)
    ensures InLog(r.0, r.1) && |r.0| == |tasks| + |texts|
    ensures texts == [] ==> r == (tasks, current)
    decreases |texts|
  {
    if texts == [] then (tasks, current)
    else
      var (tasks', h) := CancelAndReplace(tasks, current, texts[0]);
      HandleTexts(tasks', Some(h), texts[1..])
  }

  /** After a burst of texts only the command for the last one is running: every command task
      started for the burst is in the log in arrival order, the ones before the last are no longer
      running, and the last is current and running. */
  lemma OnlyLatestCommandRuns(tasks: seq<Task>, current: Option<Handle>, texts: seq<string>)
    requires InLog(tasks, current) && OnlyCurrentCommandRuns(tasks, current) && texts != []
    ensures var (tasks', current') := HandleTexts(tasks, current, texts);
      && current' == Some(|tasks'| - 1)
      && tasks'[|tasks'| - 1] == Task(Command(texts[|texts| - 1]), Running)
      && (forall j :: 0 <= j < |texts| ==> tasks'[|tasks| + j].work == Command(texts[j]))
      && (forall i :: 0 <= i < |tasks'| - 1 && tasks'[i].work.Command? ==> tasks'[i].state != Running)
  {
    HandleTextsLatest(tasks, current, texts);
    HandleTextsKeepsOnlyCurrent(tasks, current, texts);
    forall j | 0 <= j < |texts|
      ensures HandleTexts(tasks, current, texts).0[|tasks| + j].work == Command(texts[j])
    {
      HandleTextsLogsCommands(tasks, current, texts, j);
    }
  }

  /** The last text's command is the current task, and it is running. */
  lemma {:induction false} HandleTextsLatest(tasks: seq<Task>, current: Option<Handle>, texts: seq<string>)
    requires InLog(tasks, current) && texts != []
    ensures var (tasks', current') := HandleTexts(tasks, current, texts);
      current' == Some(|tasks'| - 1) && tasks'[|tasks'| - 1] == Task(Command(texts[|texts| - 1]), Running)
    decreases |texts|
  {
    var (t1, h) := CancelAndReplace(tasks, current, texts[0]);
    if |texts| > 1 {
      HandleTextsLatest(t1, Some(h), texts[1..]);
      assert texts[1..][|texts| - 2] == texts[|texts| - 1];
    } else {
      assert texts[1..] == [];
    }
  }

  /** The `j`-th text's command sits at position `|tasks| + j` of the log. */
  lemma {:induction false} HandleTextsLogsCommands(tasks: seq<Task>, current: Option<Handle>, texts: seq<string>, j: nat)
    requires InLog(tasks, current) && j < |texts|
    ensures HandleTexts(tasks, current, texts).0[|tasks| + j].work == Command(texts[j])
    decreases |texts|
  {
    var (t1, h) := CancelAndReplace(tasks, current, texts[0]);
    if j == 0 {
      HandleTextsKeepsLog(t1, Some(h), texts[1..], h);
    } else {
      HandleTextsLogsCommands(t1, Some(h), texts[1..], j - 1);
      assert texts[1..][j - 1] == texts[j];
    }
  }

  /** Handling texts keeps "only the current command runs". */
  lemma {:induction false} HandleTextsKeepsOnlyCurrent(tasks: seq<Task>, current: Option<Handle>, texts: seq<string>)
    requires InLog(tasks, current) && OnlyCurrentCommandRuns(tasks, current)
    ensures var (tasks', current') := HandleTexts(tasks, current, texts);
      OnlyCurrentCommandRuns(tasks', current')
    decreases |texts|
  {
    if texts != [] {
      var (t1, h) := CancelAndReplace(tasks, current, texts[0]);
      HandleTextsKeepsOnlyCurrent(t1, Some(h), texts[1..]);
    }
  }

  /** Handling more texts leaves the work of every task already in the log as it was. */
  lemma {:induction false} HandleTextsKeepsLog(tasks: seq<Task>, current: Option<Handle>, texts: seq<string>, i: nat)
    requires InLog(tasks, current) && i < |tasks|
    ensures HandleTexts(tasks, current, texts).0[i].work == tasks[i].work
    decreases |texts|
  {
    if texts != [] {
      var (t1, h) := CancelAndReplace(tasks, current, texts[0]);
      assert t1[i].work == tasks[i].work;
      HandleTextsKeepsLog(t1, Some(h), texts[1..], i);
    }
  }

  /** Handling `a + b` is handling `a`, then handling `b` from where that left the log. */
  lemma {:induction false} HandleTextsAppend(tasks: seq<Task>, current: Option<Handle>, a: seq<string>, b: seq<string>)
    requires InLog(tasks, current)
    ensures var (t, c) := HandleTexts(tasks, current, a);
      HandleTexts(tasks, current, a + b) == HandleTexts(t, c, b)
    decreases |a|
  {
    if a == [] {
      assert [] + b == b;
    } else {
      var (t1, h1) := CancelAndReplace(tasks, current, a[0]);
      assert (a + b)[0] == a[0] && (a + b)[1..] == a[1..] + b;
      HandleTextsAppend(t1, Some(h1), a[1..], b);
    }
  }

  /** The module-level `current_task` of app.py, with the log of the tasks it has named. */
  class CommandSlot {
    var currentTask: Option<Handle>
    var tasks: seq<Task>

    /** The held handle names a command task of the log, and no other command runs. */
    ghost predicate Valid()
      reads this
    {
      && InLog(tasks, currentTask)
      && (currentTask.Some? ==> tasks[currentTask.value].work.Command?)
      && OnlyCurrentCommandRuns(tasks, currentTask)
    }

    constructor ()
      ensures Valid() && currentTask == None && tasks == []
    {
      currentTask, tasks := None, [];
    }

    /** `cancellable_socket_handle_text`: under `current_task_lock`, the previous task is
        cancelled only if it exists and has not finished, then a task for `text` becomes
        current. */
    method CancellableSocketHandleText(text: string)
      requires InLog(tasks, currentTask)
      modifies this
      ensures currentTask.Some?
      ensures (tasks, currentTask.value) == CancelAndReplace(old(tasks), old(currentTask), text)
      ensures old(Valid()) ==> Valid()
    {
      if currentTask.Some? && tasks[currentTask.value].state == Running {
        tasks := Cancel(tasks, currentTask.value);
      }
      currentTask := Some(|tasks|);
      tasks := Spawn(tasks, Command(text));
    }

    /** The command task `h` runs to its end; its handle stays as `current_task`. */
    method CommandFinishes(h: Handle)
      requires Valid() && h < |tasks|
      modifies this
      ensures Valid()
      ensures tasks == Complete(old(tasks), h) && currentTask == old(currentTask)
    {
      tasks := Complete(tasks, h);
    }
  }

  /** `max_attempts` of `run_transcriber`. */
  const MAX_ATTEMPTS: nat := 2

  /** The pause after a failed start. The log line announces two seconds; `time.sleep(1)` is what
      runs. */
  const RETRY_PAUSE: real := 1.0

  /** `asyncio.run(transcriber.start())` as an attempt: `started(k)` says whether attempt `k`
      returned; every failure is an `Exception`, which the loop catches. */
  function StartOutcomes(started: nat -> bool): nat -> Outcome<()> {
    (k: nat) => if started(k) then Returned(()) else Raised(true)
  }

  /** `run_transcriber`: starts the transcriber until one start returns, at most `MAX_ATTEMPTS`
      times, pausing between attempts; after the last failure it gives up without raising. */
  method RunTranscriber(started: nat -> bool) returns (connected: bool, calls: nat, sleeps: seq<real>)
    ensures connected <==> started(0) || started(1)
    ensures calls == if started(0) then 1 else 2
    ensures sleeps == if started(0) then [] else [RETRY_PAUSE]
    ensures RetryRun(if connected then Success(()) else Failed(true), calls, sleeps)
      == Retry(MAX_ATTEMPTS, RETRY_PAUSE, 1.0, StartOutcomes(started))
  {
    var attempt := 0;
    connected, calls, sleeps := false, 0, [];
    while attempt < MAX_ATTEMPTS
      invariant attempt <= MAX_ATTEMPTS && calls == attempt && !connected
      invariant forall j :: 0 <= j < attempt ==> !started(j)
      invariant sleeps == if attempt == 0 then [] else [RETRY_PAUSE]
      decreases MAX_ATTEMPTS - attempt
    {
      calls := calls + 1;
      if started(attempt) {
        connected := true;
        break;
      }
      attempt := attempt + 1;
      if attempt < MAX_ATTEMPTS {
        sleeps := sleeps + [RETRY_PAUSE];
      }
    }
    var outcomes := StartOutcomes(started);
    if started(0) {
      RetrySucceedsAt(MAX_ATTEMPTS, RETRY_PAUSE, 1.0, outcomes, 0);
    } else if started(1) {
      assert AllCaught(outcomes, 0, 1);
      RetrySucceedsAt(MAX_ATTEMPTS, RETRY_PAUSE, 1.0, outcomes, 1);
    } else {
      assert AllCaught(outcomes, 0, 2);
      RetryExhausted(MAX_ATTEMPTS, RETRY_PAUSE, 1.0, outcomes);
    }
  }
}
