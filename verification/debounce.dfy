/** The fragment buffer and silence timer that `LiveTranscriber.start` keeps, written the same way
    in tools/flow_utils.py and live_transcriber/live_transcriber.py: every final fragment is
    appended to `buffer`, and the pending silence timer is cancelled and replaced. When a timer
    survives its sleep, `flush_buffer` turns the buffer into one utterance. */
module Debounce {
  import opened Options
  import opened Tasks
  import opened PyStr
  import opened Transcripts

  /** The utterance `flush_buffer` makes of a buffer: `" ".join(buffer).strip()`, or nothing
      for an empty buffer. */
  function Utterance(buffer: seq<string>): (r: Option<string>)
    ensures r.None? <==> buffer == []
  {
    if buffer == [] then None else Some(Strip(Join(buffer, " ")))
  }

  /** Fragments taken from the transcript queue are non-empty and stripped, so the utterance is
      exactly the fragments in arrival order separated by single spaces. */
  lemma UtteranceOfFragments(fragments: seq<string>)
    requires fragments != [] && Forwardable(fragments)
    ensures Utterance(fragments) == Some(Join(fragments, " "))
  {
    JoinOfStrippedIsStripped(fragments);
  }

  /** The silence timers ever started, of which only the held one may still be sleeping. */
  ghost predicate TimersValid(timers: seq<Task>, timer: Option<Handle>) {
    && InLog(timers, timer)
    && (forall i :: 0 <= i < |timers| ==> timers[i].work == SilenceTimer)
    && (forall i :: 0 <= i < |timers| && timers[i].state == Running ==> timer == Some(i))
  }

  class FragmentBuffer {
    var buffer: seq<string>
    var timerTask: Option<Handle>
    /** Every silence timer created so far; `timerTask` is a position in it. */
    var timers: seq<Task>

    ghost predicate Valid()
      reads this
    {
      TimersValid(timers, timerTask)
    }

    constructor ()
      ensures Valid()
      ensures buffer == [] && timerTask == None && timers == []
    {
      buffer, timerTask, timers := [], None, [];
    }

    /** One turn of the `while True` loop in `start`: the fragment is buffered, and the held
        timer is cancelled and replaced by a new one. */
    method OnFragment(t: string)
      requires Valid()
      modifies this
      ensures Valid()
      ensures buffer == old(buffer) + [t]
      ensures timerTask == Some(|old(timers)|) && |timers| == |old(timers)| + 1
      ensures timers[|old(timers)|] == Task(SilenceTimer, Running)
      ensures forall i :: 0 <= i < |old(timers)| ==> timers[i].state != Running
      ensures SameExcept(old(timers), timers, old(timerTask))
    {
      buffer := buffer + [t];
      if timerTask.Some? {
        timers := Cancel(timers, timerTask.value);
      }
      timerTask := Some(|timers|);
      timers := Spawn(timers, SilenceTimer);
    }

    /** `start` taking `fragments` off the transcript queue: all are buffered in arrival order,
        and exactly one timer, the newest, is left sleeping. */
    method Listen(fragments: seq<string>)
      requires Valid()
      modifies this
      ensures Valid()
      ensures buffer == old(buffer) + fragments
      ensures |old(timers)| <= |timers|
      ensures fragments != [] ==> timerTask == Some(|timers| - 1) && timers[|timers| - 1].state == Running
      ensures fragments != [] ==> forall i :: 0 <= i < |timers| - 1 ==> timers[i].state != Running
      ensures fragments == [] ==> timerTask == old(timerTask) && timers == old(timers)
    {
      var i := 0;
      while i < |fragments|
        invariant 0 <= i <= |fragments|
        invariant Valid()
        invariant buffer == old(buffer) + fragments[..i]
        invariant |old(timers)| <= |timers|
        invariant i > 0 ==> timerTask == Some(|timers| - 1) && timers[|timers| - 1].state == Running
        invariant i == 0 ==> timerTask == old(timerTask) && timers == old(timers)
      {
        assert fragments[..i + 1] == fragments[..i] + [fragments[i]];
        OnFragment(fragments[i]);
        i := i + 1;
      }
      assert fragments[..i] == fragments;
    }

    /** The start of `flush_buffer`: nothing happens on an empty buffer; otherwise the buffer is
        joined, stripped and cleared. */
    method TakeUtterance() returns (utterance: Option<string>)
      modifies this
      ensures utterance == Utterance(old(buffer))
      ensures buffer == []
      ensures timerTask == old(timerTask) && timers == old(timers)
    {
      if buffer == [] {
        return None;
      }
      var text := Strip(Join(buffer, " "));
      buffer := [];
      return Some(text);
    }

    /** The timer task `h` reaches its end, normally or by an exception it does not catch. */
    method Finish(h: Handle)
      requires Valid() && h < |timers|
      modifies this
      ensures Valid()
      ensures timers == Complete(old(timers), h) && timers[h].state != Running
      ensures buffer == old(buffer) && timerTask == old(timerTask)
    {
      timers := Complete(timers, h);
    }
  }
}
