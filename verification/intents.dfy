/** The classifier's intent labels, and the utterance-level input of a session controller. */
module Intents {
  const START: string := "START"
  const STOP: string := "STOP"
  const INTERRUPT: string := "INTERRUPT"
  const COMMAND: string := "COMMAND"
  const IGNORE: string := "IGNORE"

  /** One flushed utterance and the intent string it was classified as. */
  datatype Step = Step(intent: string, text: string)

  /** None of the steps is classified START. */
  predicate NoStart(steps: seq<Step>) {
    forall k :: 0 <= k < |steps| ==> steps[k].intent != START
  }
}
