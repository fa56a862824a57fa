/** The Back and Next buttons of the add-a-facility wizard. */
module NavigationButtons {
  datatype Button = Back | Next

  /** The buttons shown at `currentStep` of `totalSteps`. */
  function VisibleButtons(currentStep: int, totalSteps: int): set<Button> {
    (if currentStep > 1 then {Back} else {}) + (if currentStep < totalSteps then {Next} else {})
  }

  /** Back shows iff there is a step before, Next iff there is a step after. */
  lemma Visibility(currentStep: int, totalSteps: int)
    ensures Back in VisibleButtons(currentStep, totalSteps) <==> currentStep > 1
    ensures Next in VisibleButtons(currentStep, totalSteps) <==> currentStep < totalSteps
  {
  }

  /** On the first step only Next, on the last only Back, and a single-step wizard has neither. */
  lemma EndSteps(totalSteps: int)
    ensures totalSteps > 1 ==> VisibleButtons(1, totalSteps) == {Next} && VisibleButtons(totalSteps, totalSteps) == {Back}
    ensures VisibleButtons(1, 1) == {}
  {
  }

  /** What pressing a button does: it calls the parent's handler and nothing else; the step is the parent's to change. */
  datatype Call = OnBack | OnNext

  function Press(b: Button): Call {
    match b
    case Back => OnBack
    case Next => OnNext
  }

  /** Each button calls its own handler. */
  lemma PressCallsOwnHandler(b: Button)
    ensures Press(b) == OnBack <==> b == Back
    ensures Press(b) == OnNext <==> b == Next
  {
  }
}
