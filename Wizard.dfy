/**
 * The ten-step form wizard (itinerary-builder/src/components/ItineraryForm.tsx):
 * the current step, the two navigation buttons, the progress figure and the
 * step title.
 */
module Wizard {
  import JsMath

  const TotalSteps: int := 10

  const StepTitles: seq<string> := [
    "Basic Information", "Itinerary Days", "Flights", "Hotels", "Payment Plan",
    "Visa Details", "Important Notes", "Scope of Service", "Inclusions", "Activities"]

  /** nextStep: one step forward unless already at the last step. */
  function Advance(step: int): (r: int)
    ensures step < TotalSteps ==> r == step + 1
    ensures step >= TotalSteps ==> r == step
  {
    if step < TotalSteps then step + 1 else step
  }

  /** prevStep: one step back unless already at the first step. */
  function Retreat(step: int): (r: int)
    ensures step > 1 ==> r == step - 1
    ensures step <= 1 ==> r == step
  {
    if step > 1 then step - 1 else step
  }

  /** Next then Previous returns to the same step from any step but the last. */
  lemma AdvanceThenRetreat(step: int)
    requires 1 <= step < TotalSteps
    ensures Retreat(Advance(step)) == step
  {
  }

  /** Previous then Next returns to the same step from any step but the first. */
  lemma RetreatThenAdvance(step: int)
    requires 1 < step <= TotalSteps
    ensures Advance(Retreat(step)) == step
  {
  }

  /** The step title shown: `steps[currentStep - 1].title`. */
  function Title(step: int): (t: string)
    requires 1 <= step <= TotalSteps
    ensures |t| > 0
    ensures forall k :: 0 <= k < TotalSteps && StepTitles[k] == t ==> k == step - 1
    ensures step == 1 ==> t == "Basic Information"
    ensures step == TotalSteps ==> t == "Activities"
  {
    StepTitles[step - 1]
  }

  /** `Math.round((currentStep / totalSteps) * 100)`: for every step this is exactly ten times the step. */
  function ProgressPercent(step: int): (p: int)
    ensures p == step * 10
  {
    JsMath.RoundWhole(step * 10);
    assert (step as real / TotalSteps as real) * 100.0 == (step * 10) as real;
    JsMath.RoundHalfUp((step as real / TotalSteps as real) * 100.0)
  }

  /** The submit button replaces Next exactly when `currentStep < totalSteps` is false. */
  function ShowsSubmit(step: int): (b: bool)
    ensures 1 <= step <= TotalSteps ==> (b <==> step == TotalSteps)
  {
    !(step < TotalSteps)
  }

  /** Previous is disabled on the first step only. */
  function PreviousDisabled(step: int): (b: bool)
    ensures 1 <= step <= TotalSteps ==> (b <==> Retreat(step) == step)
  {
    step == 1
  }

  /** A run of button presses: true for Next, false for Previous. */
  function Run(step: int, presses: seq<bool>): int
    decreases |presses|
  {
    if presses == [] then step
    else Run(if presses[0] then Advance(step) else Retreat(step), presses[1..])
  }

  /** However the buttons are pressed, the step stays within 1..10. */
  lemma {:induction false} RunStaysInRange(step: int, presses: seq<bool>)
    requires 1 <= step <= TotalSteps
    ensures 1 <= Run(step, presses) <= TotalSteps
    decreases |presses|
  {
    if presses != [] {
      RunStaysInRange(if presses[0] then Advance(step) else Retreat(step), presses[1..]);
    }
  }

  /** The wizard's state: `useState(1)` for the current step. */
  class StepState {
    var currentStep: int

    predicate Valid()
      reads this
    {
      1 <= currentStep <= TotalSteps
    }

    constructor ()
      ensures Valid() && currentStep == 1
    {
      currentStep := 1;
    }

    method NextStep()
      requires Valid()
      modifies this
      ensures Valid()
      ensures currentStep == Advance(old(currentStep))
    {
      if currentStep < TotalSteps {
        currentStep := currentStep + 1;
      }
    }

    method PrevStep()
      requires Valid()
      modifies this
      ensures Valid()
      ensures currentStep == Retreat(old(currentStep))
    {
      if currentStep > 1 {
        currentStep := currentStep - 1;
      }
    }

    function CurrentTitle(): (t: string)
      requires Valid()
      reads this
      ensures t == Title(currentStep)
      ensures forall step :: 1 <= step <= TotalSteps && Title(step) == t ==> step == currentStep
    {
      Title(currentStep)
    }
  }
}
