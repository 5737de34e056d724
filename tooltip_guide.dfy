/** Guided tours (src/components/tooltip-guide.tsx): the footer of one
    `TooltipGuide` bubble and the `useTooltipGuide` step machine. */
module TooltipGuide {
  import opened Text

  /** A guide as a tour declares it. */
  datatype Guide = Guide(title: string, description: string)

  /** What stands left of the buttons: nothing, the "k of n" counter, or the
      bare text "0" that React prints when `step && totalSteps` stops at a
      number 0. */
  datatype Leading = NoCounter | Counter(text: string) | StrayZero

  /** What the footer of a bubble shows: the leading counter, the Skip button
      and the main button's caption. */
  datatype Footer = Footer(leading: Leading, showsSkip: bool, mainButton: Option<string>)

  /** `step && totalSteps`: both given and neither 0. */
  predicate CounterShown(step: Option<int>, totalSteps: Option<int>) {
    step.Some? && step.value != 0 && totalSteps.Some? && totalSteps.value != 0
  }

  /** `step && totalSteps` evaluates to the number 0: `step` is 0, or `step` is
      another number and `totalSteps` is 0. */
  predicate ZeroRendered(step: Option<int>, totalSteps: Option<int>) {
    step == Some(0) || (step.Some? && step.value != 0 && totalSteps == Some(0))
  }

  /** The bubble's footer; `step` and `totalSteps` are `None` when not given.
      The main button compares the two with `===`, so two missing values also
      read "Done". */
  function FooterOf(step: Option<int>, totalSteps: Option<int>, hasOnClose: bool, hasOnNext: bool): (f: Footer)
    ensures f.leading.Counter? <==> CounterShown(step, totalSteps)
    ensures f.leading.Counter? ==> f.leading.text == IntToString(step.value) + " of " + IntToString(totalSteps.value)
    ensures f.leading == StrayZero <==> ZeroRendered(step, totalSteps)
    ensures f.leading == NoCounter <==> step.None? || (step != Some(0) && totalSteps.None?)
    ensures f.showsSkip == hasOnClose
    ensures f.mainButton.Some? <==> hasOnNext
    ensures hasOnNext ==> (f.mainButton == Some("Done") <==> step == totalSteps)
  {
    var leading :=
      if CounterShown(step, totalSteps) then Counter(IntToString(step.value) + " of " + IntToString(totalSteps.value))
      else if ZeroRendered(step, totalSteps) then StrayZero
      else NoCounter;
    var caption := if step == totalSteps then "Done" else "Next";
    Footer(leading, hasOnClose, if hasOnNext then Some(caption) else None)
  }

  /** A bubble given neither number shows no counter, yet its main button reads
      "Done". */
  lemma MissingNumbersReadDone()
    ensures FooterOf(None, None, false, true) == Footer(NoCounter, false, Some("Done"))
  {
  }

  /** A step numbered from 0 prints a stray "0" in place of the counter, and so
      does a tour given as 0 steps long. */
  lemma ZeroStepPrintsZero(totalSteps: Option<int>, step: int)
    ensures FooterOf(Some(0), totalSteps, true, true).leading == StrayZero
    ensures step != 0 ==> FooterOf(Some(step), Some(0), true, true).leading == StrayZero
  {
  }

  /** The state of `useTooltipGuide` as a value. */
  datatype TourState = TourState(currentStep: nat, isActive: bool)

  const INITIAL: TourState := TourState(0, false)

  /** The step stays in range of the tour, or at 0 for an empty tour. */
  predicate ValidState(steps: seq<Guide>, s: TourState) {
    s.currentStep == 0 || s.currentStep < |steps|
  }

  /** `start`: from any state, the first guide of a running tour. */
  function Start(s: TourState): (t: TourState)
    ensures t.isActive && t.currentStep == 0
  {
    TourState(0, true)
  }

  /** `next`: the following step, or the end of the tour on the last one; the
      step is not reset when the tour ends. */
  function Next(steps: seq<Guide>, s: TourState): (t: TourState)
    requires ValidState(steps, s)
    ensures ValidState(steps, t)
    ensures s.currentStep < |steps| - 1 ==> t == s.(currentStep := s.currentStep + 1)
    ensures s.currentStep >= |steps| - 1 ==> t == s.(isActive := false)
  {
    if s.currentStep < |steps| - 1 then s.(currentStep := s.currentStep + 1) else s.(isActive := false)
  }

  /** `skip`: the tour stops where it is. */
  function Skip(s: TourState): (t: TourState)
    ensures !t.isActive && t.currentStep == s.currentStep
  {
    s.(isActive := false)
  }

  /** `currentGuide`: the guide of the current step while the tour runs,
      nothing otherwise (and nothing for an empty tour, where `steps[0]` is
      undefined). */
  function CurrentGuide(steps: seq<Guide>, s: TourState): (g: Option<Guide>)
    requires ValidState(steps, s)
    ensures g.Some? <==> s.isActive && |steps| > 0
    ensures g.Some? ==> g.value == steps[s.currentStep]
  {
    if s.isActive && s.currentStep < |steps| then Some(steps[s.currentStep]) else None
  }

  /** `k` calls of `next` after `start`. */
  function NextCalls(steps: seq<Guide>, k: nat): (t: TourState)
    ensures ValidState(steps, t)
    decreases k
  {
    if k == 0 then Start(INITIAL) else Next(steps, NextCalls(steps, k - 1))
  }

  /** A started tour shows each guide in turn and ends after `next` on the last
      one, leaving the step on the last guide. */
  lemma {:induction false} TourWalksTheGuides(steps: seq<Guide>, k: nat)
    requires k < |steps|
    ensures NextCalls(steps, k) == TourState(k, true)
    ensures CurrentGuide(steps, NextCalls(steps, k)) == Some(steps[k])
    decreases k
  {
    if k > 0 {
      TourWalksTheGuides(steps, k - 1);
    }
  }

  lemma TourEndsAfterLastGuide(steps: seq<Guide>)
    requires |steps| > 0
    ensures NextCalls(steps, |steps|) == TourState(|steps| - 1, false)
    ensures CurrentGuide(steps, NextCalls(steps, |steps|)).None?
  {
    TourWalksTheGuides(steps, |steps| - 1);
  }

  /** When a tour numbers its bubbles from 1 and passes its length, "Done"
      shows exactly on the guide where `next` ends the tour. */
  lemma DoneOnTheLastGuide(steps: seq<Guide>, s: TourState)
    requires ValidState(steps, s) && s.isActive && |steps| > 0
    ensures var f := FooterOf(Some(s.currentStep + 1), Some(|steps|), true, true);
      f.mainButton == Some("Done") <==> !Next(steps, s).isActive
  {
  }

  /** The hook's state, changed by its three actions. */
  class TooltipTour {
    const steps: seq<Guide>
    var currentStep: nat
    var isActive: bool

    function State(): TourState
      reads this
    {
      TourState(currentStep, isActive)
    }

    predicate Valid()
      reads this
    {
      ValidState(steps, State())
    }

    constructor (steps: seq<Guide>)
      ensures this.steps == steps && Valid() && State() == INITIAL
    {
      this.steps := steps;
      currentStep := 0;
      isActive := false;
    }

    method StartTour()
      modifies this
      ensures Valid() && State() == Start(old(State()))
    {
      currentStep := 0;
      isActive := true;
    }

    method NextStep()
      requires Valid()
      modifies this
      ensures Valid() && State() == Next(steps, old(State()))
    {
      if currentStep < |steps| - 1 {
        currentStep := currentStep + 1;
      } else {
        isActive := false;
      }
    }

    method SkipTour()
      requires Valid()
      modifies this
      ensures Valid() && State() == Skip(old(State()))
    {
      isActive := false;
    }
  }
}
