/** The first-visit tour of src/components/onboarding-modal.tsx: a dialog that
    steps through four slides and remembers in local storage that it was
    seen.  Local storage is the `seenFlag` field (the stored value of
    `hasSeenOnboarding`, `None` when absent). */
module Onboarding {
  import opened Text

  const STEP_TITLES: seq<string> := [
    "Welcome to Screening Assessment Platform",
    "Create Your First Test",
    "Generate & Share Test Links",
    "Review Submissions"]

  /** The dialog's state as a value: whether it is open, the slide shown and
      the stored flag. */
  datatype TourState = TourState(open: bool, currentStep: nat, seenFlag: Option<string>)

  predicate ValidState(s: TourState) {
    s.currentStep < |STEP_TITLES|
  }

  /** The effect after mounting: the dialog opens when the stored flag is
      missing or empty. */
  function Mounted(stored: Option<string>): (s: TourState)
    ensures ValidState(s) && s.currentStep == 0 && s.seenFlag == stored
    ensures s.open <==> stored.None? || stored == Some("")
  {
    TourState(stored.None? || stored == Some(""), 0, stored)
  }

  /** `handleComplete` and `handleSkip`: store the flag and close. */
  function Complete(s: TourState): (t: TourState)
    ensures !t.open && t.seenFlag == Some("true") && t.currentStep == s.currentStep
  {
    TourState(false, s.currentStep, Some("true"))
  }

  /** `handleNext`: the next slide, or completion on the last one. */
  function Next(s: TourState): (t: TourState)
    requires ValidState(s)
    ensures ValidState(t)
    ensures s.currentStep < |STEP_TITLES| - 1 ==> t == s.(currentStep := s.currentStep + 1)
    ensures s.currentStep == |STEP_TITLES| - 1 ==> t == Complete(s)
  {
    if s.currentStep < |STEP_TITLES| - 1 then s.(currentStep := s.currentStep + 1) else Complete(s)
  }

  /** `k` presses of the main button. */
  function Presses(s: TourState, k: nat): (t: TourState)
    requires ValidState(s)
    ensures ValidState(t)
    decreases k
  {
    if k == 0 then s else Next(Presses(s, k - 1))
  }

  /** From the first slide, `k` presses show slide `k` while `k` is below the
      number of slides, with the dialog still open and the flag untouched. */
  lemma {:induction false} PressesWalkTheSlides(stored: Option<string>, k: nat)
    requires k < |STEP_TITLES|
    ensures Presses(Mounted(stored), k) == Mounted(stored).(currentStep := k)
    decreases k
  {
    if k > 0 {
      PressesWalkTheSlides(stored, k - 1);
    }
  }

  /** One press more than the slides before the last closes the tour for good:
      after it the dialog is closed and, on the next visit, stays closed. */
  lemma LastPressCompletes(stored: Option<string>)
    ensures var t := Presses(Mounted(stored), |STEP_TITLES|);
      !t.open && t.seenFlag == Some("true") && t.currentStep == |STEP_TITLES| - 1
      && !Mounted(t.seenFlag).open
  {
    PressesWalkTheSlides(stored, |STEP_TITLES| - 1);
  }

  /** The progress dots. */
  datatype Dot = Current | Visited | Ahead

  function DotClass(d: Dot): string {
    match d
    case Current => "bg-primary w-8"
    case Visited => "bg-primary/50"
    case Ahead => "bg-muted"
  }

  /** The current, visited and later slides are told apart by their classes. */
  lemma DotClassesDistinct(d: Dot, e: Dot)
    ensures DotClass(d) == DotClass(e) ==> d == e
  {
    assert |DotClass(d)| == (match d case Current => 14 case Visited => 13 case Ahead => 8);
    assert |DotClass(e)| == (match e case Current => 14 case Visited => 13 case Ahead => 8);
  }

  function DotAt(index: nat, currentStep: nat): (d: Dot)
    ensures d == Current <==> index == currentStep
    ensures d == Visited <==> index < currentStep
    ensures d == Ahead <==> index > currentStep
  {
    if index == currentStep then Current else if index < currentStep then Visited else Ahead
  }

  /** `ONBOARDING_STEPS.map(...)`: one dot per slide, exactly one of them current. */
  function Dots(currentStep: nat): (ds: seq<Dot>)
    requires currentStep < |STEP_TITLES|
    ensures |ds| == |STEP_TITLES|
    ensures forall k :: 0 <= k < |ds| ==> ds[k] == DotAt(k, currentStep)
    ensures forall k :: 0 <= k < |ds| && ds[k] == Current ==> k == currentStep
  {
    seq(|STEP_TITLES|, k requires 0 <= k < |STEP_TITLES| => DotAt(k, currentStep))
  }

  /** The main button reads "Next" on every slide but the last. */
  function MainButtonLabel(currentStep: nat): (caption: string)
    ensures caption == "Get Started" <==> currentStep >= |STEP_TITLES| - 1
  {
    if currentStep < |STEP_TITLES| - 1 then "Next" else "Get Started"
  }

  /** The component: its state fields, changed by its handlers. */
  class OnboardingModal {
    var open: bool
    var currentStep: nat
    var seenFlag: Option<string>

    function State(): TourState
      reads this
    {
      TourState(open, currentStep, seenFlag)
    }

    predicate Valid()
      reads this
    {
      ValidState(State())
    }

    /** Mounting with the stored flag. */
    constructor (stored: Option<string>)
      ensures Valid() && State() == Mounted(stored)
    {
      open := stored.None? || stored == Some("");
      currentStep := 0;
      seenFlag := stored;
    }

    method HandleNext()
      requires Valid()
      modifies this
      ensures Valid() && State() == Next(old(State()))
    {
      if currentStep < |STEP_TITLES| - 1 {
        currentStep := currentStep + 1;
      } else {
        HandleComplete();
      }
    }

    method HandleSkip()
      requires Valid()
      modifies this
      ensures Valid() && State() == Complete(old(State()))
    {
      seenFlag := Some("true");
      open := false;
    }

    method HandleComplete()
      requires Valid()
      modifies this
      ensures Valid() && State() == Complete(old(State()))
    {
      seenFlag := Some("true");
      open := false;
    }

    /** `onOpenChange={setOpen}`: closing the dialog from outside does not store
        the flag, so the tour comes back next time. */
    method OnOpenChange(value: bool)
      requires Valid()
      modifies this
      ensures Valid() && State() == old(State()).(open := value)
    {
      open := value;
    }

    /** The title of the slide shown. */
    function Title(): (t: string)
      requires Valid()
      reads this
      ensures t in STEP_TITLES
    {
      STEP_TITLES[currentStep]
    }
  }
}
