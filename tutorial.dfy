/** The first-run tutorial of frontend/src/components/Tutorial.tsx: a step
    counter over seven fixed steps with Next, Previous, Complete and Skip, and the
    progress display derived from the counter. Browser storage is a map field. */
module Tutorial {

  const StepCount: nat := 7
  const LastStep: nat := StepCount - 1

  /** The storage key and value written when the tutorial is finished or skipped. */
  const CompletedKey: string := "skycanvas_tutorial_completed"
  const CompletedValue: string := "true"

  /** The component's `currentStep`, whether the parent shows it, and local storage. */
  datatype TutorialState = TutorialState(step: nat, open: bool, storage: map<string, string>)

  predicate Valid(t: TutorialState)
  {
    t.step < StepCount
  }

  /** `handleComplete` and `handleSkip`: record completion and close; the step stays. */
  function Finish(t: TutorialState): TutorialState
  {
    t.(storage := t.storage[CompletedKey := CompletedValue], open := false)
  }

  /** `handleNext`: advance below the last step, finish on it. */
  function Next(t: TutorialState): TutorialState
  {
    if t.step < StepCount - 1 then t.(step := t.step + 1) else Finish(t)
  }

  /** `handlePrev`: step back, never below the first step. */
  function Prev(t: TutorialState): TutorialState
  {
    if t.step > 0 then t.(step := t.step - 1) else t
  }

  datatype Dot = CurrentDot | DoneDot | PendingDot

  /** The class of progress dot i. */
  function DotAt(i: nat, step: nat): Dot
  {
    if i == step then CurrentDot else if i < step then DoneDot else PendingDot
  }

  /** The row of dots, one per step. */
  function Dots(step: nat): (ds: seq<Dot>)
    ensures |ds| == StepCount
  {
    seq(StepCount, i requires 0 <= i => DotAt(i, step))
  }

  /** The header "Step {n} of {total}". */
  datatype Header = Header(shown: nat, total: nat)

  function HeaderOf(step: nat): Header
  {
    Header(step + 1, StepCount)
  }

  function Count(ds: seq<Dot>, d: Dot): (n: nat)
    ensures n <= |ds|
  {
    if ds == [] then 0 else (if ds[0] == d then 1 else 0) + Count(ds[1..], d)
  }

  // ---------------------------------------------------------------------------

  /** Every transition keeps the step within the seven steps. */
  lemma TransitionsStayInRange(t: TutorialState)
    requires Valid(t)
    ensures Valid(Next(t)) && Valid(Prev(t)) && Valid(Finish(t))
  {
  }

  /** Next below the last step advances by one and does not finish. */
  lemma NextBelowLast(t: TutorialState)
    requires t.step < LastStep
    ensures Next(t).step == t.step + 1
    ensures Next(t).open == t.open && Next(t).storage == t.storage
  {
  }

  /** Next on the last step records completion and closes without moving. */
  lemma NextOnLast(t: TutorialState)
    requires t.step == LastStep
    ensures Next(t).step == t.step
    ensures !Next(t).open
    ensures CompletedKey in Next(t).storage && Next(t).storage[CompletedKey] == "true"
    ensures forall k :: k in t.storage && k != CompletedKey ==> k in Next(t).storage && Next(t).storage[k] == t.storage[k]
  {
  }

  /** Prev steps back above the first step and does nothing on it. */
  lemma PrevSteps(t: TutorialState)
    ensures t.step > 0 ==> Prev(t).step == t.step - 1
    ensures t.step == 0 ==> Prev(t) == t
  {
  }

  /** Previous undoes Next everywhere except on the last step. */
  lemma PrevUndoesNext(t: TutorialState)
    requires t.step < LastStep
    ensures Prev(Next(t)) == t
  {
  }

  /** Finishing twice is finishing once. */
  lemma FinishIdempotent(t: TutorialState)
    ensures Finish(Finish(t)) == Finish(t)
  {
  }

  lemma {:induction false} CountAppend(a: seq<Dot>, b: seq<Dot>, d: Dot)
    ensures Count(a + b, d) == Count(a, d) + Count(b, d)
    decreases |a|
  {
    if a == [] {
      assert a + b == b;
    } else {
      assert (a + b)[1..] == a[1..] + b;
      CountAppend(a[1..], b, d);
    }
  }

  /** Among the first n dots, min(step, n) are done and one is current if step < n. */
  lemma {:induction false} CountDotsPrefix(step: nat, n: nat)
    requires n <= StepCount
    ensures var ds := Dots(step)[..n];
      && Count(ds, DoneDot) == (if step < n then step else n)
      && Count(ds, CurrentDot) == (if step < n then 1 else 0)
    decreases n
  {
    if n > 0 {
      var ds := Dots(step);
      assert ds[..n] == ds[..n - 1] + [ds[n - 1]];
      CountAppend(ds[..n - 1], [ds[n - 1]], DoneDot);
      CountAppend(ds[..n - 1], [ds[n - 1]], CurrentDot);
      CountDotsPrefix(step, n - 1);
    }
  }

  /** The dots show the step: exactly `step` dots are done, exactly one is current,
      the rest are pending, and the header's number is one more than the done dots. */
  lemma ProgressMatchesStep(step: nat)
    requires step < StepCount
    ensures Count(Dots(step), DoneDot) == step
    ensures Count(Dots(step), CurrentDot) == 1
    ensures HeaderOf(step).shown == Count(Dots(step), DoneDot) + 1
    ensures HeaderOf(step).total == |Dots(step)|
    ensures forall i :: 0 <= i < StepCount ==>
      (Dots(step)[i] == CurrentDot <==> i == step) && (Dots(step)[i] == DoneDot <==> i < step)
  {
    CountDotsPrefix(step, StepCount);
    assert Dots(step)[..StepCount] == Dots(step);
  }

  // ---------------------------------------------------------------------------

  class Tutorial {
    var currentStep: nat
    var isOpen: bool
    var storage: map<string, string>

    function State(): TutorialState
      reads this
    {
      TutorialState(currentStep, isOpen, storage)
    }

    /** Mounted with `useState(0)`; whether it shows and what storage holds come from outside. */
    constructor (isOpen: bool, storage: map<string, string>)
      ensures State() == TutorialState(0, isOpen, storage) && Valid(State())
    {
      currentStep := 0;
      this.isOpen := isOpen;
      this.storage := storage;
    }

    method HandleComplete()
      modifies this
      ensures State() == Finish(old(State()))
    {
      storage := storage[CompletedKey := CompletedValue];
      isOpen := false;
    }

    method HandleSkip()
      modifies this
      ensures State() == Finish(old(State()))
    {
      storage := storage[CompletedKey := CompletedValue];
      isOpen := false;
    }

    method HandleNext()
      modifies this
      ensures State() == Next(old(State()))
      ensures Valid(old(State())) ==> Valid(State())
    {
      if currentStep < StepCount - 1 {
        currentStep := currentStep + 1;
      } else {
        HandleComplete();
      }
    }

    method HandlePrev()
      modifies this
      ensures State() == Prev(old(State()))
      ensures Valid(old(State())) ==> Valid(State())
    {
      if currentStep > 0 {
        currentStep := currentStep - 1;
      }
    }

    /** The dots and the header rendered for the current step. */
    method Progress() returns (dots: seq<Dot>, header: Header)
      requires Valid(State())
      ensures |dots| == StepCount && header.total == StepCount
      ensures forall i :: 0 <= i < |dots| ==> (dots[i] == DoneDot <==> i < currentStep)
      ensures forall i :: 0 <= i < |dots| ==>
        && (dots[i] == CurrentDot <==> i == currentStep)
        && (dots[i] == PendingDot <==> i > currentStep)
      ensures Count(dots, DoneDot) == currentStep && Count(dots, CurrentDot) == 1
      ensures header.shown == currentStep + 1
      ensures dots == Dots(currentStep) && header == HeaderOf(currentStep)
    {
      dots := Dots(currentStep);
      header := HeaderOf(currentStep);
      ProgressMatchesStep(currentStep);
    }
  }
}
