/** The three-step "Post a Job" wizard: Job Basics, Job Details, Review & Post. */
module PostJob {
  import opened Arrays
  import opened Types
  import opened Toasts

  datatype Button = NextButton | BackButton | SubmitButton

  /** The buttons each step renders: Next on steps 1 and 2, Back on steps 2 and 3,
      Confirm & Post on step 3. */
  predicate Offered(step: int, b: Button)
  {
    match b
    case NextButton => step == 1 || step == 2
    case BackButton => step == 2 || step == 3
    case SubmitButton => step == 3
  }

  /** The step after a button's handler runs (`setStep(step + 1)`, `setStep(step - 1)`, unchanged). */
  function Press(step: int, b: Button): int
  {
    match b
    case NextButton => step + 1
    case BackButton => step - 1
    case SubmitButton => step
  }

  /** The step after pressing `presses` in turn, or None when some press is of a button the
      step showing at that moment does not render. */
  function Run(step: int, presses: seq<Button>): (r: Option<int>)
    ensures 1 <= step <= 3 && r.Some? ==> 1 <= r.value <= 3
    decreases |presses|
  {
    if presses == [] then Some(step)
    else if !Offered(step, presses[0]) then None
    else Run(Press(step, presses[0]), presses[1..])
  }

  lemma {:induction false} RunAppend(step: int, a: seq<Button>, b: seq<Button>)
    ensures Run(step, a + b) == match Run(step, a) case None => None case Some(m) => Run(m, b)
    decreases |a|
  {
    if a == [] {
      assert a + b == b;
    } else {
      assert (a + b)[0] == a[0] && (a + b)[1..] == a[1..] + b;
      if Offered(step, a[0]) {
        RunAppend(Press(step, a[0]), a[1..], b);
      }
    }
  }

  /** Next followed by Back returns to the starting step, and Back is on screen after Next. */
  lemma NextThenBack(step: int)
    requires Offered(step, NextButton)
    ensures Offered(Press(step, NextButton), BackButton)
    ensures Run(step, [NextButton, BackButton]) == Some(step)
  {
    assert [NextButton, BackButton][1..] == [BackButton];
  }

  /** A session that starts on step 1 can post the job only from step 3. */
  lemma SubmitOnlyFromReview(presses: seq<Button>)
    requires Run(1, presses + [SubmitButton]).Some?
    ensures Run(1, presses) == Some(3)
  {
    RunAppend(1, presses, [SubmitButton]);
  }

  class PostJobView {
    var step: int

    ghost predicate Valid()
      reads this
    {
      1 <= step <= 3
    }

    constructor ()
      ensures Valid() && step == 1
    {
      step := 1;
    }

    /** `handleNext`, bound only to the Next buttons. */
    method HandleNext()
      requires Offered(step, NextButton)
      modifies this
      ensures Valid() && step == Press(old(step), NextButton)
    {
      step := step + 1;
    }

    /** `handleBack`, bound only to the Back buttons. */
    method HandleBack()
      requires Offered(step, BackButton)
      modifies this
      ensures Valid() && step == Press(old(step), BackButton)
    {
      step := step - 1;
    }

    /** `handleSubmit`: shows a success toast (the navigation to the dashboard is not modelled). */
    method HandleSubmit(toasts: ToastProvider, id: string)
      requires Offered(step, SubmitButton)
      modifies toasts
      ensures Valid() && step == Press(old(step), SubmitButton)
      ensures toasts.toasts == old(toasts.toasts) + [Toast(id, Success, "Job Posted Successfully!")]
    {
      toasts.AddToast(Success, "Job Posted Successfully!", id);
    }
  }
}
