/** The quiz page: which screen it shows for a session, the main button that submits
    on the last question and saves-and-advances elsewhere, the timer wired to
    `submit`, and the sequences of user actions the page can deliver to the session. */
module QuizPage {
  import opened Common
  import opened Documents
  import QuizContext
  import OverviewPanel
  import Timer

  /** What the page renders. */
  datatype Screen = Spinner | ErrorText(message: string) | Blank | Exam

  predicate ShowsError(s: QuizContext.Session) {
    s.error.Some? && s.error.value != ""
  }

  /** Loading wins over everything, then an error, then an empty question set renders
      nothing; otherwise the exam. */
  function Render(s: QuizContext.Session): (r: Screen)
    ensures s.loading <==> r == Spinner
    ensures r.ErrorText? <==> !s.loading && ShowsError(s)
    ensures r.ErrorText? ==> r.message == s.error.value
    ensures r == Blank <==> !s.loading && !ShowsError(s) && |s.questions| == 0
    ensures r == Exam <==> !s.loading && !ShowsError(s) && |s.questions| > 0
  {
    if s.loading then Spinner
    else if ShowsError(s) then ErrorText(s.error.value)
    else if |s.questions| == 0 then Blank
    else Exam
  }

  /** `index === questions.length - 1`. */
  predicate OnLastQuestion(s: QuizContext.Session) {
    s.index == |s.questions| - 1
  }

  /** The label of the main button. */
  function MainLabel(s: QuizContext.Session): (text: string)
    ensures text == "Submit Test" <==> OnLastQuestion(s)
    ensures text == "Save & Next" <==> !OnLastQuestion(s)
  {
    if OnLastQuestion(s) then "Submit Test" else "Save & Next"
  }

  /** The main button: `submit()` on the last question, `handleSaveAndNext()` elsewhere.
      It sends a submission exactly when it is on the last question, the latch is
      open and a user is known. */
  function PressMain(s: QuizContext.Session): (r: QuizContext.Submitting)
    ensures OnLastQuestion(s) ==> r == QuizContext.Submit(s)
    ensures !OnLastQuestion(s) ==> r == QuizContext.Submitting(QuizContext.SaveAndNext(s), None)
    ensures r.request.Some? <==> OnLastQuestion(s) && !s.submitted && s.userInfo.Some?
  {
    if OnLastQuestion(s) then QuizContext.Submit(s)
    else QuizContext.Submitting(QuizContext.SaveAndNext(s), None)
  }

  /** The timer on the page starts from the session's `initialTime`. */
  function TimerOf(s: QuizContext.Session): (c: Timer.Clock)
    ensures c == Timer.Clock(s.initialTime, true)
  {
    Timer.Mount(Some(s.initialTime))
  }

  /** The timer's `onEnd` is the session's `submit`: running out of time sends the
      answers exactly when the latch is open and a user is known, and sets the latch. */
  function TimerEnd(s: QuizContext.Session): (r: QuizContext.Submitting)
    ensures r.request.Some? <==> !s.submitted && s.userInfo.Some?
    ensures r.request.Some? ==> r.session.submitted && r.request.value.answers == s.answers
    ensures r.request.None? ==> r.session == s
  {
    QuizContext.Submit(s)
  }

  /** Pressing Submit on the last question and the timer running out, in either order,
      send one submission between them. */
  lemma DoubleTriggerSendsOnce(s: QuizContext.Session)
    requires OnLastQuestion(s) && !s.submitted && s.userInfo.Some?
    ensures
      var first := PressMain(s);
      first.request.Some? && TimerEnd(first.session).request.None?
    ensures
      var first := TimerEnd(s);
      first.request.Some? && PressMain(first.session).request.None?
  {
  }

  /** What the user, the timer or the network can deliver to the session. */
  datatype Action =
    | Choose(option: string)
    | Clear
    | MarkForReview
    | Main
    | Palette(i: nat)
    | TimeUp
    | SubmitFailed

  /** The session after one action and the submission it sends, if any. A palette
      click only exists for a rendered button, so an index beyond the answer slots
      changes nothing. */
  function Apply(s: QuizContext.Session, a: Action): (r: QuizContext.Submitting)
    ensures r.request.Some? ==> (a.Main? || a.TimeUp?) && !s.submitted && r.session.submitted
    ensures a.TimeUp? ==> (r.request.Some? <==> !s.submitted && s.userInfo.Some?)
    ensures a.SubmitFailed? ==> !r.session.submitted
    ensures !a.SubmitFailed? && s.submitted ==> r.request.None? && r.session.submitted
    ensures r.session.questions == s.questions
  {
    match a
    case Choose(o) => QuizContext.Submitting(QuizContext.SelectOption(s, o), None)
    case Clear => QuizContext.Submitting(QuizContext.ClearResponse(s), None)
    case MarkForReview => QuizContext.Submitting(QuizContext.MarkForReviewAndNext(s), None)
    case Main => PressMain(s)
    case Palette(i) =>
      QuizContext.Submitting(if i < |s.answers| then OverviewPanel.Click(s, i) else s, None)
    case TimeUp => TimerEnd(s)
    case SubmitFailed => QuizContext.Submitting(QuizContext.SubmitFailed(s), None)
  }

  /** The session after a run of actions, with the submissions sent along the way:
      each action sends at most one, only the main button and the timer send any, and
      the question set never changes. */
  function Run(s: QuizContext.Session, actions: seq<Action>): (r: (QuizContext.Session, seq<SubmitBody>))
    ensures |r.1| <= |actions|
    ensures (forall k :: 0 <= k < |actions| ==> !actions[k].Main? && !actions[k].TimeUp?) ==> r.1 == []
    ensures r.0.questions == s.questions
    decreases |actions|
  {
    if |actions| == 0 then (s, [])
    else
      var step := Apply(s, actions[0]);
      var sent := if step.request.Some? then [step.request.value] else [];
      var (s', rest) := Run(step.session, actions[1..]);
      (s', sent + rest)
  }

  /** Every run of actions keeps the session consistent and bounded. */
  lemma {:induction false} RunPreservesInvariants(s: QuizContext.Session, actions: seq<Action>)
    requires QuizContext.Consistent(s) && QuizContext.Bounded(s)
    ensures QuizContext.Consistent(Run(s, actions).0) && QuizContext.Bounded(Run(s, actions).0)
    decreases |actions|
  {
    if |actions| > 0 {
      var a := actions[0];
      var i := if a.Palette? && a.i < |s.answers| then a.i else 0;
      var o := if a.Choose? then a.option else "";
      QuizContext.TransitionsPreserveInvariants(s, o, i);
      RunPreservesInvariants(Apply(s, a).session, actions[1..]);
    }
  }

  /** Unless a submission fails, a run sends at most one submission, and none at all
      once the latch is already set. */
  lemma {:induction false} AtMostOneSubmission(s: QuizContext.Session, actions: seq<Action>)
    requires forall k :: 0 <= k < |actions| ==> !actions[k].SubmitFailed?
    ensures |Run(s, actions).1| <= 1
    ensures s.submitted ==> Run(s, actions).1 == [] && Run(s, actions).0.submitted
    ensures Run(s, actions).1 != [] ==> Run(s, actions).0.submitted
    decreases |actions|
  {
    if |actions| > 0 {
      var step := Apply(s, actions[0]);
      assert s.submitted ==> step.request.None? && step.session.submitted;
      assert step.request.Some? ==> step.session.submitted;
      assert !step.session.submitted ==> !s.submitted;
      AtMostOneSubmission(step.session, actions[1..]);
    }
  }
}
