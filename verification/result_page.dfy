/** The result page: the score line and the per-question Correct / Incorrect /
    Skipped badges of one stored submission. */
module ResultPage {
  import opened Common
  import opened Documents
  import SubmitRoute
  import ResultRoute
  import AttemptsRoute

  datatype Badge = Correct | Incorrect | Skipped

  /** The badge of one question: `null` is Skipped whatever the key; otherwise the
      answer is compared with `correctAnswer` only. */
  function Classify(answer: JsVal, q: Question): (b: Badge)
    ensures b == Skipped <==> answer == Null
    ensures b == Correct <==> answer != Null && answer == q.correctAnswer
    ensures b == Incorrect <==> answer != Null && answer != q.correctAnswer
  {
    if answer == Null then Skipped
    else if answer == q.correctAnswer then Correct
    else Incorrect
  }

  /** The badges, one per question, in question order. */
  function Badges(questions: seq<Question>, answers: seq<Answer>): (r: seq<Badge>)
    ensures |r| == |questions|
    ensures forall i :: 0 <= i < |questions| ==> r[i] == Classify(AnswerAt(answers, i), questions[i])
  {
    seq(|questions|, i requires 0 <= i < |questions| => Classify(AnswerAt(answers, i), questions[i]))
  }

  /** The page: the spinner while loading, "Result not found" without a record, a render failure when the record
      has no question list (`questions.map` on `undefined`), otherwise the report. */
  datatype View = Spinner | NotFoundText | RenderFailure | Report(score: int, total: nat, badges: seq<Badge>)

  /** `score !== undefined ? score : 0` over `questions?.length || 15`, then the badges. */
  function ViewOf(result: Option<Submission>): (v: View)
    ensures result.None? <==> v == NotFoundText
    ensures result.Some? && result.value.questions.None? <==> v == RenderFailure
    ensures v.Report? ==> var sub := result.value;
      && v.score == (if sub.score.Some? then sub.score.value else 0)
      && v.total == (if sub.questions.Some? && |sub.questions.value| > 0 then |sub.questions.value| else QuestionCount)
      && v.badges == Badges(sub.questions.value, sub.answers)
  {
    match result
    case None => NotFoundText
    case Some(sub) =>
      if sub.questions.None? then RenderFailure
      else
        var qs := sub.questions.value;
        Report(sub.score.GetOr(0), if |qs| > 0 then |qs| else QuestionCount, Badges(qs, sub.answers))
  }

  /** The page for `?id=`, given the result route's reply. Without an id nothing is
      fetched and the spinner stays; a reply other than the record (every failure is
      an error status, so the request rejects) shows "Result not found". */
  function PageView(id: Option<string>, reply: ResultRoute.Reply): (v: View)
    ensures !Given(id) <==> v == Spinner
    ensures Given(id) && reply.Found? ==> v == ViewOf(Some(reply.submission))
    ensures Given(id) && !reply.Found? ==> v == NotFoundText
  {
    if !Given(id) then Spinner
    else if reply.Found? then ViewOf(Some(reply.submission))
    else NotFoundText
  }

  /** The attempt number shown: 0 until the history arrives, which is only asked for
      when the record has an email and arrives only on success; then the count, or 1
      when the count is 0. */
  function AttemptNumber(email: JsVal, history: AttemptsRoute.Reply): (n: nat)
    ensures !Truthy(email) || history.BadRequest? ==> n == 0
    ensures Truthy(email) && history.Ok? ==> n >= 1 && (history.count > 0 ==> n == history.count)
  {
    if !Truthy(email) then 0
    else match history
      case BadRequest(_) => 0
      case Ok(count, _) => if count > 0 then count else 1
  }

  /** The positions with a Correct badge. */
  function CorrectSet(questions: seq<Question>, answers: seq<Answer>): (r: set<nat>) {
    set i: nat | i < |questions| && Classify(AnswerAt(answers, i), questions[i]) == Correct
  }

  /** When every question carries its key only in `correctAnswer` (and that key is not
      `null`), the Correct badges are exactly the positions the submit route scored,
      so their number is the score. */
  lemma CorrectBadgesMatchScore(questions: seq<Question>, answers: seq<Answer>)
    requires forall i :: 0 <= i < |questions| ==>
      !Truthy(questions[i].rawCorrectAnswer) && questions[i].correctAnswer != Null
    ensures CorrectSet(questions, answers) == SubmitRoute.ScoringSet(questions, answers)
    ensures |CorrectSet(questions, answers)| == SubmitRoute.ScoreOf(questions, answers)
  {
    SubmitRoute.ScoreOfCountsMatches(questions, answers);
  }

  /** With both keys present and different, the score counts `correct_answer` while the
      page compares `correctAnswer`: the same answer is scored and shown Incorrect. */
  lemma KeysDisagree()
    ensures
      var q := Question("Capital of France?", ["Paris", "London"], Str("London"), Str("Paris"), "Geography", "easy");
      && SubmitRoute.ScoreOf([q], [Some("Paris")]) == 1
      && Badges([q], [Some("Paris")]) == [Incorrect]
  {
    var q := Question("Capital of France?", ["Paris", "London"], Str("London"), Str("Paris"), "Geography", "easy");
    assert [q][..0] == [];
    assert SubmitRoute.Scores([q], [Some("Paris")], 0);
  }
}
