/** The submit route: scores the posted answers against the question keys, appends a
    submission record, and deletes the submitter's progress row. */
module SubmitRoute {
  import opened Common
  import opened Documents
  import ProgressRoute

  /** The key a question is scored against: `q.correct_answer || q.correctAnswer`. */
  function Key(q: Question): (k: JsVal)
    ensures Truthy(q.rawCorrectAnswer) ==> k == q.rawCorrectAnswer
    ensures !Truthy(q.rawCorrectAnswer) ==> k == q.correctAnswer
  {
    Or(q.rawCorrectAnswer, q.correctAnswer)
  }

  /** Position `i` scores when `answers[i] === key` (strict equality, so `null` only
      matches a `null` key and a missing slot only a missing key). */
  predicate Scores(questions: seq<Question>, answers: seq<Answer>, i: nat)
    requires i < |questions|
  {
    AnswerAt(answers, i) == Key(questions[i])
  }

  /** The positions that score. */
  function ScoringSet(questions: seq<Question>, answers: seq<Answer>): (r: set<nat>) {
    set i: nat | i < |questions| && Scores(questions, answers, i)
  }

  /** The score, counted over the questions from first to last; it never exceeds the
      number of questions. */
  function ScoreOf(questions: seq<Question>, answers: seq<Answer>): (r: nat)
    ensures r <= |questions|
  {
    if |questions| == 0 then 0
    else
      var n := |questions| - 1;
      ScoreOf(questions[..n], answers) + (if Scores(questions, answers, n) then 1 else 0)
  }

  /** The score is the number of positions whose answer equals the question's key. */
  lemma {:induction false} ScoreOfCountsMatches(questions: seq<Question>, answers: seq<Answer>)
    ensures ScoreOf(questions, answers) == |ScoringSet(questions, answers)|
  {
    if |questions| == 0 {
      assert ScoringSet(questions, answers) == {};
    } else {
      var n := |questions| - 1;
      var p := questions[..n];
      ScoreOfCountsMatches(p, answers);
      forall i: nat | i < n
        ensures Scores(p, answers, i) == Scores(questions, answers, i)
      {
        assert p[i] == questions[i];
      }
      if Scores(questions, answers, n) {
        assert ScoringSet(questions, answers) == ScoringSet(p, answers) + {n};
      } else {
        assert ScoringSet(questions, answers) == ScoringSet(p, answers);
      }
    }
  }

  /** The route's `forEach` loop. */
  method ComputeScore(questions: seq<Question>, answers: seq<Answer>) returns (score: nat)
    ensures score == |ScoringSet(questions, answers)|
    ensures score <= |questions|
  {
    score := 0;
    var i := 0;
    while i < |questions|
      invariant 0 <= i <= |questions|
      invariant score == ScoreOf(questions[..i], answers)
    {
      assert questions[..i + 1][..i] == questions[..i];
      if AnswerAt(answers, i) == Key(questions[i]) {
        score := score + 1;
      }
      i := i + 1;
    }
    assert questions[..i] == questions;
    ScoreOfCountsMatches(questions, answers);
  }

  /** A question whose `correctAnswer` is a string always has a string key, so a
      `null` or missing answer cannot score on it; the key is `null` exactly when
      `correct_answer` is falsy and `correctAnswer` is `null`. */
  lemma KeyPrecedence(q: Question)
    ensures q.correctAnswer.Str? ==> Key(q).Str? && Key(q) != Null && Key(q) != Undefined
    ensures Key(q) == Null <==> !Truthy(q.rawCorrectAnswer) && q.correctAnswer == Null
  {
  }

  /** A `null` answer never scores against a string key. */
  lemma NullNeverScores(questions: seq<Question>, answers: seq<Answer>, i: nat)
    requires i < |questions| && i < |answers| && answers[i] == None
    requires Key(questions[i]).Str?
    ensures !Scores(questions, answers, i)
  {
  }

  datatype SubmitReply = SubmitReply(success: bool, id: ObjectId)

  datatype Outcome = Outcome(
    submissions: seq<Submission>,
    progress: ProgressRoute.ProgressStore,
    reply: SubmitReply)

  /** The ids in use are distinct. */
  predicate UniqueIds(submissions: seq<Submission>) {
    forall i, j :: 0 <= i < j < |submissions| ==> submissions[i].id != submissions[j].id
  }

  /** POST /api/submit. `newId` is the id the database assigns to the insert and `now`
      the server clock. The new record carries the posted questions and answers, the
      computed score, `submittedAt = now`, and every other body field except the two
      the route overwrites; nothing is deduplicated; then the progress row of the
      body's email is deleted and no other row is touched. */
  function Submit(
    submissions: seq<Submission>,
    progress: ProgressRoute.ProgressStore,
    body: SubmitBody,
    newId: ObjectId,
    now: int): (r: Outcome)
    requires forall i :: 0 <= i < |submissions| ==> submissions[i].id != newId
    ensures |r.submissions| == |submissions| + 1
    ensures r.submissions[..|submissions|] == submissions
    ensures
      var rec := r.submissions[|submissions|];
      && rec.id == newId
      && rec.email == body.email
      && rec.questions == Some(body.questions)
      && rec.answers == body.answers
      && rec.score == Some(|ScoringSet(body.questions, body.answers)|)
      && rec.submittedAt == Some(now)
      && rec.createdAt == None
      && rec.extra.Keys == body.extra.Keys - {"score", "submittedAt"}
      && (forall f :: f in rec.extra ==> rec.extra[f] == body.extra[f])
    ensures r.reply == SubmitReply(true, newId)
    ensures body.email.Str? ==> r.progress == progress - {body.email.s}
    ensures !body.email.Str? ==> r.progress == progress
    ensures UniqueIds(submissions) ==> UniqueIds(r.submissions)
  {
    ScoreOfCountsMatches(body.questions, body.answers);
    var rec := Submission(
      newId,
      body.email,
      Some(body.questions),
      body.answers,
      Some(ScoreOf(body.questions, body.answers)),
      Some(now),
      None,
      body.extra - {"score", "submittedAt"});
    var progress' := if body.email.Str? then progress - {body.email.s} else progress;
    Outcome(submissions + [rec], progress', SubmitReply(true, newId))
  }

  /** Submitting the same body twice stores two records with the same score. */
  lemma DoubleSubmitStoresTwice(
    submissions: seq<Submission>,
    progress: ProgressRoute.ProgressStore,
    body: SubmitBody,
    id1: ObjectId, id2: ObjectId, now1: int, now2: int)
    requires forall i :: 0 <= i < |submissions| ==> submissions[i].id != id1 && submissions[i].id != id2
    requires id1 != id2
    ensures
      var first := Submit(submissions, progress, body, id1, now1);
      var second := Submit(first.submissions, first.progress, body, id2, now2);
      && |second.submissions| == |submissions| + 2
      && second.submissions[|submissions|].score == second.submissions[|submissions| + 1].score
  {
  }
}
