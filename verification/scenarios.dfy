/** Properties that span the browser session and the routes it talks to: a save that
    a reload restores, a submission that the result and history views show, and the
    fresh start after a submission. */
module Scenarios {
  import opened Common
  import opened Documents
  import Hex
  import Query
  import QuizContext
  import ProgressRoute
  import SubmitRoute
  import ResultRoute
  import ResultPage
  import AttemptsRoute
  import QuizRoute

  /** The autosave of a live session, stored by the progress route and read back on
      the next mount, restores the questions, answers, visited and marked sets and the
      start time; the cursor returns to the first question, the clock shows the time
      left, and no further save or submission is triggered. The autosave posts the
      address in a JSON body, but the reload sends it unencoded in the query string,
      so this holds for addresses that survive it (see
      `UnsurvivingEmailReloadsFresh` for the others). */
  lemma SaveThenReload(
    s: QuizContext.Session, store: ProgressRoute.ProgressStore, saveTime: int,
    mount: int, quiz: seq<Question>, now: int)
    requires s.userInfo.Some? && s.userInfo.value.email != "" && !s.loading
    requires Query.SurvivesQuery(s.userInfo.value.email)
    requires |s.questions| > 0 && s.startTime != 0
    requires QuizContext.Remaining(s.startTime, now) > 0
    ensures
      var user := s.userInfo.value;
      var saved := ProgressRoute.Post(store, QuizContext.AutoSave(s).value, saveTime).store;
      var reply := ProgressRoute.Get(saved, Query.Param(user.email));
      var r := QuizContext.Load(QuizContext.Initial(mount), Some(user), QuizContext.Responses(quiz, reply), now);
      && r.session.questions == s.questions
      && r.session.answers == s.answers
      && r.session.visited == s.visited
      && r.session.marked == s.marked
      && r.session.startTime == s.startTime
      && r.session.index == 0
      && r.session.initialTime == QuizContext.Remaining(s.startTime, now)
      && !r.session.loading
      && r.effects == []
  {
    var user := s.userInfo.value;
    var saved := ProgressRoute.Post(store, QuizContext.AutoSave(s).value, saveTime).store;
    var p := saved[user.email];
    assert Query.Param(user.email) == Some(user.email);
    assert ProgressRoute.Get(saved, Some(user.email)) == ProgressRoute.Ok(ProgressRoute.Row(p));
    assert QuizContext.HasQuestions(p) && QuizContext.HasStartTime(p);
    QuizContext.ResumeRestores(QuizContext.Initial(mount), user, quiz, p, now);
    QuizContext.ResumeWithTimeLeft(QuizContext.Initial(mount), user, quiz, p, now);
  }

  /** An address the query string changes (`a+b@x.com` arrives as `a b@x.com`, see
      `Query.PlusBecomesSpace`) loses its progress on every reload, unless some row
      happens to be stored under the changed address: the autosave stores the row
      under the real address, the next mount asks for the changed one, gets the
      empty marker and starts a fresh quiz with the newly fetched questions, empty
      answers and a full clock, and the save of that fresh start overwrites the
      stored answers. */
  lemma UnsurvivingEmailReloadsFresh(
    s: QuizContext.Session, store: ProgressRoute.ProgressStore, saveTime: int,
    mount: int, quiz: seq<Question>, now: int, later: int)
    requires s.userInfo.Some? && s.userInfo.value.email != "" && !s.loading
    requires !Query.SurvivesQuery(s.userInfo.value.email)
    requires Query.QueryValue(s.userInfo.value.email) != ""
    requires Query.QueryValue(s.userInfo.value.email) !in store
    ensures
      var user := s.userInfo.value;
      var saved := ProgressRoute.Post(store, QuizContext.AutoSave(s).value, saveTime).store;
      var reply := ProgressRoute.Get(saved, Query.Param(user.email));
      var r := QuizContext.Load(QuizContext.Initial(mount), Some(user), QuizContext.Responses(quiz, reply), now);
      && user.email in saved && saved[user.email].answers == Some(s.answers)
      && reply == ProgressRoute.Ok(ProgressRoute.EmptyMarker)
      && r.session.questions == quiz
      && r.session.answers == Nulls(QuestionCount)
      && r.session.startTime == now
      && r.session.initialTime == QuizSeconds
      && |r.effects| == 1 && r.effects[0].SaveProgress?
      && ProgressRoute.Post(saved, r.effects[0].snapshot, later).store[user.email].answers
           == Some(Nulls(QuestionCount))
  {
    var user := s.userInfo.value;
    var q := Query.Param(user.email);
    assert q.value != user.email;
  }

  /** After a submission the progress row is gone, so the next mount starts a fresh
      quiz: the newly fetched questions, every answer empty, only the first question
      visited, and that state saved at once. Requests are taken in sequence: no save
      from before the submission arrives after it. */
  lemma SubmitThenReloadStartsFresh(
    submissions: seq<Submission>, progress: ProgressRoute.ProgressStore, body: SubmitBody,
    newId: ObjectId, submitTime: int, mount: int, user: UserInfo, quiz: seq<Question>, now: int)
    requires forall i :: 0 <= i < |submissions| ==> submissions[i].id != newId
    requires body.email == Str(user.email) && user.email != ""
    requires Query.SurvivesQuery(user.email)
      || (Query.QueryValue(user.email) != "" && Query.QueryValue(user.email) !in progress)
    ensures
      var out := SubmitRoute.Submit(submissions, progress, body, newId, submitTime);
      var reply := ProgressRoute.Get(out.progress, Query.Param(user.email));
      var r := QuizContext.Load(QuizContext.Initial(mount), Some(user), QuizContext.Responses(quiz, reply), now);
      && reply == ProgressRoute.Ok(ProgressRoute.EmptyMarker)
      && r.session.questions == quiz
      && r.session.answers == Nulls(QuestionCount)
      && r.session.visited == {0}
      && r.session.index == 0
      && r.session.startTime == now
      && |r.effects| == 1 && r.effects[0].SaveProgress?
  {
    QuizContext.FreshStartSaves(QuizContext.Initial(mount), user, quiz, now);
  }

  /** A quiz the question route served, submitted from the session, is found by the
      result route under the id the submit route returned, and the result page opened
      with that id shows the stored score with exactly that many Correct badges. */
  lemma SubmittedResultShowsScore(
    submissions: seq<Submission>, progress: ProgressRoute.ProgressStore,
    raw: seq<QuizRoute.RawQuestion>, draws: seq<seq<nat>>,
    s: QuizContext.Session, newId: ObjectId, now: int)
    requires SubmitRoute.UniqueIds(submissions)
    requires forall i :: 0 <= i < |submissions| ==> submissions[i].id != newId
    requires s.questions == QuizRoute.NormaliseAll(raw, draws)
    requires !s.submitted && s.userInfo.Some?
    ensures
      var body := QuizContext.Submit(s).request.value;
      var out := SubmitRoute.Submit(submissions, progress, body, newId, now);
      var found := ResultRoute.Lookup(out.submissions, Some(out.reply.id));
      && found.Found?
      && found.submission.answers == s.answers
      && found.submission.score == Some(SubmitRoute.ScoreOf(s.questions, s.answers))
      && var v := ResultPage.PageView(Some(out.reply.id), found);
      && v.Report?
      && v.score == SubmitRoute.ScoreOf(s.questions, s.answers)
      && v.score == |ResultPage.CorrectSet(s.questions, s.answers)|
  {
    var body := QuizContext.Submit(s).request.value;
    var out := SubmitRoute.Submit(submissions, progress, body, newId, now);
    var rec := out.submissions[|submissions|];
    assert rec in out.submissions;
    ResultRoute.FoundIsTheRecord(out.submissions, newId, rec);
    SubmitRoute.ScoreOfCountsMatches(s.questions, s.answers);
    ResultPage.CorrectBadgesMatchScore(s.questions, s.answers);
  }

  /** A submission appears in its email's history, with the stored score and a date
      taken from the second encoded in its id, since the submit route sets no
      `createdAt`; the result page's attempt number is the number of records. */
  lemma SubmitThenHistory(
    submissions: seq<Submission>, progress: ProgressRoute.ProgressStore, body: SubmitBody,
    seconds: nat, tail: string, now: int, email: string)
    requires seconds < Hex.Pow16(8)
    requires |tail| == 16 && forall i :: 0 <= i < 16 ==> Hex.IsLowerHexDigit(tail[i])
    requires forall i :: 0 <= i < |submissions| ==> submissions[i].id != MintObjectId(seconds, tail)
    requires body.email == Str(email) && email != ""
    requires Query.SurvivesQuery(email)
    ensures
      var id := MintObjectId(seconds, tail);
      var out := SubmitRoute.Submit(submissions, progress, body, id, now);
      var h := AttemptsRoute.List(out.submissions, Query.Param(email));
      && h.Ok?
      && ResultPage.AttemptNumber(Str(email), h) == h.count >= 1
      && exists i :: (0 <= i < |h.history|
           && h.history[i].id == id
           && h.history[i].score == SubmitRoute.ScoreOf(body.questions, body.answers)
           && h.history[i].date == seconds * 1000)
  {
    var id := MintObjectId(seconds, tail);
    var out := SubmitRoute.Submit(submissions, progress, body, id, now);
    var rec := out.submissions[|submissions|];
    assert rec in out.submissions;
    SubmitRoute.ScoreOfCountsMatches(body.questions, body.answers);
    AttemptsRoute.EveryRecordListed(out.submissions, email, rec);
    assert AttemptsRoute.Entry(rec).date == seconds * 1000;
    assert Query.Param(email) == Some(email);
  }

  /** For an address the query string changes, the result page asks for the history
      of the changed address, which has no records: the count is 0 and the page shows
      attempt 1 however often that address has submitted. */
  lemma UnsurvivingEmailShowsFirstAttempt(
    submissions: seq<Submission>, progress: ProgressRoute.ProgressStore, body: SubmitBody,
    newId: ObjectId, now: int, email: string)
    requires forall i :: 0 <= i < |submissions| ==> submissions[i].id != newId
    requires body.email == Str(email) && email != ""
    requires !Query.SurvivesQuery(email) && Query.QueryValue(email) != ""
    requires forall i :: 0 <= i < |submissions| ==> submissions[i].email != Str(Query.QueryValue(email))
    ensures
      var out := SubmitRoute.Submit(submissions, progress, body, newId, now);
      var h := AttemptsRoute.List(out.submissions, Query.Param(email));
      && h == AttemptsRoute.Ok(0, [])
      && ResultPage.AttemptNumber(Str(email), h) == 1
  {
    var out := SubmitRoute.Submit(submissions, progress, body, newId, now);
    var q := Query.QueryValue(email);
    assert Query.Param(email) == Some(q) && q != email;
    forall k | 0 <= k < |out.submissions|
      ensures out.submissions[k].email != Str(q)
    {
      if k < |submissions| {
        assert out.submissions[..|submissions|][k] == out.submissions[k];
      }
    }
    AttemptsRoute.NoRecordsNoHistory(out.submissions, q);
  }
}
