/** The quiz session state machine held by the quiz context provider: the question
    set, the answer slots, the cursor, the visited and marked sets, the clock values
    and the one-shot submission latch, with the transitions the page and the palette
    trigger, the load/resume protocol, the auto-save payload and the submission
    latch. Network calls are not performed here: a transition returns the requests it
    would send as effects, and responses arrive as parameters. */
module QuizContext {
  import opened Common
  import opened Documents
  import ProgressRoute
  import Query

  datatype Session = Session(
    questions: seq<Question>,
    answers: seq<Answer>,
    index: nat,
    visited: set<int>,
    marked: set<int>,
    loading: bool,
    error: Option<string>,
    sidebarOpen: bool,
    userInfo: Option<UserInfo>,
    initialTime: int,
    startTime: int,
    /** the one-shot latch kept in a ref: set while a submission is in flight or done */
    submitted: bool)

  /** A request the session sends, or a navigation. */
  datatype Effect =
    | SaveProgress(snapshot: Snapshot)
    | PostSubmit(body: SubmitBody)
    | Redirect(path: string)

  datatype Step = Step(session: Session, effects: seq<Effect>)

  /** The state on first render, `now` being the clock then: 15 empty answers, cursor
      on the first question which counts as visited, nothing marked, 30 minutes on
      the clock, loading, no user yet and the latch open. */
  function Initial(now: int): (s: Session)
    ensures |s.answers| == QuestionCount
    ensures forall i :: 0 <= i < |s.answers| ==> s.answers[i] == None
    ensures s.index == 0 && s.visited == {0} && s.marked == {}
    ensures s.initialTime == QuizSeconds && s.startTime == now
    ensures s.loading && s.error.None? && s.userInfo.None? && !s.submitted
    ensures s.questions == []
  {
    Session([], Nulls(QuestionCount), 0, {0}, {}, true, None, false, None, QuizSeconds, now, false)
  }

  /** The cursor sits on a visited question and every answered question was visited. */
  predicate Consistent(s: Session) {
    && s.index in s.visited
    && (forall i :: 0 <= i < |s.answers| && s.answers[i].Some? ==> i in s.visited)
  }

  /** The shape the palette statistics assume: 15 answer slots, at most 15 questions,
      and only indices of those slots visited. */
  predicate Bounded(s: Session) {
    && |s.answers| == QuestionCount
    && |s.questions| <= QuestionCount
    && (forall v :: v in s.visited ==> 0 <= v < QuestionCount)
  }

  lemma InitialIsConsistent(now: int)
    ensures Consistent(Initial(now)) && Bounded(Initial(now))
  {
  }

  /** `setIndex(i)` together with the effect that adds every new index to `visited`. */
  function MoveTo(s: Session, i: nat): (r: Session)
    ensures r.index == i && i in r.visited
    ensures r.visited == s.visited + {i}
    ensures r == s.(index := i, visited := r.visited)
  {
    s.(index := i, visited := s.visited + {i})
  }

  /** JavaScript `copy[i] = v` on an array copy: past the end the array grows, and the
      slots in between (holes in JavaScript) read as empty here. */
  function Assign(a: seq<Answer>, i: nat, v: Answer): (r: seq<Answer>)
    ensures |r| == if i < |a| then |a| else i + 1
    ensures r[i] == v
    ensures forall j :: 0 <= j < |a| && j != i ==> r[j] == a[j]
    ensures forall j :: |a| <= j < i ==> r[j] == None
  {
    if i < |a| then a[i := v] else a + Nulls(i - |a|) + [v]
  }

  /** `handleOptionSelect(opt)`: only the current answer slot changes, to `opt`. */
  function SelectOption(s: Session, opt: string): (r: Session)
    ensures s.index < |s.answers| ==> |r.answers| == |s.answers|
    ensures s.index < |r.answers| && r.answers[s.index] == Some(opt)
    ensures forall j :: 0 <= j < |s.answers| && j != s.index ==> r.answers[j] == s.answers[j]
    ensures r == s.(answers := r.answers)
  {
    s.(answers := Assign(s.answers, s.index, Some(opt)))
  }

  /** `handleClearResponse()`: only the current answer slot changes, to `null`. */
  function ClearResponse(s: Session): (r: Session)
    ensures s.index < |s.answers| ==> |r.answers| == |s.answers|
    ensures s.index < |r.answers| && r.answers[s.index] == None
    ensures forall j :: 0 <= j < |s.answers| && j != s.index ==> r.answers[j] == s.answers[j]
    ensures r == s.(answers := r.answers)
  {
    s.(answers := Assign(s.answers, s.index, None))
  }

  /** Whether the cursor is before the last question (`index < questions.length - 1`). */
  predicate CanAdvance(s: Session) {
    s.index + 1 < |s.questions|
  }

  /** `handleSaveAndNext()`: the cursor moves on by one exactly when it is not on the
      last question, and that question becomes visited; on the last question nothing
      happens. It never leaves the question range. */
  function SaveAndNext(s: Session): (r: Session)
    ensures CanAdvance(s) <==> r.index == s.index + 1
    ensures !CanAdvance(s) ==> r == s
    ensures CanAdvance(s) ==> r == s.(index := r.index, visited := s.visited + {r.index})
    ensures s.index < |s.questions| ==> r.index < |s.questions|
  {
    if CanAdvance(s) then MoveTo(s, s.index + 1) else s
  }

  /** `handleMarkForReviewNext()`: the current question joins `marked` (nothing leaves
      it), then the cursor advances under the same last-question guard. */
  function MarkForReviewAndNext(s: Session): (r: Session)
    ensures r.marked == s.marked + {s.index}
    ensures CanAdvance(s) <==> r.index == s.index + 1
    ensures !CanAdvance(s) ==> r == s.(marked := r.marked)
    ensures CanAdvance(s) ==> r == s.(index := r.index, visited := s.visited + {r.index}, marked := r.marked)
    ensures s.index < |s.questions| ==> r.index < |s.questions|
  {
    var m := s.(marked := s.marked + {s.index});
    if CanAdvance(s) then MoveTo(m, s.index + 1) else m
  }

  /** The transitions that edit answers or move the cursor keep the session consistent
      and bounded, and never shrink `visited` or `marked`. */
  lemma {:induction false} TransitionsPreserveInvariants(s: Session, opt: string, i: nat)
    requires Consistent(s) && Bounded(s)
    requires i < |s.answers|
    ensures var r := SelectOption(s, opt); Consistent(r) && Bounded(r)
    ensures var r := ClearResponse(s); Consistent(r) && Bounded(r)
    ensures var r := SaveAndNext(s); Consistent(r) && Bounded(r)
    ensures var r := MarkForReviewAndNext(s); Consistent(r) && Bounded(r)
    ensures var r := MoveTo(s, i); Consistent(r) && Bounded(r)
    ensures s.visited <= SaveAndNext(s).visited && s.visited <= MarkForReviewAndNext(s).visited
    ensures s.marked <= MarkForReviewAndNext(s).marked
  {
    assert s.index < |s.answers|;
    var a := SelectOption(s, opt);
    assert forall j :: 0 <= j < |a.answers| && a.answers[j].Some? ==> j == s.index || s.answers[j].Some?;
    var c := ClearResponse(s);
    assert forall j :: 0 <= j < |c.answers| && c.answers[j].Some? ==> s.answers[j].Some?;
  }

  /** Submission body the context posts: the user's email with the questions and the
      answers. */
  function SubmitBodyOf(email: string, s: Session): (r: SubmitBody) {
    SubmitBody(Str(email), s.questions, s.answers, map[])
  }

  datatype Submitting = Submitting(session: Session, request: Option<SubmitBody>)

  /** `submit()`: nothing happens when the latch is already set or no user is known;
      otherwise the latch is set and the spinner shown before the request goes out. */
  function Submit(s: Session): (r: Submitting)
    ensures r.request.Some? <==> !s.submitted && s.userInfo.Some?
    ensures r.request.None? ==> r.session == s
    ensures r.request.Some? ==>
      && r.session == s.(submitted := true, loading := true)
      && r.request.value == SubmitBodyOf(s.userInfo.value.email, s)
  {
    if s.submitted || s.userInfo.None? then Submitting(s, None)
    else Submitting(s.(submitted := true, loading := true), Some(SubmitBodyOf(s.userInfo.value.email, s)))
  }

  /** A failed submission reopens the latch and hides the spinner, so it can be retried. */
  function SubmitFailed(s: Session): (r: Session)
    ensures !r.submitted && !r.loading
    ensures r.answers == s.answers && r.questions == s.questions
    ensures r == s.(submitted := false, loading := false)
  {
    s.(submitted := false, loading := false)
  }

  /** A successful submission navigates to the result page of the new record. The id
      is interpolated unencoded, and the page reads back exactly that id. */
  function SubmitSucceeded(s: Session, id: ObjectId): (r: Step)
    ensures r.session == s
    ensures |r.effects| == 1 && r.effects[0].Redirect?
    ensures r.effects[0].path == "/result?id=" + id && Query.QueryValue(id) == id
  {
    Query.HexSurvives(id);
    Step(s, [Redirect("/result?id=" + id)])
  }

  /** Once the latch is set, neither another `submit()` nor the unmount hook sends
      anything. */
  lemma LatchBlocksSecondSubmission(s: Session, cookie: Option<UserInfo>)
    requires Submit(s).request.Some?
    ensures Submit(Submit(s).session).request.None?
    ensures Unmount(Submit(s).session, cookie).None?
  {
  }

  /** The unmount hook: when the latch is open and questions are loaded, the current
      questions and answers are sent once more for the user found in the cookie. */
  function Unmount(s: Session, cookie: Option<UserInfo>): (r: Option<SubmitBody>)
    ensures r.Some? <==> !s.submitted && |s.questions| > 0 && cookie.Some?
    ensures r.Some? ==> r.value == SubmitBodyOf(cookie.value.email, s)
  {
    if !s.submitted && |s.questions| > 0 && cookie.Some? then Some(SubmitBodyOf(cookie.value.email, s))
    else None
  }

  /** The debounced save: once a user is known and loading is over, the payload is the
      full current snapshot. `loading` is tested when the effect runs; a save already
      scheduled is not cancelled when it is set later. */
  function AutoSave(s: Session): (r: Option<Snapshot>)
    ensures r.Some? <==> s.userInfo.Some? && !s.loading
    ensures r.Some? ==> r.value == Snapshot(
      Str(s.userInfo.value.email), Some(s.questions), Some(s.answers), Some(s.index),
      Some(s.visited), Some(s.marked), Some(s.startTime), None)
  {
    if s.userInfo.None? || s.loading then None
    else Some(Snapshot(
      Str(s.userInfo.value.email), Some(s.questions), Some(s.answers), Some(s.index),
      Some(s.visited), Some(s.marked), Some(s.startTime), None))
  }

  /** Why the initial load failed: an HTTP error reply, a request with no reply, or a
      fault that is not an HTTP error at all. */
  datatype LoadFailure = HttpError(status: int, serverError: JsVal) | NoResponse | Unexpected

  /** The two initial requests: both replies, or the failure that rejected them. */
  datatype Fetched =
    | Responses(quiz: seq<Question>, progress: ProgressRoute.Reply<ProgressRoute.Loaded>)
    | Failed(failure: LoadFailure)

  /** The error shown when the initial load fails. */
  function ErrorMessage(f: LoadFailure): (m: string)
    ensures f.HttpError? && f.status == 429 ==> m == "Rate limit exceeded. Please try again in moments."
    ensures f.HttpError? && f.status != 429 && Truthy(f.serverError) ==> m == f.serverError.s
    ensures f.NoResponse? || (f.HttpError? && f.status != 429 && !Truthy(f.serverError)) ==>
      m == "Failed to load quiz."
    ensures f.Unexpected? ==> m == "An unexpected error occurred."
    ensures m != ""
  {
    match f
    case HttpError(status, serverError) =>
      if status == 429 then "Rate limit exceeded. Please try again in moments."
      else if Truthy(serverError) then serverError.s
      else "Failed to load quiz."
    case NoResponse => "Failed to load quiz."
    case Unexpected => "An unexpected error occurred."
  }

  /** Seconds left of the 30 minutes when the quiz started at `startTime` and it is
      `now` (both in milliseconds): 1800 minus the whole seconds elapsed, rounded
      down as `Math.floor` does. */
  function Remaining(startTime: int, now: int): (r: int)
    ensures var elapsed := QuizSeconds - r;
      elapsed * 1000 <= now - startTime < elapsed * 1000 + 1000
  {
    QuizSeconds - (now - startTime) / 1000
  }

  /** `p.startTime` is truthy. */
  predicate HasStartTime(p: Snapshot) {
    p.startTime.Some? && p.startTime.value != 0
  }

  /** Whether a stored question set is reused (`p.questions && p.questions.length > 0`). */
  predicate HasQuestions(p: Snapshot) {
    p.questions.Some? && |p.questions.value| > 0
  }

  /** The one-time save that pins a freshly fetched question set onto a snapshot that
      had none, with the cursor reset to 0: the row keeps its answers, visited and
      marked sets and a truthy start time, defaults fill the rest, and a non-empty set
      of questions makes the row one that a later load reuses. */
  function MigrationSnapshot(email: string, quiz: seq<Question>, p: Snapshot, now: int): (r: Snapshot)
    ensures r.email == Str(email) && r.questions == Some(quiz) && r.index == Some(0)
    ensures p.answers.Some? ==> r.answers == p.answers
    ensures p.answers.None? ==> r.answers == Some(Nulls(QuestionCount))
    ensures p.visited.Some? ==> r.visited == p.visited
    ensures p.visited.None? ==> r.visited == Some({0})
    ensures p.marked.Some? ==> r.marked == p.marked
    ensures p.marked.None? ==> r.marked == Some({})
    ensures HasStartTime(p) ==> r.startTime == p.startTime
    ensures !HasStartTime(p) ==> r.startTime == Some(now)
    ensures |quiz| > 0 <==> HasQuestions(r)
    ensures HasStartTime(r) <==> HasStartTime(p) || now != 0
  {
    Snapshot(
      Str(email),
      Some(quiz),
      Some(p.answers.GetOr(Nulls(QuestionCount))),
      Some(0),
      Some(p.visited.GetOr({0})),
      Some(p.marked.GetOr({})),
      Some(if HasStartTime(p) then p.startTime.value else now),
      None)
  }

  /** Resuming from a stored snapshot `p`. `s` is the session of the render whose
      `fetchQuiz` is running, `s1` that session with the user set. The row's questions
      are reused when it has some (otherwise the fetched ones are adopted and saved
      first), its answers, visited and marked sets replace the session's when
      present, and the cursor stays. With a start time, the clock continues from it:
      time left goes on the timer; no time left calls the render's `submit` and leaves
      the spinner up. Without one, the clock starts now. */
  function Resume(s: Session, s1: Session, email: string, quiz: seq<Question>, p: Snapshot, now: int): (r: Step)
    ensures r.session.questions == (if HasQuestions(p) then p.questions.value else quiz)
    ensures r.session.answers == (if p.answers.Some? then p.answers.value else s1.answers)
    ensures r.session.visited == (if p.visited.Some? then p.visited.value else s1.visited)
    ensures r.session.marked == (if p.marked.Some? then p.marked.value else s1.marked)
    ensures r.session.index == s1.index && r.session.userInfo == s1.userInfo && r.session.error == s1.error
    ensures HasStartTime(p) ==> r.session.startTime == p.startTime.value
    ensures !HasStartTime(p) ==> r.session.startTime == now && !r.session.loading
    ensures HasStartTime(p) && Remaining(p.startTime.value, now) > 0 ==>
      r.session.initialTime == Remaining(p.startTime.value, now) && !r.session.loading
    ensures HasStartTime(p) && Remaining(p.startTime.value, now) <= 0 ==> r.session.loading == s1.loading
    ensures (exists e :: e in r.effects && e.PostSubmit?) <==>
      HasStartTime(p) && Remaining(p.startTime.value, now) <= 0 && !s.submitted && s.userInfo.Some?
    ensures (exists e :: e in r.effects && e.SaveProgress?) <==> !HasQuestions(p)
    ensures !HasQuestions(p) ==> r.effects[0] == SaveProgress(MigrationSnapshot(email, quiz, p, now))
  {
    var migration := if HasQuestions(p) then [] else [SaveProgress(MigrationSnapshot(email, quiz, p, now))];
    assert forall e :: e in migration ==> e.SaveProgress?;
    assert !HasQuestions(p) ==> migration[0] in migration;
    var s2 := s1.(
      questions := if HasQuestions(p) then p.questions.value else quiz,
      answers := p.answers.GetOr(s1.answers),
      visited := p.visited.GetOr(s1.visited),
      marked := p.marked.GetOr(s1.marked));
    if HasStartTime(p) then
      var remaining := Remaining(p.startTime.value, now);
      var s3 := s2.(startTime := p.startTime.value);
      if remaining <= 0 then
        // `submit` here is the closure of the render `s`, not of the current state;
        // the function returns before loading is cleared
        var stale := Submit(s);
        var sent := if stale.request.Some? then [PostSubmit(stale.request.value)] else [];
        assert forall e :: e in migration + sent ==> e in migration || e in sent;
        assert stale.request.Some? ==> sent[0] in migration + sent;
        assert !HasQuestions(p) ==> (migration + sent)[0] == migration[0];
        Step(s3.(submitted := stale.session.submitted), migration + sent)
      else
        Step(s3.(initialTime := remaining, loading := false), migration)
    else
      Step(s2.(startTime := now, loading := false), migration)
  }

  /** A fresh start: the fetched questions, the clock started now, only the first
      question visited, and the new state saved at once with empty answers, the
      cursor at 0 and nothing marked. */
  function FreshStart(s1: Session, email: string, quiz: seq<Question>, now: int): (r: Step)
    ensures r.session == s1.(questions := quiz, startTime := now, visited := {0}, loading := false)
    ensures |r.effects| == 1 && r.effects[0].SaveProgress?
    ensures var p := r.effects[0].snapshot;
      && p.email == Str(email) && p.questions == Some(quiz) && p.answers == Some(Nulls(QuestionCount))
      && p.index == Some(0) && p.visited == Some({0}) && p.marked == Some({}) && p.startTime == Some(now)
  {
    Step(
      s1.(questions := quiz, startTime := now, visited := {0}, loading := false),
      [SaveProgress(Snapshot(Str(email), Some(quiz), Some(Nulls(QuestionCount)), Some(0),
                             Some({0}), Some({}), Some(now), None))])
  }

  /** `fetchQuiz()`, run from the render `s` with the user read from the cookie, the
      replies of the quiz request and of the progress request (the route receives
      `Query.Param(user.email)`, since the address is interpolated unencoded), and
      the clock `now`. Without a user it only redirects to the login page. A failed
      request shows its error. No stored row starts a fresh quiz; a stored row is
      resumed. */
  function Load(s: Session, cookie: Option<UserInfo>, fetched: Fetched, now: int): (r: Step)
    ensures cookie.None? ==> r == Step(s, [Redirect("/login")])
    ensures cookie.Some? ==> r.session.userInfo == cookie
    ensures cookie.Some? && fetched.Failed? ==>
      && r.session == s.(userInfo := cookie, loading := false, error := Some(ErrorMessage(fetched.failure)))
      && r.effects == []
    ensures cookie.Some? && fetched.Responses? && fetched.progress.BadRequest? ==>
      && r.session == s.(userInfo := cookie, loading := false,
           error := Some(if fetched.progress.error != "" then fetched.progress.error else "Failed to load quiz."))
      && r.effects == []
    ensures cookie.Some? && fetched.Responses? && fetched.progress == ProgressRoute.Ok(ProgressRoute.EmptyMarker) ==>
      && r.session.questions == fetched.quiz && r.session.answers == s.answers
      && r.session.visited == {0} && r.session.startTime == now && r.session.index == s.index
      && !r.session.loading && r.session.error.None?
      && r.effects == [SaveProgress(Snapshot(Str(cookie.value.email), Some(fetched.quiz),
           Some(Nulls(QuestionCount)), Some(0), Some({0}), Some({}), Some(now), None))]
    ensures cookie.Some? && fetched.Responses? && fetched.progress.Ok? && fetched.progress.body.Row? ==>
      var p := fetched.progress.body.snapshot;
      && r.session.questions == (if HasQuestions(p) then p.questions.value else fetched.quiz)
      && r.session.answers == (if p.answers.Some? then p.answers.value else s.answers)
      && r.session.index == s.index && r.session.error.None?
      && (HasStartTime(p) ==> r.session.startTime == p.startTime.value)
      && (!HasStartTime(p) ==> r.session.startTime == now && !r.session.loading)
      && (HasStartTime(p) && Remaining(p.startTime.value, now) > 0 ==>
            r.session.initialTime == Remaining(p.startTime.value, now) && !r.session.loading)
      && (HasStartTime(p) && Remaining(p.startTime.value, now) <= 0 ==> r.session.loading)
  {
    if cookie.None? then Step(s, [Redirect("/login")])
    else
      var user := cookie.value;
      var s1 := s.(userInfo := Some(user), loading := true, error := None);
      match fetched
      case Failed(f) =>
        Step(s1.(loading := false, error := Some(ErrorMessage(f))), [])
      case Responses(quiz, BadRequest(e)) =>
        Step(s1.(loading := false, error := Some(ErrorMessage(HttpError(400, Str(e))))), [])
      case Responses(quiz, Ok(EmptyMarker)) =>
        FreshStart(s1, user.email, quiz, now)
      case Responses(quiz, Ok(Row(p))) =>
        Resume(s, s1, user.email, quiz, p, now)
  }

  /** Loading with no user in the cookie changes nothing and sends the browser to
      the login page. */
  lemma LoadWithoutUserRedirects(s: Session, fetched: Fetched, now: int)
    ensures Load(s, None, fetched, now) == Step(s, [Redirect("/login")])
  {
  }

  /** A fresh start adopts the fetched questions, leaves the cursor where it was,
      visits only the first question and saves that state with the cursor at 0. */
  lemma {:induction false} FreshStartSaves(s: Session, user: UserInfo, quiz: seq<Question>, now: int)
    ensures
      var r := Load(s, Some(user), Responses(quiz, ProgressRoute.Ok(ProgressRoute.EmptyMarker)), now);
      && r.session.questions == quiz
      && r.session.index == s.index
      && r.session.visited == {0}
      && r.session.startTime == now
      && !r.session.loading
      && r.session.userInfo == Some(user)
      && |r.effects| == 1 && r.effects[0].SaveProgress?
      && r.effects[0].snapshot.questions == Some(quiz)
      && r.effects[0].snapshot.index == Some(0)
      && r.effects[0].snapshot.startTime == Some(now)
  {
  }

  /** Resuming from a snapshot reuses its questions when it has some (and otherwise
      adopts and saves the fetched ones), restores answers, visited and marked when
      present, and does not restore the cursor. */
  lemma {:induction false} ResumeRestores(s: Session, user: UserInfo, quiz: seq<Question>, p: Snapshot, now: int)
    ensures
      var r := Load(s, Some(user), Responses(quiz, ProgressRoute.Ok(ProgressRoute.Row(p))), now);
      && r.session.index == s.index
      && r.session.questions == (if HasQuestions(p) then p.questions.value else quiz)
      && (p.answers.Some? ==> r.session.answers == p.answers.value)
      && (p.visited.Some? ==> r.session.visited == p.visited.value)
      && (p.marked.Some? ==> r.session.marked == p.marked.value)
      && (p.answers.None? ==> r.session.answers == s.answers)
      && (HasQuestions(p) <==> (forall e :: e in r.effects ==> !e.SaveProgress?))
      && (!HasQuestions(p) ==> r.effects[0] == SaveProgress(MigrationSnapshot(user.email, quiz, p, now)))
  {
    var r := Load(s, Some(user), Responses(quiz, ProgressRoute.Ok(ProgressRoute.Row(p))), now);
    if HasQuestions(p) {
      forall e | e in r.effects
        ensures !e.SaveProgress?
      {
      }
    } else {
      assert r.effects[0] in r.effects;
    }
  }

  /** With time left on resume, the clock shows exactly the remaining seconds and
      the session becomes interactive. */
  lemma {:induction false} ResumeWithTimeLeft(s: Session, user: UserInfo, quiz: seq<Question>, p: Snapshot, now: int)
    requires HasStartTime(p) && Remaining(p.startTime.value, now) > 0
    ensures
      var r := Load(s, Some(user), Responses(quiz, ProgressRoute.Ok(ProgressRoute.Row(p))), now);
      && r.session.initialTime == Remaining(p.startTime.value, now)
      && r.session.startTime == p.startTime.value
      && !r.session.loading
      && (forall e :: e in r.effects ==> !e.PostSubmit?)
  {
  }

  /** An expired resume on mount sends no submission: the `submit` it calls belongs to
      the first render, which has no user yet. The session stays loading (spinner)
      with the latch open and the recovered answers in place. */
  lemma {:induction false} ExpiredResumeOnMountSubmitsNothing(
    mount: int, user: UserInfo, quiz: seq<Question>, p: Snapshot, now: int)
    requires HasStartTime(p) && Remaining(p.startTime.value, now) <= 0
    ensures
      var r := Load(Initial(mount), Some(user), Responses(quiz, ProgressRoute.Ok(ProgressRoute.Row(p))), now);
      && r.session.loading
      && !r.session.submitted
      && (forall e :: e in r.effects ==> !e.PostSubmit?)
      && (p.answers.Some? ==> r.session.answers == p.answers.value)
      && r.session.userInfo == Some(user)
  {
    var s := Initial(mount);
    assert Submit(s).request.None?;
  }

  /** After an expired resume on mount, the only submission that can still happen is
      the unmount hook's, which carries the recovered answers. */
  lemma {:induction false} ExpiredResumeSubmitsOnUnmount(
    mount: int, user: UserInfo, quiz: seq<Question>, p: Snapshot, now: int, cookie: UserInfo)
    requires HasStartTime(p) && Remaining(p.startTime.value, now) <= 0
    ensures
      var r := Load(Initial(mount), Some(user), Responses(quiz, ProgressRoute.Ok(ProgressRoute.Row(p))), now);
      && (|r.session.questions| > 0 ==> Unmount(r.session, Some(cookie)) == Some(SubmitBodyOf(cookie.email, r.session)))
      && (p.answers.Some? ==> r.session.answers == p.answers.value)
  {
    var s := Initial(mount);
    assert Submit(s).request.None?;
  }

  /** Load failures become a visible error and stop the spinner; the questions are
      untouched. */
  lemma LoadFailureShowsError(s: Session, user: UserInfo, f: LoadFailure, now: int)
    ensures
      var r := Load(s, Some(user), Failed(f), now);
      && !r.session.loading
      && r.session.error == Some(ErrorMessage(f))
      && r.session.questions == s.questions
      && r.effects == []
  {
  }
}
