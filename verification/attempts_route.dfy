/** The attempts route: the submission history of one email, sorted by `createdAt`
    descending, each record mapped to an id, a score, a question total and a date. */
module AttemptsRoute {
  import opened Common
  import opened Documents

  datatype HistoryEntry = HistoryEntry(id: ObjectId, score: int, totalQuestions: nat, date: int)

  datatype Reply = BadRequest(error: string) | Ok(count: nat, history: seq<HistoryEntry>)

  /** The submissions whose email is `email`, in collection order. */
  function Filter(submissions: seq<Submission>, email: string): (r: seq<Submission>)
    ensures forall a :: a in r <==> a in submissions && a.email == Str(email)
    ensures multiset(r) <= multiset(submissions)
    ensures |r| <= |submissions|
  {
    if |submissions| == 0 then []
    else
      var n := |submissions| - 1;
      var last := submissions[n];
      assert submissions == submissions[..n] + [last];
      Filter(submissions[..n], email) + (if last.email == Str(email) then [last] else [])
  }

  /** `a` may come before `b` when sorting by `createdAt` descending: a missing
      `createdAt` sorts lowest, so such records come last. */
  predicate NotAfter(a: Submission, b: Submission) {
    b.createdAt.None? || (a.createdAt.Some? && a.createdAt.value >= b.createdAt.value)
  }

  predicate SortedDescending(xs: seq<Submission>) {
    forall i, j :: 0 <= i < j < |xs| ==> NotAfter(xs[i], xs[j])
  }

  /** Inserts `x` after every element that may come before it. */
  function Insert(x: Submission, xs: seq<Submission>): (r: seq<Submission>)
    ensures multiset(r) == multiset(xs) + multiset{x}
    ensures forall k :: 0 <= k < |r| ==> r[k] == x || r[k] in xs
  {
    if |xs| == 0 then [x]
    else if NotAfter(xs[0], x) then
      assert xs == [xs[0]] + xs[1..];
      [xs[0]] + Insert(x, xs[1..])
    else
      [x] + xs
  }

  /** Inserting into a list sorted newest first keeps it sorted. */
  lemma {:induction false} InsertSorted(x: Submission, xs: seq<Submission>)
    requires SortedDescending(xs)
    ensures SortedDescending(Insert(x, xs))
  {
    if |xs| > 0 && NotAfter(xs[0], x) {
      InsertSorted(x, xs[1..]);
      var rest := Insert(x, xs[1..]);
      forall k | 0 <= k < |rest|
        ensures NotAfter(xs[0], rest[k])
      {
        if rest[k] != x {
          var j :| 0 <= j < |xs[1..]| && xs[1..][j] == rest[k];
          assert xs[j + 1] == rest[k];
        }
      }
    }
  }

  /** The collection's `sort({createdAt: -1})`: a reordering of the records, descending
      by `createdAt` (the order among equal keys is the model's choice). */
  function Sort(xs: seq<Submission>): (r: seq<Submission>)
    ensures SortedDescending(r)
    ensures multiset(r) == multiset(xs)
  {
    if |xs| == 0 then []
    else
      var n := |xs| - 1;
      assert xs == xs[..n] + [xs[n]];
      InsertSorted(xs[n], Sort(xs[..n]));
      Insert(xs[n], Sort(xs[..n]))
  }

  /** The date of a history entry: `createdAt` when present and not zero (`||` skips
      a falsy value), otherwise the creation second encoded in the id, in milliseconds. */
  function DateOf(a: Submission): (ms: int)
    ensures a.createdAt.Some? && a.createdAt.value != 0 ==> ms == a.createdAt.value
    ensures a.createdAt.None? || a.createdAt.value == 0 ==> ms == IdSeconds(a.id) * 1000
  {
    match a.createdAt
    case Some(t) => if t != 0 then t else IdSeconds(a.id) * 1000
    case None => IdSeconds(a.id) * 1000
  }

  /** One history entry: the id, the score or 0 when absent, the number of questions
      or 15 when absent or zero, and the date. */
  function Entry(a: Submission): (e: HistoryEntry)
    ensures e.id == a.id
    ensures e.score == (if a.score.Some? then a.score.value else 0)
    ensures e.totalQuestions == (if a.questions.Some? && |a.questions.value| > 0 then |a.questions.value| else QuestionCount)
    ensures e.date == DateOf(a)
  {
    HistoryEntry(
      a.id,
      a.score.GetOr(0),
      if a.questions.Some? && |a.questions.value| > 0 then |a.questions.value| else QuestionCount,
      DateOf(a))
  }

  /** GET /api/attempts?email=. A 400 without an email; otherwise exactly the records
      of that email, newest `createdAt` first, mapped one to one in that order, with
      `count` their number. */
  function List(submissions: seq<Submission>, email: Option<string>): (r: Reply)
    ensures !Given(email) <==> r == BadRequest("Email required")
    ensures Given(email) ==>
      var listed := Sort(Filter(submissions, email.value));
      && r.Ok?
      && r.count == |r.history| == |listed|
      && (forall i :: 0 <= i < |listed| ==> r.history[i] == Entry(listed[i]))
      && (forall a :: a in listed <==> a in submissions && a.email == Str(email.value))
      && SortedDescending(listed)
  {
    if !Given(email) then BadRequest("Email required")
    else
      var listed := Sort(Filter(submissions, email.value));
      assert forall a :: a in listed <==> a in multiset(listed);
      Ok(|listed|, seq(|listed|, i requires 0 <= i < |listed| => Entry(listed[i])))
  }

  /** Every record of the email has its entry in the history. */
  lemma EveryRecordListed(submissions: seq<Submission>, email: string, a: Submission)
    requires email != "" && a in submissions && a.email == Str(email)
    ensures List(submissions, Some(email)).Ok?
    ensures exists i :: (0 <= i < |List(submissions, Some(email)).history|
      && List(submissions, Some(email)).history[i] == Entry(a))
  {
    var filtered := Filter(submissions, email);
    var listed := Sort(filtered);
    assert a in filtered;
    assert a in multiset(filtered);
    assert a in multiset(listed);
    var i :| 0 <= i < |listed| && listed[i] == a;
    assert List(submissions, Some(email)).history[i] == Entry(a);
  }

  /** An email with no records has an empty history. */
  lemma NoRecordsNoHistory(submissions: seq<Submission>, email: string)
    requires email != ""
    requires forall i :: 0 <= i < |submissions| ==> submissions[i].email != Str(email)
    ensures List(submissions, Some(email)) == Ok(0, [])
  {
    var filtered := Filter(submissions, email);
    assert forall a :: a !in filtered;
    assert Sort(filtered) == [];
  }
}
