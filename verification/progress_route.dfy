/** The progress route: one resumable snapshot per email, written with an upsert whose
    `$set` merges the posted fields into the stored row, read back as the row or an
    explicit empty marker, and deleted idempotently. */
module ProgressRoute {
  import opened Common
  import opened Documents

  /** The `progress` collection, keyed by email. */
  type ProgressStore = map<string, Snapshot>

  /** A reply: 400 with an error text, or 200 with a body. */
  datatype Reply<T> = BadRequest(error: string) | Ok(body: T)

  /** The 200 body of a GET: the stored row, or `{empty: true}`. */
  datatype Loaded = Row(snapshot: Snapshot) | EmptyMarker

  /** The 200 body of a POST or DELETE: `{success: true}`. */
  datatype Done = Success

  datatype Outcome = Outcome(store: ProgressStore, reply: Reply<Done>)

  /** Every row is stored under its own email, so no email has two rows. */
  predicate KeyedByEmail(store: ProgressStore) {
    forall k :: k in store ==> store[k].email == Str(k)
  }

  function Pick<T>(posted: Option<T>, stored: Option<T>): (r: Option<T>) {
    if posted.Some? then posted else stored
  }

  /** The row after `$set: {...payload, updatedAt: now}` is applied to `stored`: each
      field the payload carries replaces the stored one, each field it lacks keeps
      the stored value, and `updatedAt` is the current time. */
  function Merge(stored: Snapshot, payload: Snapshot, now: int): (r: Snapshot)
    ensures r.email == payload.email && r.updatedAt == Some(now)
    ensures payload.questions.Some? ==> r.questions == payload.questions
    ensures payload.questions.None? ==> r.questions == stored.questions
    ensures payload.answers.Some? ==> r.answers == payload.answers
    ensures payload.answers.None? ==> r.answers == stored.answers
    ensures payload.index.Some? ==> r.index == payload.index
    ensures payload.index.None? ==> r.index == stored.index
    ensures payload.visited.Some? ==> r.visited == payload.visited
    ensures payload.visited.None? ==> r.visited == stored.visited
    ensures payload.marked.Some? ==> r.marked == payload.marked
    ensures payload.marked.None? ==> r.marked == stored.marked
    ensures payload.startTime.Some? ==> r.startTime == payload.startTime
    ensures payload.startTime.None? ==> r.startTime == stored.startTime
  {
    Snapshot(
      payload.email,
      Pick(payload.questions, stored.questions),
      Pick(payload.answers, stored.answers),
      Pick(payload.index, stored.index),
      Pick(payload.visited, stored.visited),
      Pick(payload.marked, stored.marked),
      Pick(payload.startTime, stored.startTime),
      Some(now))
  }

  /** POST /api/progress. Without an email it is a 400 that leaves the store alone;
      otherwise the row for that email is created or updated: fields present in the
      payload replace the stored ones, fields absent from it keep their stored value,
      `updatedAt` becomes `now`, and no other row changes. */
  function Post(store: ProgressStore, payload: Snapshot, now: int): (r: Outcome)
    ensures !Truthy(payload.email) ==> r == Outcome(store, BadRequest("Email required"))
    ensures Truthy(payload.email) ==>
      var k := payload.email.s;
      && r.reply == Ok(Success)
      && r.store.Keys == store.Keys + {k}
      && (forall e :: e in store && e != k ==> r.store[e] == store[e])
      && r.store[k].email == payload.email
      && r.store[k].updatedAt == Some(now)
      && (payload.questions.Some? ==> r.store[k].questions == payload.questions)
      && (payload.answers.Some? ==> r.store[k].answers == payload.answers)
      && (payload.index.Some? ==> r.store[k].index == payload.index)
      && (payload.visited.Some? ==> r.store[k].visited == payload.visited)
      && (payload.marked.Some? ==> r.store[k].marked == payload.marked)
      && (payload.startTime.Some? ==> r.store[k].startTime == payload.startTime)
      && (k in store && payload.questions.None? ==> r.store[k].questions == store[k].questions)
      && (k in store && payload.answers.None? ==> r.store[k].answers == store[k].answers)
      && (k in store && payload.index.None? ==> r.store[k].index == store[k].index)
      && (k in store && payload.visited.None? ==> r.store[k].visited == store[k].visited)
      && (k in store && payload.marked.None? ==> r.store[k].marked == store[k].marked)
      && (k in store && payload.startTime.None? ==> r.store[k].startTime == store[k].startTime)
    ensures KeyedByEmail(store) ==> KeyedByEmail(r.store)
  {
    if !Truthy(payload.email) then
      Outcome(store, BadRequest("Email required"))
    else
      var k := payload.email.s;
      var stored := if k in store then store[k] else BlankSnapshot(payload.email);
      Outcome(store[k := Merge(stored, payload, now)], Ok(Success))
  }

  /** GET /api/progress?email=. A 400 without an email; otherwise the row stored for
      the email, or the empty marker exactly when there is none. */
  function Get(store: ProgressStore, email: Option<string>): (r: Reply<Loaded>)
    ensures !Given(email) <==> r == BadRequest("Email required")
    ensures Given(email) && email.value in store ==> r == Ok(Row(store[email.value]))
    ensures r == Ok(EmptyMarker) <==> Given(email) && email.value !in store
  {
    if !Given(email) then BadRequest("Email required")
    else if email.value in store then Ok(Row(store[email.value]))
    else Ok(EmptyMarker)
  }

  /** DELETE /api/progress?email=. A 400 without an email; otherwise the row for the
      email is gone afterwards, whether or not it existed, and every other row stays. */
  function Delete(store: ProgressStore, email: Option<string>): (r: Outcome)
    ensures !Given(email) ==> r == Outcome(store, BadRequest("Email required"))
    ensures Given(email) ==>
      && r.reply == Ok(Success)
      && r.store.Keys == store.Keys - {email.value}
      && (forall e :: e in r.store ==> r.store[e] == store[e])
  {
    if !Given(email) then Outcome(store, BadRequest("Email required"))
    else Outcome(store - {email.value}, Ok(Success))
  }

  /** Saving and then loading under the same email returns every saved field. */
  lemma SaveThenLoad(store: ProgressStore, payload: Snapshot, now: int)
    requires Truthy(payload.email)
    ensures
      var r := Get(Post(store, payload, now).store, Some(payload.email.s));
      && r.Ok? && r.body.Row?
      && r.body.snapshot.email == payload.email
      && (payload.questions.Some? ==> r.body.snapshot.questions == payload.questions)
      && (payload.answers.Some? ==> r.body.snapshot.answers == payload.answers)
      && (payload.index.Some? ==> r.body.snapshot.index == payload.index)
      && (payload.visited.Some? ==> r.body.snapshot.visited == payload.visited)
      && (payload.marked.Some? ==> r.body.snapshot.marked == payload.marked)
      && (payload.startTime.Some? ==> r.body.snapshot.startTime == payload.startTime)
  {
  }

  /** Posting the same payload twice at the same instant leaves the same store as
      posting it once. */
  lemma PostIdempotent(store: ProgressStore, payload: Snapshot, now: int)
    ensures
      var once := Post(store, payload, now);
      Post(once.store, payload, now) == once
  {
    if Truthy(payload.email) {
      var k := payload.email.s;
      var once := Post(store, payload, now).store;
      assert once[k := Merge(once[k], payload, now)] == once;
    }
  }

  /** Deleting twice is the same as deleting once, and a load after a delete sees the
      empty marker. */
  lemma DeleteIdempotent(store: ProgressStore, email: Option<string>)
    requires Given(email)
    ensures Delete(Delete(store, email).store, email) == Delete(store, email)
    ensures Get(Delete(store, email).store, email) == Ok(EmptyMarker)
  {
  }
}
