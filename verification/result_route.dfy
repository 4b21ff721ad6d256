/** The result route: one stored submission by its id. */
module ResultRoute {
  import opened Common
  import opened Documents

  /** The four answers of GET /api/result?id=. */
  datatype Reply =
    | MissingId
    | InvalidId
    | NotFound
    | Found(submission: Submission)

  /** The HTTP status and, for the failures, the error text. */
  function Status(r: Reply): (code: int)
    ensures code == 200 <==> r.Found?
    ensures code == 404 <==> r == NotFound
    ensures code == 400 <==> r == MissingId || r == InvalidId
  {
    match r
    case MissingId => 400
    case InvalidId => 400
    case NotFound => 404
    case Found(_) => 200
  }

  /** The `error` field of a failure reply; each failure has its own text. */
  function ErrorText(r: Reply): (text: string)
    requires !r.Found?
    ensures text == "Missing ID" <==> r == MissingId
    ensures text == "Invalid ID" <==> r == InvalidId
    ensures text == "Not Found" <==> r == NotFound
  {
    match r
    case MissingId => "Missing ID"
    case InvalidId => "Invalid ID"
    case NotFound => "Not Found"
  }

  /** `findOne({_id})`. */
  function FindById(submissions: seq<Submission>, id: ObjectId): (r: Option<Submission>) {
    FindBy(submissions, (sub: Submission) => sub.id, id)
  }

  /** GET /api/result?id=. No id is a 400 "Missing ID"; text that is not an object id
      makes the constructor throw, which the handler answers with 400 "Invalid ID";
      a well-formed id that names no record is a 404; otherwise the record itself. */
  function Lookup(submissions: seq<Submission>, id: Option<string>): (r: Reply)
    ensures r == MissingId <==> !Given(id)
    ensures r == InvalidId <==> Given(id) && ParseObjectId(id.value).None?
    ensures r == NotFound <==> (Given(id) && ParseObjectId(id.value).Some?
      && forall k :: 0 <= k < |submissions| ==> submissions[k].id != ParseObjectId(id.value).value)
    ensures r.Found? ==> r.submission in submissions && r.submission.id == ParseObjectId(id.value).value
  {
    if !Given(id) then MissingId
    else
      match ParseObjectId(id.value)
      case None => InvalidId
      case Some(oid) =>
        match FindById(submissions, oid)
        case None => NotFound
        case Some(sub) => Found(sub)
  }

  /** When ids are unique, a found record is the only one with that id. */
  lemma FoundIsTheRecord(submissions: seq<Submission>, id: string, sub: Submission)
    requires forall i, j :: 0 <= i < j < |submissions| ==> submissions[i].id != submissions[j].id
    requires sub in submissions && sub.id == id
    ensures Lookup(submissions, Some(id)) == Found(sub)
  {
    assert Hex.IsObjectIdHex(id);
    var r := FindById(submissions, sub.id);
    var k :| 0 <= k < |submissions| && submissions[k] == sub;
    assert r.Some?;
    var k' :| 0 <= k' < |submissions| && submissions[k'] == r.value;
    assert k' == k;
  }
}
