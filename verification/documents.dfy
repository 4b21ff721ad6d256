/** The records the application keeps in its three collections (users, progress,
    submissions) and sends over the wire, and the object ids that name them. */
module Documents {
  import opened Common
  import Hex

  /** A MongoDB object id in its canonical text form. Its first 8 hex digits are the
      creation time in seconds since the epoch. */
  type ObjectId = s: string | Hex.IsObjectIdHex(s) witness "000000000000000000000000"

  /** `new ObjectId(s)`: accepts 24 hex digits in either case and otherwise throws
      (here: `None`). The case of the digits does not matter: the id denotes the
      same 96-bit number as the text. */
  function ParseObjectId(s: string): (r: Option<ObjectId>)
    ensures r.Some? <==> |s| == 24 && Hex.AllHex(s)
    ensures r.Some? ==> forall i :: 0 <= i < 24 ==> r.value[i] == Hex.ToLowerDigit(s[i])
    ensures r.Some? ==> Hex.AllHex(r.value) && Hex.ParseHex(r.value) == Hex.ParseHex(s)
    ensures Hex.IsObjectIdHex(s) ==> r.Some? && r.value == s
  {
    if |s| == 24 && Hex.AllHex(s) then
      var t: ObjectId := Hex.LowerAll(s);
      assert Hex.IsObjectIdHex(s) ==> t == s;
      Hex.ParseLowerAll(s);
      Some(t)
    else None
  }

  /** The creation time, in seconds, encoded in an object id: eight hex digits, so it
      always fits in 32 bits. */
  function IdSeconds(id: ObjectId): (seconds: nat)
    ensures seconds < Hex.Pow16(8)
  {
    assert Hex.AllHex(id[..8]);
    Hex.ParseBound(id[..8]);
    Hex.ParseHex(id[..8])
  }

  /** An id as the database mints it: the creation second in 8 hex digits, then 16
      digits of machine, process and counter data. */
  function MintObjectId(seconds: nat, tail: string): (id: ObjectId)
    requires seconds < Hex.Pow16(8)
    requires |tail| == 16 && forall i :: 0 <= i < 16 ==> Hex.IsLowerHexDigit(tail[i])
    ensures IdSeconds(id) == seconds
  {
    var id := Hex.Encode(seconds, 8) + tail;
    assert id[..8] == Hex.Encode(seconds, 8);
    Hex.ParseEncode(seconds, 8);
    id
  }

  /** A progress row, and equally the body of a progress POST: every field but the
      email may be absent. */
  datatype Snapshot = Snapshot(
    email: JsVal,
    questions: Option<seq<Question>>,
    answers: Option<seq<Answer>>,
    index: Option<int>,
    visited: Option<set<int>>,
    marked: Option<set<int>>,
    startTime: Option<int>,
    updatedAt: Option<int>)

  /** A snapshot that carries nothing but its email. */
  function BlankSnapshot(email: JsVal): (r: Snapshot) {
    Snapshot(email, None, None, None, None, None, None, None)
  }

  /** The body of a submit POST: `email`, `questions`, `answers`, and any further
      fields by name. */
  datatype SubmitBody = SubmitBody(
    email: JsVal,
    questions: seq<Question>,
    answers: seq<Answer>,
    extra: map<string, string>)

  /** A stored submission. `questions`, `score` and the timestamps are optional because
      the history and result views also read records of older shapes. */
  datatype Submission = Submission(
    id: ObjectId,
    email: JsVal,
    questions: Option<seq<Question>>,
    answers: seq<Answer>,
    score: Option<int>,
    submittedAt: Option<int>,
    createdAt: Option<int>,
    extra: map<string, string>)

  /** A registered user; `password` holds the hash, never the plain text. */
  datatype User = User(
    id: ObjectId,
    username: string,
    email: string,
    password: string,
    createdAt: int)
}
