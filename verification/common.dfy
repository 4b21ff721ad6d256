/** Values and constants shared by every part of the quiz model.

    The application is written in TypeScript and exchanges JSON; this module fixes
    how the few JavaScript value distinctions the code depends on (absent versus
    `null` versus a string, and truthiness) are represented. */
module Common {

  /** An optional value; `None` is a JSON field that is absent. */
  datatype Option<T> = None | Some(value: T) {

    /** The value, or `default` when absent. */
    function GetOr(default: T): (r: T) {
      match this
      case Some(v) => v
      case None => default
    }
  }

  /** A JavaScript value as the quiz code sees it: `undefined`, `null` or a string. */
  datatype JsVal = Undefined | Null | Str(s: string)

  /** JavaScript truthiness on these values: only a non-empty string is truthy. */
  predicate Truthy(v: JsVal) {
    v.Str? && v.s != ""
  }

  /** JavaScript `a || b`. */
  function Or(a: JsVal, b: JsVal): (r: JsVal) {
    if Truthy(a) then a else b
  }

  /** A query parameter read with `searchParams.get` passes a `!p` check when it is
      present and non-empty. */
  predicate Given(p: Option<string>) {
    p.Some? && p.value != ""
  }

  /** A collection's `findOne({field: k})`: the first element whose `key` is `k`. */
  function FindBy<T, K(==)>(xs: seq<T>, key: T -> K, k: K): (r: Option<T>)
    ensures r.None? <==> forall i :: 0 <= i < |xs| ==> key(xs[i]) != k
    ensures r.Some? ==> r.value in xs && key(r.value) == k
  {
    if |xs| == 0 then None
    else if key(xs[0]) == k then Some(xs[0])
    else FindBy(xs[1..], key, k)
  }

  /** Number of questions in one quiz, and the answer slots a new session starts with. */
  const QuestionCount: nat := 15

  /** The quiz lasts 30 minutes. */
  const QuizSeconds: int := 1800

  /** One answer slot; `None` is JavaScript `null` (not answered). */
  type Answer = Option<string>

  /** `Array(n).fill(null)`. */
  function Nulls(n: nat): (r: seq<Answer>)
    ensures |r| == n
    ensures forall i :: 0 <= i < n ==> r[i] == None
  {
    seq(n, _ => None)
  }

  /** `answers[i]` read in JavaScript: `undefined` past the end of the array. */
  function AnswerAt(answers: seq<Answer>, i: nat): (r: JsVal) {
    if i < |answers| then
      match answers[i]
      case None => Null
      case Some(a) => Str(a)
    else Undefined
  }

  /** A question as the browser holds it. Questions produced by the quiz route carry
      their key in `correctAnswer`; question sets of the older shape carry it in the
      provider's `correct_answer` field, kept here as `rawCorrectAnswer`. */
  datatype Question = Question(
    text: string,
    options: seq<string>,
    correctAnswer: JsVal,
    rawCorrectAnswer: JsVal,
    category: string,
    difficulty: string)

  /** The display identity held in the client-readable cookie. */
  datatype UserInfo = UserInfo(username: string, email: string)
}
