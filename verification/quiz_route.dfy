/** The question-set route: a process-wide cache with a 30-second freshness window in
    front of the trivia provider, the stale cache when the provider fails, and five
    built-in questions when there is nothing cached. */
module QuizRoute {
  import opened Common

  /** How long a cached question set is served without asking the provider, in ms. */
  const CacheMillis: int := 30 * 1000

  /** One provider record: the question, its correct answer and the wrong ones. */
  datatype RawQuestion = RawQuestion(
    question: string,
    correct: string,
    incorrect: seq<string>,
    category: string,
    difficulty: string)

  /** The cache entry: the last question set the provider gave (`null` at start) and
      when it was fetched. */
  datatype Cache = Cache(data: Option<seq<Question>>, time: int)

  /** The entry created on the first request. */
  const EmptyCache := Cache(None, 0)

  /** What one provider call gives: a network failure, or a body with a response code
      (0 when absent) and a result list (absent on some error bodies). */
  datatype ProviderOutcome =
    | NetworkError
    | ProviderReply(responseCode: int, results: Option<seq<RawQuestion>>)

  /** The provider call succeeds when the body has code 0 and a result list; any
      other code is thrown as an error, and `results.map` on a missing list throws. */
  predicate Succeeded(o: ProviderOutcome) {
    o.ProviderReply? && o.responseCode == 0 && o.results.Some?
  }

  /** The position the next draw selects among `n` remaining elements. */
  function Pick(draws: seq<nat>, n: nat): (k: nat)
    requires n > 0
    ensures k < n
    ensures |draws| > 0 && draws[0] < n ==> k == draws[0]
    ensures |draws| == 0 ==> k == 0
  {
    (if |draws| > 0 then draws[0] else 0) % n
  }

  /** The draws `shuffle` consumes: a permutation that, at each step, moves the element
      the next draw selects (modulo what is left; 0 once the draws run out) to the
      output. Every arrangement is some sequence of draws. */
  function Shuffle<T>(xs: seq<T>, draws: seq<nat>): (r: seq<T>)
    ensures |r| == |xs|
    ensures multiset(r) == multiset(xs)
    decreases |xs|
  {
    if |xs| == 0 then []
    else
      var k := Pick(draws, |xs|);
      assert xs == xs[..k] + [xs[k]] + xs[k + 1..];
      [xs[k]] + Shuffle(xs[..k] + xs[k + 1..], if |draws| > 0 then draws[1..] else [])
  }

  /** `n` draws of 1. */
  function Ones(n: nat): (r: seq<nat>)
    ensures |r| == n && forall i :: 0 <= i < n ==> r[i] == 1
  {
    if n == 0 then [] else [1] + Ones(n - 1)
  }

  /** One step of the shuffle: draw 1 on at least two elements outputs the second
      element and shuffles the rest, the first element still at its head. */
  lemma ShuffleDrawOne<T>(xs: seq<T>, draws: seq<nat>)
    requires |xs| >= 2 && |draws| > 0 && draws[0] == 1
    ensures Shuffle(xs, draws) == [xs[1]] + Shuffle([xs[0]] + xs[2..], draws[1..])
  {
    assert xs[..1] + xs[2..] == [xs[0]] + xs[2..];
  }

  lemma ShuffleDrawZero<T>(xs: seq<T>)
    requires |xs| >= 1
    ensures Shuffle(xs, [0])[0] == xs[0]
  {
  }

  /** The shuffle has no fixed position for the first element: for every position
      there are draws that put it there. */
  lemma {:induction false} FirstCanLandAnywhere<T>(xs: seq<T>, p: nat)
    requires p < |xs|
    ensures Shuffle(xs, Ones(p) + [0])[p] == xs[0]
    decreases p
  {
    if p == 0 {
      assert Ones(0) + [0] == [0];
      ShuffleDrawZero(xs);
    } else {
      var draws := Ones(p) + [0];
      assert draws[1..] == Ones(p - 1) + [0];
      ShuffleDrawOne(xs, draws);
      FirstCanLandAnywhere([xs[0]] + xs[2..], p - 1);
    }
  }

  /** The draws used for question `i`: each question shuffles with its own draws. */
  function DrawsFor(draws: seq<seq<nat>>, i: nat): (r: seq<nat>) {
    if i < |draws| then draws[i] else []
  }

  /** One provider record as the client sees it: the options are the correct answer
      and the wrong ones, shuffled; the key is `correctAnswer`, and there is no
      `correct_answer` field. */
  function Normalise(q: RawQuestion, draws: seq<nat>): (r: Question)
    ensures r.text == q.question && r.category == q.category && r.difficulty == q.difficulty
    ensures r.correctAnswer == Str(q.correct) && r.rawCorrectAnswer == Undefined
    ensures multiset(r.options) == multiset([q.correct] + q.incorrect)
    ensures q.correct in r.options && |r.options| == 1 + |q.incorrect|
  {
    var options := Shuffle([q.correct] + q.incorrect, draws);
    assert q.correct in multiset([q.correct] + q.incorrect);
    Question(q.question, options, Str(q.correct), Undefined, q.category, q.difficulty)
  }

  function NormaliseAll(raw: seq<RawQuestion>, draws: seq<seq<nat>>): (r: seq<Question>)
    ensures |r| == |raw|
    ensures forall i :: 0 <= i < |raw| ==> r[i] == Normalise(raw[i], DrawsFor(draws, i))
  {
    seq(|raw|, i requires 0 <= i < |raw| => Normalise(raw[i], DrawsFor(draws, i)))
  }

  /** The five built-in questions. */
  const Fallback: seq<RawQuestion> := [
    RawQuestion("What is the capital of France?", "Paris",
      ["London", "Berlin", "Madrid"], "Geography", "easy"),
    RawQuestion("Which language runs in a web browser?", "JavaScript",
      ["Java", "C", "Python"], "Computer Science", "easy"),
    RawQuestion("What does CSS stand for?", "Cascading Style Sheets",
      ["Central Style Sheets", "Cascading Simple Sheets", "Cars SUVs Sailboats"], "Computer Science", "medium"),
    RawQuestion("What does HTML stand for?", "Hypertext Markup Language",
      ["Hypertext Markdown Language", "Hyperloop Machine Language", "Helicopters Terminals Motorboats Lamborginis"],
      "Computer Science", "easy"),
    RawQuestion("What year was JavaScript launched?", "1995",
      ["1996", "1994", "None of the above"], "Computer Science", "hard")
  ]

  /** Where a served question set came from. */
  datatype Source = FreshCache | Provider | StaleCache | BuiltIn

  datatype Served = Served(questions: seq<Question>, source: Source, cache: Cache)

  /** GET /api/quiz at time `now`, with `outcome` what the provider would answer if
      called and `draws` the shuffle's randomness. A cached set younger than the window
      is served as is and the provider is not asked; otherwise a good reply is
      normalised, cached with the current time, and served; a failed call serves the
      cached set, however old, and only with nothing cached the built-in questions,
      freshly shuffled and never cached. */
  function Get(cache: Cache, now: int, outcome: ProviderOutcome, draws: seq<seq<nat>>): (r: Served)
    ensures r.source == FreshCache <==> cache.data.Some? && now - cache.time < CacheMillis
    ensures r.source == Provider <==> !(cache.data.Some? && now - cache.time < CacheMillis) && Succeeded(outcome)
    ensures r.source == StaleCache <==>
      !(cache.data.Some? && now - cache.time < CacheMillis) && !Succeeded(outcome) && cache.data.Some?
    ensures r.source == BuiltIn <==> cache.data.None? && !Succeeded(outcome)
    ensures r.source in {FreshCache, StaleCache} ==> r.questions == cache.data.value && r.cache == cache
    ensures r.source == Provider ==>
      r.questions == NormaliseAll(outcome.results.value, draws) && r.cache == Cache(Some(r.questions), now)
    ensures r.source == BuiltIn ==> r.questions == NormaliseAll(Fallback, draws) && r.cache == cache
  {
    if cache.data.Some? && now - cache.time < CacheMillis then
      Served(cache.data.value, FreshCache, cache)
    else if Succeeded(outcome) then
      var questions := NormaliseAll(outcome.results.value, draws);
      Served(questions, Provider, Cache(Some(questions), now))
    else if cache.data.Some? then
      Served(cache.data.value, StaleCache, cache)
    else
      Served(NormaliseAll(Fallback, draws), BuiltIn, cache)
  }

  /** Within the window after a good provider reply, every request gets that same set,
      whatever the provider would say and however the shuffle would draw. */
  lemma CachedWithinWindow(cache: Cache, t: int, outcome: ProviderOutcome, draws: seq<seq<nat>>,
                           later: int, outcome': ProviderOutcome, draws': seq<seq<nat>>)
    requires !(cache.data.Some? && t - cache.time < CacheMillis) && Succeeded(outcome)
    requires t <= later < t + CacheMillis
    ensures
      var first := Get(cache, t, outcome, draws);
      var second := Get(first.cache, later, outcome', draws');
      second.source == FreshCache && second.questions == first.questions && second.cache == first.cache
  {
  }

  /** Once anything has been cached, the route never falls back to the built-in set. */
  lemma NoFallbackOnceCached(cache: Cache, now: int, outcome: ProviderOutcome, draws: seq<seq<nat>>)
    requires cache.data.Some?
    ensures Get(cache, now, outcome, draws).source != BuiltIn
    ensures Get(cache, now, outcome, draws).cache.data.Some?
  {
  }

  /** The built-in set has five questions, each with four options containing its key,
      and serving it leaves the cache empty, so the next request asks the provider. */
  lemma FallbackShape(now: int, draws: seq<seq<nat>>, now': int, outcome': ProviderOutcome, draws': seq<seq<nat>>)
    ensures
      var r := Get(EmptyCache, now, NetworkError, draws);
      && r.source == BuiltIn
      && |r.questions| == 5
      && (forall i :: 0 <= i < 5 ==>
            |r.questions[i].options| == 4 && r.questions[i].correctAnswer.Str?
            && r.questions[i].correctAnswer.s in r.questions[i].options)
      && Get(r.cache, now', outcome', draws').source != FreshCache
  {
  }
}
