/** The question palette beside the quiz: the five counters, the status colour of
    each question button with its tick badge, and click-to-navigate. */
module OverviewPanel {
  import opened Common
  import QuizContext

  /** Indices `0 <= i < n`. */
  function Range(n: nat): (r: set<int>)
    ensures forall i :: i in r <==> 0 <= i < n
    ensures |r| == n
  {
    if n == 0 then {} else Range(n - 1) + {n - 1}
  }

  lemma SubsetSize<T>(a: set<T>, b: set<T>)
    requires a <= b
    ensures |a| <= |b|
    ensures |b - a| == |b| - |a|
  {
    assert b == a + (b - a);
  }

  /** `answers.filter(a => a !== null).length`, counted from the front. */
  function AnsweredCount(answers: seq<Answer>): (r: nat) {
    if |answers| == 0 then 0
    else AnsweredCount(answers[..|answers| - 1]) + if answers[|answers| - 1].Some? then 1 else 0
  }

  /** The answered positions. */
  function AnsweredSet(answers: seq<Answer>): (r: set<int>) {
    set i | 0 <= i < |answers| && answers[i].Some?
  }

  /** `answers.filter((a, i) => a !== null && marked.has(i)).length`. */
  function MarkedAnsweredCount(answers: seq<Answer>, marked: set<int>): (r: nat) {
    if |answers| == 0 then 0
    else
      var n := |answers| - 1;
      MarkedAnsweredCount(answers[..n], marked) + if answers[n].Some? && n in marked then 1 else 0
  }

  /** The answered positions that are also marked. */
  function MarkedAnsweredSet(answers: seq<Answer>, marked: set<int>): (r: set<int>) {
    set i | 0 <= i < |answers| && answers[i].Some? && i in marked
  }

  lemma {:induction false} AnsweredCountIsSize(answers: seq<Answer>)
    ensures AnsweredCount(answers) == |AnsweredSet(answers)|
  {
    if |answers| > 0 {
      var n := |answers| - 1;
      var p := answers[..n];
      AnsweredCountIsSize(p);
      if answers[n].Some? {
        assert AnsweredSet(answers) == AnsweredSet(p) + {n};
      } else {
        assert AnsweredSet(answers) == AnsweredSet(p);
      }
    }
  }

  lemma {:induction false} MarkedAnsweredCountIsSize(answers: seq<Answer>, marked: set<int>)
    ensures MarkedAnsweredCount(answers, marked) == |MarkedAnsweredSet(answers, marked)|
  {
    if |answers| > 0 {
      var n := |answers| - 1;
      var p := answers[..n];
      MarkedAnsweredCountIsSize(p, marked);
      if answers[n].Some? && n in marked {
        assert MarkedAnsweredSet(answers, marked) == MarkedAnsweredSet(p, marked) + {n};
      } else {
        assert MarkedAnsweredSet(answers, marked) == MarkedAnsweredSet(p, marked);
      }
    }
  }

  datatype Stats = Stats(
    answered: nat,
    notAnswered: int,
    notVisited: int,
    markedCount: nat,
    markedAndAnswered: nat)

  /** The five counters. `answered` counts the non-null answers; `notAnswered` is the
      visited count minus that; `notVisited` is 15 minus the visited count; the marked
      and answered ones are never more than either the answered or the marked ones. */
  function ComputeStats(answers: seq<Answer>, visited: set<int>, marked: set<int>): (r: Stats)
    ensures r.answered == |AnsweredSet(answers)| && r.answered <= |answers|
    ensures r.notAnswered == |visited| - r.answered
    ensures r.notVisited == QuestionCount - |visited|
    ensures r.markedCount == |marked|
    ensures r.markedAndAnswered == |MarkedAnsweredSet(answers, marked)|
    ensures r.markedAndAnswered <= r.answered
    ensures r.markedAndAnswered <= r.markedCount
  {
    AnsweredCountIsSize(answers);
    MarkedAnsweredCountIsSize(answers, marked);
    SubsetSize(MarkedAnsweredSet(answers, marked), AnsweredSet(answers));
    SubsetSize(MarkedAnsweredSet(answers, marked), marked);
    SubsetSize(AnsweredSet(answers), Range(|answers|));
    var answered := AnsweredCount(answers);
    Stats(
      answered,
      |visited| - answered,
      QuestionCount - |visited|,
      |marked|,
      MarkedAnsweredCount(answers, marked))
  }

  function StatsOf(s: QuizContext.Session): (r: Stats) {
    ComputeStats(s.answers, s.visited, s.marked)
  }

  /** In a consistent, bounded session no counter is negative. */
  lemma StatsNonNegative(s: QuizContext.Session)
    requires QuizContext.Consistent(s) && QuizContext.Bounded(s)
    ensures StatsOf(s).notAnswered >= 0 && StatsOf(s).notVisited >= 0
  {
    SubsetSize(AnsweredSet(s.answers), s.visited);
    SubsetSize(s.visited, Range(QuestionCount));
  }

  /** The colour of a palette button. */
  datatype Tile = NotVisited | Answered | MarkedForReview | NotAnswered

  /** The status of question `i`, by priority: not visited, then answered, then marked,
      then not answered. */
  function TileOf(answers: seq<Answer>, visited: set<int>, marked: set<int>, i: nat): (t: Tile)
    requires i < |answers|
    ensures t == NotVisited <==> i !in visited
    ensures t == Answered <==> i in visited && answers[i].Some?
    ensures t == MarkedForReview <==> i in visited && answers[i].None? && i in marked
    ensures t == NotAnswered <==> i in visited && answers[i].None? && i !in marked
  {
    if i !in visited then NotVisited
    else if answers[i].Some? then Answered
    else if i in marked then MarkedForReview
    else NotAnswered
  }

  /** One palette button: its status, whether it is the current question, and whether
      it carries the tick badge. */
  datatype Cell = Cell(tile: Tile, current: bool, tick: bool)

  function CellOf(s: QuizContext.Session, i: nat): (c: Cell)
    requires i < |s.answers|
    ensures c.tile == TileOf(s.answers, s.visited, s.marked, i)
    ensures c.current <==> i == s.index
    ensures c.tick <==> i in s.marked && s.answers[i].Some?
  {
    Cell(TileOf(s.answers, s.visited, s.marked, i), i == s.index, i in s.marked && s.answers[i].Some?)
  }

  /** The palette positions showing a given status. */
  function TileSet(answers: seq<Answer>, visited: set<int>, marked: set<int>, t: Tile): (r: set<int>) {
    set i: nat | i < |answers| && TileOf(answers, visited, marked, i) == t
  }

  lemma GreenIsAnswered(answers: seq<Answer>, visited: set<int>, marked: set<int>)
    requires AnsweredSet(answers) <= visited
    ensures TileSet(answers, visited, marked, Answered) == AnsweredSet(answers)
  {
  }

  lemma GreyIsUnvisited(answers: seq<Answer>, visited: set<int>, marked: set<int>)
    requires |answers| == QuestionCount && visited <= Range(QuestionCount)
    ensures TileSet(answers, visited, marked, NotVisited) == Range(QuestionCount) - visited
  {
  }

  lemma PurpleAndRedAreVisitedUnanswered(answers: seq<Answer>, visited: set<int>, marked: set<int>)
    requires |answers| == QuestionCount && visited <= Range(QuestionCount)
    ensures
      var purple := TileSet(answers, visited, marked, MarkedForReview);
      var red := TileSet(answers, visited, marked, NotAnswered);
      && purple + red == visited - AnsweredSet(answers)
      && purple !! red
  {
  }

  lemma DisjointUnionSize<T>(a: set<T>, b: set<T>)
    requires a !! b
    ensures |a + b| == |a| + |b|
  {
  }

  /** In a consistent, bounded session the palette agrees with the counters: the green
      buttons are the answered questions, the grey ones the not-visited count, and the
      purple and red ones together the not-answered count. */
  lemma PaletteMatchesStats(s: QuizContext.Session)
    requires QuizContext.Consistent(s) && QuizContext.Bounded(s)
    ensures |TileSet(s.answers, s.visited, s.marked, Answered)| == StatsOf(s).answered
    ensures |TileSet(s.answers, s.visited, s.marked, NotVisited)| == StatsOf(s).notVisited
    ensures |TileSet(s.answers, s.visited, s.marked, MarkedForReview)|
          + |TileSet(s.answers, s.visited, s.marked, NotAnswered)| == StatsOf(s).notAnswered
  {
    var a, v, m := s.answers, s.visited, s.marked;
    assert AnsweredSet(a) <= v;
    assert v <= Range(QuestionCount);
    GreenIsAnswered(a, v, m);
    GreyIsUnvisited(a, v, m);
    SubsetSize(v, Range(QuestionCount));
    PurpleAndRedAreVisitedUnanswered(a, v, m);
    DisjointUnionSize(TileSet(a, v, m, MarkedForReview), TileSet(a, v, m, NotAnswered));
    SubsetSize(AnsweredSet(a), v);
  }

  /** Clicking question `i` (the palette only has buttons for answer slots) moves the
      cursor there, marks it visited and closes the sidebar; answers and marks stay. */
  function Click(s: QuizContext.Session, i: nat): (r: QuizContext.Session)
    requires i < |s.answers|
    ensures r.index == i && r.visited == s.visited + {i} && !r.sidebarOpen
    ensures r.answers == s.answers && r.marked == s.marked && r.questions == s.questions
    ensures r.submitted == s.submitted
  {
    QuizContext.MoveTo(s, i).(sidebarOpen := false)
  }
}
