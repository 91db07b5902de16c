/**
 * The browser's summary of a session's strongest and weakest STAR
 * dimension (`deriveStrengthsAndWeaknesses`): each dimension's scores are
 * summed over all answers, the four sums are sorted by descending score with
 * a stable sort, and the first and last are reported.
 */
module Strengths {
  import StarScoring
  import Sessions

  datatype Dimension = Situation | Task | Action | Result
  {
    /** The dimension's place in the list the browser builds. */
    function Rank(): nat {
      match this
      case Situation => 0
      case Task => 1
      case Action => 2
      case Result => 3
    }

    function Name(): string {
      match this
      case Situation => "Situation"
      case Task => "Task"
      case Action => "Action"
      case Result => "Result"
    }
  }

  /** `{ name, score }`; the name is `dim.Name()`. */
  datatype Component = Component(dim: Dimension, score: int)

  function SubScore(star: StarScoring.StarScore, d: Dimension): int {
    match d
    case Situation => star.situation
    case Task => star.task
    case Action => star.action
    case Result => star.result
  }

  /** A dimension's scores summed over the answers, from the first one on. */
  function DimTotal(perQuestion: seq<Sessions.QuestionSummary>, d: Dimension): int {
    if perQuestion == [] then 0
    else DimTotal(perQuestion[..|perQuestion| - 1], d) + SubScore(perQuestion[|perQuestion| - 1].star, d)
  }

  /** Adding one more answer adds its sub-score. */
  lemma DimTotalStep(perQuestion: seq<Sessions.QuestionSummary>, i: int, d: Dimension)
    requires 0 <= i < |perQuestion|
    ensures DimTotal(perQuestion[..i + 1], d) == DimTotal(perQuestion[..i], d) + SubScore(perQuestion[i].star, d)
  {
    assert perQuestion[..i + 1][..i] == perQuestion[..i];
  }

  /** The `components` list before sorting. */
  function Totals(perQuestion: seq<Sessions.QuestionSummary>): seq<Component> {
    [Component(Situation, DimTotal(perQuestion, Situation)),
     Component(Task, DimTotal(perQuestion, Task)),
     Component(Action, DimTotal(perQuestion, Action)),
     Component(Result, DimTotal(perQuestion, Result))]
  }

  /**
   * The sort key: a higher score first and, as ranks are below 4, among
   * equal scores the one listed first.
   */
  function Key(c: Component): int {
    4 * c.score - c.dim.Rank()
  }

  /** Where a stable sort by descending score puts x before y. */
  predicate Before(x: Component, y: Component) {
    Key(x) > Key(y)
  }

  /** x goes before y exactly when it scores higher, or the same and is listed earlier. */
  lemma BeforeMeans(x: Component, y: Component)
    ensures Before(x, y) <==> x.score > y.score || (x.score == y.score && x.dim.Rank() < y.dim.Rank())
  {
  }

  predicate Sorted(s: seq<Component>) {
    forall i, j :: 0 <= i < j < |s| ==> Before(s[i], s[j])
  }

  /** Listed in dimension order, as the browser builds the list. */
  predicate Increasing(s: seq<Component>) {
    forall i, j :: 0 <= i < j < |s| ==> s[i].dim.Rank() < s[j].dim.Rank()
  }

  /** The first component with the highest score. */
  function StrongestOf(cs: seq<Component>): (r: Component)
    requires |cs| > 0
    ensures r in cs
    ensures forall k :: 0 <= k < |cs| ==> cs[k].score <= r.score
  {
    if |cs| == 1 then cs[0]
    else
      var rest := StrongestOf(cs[1..]);
      assert forall k :: 1 <= k < |cs| ==> cs[k] == cs[1..][k - 1];
      if cs[0].score >= rest.score then cs[0] else rest
  }

  /** The last component with the lowest score. */
  function WeakestOf(cs: seq<Component>): (r: Component)
    requires |cs| > 0
    ensures r in cs
    ensures forall k :: 0 <= k < |cs| ==> r.score <= cs[k].score
  {
    if |cs| == 1 then cs[0]
    else
      var rest := WeakestOf(cs[1..]);
      assert forall k :: 1 <= k < |cs| ==> cs[k] == cs[1..][k - 1];
      if rest.score <= cs[0].score then rest else cs[0]
  }

  /** The strongest precedes every other component: ties go to the one listed first. */
  lemma {:induction false} StrongestPrecedesAll(cs: seq<Component>)
    requires |cs| > 0 && Increasing(cs)
    ensures forall k :: 0 <= k < |cs| ==> cs[k] == StrongestOf(cs) || Before(StrongestOf(cs), cs[k])
  {
    if |cs| > 1 {
      var tail := cs[1..];
      StrongestPrecedesAll(tail);
      forall k | 1 <= k < |cs| ensures cs[k] == tail[k - 1] {}
    }
  }

  /** Every other component precedes the weakest: ties go to the one listed last. */
  lemma {:induction false} WeakestFollowsAll(cs: seq<Component>)
    requires |cs| > 0 && Increasing(cs)
    ensures forall k :: 0 <= k < |cs| ==> cs[k] == WeakestOf(cs) || Before(cs[k], WeakestOf(cs))
  {
    if |cs| > 1 {
      var tail := cs[1..];
      WeakestFollowsAll(tail);
      forall k | 1 <= k < |cs| ensures cs[k] == tail[k - 1] {}
      var r := WeakestOf(tail);
      if r.score <= cs[0].score {
        var k :| 0 <= k < |tail| && tail[k] == r;
        assert cs[k + 1] == r;
      }
    }
  }

  /** Components with the same key are the same: `Before` orders any two different ones. */
  lemma KeyDetermines(x: Component, y: Component)
    requires Key(x) == Key(y)
    ensures x == y
  {
    assert x.score == y.score;
  }

  /** In a sorted list holding the same components as `t`, the ends are `t`'s strongest and weakest. */
  lemma SortedEnds(s: seq<Component>, t: seq<Component>)
    requires Sorted(s) && multiset(s) == multiset(t) && |t| > 0 && Increasing(t)
    ensures |s| == |t| && s[0] == StrongestOf(t) && s[|s| - 1] == WeakestOf(t)
  {
    SortedHead(s, t);
    SortedLast(s, t);
  }

  /** In a sorted list holding the same components as `t`, the first is `t`'s strongest. */
  lemma SortedHead(s: seq<Component>, t: seq<Component>)
    requires Sorted(s) && multiset(s) == multiset(t) && |t| > 0 && Increasing(t)
    ensures |s| == |t| && s[0] == StrongestOf(t)
  {
    assert |s| == |multiset(s)| == |multiset(t)| == |t|;
    var strong := StrongestOf(t);
    StrongestPrecedesAll(t);
    assert s[0] in multiset(t);
    var k :| 0 <= k < |t| && t[k] == s[0];
    assert Key(strong) >= Key(s[0]);
    assert strong in multiset(s);
    var i :| 0 <= i < |s| && s[i] == strong;
    assert Key(s[0]) >= Key(s[i]);
    KeyDetermines(s[0], strong);
  }

  /** In a sorted list holding the same components as `t`, the last is `t`'s weakest. */
  lemma SortedLast(s: seq<Component>, t: seq<Component>)
    requires Sorted(s) && multiset(s) == multiset(t) && |t| > 0 && Increasing(t)
    ensures |s| == |t| && s[|s| - 1] == WeakestOf(t)
  {
    assert |s| == |multiset(s)| == |multiset(t)| == |t|;
    var last, weak := s[|s| - 1], WeakestOf(t);
    WeakestFollowsAll(t);
    assert last in multiset(t);
    var k :| 0 <= k < |t| && t[k] == last;
    assert Key(last) >= Key(weak);
    assert weak in multiset(s);
    var i :| 0 <= i < |s| && s[i] == weak;
    assert Key(s[i]) >= Key(last);
    KeyDetermines(last, weak);
  }

  /**
   * Midway through inserting x: x sits at j, the others in `s[..i + 1]`
   * are in order, x goes before those it has passed, and x was listed
   * after all of them.
   */
  predicate Inserting(s: seq<Component>, j: int, i: int, x: Component) {
    0 <= j <= i < |s| && s[j] == x &&
    (forall p, q :: 0 <= p < q <= i && p != j && q != j ==> Before(s[p], s[q])) &&
    (forall q :: j < q <= i ==> Before(x, s[q])) &&
    (forall p :: 0 <= p <= i && p != j ==> s[p].dim.Rank() < x.dim.Rank())
  }

  /** Swapping x with a lower-scoring left neighbour moves the insertion one place on. */
  lemma SwapLeft(s: seq<Component>, j: int, i: int, x: Component)
    requires Inserting(s, j, i, x) && j > 0 && s[j - 1].score < x.score
    ensures Inserting(s[j - 1 := x][j := s[j - 1]], j - 1, i, x)
  {
    var t := s[j - 1 := x][j := s[j - 1]];
    var y := s[j - 1];
    assert Before(x, y);
    forall p, q | 0 <= p < q <= i && p != j - 1 && q != j - 1 ensures Before(t[p], t[q]) {
      if q == j {
        assert t[q] == y && t[p] == s[p];
      } else if p == j {
        assert t[p] == y && t[q] == s[q] && Before(x, s[q]);
      }
    }
  }

  /** Swapping neighbours keeps the same components. */
  lemma SwapSameMultiset(s: seq<Component>, j: int)
    requires 0 < j < |s|
    ensures multiset(s[j - 1 := s[j]][j := s[j - 1]]) == multiset(s)
  {
    var t := s[j - 1 := s[j]][j := s[j - 1]];
    assert t == s[..j - 1] + [s[j], s[j - 1]] + s[j + 1..];
    assert s == s[..j - 1] + [s[j - 1], s[j]] + s[j + 1..];
  }

  /** Once x meets a neighbour that scores as high, `s[..i + 1]` is in order. */
  lemma InsertionDone(s: seq<Component>, j: int, i: int, x: Component)
    requires Inserting(s, j, i, x) && (j == 0 || s[j - 1].score >= x.score)
    ensures forall p, q :: 0 <= p < q <= i ==> Before(s[p], s[q])
    ensures forall p :: 0 <= p <= i ==> s[p].dim.Rank() <= x.dim.Rank()
  {
    if j > 0 {
      assert Before(s[j - 1], x);
    }
  }

  /**
   * One step of the insertion: moves `a[i]` left past every component with
   * a lower score, so that `a[..i + 1]` is ordered by `Before`.
   */
  method Insert(a: array<Component>, i: int)
    requires 0 <= i < a.Length
    requires forall p, q :: 0 <= p < q < i ==> Before(a[p], a[q])
    requires forall p :: 0 <= p < i ==> a[p].dim.Rank() < a[i].dim.Rank()
    modifies a
    ensures forall p, q :: 0 <= p < q <= i ==> Before(a[p], a[q])
    ensures forall q :: i < q < a.Length ==> a[q] == old(a[q])
    ensures forall p :: 0 <= p <= i ==> a[p].dim.Rank() <= old(a[i]).dim.Rank()
    ensures multiset(a[..]) == multiset(old(a[..]))
  {
    ghost var x := a[i];
    var j := i;
    while j > 0 && a[j - 1].score < a[j].score
      invariant Inserting(a[..], j, i, x)
      invariant forall q :: i < q < a.Length ==> a[q] == old(a[q])
      invariant multiset(a[..]) == multiset(old(a[..]))
    {
      SwapLeft(a[..], j, i, x);
      SwapSameMultiset(a[..], j);
      a[j - 1], a[j] := a[j], a[j - 1];
      j := j - 1;
    }
    InsertionDone(a[..], j, i, x);
  }

  /**
   * `components.sort((a, b) => b.score - a.score)`: a stable sort by
   * descending score, here by insertion. Equal scores keep their order, so
   * the result is ordered by `Before`.
   */
  method SortByScoreDescending(a: array<Component>)
    requires Increasing(a[..])
    modifies a
    ensures Sorted(a[..]) && multiset(a[..]) == multiset(old(a[..]))
  {
    var i := 0;
    while i < a.Length
      invariant 0 <= i <= a.Length
      invariant forall p, q :: 0 <= p < q < i ==> Before(a[p], a[q])
      invariant forall q :: i <= q < a.Length ==> a[q] == old(a[q])
      invariant forall p, q :: 0 <= p < i <= q < a.Length ==> a[p].dim.Rank() < a[q].dim.Rank()
      invariant multiset(a[..]) == multiset(old(a[..]))
    {
      Insert(a, i);
      i := i + 1;
    }
  }

  /**
   * The `forEach` over `perQuestion` that adds each answer's sub-scores to
   * `componentScores`, starting from 0.
   */
  method SumComponentScores(perQuestion: seq<Sessions.QuestionSummary>)
    returns (situation: int, task: int, action: int, result: int)
    ensures situation == DimTotal(perQuestion, Situation) && task == DimTotal(perQuestion, Task)
    ensures action == DimTotal(perQuestion, Action) && result == DimTotal(perQuestion, Result)
  {
    situation, task, action, result := 0, 0, 0, 0;
    var i := 0;
    while i < |perQuestion|
      invariant 0 <= i <= |perQuestion|
      invariant situation == DimTotal(perQuestion[..i], Situation)
      invariant task == DimTotal(perQuestion[..i], Task)
      invariant action == DimTotal(perQuestion[..i], Action)
      invariant result == DimTotal(perQuestion[..i], Result)
    {
      var p := perQuestion[i];
      DimTotalStep(perQuestion, i, Situation);
      DimTotalStep(perQuestion, i, Task);
      DimTotalStep(perQuestion, i, Action);
      DimTotalStep(perQuestion, i, Result);
      situation := situation + p.star.situation;
      task := task + p.star.task;
      action := action + p.star.action;
      result := result + p.star.result;
      i := i + 1;
    }
    assert perQuestion[..i] == perQuestion;
  }

  /**
   * Sorts the components in place and reports the first and the last: the
   * strongest and the weakest of the list as it was.
   */
  method SortAndPick(components: array<Component>) returns (strongest: Component, weakest: Component)
    requires components.Length > 0 && Increasing(components[..])
    modifies components
    ensures strongest == StrongestOf(old(components[..]))
    ensures weakest == WeakestOf(old(components[..]))
  {
    SortByScoreDescending(components);
    SortedEnds(components[..], old(components[..]));
    strongest := components[0];
    weakest := components[components.Length - 1];
  }

  /**
   * `deriveStrengthsAndWeaknesses(perQuestion)`: sums each dimension over
   * the answers, sorts the four sums and reports the first and the last.
   */
  method DeriveStrengthsAndWeaknesses(perQuestion: seq<Sessions.QuestionSummary>)
    returns (strongest: Component, weakest: Component)
    ensures strongest == StrongestOf(Totals(perQuestion))
    ensures weakest == WeakestOf(Totals(perQuestion))
  {
    var situation, task, action, result := SumComponentScores(perQuestion);
    var components := new Component[4] [
      Component(Situation, situation), Component(Task, task),
      Component(Action, action), Component(Result, result)];
    assert components[..] == Totals(perQuestion);
    strongest, weakest := SortAndPick(components);
  }

  /** With no answers every sum is 0: Situation is the strongest and Result the weakest. */
  lemma NoAnswersTies()
    ensures StrongestOf(Totals([])) == Component(Situation, 0)
    ensures WeakestOf(Totals([])) == Component(Result, 0)
  {
    var t := Totals([]);
    assert t == [Component(Situation, 0), Component(Task, 0), Component(Action, 0), Component(Result, 0)];
    StrongestPrecedesAll(t);
    WeakestFollowsAll(t);
  }

  /**
   * Over a session's summary, the four dimension sums add up to the
   * session's total score.
   */
  lemma {:induction false} DimensionsAddUpToTotal(entries: seq<Sessions.Entry>)
    requires Sessions.Scored(entries)
    ensures var pq := Sessions.Summarize(entries).perQuestion;
      DimTotal(pq, Situation) + DimTotal(pq, Task) + DimTotal(pq, Action) + DimTotal(pq, Result) ==
      Sessions.Summarize(entries).totalScore
  {
    if entries != [] {
      var n := |entries|;
      var init := entries[..n - 1];
      DimensionsAddUpToTotal(init);
      var pq, pqInit := Sessions.Summarize(entries).perQuestion, Sessions.Summarize(init).perQuestion;
      assert pq[..n - 1] == pqInit;
      assert pq[n - 1].star == entries[n - 1].star;
    }
  }
}
