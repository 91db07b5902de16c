/**
 * The STAR Scoring agent (`scoreSTAR`): four sub-scores in {0, 1, 2} for
 * Situation, Task, Action and Result, and their total out of 8.
 */
module StarScoring {
  import opened Wrappers
  import opened Text
  import opened Patterns
  import opened AnswerAnalyzer

  /** `/\bwhen\b|\bwhile\b|\bat\b|\bduring\b|\bfor\b/` */
  const SituationTerms: seq<Term> := [Whole("when"), Whole("while"), Whole("at"), Whole("during"), Whole("for")]

  /** `/\bresponsible|\bgoal|\bobjective|\btask|\bmy role|\bwas to\b/` */
  const TaskTerms: seq<Term> :=
    [Prefix("responsible"), Prefix("goal"), Prefix("objective"), Prefix("task"), Prefix("my role"), Whole("was to")]

  /** `/\bresulted in\b|\boutcome\b|\bimproved\b|\bincreased\b|\breduced\b|\bsaved\b/` */
  const OutcomeTerms: seq<Term> :=
    [Whole("resulted in"), Whole("outcome"), Whole("improved"), Whole("increased"), Whole("reduced"), Whole("saved")]

  /** `/\blearned|\bimproved|\bimpact|\boutcome\b/` */
  const LessonTerms: seq<Term> := [Prefix("learned"), Prefix("improved"), Prefix("impact"), Whole("outcome")]

  /** What `scoreSTAR` returns. */
  datatype StarScore = StarScore(situation: int, task: int, action: int, result: int, total: int)

  predicate InRubric(x: int) {
    0 <= x <= 2
  }

  /** The sub-scores are rubric values and the total is their sum. */
  predicate WellFormed(s: StarScore) {
    InRubric(s.situation) && InRubric(s.task) && InRubric(s.action) && InRubric(s.result) &&
    s.total == s.situation + s.task + s.action + s.result
  }

  /**
   * The rubric of `scoreSTAR`: it reads the text only through its
   * lower-cased form, the word count and three of the signals.
   */
  function Rubric(lowercase: string, wordCount: int, pastTense: bool, metric: bool, hasActionWords: bool): StarScore {
    var situation :=
      if wordCount >= 12 && MatchesAny(lowercase, SituationTerms) then 2
      else if wordCount >= 6 then 1
      else 0;
    var task :=
      if MatchesAny(lowercase, TaskTerms) then 2
      else if wordCount >= 8 then 1
      else 0;
    var action :=
      if hasActionWords && pastTense then 2
      else if hasActionWords || pastTense then 1
      else 0;
    var result :=
      if metric || MatchesAny(lowercase, OutcomeTerms) then 2
      else if wordCount >= 10 && MatchesAny(lowercase, LessonTerms) then 1
      else 0;
    StarScore(situation, task, action, result, situation + task + action + result)
  }

  /** `scoreSTAR(analysis)`: each sub-score takes the higher tier whose test passes. */
  function Score(a: Analysis): (s: StarScore)
    ensures WellFormed(s) && 0 <= s.total <= 8
    ensures a.wordCount < 6 ==> s.situation == 0
    ensures a.wordCount < 8 && !MatchesAny(Lower(a.text), TaskTerms) ==> s.task == 0
    ensures s.action == (if a.hasActionWords then 1 else 0) + (if a.pastTense then 1 else 0)
    ensures a.metric ==> s.result == 2
    ensures s.result == 1 ==> !a.metric && a.wordCount >= 10
  {
    Rubric(Lower(a.text), a.wordCount, a.pastTense, a.metric, a.hasActionWords)
  }

  /**
   * Situation: fewer than 6 words give 0; 2 needs at least 12 words and a
   * whole-word when/while/at/during/for; any other answer of 6 words or more gets 1.
   */
  lemma SituationThresholds(a: Analysis)
    ensures var s := Score(a);
      (s.situation == 0 <==> a.wordCount < 6) &&
      (s.situation == 2 <==> a.wordCount >= 12 && MatchesAny(Lower(a.text), SituationTerms)) &&
      (s.situation == 1 <==> 6 <= a.wordCount && !(a.wordCount >= 12 && MatchesAny(Lower(a.text), SituationTerms)))
  {
  }

  /**
   * Task: 2 iff a responsibility/goal/objective/task/"my role"/"was to"
   * term appears; otherwise 1 iff at least 8 words, and 0 below that.
   */
  lemma TaskThresholds(a: Analysis)
    ensures var s := Score(a);
      (s.task == 2 <==> MatchesAny(Lower(a.text), TaskTerms)) &&
      (s.task == 1 <==> !MatchesAny(Lower(a.text), TaskTerms) && a.wordCount >= 8) &&
      (s.task == 0 <==> !MatchesAny(Lower(a.text), TaskTerms) && a.wordCount < 8)
  {
  }

  /**
   * Result: 2 iff a metric or a whole-word outcome term appears; otherwise
   * 1 iff at least 10 words and a lesson term, and 0 in every other case.
   */
  lemma ResultThresholds(a: Analysis)
    ensures var s, lowercase := Score(a), Lower(a.text);
      (s.result == 2 <==> a.metric || MatchesAny(lowercase, OutcomeTerms)) &&
      (s.result == 1 <==> !a.metric && !MatchesAny(lowercase, OutcomeTerms) &&
                          a.wordCount >= 10 && MatchesAny(lowercase, LessonTerms)) &&
      (s.result == 0 <==> !a.metric && !MatchesAny(lowercase, OutcomeTerms) &&
                          !(a.wordCount >= 10 && MatchesAny(lowercase, LessonTerms)))
  {
  }

  /**
   * More words never lower a score: two analyses that differ only in their
   * word counts are scored component by component in word-count order.
   * This is a property of `scoreSTAR` over any analysis object; `Analyze`
   * itself never yields two analyses with the same text and different
   * word counts, since the count is determined by the text.
   */
  lemma ScoreMonotoneInWordCount(a: Analysis, b: Analysis)
    requires a.text == b.text && a.hasI == b.hasI && a.pastTense == b.pastTense
    requires a.metric == b.metric && a.hasActionWords == b.hasActionWords
    requires a.wordCount <= b.wordCount
    ensures var s, t := Score(a), Score(b);
      s.situation <= t.situation && s.task <= t.task && s.action == t.action &&
      s.result <= t.result && s.total <= t.total
  {
  }

  lemma NoTermInEmptyText()
    ensures !MatchesAny([], SituationTerms) && !MatchesAny([], TaskTerms)
    ensures !MatchesAny([], OutcomeTerms) && !MatchesAny([], LessonTerms)
  {
    NoMatchInEmpty(SituationTerms);
    NoMatchInEmpty(TaskTerms);
    NoMatchInEmpty(OutcomeTerms);
    NoMatchInEmpty(LessonTerms);
  }

  /** A missing, empty or whitespace-only answer scores 0 everywhere. */
  lemma BlankAnswerScoresZero(answer: Option<string>)
    requires AllSpace(AnswerText(answer))
    ensures Score(Analyze(answer)) == StarScore(0, 0, 0, 0, 0)
  {
    var a := Analyze(answer);
    BlankAnswerHasNoSignals(answer);
    assert Lower(a.text) == [];
    NoTermInEmptyText();
  }

  /** The score ignores case: only the first-person signal looks at it. */
  lemma ScoreIgnoresCase(x: string, y: string)
    requires Lower(x) == Lower(y)
    ensures Score(Analyze(Some(x))) == Score(Analyze(Some(y)))
  {
    var a, b := Analyze(Some(x)), Analyze(Some(y));
    LowercaseSignalsIgnoreCase(x, y);
    SameSignalsSameScore(a, b);
  }

  /** The score reads the text only through its lower-cased form. */
  lemma SameSignalsSameScore(a: Analysis, b: Analysis)
    requires Lower(a.text) == Lower(b.text) && a.wordCount == b.wordCount
    requires a.pastTense == b.pastTense && a.metric == b.metric && a.hasActionWords == b.hasActionWords
    ensures Score(a) == Score(b)
  {
  }
}
