/**
 * The Feedback Generator agent (`generateFeedback`): improvement suggestions,
 * at most one per STAR dimension in rubric order, then a first-person
 * reminder and a length reminder.
 */
module FeedbackGenerator {
  import opened Wrappers
  import opened Text
  import opened AnswerAnalyzer
  import opened StarScoring

  /** What a suggestion is about, in the order suggestions are emitted. */
  datatype Topic = SituationTopic | TaskTopic | ActionTopic | ResultTopic | FirstPersonTopic | LengthTopic

  function Position(t: Topic): nat {
    match t
    case SituationTopic => 0
    case TaskTopic => 1
    case ActionTopic => 2
    case ResultTopic => 3
    case FirstPersonTopic => 4
    case LengthTopic => 5
  }

  /** The ten suggestions the generator can emit. */
  datatype Tip =
    | AddContext | ExpandSituation
    | ClarifyTask | MakeRoleExplicit
    | DescribeActions | BeMoreSpecific
    | AddOutcome | AddMetric
    | UseFirstPerson | GiveFullerAnswer
  {
    function Topic(): Topic {
      match this
      case AddContext | ExpandSituation => SituationTopic
      case ClarifyTask | MakeRoleExplicit => TaskTopic
      case DescribeActions | BeMoreSpecific => ActionTopic
      case AddOutcome | AddMetric => ResultTopic
      case UseFirstPerson => FirstPersonTopic
      case GiveFullerAnswer => LengthTopic
    }

    /** The text the server sends for this suggestion. */
    function Text(): string {
      match this
      case AddContext => "Add context: where and when this happened and who was involved."
      case ExpandSituation => "Expand the situation with a bit more context (timeframe, scale, or setting)."
      case ClarifyTask => "Clarify your task: state your responsibility or the goal you were trying to achieve."
      case MakeRoleExplicit => "Make your role or goal more explicit (e.g., \"My responsibility was to...\")."
      case DescribeActions =>
        "Describe concrete actions you personally took; use action verbs (implemented, led, coordinated)."
      case BeMoreSpecific => "Be more specific about steps you took and the reasoning behind them."
      case AddOutcome =>
        "Add an outcome or result\U{2014}quantify impact if possible (metrics, time saved, feedback)."
      case AddMetric => "If possible, add a metric or specific result to strengthen the impact statement."
      case UseFirstPerson => "Use first-person language to clarify your personal contribution (\"I did X\")."
      case GiveFullerAnswer => "Try to provide a fuller answer\U{2014}aim for a few sentences covering STAR."
    }
  }

  /* One function per block of `generateFeedback`: each pushes at most one tip. */

  function SituationStep(tips: seq<Tip>, score: int): seq<Tip> {
    if score <= 0 then tips + [AddContext]
    else if score == 1 then tips + [ExpandSituation]
    else tips
  }

  function TaskStep(tips: seq<Tip>, score: int): seq<Tip> {
    if score <= 0 then tips + [ClarifyTask]
    else if score == 1 then tips + [MakeRoleExplicit]
    else tips
  }

  function ActionStep(tips: seq<Tip>, score: int): seq<Tip> {
    if score <= 0 then tips + [DescribeActions]
    else if score == 1 then tips + [BeMoreSpecific]
    else tips
  }

  /** The "add a metric" suggestion is withheld when the answer already has a metric. */
  function ResultStep(tips: seq<Tip>, score: int, metric: bool): seq<Tip> {
    if score <= 0 then tips + [AddOutcome]
    else if score == 1 && !metric then tips + [AddMetric]
    else tips
  }

  function FirstPersonStep(tips: seq<Tip>, hasI: bool): seq<Tip> {
    if !hasI then tips + [UseFirstPerson] else tips
  }

  function LengthStep(tips: seq<Tip>, wordCount: int): seq<Tip> {
    if wordCount < 8 then tips + [GiveFullerAnswer] else tips
  }

  /** The suggestions for an analysed and scored answer, in emission order. */
  function Feedback(a: Analysis, star: StarScore): seq<Tip> {
    var situation := SituationStep([], star.situation);
    var task := TaskStep(situation, star.task);
    var action := ActionStep(task, star.action);
    var result := ResultStep(action, star.result, a.metric);
    var firstPerson := FirstPersonStep(result, a.hasI);
    LengthStep(firstPerson, a.wordCount)
  }

  predicate Ordered(tips: seq<Tip>) {
    forall i, j :: 0 <= i < j < |tips| ==> Position(tips[i].Topic()) < Position(tips[j].Topic())
  }

  /** Topics that a sequence of tips holds, all before position `p`. */
  predicate Before(tips: seq<Tip>, p: nat) {
    forall t :: t in tips ==> Position(t.Topic()) < p
  }

  /** Ordered tips, one at most per topic position below p. */
  predicate UpTo(tips: seq<Tip>, p: nat) {
    Ordered(tips) && Before(tips, p) && |tips| <= p
  }

  /**
   * Pushing a tip of topic position p onto ordered tips whose topics all
   * come before p keeps them ordered.
   */
  lemma PushOrdered(tips: seq<Tip>, t: Tip, p: nat)
    requires UpTo(tips, p) && Position(t.Topic()) == p
    ensures UpTo(tips + [t], p + 1)
  {
    var r := tips + [t];
    forall i, j | 0 <= i < j < |r| ensures Position(r[i].Topic()) < Position(r[j].Topic()) {
      if j == |tips| {
        assert r[i] in tips;
      }
    }
  }

  lemma SituationStepOrdered(tips: seq<Tip>, score: int)
    requires UpTo(tips, 0)
    ensures UpTo(SituationStep(tips, score), 1)
  {
    if score <= 0 {
      PushOrdered(tips, AddContext, 0);
    } else if score == 1 {
      PushOrdered(tips, ExpandSituation, 0);
    }
  }

  lemma TaskStepOrdered(tips: seq<Tip>, score: int)
    requires UpTo(tips, 1)
    ensures UpTo(TaskStep(tips, score), 2)
  {
    if score <= 0 {
      PushOrdered(tips, ClarifyTask, 1);
    } else if score == 1 {
      PushOrdered(tips, MakeRoleExplicit, 1);
    }
  }

  lemma ActionStepOrdered(tips: seq<Tip>, score: int)
    requires UpTo(tips, 2)
    ensures UpTo(ActionStep(tips, score), 3)
  {
    if score <= 0 {
      PushOrdered(tips, DescribeActions, 2);
    } else if score == 1 {
      PushOrdered(tips, BeMoreSpecific, 2);
    }
  }

  lemma ResultStepOrdered(tips: seq<Tip>, score: int, metric: bool)
    requires UpTo(tips, 3)
    ensures UpTo(ResultStep(tips, score, metric), 4)
  {
    if score <= 0 {
      PushOrdered(tips, AddOutcome, 3);
    } else if score == 1 && !metric {
      PushOrdered(tips, AddMetric, 3);
    }
  }

  lemma FirstPersonStepOrdered(tips: seq<Tip>, hasI: bool)
    requires UpTo(tips, 4)
    ensures UpTo(FirstPersonStep(tips, hasI), 5)
  {
    if !hasI {
      PushOrdered(tips, UseFirstPerson, 4);
    }
  }

  lemma LengthStepOrdered(tips: seq<Tip>, wordCount: int)
    requires UpTo(tips, 5)
    ensures UpTo(LengthStep(tips, wordCount), 6)
  {
    if wordCount < 8 {
      PushOrdered(tips, GiveFullerAnswer, 5);
    }
  }

  /**
   * Each topic contributes at most one suggestion, in the order Situation,
   * Task, Action, Result, first person, length; so there are at most six.
   */
  lemma FeedbackOrdered(a: Analysis, star: StarScore)
    ensures |Feedback(a, star)| <= 6 && Ordered(Feedback(a, star))
  {
    var situation := SituationStep([], star.situation);
    SituationStepOrdered([], star.situation);
    var task := TaskStep(situation, star.task);
    TaskStepOrdered(situation, star.task);
    var action := ActionStep(task, star.action);
    ActionStepOrdered(task, star.action);
    var result := ResultStep(action, star.result, a.metric);
    ResultStepOrdered(action, star.result, a.metric);
    var firstPerson := FirstPersonStep(result, a.hasI);
    FirstPersonStepOrdered(result, a.hasI);
    LengthStepOrdered(firstPerson, a.wordCount);
  }

  /**
   * Whether the generator owes tip `t` for this analysis and score, read
   * tip by tip: sub-scores of 0 or 1 each ask for their own advice, the
   * metric hint is withheld when the answer has a metric, and the
   * first-person and length reminders have their own triggers.
   */
  predicate Applies(t: Tip, a: Analysis, star: StarScore) {
    match t
    case AddContext => star.situation <= 0
    case ExpandSituation => star.situation == 1
    case ClarifyTask => star.task <= 0
    case MakeRoleExplicit => star.task == 1
    case DescribeActions => star.action <= 0
    case BeMoreSpecific => star.action == 1
    case AddOutcome => star.result <= 0
    case AddMetric => star.result == 1 && !a.metric
    case UseFirstPerson => !a.hasI
    case GiveFullerAnswer => a.wordCount < 8
  }

  /** A tip is suggested exactly when it applies. */
  lemma FeedbackContents(a: Analysis, star: StarScore, t: Tip)
    ensures t in Feedback(a, star) <==> Applies(t, a, star)
  {
    var situation := SituationStep([], star.situation);
    assert t in situation <==> t.Topic() == SituationTopic && Applies(t, a, star);
    var task := TaskStep(situation, star.task);
    assert t in task <==> t in situation || (t.Topic() == TaskTopic && Applies(t, a, star));
    var action := ActionStep(task, star.action);
    assert t in action <==> t in task || (t.Topic() == ActionTopic && Applies(t, a, star));
    var result := ResultStep(action, star.result, a.metric);
    assert t in result <==> t in action || (t.Topic() == ResultTopic && Applies(t, a, star));
    var firstPerson := FirstPersonStep(result, a.hasI);
    assert t in firstPerson <==> t in result || (t.Topic() == FirstPersonTopic && Applies(t, a, star));
    assert t in Feedback(a, star) <==> t in firstPerson || (t.Topic() == LengthTopic && Applies(t, a, star));
  }

  /**
   * A scored answer gets no suggestion at all exactly when it scores full
   * marks, speaks in the first person and has at least eight words.
   */
  lemma NoSuggestionsIffPerfect(a: Analysis)
    ensures Feedback(a, Score(a)) == [] <==> Score(a).total == 8 && a.hasI && a.wordCount >= 8
  {
    var star := Score(a);
    if Feedback(a, star) == [] {
      FeedbackContents(a, star, AddContext);
      FeedbackContents(a, star, ExpandSituation);
      FeedbackContents(a, star, ClarifyTask);
      FeedbackContents(a, star, MakeRoleExplicit);
      FeedbackContents(a, star, DescribeActions);
      FeedbackContents(a, star, BeMoreSpecific);
      FeedbackContents(a, star, AddOutcome);
      FeedbackContents(a, star, AddMetric);
      FeedbackContents(a, star, UseFirstPerson);
      FeedbackContents(a, star, GiveFullerAnswer);
    }
  }

  /**
   * For a scored answer the metric hint is never withheld: a result score
   * of 1 already means the answer has no metric.
   */
  lemma MetricHintIffResultIsOne(a: Analysis)
    ensures AddMetric in Feedback(a, Score(a)) <==> Score(a).result == 1
  {
    FeedbackContents(a, Score(a), AddMetric);
  }

  /** A zero score for a short answer without "I" collects every suggestion but the "expand" ones. */
  lemma ZeroScoreFeedback(a: Analysis, star: StarScore)
    requires star == StarScore(0, 0, 0, 0, 0) && !a.hasI && a.wordCount < 8
    ensures Feedback(a, star) ==
      [AddContext, ClarifyTask, DescribeActions, AddOutcome, UseFirstPerson, GiveFullerAnswer]
  {
  }

  /** A missing or blank answer gets every suggestion but the "expand" ones, in order. */
  lemma BlankAnswerGetsSixSuggestions(answer: Option<string>)
    requires AllSpace(AnswerText(answer))
    ensures Feedback(Analyze(answer), Score(Analyze(answer))) ==
      [AddContext, ClarifyTask, DescribeActions, AddOutcome, UseFirstPerson, GiveFullerAnswer]
  {
    var a := Analyze(answer);
    BlankAnswerScoresZero(answer);
    BlankAnswerHasNoSignals(answer);
    ZeroScoreFeedback(a, Score(a));
  }

  /**
   * `generateFeedback(analysis, starScores)`: pushes the applicable
   * suggestions one by one (each `Tip` stands for the text `Text()` gives).
   */
  method GenerateFeedback(a: Analysis, star: StarScore) returns (suggestions: seq<Tip>)
    ensures suggestions == Feedback(a, star)
  {
    suggestions := [];

    if star.situation <= 0 {
      suggestions := suggestions + [AddContext];
    } else if star.situation == 1 {
      suggestions := suggestions + [ExpandSituation];
    }

    if star.task <= 0 {
      suggestions := suggestions + [ClarifyTask];
    } else if star.task == 1 {
      suggestions := suggestions + [MakeRoleExplicit];
    }

    if star.action <= 0 {
      suggestions := suggestions + [DescribeActions];
    } else if star.action == 1 {
      suggestions := suggestions + [BeMoreSpecific];
    }

    if star.result <= 0 {
      suggestions := suggestions + [AddOutcome];
    } else if star.result == 1 && !a.metric {
      suggestions := suggestions + [AddMetric];
    }

    if !a.hasI {
      suggestions := suggestions + [UseFirstPerson];
    }

    if a.wordCount < 8 {
      suggestions := suggestions + [GiveFullerAnswer];
    }
  }
}
