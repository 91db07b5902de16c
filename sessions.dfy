/**
 * The Question Manager's session store and the two routes that use it:
 * `/answer` runs the analyzer, the scorer and the feedback generator on an
 * answer and appends the result to the session; `/summary` aggregates a
 * session's entries.
 */
module Sessions {
  import opened Wrappers
  import opened AnswerAnalyzer
  import opened StarScoring
  import opened FeedbackGenerator

  /** One submitted answer with everything the agents derived from it. */
  datatype Entry = Entry(
    questionIndex: int,
    question: Option<string>,
    answer: Option<string>,
    analysis: Analysis,
    star: StarScore,
    suggestions: seq<Tip>)

  /** What `/summary` reports for one entry. */
  datatype QuestionSummary = QuestionSummary(
    questionIndex: int,
    question: Option<string>,
    star: StarScore,
    suggestions: seq<Tip>)

  datatype Summary = Summary(totalScore: int, maxScore: int, perQuestion: seq<QuestionSummary>)

  /** The two 400 responses. */
  datatype ApiError = InvalidSessionId | MissingQuestionIndex

  /** The pipeline of agents, as `/answer` runs it on one answer. */
  function Evaluate(questionIndex: int, question: Option<string>, answer: Option<string>): Entry {
    var analysis := Analyze(answer);
    var star := Score(analysis);
    Entry(questionIndex, question, answer, analysis, star, Feedback(analysis, star))
  }

  /** `!sessionId || !sessions[sessionId]` fails: the id is present, non-empty and known. */
  predicate Known(sessions: map<string, seq<Entry>>, sessionId: Option<string>) {
    sessionId.Some? && sessionId.value != "" && sessionId.value in sessions
  }

  /** `entries.reduce((s, e) => s + e.star.total, 0)`, folding from the left. */
  function SumTotals(entries: seq<Entry>): int {
    if entries == [] then 0
    else SumTotals(entries[..|entries| - 1]) + entries[|entries| - 1].star.total
  }

  function PerQuestion(e: Entry): QuestionSummary {
    QuestionSummary(e.questionIndex, e.question, e.star, e.suggestions)
  }

  /** The body of a `/summary` response for a session's entries. */
  function Summarize(entries: seq<Entry>): Summary {
    Summary(SumTotals(entries), |entries| * 8, seq(|entries|, i requires 0 <= i < |entries| => PerQuestion(entries[i])))
  }

  /** A session's summary before any answer: nothing scored out of nothing. */
  lemma EmptySummary()
    ensures Summarize([]) == Summary(0, 0, [])
  {
  }

  /**
   * Appending an entry adds its total to the score, 8 to the maximum and
   * its per-question line at the end; earlier lines are unchanged.
   */
  lemma SummaryAfterAnswer(entries: seq<Entry>, e: Entry)
    ensures var before, after := Summarize(entries), Summarize(entries + [e]);
      after.totalScore == before.totalScore + e.star.total &&
      after.maxScore == before.maxScore + 8 &&
      after.perQuestion == before.perQuestion + [PerQuestion(e)]
  {
    assert (entries + [e])[..|entries|] == entries;
  }

  /** With rubric scores, the total never exceeds the maximum. */
  lemma {:induction false} TotalScoreBounded(entries: seq<Entry>)
    requires Scored(entries)
    ensures 0 <= Summarize(entries).totalScore <= Summarize(entries).maxScore
  {
    if entries != [] {
      var init := entries[..|entries| - 1];
      TotalScoreBounded(init);
    }
  }

  /** Every entry of a session carries rubric scores. */
  predicate Scored(entries: seq<Entry>) {
    forall i | 0 <= i < |entries| :: WellFormed(entries[i].star)
  }

  /** Every stored entry carries rubric scores. */
  predicate AllScored(sessions: map<string, seq<Entry>>) {
    forall id | id in sessions :: Scored(sessions[id])
  }

  /** Appending a rubric-scored entry to a session's entries keeps them rubric-scored. */
  lemma AppendKeepsScored(entries: seq<Entry>, e: Entry)
    requires Scored(entries) && WellFormed(e.star)
    ensures Scored(entries + [e])
  {
  }

  /** Runs the agents on one answer, as the `/answer` handler does; the entry is rubric-scored. */
  method EvaluateAnswer(questionIndex: int, question: Option<string>, answer: Option<string>)
    returns (entry: Entry)
    ensures entry == Evaluate(questionIndex, question, answer)
    ensures WellFormed(entry.star)
  {
    var analysis := Analyze(answer);
    var star := Score(analysis);
    var suggestions := GenerateFeedback(analysis, star);
    entry := Entry(questionIndex, question, answer, analysis, star, suggestions);
  }

  /** The in-memory `sessions` object: each session's entries, by id. */
  class SessionStore {
    var sessions: map<string, seq<Entry>>

    ghost predicate Valid()
      reads this
    {
      AllScored(sessions)
    }

    constructor ()
      ensures Valid() && sessions == map[]
    {
      sessions := map[];
    }

    /**
     * `createSession`: the id is a parameter here; an id that is already in
     * use gets a fresh, empty session, as assigning `sessions[id]` does.
     */
    method CreateSession(id: string)
      requires Valid()
      modifies this
      ensures Valid() && sessions == old(sessions)[id := []]
    {
      sessions := sessions[id := []];
    }

    /**
     * `POST /answer`: checks the session, then the question index, then
     * evaluates the answer and appends exactly one entry to that session.
     */
    method SubmitAnswer(sessionId: Option<string>, questionIndex: Option<int>,
                        question: Option<string>, answer: Option<string>)
      returns (r: Result<Entry, ApiError>)
      requires Valid()
      modifies this
      ensures Valid()
      ensures !Known(old(sessions), sessionId) ==> r == Failure(InvalidSessionId)
      ensures Known(old(sessions), sessionId) && questionIndex.None? ==> r == Failure(MissingQuestionIndex)
      ensures r.Success? <==> Known(old(sessions), sessionId) && questionIndex.Some?
      ensures r.Failure? ==> sessions == old(sessions)
      ensures r.Success? ==>
        Known(old(sessions), sessionId) && questionIndex.Some? &&
        r.value == Evaluate(questionIndex.value, question, answer) &&
        sessions == old(sessions)[sessionId.value := old(sessions)[sessionId.value] + [r.value]]
    {
      if sessionId.None? || sessionId.value == "" || sessionId.value !in sessions {
        return Failure(InvalidSessionId);
      }
      if questionIndex.None? {
        return Failure(MissingQuestionIndex);
      }
      var entry := EvaluateAnswer(questionIndex.value, question, answer);
      Append(sessionId.value, entry);
      r := Success(entry);
    }

    /** `sessions[sessionId].push(entry)`: one more entry at the end of a known session. */
    method Append(id: string, entry: Entry)
      requires Valid() && id in sessions && WellFormed(entry.star)
      modifies this
      ensures Valid() && sessions == old(sessions)[id := old(sessions)[id] + [entry]]
    {
      AppendKeepsScored(sessions[id], entry);
      sessions := sessions[id := sessions[id] + [entry]];
    }

    /** `GET /summary`: the aggregate of a known session's entries. */
    method GetSummary(sessionId: Option<string>) returns (r: Result<Summary, ApiError>)
      requires Valid()
      ensures r.Failure? <==> !Known(sessions, sessionId)
      ensures r.Failure? ==> r.error == InvalidSessionId
      ensures r.Success? ==> r.value == Summarize(sessions[sessionId.value])
      ensures r.Success? ==> 0 <= r.value.totalScore <= r.value.maxScore
    {
      if sessionId.None? || sessionId.value == "" || sessionId.value !in sessions {
        return Failure(InvalidSessionId);
      }
      var entries := sessions[sessionId.value];
      TotalScoreBounded(entries);
      r := Success(Summarize(entries));
    }
  }
}
