# STAR interview coach — verified model of the rule-based agents

The interview coach asks behavioural questions and grades each answer
against the STAR method (Situation, Task, Action, Result). This project
models its rule-based core in Dafny and proves properties of the model:

- the **Answer Analyzer** (`analyzeAnswerText`) trims the answer, counts its
  words and extracts four lexical signals (first person, past tense, a
  metric, action verbs) with regular expressions (`text.dfy`, `patterns.dfy`,
  `analyzer.dfy`);
- the **STAR Scoring** agent (`scoreSTAR`) turns the signals into four
  sub-scores in {0, 1, 2} and a total out of 8 (`scoring.dfy`);
- the **Feedback Generator** (`generateFeedback`) lists up to six
  suggestions, in a fixed order, for the weak parts of the answer
  (`feedback.dfy`);
- the **Question Manager**'s session store with `createSession`,
  `POST /answer` (evaluate and append) and `GET /summary` (aggregate),
  as a class whose map of sessions the methods update (`sessions.dfy`);
- the browser's quality badge (`getQualityTag`, `quality.dfy`) and its
  strongest/weakest STAR dimension (`deriveStrengthsAndWeaknesses`,
  `strengths.dfy`), which sums the four dimensions in a loop and sorts the
  four components in place, by score, descending.

The regular expressions are modelled as sets of literal terms with optional
`\b` word boundaries (`Patterns.Term`); a regex with alternatives matches
when some term matches at some position (`Patterns.MatchesAny`). The
whitespace class `\s` and what `trim` removes are modelled with their
exact character set. Word counting (`split(/\s+/).filter(Boolean).length`
after `trim`) is modelled literally and proved equal to a simpler count of
word starts. The patterns are modelled literally: `ed\b` makes "red" past
tense, and since the sort is stable, among tied lowest totals the weakest
dimension is the last-listed one.

## Model

| member | source | states |
|---|---|---|
| Text.TrimStartCutsSpace | server.js:44 | what trimming removes at the start is whitespace |
| Text.TrimEndCutsSpace | server.js:44 | what trimming removes at the end is whitespace |
| Text.TrimRemovesEdgeSpace | server.js:44 | `trim` leaves a middle slice of the answer, with only whitespace cut off before and after it |
| Text.TrimLeavesNoEdgeSpace | server.js:44 | the trimmed text neither starts nor ends with whitespace |
| Text.TrimEmptyIffAllSpace | server.js:44 | the trimmed text is empty exactly when the answer is all whitespace |
| Text.WordCountIsWordStarts | server.js:45 | `split(/\s+/).filter(Boolean).length` equals the number of word starts (non-whitespace characters at the start or after whitespace) |
| Text.WordStartsTrim | server.js:44-45 | trimming first does not change the number of words |
| Text.NoWordStartsIffAllSpace | server.js:45 | the word count is 0 exactly when the text is all whitespace |
| Text.TrimIgnoresCase | server.js:44-46 | answers equal up to ASCII case trim to texts equal up to case |
| AnswerAnalyzer.Analyze | server.js:43-56 | the word count is that of the raw answer, it is 0 iff the answer is blank iff the trimmed text is empty, and `hasI` holds iff the answer contains a standalone capital "I" |
| AnswerAnalyzer.FirstPersonIsStandaloneI | server.js:49 | the `I've`/`I'd`/`I'll` alternatives add nothing: the first-person regex matches iff `\bI\b` does |
| AnswerAnalyzer.UndefinedHasNoI | server.js:49 | a missing answer is tested as the string "undefined", which has no standalone "I" |
| AnswerAnalyzer.BlankAnswerHasNoSignals | server.js:43-56 | a missing, empty or whitespace-only answer has empty text, 0 words and all four signals false |
| AnswerAnalyzer.LowercaseSignalsIgnoreCase | server.js:44-53 | answers equal up to case have the same word count and the same past-tense, metric and action signals |
| AnswerAnalyzer.FirstPersonIsCaseSensitive | server.js:49 | the first-person test reads the original case: "I won" has it, "i won" does not |
| AnswerAnalyzer.PastTenseOfUnpadded | server.js:44-50 | for an answer with no edge whitespace and no capitals, the past-tense signal is the past-tense regex tested on the answer itself |
| AnswerAnalyzer.WordEndingInEdIsPastTense | server.js:44-50 | an answer with "ed" (in either case) followed by the end of the text or a non-word character is past tense, wherever it sits and however the answer is padded |
| AnswerAnalyzer.RedIsPastTense | server.js:50 | the one-word answer "red" is past tense, because `ed\b` needs only a word-final "ed" |
| StarScoring.Score | server.js:64-89 | every sub-score is in {0, 1, 2} and the total is their sum, at most 8; fewer than 6 words give Situation 0; Action is one point per signal among action verbs and past tense; a metric gives Result 2; Result 1 needs at least 10 words and no metric |
| StarScoring.SituationThresholds | server.js:68-70 | Situation is 0 iff fewer than 6 words, 2 iff at least 12 words and a whole-word when/while/at/during/for, 1 otherwise |
| StarScoring.TaskThresholds | server.js:72-75 | Task is 2 iff a task term (`\bresponsible`, `\bgoal`, `\bobjective`, `\btask`, `\bmy role`, `\bwas to\b`) appears, 1 iff there is none and at least 8 words, 0 iff neither |
| StarScoring.ResultThresholds | server.js:82-85 | Result is 2 iff a metric or a whole-word outcome term appears, 1 iff neither and at least 10 words with a lesson term, 0 iff none of these |
| StarScoring.ScoreMonotoneInWordCount | server.js:64-89 | with the same signals, more words never lower any sub-score or the total |
| StarScoring.BlankAnswerScoresZero | server.js:43-89 | a missing, empty or whitespace-only answer scores 0 on all four dimensions |
| StarScoring.ScoreIgnoresCase | server.js:43-89 | answers equal up to ASCII case get the same score |
| StarScoring.SameSignalsSameScore | server.js:64-89 | the score depends only on the word count, the lower-cased text and three signals, never on `hasI` |
| FeedbackGenerator.GenerateFeedback | server.js:95-115 | the suggestions built by pushing onto an array are the list `Feedback` describes |
| FeedbackGenerator.FeedbackOrdered | server.js:95-115 | at most six suggestions, at most one per topic, in the order Situation, Task, Action, Result, first person, length |
| FeedbackGenerator.FeedbackContents | server.js:99-112 | each suggestion is present iff its condition holds (for example "add a metric" iff Result is 1 and there is no metric) |
| FeedbackGenerator.NoSuggestionsIffPerfect | server.js:95-115 | a scored answer gets no suggestion iff it scores 8, uses the first person and has at least 8 words |
| FeedbackGenerator.MetricHintIffResultIsOne | server.js:108-109 | on a scored answer the metric hint appears iff Result is 1 (the `!metric` test is then always true) |
| FeedbackGenerator.BlankAnswerGetsSixSuggestions | server.js:43-115 | a blank answer gets exactly the six basic suggestions, in order |
| Sessions.EmptySummary | server.js:151-154 | a session without entries sums to 0 out of 0 with no lines |
| Sessions.SummaryAfterAnswer | server.js:141-154 | appending an entry adds its total to the score, 8 to the maximum and its line at the end of the per-question list |
| Sessions.TotalScoreBounded | server.js:153-154 | with rubric scores, 0 <= totalScore <= maxScore |
| Sessions.EvaluateAnswer | server.js:136-140 | the entry holds the analysis, its score and the feedback, and its score is rubric-shaped |
| Sessions.SessionStore.constructor | server.js:32-36 | the store starts empty |
| Sessions.SessionStore.CreateSession | server.js:32-36 | the id now maps to an empty session and no other session changes |
| Sessions.SessionStore.SubmitAnswer | server.js:131-143 | succeeds iff the session id is known and the question index present; a missing, empty or unknown session id fails first, then a missing question index; on failure nothing changes; on success exactly one evaluated entry is appended to that session; every stored entry stays rubric-scored |
| Sessions.SessionStore.Append | server.js:141 | the session gets the entry at its end, nothing else changes |
| Sessions.SessionStore.GetSummary | server.js:147-156 | fails iff the session id is missing, empty or unknown; otherwise returns the summary of that session's entries, with 0 <= totalScore <= maxScore |
| Quality.QualityTag | public/script.js:219-223 | Strong iff the total is at least 6, Average iff it is 4 or 5, Needs Improvement iff below 4 |
| Quality.QualityTagMonotone | public/script.js:219-223 | a higher total never gets a worse badge |
| Quality.BadgesDistinct | public/script.js:219-223 | different badges have different texts and different CSS classes |
| Strengths.SumComponentScores | public/script.js:298-304 | the loop's four sums are the per-dimension totals over all questions |
| Strengths.Insert | public/script.js:313 | one insertion step: the prefix through `i` becomes sorted, a permutation of what it was |
| Strengths.SortByScoreDescending | public/script.js:313 | the components end up sorted by score, descending, with ties in their original order, and are a permutation of the input |
| Strengths.SortAndPick | public/script.js:313-315 | after sorting, the first and last components are the strongest and the weakest of the original order |
| Strengths.DeriveStrengthsAndWeaknesses | public/script.js:297-318 | the strongest is the first-listed component with the highest total and the weakest the last-listed with the lowest |
| Strengths.StrongestPrecedesAll | public/script.js:313-314 | the strongest has a score at least every other's, and listed before any other with the same score |
| Strengths.WeakestFollowsAll | public/script.js:313-315 | the weakest has a score at most every other's, and listed after any other with the same score |
| Strengths.NoAnswersTies | public/script.js:297-318 | with no answers every total is 0: Situation is strongest and Result weakest |
| Strengths.DimensionsAddUpToTotal | public/script.js:298-304 | over a session's summary the four dimension totals add up to the summary's total score |

## Left out

- The Express server, routing, JSON bodies, `/questions`, `/start` response wiring, `/download`, static files and the `QUESTIONS` list: plumbing outside the agents.
- `genId` and `Math.random`: the session id is a parameter of `CreateSession`; an id already in use gets a fresh, empty session, as assigning `sessions[id]` does.
- The `{ entries: [] }` wrapper object: a session is its sequence of entries.
- Sessions.SessionStore.SubmitAnswer: the question index is an `Option<int>`; JavaScript numbers that are not integers (and NaN) are not modelled, and `question` and `answer` are optional strings, so non-string answers are not modelled.
- Sessions.Known: keys inherited from `Object.prototype` (such as "constructor") pass the source's `sessions[sessionId]` test but are not in the map here.
- Text.Lower: `toLowerCase` is modelled for ASCII letters only; full Unicode case mapping is not modelled.
- Feedback suggestions are values of `FeedbackGenerator.Tip`; each one's wording is `Tip.Text()`, which holds the exact message.
- Strengths.SortByScoreDescending: the browser's own sort algorithm is modelled by an insertion sort with the same result as a stable sort, which is what `Array.prototype.sort` guarantees.
- Strengths.DeriveStrengthsAndWeaknesses: the components carry their dimension rather than a display name string (`Dimension.Name()` gives the name).
- The rest of the browser script (DOM, speech input, progress bar, percentages, charts) is not part of this model.
