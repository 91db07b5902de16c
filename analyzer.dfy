/**
 * The Answer Analyzer agent (`analyzeAnswerText`): it trims the answer,
 * counts its words and extracts four boolean lexical signals.
 */
module AnswerAnalyzer {
  import opened Wrappers
  import opened Text
  import opened Patterns

  /** `/\bI\b|\bI've|\bI'd|\bI'll/`, tested on the answer as given. */
  const FirstPersonTerms: seq<Term> := [Whole("I"), Prefix("I've"), Prefix("I'd"), Prefix("I'll")]

  /** `/ed\b|\bcompleted|\bmanaged|\bled|\bresolved/`, tested on the lower-cased text. */
  const PastTenseTerms: seq<Term> :=
    [Suffix("ed"), Prefix("completed"), Prefix("managed"), Prefix("led"), Prefix("resolved")]

  /** The action verbs, matched anywhere in the lower-cased text (no word boundaries). */
  const ActionTerms: seq<Term> :=
    [Anywhere("implemented"), Anywhere("designed"), Anywhere("created"), Anywhere("built"),
     Anywhere("led"), Anywhere("coordinated"), Anywhere("negotiated"), Anywhere("resolved"),
     Anywhere("automated")]

  /** The units of `\d+\s*(days|weeks|months|hours|people|users|customers)`. */
  const MetricUnits: seq<string> := ["days", "weeks", "months", "hours", "people", "users", "customers"]

  predicate UnitAt(s: string, k: int) {
    exists u :: 0 <= u < |MetricUnits| && LiteralAt(s, k, MetricUnits[u])
  }

  /**
   * `\d+\s*unit` with the last digit at `j` and the unit at `k`: since `\d+`
   * only needs one digit, this is a digit, then whitespace only, then a unit.
   */
  predicate CountedUnit(s: string, j: int, k: int) {
    0 <= j < k <= |s| && IsDigit(s[j]) && AllSpace(s[j + 1..k]) && UnitAt(s, k)
  }

  /** `/%|percent|\d+\s*(days|weeks|months|hours|people|users|customers)/` */
  predicate HasMetric(s: string) {
    Matches(s, Anywhere("%")) || Matches(s, Anywhere("percent")) ||
    exists j, k | 0 <= j < k <= |s| :: CountedUnit(s, j, k)
  }

  /** What `analyzeAnswerText` returns. */
  datatype Analysis = Analysis(
    text: string,
    wordCount: nat,
    hasI: bool,
    pastTense: bool,
    metric: bool,
    hasActionWords: bool)

  /** `answer || ''`: a missing answer reads as the empty text. */
  function AnswerText(answer: Option<string>): string {
    match answer
    case None => ""
    case Some(s) => s
  }

  /**
   * What the first-person regex is applied to: the answer itself, and for a
   * missing answer the string JavaScript converts `undefined` to.
   */
  function RegexSubject(answer: Option<string>): string {
    match answer
    case None => "undefined"
    case Some(s) => s
  }

  /** `analyzeAnswerText(answer)` */
  function Analyze(answer: Option<string>): (a: Analysis)
    ensures a.wordCount == WordStarts(AnswerText(answer), true)
    ensures a.wordCount == 0 <==> AllSpace(AnswerText(answer))
    ensures a.text == [] <==> a.wordCount == 0
    ensures a.hasI <==> answer.Some? && Matches(answer.value, Whole("I"))
  {
    var raw := AnswerText(answer);
    var text := Trim(raw);
    var lowercase := Lower(text);
    WordCountIsWordStarts(text);
    WordStartsTrim(raw);
    TrimEmptyIffAllSpace(raw);
    NoWordStartsIffAllSpace(raw);
    FirstPersonIsStandaloneI(RegexSubject(answer));
    UndefinedHasNoI();
    Analysis(
      text,
      WordCount(text),
      MatchesAny(RegexSubject(answer), FirstPersonTerms),
      MatchesAny(lowercase, PastTenseTerms),
      HasMetric(lowercase),
      MatchesAny(lowercase, ActionTerms))
  }

  /**
   * The contractions in the first-person regex add nothing: "I" followed by
   * an apostrophe already ends a word, so `\bI\b` matches there too.
   */
  lemma FirstPersonIsStandaloneI(s: string)
    ensures MatchesAny(s, FirstPersonTerms) <==> Matches(s, Whole("I"))
  {
    if MatchesAny(s, FirstPersonTerms) {
      var k :| 0 <= k < |FirstPersonTerms| && Matches(s, FirstPersonTerms[k]);
      var t := FirstPersonTerms[k];
      var i :| 0 <= i <= |s| && TermAt(s, i, t);
      if k != 0 {
        assert |t.word| >= 2 && t.word[0] == 'I' && t.word[1] == '\'';
        assert s[i..i + |t.word|][0] == s[i] && s[i..i + |t.word|][1] == s[i + 1];
        assert s[i..i + 1] == "I";
        assert TermAt(s, i, Whole("I"));
      }
    } else {
      assert !Matches(s, FirstPersonTerms[0]);
    }
  }

  lemma UndefinedHasNoI()
    ensures !Matches("undefined", Whole("I"))
  {
    var s := "undefined";
    forall i | 0 <= i <= |s| ensures !TermAt(s, i, Whole("I")) {
      if TermAt(s, i, Whole("I")) {
        LiteralStart(s, i, "I");
      }
    }
  }

  lemma NoSignalInEmptyText()
    ensures !MatchesAny([], PastTenseTerms) && !MatchesAny([], ActionTerms) && !HasMetric([])
  {
    NoMatchInEmpty(PastTenseTerms);
    NoMatchInEmpty(ActionTerms);
    assert !Matches([], Anywhere("%")) && !Matches([], Anywhere("percent"));
  }

  /** A missing, empty or whitespace-only answer raises no signal. */
  lemma BlankAnswerHasNoSignals(answer: Option<string>)
    requires AllSpace(AnswerText(answer))
    ensures var a := Analyze(answer);
      a.text == [] && a.wordCount == 0 && !a.hasI && !a.pastTense && !a.metric && !a.hasActionWords
  {
    var a := Analyze(answer);
    assert a.pastTense == MatchesAny(Lower(a.text), PastTenseTerms);
    assert a.metric == HasMetric(Lower(a.text));
    assert a.hasActionWords == MatchesAny(Lower(a.text), ActionTerms);
    assert Lower(a.text) == [];
    NoSignalInEmptyText();
    if answer.Some? {
      var s := answer.value;
      forall i | 0 <= i <= |s| ensures !TermAt(s, i, Whole("I")) {
        if TermAt(s, i, Whole("I")) {
          LiteralStart(s, i, "I");
        }
      }
    }
  }

  /**
   * Word count, past tense, metric and action verbs ignore case: answers
   * equal up to ASCII case yield the same values (and the same lower-cased
   * text), whatever their first-person signal.
   */
  lemma LowercaseSignalsIgnoreCase(x: string, y: string)
    requires Lower(x) == Lower(y)
    ensures var a, b := Analyze(Some(x)), Analyze(Some(y));
      a.wordCount == b.wordCount && Lower(a.text) == Lower(b.text) &&
      a.pastTense == b.pastTense && a.metric == b.metric && a.hasActionWords == b.hasActionWords
  {
    WordStartsIgnoreCase(x, y, true);
    TrimIgnoresCase(x, y);
  }

  /** The first-person signal is case-sensitive: "I" counts, "i" does not. */
  lemma FirstPersonIsCaseSensitive()
    ensures Lower("I won") == Lower("i won")
    ensures Analyze(Some("I won")).hasI && !Analyze(Some("i won")).hasI
  {
    var upper, lower := "I won", "i won";
    assert Lower(upper) == Lower(lower) by {
      assert forall i | 0 <= i < 5 :: LowerChar(upper[i]) == LowerChar(lower[i]);
    }
    assert TermAt(upper, 0, Whole("I")) by {
      assert upper[0..1] == "I";
    }
    forall i | 0 <= i <= |lower| ensures !TermAt(lower, i, Whole("I")) {
      if TermAt(lower, i, Whole("I")) {
        LiteralStart(lower, i, "I");
      }
    }
  }

  /**
   * `ed\b` is a plain suffix test: "red" counts as past tense, since "ed"
   * ends the word.
   */
  lemma RedIsPastTense()
    ensures Analyze(Some("red")).pastTense
  {
    WordEndingInEdIsPastTense("red", 1);
  }

  /** An answer with no edge whitespace and no capital letters is tested for past tense as given. */
  lemma PastTenseOfUnpadded(s: string)
    requires s == [] || (!IsSpace(s[0]) && !IsSpace(s[|s| - 1]))
    requires Lower(s) == s
    ensures Analyze(Some(s)).pastTense == MatchesAny(s, PastTenseTerms)
  {
    TrimKeepsUnpadded(s);
    PastTenseOfTrimmed(Some(s), s);
  }

  /** The past-tense signal is the past-tense regex on the lower-cased, trimmed answer `t`. */
  lemma PastTenseOfTrimmed(answer: Option<string>, t: string)
    requires t == Lower(Trim(AnswerText(answer)))
    ensures Analyze(answer).pastTense == MatchesAny(t, PastTenseTerms)
  {
  }

  /**
   * `ed\b` needs only "ed" at the end of a word: any answer with an "e" and a
   * "d" (either case) followed by the end of the text or a non-word
   * character is past tense.
   */
  lemma WordEndingInEdIsPastTense(s: string, i: int)
    requires 0 <= i && i + 2 <= |s|
    requires LowerChar(s[i]) == 'e' && LowerChar(s[i + 1]) == 'd'
    requires !WordCharAt(s, i + 2)
    ensures Analyze(Some(s)).pastTense
  {
    EdSurvivesTrim(s, i);
    PastTenseOfTrimmed(Some(s), Lower(Trim(s)));
  }

  /** The "ed" ending a word of `s` still ends a word of the trimmed text. */
  lemma EdSurvivesTrim(s: string, i: int)
    requires 0 <= i && i + 2 <= |s|
    requires LowerChar(s[i]) == 'e' && LowerChar(s[i + 1]) == 'd'
    requires !WordCharAt(s, i + 2)
    ensures MatchesAny(Lower(Trim(s)), PastTenseTerms)
  {
    var p := TrimPosition(s);
    EdInMiddle(s, p, Trim(s), i);
  }

  /** The same, for any middle part `t` of `s` with only whitespace around it. */
  lemma EdInMiddle(s: string, p: int, t: string, i: int)
    requires SpaceAround(s, p, t)
    requires 0 <= i && i + 2 <= |s|
    requires LowerChar(s[i]) == 'e' && LowerChar(s[i + 1]) == 'd'
    requires !WordCharAt(s, i + 2)
    ensures MatchesAny(Lower(t), PastTenseTerms)
  {
    NonSpaceInMiddle(s, p, t, i);
    NonSpaceInMiddle(s, p, t, i + 1);
    EdInSlice(s, p, t, i);
    EdEndsWord(t, i - p);
  }

  /** An "ed" ending a word of `s` inside the slice `t` ends a word of `t`. */
  lemma EdInSlice(s: string, p: int, t: string, i: int)
    requires 0 <= p <= i && i + 2 <= p + |t| <= |s| && t == s[p..p + |t|]
    requires LowerChar(s[i]) == 'e' && LowerChar(s[i + 1]) == 'd'
    requires !WordCharAt(s, i + 2)
    ensures LowerChar(t[i - p]) == 'e' && LowerChar(t[i - p + 1]) == 'd'
    ensures !WordCharAt(t, i - p + 2)
  {
    var j := i - p;
    assert t[j] == s[i] && t[j + 1] == s[i + 1];
    if j + 2 < |t| {
      assert t[j + 2] == s[i + 2];
    }
  }

  /** "ed" (either case) at `j`, then no word character: `ed\b` matches the lower-cased text. */
  lemma EdEndsWord(t: string, j: int)
    requires 0 <= j && j + 2 <= |t|
    requires LowerChar(t[j]) == 'e' && LowerChar(t[j + 1]) == 'd'
    requires !WordCharAt(t, j + 2)
    ensures MatchesAny(Lower(t), PastTenseTerms)
  {
    var lt := Lower(t);
    assert lt[j..j + 2] == "ed";
    assert !WordCharAt(lt, j + 2) by {
      if j + 2 < |lt| {
        assert lt[j + 2] == LowerChar(t[j + 2]);
      }
    }
    assert TermAt(lt, j, PastTenseTerms[0]);
  }
}
