/**
 * The fragment of JavaScript regular expressions the scorer uses: literal
 * words, alternation, and the word boundary `\b` at either end of a word.
 * Word characters are `[A-Za-z0-9_]`, as for `\b` and `\w` without the
 * `u` flag; a position is a boundary when exactly one of the characters
 * around it is a word character (outside the text counts as non-word).
 */
module Patterns {

  predicate IsWordChar(c: char) {
    'a' <= c <= 'z' || 'A' <= c <= 'Z' || '0' <= c <= '9' || c == '_'
  }

  /** `\d` */
  predicate IsDigit(c: char) {
    '0' <= c <= '9'
  }

  predicate WordCharAt(s: string, i: int) {
    0 <= i < |s| && IsWordChar(s[i])
  }

  /** `\b` at position `i` (between `s[i - 1]` and `s[i]`). */
  predicate Boundary(s: string, i: int) {
    WordCharAt(s, i - 1) != WordCharAt(s, i)
  }

  /** `w` occurs in `s` starting at `i`. */
  predicate LiteralAt(s: string, i: int, w: string) {
    0 <= i && i + |w| <= |s| && s[i..i + |w|] == w
  }

  /** One alternative of a pattern: a literal, optionally with `\b` before and after it. */
  datatype Term = Term(word: string, boundaryBefore: bool, boundaryAfter: bool)

  /** `word` */
  function Anywhere(word: string): Term { Term(word, false, false) }
  /** `\bword` */
  function Prefix(word: string): Term { Term(word, true, false) }
  /** `word\b` */
  function Suffix(word: string): Term { Term(word, false, true) }
  /** `\bword\b` */
  function Whole(word: string): Term { Term(word, true, true) }

  predicate TermAt(s: string, i: int, t: Term) {
    LiteralAt(s, i, t.word) &&
    (t.boundaryBefore ==> Boundary(s, i)) &&
    (t.boundaryAfter ==> Boundary(s, i + |t.word|))
  }

  /** `RegExp.prototype.test` of a single alternative. */
  predicate Matches(s: string, t: Term) {
    exists i :: 0 <= i <= |s| && TermAt(s, i, t)
  }

  /** `RegExp.prototype.test` of an alternation `t0|t1|...`. */
  predicate MatchesAny(s: string, ts: seq<Term>) {
    exists k :: 0 <= k < |ts| && Matches(s, ts[k])
  }

  lemma LiteralStart(s: string, i: int, w: string)
    requires LiteralAt(s, i, w) && w != []
    ensures s[i] == w[0]
  {
    assert s[i..i + |w|][0] == s[i];
  }

  /** A pattern none of whose words is empty never matches the empty text. */
  lemma NoMatchInEmpty(ts: seq<Term>)
    requires forall k :: 0 <= k < |ts| ==> ts[k].word != []
    ensures !MatchesAny([], ts)
  {
  }
}
