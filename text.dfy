/**
 * The string primitives the answer analyzer relies on: JavaScript's
 * whitespace class (`\s`, and what `String.prototype.trim` removes), `trim`,
 * `toLowerCase` restricted to ASCII, and `split(/\s+/)` followed by
 * `filter(Boolean)`, which is how the analyzer counts words.
 */
module Text {

  /** The characters matched by `\s` and removed by `trim`. */
  predicate IsSpace(c: char) {
    ('\t' <= c <= '\r') || c == ' ' || c == '\U{00A0}' || c == '\U{1680}' ||
    ('\U{2000}' <= c <= '\U{200A}') || c == '\U{2028}' || c == '\U{2029}' ||
    c == '\U{202F}' || c == '\U{205F}' || c == '\U{3000}' || c == '\U{FEFF}'
  }

  predicate AllSpace(s: string) {
    forall i :: 0 <= i < |s| ==> IsSpace(s[i])
  }

  function LowerChar(c: char): char {
    if 'A' <= c <= 'Z' then (c as int + 32) as char else c
  }

  /** `toLowerCase`, on the ASCII letters only. */
  function Lower(s: string): string {
    seq(|s|, i requires 0 <= i < |s| => LowerChar(s[i]))
  }

  /** Leading whitespace removed: what is left is a suffix of `s`. */
  function TrimStart(s: string): (r: string)
    ensures |r| <= |s| && r == s[|s| - |r|..]
    ensures r == [] || !IsSpace(r[0])
  {
    if s != [] && IsSpace(s[0]) then
      var r := TrimStart(s[1..]);
      assert s[1..][|s| - 1 - |r|..] == s[|s| - |r|..];
      r
    else s
  }

  /** Trailing whitespace removed: what is left is a prefix of `s`. */
  function TrimEnd(s: string): (r: string)
    ensures |r| <= |s| && r == s[..|r|]
    ensures r == [] || !IsSpace(r[|r| - 1])
  {
    if s != [] && IsSpace(s[|s| - 1]) then
      var r := TrimEnd(s[..|s| - 1]);
      assert s[..|s| - 1][..|r|] == s[..|r|];
      r
    else s
  }

  /** What `TrimStart` cuts off is whitespace. */
  lemma {:induction false} TrimStartCutsSpace(s: string)
    ensures AllSpace(s[..|s| - |TrimStart(s)|])
    decreases |s|
  {
    if s != [] && IsSpace(s[0]) {
      var tail := s[1..];
      TrimStartCutsSpace(tail);
      var n := |s| - |TrimStart(s)|;
      var lead, rest := s[..n], tail[..n - 1];
      forall i | 0 <= i < |lead| ensures IsSpace(lead[i]) {
        if i > 0 {
          assert lead[i] == rest[i - 1];
        }
      }
    }
  }

  /** What `TrimEnd` cuts off is whitespace. */
  lemma {:induction false} TrimEndCutsSpace(s: string)
    ensures AllSpace(s[|TrimEnd(s)|..])
    decreases |s|
  {
    if s != [] && IsSpace(s[|s| - 1]) {
      var init := s[..|s| - 1];
      TrimEndCutsSpace(init);
      var n := |TrimEnd(s)|;
      var trail, rest := s[n..], init[n..];
      forall i | 0 <= i < |trail| ensures IsSpace(trail[i]) {
        if i < |rest| {
          assert trail[i] == rest[i];
        }
      }
    }
  }

  /** `trim`: whitespace removed at both ends. */
  function Trim(s: string): string {
    TrimEnd(TrimStart(s))
  }

  /** A string is all whitespace exactly when both of its parts are. */
  lemma {:induction false} AllSpaceSplit(s: string, i: int)
    requires 0 <= i <= |s|
    ensures AllSpace(s) <==> AllSpace(s[..i]) && AllSpace(s[i..])
  {
    if AllSpace(s[..i]) && AllSpace(s[i..]) {
      forall j | 0 <= j < |s| ensures IsSpace(s[j]) {
        if j < i {
          assert s[j] == s[..i][j];
        } else {
          assert s[j] == s[i..][j - i];
        }
      }
    }
  }

  /**
   * `trim` removes whitespace at both ends and nothing else: what is left is
   * a middle part of `s` with only whitespace around it.
   */
  lemma {:induction false} TrimRemovesEdgeSpace(s: string)
    ensures SpaceAround(s, |s| - |TrimStart(s)|, Trim(s))
  {
    var t := TrimStart(s);
    TrimStartCutsSpace(s);
    TrimEndCutsSpace(t);
    SuffixPrefixIsMiddle(s, t, TrimEnd(t));
  }

  /** Where the trimmed text starts in `s`. */
  lemma TrimPosition(s: string) returns (p: int)
    ensures SpaceAround(s, p, Trim(s))
  {
    TrimRemovesEdgeSpace(s);
    p := |s| - |TrimStart(s)|;
  }

  /** A non-whitespace character of `s` lies in the middle part `r`. */
  lemma NonSpaceInMiddle(s: string, i: int, r: string, k: int)
    requires SpaceAround(s, i, r)
    requires 0 <= k < |s| && !IsSpace(s[k])
    ensures i <= k < i + |r|
  {
  }

  /** `s` is whitespace, then `r` starting at index `i`, then whitespace. */
  predicate SpaceAround(s: string, i: int, r: string) {
    0 <= i && i + |r| <= |s| && r == s[i..i + |r|] && AllSpace(s[..i]) && AllSpace(s[i + |r|..])
  }

  /** A prefix `r` of a suffix `t` of `s`, with whitespace cut off on both sides. */
  lemma SuffixPrefixIsMiddle(s: string, t: string, r: string)
    requires |t| <= |s| && t == s[|s| - |t|..] && AllSpace(s[..|s| - |t|])
    requires |r| <= |t| && r == t[..|r|] && AllSpace(t[|r|..])
    ensures SpaceAround(s, |s| - |t|, r)
  {
    var i := |s| - |t|;
    assert s[i + |r|..] == t[|r|..];
  }

  /** What `trim` leaves neither starts nor ends with whitespace. */
  lemma {:induction false} TrimLeavesNoEdgeSpace(s: string)
    ensures var r := Trim(s); r == [] || (!IsSpace(r[0]) && !IsSpace(r[|r| - 1]))
  {
    var t := TrimStart(s);
    var r := TrimEnd(t);
    assert r != [] ==> r[0] == t[0];
  }

  /** Trimming leaves nothing exactly when the string is all whitespace. */
  lemma {:induction false} TrimEmptyIffAllSpace(s: string)
    ensures Trim(s) == [] <==> AllSpace(s)
  {
    var t := TrimStart(s);
    TrimStartCutsSpace(s);
    TrimEndCutsSpace(t);
    AllSpaceSplit(s, |s| - |t|);
    AllSpaceSplit(t, |TrimEnd(t)|);
  }

  /** A string with no whitespace at either end is its own trim. */
  lemma TrimKeepsUnpadded(s: string)
    requires s == [] || (!IsSpace(s[0]) && !IsSpace(s[|s| - 1]))
    ensures Trim(s) == s
  {
    assert TrimStart(s) == s;
  }

  /** Trimming a string that starts with whitespace shortens it. */
  lemma TrimStartShrinks(s: string)
    requires s != [] && IsSpace(s[0])
    ensures |TrimStart(s)| < |s|
  {
  }

  /** The length of the whitespace-free prefix of `s`. */
  function RunLength(s: string): (n: nat)
    ensures n <= |s|
    ensures forall i :: 0 <= i < n ==> !IsSpace(s[i])
    ensures n == |s| || IsSpace(s[n])
  {
    if s == [] || IsSpace(s[0]) then 0 else 1 + RunLength(s[1..])
  }

  /**
   * `s.split(/\s+/)`: the fields between maximal whitespace runs, including
   * the empty first (last) field when `s` starts (ends) with whitespace.
   */
  function Split(s: string): (fields: seq<string>)
    decreases |s|
  {
    var n := RunLength(s);
    if n == |s| then [s]
    else
      var rest := TrimStart(s[n..]);
      TrimStartShrinks(s[n..]);
      [s[..n]] + Split(rest)
  }

  /** `filter(Boolean)` on strings: the non-empty ones, in order. */
  function NonEmpty(fields: seq<string>): (r: seq<string>)
    ensures |r| <= |fields|
    ensures forall k :: 0 <= k < |r| ==> r[k] != []
  {
    if fields == [] then []
    else (if fields[0] != [] then [fields[0]] else []) + NonEmpty(fields[1..])
  }

  /** `s.split(/\s+/).filter(Boolean).length`. */
  function WordCount(s: string): nat {
    |NonEmpty(Split(s))|
  }

  /**
   * The reference count of words: the positions holding a non-whitespace
   * character that follows whitespace, or the start of `s` when `atStart`.
   */
  function WordStarts(s: string, atStart: bool): nat {
    if s == [] then 0
    else (if atStart && !IsSpace(s[0]) then 1 else 0) + WordStarts(s[1..], IsSpace(s[0]))
  }

  lemma {:induction false} WordStartsInWord(s: string, k: nat, atStart: bool)
    requires 0 < k <= RunLength(s)
    ensures WordStarts(s, atStart) == (if atStart then 1 else 0) + WordStarts(s[k..], false)
    decreases k
  {
    if k > 1 {
      WordStartsInWord(s[1..], k - 1, false);
      assert s[1..][k - 1..] == s[k..];
    }
  }

  lemma {:induction false} WordStartsTrimStart(s: string, atStart: bool)
    requires atStart || (s != [] && IsSpace(s[0]))
    ensures WordStarts(s, atStart) == WordStarts(TrimStart(s), true)
    decreases |s|
  {
    if s != [] && IsSpace(s[0]) {
      WordStartsTrimStart(s[1..], true);
    }
  }

  lemma {:induction false} WordStartsDropLastSpace(s: string, atStart: bool)
    requires s != [] && IsSpace(s[|s| - 1])
    ensures WordStarts(s, atStart) == WordStarts(s[..|s| - 1], atStart)
    decreases |s|
  {
    if |s| > 1 {
      WordStartsDropLastSpace(s[1..], IsSpace(s[0]));
      assert s[1..][..|s| - 2] == s[..|s| - 1][1..];
    }
  }

  lemma {:induction false} WordStartsTrimEnd(s: string, atStart: bool)
    ensures WordStarts(TrimEnd(s), atStart) == WordStarts(s, atStart)
    decreases |s|
  {
    if s != [] && IsSpace(s[|s| - 1]) {
      WordStartsDropLastSpace(s, atStart);
      WordStartsTrimEnd(s[..|s| - 1], atStart);
    }
  }

  /** Trimming does not change the number of words. */
  lemma WordStartsTrim(s: string)
    ensures WordStarts(Trim(s), true) == WordStarts(s, true)
  {
    WordStartsTrimStart(s, true);
    WordStartsTrimEnd(TrimStart(s), true);
  }

  /** Splitting on whitespace runs and dropping empty fields counts the words. */
  lemma {:induction false} WordCountIsWordStarts(s: string)
    ensures WordCount(s) == WordStarts(s, true)
    decreases |s|
  {
    var n := RunLength(s);
    if n == |s| {
      if n > 0 {
        WordStartsInWord(s, n, true);
      }
      assert NonEmpty([s]) == (if s != [] then [s] else []) + NonEmpty([]);
    } else {
      var rest := TrimStart(s[n..]);
      assert |rest| < |s[n..]|;
      var fields := [s[..n]] + Split(rest);
      assert Split(s) == fields;
      assert fields[1..] == Split(rest);
      WordCountIsWordStarts(rest);
      WordStartsTrimStart(s[n..], false);
      if n > 0 {
        WordStartsInWord(s, n, true);
      } else {
        assert s[n..] == s;
      }
    }
  }

  /** A text has no words exactly when it is empty or all whitespace. */
  lemma {:induction false} NoWordStartsIffAllSpace(s: string)
    ensures WordStarts(s, true) == 0 <==> AllSpace(s)
    decreases |s|
  {
    if s != [] {
      NoWordStartsIffAllSpace(s[1..]);
      if IsSpace(s[0]) {
        assert AllSpace(s) <==> AllSpace(s[1..]) by {
          if AllSpace(s[1..]) {
            forall i | 0 <= i < |s| ensures IsSpace(s[i]) {
              if i > 0 { assert s[i] == s[1..][i - 1]; }
            }
          }
        }
      }
    }
  }

  lemma LowerTail(a: string, b: string)
    requires Lower(a) == Lower(b) && a != []
    ensures |b| == |a| && LowerChar(a[0]) == LowerChar(b[0])
    ensures Lower(a[1..]) == Lower(b[1..])
  {
    assert |Lower(a)| == |a| && |Lower(b)| == |b|;
    assert Lower(a)[0] == Lower(b)[0];
    forall i | 0 <= i < |a| - 1 ensures Lower(a[1..])[i] == Lower(b[1..])[i] {
      assert Lower(a)[i + 1] == Lower(b)[i + 1];
    }
  }

  lemma LowerInit(a: string, b: string)
    requires Lower(a) == Lower(b) && a != []
    ensures |b| == |a| && LowerChar(a[|a| - 1]) == LowerChar(b[|b| - 1])
    ensures Lower(a[..|a| - 1]) == Lower(b[..|b| - 1])
  {
    assert |Lower(a)| == |a| && |Lower(b)| == |b|;
    assert Lower(a)[|a| - 1] == Lower(b)[|a| - 1];
    var a', b' := a[..|a| - 1], b[..|b| - 1];
    forall i | 0 <= i < |a'| ensures Lower(a')[i] == Lower(b')[i] {
      assert Lower(a)[i] == Lower(b)[i];
    }
  }

  lemma SpaceIgnoresCase(c: char, d: char)
    requires LowerChar(c) == LowerChar(d)
    ensures IsSpace(c) <==> IsSpace(d)
  {
  }

  /** Texts equal up to ASCII case have the same number of words. */
  lemma {:induction false} WordStartsIgnoreCase(a: string, b: string, atStart: bool)
    requires Lower(a) == Lower(b)
    ensures WordStarts(a, atStart) == WordStarts(b, atStart)
    decreases |a|
  {
    assert |Lower(a)| == |a| && |Lower(b)| == |b|;
    if a != [] {
      LowerTail(a, b);
      SpaceIgnoresCase(a[0], b[0]);
      WordStartsIgnoreCase(a[1..], b[1..], IsSpace(a[0]));
    }
  }

  /** Texts equal up to ASCII case are trimmed at the same places. */
  lemma {:induction false} TrimIgnoresCase(a: string, b: string)
    requires Lower(a) == Lower(b)
    ensures Lower(Trim(a)) == Lower(Trim(b))
  {
    TrimStartIgnoresCase(a, b);
    TrimEndIgnoresCase(TrimStart(a), TrimStart(b));
  }

  lemma {:induction false} TrimStartIgnoresCase(a: string, b: string)
    requires Lower(a) == Lower(b)
    ensures Lower(TrimStart(a)) == Lower(TrimStart(b))
    decreases |a|
  {
    assert |Lower(a)| == |a| && |Lower(b)| == |b|;
    if a != [] {
      LowerTail(a, b);
      SpaceIgnoresCase(a[0], b[0]);
      if IsSpace(a[0]) {
        TrimStartIgnoresCase(a[1..], b[1..]);
      }
    }
  }

  lemma {:induction false} TrimEndIgnoresCase(a: string, b: string)
    requires Lower(a) == Lower(b)
    ensures Lower(TrimEnd(a)) == Lower(TrimEnd(b))
    decreases |a|
  {
    assert |Lower(a)| == |a| && |Lower(b)| == |b|;
    if a != [] {
      LowerInit(a, b);
      SpaceIgnoresCase(a[|a| - 1], b[|b| - 1]);
      if IsSpace(a[|a| - 1]) {
        TrimEndIgnoresCase(a[..|a| - 1], b[..|b| - 1]);
      }
    }
  }
}
