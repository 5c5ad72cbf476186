/** The pieces of Python's `re` engine that the classifier's patterns use:
    the word boundary `\b`, greedy runs of one character class and the
    leftmost-match search of `re.search`. */
module Regex {
  import opened Common
  import opened Text

  /** `\b` at position `i` of `s`: exactly one of the characters on either
      side of `i` is a word character (the ends of `s` count as non-word). */
  predicate Boundary(s: string, i: nat)
  {
    i <= |s| && ((0 < i && IsWordChar(s[i - 1])) != (i < |s| && IsWordChar(s[i])))
  }

  /** Every character of `s[i..j]` is in class `c`. */
  ghost predicate AllIn(s: string, i: nat, j: nat, c: char -> bool)
  {
    i <= j <= |s| && forall k :: i <= k < j ==> c(s[k])
  }

  /** Length of the longest run of class-`c` characters starting at `i`:
      what a greedy `[c]*` consumes there. */
  function RunLen(s: string, i: nat, c: char -> bool): (n: nat)
    decreases |s| - i
    ensures i <= |s| ==> AllIn(s, i, i + n, c)
    ensures i + n >= |s| || !c(s[i + n])
    ensures i > |s| ==> n == 0
  {
    if i < |s| && c(s[i]) then 1 + RunLen(s, i + 1, c) else 0
  }

  /** A run of class-`c` characters from `i` never reaches past the
      greedy run there. */
  lemma RunIsMaximal(s: string, i: nat, j: nat, c: char -> bool)
    requires AllIn(s, i, j, c)
    ensures j <= i + RunLen(s, i, c)
  {
  }

  /** A run of class-`c` characters from `i` to `j` that stops at a
      character outside `c` (or at the end) is the greedy run. */
  lemma RunLenExact(s: string, i: nat, j: nat, c: char -> bool)
    requires AllIn(s, i, j, c) && (j == |s| || !c(s[j]))
    ensures RunLen(s, i, c) == j - i
  {
    RunIsMaximal(s, i, j, c);
  }

  /** The leftmost position `p` in `from..|s|` at which the anchored matcher
      `m` succeeds, with its match: `re.search` tries each start position in
      turn and reports the first success. */
  function FirstMatch<T>(s: string, from: nat, m: (string, nat) -> Option<T>): (r: Option<(nat, T)>)
    decreases |s| + 1 - from
    ensures r.Some? ==> from <= r.value.0 <= |s| && m(s, r.value.0) == Some(r.value.1)
    ensures r.Some? ==> forall p :: from <= p < r.value.0 ==> m(s, p).None?
    ensures r.None? ==> forall p :: from <= p <= |s| ==> m(s, p).None?
  {
    if from > |s| then None
    else
      match m(s, from)
      case Some(v) => Some((from, v))
      case None => FirstMatch(s, from + 1, m)
  }
}
