/**
 * `isEmptyString`: `!string || string.trim().length === 0`. A Dafny string is
 * never null or undefined, so the first operand is true only of `""`.
 */
module Blank {
  import opened Chars

  /** The first position at or after `k` that does not hold whitespace (or the end). */
  function SkipLeading(s: string, k: nat): (lo: nat)
    requires k <= |s|
    ensures k <= lo <= |s|
    ensures forall i :: k <= i < lo ==> IsWhitespace(s[i])
    ensures lo == |s| || !IsWhitespace(s[lo])
    decreases |s| - k
  {
    if k < |s| && IsWhitespace(s[k]) then SkipLeading(s, k + 1) else k
  }

  /** The end of `s[lo..k]` once the whitespace it ends with is dropped. */
  function SkipTrailing(s: string, lo: nat, k: nat): (hi: nat)
    requires lo <= k <= |s|
    ensures lo <= hi <= k
    ensures forall i :: hi <= i < k ==> IsWhitespace(s[i])
    ensures hi == lo || !IsWhitespace(s[hi - 1])
    decreases k
  {
    if k > lo && IsWhitespace(s[k - 1]) then SkipTrailing(s, lo, k - 1) else k
  }

  /** `String.prototype.trim`: leading whitespace removed, then trailing whitespace. */
  function Trim(s: string): string {
    var lo := SkipLeading(s, 0);
    s[lo..SkipTrailing(s, lo, |s|)]
  }

  /** `!string || string.trim().length === 0` for a string argument. */
  predicate IsEmptyString(s: string) {
    s == "" || |Trim(s)| == 0
  }

  /** Trimming keeps a contiguous slice of the input that neither starts nor ends with whitespace. */
  lemma TrimSlice(s: string) returns (lo: nat, hi: nat)
    ensures lo <= hi <= |s| && Trim(s) == s[lo..hi]
    ensures forall i :: 0 <= i < lo ==> IsWhitespace(s[i])
    ensures forall i :: hi <= i < |s| ==> IsWhitespace(s[i])
    ensures lo < hi ==> !IsWhitespace(s[lo]) && !IsWhitespace(s[hi - 1])
  {
    lo := SkipLeading(s, 0);
    hi := SkipTrailing(s, lo, |s|);
  }

  /** The string is blank exactly when every character of it is whitespace. */
  lemma BlankIffAllWhitespace(s: string)
    ensures IsEmptyString(s) <==> forall i :: 0 <= i < |s| ==> IsWhitespace(s[i])
  {
  }

  /** Trimming twice is trimming once. */
  lemma TrimIdempotent(s: string)
    ensures Trim(Trim(s)) == Trim(s)
  {
  }

  lemma BlankExamples()
    ensures IsEmptyString("")
    ensures IsEmptyString("   ")
    ensures IsEmptyString("\t\n\U{3000}")
  {
  }

  lemma NonBlankExamples()
    ensures !IsEmptyString("a")
    ensures !IsEmptyString("  a ")
  {
  }
}
