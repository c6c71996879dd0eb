/**
 * `String.prototype.trim` as ECMAScript defines it: white space and line
 * terminators are removed from both ends (sections 12.2 and 12.3 and 22.1.3.32 of
 * ECMA-262, 2024 edition).
 */
module JsString {

  /** The ECMAScript WhiteSpace code points (TAB, VT, FF, ZWNBSP and the Zs category) and LineTerminators. */
  predicate IsWhiteSpace(c: char) {
    || c == '\t' || c == '\U{000B}' || c == '\U{000C}' || c == '\U{FEFF}'
    || c == ' ' || c == '\U{00A0}' || c == '\U{1680}' || ('\U{2000}' <= c <= '\U{200A}')
    || c == '\U{202F}' || c == '\U{205F}' || c == '\U{3000}'
    || c == '\n' || c == '\r' || c == '\U{2028}' || c == '\U{2029}'
  }

  function LeadingEnd(s: string, i: nat): (lo: nat)
    requires i <= |s|
    requires forall k :: 0 <= k < i ==> IsWhiteSpace(s[k])
    ensures i <= lo <= |s|
    ensures forall k :: 0 <= k < lo ==> IsWhiteSpace(s[k])
    ensures lo < |s| ==> !IsWhiteSpace(s[lo])
    decreases |s| - i
  {
    if i < |s| && IsWhiteSpace(s[i]) then LeadingEnd(s, i + 1) else i
  }

  function TrailingStart(s: string, lo: nat, j: nat): (hi: nat)
    requires lo <= j <= |s|
    requires forall k :: j <= k < |s| ==> IsWhiteSpace(s[k])
    ensures lo <= hi <= j
    ensures forall k :: hi <= k < |s| ==> IsWhiteSpace(s[k])
    ensures lo < hi ==> !IsWhiteSpace(s[hi - 1])
    decreases j
  {
    if lo < j && IsWhiteSpace(s[j - 1]) then TrailingStart(s, lo, j - 1) else j
  }

  /**
   * The bounds of the trimmed part: everything outside them is white space and,
   * when the part is not empty, it neither starts nor ends with white space.
   */
  function TrimBounds(s: string): (b: (nat, nat))
    ensures b.0 <= b.1 <= |s|
    ensures forall k :: 0 <= k < b.0 ==> IsWhiteSpace(s[k])
    ensures forall k :: b.1 <= k < |s| ==> IsWhiteSpace(s[k])
    ensures b.0 < b.1 ==> !IsWhiteSpace(s[b.0]) && !IsWhiteSpace(s[b.1 - 1])
  {
    var lo := LeadingEnd(s, 0);
    (lo, TrailingStart(s, lo, |s|))
  }

  function Trim(s: string): (r: string)
    ensures |r| <= |s|
    ensures r != "" ==> !IsWhiteSpace(r[0]) && !IsWhiteSpace(r[|r| - 1])
    ensures r == "" <==> forall k :: 0 <= k < |s| ==> IsWhiteSpace(s[k])
  {
    var b := TrimBounds(s);
    s[b.0..b.1]
  }

  /** Any cut that keeps only white space outside and none at the ends of the kept part is the trim. */
  lemma TrimUnique(s: string, lo: nat, hi: nat)
    requires lo <= hi <= |s|
    requires forall k :: 0 <= k < lo ==> IsWhiteSpace(s[k])
    requires forall k :: hi <= k < |s| ==> IsWhiteSpace(s[k])
    requires lo < hi ==> !IsWhiteSpace(s[lo]) && !IsWhiteSpace(s[hi - 1])
    ensures s[lo..hi] == Trim(s)
  {
  }

  lemma TrimIdempotent(s: string)
    ensures Trim(Trim(s)) == Trim(s)
  {
  }
}
