/**
 * The part of ECMAScript string behaviour the bookmark pipeline relies on:
 * `String.prototype.trim`, which removes the code points of the WhiteSpace
 * and LineTerminator productions (ECMA-262, sections 12.2 and 12.3) from
 * both ends of a string.
 */
module JsString {

  /** WhiteSpace (TAB, VT, FF, ZWNBSP, and the Zs space separators) or LineTerminator (LF, CR, LS, PS). */
  predicate IsTrimmable(c: char)
  {
    var n := c as int;
    n == 0x09 || n == 0x0A || n == 0x0B || n == 0x0C || n == 0x0D || n == 0x20
    || n == 0xA0 || n == 0x1680 || (0x2000 <= n <= 0x200A) || n == 0x2028 || n == 0x2029
    || n == 0x202F || n == 0x205F || n == 0x3000 || n == 0xFEFF
  }

  /** The number of trimmable code points `s` starts with. */
  function LeadingCount(s: string): (n: nat)
    ensures n <= |s|
    ensures forall i :: 0 <= i < n ==> IsTrimmable(s[i])
    ensures n == |s| || !IsTrimmable(s[n])
  {
    if s == [] || !IsTrimmable(s[0]) then 0
    else
      var m := LeadingCount(s[1..]);
      assert forall i :: 1 <= i < 1 + m ==> s[i] == s[1..][i - 1];
      1 + m
  }

  /** The number of trimmable code points `s` ends with. */
  function TrailingCount(s: string): (n: nat)
    ensures n <= |s|
    ensures forall i :: |s| - n <= i < |s| ==> IsTrimmable(s[i])
    ensures n == |s| || !IsTrimmable(s[|s| - 1 - n])
  {
    if s == [] || !IsTrimmable(s[|s| - 1]) then 0
    else
      var m := TrailingCount(s[..|s| - 1]);
      assert forall i :: 0 <= i < |s| - 1 ==> s[i] == s[..|s| - 1][i];
      1 + m
  }

  /** `s.trim()`: the part of `s` between its leading and its trailing trimmable code points. */
  function Trim(s: string): (r: string)
    ensures LeadingCount(s) + |r| <= |s| && r == s[LeadingCount(s)..LeadingCount(s) + |r|]
    ensures forall i :: LeadingCount(s) + |r| <= i < |s| ==> IsTrimmable(s[i])
    ensures r == [] || (!IsTrimmable(r[0]) && !IsTrimmable(r[|r| - 1]))
  {
    var k := LeadingCount(s);
    var n := TrailingCount(s[k..]);
    assert forall i :: |s| - n <= i < |s| ==> s[i] == s[k..][i - k];
    assert n < |s| - k ==> s[|s| - 1 - n] == s[k..][|s| - k - 1 - n];
    s[k..|s| - n]
  }

  /** A count that meets LeadingCount's contract is LeadingCount. */
  lemma LeadingCountUnique(s: string, j: nat)
    requires j <= |s|
    requires forall i :: 0 <= i < j ==> IsTrimmable(s[i])
    requires j == |s| || !IsTrimmable(s[j])
    ensures LeadingCount(s) == j
  {
  }

  /** A count that meets TrailingCount's contract is TrailingCount. */
  lemma TrailingCountUnique(s: string, j: nat)
    requires j <= |s|
    requires forall i :: |s| - j <= i < |s| ==> IsTrimmable(s[i])
    requires j == |s| || !IsTrimmable(s[|s| - 1 - j])
    ensures TrailingCount(s) == j
  {
  }

  predicate AllTrimmable(s: string)
  {
    forall i :: 0 <= i < |s| ==> IsTrimmable(s[i])
  }

  /**
   * `trim` is determined by its contract: whatever is split off the two ends must be
   * trimmable, and what remains must start and end with a code point that is not.
   */
  lemma TrimCharacterized(pre: string, mid: string, post: string)
    requires AllTrimmable(pre) && AllTrimmable(post)
    requires mid == [] || (!IsTrimmable(mid[0]) && !IsTrimmable(mid[|mid| - 1]))
    ensures Trim(pre + mid + post) == mid
  {
    var s := pre + mid + post;
    assert forall i :: 0 <= i < |pre| ==> s[i] == pre[i];
    assert forall i :: |pre| + |mid| <= i < |s| ==> s[i] == post[i - |pre| - |mid|];
    if mid == [] {
      LeadingCountUnique(s, |s|);
    } else {
      assert s[|pre|] == mid[0];
      LeadingCountUnique(s, |pre|);
      var t := s[|pre|..];
      assert t == mid + post;
      assert forall i :: |mid| <= i < |t| ==> t[i] == post[i - |mid|];
      assert t[|t| - 1 - |post|] == mid[|mid| - 1];
      TrailingCountUnique(t, |post|);
      assert t[..|t| - |post|] == mid;
    }
  }

  /** Trimming twice is trimming once. */
  lemma TrimIdempotent(s: string)
    ensures Trim(Trim(s)) == Trim(s)
  {
  }
}
