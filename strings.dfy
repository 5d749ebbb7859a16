/** The string operations the pipeline applies: `str(i)` of an index,
    `.replace(' ', '_')`, `.split('/')[-1]` and `.endswith(...)`. */
module Strings {

  predicate IsDigit(c: char) {
    '0' <= c <= '9'
  }

  function DigitChar(d: nat): (c: char)
    requires d < 10
    ensures IsDigit(c)
  {
    "0123456789"[d]
  }

  function DigitValue(c: char): nat
    requires IsDigit(c)
  {
    (c as int - '0' as int) as nat
  }

  /** Python's `str(n)` for a non-negative int: its decimal digits. */
  function NatToString(n: nat): (r: string)
    ensures |r| > 0
    ensures forall k :: 0 <= k < |r| ==> IsDigit(r[k])
    ensures |r| > 1 ==> r[0] != '0'
  {
    if n < 10 then [DigitChar(n)] else NatToString(n / 10) + [DigitChar(n % 10)]
  }

  /** Reads a string of decimal digits back as a number (the partner of NatToString). */
  function ParseNat(s: string): nat
    requires forall k :: 0 <= k < |s| ==> IsDigit(s[k])
  {
    if s == [] then 0 else 10 * ParseNat(s[..|s| - 1]) + DigitValue(s[|s| - 1])
  }

  lemma {:induction false} ParseNatToString(n: nat)
    ensures ParseNat(NatToString(n)) == n
  {
    var s := NatToString(n);
    if n < 10 {
      assert s[..0] == [];
    } else {
      var front := NatToString(n / 10);
      assert s[..|s| - 1] == front;
      ParseNatToString(n / 10);
    }
  }

  /** Distinct indexes print differently. */
  lemma NatToStringInjective(i: nat, j: nat)
    requires NatToString(i) == NatToString(j)
    ensures i == j
  {
    ParseNatToString(i);
    ParseNatToString(j);
  }

  /** `s.replace(' ', '_')`: every space becomes an underscore, nothing else changes. */
  function ReplaceSpaces(s: string): (r: string)
    ensures |r| == |s|
    ensures forall k :: 0 <= k < |s| ==> r[k] == (if s[k] == ' ' then '_' else s[k])
    ensures ' ' !in r
  {
    if s == [] then []
    else [if s[0] == ' ' then '_' else s[0]] + ReplaceSpaces(s[1..])
  }

  lemma ReplaceSpacesKeepsSpaceFree(s: string)
    requires ' ' !in s
    ensures ReplaceSpaces(s) == s
  {
    var r := ReplaceSpaces(s);
    assert forall k :: 0 <= k < |s| ==> r[k] == s[k];
  }

  /** `key.split('/')[-1]`: the part of `key` after its last '/', or all of it. */
  function LastSegment(key: string): string {
    if key == [] || key[|key| - 1] == '/' then []
    else LastSegment(key[..|key| - 1]) + [key[|key| - 1]]
  }

  /** The last segment is the longest '/'-free suffix of the key. */
  lemma {:induction false} LastSegmentSpec(key: string)
    ensures var r := LastSegment(key);
      && |r| <= |key| && key[|key| - |r|..] == r
      && '/' !in r
      && (|r| < |key| ==> key[|key| - |r| - 1] == '/')
  {
    if key != [] && key[|key| - 1] != '/' {
      var front := key[..|key| - 1];
      LastSegmentSpec(front);
      var r := LastSegment(front);
      var c := key[|key| - 1];
      assert LastSegment(key) == r + [c];
      assert key == front + [c];
      assert '/' !in r + [c];
      assert key[|key| - |r| - 1..] == front[|front| - |r|..] + [c];
    }
  }

  predicate EndsWith(s: string, suffix: string) {
    |suffix| <= |s| && s[|s| - |suffix|..] == suffix
  }
}
