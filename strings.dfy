/**
 * String helpers with Python's meaning: `str(n)` for a non-negative integer,
 * `s.startswith(p)` and `sub in s`, and the ASCII character classes used by
 * the document-number patterns.
 */
module Strings {

  predicate IsDigit(c: char) {
    '0' <= c <= '9'
  }

  predicate IsUpper(c: char) {
    'A' <= c <= 'Z'
  }

  predicate AllDigits(s: string) {
    forall i :: 0 <= i < |s| ==> IsDigit(s[i])
  }

  function Pow10(k: nat): (p: nat)
    ensures p >= 1
  {
    if k == 0 then 1 else 10 * Pow10(k - 1)
  }

  function DigitChar(d: nat): (c: char)
    requires d < 10
    ensures IsDigit(c)
  {
    "0123456789"[d]
  }

  /** Python's `str(n)` for `n >= 0`: decimal digits without leading zeros. */
  function NatToString(n: nat): (s: string)
    ensures |s| >= 1 && AllDigits(s)
    ensures n >= 10 ==> s[0] != '0'
  {
    if n < 10 then [DigitChar(n)]
    else
      var prefix := NatToString(n / 10);
      assert (prefix + [DigitChar(n % 10)])[0] == prefix[0];
      prefix + [DigitChar(n % 10)]
  }

  lemma {:induction false} DivideDigitRange(n: nat, k: nat)
    requires k >= 2 && Pow10(k - 1) <= n < Pow10(k)
    ensures Pow10(k - 2) <= n / 10 < Pow10(k - 1)
  {
    assert Pow10(k - 1) == 10 * Pow10(k - 2);
    assert Pow10(k) == 10 * Pow10(k - 1);
  }

  /** A number in `[10^(k-1), 10^k - 1]` is written with exactly `k` digits. */
  lemma {:induction false} NatToStringLength(n: nat, k: nat)
    requires k >= 1 && Pow10(k - 1) <= n < Pow10(k)
    ensures |NatToString(n)| == k
  {
    if k == 1 {
      assert Pow10(1) == 10;
    } else {
      assert Pow10(k - 1) >= 10 by {
        PowMonotone(1, k - 1);
      }
      DivideDigitRange(n, k);
      NatToStringLength(n / 10, k - 1);
    }
  }

  lemma {:induction false} PowMonotone(a: nat, b: nat)
    requires a <= b
    ensures Pow10(a) <= Pow10(b)
  {
    if a < b {
      PowMonotone(a, b - 1);
    }
  }

  predicate StartsWith(s: string, prefix: string) {
    |prefix| <= |s| && s[..|prefix|] == prefix
  }

  /** Python's `sub in s`: `sub` starts at some position of `s`. */
  predicate Contains(s: string, sub: string) {
    StartsWith(s, sub) || (|s| > 0 && Contains(s[1..], sub))
  }

  /** A string cannot contain a pattern one of whose characters it lacks. */
  lemma {:induction false} MissingCharNotContained(s: string, sub: string, c: char)
    requires c in sub && c !in s
    ensures !Contains(s, sub)
  {
    if |s| > 0 {
      assert c !in s[1..] by {
        assert forall i :: 0 <= i < |s| - 1 ==> s[1..][i] == s[i + 1];
      }
      MissingCharNotContained(s[1..], sub, c);
    }
  }
}
