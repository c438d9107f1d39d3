/** Decimal text: Rust's `format!("{}", n)` for unsigned integers and `str::parse` back. */
module Decimal {
  import opened Common

  predicate IsDigit(c: char) {
    '0' <= c <= '9'
  }

  predicate AllDigits(s: string) {
    forall i :: 0 <= i < |s| ==> IsDigit(s[i])
  }

  function Dec(n: nat): string {
    if n < 10 then [(48 + n) as char] else Dec(n / 10) + [(48 + n % 10) as char]
  }

  function Value(s: string): nat
    requires AllDigits(s)
  {
    if s == [] then 0 else Value(s[..|s| - 1]) * 10 + (s[|s| - 1] as int - 48)
  }

  /** `str::parse` for an unsigned type of `bound` values: an optional plus sign, then
      at least one digit, and no overflow. */
  function ParseUnsigned(s: string, bound: nat): Option<nat> {
    var digits := if s != [] && s[0] == '+' then s[1..] else s;
    if digits != [] && AllDigits(digits) && Value(digits) < bound then Some(Value(digits)) else None
  }

  /** Printing gives digits only, and reading them back gives the number. */
  lemma {:induction false} DecRoundTrip(n: nat)
    ensures AllDigits(Dec(n)) && |Dec(n)| >= 1 && Value(Dec(n)) == n
  {
    if n >= 10 {
      DecRoundTrip(n / 10);
      assert Dec(n)[..|Dec(n)| - 1] == Dec(n / 10);
    } else {
      assert Dec(n)[..0] == [];
    }
  }

  lemma ParseDec(n: nat, bound: nat)
    ensures ParseUnsigned(Dec(n), bound) == if n < bound then Some(n) else None
  {
    DecRoundTrip(n);
    assert IsDigit(Dec(n)[0]);
  }

  lemma DecInjective(m: nat, n: nat)
    requires Dec(m) == Dec(n)
    ensures m == n
  {
    DecRoundTrip(m);
    DecRoundTrip(n);
  }

  lemma DecHasNo(c: char, n: nat)
    requires !IsDigit(c)
    ensures c !in Dec(n)
  {
    DecRoundTrip(n);
  }

  function Pow10(k: nat): nat {
    if k == 0 then 1 else 10 * Pow10(k - 1)
  }

  lemma {:induction false} DecLength(n: nat, k: nat)
    requires k >= 1 && n < Pow10(k)
    ensures 1 <= |Dec(n)| <= k
  {
    if n >= 10 {
      assert k >= 2;
      DecLength(n / 10, k - 1);
    }
  }
}
