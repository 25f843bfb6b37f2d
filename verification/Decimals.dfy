/** Numbers as they appear in generated strings. */
module Decimals {
  predicate IsDigit(c: char) {
    '0' <= c <= '9'
  }

  predicate AllDigits(s: string) {
    forall i :: 0 <= i < |s| ==> IsDigit(s[i])
  }

  function Digit(d: nat): char
    requires d < 10
  {
    '0' + d as char
  }

  function Decimal(n: nat): string {
    if n < 10 then [Digit(n)] else Decimal(n / 10) + [Digit(n % 10)]
  }

  function Value(s: string): nat
    requires AllDigits(s)
  {
    if s == [] then 0 else Value(s[..|s| - 1]) * 10 + (s[|s| - 1] - '0') as nat
  }

  /** Printing and reading back a number. */
  lemma {:induction false} DecimalRoundTrip(n: nat)
    ensures |Decimal(n)| > 0 && AllDigits(Decimal(n)) && Value(Decimal(n)) == n
  {
    if n >= 10 {
      DecimalRoundTrip(n / 10);
      assert Decimal(n)[..|Decimal(n)| - 1] == Decimal(n / 10);
    } else {
      assert Decimal(n)[..0] == [];
    }
  }

  lemma DecimalIsInjective(m: nat, n: nat)
    requires Decimal(m) == Decimal(n)
    ensures m == n
  {
    DecimalRoundTrip(m);
    DecimalRoundTrip(n);
  }
}
