/** Decimal rendering of the line counter, as strings::StrCat prints an
    integer: ASCII digits, most significant first, no leading zero. */
module Decimal {
  import opened Odbc

  const ZERO: byte := 48
  const COLON: byte := 58

  predicate IsDigit(b: byte) {
    ZERO <= b <= ZERO + 9
  }

  predicate AllDigits(s: Bytes) {
    forall i | 0 <= i < |s| :: IsDigit(s[i])
  }

  function Digits(n: nat): (s: Bytes)
    ensures 1 <= |s|
    ensures AllDigits(s)
    ensures s[0] == ZERO ==> n == 0
    decreases n
  {
    if n < 10 then [ZERO + n] else Digits(n / 10) + [ZERO + n % 10]
  }

  /** The value of a digit string, read most significant digit first. */
  function Parse(s: Bytes): nat
    requires AllDigits(s)
  {
    if s == [] then 0 else Parse(s[..|s| - 1]) * 10 + (s[|s| - 1] - ZERO) as nat
  }

  /** Reading back the rendered number gives the number. */
  lemma {:induction false} ParseDigits(n: nat)
    ensures Parse(Digits(n)) == n
    decreases n
  {
    if n >= 10 {
      var s := Digits(n);
      assert s[..|s| - 1] == Digits(n / 10);
      ParseDigits(n / 10);
    }
  }

  /** Distinct numbers render as distinct strings. */
  lemma DigitsInjective(n: nat, m: nat)
    requires Digits(n) == Digits(m)
    ensures n == m
  {
    ParseDigits(n);
    ParseDigits(m);
  }
}
