/** Numbers in decimal notation (`strconv.Itoa`, `%d`). */
module Decimal {

  const DIGITS := "0123456789"

  function Itoa(n: nat): (s: string)
    ensures s != ""
  {
    if n < 10 then [DIGITS[n]] else Itoa(n / 10) + [DIGITS[n % 10]]
  }

  function Digit(c: char): int {
    c as int - '0' as int
  }

  /** The number a string of digits denotes. */
  function Value(s: string): int {
    if s == "" then 0 else Value(s[..|s| - 1]) * 10 + Digit(s[|s| - 1])
  }

  lemma {:induction false} ValueOfItoa(n: nat)
    ensures Value(Itoa(n)) == n
  {
    assert forall d :: 0 <= d < 10 ==> Digit(DIGITS[d]) == d;
    if n < 10 {
      assert Itoa(n)[..0] == "";
    } else {
      ValueOfItoa(n / 10);
      assert Itoa(n)[..|Itoa(n)| - 1] == Itoa(n / 10);
    }
  }

  /** Decimal text has digits only, and no zero in front of others. */
  lemma {:induction false} ItoaDigits(n: nat)
    ensures forall i :: 0 <= i < |Itoa(n)| ==> '0' <= Itoa(n)[i] <= '9'
    ensures n > 0 ==> Itoa(n)[0] != '0'
  {
    assert forall d :: 0 <= d < 10 ==> '0' <= DIGITS[d] <= '9' && (DIGITS[d] == '0' ==> d == 0);
    if n >= 10 {
      ItoaDigits(n / 10);
    }
  }

  /** Different numbers are written differently. */
  lemma {:induction false} ItoaInjective(m: nat, n: nat)
    requires Itoa(m) == Itoa(n)
    ensures m == n
  {
    ValueOfItoa(m);
    ValueOfItoa(n);
  }
}
