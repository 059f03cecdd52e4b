/** Decimal numerals, as a template literal prints a non-negative integer. */
module Decimal {

  predicate IsDigits(s: string) {
    forall i :: 0 <= i < |s| ==> '0' <= s[i] <= '9'
  }

  function Numeral(n: nat): (s: string)
    ensures |s| >= 1 && IsDigits(s)
  {
    if n < 10 then ['0' + n as char] else Numeral(n / 10) + ['0' + (n % 10) as char]
  }

  function Parse(s: string): nat
    requires IsDigits(s)
  {
    if s == "" then 0 else 10 * Parse(s[..|s| - 1]) + (s[|s| - 1] - '0') as nat
  }

  /** A numeral names its number, so a reader of the printed text recovers it. */
  lemma {:induction false} ParseNumeral(n: nat)
    ensures Parse(Numeral(n)) == n
  {
    if n >= 10 {
      ParseNumeral(n / 10);
      var s := Numeral(n);
      assert s[..|s| - 1] == Numeral(n / 10);
    }
  }

  lemma {:induction false} NumeralLengthMonotone(m: nat, n: nat)
    requires m <= n
    ensures |Numeral(m)| <= |Numeral(n)|
  {
    if n >= 10 && m >= 10 {
      NumeralLengthMonotone(m / 10, n / 10);
    }
  }

  function Pow10(k: nat): nat {
    if k == 0 then 1 else 10 * Pow10(k - 1)
  }

  lemma {:induction false} Pow10Sum(j: nat, k: nat)
    ensures Pow10(j + k) == Pow10(j) * Pow10(k)
  {
    if j > 0 {
      Pow10Sum(j - 1, k);
    }
  }

  lemma {:induction false} NumeralLengthBound(n: nat, k: nat)
    requires 1 <= k && n < Pow10(k)
    ensures |Numeral(n)| <= k
  {
    if n >= 10 {
      NumeralLengthBound(n / 10, k - 1);
    }
  }
}
