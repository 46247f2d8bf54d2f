/** Decimal numerals, as Sprintf's %d prints a non-negative number. */
module Decimal {
  function Digit(d: int): (c: char)
    requires 0 <= d < 10
  {
    "0123456789"[d]
  }

  predicate IsDigit(c: char) {
    '0' <= c <= '9'
  }

  predicate AllDigits(s: string) {
    forall i :: 0 <= i < |s| ==> IsDigit(s[i])
  }

  function Print(n: nat): string {
    if n < 10 then [Digit(n)] else Print(n / 10) + [Digit(n % 10)]
  }

  function Value(s: string): nat
    requires AllDigits(s)
  {
    if s == [] then 0 else Value(s[..|s| - 1]) * 10 + (s[|s| - 1] as int - '0' as int)
  }

  lemma {:induction false} ValueOfPrint(n: nat)
    ensures Print(n) != [] && AllDigits(Print(n)) && Value(Print(n)) == n
  {
    if n >= 10 {
      ValueOfPrint(n / 10);
      assert Print(n)[..|Print(n)| - 1] == Print(n / 10);
    } else {
      assert Value(Print(n)[..0]) == 0;
    }
  }

  lemma PrintIsInjective(m: nat, n: nat)
    requires Print(m) == Print(n)
    ensures m == n
  {
    ValueOfPrint(m);
    ValueOfPrint(n);
  }

  function TenTo(k: nat): nat {
    if k == 0 then 1 else 10 * TenTo(k - 1)
  }

  /** The first digit of a numeral is its highest. */
  lemma {:induction false} ValueOfCons(c: char, s: string)
    requires IsDigit(c) && AllDigits(s)
    ensures AllDigits([c] + s) && Value([c] + s) == (c as int - '0' as int) * TenTo(|s|) + Value(s)
  {
    if s == [] {
      assert ([c] + s)[..0] == [];
    } else {
      var n := |s| - 1;
      ValueOfCons(c, s[..n]);
      assert ([c] + s)[..|s|] == [c] + s[..n];
      TenTimes(c as int - '0' as int, TenTo(n));
    }
  }

  lemma TenTimes(d: int, p: int)
    ensures (d * p) * 10 == d * (10 * p)
  {
  }

  /** Numbers are printed without a leading zero. */
  lemma {:induction false} NoLeadingZero(n: nat)
    ensures Print(n) != [] && (Print(n)[0] == '0' ==> n == 0 && Print(n) == "0")
  {
    if n >= 10 {
      NoLeadingZero(n / 10);
    }
  }
}
