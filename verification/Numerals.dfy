// Digits, as fmt prints them and as readers take them.
module Numerals {
  const DIGITS := "0123456789abcdef"

  function DigitOf(n: nat): char
    requires n < 16
  {
    DIGITS[n]
  }

  // Readers take both cases.
  function DigitValue(c: char): int {
    if '0' <= c <= '9' then c as int - '0' as int
    else if 'a' <= c <= 'f' then c as int - 'a' as int + 10
    else if 'A' <= c <= 'F' then c as int - 'A' as int + 10
    else -1
  }

  lemma {:induction false} DigitReadsBack(n: nat)
    requires n < 16
    ensures DigitValue(DigitOf(n)) == n && DigitOf(n) as int < 128
    ensures n < 10 <==> '0' <= DigitOf(n) <= '9'
  {
    var c := DigitOf(n);
    assert n < 10 ==> c as int == '0' as int + n;
    assert n >= 10 ==> c as int == 'a' as int + (n - 10);
  }

  // A number as %d prints it.
  function Decimal(n: nat): (s: string)
    ensures s != ""
    decreases n
  {
    (if n < 10 then "" else Decimal(n / 10)) + [DigitOf(n % 10)]
  }

  // Different numbers print differently.
  lemma {:induction false} DecimalIsInjective(m: nat, n: nat)
    requires Decimal(m) == Decimal(n)
    ensures m == n
    decreases m
  {
    var x, y := Decimal(m), Decimal(n);
    assert x[|x| - 1] == DigitOf(m % 10) && y[|y| - 1] == DigitOf(n % 10);
    DigitReadsBack(m % 10);
    DigitReadsBack(n % 10);
    assert x[..|x| - 1] == if m < 10 then "" else Decimal(m / 10);
    assert y[..|y| - 1] == if n < 10 then "" else Decimal(n / 10);
    if m >= 10 && n >= 10 {
      DecimalIsInjective(m / 10, n / 10);
    }
  }

  lemma {:induction false} DecimalGrows(m: nat, n: nat)
    requires m <= n
    ensures |Decimal(m)| <= |Decimal(n)|
    decreases n
  {
    if m >= 10 {
      DecimalGrows(m / 10, n / 10);
    }
  }

  predicate EndsInDigit(s: string) {
    s != "" && '0' <= s[|s| - 1] <= '9'
  }

  lemma {:induction false} DecimalEndsInDigit(s: string, n: nat)
    ensures EndsInDigit(s + Decimal(n))
  {
    DigitReadsBack(n % 10);
    var t := s + Decimal(n);
    assert t[|t| - 1] == DigitOf(n % 10);
  }
}
