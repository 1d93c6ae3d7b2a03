/** Decimal numerals as the program prints them, and what can be read back from them. A string is a
    sequence of bytes. */
module Text {
  predicate IsDigit(c: char) {
    '0' <= c <= '9'
  }

  predicate IsNumeral(s: string) {
    forall i | 0 <= i < |s| :: IsDigit(s[i])
  }

  function DigitOf(d: nat): char
    requires d < 10
  {
    "0123456789"[d]
  }

  function Decimal(n: nat): (s: string)
    ensures s != [] && IsNumeral(s)
    ensures n < 10 <==> |s| == 1
  {
    if n < 10 then [DigitOf(n)] else Decimal(n / 10) + [DigitOf(n % 10)]
  }

  function Value(s: string): nat
    requires IsNumeral(s)
  {
    if s == [] then 0 else Value(s[..|s| - 1]) * 10 + (s[|s| - 1] as int - '0' as int)
  }

  lemma {:induction false} DecimalRoundTrip(n: nat)
    ensures Value(Decimal(n)) == n
  {
    if n >= 10 {
      DecimalRoundTrip(n / 10);
      assert Decimal(n)[..|Decimal(n)| - 1] == Decimal(n / 10);
      DigitValue(n % 10);
    } else {
      DigitValue(n);
    }
  }

  lemma DigitValue(d: nat)
    requires d < 10
    ensures IsDigit(DigitOf(d)) && DigitOf(d) as int - '0' as int == d
  {
    assert d == 0 || d == 1 || d == 2 || d == 3 || d == 4 || d == 5 || d == 6 || d == 7 || d == 8 || d == 9;
  }

  /** std::to_chars of a signed integer. */
  function Signed(n: int): string {
    if n < 0 then "-" + Decimal(-n) else Decimal(n)
  }

  predicate IsSigned(s: string) {
    s != [] && if s[0] == '-' then |s| > 1 && IsNumeral(s[1..]) else IsNumeral(s)
  }

  function SignedValue(s: string): int
    requires IsSigned(s)
  {
    if s[0] == '-' then 0 as int - Value(s[1..]) as int else Value(s) as int
  }

  lemma SignedRoundTrip(n: int)
    ensures IsSigned(Signed(n)) && SignedValue(Signed(n)) == n
  {
    if n < 0 {
      DecimalRoundTrip(-n);
      assert Signed(n)[1..] == Decimal(-n);
    } else {
      DecimalRoundTrip(n);
      assert IsDigit(Signed(n)[0]);
    }
  }

  /** A numeral after the last underscore can be split off again. */
  lemma TrailingNumeral(a: string, n: nat, b: string, m: nat)
    requires a + "_" + Decimal(n) == b + "_" + Decimal(m)
    ensures a == b && n == m
  {
    var s, x, y := a + "_" + Decimal(n), Decimal(n), Decimal(m);
    assert s == b + "_" + y;
    assert s[|a|] == '_' && s[|b|] == '_';
    assert forall k | |a| < k < |s| :: s[k] == x[k - |a| - 1];
    assert forall k | |b| < k < |s| :: s[k] == y[k - |b| - 1];
    assert |a| == |b|;
    assert a == s[..|a|] == b;
    assert x == s[|a| + 1..] == y;
    DecimalRoundTrip(n);
    DecimalRoundTrip(m);
  }
}
