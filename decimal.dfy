/** Go's `%d` formatting of integers (`fmt.Sprintf("%d", n)`), and the parse
    that undoes it. Nonces are formatted this way before they are signed. */
module Decimal {

  const Digits := "0123456789"

  predicate IsDigit(c: char) {
    '0' <= c <= '9'
  }

  predicate AllDigits(s: string) {
    forall i :: 0 <= i < |s| ==> IsDigit(s[i])
  }

  function DigitChar(d: nat): (c: char)
    requires d < 10
    ensures IsDigit(c) && c as int - '0' as int == d
  {
    Digits[d]
  }

  /** The decimal digits of `n`, most significant first, with no leading zero. */
  function NatDigits(n: nat): (r: string)
    ensures |r| >= 1 && AllDigits(r)
    ensures r[0] == '0' <==> n == 0
  {
    if n < 10 then [DigitChar(n)] else NatDigits(n / 10) + [DigitChar(n % 10)]
  }

  /** `%d`: a minus sign for negative numbers, then the digits of the magnitude. */
  function Decimal(i: int): (r: string)
    ensures |r| >= 1
    ensures r[0] == '-' <==> i < 0
    ensures i >= 0 ==> AllDigits(r)
  {
    if i < 0 then "-" + NatDigits(-i) else NatDigits(i)
  }

  /** The value of a string of decimal digits. */
  function ParseNat(s: string): nat
    requires AllDigits(s)
  {
    if s == [] then 0 else ParseNat(s[..|s| - 1]) * 10 + (s[|s| - 1] as int - '0' as int)
  }

  /** Reads back what `Decimal` writes. */
  function ParseDecimal(s: string): int
    requires |s| >= 1
    requires s[0] == '-' ==> AllDigits(s[1..])
    requires s[0] != '-' ==> AllDigits(s)
  {
    if s[0] == '-' then -(ParseNat(s[1..]) as int) else ParseNat(s)
  }

  lemma {:induction false} NatDigitsRoundTrip(n: nat)
    ensures ParseNat(NatDigits(n)) == n
  {
    if n >= 10 {
      var r := NatDigits(n);
      assert r[..|r| - 1] == NatDigits(n / 10);
      NatDigitsRoundTrip(n / 10);
    }
  }

  /** Parsing the `%d` text of a number gives the number back. */
  lemma DecimalRoundTrip(i: int)
    ensures ParseDecimal(Decimal(i)) == i
  {
    var r := Decimal(i);
    if i < 0 {
      var digits := NatDigits(-i);
      assert r == "-" + digits;
      assert r[1..] == digits;
      NatDigitsRoundTrip(-i);
    } else {
      NatDigitsRoundTrip(i);
    }
  }

  /** Distinct nonces are formatted as distinct strings. */
  lemma DecimalInjective(i: int, j: int)
    requires Decimal(i) == Decimal(j)
    ensures i == j
  {
    DecimalRoundTrip(i);
    DecimalRoundTrip(j);
  }

  /** The text of a number holds digits and at most a leading minus sign, so
      no separator a query string or a signature pre-image uses. */
  lemma DecimalPlain(i: int)
    ensures forall c :: c in Decimal(i) ==> c == '-' || IsDigit(c)
  {
    var r := Decimal(i);
    if i < 0 {
      var digits := NatDigits(-i);
      assert r == "-" + digits;
      forall c | c in r ensures c == '-' || IsDigit(c) {
        var k :| 0 <= k < |r| && r[k] == c;
        if k > 0 { assert r[k] == digits[k - 1]; }
      }
    }
  }
}
