/** Decimal numbers as text: what std::to_string and snprintf print, and what std::stol reads. */
module Decimals {
  predicate IsDecimal(c: char) {
    '0' <= c <= '9'
  }

  function Power10(n: nat): (p: nat)
    ensures p > 0
  {
    if n == 0 then 1 else 10 * Power10(n - 1)
  }

  /** The number that a string of digits stands for. */
  function DecimalValue(digits: string): nat
    requires forall c :: c in digits ==> IsDecimal(c)
  {
    if digits == [] then 0
    else
      var last := digits[|digits| - 1];
      assert IsDecimal(last);
      DecimalValue(digits[..|digits| - 1]) * 10 + (last as int - '0' as int)
  }

  /** std::to_string of a number that is not negative. */
  function Decimal(n: nat): (s: string)
    ensures s != "" && forall c :: c in s ==> IsDecimal(c)
  {
    var digit := ['0' + (n % 10) as char];
    if n < 10 then digit else Decimal(n / 10) + digit
  }

  lemma {:induction false} DecimalLength(n: nat, k: nat)
    requires k > 0
    ensures |Decimal(n)| <= k <==> n < Power10(k)
  {
    if n < 10 {
      assert Power10(k) == 10 * Power10(k - 1);
    } else if k == 1 {
      assert Power10(1) == 10 * Power10(0);
    } else {
      DecimalLength(n / 10, k - 1);
      assert n / 10 < Power10(k - 1) <==> n < 10 * Power10(k - 1);
    }
  }

  /** One digit has its own value. */
  lemma DigitValue(c: char)
    requires IsDecimal(c)
    ensures DecimalValue([c]) == c as int - '0' as int
  {
    assert [c][..0] == [];
  }

  lemma DigitsOfBoth(a: string, b: string)
    requires forall c :: c in a + b ==> IsDecimal(c)
    ensures (forall c :: c in a ==> IsDecimal(c)) && (forall c :: c in b ==> IsDecimal(c))
  {
    assert forall c :: c in a || c in b ==> c in a + b;
  }

  lemma TenTimes(x: int, p: int, y: int, d: int)
    ensures (x * p + y) * 10 + d == x * (10 * p) + (y * 10 + d)
  {
    assert x * p * 10 == x * (10 * p);
  }

  /** The value with one more digit. */
  lemma DecimalSnoc(a: string, c: char)
    requires (forall d :: d in a ==> IsDecimal(d)) && IsDecimal(c)
    ensures DecimalValue(a + [c]) == DecimalValue(a) * 10 + DecimalValue([c])
  {
    assert (a + [c])[..|a|] == a;
    DigitValue(c);
  }

  /** The positional system: digits in front count ten times as much for every digit behind them. */
  lemma {:induction false} DecimalAppend(a: string, b: string)
    requires forall c :: c in a + b ==> IsDecimal(c)
    ensures (forall c :: c in a ==> IsDecimal(c)) && (forall c :: c in b ==> IsDecimal(c))
    ensures DecimalValue(a + b) == DecimalValue(a) * Power10(|b|) + DecimalValue(b)
    decreases |b|
  {
    DigitsOfBoth(a, b);
    if b == [] {
      assert a + b == a;
    } else {
      var n, c := |b| - 1, b[|b| - 1];
      assert a + b == (a + b[..n]) + [c] && b == b[..n] + [c];
      DigitsOfBoth(a + b[..n], [c]);
      DigitsOfBoth(b[..n], [c]);
      DecimalAppend(a, b[..n]);
      DecimalSnoc(a + b[..n], c);
      DecimalSnoc(b[..n], c);
      TenTimes(DecimalValue(a), Power10(n), DecimalValue(b[..n]), DecimalValue([c]));
    }
  }

  /** Reading what was printed. */
  lemma {:induction false} DecimalReads(n: nat)
    ensures DecimalValue(Decimal(n)) == n
  {
    var digit := ['0' + (n % 10) as char];
    DigitValue(digit[0]);
    if n >= 10 {
      DecimalReads(n / 10);
      DecimalAppend(Decimal(n / 10), digit);
      assert Power10(1) == 10 * Power10(0);
    }
  }
}
