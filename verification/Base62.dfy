/** net/http/shortener/base62.hpp: short codes from 64-bit row ids. */
module Base62 {
  const TWO_TO_THE_64: nat := 0x1_0000_0000_0000_0000

  type Id = id: nat | id < TWO_TO_THE_64

  predicate IsDigit(ch: char) {
    '0' <= ch <= '9' || 'A' <= ch <= 'Z' || 'a' <= ch <= 'z'
  }

  /** ALPHABET: the ten digits, then the capital letters, then the small ones. */
  function Symbol(v: nat): (ch: char)
    requires v < 62
    ensures IsDigit(ch)
  {
    if v < 10 then '0' + v as char
    else if v < 36 then 'A' + (v - 10) as char
    else 'a' + (v - 36) as char
  }

  function DigitValue(ch: char): (v: nat)
    requires IsDigit(ch)
    ensures v < 62 && Symbol(v) == ch
  {
    if ch <= '9' then ch as int - '0' as int
    else if ch <= 'Z' then ch as int - 'A' as int + 10
    else ch as int - 'a' as int + 36
  }

  predicate IsNumeral(code: string) {
    forall i :: 0 <= i < |code| ==> IsDigit(code[i])
  }

  /** The positional value of a digit string, without wrap-around. */
  function Numeral(code: string): nat
    requires IsNumeral(code)
  {
    if code == [] then 0
    else Numeral(code[..|code| - 1]) * 62 + DigitValue(code[|code| - 1])
  }

  /** The shape of the codes Encode produces. */
  predicate IsCanonical(code: string) {
    code != [] && IsNumeral(code) && (|code| > 1 ==> code[0] != '0')
  }

  // ---- what the two loops compute ----

  lemma NumeralPush(high: string, c: char)
    requires IsNumeral(high) && IsDigit(c)
    ensures IsNumeral(high + [c]) && Numeral(high + [c]) == Numeral(high) * 62 + DigitValue(c)
  {
    assert (high + [c])[..|high|] == high;
  }

  lemma SymbolValue(v: nat)
    requires v < 62
    ensures DigitValue(Symbol(v)) == v
  {
  }

  lemma LastDigit(id: nat)
    ensures id / 62 * 62 + id % 62 == id && (id > 0 ==> id / 62 < id)
  {
  }

  /** The digits of a positive id, most significant first; empty for zero. */
  function Digits(id: nat): (code: string)
    ensures IsNumeral(code) && Numeral(code) == id
    ensures code != [] ==> code[0] != '0'
    ensures id > 0 ==> code != []
  {
    LastDigit(id);
    if id == 0 then [] else
      var high, low := Digits(id / 62), Symbol(id % 62);
      NumeralPush(high, low);
      SymbolValue(id % 62);
      high + [low]
  }

  function Code(id: nat): string {
    if id == 0 then "0" else Digits(id)
  }

  function Value(code: string): Id {
    if IsNumeral(code) then Numeral(code) % TWO_TO_THE_64 else 0
  }

  /** A byte that is no digit makes the whole code stand for 0, which no row has. */
  lemma NotANumeral(code: string, i: nat)
    requires i < |code| && !IsDigit(code[i])
    ensures Value(code) == 0
  {
  }

  function Reversed(s: string): (r: string)
    ensures |r| == |s|
  {
    if s == [] then [] else Reversed(s[1..]) + [s[0]]
  }

  lemma {:induction false} ReversedPush(s: string, c: char)
    ensures Reversed(s + [c]) == [c] + Reversed(s)
  {
    if s != [] {
      ReversedPush(s[1..], c);
      assert (s + [c])[1..] == s[1..] + [c];
    }
  }

  method Encode(id: Id) returns (code: string)
    ensures code == Code(id)
  {
    if id == 0 {
      return "0";
    }
    code := "";
    var rest: nat := id;
    while rest > 0
      invariant Digits(id) == Digits(rest) + Reversed(code)
      decreases rest
    {
      ReversedPush(code, Symbol(rest % 62));
      assert Digits(rest) == Digits(rest / 62) + [Symbol(rest % 62)];
      code := code + [Symbol(rest % 62)];
      rest := rest / 62;
    }
    code := Reversed(code);
  }

  lemma {:induction false} WrapMultiple(t: nat, k: nat)
    ensures (t + k * TWO_TO_THE_64) % TWO_TO_THE_64 == t % TWO_TO_THE_64
  {
    if k > 0 {
      WrapMultiple(t, k - 1);
      assert t + k * TWO_TO_THE_64 == (t + (k - 1) * TWO_TO_THE_64) + TWO_TO_THE_64;
    }
  }

  /** Wrapping at every step keeps the low 64 bits of the unbounded value. */
  lemma WrapStep(high: nat, low: nat)
    ensures ((high % TWO_TO_THE_64) * 62 + low) % TWO_TO_THE_64 == (high * 62 + low) % TWO_TO_THE_64
  {
    var q, r := high / TWO_TO_THE_64, high % TWO_TO_THE_64;
    WrapMultiple(r * 62 + low, 62 * q);
  }

  /** Decode keeps the low 64 bits of the value and answers 0 for any other byte. */
  method Decode(code: string) returns (id: Id)
    ensures id == Value(code)
  {
    id := 0;
    var i := 0;
    while i < |code|
      invariant 0 <= i <= |code|
      invariant IsNumeral(code[..i]) && id == Numeral(code[..i]) % TWO_TO_THE_64
    {
      var ch := code[i];
      if !IsDigit(ch) {
        return 0;
      }
      assert code[..i + 1][..i] == code[..i];
      WrapStep(Numeral(code[..i]), DigitValue(ch));
      id := (id * 62 + DigitValue(ch)) % TWO_TO_THE_64;
      i := i + 1;
    }
    assert code[..i] == code;
  }

  // ---- codes and ids correspond one to one ----

  lemma CodeIsCanonical(id: nat)
    ensures IsCanonical(Code(id)) && Numeral(Code(id)) == id
    ensures '_' !in Code(id)
  {
    if id == 0 {
      assert Code(0)[..0] == [];
    }
  }

  lemma CodeInjective(a: nat, b: nat)
    requires Code(a) == Code(b)
    ensures a == b
  {
    CodeIsCanonical(a);
    CodeIsCanonical(b);
  }

  /** Decode(Encode(id)) == id on every 64-bit id. */
  lemma DecodeEncode(id: Id)
    ensures Value(Code(id)) == id
  {
    CodeIsCanonical(id);
  }

  lemma PositionalStep(high: nat, low: nat)
    requires low < 62
    ensures (high * 62 + low) / 62 == high && (high * 62 + low) % 62 == low
  {
  }

  lemma DigitsPush(high: nat, last: char)
    requires IsDigit(last) && high * 62 + DigitValue(last) > 0
    ensures Digits(high * 62 + DigitValue(last)) == Digits(high) + [last]
  {
    PositionalStep(high, DigitValue(last));
  }

  lemma LeadingDigit(code: string)
    requires code != [] && IsNumeral(code) && code[0] != '0'
    ensures Numeral(code) > 0
    decreases |code|
  {
    var init, last := code[..|code| - 1], code[|code| - 1];
    if init == [] {
      assert Numeral(init) == 0 && DigitValue(last) > 0;
    } else {
      LeadingDigit(init);
    }
  }

  lemma {:induction false} DigitsOfNumeral(code: string)
    requires IsNumeral(code) && (code != [] ==> code[0] != '0')
    ensures Digits(Numeral(code)) == code
    decreases |code|
  {
    if code != [] {
      var init, last := code[..|code| - 1], code[|code| - 1];
      DigitsOfNumeral(init);
      LeadingDigit(code);
      DigitsPush(Numeral(init), last);
    }
  }

  lemma CanonicalCode(code: string)
    requires IsCanonical(code)
    ensures Code(Numeral(code)) == code
  {
    if code[0] == '0' {
      assert code == "0" && code[..0] == [];
    } else {
      DigitsOfNumeral(code);
      LeadingDigit(code);
    }
  }

  lemma ValueInRange(code: string)
    requires IsNumeral(code) && Numeral(code) < TWO_TO_THE_64
    ensures Value(code) == Numeral(code)
  {
  }

  lemma CodeOfId(id: Id, code: string)
    requires Code(id) == code
    ensures IsCanonical(code) && Numeral(code) < TWO_TO_THE_64
  {
    CodeIsCanonical(id);
  }

  /** Encode(Decode(code)) == code exactly for the canonical codes of 64-bit values. */
  lemma EncodeDecode(code: string)
    ensures Code(Value(code)) == code <==> IsCanonical(code) && Numeral(code) < TWO_TO_THE_64
  {
    var id := Value(code);
    if Code(id) == code {
      CodeOfId(id, code);
    } else if IsCanonical(code) && Numeral(code) < TWO_TO_THE_64 {
      ValueInRange(code);
      CanonicalCode(code);
    }
  }

  // ---- lengths and order ----

  function Power62(n: nat): (p: nat)
    ensures p > 0
  {
    if n == 0 then 1 else 62 * Power62(n - 1)
  }

  lemma {:induction false} NumeralBounds(code: string)
    requires IsNumeral(code)
    ensures Numeral(code) < Power62(|code|)
    ensures code != [] && code[0] != '0' ==> Power62(|code| - 1) <= Numeral(code)
  {
    if code != [] {
      NumeralBounds(code[..|code| - 1]);
    }
  }

  lemma Power62Monotone(m: nat, n: nat)
    requires m <= n
    ensures Power62(m) <= Power62(n)
    decreases n
  {
    if m < n {
      Power62Monotone(m, n - 1);
    }
  }

  lemma Power62Of11()
    ensures Power62(11) > TWO_TO_THE_64
  {
    assert Power62(4) == 14776336;
    assert Power62(8) == 218340105584896;
  }

  /** No 64-bit id needs more than eleven characters. */
  lemma {:induction false} CodeLength(id: Id)
    ensures 1 <= |Code(id)| <= 11
  {
    if id > 0 {
      NumeralBounds(Digits(id));
      Power62Of11();
      if |Digits(id)| > 11 {
        Power62Monotone(11, |Digits(id)| - 1);
      }
    }
  }

  predicate LexLess(x: string, y: string)
    requires |x| == |y|
  {
    exists k :: 0 <= k < |x| && x[..k] == y[..k] && x[k] < y[k]
  }

  /** Shorter codes first, codes of one length by their bytes. */
  predicate ShortLexLess(x: string, y: string) {
    |x| < |y| || (|x| == |y| && LexLess(x, y))
  }

  lemma {:induction false} NumeralLess(x: string, y: string, k: nat)
    requires IsNumeral(x) && IsNumeral(y) && |x| == |y|
    requires k < |x| && x[..k] == y[..k] && x[k] < y[k]
    ensures Numeral(x) < Numeral(y)
  {
    var n := |x| - 1;
    if k == n {
      assert DigitValue(x[k]) < DigitValue(y[k]);
    } else {
      assert x[..n][..k] == x[..k] && y[..n][..k] == y[..k];
      NumeralLess(x[..n], y[..n], k);
    }
  }

  lemma FirstDifference(x: string, y: string) returns (k: nat)
    requires |x| == |y| && x != y
    ensures k < |x| && x[..k] == y[..k] && x[k] != y[k]
  {
    k := 0;
    while k < |x| && x[k] == y[k]
      invariant k <= |x| && x[..k] == y[..k]
    {
      k := k + 1;
    }
    assert x[..|x|] == x && y[..|y|] == y;
  }

  lemma CommonPrefix(x: string, y: string, j: nat, k: nat)
    requires k < j <= |x| == |y|
    ensures x[..j] == y[..j] ==> x[k] == y[k]
  {
    assert x[..j][k] == x[k] && y[..j][k] == y[k];
  }

  lemma {:induction false} SmallerNumeralFirst(x: string, y: string)
    requires IsCanonical(x) && IsCanonical(y) && Numeral(x) < Numeral(y)
    ensures ShortLexLess(x, y)
  {
    if |y| < |x| {
      NumeralBounds(x);
      NumeralBounds(y);
      Power62Monotone(|y|, |x| - 1);
    } else if |x| == |y| {
      var k := FirstDifference(x, y);
      if y[k] < x[k] {
        NumeralLess(y, x, k);
      }
    }
  }

  lemma {:induction false} SmallerIdSmallerCode(a: nat, b: nat)
    requires a < b
    ensures ShortLexLess(Code(a), Code(b))
  {
    CodeIsCanonical(a);
    CodeIsCanonical(b);
    SmallerNumeralFirst(Code(a), Code(b));
  }

  lemma ShortLexAsymmetric(x: string, y: string)
    requires ShortLexLess(x, y)
    ensures !ShortLexLess(y, x) && x != y
  {
    if |x| == |y| {
      var k :| 0 <= k < |x| && x[..k] == y[..k] && x[k] < y[k];
      forall j | 0 <= j < |x| && y[..j] == x[..j]
        ensures !(y[j] < x[j])
      {
        if j < k {
          CommonPrefix(x, y, k, j);
        } else if k < j {
          CommonPrefix(x, y, j, k);
        }
      }
    }
  }

  /** Ids in increasing order have codes in length-then-lexicographic order, and only those. */
  lemma {:induction false} OrderIsomorphism(a: nat, b: nat)
    ensures a < b <==> ShortLexLess(Code(a), Code(b))
  {
    if a < b {
      SmallerIdSmallerCode(a, b);
    } else {
      if b < a {
        SmallerIdSmallerCode(b, a);
        ShortLexAsymmetric(Code(b), Code(a));
      }
      if a == b && ShortLexLess(Code(a), Code(b)) {
        ShortLexAsymmetric(Code(a), Code(b));
      }
    }
  }
}
