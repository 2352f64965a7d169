/** Decimal marks and their canonical spelling. */
module Decimals {
  /** A finite decimal: sign, coefficient and power of ten. */
  datatype Decimal = Decimal(negative: bool, coefficient: nat, exponent: int)

  // ---------------------------------------------------------------- values

  function Scale(e: int): (p: real)
    ensures p > 0.0
    decreases if e < 0 then -e else e
  {
    if e == 0 then 1.0 else if e > 0 then 10.0 * Scale(e - 1) else Scale(e + 1) / 10.0
  }

  function Value(d: Decimal): real {
    (if d.negative then -(d.coefficient as real) else d.coefficient as real) * Scale(d.exponent)
  }

  lemma ScaleUpByTen(e: int)
    ensures Scale(e) == 10.0 * Scale(e - 1)
  {
  }

  lemma Regroup(x: real, p: real, q: real)
    requires p == 10.0 * q
    ensures x * p == (10.0 * x) * q
  {
  }

  /** One more digit of the same number. */
  function Shifted(d: Decimal): Decimal {
    Decimal(d.negative, 10 * d.coefficient, d.exponent - 1)
  }

  lemma ShiftKeepsValue(d: Decimal)
    ensures Value(Shifted(d)) == Value(d)
  {
    ScaleUpByTen(d.exponent);
    var c := if d.negative then -(d.coefficient as real) else d.coefficient as real;
    Regroup(c, Scale(d.exponent), Scale(d.exponent - 1));
  }

  // ---------------------------------------------------------------- the canonical spelling

  function Digit(n: nat): char
    requires n < 10
  {
    "0123456789"[n]
  }

  function Digits(n: nat): (s: string)
    ensures |s| > 0
  {
    if n < 10 then [Digit(n)] else Digits(n / 10) + [Digit(n % 10)]
  }

  function Whole(c: nat, places: nat): nat
    decreases places
  {
    if places == 0 then c else Whole(c / 10, places - 1)
  }

  /** The last `places` digits, zeros included. */
  function Fraction(c: nat, places: nat): (s: string)
    ensures |s| == places
    decreases places
  {
    if places == 0 then "" else Fraction(c / 10, places - 1) + [Digit(c % 10)]
  }

  function Zeros(n: nat): string {
    if n == 0 then "" else Zeros(n - 1) + "0"
  }

  /** `format(value, "f")`, without the sign. */
  function Unsigned(c: nat, e: int): string {
    if e >= 0 then Digits(c) + Zeros(e) else Digits(Whole(c, -e)) + "." + Fraction(c, -e)
  }

  function RStrip(s: string, ch: char): string {
    if s != "" && s[|s| - 1] == ch then RStrip(s[..|s| - 1], ch) else s
  }

  function Minus(negative: bool): string {
    if negative then "-" else ""
  }

  function Canonical(d: Decimal): string {
    if d.coefficient == 0 then "0"
    else
      var rendered := Minus(d.negative) + Unsigned(d.coefficient, d.exponent);
      if '.' in rendered then RStrip(RStrip(rendered, '0'), '.') else rendered
  }

  // ---------------------------------------------------------------- an added zero changes nothing

  predicate AllDigits(s: string) {
    forall ch | ch in s :: '0' <= ch <= '9'
  }

  lemma {:induction false} DigitsAreDigits(n: nat)
    ensures AllDigits(Digits(n))
  {
    if n >= 10 {
      DigitsAreDigits(n / 10);
    }
  }

  lemma {:induction false} ZerosAreDigits(n: nat)
    ensures AllDigits(Zeros(n))
  {
    if n > 0 {
      ZerosAreDigits(n - 1);
    }
  }

  lemma RStripOne(s: string, ch: char)
    ensures RStrip(s + [ch], ch) == RStrip(s, ch)
  {
    assert (s + [ch])[..|s|] == s;
  }

  function Sign(d: Decimal): string {
    Minus(d.negative)
  }

  lemma HasPoint(d: Decimal)
    ensures '.' in Sign(d) + Unsigned(d.coefficient, d.exponent) <==> d.exponent < 0
  {
    var c, e := d.coefficient, d.exponent;
    if e >= 0 {
      DigitsAreDigits(c);
      ZerosAreDigits(e);
    } else {
      var rendered := Sign(d) + Unsigned(c, e);
      assert rendered[|Sign(d)| + |Digits(Whole(c, -e))|] == '.';
    }
  }

  lemma ShiftOfFraction(c: nat, places: nat)
    ensures Whole(10 * c, places + 1) == Whole(c, places)
    ensures Fraction(10 * c, places + 1) == Fraction(c, places) + "0"
  {
  }

  lemma DigitsOfTenfold(c: nat)
    requires c > 0
    ensures Digits(10 * c) == Digits(c) + "0"
  {
  }

  lemma ShiftOfTenfold(c: nat, e: nat)
    requires c > 0 && e > 0
    ensures Unsigned(10 * c, e - 1) == Unsigned(c, e)
  {
    DigitsOfTenfold(c);
    ZeroMovesAcross(e);
    assert Digits(c) + "0" + Zeros(e - 1) == Digits(c) + ("0" + Zeros(e - 1));
  }

  lemma ShiftPastPoint(c: nat, e: int)
    requires e < 0
    ensures Unsigned(10 * c, e - 1) == Unsigned(c, e) + "0"
  {
    ShiftOfFraction(c, -e);
    assert Digits(Whole(c, -e)) + "." + (Fraction(c, -e) + "0") == Digits(Whole(c, -e)) + "." + Fraction(c, -e) + "0";
  }

  lemma ShiftToPoint(c: nat)
    ensures Unsigned(10 * c, -1) == Digits(c) + "." + "0"
  {
    ShiftOfFraction(c, 0);
  }

  lemma StripPoint(whole: string)
    requires whole == "" || whole[|whole| - 1] != '.'
    ensures RStrip(RStrip(whole + "." + "0", '0'), '.') == whole
  {
    RStripOne(whole + ".", '0');
    assert RStrip(whole + ".", '0') == whole + ".";
    RStripOne(whole, '.');
  }

  lemma ShiftKeepsWhole(d: Decimal)
    requires d.coefficient > 0 && d.exponent > 0
    ensures Canonical(Shifted(d)) == Canonical(d)
  {
    HasPoint(d);
    HasPoint(Shifted(d));
    ShiftOfTenfold(d.coefficient, d.exponent);
  }

  lemma ShiftKeepsFraction(d: Decimal)
    requires d.coefficient > 0 && d.exponent < 0
    ensures Canonical(Shifted(d)) == Canonical(d)
  {
    HasPoint(d);
    HasPoint(Shifted(d));
    ShiftPastPoint(d.coefficient, d.exponent);
    RStripAfterSign(Sign(d), Unsigned(d.coefficient, d.exponent));
  }

  lemma ShiftKeepsPoint(d: Decimal)
    requires d.coefficient > 0 && d.exponent == 0
    ensures Canonical(Shifted(d)) == Canonical(d)
  {
    var whole := Sign(d) + Digits(d.coefficient);
    HasPoint(d);
    HasPoint(Shifted(d));
    ShiftToPoint(d.coefficient);
    WholeEndsInDigit(Sign(d), d.coefficient);
    StripPoint(whole);
    assert Sign(d) + (Digits(d.coefficient) + "." + "0") == whole + "." + "0";
    assert Digits(d.coefficient) + Zeros(0) == Digits(d.coefficient);
  }

  /** Writing one more zero of the same number never changes its spelling. */
  lemma ShiftKeepsSpelling(d: Decimal)
    requires d.coefficient > 0
    ensures Canonical(Shifted(d)) == Canonical(d)
  {
    if d.exponent > 0 {
      ShiftKeepsWhole(d);
    } else if d.exponent < 0 {
      ShiftKeepsFraction(d);
    } else {
      ShiftKeepsPoint(d);
    }
  }

  lemma RStripAfterSign(sign: string, body: string)
    ensures RStrip(sign + (body + "0"), '0') == RStrip(sign + body, '0')
  {
    assert sign + (body + "0") == sign + body + "0";
    RStripOne(sign + body, '0');
  }

  lemma WholeEndsInDigit(sign: string, c: nat)
    ensures (sign + Digits(c))[|sign + Digits(c)| - 1] != '.'
  {
    DigitsAreDigits(c);
    assert (sign + Digits(c))[|sign + Digits(c)| - 1] == Digits(c)[|Digits(c)| - 1];
    assert Digits(c)[|Digits(c)| - 1] in Digits(c);
  }

  lemma {:induction false} ZeroMovesAcross(e: nat)
    requires e > 0
    ensures "0" + Zeros(e - 1) == Zeros(e)
  {
    if e > 1 {
      ZeroMovesAcross(e - 1);
      assert "0" + Zeros(e - 1) == ("0" + Zeros(e - 2)) + "0";
    }
  }

  lemma SignOfProduct(x: real, p: real)
    requires p > 0.0
    ensures (x * p > 0.0 <==> x > 0.0) && (x * p == 0.0 <==> x == 0.0)
  {
    if x > 0.0 {
      assert x * p > 0.0;
    } else if x < 0.0 {
      assert -x * p > 0.0;
      assert x * p == -(-x * p);
    }
  }

  lemma CancelScale(x: real, y: real, p: real)
    requires p > 0.0 && x * p == y * p
    ensures x == y
  {
    assert (x - y) * p == 0.0;
    SignOfProduct(x - y, p);
  }

  lemma SameScaleSameDigits(a: Decimal, b: Decimal)
    requires a.exponent == b.exponent && Value(a) == Value(b) && a.coefficient > 0
    ensures a == b
  {
    var x := if a.negative then -(a.coefficient as real) else a.coefficient as real;
    var y := if b.negative then -(b.coefficient as real) else b.coefficient as real;
    CancelScale(x, y, Scale(a.exponent));
  }

  lemma ZeroExactlyWhen(d: Decimal)
    ensures Value(d) == 0.0 <==> d.coefficient == 0
  {
    SignOfProduct(if d.negative then -(d.coefficient as real) else d.coefficient as real, Scale(d.exponent));
  }

  lemma {:induction false} EqualValuesAreSpelledAlike(a: Decimal, b: Decimal)
    requires Value(a) == Value(b) && a.exponent >= b.exponent
    ensures Canonical(a) == Canonical(b)
    decreases a.exponent - b.exponent
  {
    ZeroExactlyWhen(a);
    ZeroExactlyWhen(b);
    if a.coefficient > 0 {
      if a.exponent == b.exponent {
        SameScaleSameDigits(a, b);
      } else {
        ShiftKeepsSpelling(a);
        ShiftKeepsValue(a);
        EqualValuesAreSpelledAlike(Shifted(a), b);
      }
    }
  }

  // ---------------------------------------------------------------- reading a spelling back

  function DigitValue(ch: char): nat {
    if '0' <= ch <= '9' then ch as nat - '0' as nat else 0
  }

  function Natural(s: string): nat {
    if s == "" then 0 else 10 * Natural(s[..|s| - 1]) + DigitValue(s[|s| - 1])
  }

  function Before(s: string, ch: char): string {
    if s == "" || s[0] == ch then "" else [s[0]] + Before(s[1..], ch)
  }

  /** `Decimal(text)` for a plain decimal numeral. */
  function Read(s: string): Decimal {
    var negative := s != "" && s[0] == '-';
    var body := if negative then s[1..] else s;
    var whole := Before(body, '.');
    if |whole| >= |body| then Decimal(negative, Natural(body), 0)
    else
      var fraction := body[|whole| + 1..];
      Decimal(negative, Natural(whole + fraction), -|fraction|)
  }

  lemma {:induction false} NaturalOfDigits(n: nat)
    ensures Natural(Digits(n)) == n
  {
    if n >= 10 {
      NaturalOfDigits(n / 10);
      assert Digits(n)[..|Digits(n)| - 1] == Digits(n / 10);
    }
  }

  lemma NaturalOfOneMore(s: string, d: nat)
    requires d < 10
    ensures Natural(s + [Digit(d)]) == 10 * Natural(s) + d
  {
    assert (s + [Digit(d)])[..|s|] == s;
  }

  lemma {:induction false} NaturalOfParts(c: nat, places: nat)
    ensures Natural(Digits(Whole(c, places)) + Fraction(c, places)) == c
    decreases places
  {
    var whole := Digits(Whole(c, places));
    if places == 0 {
      NaturalOfDigits(c);
      assert whole + "" == whole;
    } else {
      var front := whole + Fraction(c / 10, places - 1);
      NaturalOfParts(c / 10, places - 1);
      NaturalOfOneMore(front, c % 10);
      assert whole + Fraction(c, places) == front + [Digit(c % 10)];
    }
  }

  lemma {:induction false} BeforePoint(whole: string, rest: string)
    requires '.' !in whole
    ensures Before(whole + "." + rest, '.') == whole
  {
    var s := whole + "." + rest;
    if whole != "" {
      BeforePoint(whole[1..], rest);
      assert s[1..] == whole[1..] + "." + rest;
      assert s[0] == whole[0] && whole[0] in whole;
    }
  }

  lemma {:induction false} NoPoint(s: string)
    requires '.' !in s
    ensures Before(s, '.') == s
  {
    if s != "" {
      NoPoint(s[1..]);
    }
  }

  lemma ReadPlain(negative: bool, body: string)
    requires body != "" && body[0] != '-' && '.' !in body
    ensures Read(Minus(negative) + body) == Decimal(negative, Natural(body), 0)
  {
    NoPoint(body);
    assert negative ==> ("-" + body)[1..] == body;
    assert "" + body == body;
  }

  lemma ReadPointed(negative: bool, whole: string, fraction: string)
    requires whole != "" && whole[0] != '-' && '.' !in whole
    ensures Read(Minus(negative) + (whole + "." + fraction))
      == Decimal(negative, Natural(whole + fraction), -|fraction|)
  {
    var body := whole + "." + fraction;
    BeforePoint(whole, fraction);
    assert negative ==> ("-" + body)[1..] == body;
    assert "" + body == body;
    assert body[|whole| + 1..] == fraction;
  }

  lemma DigitsArePlain(n: nat)
    ensures Digits(n)[0] != '-' && '.' !in Digits(n)
  {
    DigitsAreDigits(n);
    assert Digits(n)[0] in Digits(n);
  }

  lemma ReadWhole(d: Decimal)
    requires d.coefficient > 0 && d.exponent == 0
    ensures Read(Canonical(d)) == d
  {
    HasPoint(d);
    DigitsArePlain(d.coefficient);
    NaturalOfDigits(d.coefficient);
    assert Digits(d.coefficient) + Zeros(0) == Digits(d.coefficient);
    ReadPlain(d.negative, Digits(d.coefficient));
  }

  /** With a last digit that is not zero, nothing is stripped. */
  lemma NothingToStrip(d: Decimal)
    requires d.exponent < 0 && d.coefficient % 10 != 0
    ensures Canonical(d) == Sign(d) + Unsigned(d.coefficient, d.exponent)
  {
    var rendered := Sign(d) + Unsigned(d.coefficient, d.exponent);
    HasPoint(d);
    assert rendered[|rendered| - 1] == Digit(d.coefficient % 10);
  }

  lemma ReadFraction(d: Decimal)
    requires d.exponent < 0 && d.coefficient % 10 != 0
    ensures Read(Canonical(d)) == d
  {
    NothingToStrip(d);
    DigitsArePlain(Whole(d.coefficient, -d.exponent));
    NaturalOfParts(d.coefficient, -d.exponent);
    ReadPointed(d.negative, Digits(Whole(d.coefficient, -d.exponent)), Fraction(d.coefficient, -d.exponent));
  }

  /** The canonical spelling reads back as the same number. */
  lemma {:induction false} SpellingKeepsValue(d: Decimal)
    ensures Value(Read(Canonical(d))) == Value(d)
    decreases if d.exponent < 0 then -d.exponent else d.exponent
  {
    if d.coefficient == 0 {
      assert Natural("0") == 0;
      assert Before("0", '.') == "0";
      ZeroExactlyWhen(d);
      ZeroExactlyWhen(Read("0"));
    } else if d.exponent > 0 {
      ShiftKeepsSpelling(d);
      ShiftKeepsValue(d);
      SpellingKeepsValue(Shifted(d));
    } else if d.exponent == 0 {
      ReadWhole(d);
    } else if d.coefficient % 10 != 0 {
      ReadFraction(d);
    } else {
      var shorter := Decimal(d.negative, d.coefficient / 10, d.exponent + 1);
      assert Shifted(shorter) == d;
      ShiftKeepsSpelling(shorter);
      ShiftKeepsValue(shorter);
      SpellingKeepsValue(shorter);
    }
  }

  /** Two decimals are spelled alike exactly when they are the same number. */
  lemma SpelledAlikeExactlyWhenEqual(a: Decimal, b: Decimal)
    ensures Canonical(a) == Canonical(b) <==> Value(a) == Value(b)
  {
    SpellingKeepsValue(a);
    SpellingKeepsValue(b);
    if Value(a) == Value(b) {
      if a.exponent >= b.exponent {
        EqualValuesAreSpelledAlike(a, b);
      } else {
        EqualValuesAreSpelledAlike(b, a);
      }
    }
  }
}
