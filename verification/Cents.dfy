/** Amounts in cents printed with a decimal point. */
module Cents {
  import opened Decimal
  import opened Options

  /** The printed number with a point before its last two characters, or "0." before a short one. */
  function Pointed(s: string): string {
    if |s| < 3 then "0." + s else s[..|s| - 2] + "." + s[|s| - 2..]
  }

  function WithDecimals(v: int): string {
    Pointed(ToSigned(v))
  }

  // ----- what a string with a point denotes

  /** The decimal fraction digits / 10^places. */
  datatype Fraction = Fraction(digits: int, places: nat)

  function Negated(x: Fraction): Fraction {
    Fraction(-x.digits, x.places)
  }

  predicate EqualsCents(x: Fraction, v: int) {
    x.digits * 100 == v * Pow10(x.places)
  }

  function FindPoint(s: string): (n: nat)
    ensures n <= |s|
  {
    if s == "" || s[0] == '.' then 0 else 1 + FindPoint(s[1..])
  }

  /** Digits, a point and at least one digit: the whole part may be empty. */
  function Unsigned(s: string): Option<Fraction> {
    var n := FindPoint(s);
    if n + 1 >= |s| || !AllDigits(s[..n]) || !AllDigits(s[n + 1..]) then None
    else Some(Fraction(FromDecimal(s[..n] + s[n + 1..]), |s| - n - 1))
  }

  function Denoted(s: string): Option<Fraction> {
    if s != "" && s[0] == '-' then
      match Unsigned(s[1..])
      case None => None
      case Some(x) => Some(Negated(x))
    else Unsigned(s)
  }

  lemma {:induction false} PointFound(whole: string, rest: string)
    requires AllDigits(whole)
    ensures FindPoint(whole + "." + rest) == |whole|
    decreases |whole|
  {
    if whole == "" {
      assert (whole + "." + rest)[0] == '.';
    } else {
      assert (whole + "." + rest)[1..] == whole[1..] + "." + rest;
      PointFound(whole[1..], rest);
    }
  }

  lemma UnsignedOf(whole: string, part: string)
    requires AllDigits(whole)
    ensures Unsigned(whole + "." + part) ==
            if part == "" || !AllDigits(part) then None else Some(Fraction(FromDecimal(whole + part), |part|))
  {
    PointFound(whole, part);
    var s := whole + "." + part;
    assert s[..|whole|] == whole && s[|whole| + 1..] == part;
  }

  lemma {:induction false} LeadingZero(s: string)
    requires AllDigits(s)
    ensures FromDecimal("0" + s) == FromDecimal(s)
    decreases |s|
  {
    var z := "0" + s;
    if s == "" {
      assert z[..0] == "";
    } else {
      LeadingZero(s[..|s| - 1]);
      assert z[..|z| - 1] == "0" + s[..|s| - 1];
    }
  }

  lemma PowersToTwo()
    ensures Pow10(1) == 10 && Pow10(2) == 100
  {
    assert Pow10(1) == 10 * Pow10(0);
  }

  lemma NumeralLength(m: nat)
    ensures |ToDecimal(m)| == 1 <==> m < 10
    ensures |ToDecimal(m)| == 2 <==> 10 <= m < 100
  {
    PowersToTwo();
    if m > 0 {
      LengthIs(m, 1);
      LengthIs(m, 2);
    }
  }

  /** Digits cut by a point denote the number they spelled. */
  lemma SplitDigits(s: string, whole: string, part: string)
    requires s == whole + part && |part| == 2 && AllDigits(s)
    ensures Unsigned(whole + "." + part) == Some(Fraction(FromDecimal(s), 2))
  {
    assert AllDigits(whole) by {
      assert forall i :: 0 <= i < |whole| ==> whole[i] == s[i];
    }
    assert AllDigits(part) by {
      assert part[0] == s[|whole|] && part[1] == s[|whole| + 1];
    }
    UnsignedOf(whole, part);
  }

  /** After "0." every digit of the number is a decimal place. */
  lemma AfterZero(m: nat)
    ensures Unsigned("0." + ToDecimal(m)) == Some(Fraction(m, |ToDecimal(m)|))
  {
    var s := ToDecimal(m);
    UnsignedOf("0", s);
    assert "0" + "." + s == "0." + s;
    LeadingZero(s);
    ReadsBack(m);
  }

  lemma PositiveDenotes(v: nat)
    ensures Denoted(WithDecimals(v)) == Some(Fraction(v, if v < 10 then 1 else 2))
  {
    NumeralLength(v);
    var s := ToDecimal(v);
    assert IsDigit(s[0]);
    if v < 100 {
      AfterZero(v);
    } else {
      SplitDigits(s, s[..|s| - 2], s[|s| - 2..]);
      ReadsBack(v);
    }
  }

  /** A sign after "0." is no digit. */
  lemma SignAfterZero(t: string)
    ensures Unsigned("0." + ("-" + t)) == None
  {
    var s := "-" + t;
    assert s[0] == '-';
    UnsignedOf("0", s);
    assert "0" + "." + s == "0." + s;
  }

  lemma OneDigitAfterSign(t: string)
    requires |t| == 1
    ensures Denoted(Pointed("-" + t)) == None
  {
    SignAfterZero(t);
  }

  lemma PointAfterSign(t: string)
    requires |t| >= 2
    ensures Pointed("-" + t) == "-" + (t[..|t| - 2] + "." + t[|t| - 2..])
  {
    var s := "-" + t;
    assert s[..|s| - 2] == "-" + t[..|t| - 2] && s[|s| - 2..] == t[|t| - 2..];
  }

  lemma DenotesNegated(p: string, x: Fraction)
    requires Unsigned(p) == Some(x)
    ensures Denoted("-" + p) == Some(Negated(x))
  {
    assert ("-" + p)[1..] == p;
  }

  lemma DigitsAfterSign(t: string)
    requires |t| >= 2 && AllDigits(t)
    ensures Denoted(Pointed("-" + t)) == Some(Negated(Fraction(FromDecimal(t), 2)))
  {
    var whole, part := t[..|t| - 2], t[|t| - 2..];
    PointAfterSign(t);
    SplitDigits(t, whole, part);
    DenotesNegated(whole + "." + part, Fraction(FromDecimal(t), 2));
  }

  lemma NegativeDenotes(m: nat)
    requires m > 0
    ensures var v: int := 0 - m;
            Denoted(WithDecimals(v)) == if m < 10 then None else Some(Fraction(v, 2))
  {
    NumeralLength(m);
    if m < 10 {
      OneDigitAfterSign(ToDecimal(m));
    } else {
      DigitsAfterSign(ToDecimal(m));
      ReadsBack(m);
    }
  }

  /** The printed amount denotes the cents exactly for zero and for ten cents or more either way. */
  lemma {:induction false} DenotesCentsIff(v: int)
    ensures var x := Denoted(WithDecimals(v));
            x.Some? && EqualsCents(x.value, v) <==> v == 0 || v <= -10 || v >= 10
  {
    PowersToTwo();
    if v >= 0 {
      PositiveDenotes(v);
    } else {
      NegativeDenotes(-v);
    }
  }
}
