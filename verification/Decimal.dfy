/** Decimal numerals as the stream operators print them and as atol and strtoull read them. */
module Decimal {

  predicate IsDigit(c: char) {
    '0' <= c <= '9'
  }

  predicate AllDigits(s: string) {
    forall i :: 0 <= i < |s| ==> IsDigit(s[i])
  }

  function Digit(d: nat): (c: char)
    requires d < 10
    ensures IsDigit(c) && DigitValue(c) == d
  {
    ('0' as int + d) as char
  }

  function DigitValue(c: char): (d: nat)
    requires IsDigit(c)
    ensures d < 10
  {
    c as int - '0' as int
  }

  function ToDecimal(n: nat): (s: string)
    ensures AllDigits(s) && |s| > 0
  {
    if n < 10 then [Digit(n)] else ToDecimal(n / 10) + [Digit(n % 10)]
  }

  function FromDecimal(s: string): nat
    requires AllDigits(s)
  {
    if s == "" then 0 else FromDecimal(s[..|s| - 1]) * 10 + DigitValue(s[|s| - 1])
  }

  function ToSigned(v: int): string {
    if v < 0 then "-" + ToDecimal(-v) else ToDecimal(v)
  }

  function Pow10(k: nat): (p: nat)
    ensures p > 0
  {
    if k == 0 then 1 else 10 * Pow10(k - 1)
  }

  /** Reading a printed number gives the number back. */
  lemma {:induction false} ReadsBack(n: nat)
    ensures FromDecimal(ToDecimal(n)) == n
  {
    if n >= 10 {
      ReadsBack(n / 10);
      var s := ToDecimal(n);
      assert s[..|s| - 1] == ToDecimal(n / 10);
    } else {
      var s := ToDecimal(n);
      assert s[..|s| - 1] == "";
    }
  }

  lemma {:induction false} SnocDigit(s: string, c: char)
    requires AllDigits(s) && IsDigit(c)
    ensures AllDigits(s + [c])
    ensures FromDecimal(s + [c]) == FromDecimal(s) * 10 + DigitValue(c)
  {
    assert (s + [c])[..|s|] == s;
  }

  /** A numeral's length brackets its value between two powers of ten. */
  lemma {:induction false} LengthBrackets(n: nat)
    ensures n < Pow10(|ToDecimal(n)|)
    ensures n > 0 ==> n >= Pow10(|ToDecimal(n)| - 1)
  {
    if n >= 10 {
      LengthBrackets(n / 10);
    } else {
      assert Pow10(1) == 10 * Pow10(0);
    }
  }

  lemma {:induction false} Pow10Grows(j: nat, k: nat)
    requires j <= k
    ensures Pow10(j) <= Pow10(k)
    decreases k - j
  {
    if j < k {
      Pow10Grows(j + 1, k);
    }
  }

  /** The length of a positive numeral is k exactly on one decade. */
  lemma LengthIs(n: nat, k: nat)
    requires k >= 1 && n > 0
    ensures |ToDecimal(n)| == k <==> Pow10(k - 1) <= n < Pow10(k)
  {
    LengthBrackets(n);
    var m := |ToDecimal(n)|;
    if m < k {
      Pow10Grows(m, k - 1);
    } else if m > k {
      Pow10Grows(k, m - 1);
    }
  }

  /** A numeral of two digits or more is the numeral of its tens followed by its last digit. */
  lemma CutOne(n: nat, k: nat)
    requires 1 <= k < |ToDecimal(n)|
    ensures var s, t := ToDecimal(n), ToDecimal(n / 10);
            |s| == |t| + 1 && s[..|s| - k] == t[..|t| - (k - 1)] &&
            s[|s| - k..] == t[|t| - (k - 1)..] + [Digit(n % 10)]
  {
    assert ToDecimal(n) == ToDecimal(n / 10) + [Digit(n % 10)];
  }

  /** Dropping k decimal digits, one at a time. */
  function Tens(n: nat, k: nat): nat {
    if k == 0 then n else Tens(n / 10, k - 1)
  }

  lemma {:induction false} TensIsQuotient(n: nat, k: nat)
    ensures Tens(n, k) == n / Pow10(k)
  {
    if k > 0 {
      TensIsQuotient(n / 10, k - 1);
      DivMod(n, Pow10(k - 1));
    }
  }

  /** Cutting the last k digits off a numeral divides by ten to the k. */
  lemma {:induction false} CutTens(n: nat, k: nat)
    requires k < |ToDecimal(n)|
    ensures ToDecimal(n)[..|ToDecimal(n)| - k] == ToDecimal(Tens(n, k))
  {
    var s := ToDecimal(n);
    if k == 0 {
      assert s[..|s| - k] == s;
    } else {
      CutOne(n, k);
      CutTens(n / 10, k - 1);
    }
  }

  /** The last k digits of a numeral denote its remainder by ten to the k. */
  lemma {:induction false} CutSuffix(n: nat, k: nat)
    requires k < |ToDecimal(n)|
    ensures FromDecimal(ToDecimal(n)[|ToDecimal(n)| - k..]) == n % Pow10(k)
  {
    var s := ToDecimal(n);
    if k == 0 {
      assert s[|s| - k..] == "";
    } else {
      CutOne(n, k);
      CutSuffix(n / 10, k - 1);
      var t := ToDecimal(n / 10);
      SnocDigit(t[|t| - (k - 1)..], Digit(n % 10));
      DivMod(n, Pow10(k - 1));
    }
  }

  lemma DivMod(n: nat, p: nat)
    requires p > 0
    ensures (n / 10) / p == n / (10 * p)
    ensures (n / 10) % p * 10 + n % 10 == n % (10 * p)
  {
    var q, r := (n / 10) / p, (n / 10) % p;
    assert n == 10 * (q * p + r) + n % 10;
    assert n == (10 * p) * q + (10 * r + n % 10) by {
      assert 10 * (q * p) == (10 * p) * q;
    }
    QuotientUnique(n, 10 * p, q, 10 * r + n % 10);
  }

  lemma QuotientUnique(n: nat, d: nat, q: nat, r: nat)
    requires d > 0 && r < d && n == d * q + r
    ensures n / d == q && n % d == r
  {
    var e := n / d - q;
    var r' := n % d;
    assert n == d * (n / d) + r';
    assert d * (n / d) == d * q + d * e;
    MultipleBelow(d, e, r - r');
  }

  lemma MultipleBelow(d: int, e: int, x: int)
    requires d > 0 && d * e == x && -d < x < d
    ensures e == 0
  {
    if e >= 1 {
      MultipleAtLeast(d, e);
    } else if e <= -1 {
      MultipleAtLeast(d, -e);
    }
  }

  lemma MultipleAtLeast(d: int, e: int)
    requires d > 0 && e >= 1
    ensures d * e >= d
  {
    assert d * e == d + d * (e - 1);
  }
}
