/**
 Barcode decoding: the regular expression cascade over the printed number, the price embedded
 in the digits of a weighed item's code, and the lookup of the item behind a code.
 */
module Barcode {
  import opened Decimal
  import opened Catalogue

  datatype Kind = NotRecognized | LoyCard | Ean13 | Ean13PriceReq | Upc | Ean8

  datatype Decoded = Decoded(kind: Kind, barcode: nat, code: nat)

  /** The regular expression: a literal prefix followed by exactly n digits. */
  predicate Matches(s: string, prefix: string, n: nat) {
    |s| == |prefix| + n && prefix <= s && AllDigits(s[|prefix|..])
  }

  function KindOfText(s: string): Kind {
    if Matches(s, "260", 9) then LoyCard
    else if Matches(s, "260", 8) then LoyCard
    else if Matches(s, "", 13) then
      if Matches(s, "2", 12) then Ean13PriceReq else Ean13
    else if Matches(s, "", 12) then Upc
    else if Matches(s, "", 8) then Ean8
    else NotRecognized
  }

  function KindOf(b: nat): Kind {
    KindOfText(ToDecimal(b))
  }

  function ZeroPrice(s: string): string
    requires |s| >= 7
  {
    s[..7] + "000000"
  }

  /** The code under which the archive stores a barcode: price digits and check digit zeroed. */
  function Normalised(b: nat): nat {
    if KindOf(b) == Ean13PriceReq then
      assert AllDigits(ZeroPrice(ToDecimal(b)));
      FromDecimal(ZeroPrice(ToDecimal(b)))
    else b
  }

  /** The five digits after the seventh. */
  function EmbeddedPrice(b: nat): nat
    requires KindOf(b) == Ean13PriceReq
  {
    FromDecimal(ToDecimal(b)[7..12])
  }

  function Decode(barcodes: map<nat, BarcodeRow>, b: nat): Decoded {
    var n := Normalised(b);
    var row := Lookup(barcodes, n, NO_BARCODE);
    Decoded(KindOf(b), n, if row.code == n then row.itemCode else 0)
  }

  /** The same classification, stated on the number alone. */
  function KindByInterval(b: nat): Kind {
    if 260_000_000_000 <= b < 261_000_000_000 then LoyCard
    else if 26_000_000_000 <= b < 26_100_000_000 then LoyCard
    else if 2_000_000_000_000 <= b < 3_000_000_000_000 then Ean13PriceReq
    else if 1_000_000_000_000 <= b < 10_000_000_000_000 then Ean13
    else if 100_000_000_000 <= b < 1_000_000_000_000 then Upc
    else if 10_000_000 <= b < 100_000_000 then Ean8
    else NotRecognized
  }

  lemma PowersOfTen()
    ensures Pow10(1) == 10 && Pow10(5) == 100_000 && Pow10(6) == 1_000_000
    ensures Pow10(7) == 10_000_000 && Pow10(8) == 100_000_000 && Pow10(9) == 1_000_000_000
    ensures Pow10(10) == 10_000_000_000 && Pow10(11) == 100_000_000_000
    ensures Pow10(12) == 1_000_000_000_000 && Pow10(13) == 10_000_000_000_000
  {
    assert Pow10(3) == 1000;
    assert Pow10(5) == 100_000;
    assert Pow10(7) == 10_000_000;
    assert Pow10(9) == 1_000_000_000;
    assert Pow10(11) == 100_000_000_000;
    assert Pow10(13) == 10_000_000_000_000;
  }

  lemma Injective(m: nat, n: nat)
    requires ToDecimal(m) == ToDecimal(n)
    ensures m == n
  {
    ReadsBack(m);
    ReadsBack(n);
  }

  /** A numeral starts with p's digits exactly when dropping the digits after them leaves p. */
  lemma PrefixIsQuotient(b: nat, p: nat, k: nat)
    requires |ToDecimal(b)| == |ToDecimal(p)| + k
    ensures Matches(ToDecimal(b), ToDecimal(p), k) <==> b / Pow10(k) == p
  {
    CutTens(b, k);
    TensIsQuotient(b, k);
    var s := ToDecimal(b);
    if ToDecimal(p) <= s {
      assert s[..|s| - k] == ToDecimal(p);
      Injective(Tens(b, k), p);
    }
  }

  /** The cascade over the digits is a partition of the numbers into intervals. */
  lemma KindIsInterval(b: nat)
    ensures KindOf(b) == KindByInterval(b)
  {
    PowersOfTen();
    var s := ToDecimal(b);
    if b > 0 {
      LengthIs(b, 8);
      LengthIs(b, 11);
      LengthIs(b, 12);
      LengthIs(b, 13);
    }
    assert ToDecimal(260) == "260" by {
      assert ToDecimal(26) == "26";
    }
    assert ToDecimal(2) == "2";
    if |s| == 12 {
      PrefixIsQuotient(b, 260, 9);
    } else if |s| == 11 {
      PrefixIsQuotient(b, 260, 8);
    } else if |s| == 13 {
      PrefixIsQuotient(b, 2, 12);
    }
  }

  /** A weighed item's barcode is its normalised code, plus ten times the price, plus the check digit. */
  lemma PriceSplitsBarcode(b: nat)
    requires KindOf(b) == Ean13PriceReq
    ensures b == Normalised(b) + 10 * EmbeddedPrice(b) + b % 10
    ensures EmbeddedPrice(b) < 100_000
    ensures Normalised(b) == b / 1_000_000 * 1_000_000
  {
    PowersOfTen();
    NormalisedIsMultiple(b);
    PriceDigits(b);
    assert b / 1_000_000 == (b / 10) / 100_000;
  }

  lemma NormalisedIsMultiple(b: nat)
    requires KindOf(b) == Ean13PriceReq
    ensures Normalised(b) == b / 1_000_000 * 1_000_000
  {
    var s := ToDecimal(b);
    assert |s| == 13;
    PowersOfTen();
    CutTens(b, 6);
    TensIsQuotient(b, 6);
    AppendZeroes(s[..7], 6);
    SixZeroes(Tens(b, 6));
    ReadsBack(Tens(b, 6));
  }

  /** The five digits before the last one. */
  lemma PriceDigits(b: nat)
    requires KindOf(b) == Ean13PriceReq
    ensures EmbeddedPrice(b) == (b / 10) % 100_000
  {
    var s := ToDecimal(b);
    assert |s| == 13;
    PowersOfTen();
    CutOne(b, 1);
    var t := ToDecimal(b / 10);
    assert s[7..12] == t[7..];
    CutSuffix(b / 10, 5);
  }

  function Zeroes(k: nat): string {
    if k == 0 then "" else Zeroes(k - 1) + "0"
  }

  function Shifted(v: nat, k: nat): nat {
    if k == 0 then v else 10 * Shifted(v, k - 1)
  }

  lemma {:induction false} AppendZeroes(s: string, k: nat)
    requires AllDigits(s)
    ensures AllDigits(s + Zeroes(k))
    ensures FromDecimal(s + Zeroes(k)) == Shifted(FromDecimal(s), k)
  {
    if k == 0 {
      assert s + Zeroes(0) == s;
    } else {
      AppendZeroes(s, k - 1);
      SnocDigit(s + Zeroes(k - 1), '0');
      assert s + Zeroes(k) == (s + Zeroes(k - 1)) + "0";
    }
  }

  lemma SixZeroes(v: nat)
    ensures Zeroes(6) == "000000"
    ensures Shifted(v, 6) == v * 1_000_000
  {
    assert Zeroes(2) == "00";
    assert Zeroes(4) == "0000";
    assert Shifted(v, 1) == 10 * v;
    assert Shifted(v, 3) == 1_000 * v;
    assert Shifted(v, 5) == 100_000 * v;
  }

  lemma RoundedDown(b: nat, n: nat)
    requires n == b / 1_000_000 * 1_000_000
    ensures n / 1_000_000 * 1_000_000 == n
    ensures 2_000_000_000_000 <= b < 3_000_000_000_000 ==> 2_000_000_000_000 <= n < 3_000_000_000_000
  {
  }

  lemma WeighedInterval(b: nat)
    ensures KindOf(b) == Ean13PriceReq <==> 2_000_000_000_000 <= b < 3_000_000_000_000
  {
    KindIsInterval(b);
  }

  lemma NormalisedTwice(b: nat)
    ensures KindOf(Normalised(b)) == KindOf(b)
    ensures Normalised(Normalised(b)) == Normalised(b)
  {
    if KindOf(b) == Ean13PriceReq {
      var n := Normalised(b);
      NormalisedIsMultiple(b);
      RoundedDown(b, n);
      WeighedInterval(b);
      WeighedInterval(n);
      NormalisedIsMultiple(n);
    }
  }

  /** Decoding a normalised barcode finds the same item and leaves the barcode alone. */
  lemma DecodeIsIdempotent(barcodes: map<nat, BarcodeRow>, b: nat)
    ensures Decode(barcodes, Normalised(b)) == Decode(barcodes, b)
  {
    NormalisedTwice(b);
  }
}
