/** Percent decoding of the request's URI, over bytes held as characters up to 255. */
module UrlDecode {
  import opened Options

  predicate IsHex(c: char) {
    '0' <= c <= '9' || 'A' <= c <= 'F' || 'a' <= c <= 'f'
  }

  function HexValue(c: char): (v: nat)
    requires IsHex(c)
    ensures v < 16
  {
    if c <= '9' then c as int - '0' as int
    else if c <= 'F' then c as int - 'A' as int + 10
    else c as int - 'a' as int + 10
  }

  predicate IsSpace(c: char) {
    c == ' ' || ('\t' <= c <= '\r')
  }

  /** Tab, line feed, vertical tab, form feed, carriage return and space. */
  lemma SpacesAre(c: char)
    ensures IsSpace(c) <==> c as int in {9, 10, 11, 12, 13, 32}
  {
  }

  /**
   The byte that reading a hexadecimal integer from two characters yields: white space is skipped, a sign
   is taken, reading stops at a character that is no digit, and a bare "0x" is no number.
   */
  function ReadHex(a: char, b: char): Option<char> {
    if IsHex(a) then
      if IsHex(b) then Some((HexValue(a) * 16 + HexValue(b)) as char)
      else if a == '0' && (b == 'x' || b == 'X') then None
      else Some(HexValue(a) as char)
    else if (IsSpace(a) || a == '+') && IsHex(b) then Some(HexValue(b) as char)
    else if a == '-' && IsHex(b) then Some(((256 - HexValue(b)) % 256) as char)
    else None
  }

  // ----- the same reading, for a text of any length

  predicate IsHexPrefix(s: string) {
    |s| >= 2 && s[0] == '0' && (s[1] == 'x' || s[1] == 'X')
  }

  function SkipSpaces(s: string): string {
    if s != "" && IsSpace(s[0]) then SkipSpaces(s[1..]) else s
  }

  function HexRun(s: string): (d: string)
    ensures forall i :: 0 <= i < |d| ==> IsHex(d[i])
  {
    if s == "" || !IsHex(s[0]) then "" else [s[0]] + HexRun(s[1..])
  }

  function HexNumber(d: string): nat
    requires forall i :: 0 <= i < |d| ==> IsHex(d[i])
  {
    if d == "" then 0 else HexNumber(d[..|d| - 1]) * 16 + HexValue(d[|d| - 1])
  }

  /** The hexadecimal digits a text starts with, after a base prefix if there is one; without any, no number. */
  function UnsignedHex(s: string): Option<int> {
    var digits := HexRun(if IsHexPrefix(s) then s[2..] else s);
    if digits == "" then None else Some(HexNumber(digits))
  }

  /** Spaces, a sign, and the digits. */
  function StreamHex(s: string): Option<int> {
    var t := SkipSpaces(s);
    if t != "" && t[0] == '-' then
      match UnsignedHex(t[1..])
      case None => None
      case Some(v) => Some(-v)
    else UnsignedHex(if t != "" && t[0] == '+' then t[1..] else t)
  }

  lemma HexOfTwo(a: char, b: char)
    ensures UnsignedHex([b]) == if IsHex(b) then Some(HexValue(b)) else None
    ensures UnsignedHex([a, b]) ==
            if !IsHex(a) || IsHexPrefix([a, b]) then None
            else if IsHex(b) then Some(HexValue(a) * 16 + HexValue(b))
            else Some(HexValue(a))
  {
    assert [b][1..] == "" && [a, b][1..] == [b] && [a, b][2..] == "";
    assert HexRun([b]) == if IsHex(b) then [b] else "";
    assert HexRun([a, b]) == if !IsHex(a) then "" else if IsHex(b) then [a, b] else [a];
    if IsHex(a) {
      assert [a][..0] == "" && HexNumber([a]) == HexValue(a);
      if IsHex(b) {
        assert [a, b][..1] == [a];
      }
    }
    if IsHex(b) {
      assert [b][..0] == "" && HexNumber([b]) == HexValue(b);
    }
  }

  /** Of two characters, the byte read is the low byte of the number a stream reads. */
  lemma ReadHexIsStreamHex(a: char, b: char)
    ensures ReadHex(a, b) ==
            match StreamHex([a, b])
            case None => None
            case Some(v) => Some((v % 256) as char)
  {
    HexOfTwo(a, b);
    assert [a, b][1..] == [b] && [b][1..] == "";
    assert UnsignedHex("") == None;
    if IsSpace(a) {
      assert SkipSpaces([b]) == if IsSpace(b) then "" else [b];
      assert SkipSpaces([a, b]) == SkipSpaces([b]);
    }
  }

  // ----- decoding

  /** Success, and what was written: on failure, everything before the offending escape. */
  function Decoded(s: string): (bool, string)
    decreases |s|
  {
    if s == "" then (true, "")
    else if s[0] == '%' then
      if |s| < 3 || ReadHex(s[1], s[2]) == None then (false, "")
      else
        var (ok, rest) := Decoded(s[3..]);
        (ok, [ReadHex(s[1], s[2]).value] + rest)
    else
      var (ok, rest) := Decoded(s[1..]);
      (ok, [if s[0] == '+' then ' ' else s[0]] + rest)
  }

  /** What remains to be decoded, after what has been written. */
  ghost predicate Continues(whole: (bool, string), out: string, left: string) {
    var (ok, rest) := Decoded(left);
    whole == (ok, out + rest)
  }

  lemma Writes(whole: (bool, string), out: string, c: char, left: string, left': string)
    requires Continues(whole, out, left)
    requires Decoded(left) == (Decoded(left').0, [c] + Decoded(left').1)
    ensures Continues(whole, out + [c], left')
  {
    var rest := Decoded(left').1;
    assert out + ([c] + rest) == (out + [c]) + rest;
  }

  lemma Stops(whole: (bool, string), out: string, left: string)
    requires Continues(whole, out, left) && Decoded(left).1 == ""
    ensures whole == (Decoded(left).0, out)
  {
    assert out + "" == out;
  }

  method Decode(input: string) returns (ok: bool, out: string)
    ensures (ok, out) == Decoded(input)
  {
    out := "";
    var i := 0;
    ghost var whole := Decoded(input);
    assert input[0..] == input;
    assert "" + whole.1 == whole.1;
    while i < |input|
      invariant 0 <= i <= |input|
      invariant Continues(whole, out, input[i..])
    {
      ghost var left := input[i..];
      if input[i] == '%' {
        if i + 3 <= |input| {
          var value := ReadHex(input[i + 1], input[i + 2]);
          if value != None {
            assert left[3..] == input[i + 3..];
            Writes(whole, out, value.value, left, left[3..]);
            out := out + [value.value];
            i := i + 2;
          } else {
            Stops(whole, out, left);
            return false, out;
          }
        } else {
          Stops(whole, out, left);
          return false, out;
        }
      } else if input[i] == '+' {
        assert left[1..] == input[i + 1..];
        Writes(whole, out, ' ', left, left[1..]);
        out := out + [' '];
      } else {
        assert left[1..] == input[i + 1..];
        Writes(whole, out, input[i], left, left[1..]);
        out := out + [input[i]];
      }
      i := i + 1;
    }
    Stops(whole, out, input[i..]);
    ok := true;
  }

  // ----- encoded texts

  /** One byte of an encoded text: itself, a plus for a space, or an escape in either case of letters. */
  datatype Piece = Literal(c: char) | Plus | Escape(high: char, low: char)

  predicate PieceOk(p: Piece) {
    match p
    case Literal(c) => c != '%' && c != '+'
    case Plus => true
    case Escape(high, low) => IsHex(high) && IsHex(low)
  }

  function Render(ps: seq<Piece>): string {
    if ps == [] then ""
    else
      (match ps[0]
       case Literal(c) => [c]
       case Plus => "+"
       case Escape(high, low) => ['%', high, low]) + Render(ps[1..])
  }

  function ByteOf(p: Piece): char
    requires PieceOk(p)
  {
    match p
    case Literal(c) => c
    case Plus => ' '
    case Escape(high, low) => (HexValue(high) * 16 + HexValue(low)) as char
  }

  predicate PiecesOk(ps: seq<Piece>) {
    forall i :: 0 <= i < |ps| ==> PieceOk(ps[i])
  }

  function Bytes(ps: seq<Piece>): (s: string)
    requires PiecesOk(ps)
    ensures |s| == |ps|
  {
    if ps == [] then "" else [ByteOf(ps[0])] + Bytes(ps[1..])
  }

  function Escapes(ps: seq<Piece>): nat {
    if ps == [] then 0 else (if ps[0].Escape? then 1 else 0) + Escapes(ps[1..])
  }

  /** Decoding undoes any encoding, and is shorter than its input by two for each escape. */
  lemma {:induction false} DecodesPieces(ps: seq<Piece>)
    requires PiecesOk(ps)
    ensures Decoded(Render(ps)) == (true, Bytes(ps))
    ensures |Bytes(ps)| == |Render(ps)| - 2 * Escapes(ps)
    decreases |ps|
  {
    if ps != [] {
      DecodesPieces(ps[1..]);
      var s, rest := Render(ps), Render(ps[1..]);
      match ps[0] {
        case Literal(c) => assert s[1..] == rest;
        case Plus => assert s[1..] == rest;
        case Escape(high, low) => assert s[1] == high && s[2] == low && s[3..] == rest;
      }
    }
  }

  /** Every percent sign is followed by two hexadecimal digits, escape after escape. */
  predicate WellEscaped(s: string)
    decreases |s|
  {
    s == "" ||
    (if s[0] == '%' then |s| >= 3 && IsHex(s[1]) && IsHex(s[2]) && WellEscaped(s[3..]) else WellEscaped(s[1..]))
  }

  function PiecesOf(s: string): (ps: seq<Piece>)
    requires WellEscaped(s)
    ensures PiecesOk(ps)
    decreases |s|
  {
    if s == "" then []
    else if s[0] == '%' then [Escape(s[1], s[2])] + PiecesOf(s[3..])
    else [if s[0] == '+' then Plus else Literal(s[0])] + PiecesOf(s[1..])
  }

  lemma RenderCons(p: Piece, ps: seq<Piece>)
    ensures Render([p] + ps) ==
            (match p case Literal(c) => [c] case Plus => "+" case Escape(high, low) => ['%', high, low]) + Render(ps)
  {
    assert ([p] + ps)[1..] == ps;
  }

  lemma {:induction false} WellEscapedIsEncoded(s: string)
    requires WellEscaped(s)
    ensures Render(PiecesOf(s)) == s
    decreases |s|
  {
    if s == "" {
    } else if s[0] == '%' {
      WellEscapedIsEncoded(s[3..]);
      RenderCons(Escape(s[1], s[2]), PiecesOf(s[3..]));
      assert ['%', s[1], s[2]] + s[3..] == s;
    } else {
      WellEscapedIsEncoded(s[1..]);
      RenderCons(if s[0] == '+' then Plus else Literal(s[0]), PiecesOf(s[1..]));
      assert [s[0]] + s[1..] == s;
    }
  }

  /** So every well-escaped text decodes, losing two characters for each escape in it. */
  lemma {:induction false} WellEscapedDecodes(s: string)
    requires WellEscaped(s)
    ensures Decoded(s).0 && |Decoded(s).1| == |s| - 2 * Escapes(PiecesOf(s))
  {
    WellEscapedIsEncoded(s);
    DecodesPieces(PiecesOf(s));
  }

  // ----- the encoder

  const CAPITALS := "0123456789ABCDEF"
  const SMALL := "0123456789abcdef"

  /** The sixteen digits in either case, at their values. */
  lemma HexValues(v: nat)
    requires v < 16
    ensures IsHex(CAPITALS[v]) && HexValue(CAPITALS[v]) == v
    ensures IsHex(SMALL[v]) && HexValue(SMALL[v]) == v
  {
  }

  function HexDigit(v: nat, small: bool): char
    requires v < 16
  {
    if small then SMALL[v] else CAPITALS[v]
  }

  predicate Unreserved(c: char) {
    'a' <= c <= 'z' || 'A' <= c <= 'Z' || '0' <= c <= '9' || c == '-' || c == '.' || c == '_' || c == '~'
  }

  predicate AllBytes(s: string) {
    forall i :: 0 <= i < |s| ==> s[i] as int < 256
  }

  /** Which of the two digits of a byte's escape are written small. */
  datatype Case = Case(high: bool, low: bool)

  /** Unreserved characters as they are, every other byte escaped, in the letters chosen for it. */
  function Encode(s: string, cases: seq<Case>): string
    requires AllBytes(s) && |cases| == |s|
  {
    if s == "" then ""
    else if Unreserved(s[0]) then [s[0]] + Encode(s[1..], cases[1..])
    else EscapeOf(s[0], cases[0]) + Encode(s[1..], cases[1..])
  }

  function EscapeOf(c: char, small: Case): string
    requires c as int < 256
  {
    ['%', HexDigit(c as int / 16, small.high), HexDigit(c as int % 16, small.low)]
  }

  lemma EscapeDecodes(c: char, small: Case, rest: string)
    requires c as int < 256
    ensures Decoded(EscapeOf(c, small) + rest) == (Decoded(rest).0, [c] + Decoded(rest).1)
  {
    var high, low := HexDigit(c as int / 16, small.high), HexDigit(c as int % 16, small.low);
    HexValues(c as int / 16);
    HexValues(c as int % 16);
    TwoDigits(c, high, low);
    var s := ['%', high, low] + rest;
    assert s[1] == high && s[2] == low && s[3..] == rest;
    StepOver(s, c, 3);
  }

  lemma TwoDigits(c: char, high: char, low: char)
    requires c as int < 256 && IsHex(high) && IsHex(low)
    requires HexValue(high) == c as int / 16 && HexValue(low) == c as int % 16
    ensures ReadHex(high, low) == Some(c)
  {
    assert (HexValue(high) * 16 + HexValue(low)) as char == c;
  }

  /** Decoding undoes percent-encoding on every byte string, whatever the case of each digit. */
  lemma {:induction false} DecodeInvertsEncode(s: string, cases: seq<Case>)
    requires AllBytes(s) && |cases| == |s|
    ensures Decoded(Encode(s, cases)) == (true, s)
    decreases |s|
  {
    if s != "" {
      DecodeInvertsEncode(s[1..], cases[1..]);
      var rest := Encode(s[1..], cases[1..]);
      assert s == [s[0]] + s[1..];
      if Unreserved(s[0]) {
        assert ([s[0]] + rest)[1..] == rest;
      } else {
        EscapeDecodes(s[0], cases[0], rest);
      }
    }
  }

  lemma StepOver(s: string, byte: char, n: nat)
    requires s != "" && n <= |s|
    requires if s[0] == '%' then n == 3 && ReadHex(s[1], s[2]) == Some(byte)
             else n == 1 && byte == (if s[0] == '+' then ' ' else s[0])
    ensures Decoded(s) == (Decoded(s[n..]).0, [byte] + Decoded(s[n..]).1)
  {
  }

  /** A path as a browser might send it, and one that ends in the middle of an escape. */
  lemma TwoPaths()
    ensures Decoded("a+%2F%7e") == (true, "a /~")
    ensures Decoded("a%2") == (false, "a")
  {
    var s, t := "a+%2F%7e", "a%2";
    assert s[1..] == "+%2F%7e" && s[1..][1..] == "%2F%7e" && "%2F%7e"[3..] == "%7e" && "%7e"[3..] == "" &&
        t[1..] == "%2";
    assert ReadHex('2', 'F') == Some('/') && ReadHex('7', 'e') == Some('~');
    StepOver("%7e", '~', 3);
    StepOver("%2F%7e", '/', 3);
    StepOver("+%2F%7e", ' ', 1);
    StepOver(s, 'a', 1);
    assert ['~'] + "" == "~" && ['/'] + "~" == "/~" && [' '] + "/~" == " /~" && ['a'] + " /~" == "a /~";
    assert Decoded("%2") == (false, "") && ['a'] + "" == "a";
    StepOver(t, 'a', 1);
  }
}
