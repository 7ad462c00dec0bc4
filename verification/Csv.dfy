/**
 The comma separated grammar of the archive and transaction files: fields of quoted strings and plain
 characters, the numbers in them, and lines of a file.
 */
module Csv {
  import opened Decimal
  import opened Options

  // ----- the grammar

  /** The position of the first quote, or the length when there is none. */
  function FindQuote(s: string): (n: nat)
    ensures n <= |s|
  {
    if s == "" || s[0] == '\"' then 0 else 1 + FindQuote(s[1..])
  }

  /**
   One field: as many quoted strings and characters other than quote and comma as there are. A quote that
   is never closed ends the field.
   */
  function ScanField(s: string): (r: (string, string))
    ensures |r.1| <= |s|
    decreases |s|
  {
    if s == "" || s[0] == ',' then ("", s)
    else if s[0] == '\"' then
      var n := FindQuote(s[1..]);
      if n == |s| - 1 then ("", s)
      else
        var (text, rest) := ScanField(s[n + 2..]);
        (s[1..n + 1] + text, rest)
    else
      var (text, rest) := ScanField(s[1..]);
      ([s[0]] + text, rest)
  }

  /** Fields separated by commas, and what is left when no further comma follows. */
  function ScanFields(s: string): (seq<string>, string)
    decreases |s|
  {
    var (text, rest) := ScanField(s);
    if rest != "" && rest[0] == ',' then
      var (more, left) := ScanFields(rest[1..]);
      ([text] + more, left)
    else ([text], rest)
  }

  /** The fields of a line; a line not read to its end is malformed. */
  function ParseLine(s: string): Option<seq<string>> {
    var (fields, rest) := ScanFields(s);
    if rest == "" then Some(fields) else None
  }

  // ----- printing

  datatype Cell = Plain(text: string) | Quoted(text: string)

  predicate CellOk(c: Cell) {
    match c
    case Plain(text) => '\"' !in text && ',' !in text
    case Quoted(text) => '\"' !in text
  }

  function ShowCell(c: Cell): string {
    match c
    case Plain(text) => text
    case Quoted(text) => "\"" + text + "\""
  }

  function ShowCells(cells: seq<Cell>): string
    requires cells != []
  {
    if |cells| == 1 then ShowCell(cells[0]) else ShowCell(cells[0]) + "," + ShowCells(cells[1..])
  }

  function Number(n: nat): Cell {
    Plain(ToDecimal(n))
  }

  lemma ShowCons(c: Cell, rest: seq<Cell>)
    requires rest != []
    ensures ShowCells([c] + rest) == ShowCell(c) + "," + ShowCells(rest)
  {
    assert ([c] + rest)[1..] == rest;
  }

  lemma ShowTwo(a: Cell, b: Cell, rest: seq<Cell>)
    requires rest != []
    ensures ShowCells([a, b] + rest) == ShowCell(a) + "," + ShowCell(b) + "," + ShowCells(rest)
  {
    ShowCons(b, rest);
    ShowCons(a, [b] + rest);
    assert [a] + ([b] + rest) == [a, b] + rest;
    var x, y, z := ShowCell(a), ShowCell(b), ShowCells(rest);
    assert x + "," + (y + "," + z) == x + "," + y + "," + z;
  }

  lemma ShowPair(a: Cell, b: Cell)
    ensures ShowCells([a, b]) == ShowCell(a) + "," + ShowCell(b)
  {
    ShowCons(a, [b]);
    assert [a] + [b] == [a, b];
  }

  lemma ShowFour(a: Cell, b: Cell, c: Cell, d: Cell)
    ensures ShowCells([a, b, c, d]) == ShowCell(a) + "," + ShowCell(b) + "," + (ShowCell(c) + "," + ShowCell(d))
  {
    ShowPair(c, d);
    ShowTwo(a, b, [c, d]);
    assert [a, b] + [c, d] == [a, b, c, d];
  }

  function Texts(cells: seq<Cell>): (ts: seq<string>)
    ensures |ts| == |cells|
    ensures forall i :: 0 <= i < |cells| ==> ts[i] == cells[i].text
  {
    if cells == [] then [] else [cells[0].text] + Texts(cells[1..])
  }

  predicate AtFieldEnd(s: string) {
    s == "" || s[0] == ','
  }

  lemma {:induction false} QuoteFound(text: string, rest: string)
    requires '\"' !in text
    ensures FindQuote(text + "\"" + rest) == |text|
    decreases |text|
  {
    if text == "" {
      assert (text + "\"" + rest)[0] == '\"';
    } else {
      assert text[0] in text;
      assert (text + "\"" + rest)[1..] == text[1..] + "\"" + rest;
      QuoteFound(text[1..], rest);
    }
  }

  lemma ScanQuotedThen(text: string, more: string)
    requires '\"' !in text
    ensures ScanField("\"" + text + "\"" + more) == (text + ScanField(more).0, ScanField(more).1)
  {
    var s := "\"" + text + "\"" + more;
    assert s[1..] == text + "\"" + more;
    QuoteFound(text, more);
    assert s[|text| + 2..] == more;
    assert s[1..|text| + 1] == text;
  }

  lemma {:induction false} ScanPlainThen(text: string, more: string)
    requires '\"' !in text && ',' !in text
    ensures ScanField(text + more) == (text + ScanField(more).0, ScanField(more).1)
    decreases |text|
  {
    if text == "" {
      assert text + more == more;
      assert "" + ScanField(more).0 == ScanField(more).0;
    } else {
      assert text[0] in text;
      assert (text + more)[1..] == text[1..] + more;
      ScanPlainThen(text[1..], more);
      assert [text[0]] + (text[1..] + ScanField(more).0) == text + ScanField(more).0;
    }
  }

  lemma ScanQuoted(text: string, rest: string)
    requires '\"' !in text && AtFieldEnd(rest)
    ensures ScanField("\"" + text + "\"" + rest) == (text, rest)
  {
    ScanQuotedThen(text, rest);
    assert text + "" == text;
  }

  lemma ScanPlain(text: string, rest: string)
    requires '\"' !in text && ',' !in text && AtFieldEnd(rest)
    ensures ScanField(text + rest) == (text, rest)
  {
    ScanPlainThen(text, rest);
    assert text + "" == text;
  }

  lemma ScanCell(c: Cell, rest: string)
    requires CellOk(c) && AtFieldEnd(rest)
    ensures ScanField(ShowCell(c) + rest) == (c.text, rest)
  {
    match c
    case Plain(text) => ScanPlain(text, rest);
    case Quoted(text) => ScanQuoted(text, rest);
  }

  /** Parsing printed cells gives their texts back; commas inside quotes are kept. */
  lemma {:induction false} CellsParse(cells: seq<Cell>)
    requires cells != [] && forall i :: 0 <= i < |cells| ==> CellOk(cells[i])
    ensures ScanFields(ShowCells(cells)) == (Texts(cells), "")
    decreases |cells|
  {
    var first := ShowCell(cells[0]);
    if |cells| == 1 {
      ScanCell(cells[0], "");
      assert first + "" == first;
      assert Texts(cells) == [cells[0].text];
    } else {
      var rest := "," + ShowCells(cells[1..]);
      ScanCell(cells[0], rest);
      assert first + "," + ShowCells(cells[1..]) == first + rest;
      assert rest[1..] == ShowCells(cells[1..]);
      CellsParse(cells[1..]);
    }
  }

  // ----- fields of several pieces

  /** A field written as quoted strings and plain characters next to each other. */
  function ShowPieces(ps: seq<Cell>): string {
    if ps == [] then "" else ShowCell(ps[0]) + ShowPieces(ps[1..])
  }

  function PiecesText(ps: seq<Cell>): string {
    if ps == [] then "" else ps[0].text + PiecesText(ps[1..])
  }

  predicate PiecesOk(ps: seq<Cell>) {
    forall i :: 0 <= i < |ps| ==> CellOk(ps[i])
  }

  lemma {:induction false} ScanPieces(ps: seq<Cell>, rest: string)
    requires PiecesOk(ps) && AtFieldEnd(rest)
    ensures ScanField(ShowPieces(ps) + rest) == (PiecesText(ps), rest)
    decreases |ps|
  {
    if ps == [] {
      assert "" + rest == rest;
    } else {
      var more := ShowPieces(ps[1..]) + rest;
      ScanPieces(ps[1..], rest);
      assert ShowPieces(ps) + rest == ShowCell(ps[0]) + more;
      match ps[0]
      case Plain(text) => ScanPlainThen(text, more);
      case Quoted(text) => ScanQuotedThen(text, more);
    }
  }

  function ShowFields(fields: seq<seq<Cell>>): string
    requires fields != []
  {
    if |fields| == 1 then ShowPieces(fields[0]) else ShowPieces(fields[0]) + "," + ShowFields(fields[1..])
  }

  function FieldTexts(fields: seq<seq<Cell>>): seq<string> {
    if fields == [] then [] else [PiecesText(fields[0])] + FieldTexts(fields[1..])
  }

  lemma ScanLast(ps: seq<Cell>)
    requires PiecesOk(ps)
    ensures ScanFields(ShowPieces(ps)) == ([PiecesText(ps)], "")
  {
    ScanPieces(ps, "");
    assert ShowPieces(ps) + "" == ShowPieces(ps);
  }

  lemma ScanFirst(ps: seq<Cell>, line: string)
    requires PiecesOk(ps)
    ensures ScanFields(ShowPieces(ps) + ("," + line)) == ([PiecesText(ps)] + ScanFields(line).0, ScanFields(line).1)
  {
    ScanPieces(ps, "," + line);
    assert ("," + line)[1..] == line;
  }

  lemma {:induction false} FieldsScan(fields: seq<seq<Cell>>)
    requires fields != [] && forall i :: 0 <= i < |fields| ==> PiecesOk(fields[i])
    ensures ScanFields(ShowFields(fields)) == (FieldTexts(fields), "")
    decreases |fields|
  {
    if |fields| == 1 {
      ScanLast(fields[0]);
      assert FieldTexts(fields[1..]) == [];
      assert FieldTexts(fields) == [PiecesText(fields[0])];
    } else {
      FieldsScan(fields[1..]);
      ScanFirst(fields[0], ShowFields(fields[1..]));
      Joins(ShowPieces(fields[0]), ShowFields(fields[1..]));
    }
  }

  lemma Joins(a: string, b: string)
    ensures a + "," + b == a + ("," + b)
  {
  }

  /** A line parses to its fields however each is put together: quotes go, and commas inside them stay. */
  lemma FieldsParse(fields: seq<seq<Cell>>)
    requires fields != [] && forall i :: 0 <= i < |fields| ==> PiecesOk(fields[i])
    ensures ParseLine(ShowFields(fields)) == Some(FieldTexts(fields))
  {
    FieldsScan(fields);
  }

  // ----- numbers

  const MAX_U64 := 0xFFFF_FFFF_FFFF_FFFF
  const MAX_I64 := 0x7FFF_FFFF_FFFF_FFFF

  /** The digits a number starts with. */
  function DigitPrefix(s: string): (d: string)
    ensures AllDigits(d)
  {
    if s == "" || !IsDigit(s[0]) then "" else [s[0]] + DigitPrefix(s[1..])
  }

  predicate IsSpace(c: char) {
    c == ' ' || ('\t' <= c <= '\r')
  }

  /** Tab, line feed, vertical tab, form feed, carriage return and space. */
  lemma SpacesAre(c: char)
    ensures IsSpace(c) <==> c as int in {9, 10, 11, 12, 13, 32}
  {
  }

  function SkipSpaces(s: string): string {
    if s != "" && IsSpace(s[0]) then SkipSpaces(s[1..]) else s
  }

  /** Whether the number is signed below zero, and the digits it starts with. */
  function Signed(s: string): (bool, nat) {
    var t := SkipSpaces(s);
    if t != "" && t[0] == '-' then (true, FromDecimal(DigitPrefix(t[1..])))
    else if t != "" && t[0] == '+' then (false, FromDecimal(DigitPrefix(t[1..])))
    else (false, FromDecimal(DigitPrefix(t)))
  }

  /** strtoull: a value too large reads as the largest; a minus sign counts down from 2^64. */
  function ReadUnsigned(s: string): nat {
    var (below, v) := Signed(s);
    if v > MAX_U64 then MAX_U64 else if below && v > 0 then MAX_U64 + 1 - v else v
  }

  /** strtol: a value out of range reads as the nearest bound. */
  function ReadSigned(s: string): int {
    var (below, n) := Signed(s);
    var v: int := n;
    if below then (if v > MAX_I64 + 1 then -(MAX_I64 + 1) else -v)
    else if v > MAX_I64 then MAX_I64
    else v
  }

  lemma {:induction false} PrefixOfMore(s: string, rest: string)
    requires AllDigits(s) && (rest == "" || !IsDigit(rest[0]))
    ensures DigitPrefix(s + rest) == s
    decreases |s|
  {
    if s == "" {
      assert s + rest == rest;
    } else {
      assert (s + rest)[1..] == s[1..] + rest;
      PrefixOfMore(s[1..], rest);
    }
  }

  lemma {:induction false} SpacesSkipped(blank: string, s: string)
    requires Spaces(blank) && (s == "" || !IsSpace(s[0]))
    ensures SkipSpaces(blank + s) == s
    decreases |blank|
  {
    if blank == "" {
      assert blank + s == s;
    } else {
      assert (blank + s)[1..] == blank[1..] + s;
      SpacesSkipped(blank[1..], s);
    }
  }

  predicate Spaces(blank: string) {
    forall i :: 0 <= i < |blank| ==> IsSpace(blank[i])
  }

  /** A number after spaces, whatever follows its digits: its value, or the nearest the column holds. */
  lemma NumberReads(blank: string, n: nat, rest: string)
    requires Spaces(blank) && (rest == "" || !IsDigit(rest[0]))
    ensures ReadUnsigned(blank + (ToDecimal(n) + rest)) == if n > MAX_U64 then MAX_U64 else n
    ensures ReadSigned(blank + (ToDecimal(n) + rest)) == if n > MAX_I64 then MAX_I64 else n
  {
    var s := ToDecimal(n) + rest;
    assert IsDigit(ToDecimal(n)[0]) && s[0] == ToDecimal(n)[0];
    SpacesSkipped(blank, s);
    PrefixOfMore(ToDecimal(n), rest);
    ReadsBack(n);
  }

  lemma SignedOfNegative(blank: string, n: nat, rest: string)
    requires Spaces(blank) && (rest == "" || !IsDigit(rest[0]))
    ensures Signed(blank + ("-" + (ToDecimal(n) + rest))) == (true, n)
  {
    var s := "-" + (ToDecimal(n) + rest);
    SpacesSkipped(blank, s);
    assert s[1..] == ToDecimal(n) + rest;
    PrefixOfMore(ToDecimal(n), rest);
    ReadsBack(n);
  }

  lemma NegativeReads(blank: string, n: nat, rest: string)
    requires Spaces(blank) && (rest == "" || !IsDigit(rest[0]))
    ensures ReadSigned(blank + ("-" + (ToDecimal(n) + rest))) ==
            if n > MAX_I64 + 1 then -(MAX_I64 + 1) else 0 - n
    ensures ReadUnsigned(blank + ("-" + (ToDecimal(n) + rest))) ==
            if n > MAX_U64 then MAX_U64 else if n == 0 then 0 else MAX_U64 + 1 - n
  {
    SignedOfNegative(blank, n, rest);
  }

  /** A plus sign changes nothing, and without digits the number is zero. */
  lemma PlusReads(n: nat, rest: string)
    requires rest == "" || !IsDigit(rest[0])
    ensures ReadUnsigned("+" + (ToDecimal(n) + rest)) == if n > MAX_U64 then MAX_U64 else n
    ensures rest != "" && !IsSpace(rest[0]) && rest[0] != '+' && rest[0] != '-' ==>
              ReadUnsigned(rest) == 0 && ReadSigned(rest) == 0
  {
    var s := "+" + (ToDecimal(n) + rest);
    assert s[1..] == ToDecimal(n) + rest;
    PrefixOfMore(ToDecimal(n), rest);
    ReadsBack(n);
  }

  lemma DigitsAreOk(s: string)
    requires AllDigits(s)
    ensures CellOk(Plain(s)) && CellOk(Plain("-" + s))
  {
  }

  lemma UnsignedReadsBack(n: nat)
    requires n <= MAX_U64
    ensures ReadUnsigned(ToDecimal(n)) == n
    ensures CellOk(Plain(ToDecimal(n)))
  {
    NumberReads("", n, "");
    DigitsAreOk(ToDecimal(n));
    Alone(ToDecimal(n));
  }

  lemma Alone(s: string)
    ensures "" + (s + "") == s
  {
  }

  lemma SignedReadsBack(v: int)
    requires -(MAX_I64 + 1) <= v <= MAX_I64
    ensures ReadSigned(ToSigned(v)) == v
    ensures CellOk(Plain(ToSigned(v)))
  {
    var m := if v < 0 then -v else v;
    if v < 0 {
      DigitsAreOk(ToDecimal(m));
      NegativeReads("", m, "");
      assert "" + ("-" + (ToDecimal(m) + "")) == ToSigned(v);
    } else {
      DigitsAreOk(ToDecimal(m));
      NumberReads("", m, "");
      Alone(ToDecimal(m));
    }
  }

  // ----- lines

  function FindNewline(s: string): (n: nat)
    ensures n <= |s|
  {
    if s == "" || s[0] == '\n' then 0 else 1 + FindNewline(s[1..])
  }

  /** getline: the line, without its newline, and what follows. */
  function FirstLine(s: string): (r: (string, string))
    ensures s != "" ==> |r.1| < |s|
  {
    var n := FindNewline(s);
    if n == |s| then (s, "") else (s[..n], s[n + 1..])
  }

  lemma {:induction false} NewlineFound(line: string, rest: string)
    requires '\n' !in line
    ensures FindNewline(line + "\n" + rest) == |line|
    decreases |line|
  {
    if line == "" {
      assert (line + "\n" + rest)[0] == '\n';
    } else {
      assert line[0] in line;
      assert (line + "\n" + rest)[1..] == line[1..] + "\n" + rest;
      NewlineFound(line[1..], rest);
    }
  }

  lemma LineSplits(line: string, rest: string)
    requires '\n' !in line
    ensures FirstLine(line + "\n" + rest) == (line, rest)
  {
    NewlineFound(line, rest);
    var s := line + "\n" + rest;
    assert s[..|line|] == line && s[|line| + 1..] == rest;
  }

  lemma {:induction false} NoNewlineFound(line: string)
    requires '\n' !in line
    ensures FindNewline(line) == |line|
    decreases |line|
  {
    if line != "" {
      assert line[0] in line;
      NoNewlineFound(line[1..]);
    }
  }

  /** A last line may end without a newline. */
  lemma LastLine(line: string)
    requires '\n' !in line
    ensures FirstLine(line) == (line, "")
  {
    NoNewlineFound(line);
  }

  lemma {:induction false} CellsHaveNoNewline(cells: seq<Cell>)
    requires cells != [] && forall i :: 0 <= i < |cells| ==> '\n' !in cells[i].text
    ensures '\n' !in ShowCells(cells)
    decreases |cells|
  {
    if |cells| > 1 {
      CellsHaveNoNewline(cells[1..]);
    }
  }

  // ----- cells that print and parse without trouble

  predicate Clean(cells: seq<Cell>) {
    forall i :: 0 <= i < |cells| ==> CellOk(cells[i]) && '\n' !in cells[i].text
  }

  lemma NumberIsClean(n: nat)
    ensures Clean([Number(n)])
  {
  }

  lemma CleanBoth(a: seq<Cell>, b: seq<Cell>)
    requires Clean(a) && Clean(b)
    ensures Clean(a + b)
  {
  }

  lemma SignedIsClean(v: int)
    ensures Clean([Plain(ToSigned(v))])
  {
  }
}
