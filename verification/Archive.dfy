/**
 The archives kept in memory by code, dumped to text in ascending order of code, and read back line by
 line.
 */
module Archive {
  import opened Catalogue
  import opened Decimal
  import opened MapSum
  import opened Options
  import opened Csv
  import Barcode

  // ----- an archive in memory

  /** The keys in the order the archive is walked. */
  ghost function InOrder(keys: set<nat>): (s: seq<nat>)
    ensures forall i :: 0 <= i < |s| ==> s[i] in keys
    ensures forall k :: k in keys ==> k in s
    decreases |keys|
  {
    if keys == {} then []
    else
      var k := Least(keys);
      [k] + InOrder(keys - {k})
  }

  predicate KeysThere<T>(elements: map<nat, T>, keys: seq<nat>) {
    forall i :: 0 <= i < |keys| ==> keys[i] in elements
  }

  /** The lines of the elements under some keys. */
  function Dump<T>(elements: map<nat, T>, show: T -> string, keys: seq<nat>): string
    requires KeysThere(elements, keys)
  {
    if keys == [] then "" else show(elements[keys[0]]) + "\n" + Dump(elements, show, keys[1..])
  }

  lemma DumpStep<T>(elements: map<nat, T>, show: T -> string, left: set<nat>, k: nat)
    requires left <= elements.Keys && k in left && forall x :: x in left ==> k <= x
    ensures Dump(elements, show, InOrder(left)) == show(elements[k]) + "\n" + Dump(elements, show, InOrder(left - {k}))
  {
    assert k == Least(left);
    var keys := InOrder(left);
    assert keys[0] == k && keys[1..] == InOrder(left - {k});
  }

  lemma DumpMore<T>(elements: map<nat, T>, show: T -> string, left: set<nat>, k: nat, file: string)
    requires left <= elements.Keys && k in left && forall x :: x in left ==> k <= x
    ensures (file + (show(elements[k]) + "\n")) + Dump(elements, show, InOrder(left - {k})) ==
            file + Dump(elements, show, InOrder(left))
  {
    DumpStep(elements, show, left, k);
    Associates(file, show(elements[k]) + "\n", Dump(elements, show, InOrder(left - {k})));
  }

  lemma Associates(a: string, b: string, c: string)
    ensures (a + b) + c == a + (b + c)
  {
  }

  class ArchiveMap<T> {
    const codeOf: T -> nat
    const show: T -> string
    const blank: T
    var elements: map<nat, T>

    constructor (codeOf: T -> nat, show: T -> string, blank: T)
      ensures elements == map[] && this.codeOf == codeOf && this.show == show && this.blank == blank
    {
      this.codeOf, this.show, this.blank := codeOf, show, blank;
      elements := map[];
    }

    method AddElement(element: T)
      modifies this
      ensures elements == old(elements)[codeOf(element) := element]
    {
      elements := elements[codeOf(element) := element];
    }

    /** operator[]: a missing element is inserted blank, which no lookup can tell from its absence. */
    method At(key: nat) returns (element: T)
      modifies this
      ensures element == Lookup(old(elements), key, blank)
      ensures elements == old(elements)[key := element]
      ensures forall k: nat :: Lookup(elements, k, blank) == Lookup(old(elements), k, blank)
    {
      if key !in elements {
        elements := elements[key := blank];
      }
      element := elements[key];
    }

    /** The file: one line per element, in ascending order of code. */
    method DumpToFile() returns (file: string)
      ensures file == Dump(elements, show, InOrder(elements.Keys))
    {
      file := "";
      var left := elements.Keys;
      ghost var whole := Dump(elements, show, InOrder(left));
      while left != {}
        invariant left <= elements.Keys
        invariant file + Dump(elements, show, InOrder(left)) == whole
        decreases |left|
      {
        ghost var least := Least(left);
        var k :| k in left && forall x :: x in left ==> k <= x;
        DumpMore(elements, show, left, k, file);
        file := file + (show(elements[k]) + "\n");
        left := left - {k};
      }
    }
  }

  /** Decoding against a live archive leaves blank rows behind; no later decoding changes for it. */
  method DecodeBarcode(archive: ArchiveMap<BarcodeRow>, b: nat) returns (d: Barcode.Decoded)
    requires archive.blank == NO_BARCODE
    modifies archive
    ensures d == Barcode.Decode(old(archive.elements), b)
    ensures forall x: nat :: Barcode.Decode(archive.elements, x) == Barcode.Decode(old(archive.elements), x)
  {
    var n := Barcode.Normalised(b);
    var row := archive.At(n);
    var code := 0;
    if row.code == n {
      row := archive.At(n);
      code := row.itemCode;
    }
    d := Barcode.Decoded.Decoded(Barcode.KindOf(b), n, code);
  }

  // ----- items as text

  function ItemCells(item: Item): seq<Cell> {
    [Plain(ToDecimal(item.code)), Quoted(item.description), Plain(ToDecimal(item.department)),
     Plain(ToSigned(item.price)), Plain(ToDecimal(item.linkedBarcode))]
  }

  function ItemText(item: Item): string {
    ToDecimal(item.code) + ",\"" + item.description + "\"" + "," + ToDecimal(item.department)
    + "," + ToSigned(item.price) + "," + ToDecimal(item.linkedBarcode)
  }

  lemma JoinsFive(a: string, b: string, c: string, d: string, e: string)
    ensures a + ",\"" + b + "\"" + "," + c + "," + d + "," + e ==
            a + "," + (("\"" + b + "\"") + "," + c + "," + (d + "," + e))
  {
    assert ",\"" == "," + "\"";
  }

  lemma ItemTextIsCells(item: Item)
    ensures ItemText(item) == ShowCells(ItemCells(item))
  {
    var cells := ItemCells(item);
    ShowFour(cells[1], cells[2], cells[3], cells[4]);
    ShowCons(cells[0], [cells[1], cells[2], cells[3], cells[4]]);
    assert [cells[0]] + [cells[1], cells[2], cells[3], cells[4]] == cells;
    JoinsFive(ToDecimal(item.code), item.description, ToDecimal(item.department), ToSigned(item.price),
        ToDecimal(item.linkedBarcode));
  }

  lemma ItemIsClean(item: Item)
    requires ItemOk(item)
    ensures Clean(ItemCells(item))
  {
    var cells := ItemCells(item);
    NumberIsClean(item.code);
    NumberIsClean(item.department);
    SignedIsClean(item.price);
    NumberIsClean(item.linkedBarcode);
    CleanBoth([cells[0]], [cells[1]]);
    CleanBoth([cells[2]], [cells[3]]);
    CleanBoth([cells[0]] + [cells[1]], [cells[2]] + [cells[3]]);
    CleanBoth(([cells[0]] + [cells[1]]) + ([cells[2]] + [cells[3]]), [cells[4]]);
    assert cells == ([cells[0]] + [cells[1]]) + ([cells[2]] + [cells[3]]) + [cells[4]];
  }

  /** One column of an item's line. */
  function SetColumn(item: Item, column: nat, text: string): Item {
    match column
    case 0 => item.(code := ReadUnsigned(text))
    case 1 => item.(description := text)
    case 2 => item.(department := ReadUnsigned(text))
    case 3 => item.(price := ReadSigned(text))
    case 4 => item.(linkedBarcode := ReadUnsigned(text))
    case _ => item
  }

  /** The columns from one on; a line with fewer columns keeps the item's older values. */
  function SetColumns(item: Item, fields: seq<string>, from: nat): Item
    requires from <= |fields|
    decreases |fields| - from
  {
    if from == |fields| then item else SetColumns(SetColumn(item, from, fields[from]), fields, from + 1)
  }

  /** Codes are 64-bit, prices signed 64-bit, and a description holds neither a quote nor a newline. */
  predicate ItemOk(item: Item) {
    && item.code <= MAX_U64 && item.department <= MAX_U64 && item.linkedBarcode <= MAX_U64
    && -(MAX_I64 + 1) <= item.price <= MAX_I64
    && '\"' !in item.description && '\n' !in item.description
  }

  lemma ItemColumns(item: Item, was: Item)
    requires ItemOk(item)
    ensures SetColumns(was, Texts(ItemCells(item)), 0) == item
  {
    UnsignedReadsBack(item.code);
    UnsignedReadsBack(item.department);
    SignedReadsBack(item.price);
    UnsignedReadsBack(item.linkedBarcode);
    var f := Texts(ItemCells(item));
    var i1 := SetColumn(was, 0, f[0]);
    var i2 := SetColumn(i1, 1, f[1]);
    var i3 := SetColumn(i2, 2, f[2]);
    var i4 := SetColumn(i3, 3, f[3]);
    assert SetColumns(i4, f, 4) == SetColumn(i4, 4, f[4]);
    assert SetColumns(i2, f, 2) == SetColumns(i4, f, 4);
    assert SetColumns(was, f, 0) == SetColumns(i2, f, 2);
  }

  lemma ItemLineParses(item: Item)
    requires ItemOk(item)
    ensures ParseLine(ItemText(item)) == Some(Texts(ItemCells(item)))
    ensures '\n' !in ItemText(item)
  {
    ItemIsClean(item);
    ItemTextIsCells(item);
    CellsParse(ItemCells(item));
    CellsHaveNoNewline(ItemCells(item));
  }

  // ----- reading an archive back

  /** Reading a file from some point on, with the item last read and the archive so far. */
  function ReadItems(text: string, item: Item, items: map<nat, Item>): (bool, map<nat, Item>)
    decreases |text|
  {
    if text == "" then (true, items)
    else
      var (line, rest) := FirstLine(text);
      match ParseLine(line)
      case None => (false, items)
      case Some(fields) =>
        var item' := SetColumns(item, fields, 0);
        ReadItems(rest, item', items[item'.code := item'])
  }

  /** The source stops the program at a malformed line; here `ok` is then false. */
  method ReadItemArchive(archive: ArchiveMap<Item>, text: string) returns (ok: bool)
    requires forall i: Item :: archive.codeOf(i) == i.code
    modifies archive
    ensures (ok, archive.elements) == ReadItems(text, NO_ITEM, old(archive.elements))
  {
    var left := text;
    var item := NO_ITEM;
    while left != ""
      invariant ReadItems(left, item, archive.elements) == ReadItems(text, NO_ITEM, old(archive.elements))
      decreases |left|
    {
      var (line, rest) := FirstLine(left);
      var parsed := ParseLine(line);
      if parsed == None {
        return false;
      }
      var fields := parsed.value;
      ghost var before := item;
      for column := 0 to |fields|
        invariant SetColumns(item, fields, column) == SetColumns(before, fields, 0)
      {
        item := SetColumn(item, column, fields[column]);
      }
      archive.AddElement(item);
      left := rest;
    }
    ok := true;
  }

  predicate IsOwn(items: map<nat, Item>, k: nat) {
    k in items && items[k].code == k && ItemOk(items[k])
  }

  predicate IsBlank(items: map<nat, Item>, k: nat) {
    k in items && items[k] == NO_ITEM
  }

  /** Every element is stored under its own code, or is a blank one that a lookup inserted. */
  predicate ArchiveOk(items: map<nat, Item>) {
    forall k :: k in items ==> IsOwn(items, k) || IsBlank(items, k)
  }

  /** The elements under some keys, added one after the other under their own codes. */
  function AddItems(into: map<nat, Item>, items: map<nat, Item>, keys: seq<nat>): map<nat, Item>
    requires KeysThere(items, keys)
    decreases |keys|
  {
    if keys == [] then into else AddItems(into[items[keys[0]].code := items[keys[0]]], items, keys[1..])
  }

  lemma {:induction false} DumpedLinesRead(items: map<nat, Item>, keys: seq<nat>, was: Item, into: map<nat, Item>)
    requires ArchiveOk(items) && KeysThere(items, keys)
    ensures ReadItems(Dump(items, ItemText, keys), was, into) == (true, AddItems(into, items, keys))
    decreases |keys|
  {
    if keys != [] {
      var item, rest := items[keys[0]], Dump(items, ItemText, keys[1..]);
      ItemLineParses(item);
      LineSplits(ItemText(item), rest);
      ItemColumns(item, was);
      DumpedLinesRead(items, keys[1..], item, into[item.code := item]);
    }
  }

  lemma {:induction false} OthersAdded(into: map<nat, Item>, items: map<nat, Item>, keys: seq<nat>, k: nat)
    requires ArchiveOk(items) && KeysThere(items, keys) && k != 0
    ensures var back := AddItems(into, items, keys);
            && (k in back <==> k in into || (k in keys && !IsBlank(items, k)))
            && (k in keys && !IsBlank(items, k) ==> back[k] == items[k])
            && (k in into && !(k in keys && !IsBlank(items, k)) ==> back[k] == into[k])
    decreases |keys|
  {
    if keys != [] {
      OthersAdded(into[items[keys[0]].code := items[keys[0]]], items, keys[1..], k);
      assert keys == [keys[0]] + keys[1..];
    }
  }

  /** Once blanks are all that is left, the element under 0 is blank if there are any. */
  lemma {:induction false} ZeroAdded(into: map<nat, Item>, items: map<nat, Item>, keys: seq<nat>)
    requires ArchiveOk(items) && KeysThere(items, keys) && 0 !in keys
    ensures var back := AddItems(into, items, keys);
            if exists k :: k in keys && IsBlank(items, k) then 0 in back && back[0] == NO_ITEM
            else (0 in back <==> 0 in into) && (0 in into ==> back[0] == into[0])
    decreases |keys|
  {
    if keys != [] {
      assert keys == [keys[0]] + keys[1..];
      ZeroAdded(into[items[keys[0]].code := items[keys[0]]], items, keys[1..]);
    }
  }

  predicate BlankElsewhere(items: map<nat, Item>) {
    exists k :: k in items && k != 0 && IsBlank(items, k)
  }

  /** The element under 0 after a reload: a blank line, which comes later, has the last word. */
  lemma ZeroReloaded(items: map<nat, Item>)
    requires ArchiveOk(items)
    ensures var back := AddItems(map[], items, InOrder(items.Keys));
            if BlankElsewhere(items) then 0 in back && back[0] == NO_ITEM
            else (0 in back <==> 0 in items) && (0 in items ==> back[0] == items[0])
  {
    var keys := InOrder(items.Keys);
    if 0 in items {
      assert Least(items.Keys) == 0;
      var rest := InOrder(items.Keys - {0});
      assert keys[1..] == rest;
      assert items[0].code == 0;
      ZeroAdded(map[0 := items[0]], items, rest);
    } else {
      ZeroAdded(map[], items, keys);
    }
  }

  /** Under every other key, a reload keeps what is not blank. */
  lemma OthersReloaded(items: map<nat, Item>, k: nat)
    requires ArchiveOk(items) && k != 0
    ensures var back := AddItems(map[], items, InOrder(items.Keys));
            && (k in back <==> k in items && !IsBlank(items, k))
            && (k in back ==> back[k] == items[k])
            && Lookup(back, k, NO_ITEM) == Lookup(items, k, NO_ITEM)
  {
    OthersAdded(map[], items, InOrder(items.Keys), k);
  }

  lemma NothingBlankReloads(items: map<nat, Item>)
    requires ArchiveOk(items) && !BlankElsewhere(items)
    ensures AddItems(map[], items, InOrder(items.Keys)) == items
  {
    var back := AddItems(map[], items, InOrder(items.Keys));
    ZeroReloaded(items);
    forall k: nat
      ensures k in back <==> k in items
      ensures k in items ==> back[k] == items[k]
    {
      if k != 0 {
        OthersReloaded(items, k);
        assert k in items ==> !IsBlank(items, k);
      }
    }
  }

  lemma ZeroLookup(items: map<nat, Item>)
    requires ArchiveOk(items)
    ensures Lookup(AddItems(map[], items, InOrder(items.Keys)), 0, NO_ITEM) == Lookup(items, 0, NO_ITEM) <==>
              Lookup(items, 0, NO_ITEM) == NO_ITEM || !BlankElsewhere(items)
  {
    ZeroReloaded(items);
  }

  /**
   Dumping an archive and reading the file back: every lookup finds what it found before, signed prices, 64-bit
   codes and commas in descriptions included, exactly when the element under 0 is no victim of the blank lines;
   and with no blank lines under other keys the archive itself is rebuilt.
   */
  lemma DumpAndReload(items: map<nat, Item>)
    requires ArchiveOk(items)
    ensures var (ok, back) := ReadItems(Dump(items, ItemText, InOrder(items.Keys)), NO_ITEM, map[]);
            && ok
            && ((forall k: nat :: Lookup(back, k, NO_ITEM) == Lookup(items, k, NO_ITEM)) <==>
                  Lookup(items, 0, NO_ITEM) == NO_ITEM || !BlankElsewhere(items))
            && (forall k: nat :: k != 0 ==> Lookup(back, k, NO_ITEM) == Lookup(items, k, NO_ITEM))
            && (!BlankElsewhere(items) ==> back == items)
  {
    DumpedLinesRead(items, InOrder(items.Keys), NO_ITEM, map[]);
    ZeroLookup(items);
    forall k: nat | k != 0
      ensures Lookup(AddItems(map[], items, InOrder(items.Keys)), k, NO_ITEM) == Lookup(items, k, NO_ITEM)
    {
      OthersReloaded(items, k);
    }
    if !BlankElsewhere(items) {
      NothingBlankReloads(items);
    }
  }

  // ----- texts as they stand on disk

  /** The line of an item, in full. */
  lemma OneItemText()
    ensures ItemText(Item(7, "a, b", 9, -1, 8)) == "7,\"a, b\",9,-1,8"
  {
    assert ToDecimal(7) == "7" && ToDecimal(9) == "9" && ToDecimal(8) == "8" && ToSigned(-1) == "-1";
  }

  /**
   The line of a store's archive: spaces after the commas, the description partly quoted, and no link, which the
   item then keeps from the line before.
   */
  function SpacedLine(code: nat, blank: string, description: string, department: nat, price: nat): string {
    ToDecimal(code) + "," + (blank + ("\"" + description + "\"") + "," +
                             (blank + ToDecimal(department) + "," + (blank + ToDecimal(price))))
  }

  lemma SpacedLineReads(code: nat, blank: string, description: string, department: nat, price: nat, was: Item,
                        fields: seq<string>)
    requires code <= MAX_U64 && department <= MAX_U64 && price <= MAX_I64
    requires Spaces(blank) && '\"' !in description
    requires fields == [ToDecimal(code), blank + description, blank + ToDecimal(department), blank + ToDecimal(price)]
    ensures ParseLine(SpacedLine(code, blank, description, department, price)) == Some(fields)
    ensures SetColumns(was, fields, 0) == Item(code, blank + description, department, price, was.linkedBarcode)
  {
    SpacedLineParses(ToDecimal(code), blank, description, ToDecimal(department), ToDecimal(price));
    SpacedColumns(code, blank, description, department, price, was, fields);
  }

  lemma SpacedColumns(code: nat, blank: string, description: string, department: nat, price: nat, was: Item,
                      f: seq<string>)
    requires code <= MAX_U64 && department <= MAX_U64 && price <= MAX_I64 && Spaces(blank)
    requires |f| == 4 && f[0] == ToDecimal(code) && f[1] == blank + description
    requires f[2] == blank + ToDecimal(department) && f[3] == blank + ToDecimal(price)
    ensures SetColumns(was, f, 0) == Item(code, blank + description, department, price, was.linkedBarcode)
  {
    SpacedNumber("", code);
    SpacedNumber(blank, department);
    SpacedNumber(blank, price);
    assert "" + ToDecimal(code) == ToDecimal(code);
    FourColumns(was, f);
  }

  lemma FourColumns(was: Item, f: seq<string>)
    requires |f| == 4
    ensures SetColumns(was, f, 0) ==
            Item(ReadUnsigned(f[0]), f[1], ReadUnsigned(f[2]), ReadSigned(f[3]), was.linkedBarcode)
  {
    var i2 := SetColumn(SetColumn(was, 0, f[0]), 1, f[1]);
    var i4 := SetColumn(SetColumn(i2, 2, f[2]), 3, f[3]);
    assert SetColumns(i4, f, 4) == i4;
    assert SetColumns(i2, f, 2) == SetColumns(i4, f, 4);
    assert SetColumns(was, f, 0) == SetColumns(i2, f, 2);
  }

  lemma SpacedNumber(blank: string, n: nat)
    requires Spaces(blank)
    ensures ReadUnsigned(blank + ToDecimal(n)) == if n > MAX_U64 then MAX_U64 else n
    ensures ReadSigned(blank + ToDecimal(n)) == if n > MAX_I64 then MAX_I64 else n
  {
    NumberReads(blank, n, "");
    assert ToDecimal(n) + "" == ToDecimal(n);
  }

  lemma SpacesAreOk(blank: string, digits: string)
    requires Spaces(blank) && AllDigits(digits)
    ensures CellOk(Plain(blank + digits)) && CellOk(Plain(blank)) && CellOk(Plain(digits))
  {
  }

  lemma OnePiece(text: string)
    ensures ShowPieces([Plain(text)]) == text && PiecesText([Plain(text)]) == text
  {
    assert [Plain(text)][1..] == [];
  }

  lemma TwoPieces(blank: string, text: string)
    ensures ShowPieces([Plain(blank), Quoted(text)]) == blank + ("\"" + text + "\"")
    ensures PiecesText([Plain(blank), Quoted(text)]) == blank + text
  {
    assert [Plain(blank), Quoted(text)][1..] == [Quoted(text)] && [Quoted(text)][1..] == [];
    assert ShowPieces([Quoted(text)]) == ("\"" + text + "\"") + "";
    assert PiecesText([Quoted(text)]) == text;
  }

  lemma ShowFourFields(a: seq<Cell>, b: seq<Cell>, c: seq<Cell>, d: seq<Cell>)
    ensures ShowFields([a, b, c, d]) ==
            ShowPieces(a) + "," + (ShowPieces(b) + "," + (ShowPieces(c) + "," + ShowPieces(d)))
    ensures FieldTexts([a, b, c, d]) == [PiecesText(a), PiecesText(b), PiecesText(c), PiecesText(d)]
  {
    assert [a, b, c, d][1..] == [b, c, d] && [b, c, d][1..] == [c, d] && [c, d][1..] == [d] && [d][1..] == [];
    assert ShowFields([c, d]) == ShowPieces(c) + "," + ShowPieces(d);
    assert FieldTexts([d]) == [PiecesText(d)];
    assert FieldTexts([c, d]) == [PiecesText(c), PiecesText(d)];
    assert FieldTexts([b, c, d]) == [PiecesText(b), PiecesText(c), PiecesText(d)];
  }

  lemma SpacedLineParses(code: string, blank: string, description: string, department: string, price: string)
    requires AllDigits(code) && AllDigits(department) && AllDigits(price) && Spaces(blank) && '\"' !in description
    ensures ParseLine(code + "," +
            (blank + ("\"" + description + "\"") + "," + (blank + department + "," + (blank + price)))) ==
            Some([code, blank + description, blank + department, blank + price])
  {
    var a, b := [Plain(code)], [Plain(blank), Quoted(description)];
    var c, d := [Plain(blank + department)], [Plain(blank + price)];
    SpacesAreOk(blank, department);
    SpacesAreOk(blank, price);
    SpacesAreOk("", code);
    OnePiece(code);
    OnePiece(blank + department);
    OnePiece(blank + price);
    TwoPieces(blank, description);
    ShowFourFields(a, b, c, d);
    FieldsParse([a, b, c, d]);
  }

  lemma {:induction false} SplitAtNewline(text: string) returns (line: string, more: string)
    requires FindNewline(text) < |text|
    ensures text == line + "\n" + more && '\n' !in line
    decreases |text|
  {
    if text[0] == '\n' {
      line, more := "", text[1..];
      assert text == [text[0]] + text[1..];
    } else {
      var l, m := SplitAtNewline(text[1..]);
      line, more := [text[0]] + l, m;
      assert text == [text[0]] + (l + "\n" + m);
    }
  }

  lemma {:induction false} NoNewlineIn(text: string)
    requires FindNewline(text) == |text|
    ensures '\n' !in text
    decreases |text|
  {
    if text != "" {
      NoNewlineIn(text[1..]);
      assert text == [text[0]] + text[1..];
    }
  }

  /** A file whose last line has no newline reads as one whose last line has. */
  lemma {:induction false} LastNewlineIsOptional(text: string, was: Item, into: map<nat, Item>)
    requires text != "" && text[|text| - 1] != '\n'
    ensures ReadItems(text + "\n", was, into) == ReadItems(text, was, into)
    decreases |text|
  {
    if FindNewline(text) == |text| {
      NoNewlineIn(text);
      LastLine(text);
      LineSplits(text, "");
      assert text + "\n" + "" == text + "\n";
    } else {
      var line, more := SplitAtNewline(text);
      LineSplits(line, more);
      LineSplits(line, more + "\n");
      assert text + "\n" == line + "\n" + (more + "\n");
      match ParseLine(line)
      case None =>
      case Some(fields) =>
        var item := SetColumns(was, fields, 0);
        LastNewlineIsOptional(more, item, into[item.code := item]);
    }
  }
}
