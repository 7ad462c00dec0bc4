/** The rows of a transaction file as the text lines that are written and read back. */
module LogText {
  import opened Catalogue
  import opened Decimal
  import opened Options
  import opened Csv
  import opened Archive
  import opened CartModel

  // ----- writing

  function DepartmentText(d: Department): string {
    ToDecimal(d.code) + "," + ToDecimal(d.parentCode) + ",\"" + d.description + "\""
  }

  /** What follows the timestamp. A void row always says one piece. */
  function RowText(row: LogRow): string {
    match row
    case DepartmentRow(d) => "K,D," + DepartmentText(d)
    case ItemRow(item) => "K,I," + ItemText(item)
    case AddRow(b, q) => "I,A," + ToDecimal(b) + "," + ToDecimal(q)
    case VoidRow(b) => "I,V," + ToDecimal(b) + ",1"
    case CardAddRow(card) => "L,A," + ToDecimal(card) + ",1"
    case CardVoidRow(card) => "L,V," + ToDecimal(card) + ",1"
    case CartVoidRow => "C,V"
  }

  function LineText(stamp: string, row: LogRow): string {
    stamp + "," + RowText(row)
  }

  // ----- reading

  function FirstChar(s: string): char {
    if s == "" then '\0' else s[0]
  }

  /**
   A line's fields as a row: object and action are the first characters of their columns, and any action
   but the first of an object's two is taken for the second. Rows shorter than written are not modelled.
   */
  function RowOf(f: seq<string>): Option<LogRow> {
    if |f| < 3 then None
    else
      var action := FirstChar(f[2]);
      match FirstChar(f[1])
      case 'I' =>
        if |f| < 5 then None
        else Some(if action == 'A' then AddRow(ReadUnsigned(f[3]), ReadQuantity(f[4])) else VoidRow(ReadUnsigned(f[3])))
      case 'L' =>
        if |f| < 5 then None
        else Some(if action == 'A' then CardAddRow(ReadUnsigned(f[3])) else CardVoidRow(ReadUnsigned(f[3])))
      case 'C' => if action == 'V' then Some(CartVoidRow) else None
      case 'K' =>
        if action == 'D' && |f| >= 6 then Some(DepartmentRow(Department(ReadUnsigned(f[3]), ReadUnsigned(f[4]), f[5])))
        else if action == 'I' && |f| >= 8 then Some(ItemRow(SetColumns(NO_ITEM, f[3..], 0)))
        else None
      case _ => None
  }

  /** A signed number put into an unsigned 32-bit variable. */
  function ReadQuantity(text: string): nat {
    ReadSigned(text) % 0x1_0000_0000
  }

  function ReadLine(line: string): Option<LogRow> {
    match ParseLine(line)
    case None => None
    case Some(fields) => RowOf(fields)
  }

  /** An action other than A is taken for a void, whatever it is. */
  lemma OtherActionsVoid(stamp: string, action: string, code: string, rest: string)
    requires action == "" || action[0] != 'A'
    ensures RowOf([stamp, "I", action, code, rest]) == Some(VoidRow(ReadUnsigned(code)))
    ensures RowOf([stamp, "L", action, code, rest]) == Some(CardVoidRow(ReadUnsigned(code)))
  {
  }

  // ----- each row reads back

  predicate TextOk(s: string) {
    '\"' !in s && '\n' !in s
  }

  /** Numbers fit their columns, and descriptions hold neither a quote nor a newline. */
  predicate RowFits(row: LogRow) {
    match row
    case DepartmentRow(d) => d.code <= MAX_U64 && d.parentCode <= MAX_U64 && TextOk(d.description)
    case ItemRow(item) => ItemOk(item)
    case AddRow(b, q) => b <= MAX_U64 && q <= 0xFFFF_FFFF
    case VoidRow(b) => b <= MAX_U64
    case CardAddRow(card) => card <= MAX_U64
    case CardVoidRow(card) => card <= MAX_U64
    case CartVoidRow => true
  }

  predicate StampOk(stamp: string) {
    TextOk(stamp) && ',' !in stamp
  }

  function RowCells(row: LogRow): seq<Cell> {
    match row
    case DepartmentRow(d) => [Plain("K"), Plain("D"), Number(d.code), Number(d.parentCode), Quoted(d.description)]
    case ItemRow(item) => [Plain("K"), Plain("I")] + ItemCells(item)
    case AddRow(b, q) => [Plain("I"), Plain("A"), Number(b), Number(q)]
    case VoidRow(b) => [Plain("I"), Plain("V"), Number(b), Plain("1")]
    case CardAddRow(card) => [Plain("L"), Plain("A"), Number(card), Plain("1")]
    case CardVoidRow(card) => [Plain("L"), Plain("V"), Number(card), Plain("1")]
    case CartVoidRow => [Plain("C"), Plain("V")]
  }

  function LineCells(stamp: string, row: LogRow): seq<Cell> {
    [Plain(stamp)] + RowCells(row)
  }

  lemma FourCellRow(thing: string, action: string, n: string, m: string)
    ensures ShowCells([Plain(thing), Plain(action), Plain(n), Plain(m)]) == (thing + "," + action + ",") + n + ("," + m)
  {
    ShowFour(Plain(thing), Plain(action), Plain(n), Plain(m));
    assert thing + "," + action + "," + (n + "," + m) == (thing + "," + action + ",") + n + ("," + m);
  }

  lemma DepartmentIsCells(d: Department)
    ensures RowText(DepartmentRow(d)) == ShowCells(RowCells(DepartmentRow(d)))
  {
    var code, parent, quoted := Number(d.code), Number(d.parentCode), Quoted(d.description);
    ShowPair(parent, quoted);
    ShowCons(code, [parent, quoted]);
    assert [code] + [parent, quoted] == [code, parent, quoted];
    ShowTwo(Plain("K"), Plain("D"), [code, parent, quoted]);
    assert RowCells(DepartmentRow(d)) == [Plain("K"), Plain("D")] + [code, parent, quoted];
    DepartmentTextIs(ToDecimal(d.code), ToDecimal(d.parentCode), d.description);
    assert "K" + "," + "D" + "," == "K,D,";
  }

  lemma DepartmentTextIs(c: string, p: string, q: string)
    ensures c + "," + (p + "," + ("\"" + q + "\"")) == c + "," + p + ",\"" + q + "\""
  {
    assert p + "," + ("\"" + q + "\"") == p + ",\"" + q + "\"";
    assert c + "," + (p + ",\"" + q + "\"") == c + "," + p + ",\"" + q + "\"";
  }

  lemma ItemRowIsCells(item: Item)
    ensures RowText(ItemRow(item)) == ShowCells(RowCells(ItemRow(item)))
  {
    ItemTextIsCells(item);
    ShowTwo(Plain("K"), Plain("I"), ItemCells(item));
    assert "K" + "," + "I" + "," == "K,I,";
  }

  lemma RowTextIsCells(row: LogRow)
    ensures RowText(row) == ShowCells(RowCells(row))
  {
    match row
    case DepartmentRow(d) => DepartmentIsCells(d);
    case ItemRow(item) => ItemRowIsCells(item);
    case AddRow(b, q) =>
      FourCellRow("I", "A", ToDecimal(b), ToDecimal(q));
      assert "I" + "," + "A" + "," == "I,A,";
      assert "I,A," + ToDecimal(b) + ("," + ToDecimal(q)) == RowText(row);
    case VoidRow(b) =>
      FourCellRow("I", "V", ToDecimal(b), "1");
      assert "I" + "," + "V" + "," == "I,V," && "," + "1" == ",1";
    case CardAddRow(card) =>
      FourCellRow("L", "A", ToDecimal(card), "1");
      assert "L" + "," + "A" + "," == "L,A," && "," + "1" == ",1";
    case CardVoidRow(card) =>
      FourCellRow("L", "V", ToDecimal(card), "1");
      assert "L" + "," + "V" + "," == "L,V," && "," + "1" == ",1";
    case CartVoidRow =>
      ShowPair(Plain("C"), Plain("V"));
      assert "C" + "," + "V" == "C,V";
  }

  lemma RowIsClean(row: LogRow)
    requires RowFits(row)
    ensures Clean(RowCells(row))
  {
    match row
    case DepartmentRow(d) =>
      NumberIsClean(d.code);
      NumberIsClean(d.parentCode);
      CleanBoth([Number(d.code)], [Number(d.parentCode)]);
      CleanBoth([Plain("K"), Plain("D")], [Number(d.code)] + [Number(d.parentCode)]);
      CleanBoth([Plain("K"), Plain("D")] + ([Number(d.code)] + [Number(d.parentCode)]), [Quoted(d.description)]);
      assert RowCells(row) == [Plain("K"), Plain("D")] + ([Number(d.code)] + [Number(d.parentCode)]) +
          [Quoted(d.description)];
    case ItemRow(item) =>
      ItemIsClean(item);
      CleanBoth([Plain("K"), Plain("I")], ItemCells(item));
    case AddRow(b, q) =>
      NumberIsClean(b);
      NumberIsClean(q);
      CleanBoth([Number(b)], [Number(q)]);
      CleanBoth([Plain("I"), Plain("A")], [Number(b)] + [Number(q)]);
      assert RowCells(row) == [Plain("I"), Plain("A")] + ([Number(b)] + [Number(q)]);
    case VoidRow(b) =>
      NumberIsClean(b);
      CleanBoth([Number(b)], [Plain("1")]);
      CleanBoth([Plain("I"), Plain("V")], [Number(b)] + [Plain("1")]);
      assert RowCells(row) == [Plain("I"), Plain("V")] + ([Number(b)] + [Plain("1")]);
    case CardAddRow(card) =>
      NumberIsClean(card);
      CleanBoth([Number(card)], [Plain("1")]);
      CleanBoth([Plain("L"), Plain("A")], [Number(card)] + [Plain("1")]);
      assert RowCells(row) == [Plain("L"), Plain("A")] + ([Number(card)] + [Plain("1")]);
    case CardVoidRow(card) =>
      NumberIsClean(card);
      CleanBoth([Number(card)], [Plain("1")]);
      CleanBoth([Plain("L"), Plain("V")], [Number(card)] + [Plain("1")]);
      assert RowCells(row) == [Plain("L"), Plain("V")] + ([Number(card)] + [Plain("1")]);
    case CartVoidRow =>
  }

  lemma TextsOf(cells: seq<Cell>, f: seq<string>)
    requires |f| == |cells| && forall i :: 0 <= i < |f| ==> f[i] == cells[i].text
    ensures Texts(cells) == f
  {
  }

  lemma ItemRowOf(f: seq<string>, item: Item)
    requires |f| == 8 && f[1] == "K" && f[2] == "I" && SetColumns(NO_ITEM, f[3..], 0) == item
    ensures RowOf(f) == Some(ItemRow(item))
  {
  }

  lemma ItemFields(cells: seq<Cell>, item: Item)
    requires |cells| == 8 && cells[3..] == ItemCells(item)
    ensures Texts(cells)[3..] == Texts(ItemCells(item))
  {
    var f := Texts(cells);
    forall i | 0 <= i < |f[3..]|
      ensures f[3..][i] == ItemCells(item)[i].text
    {
      assert cells[3..][i] == cells[i + 3];
    }
    TextsOf(ItemCells(item), f[3..]);
  }

  lemma ItemFromCells(stamp: string, item: Item)
    requires ItemOk(item)
    ensures RowOf(Texts(LineCells(stamp, ItemRow(item)))) == Some(ItemRow(item))
  {
    var cells := LineCells(stamp, ItemRow(item));
    assert cells == [Plain(stamp), Plain("K"), Plain("I")] + ItemCells(item);
    ItemFields(cells, item);
    ItemColumns(item, NO_ITEM);
    ItemRowOf(Texts(cells), item);
  }

  lemma DepartmentRowOf(stamp: string, code: string, parent: string, d: Department)
    requires ReadUnsigned(code) == d.code && ReadUnsigned(parent) == d.parentCode
    ensures RowOf([stamp, "K", "D", code, parent, d.description]) == Some(DepartmentRow(d))
  {
  }

  lemma DepartmentFromCells(stamp: string, d: Department)
    requires RowFits(DepartmentRow(d))
    ensures RowOf(Texts(LineCells(stamp, DepartmentRow(d)))) == Some(DepartmentRow(d))
  {
    UnsignedReadsBack(d.code);
    UnsignedReadsBack(d.parentCode);
    DepartmentRowOf(stamp, ToDecimal(d.code), ToDecimal(d.parentCode), d);
    TextsOf(LineCells(stamp, DepartmentRow(d)),
        [stamp, "K", "D", ToDecimal(d.code), ToDecimal(d.parentCode), d.description]);
  }

  lemma QuantityReadsBack(q: nat)
    requires q <= 0xFFFF_FFFF
    ensures ReadQuantity(ToDecimal(q)) == q
  {
    SignedReadsBack(q);
    assert ToSigned(q) == ToDecimal(q);
  }

  /** A quantity of any size is cut to its low 32 bits, after reading at most the largest signed number. */
  lemma QuantityIsCut(n: nat)
    ensures ReadQuantity(ToDecimal(n)) == (if n > MAX_I64 then MAX_I64 else n) % 0x1_0000_0000
  {
    NumberReads("", n, "");
    Alone(ToDecimal(n));
  }

  lemma AddRowOf(stamp: string, barcode: string, quantity: string, row: LogRow)
    requires row == AddRow(ReadUnsigned(barcode), ReadQuantity(quantity))
    ensures RowOf([stamp, "I", "A", barcode, quantity]) == Some(row)
  {
  }

  lemma AddFromTexts(stamp: string, row: LogRow, barcode: string, quantity: string)
    requires row.AddRow? && barcode == ToDecimal(row.barcode) && quantity == ToDecimal(row.quantity)
    ensures Texts(LineCells(stamp, row)) == [stamp, "I", "A", barcode, quantity]
  {
    TextsOf(LineCells(stamp, row), [stamp, "I", "A", barcode, quantity]);
  }

  lemma AddFromCells(stamp: string, row: LogRow)
    requires RowFits(row) && row.AddRow?
    ensures RowOf(Texts(LineCells(stamp, row))) == Some(row)
  {
    var barcode, quantity := ToDecimal(row.barcode), ToDecimal(row.quantity);
    UnsignedReadsBack(row.barcode);
    QuantityReadsBack(row.quantity);
    AddRowOf(stamp, barcode, quantity, row);
    AddFromTexts(stamp, row, barcode, quantity);
  }

  lemma VoidFromCells(stamp: string, row: LogRow)
    requires RowFits(row) && row.VoidRow?
    ensures RowOf(Texts(LineCells(stamp, row))) == Some(row)
  {
    UnsignedReadsBack(row.barcode);
    TextsOf(LineCells(stamp, row), [stamp, "I", "V", ToDecimal(row.barcode), "1"]);
  }

  lemma CardActionFromCells(stamp: string, row: LogRow)
    requires RowFits(row) && (row.CardAddRow? || row.CardVoidRow?)
    ensures RowOf(Texts(LineCells(stamp, row))) == Some(row)
  {
    UnsignedReadsBack(row.card);
    if row.CardAddRow? {
      TextsOf(LineCells(stamp, row), [stamp, "L", "A", ToDecimal(row.card), "1"]);
    } else {
      TextsOf(LineCells(stamp, row), [stamp, "L", "V", ToDecimal(row.card), "1"]);
    }
  }

  lemma CartVoidFromCells(stamp: string)
    ensures RowOf(Texts(LineCells(stamp, CartVoidRow))) == Some(CartVoidRow)
  {
    TextsOf(LineCells(stamp, CartVoidRow), [stamp, "C", "V"]);
  }

  lemma RowFromCells(stamp: string, row: LogRow)
    requires RowFits(row)
    ensures RowOf(Texts(LineCells(stamp, row))) == Some(row)
  {
    match row
    case DepartmentRow(d) => DepartmentFromCells(stamp, d);
    case ItemRow(item) => ItemFromCells(stamp, item);
    case AddRow(_, _) => AddFromCells(stamp, row);
    case VoidRow(_) => VoidFromCells(stamp, row);
    case CardAddRow(_) => CardActionFromCells(stamp, row);
    case CardVoidRow(_) => CardActionFromCells(stamp, row);
    case CartVoidRow => CartVoidFromCells(stamp);
  }

  /** Every row a cart writes reads back as itself. */
  lemma {:induction false} RowsReadBack(stamp: string, row: LogRow)
    requires StampOk(stamp) && RowFits(row)
    ensures ReadLine(LineText(stamp, row)) == Some(row)
    ensures '\n' !in LineText(stamp, row)
  {
    var cells := LineCells(stamp, row);
    RowTextIsCells(row);
    ShowCons(Plain(stamp), RowCells(row));
    assert LineText(stamp, row) == ShowCells(cells);
    RowIsClean(row);
    CleanBoth([Plain(stamp)], RowCells(row));
    CellsParse(cells);
    CellsHaveNoNewline(cells);
    RowFromCells(stamp, row);
  }

  lemma SmallNumerals()
    ensures ToDecimal(0) == "0" && ToDecimal(2) == "2" && ToDecimal(7) == "7" && ToDecimal(8) == "8" &&
            ToDecimal(9) == "9"
  {
  }

  /** The rows as they stand in the file. */
  lemma RowForms()
    ensures RowText(DepartmentRow(Department(7, 0, "a, b"))) == "K,D,7,0,\"a, b\""
    ensures RowText(ItemRow(Item(7, "a, b", 9, -1, 8))) == "K,I,7,\"a, b\",9,-1,8"
    ensures RowText(AddRow(7, 2)) == "I,A,7,2" && RowText(VoidRow(7)) == "I,V,7,1"
    ensures RowText(CardAddRow(7)) == "L,A,7,1" && RowText(CardVoidRow(7)) == "L,V,7,1"
    ensures RowText(CartVoidRow) == "C,V" && LineText("T", CartVoidRow) == "T,C,V"
  {
    SmallNumerals();
    OneItemText();
  }

  // ----- the whole file

  function FileText(stamps: seq<string>, rows: seq<LogRow>): string
    requires |stamps| == |rows|
  {
    if rows == [] then "" else LineText(stamps[0], rows[0]) + "\n" + FileText(stamps[1..], rows[1..])
  }

  /** The rows of a file; a line that is not a row is passed over. */
  function ReadFile(text: string): seq<LogRow>
    decreases |text|
  {
    if text == "" then []
    else
      var (line, rest) := FirstLine(text);
      match ReadLine(line)
      case None => ReadFile(rest)
      case Some(row) => [row] + ReadFile(rest)
  }

  /** A transaction file, whatever its timestamps, reads back as the rows written to it. */
  lemma {:induction false} FilesReadBack(stamps: seq<string>, rows: seq<LogRow>)
    requires |stamps| == |rows| && forall i :: 0 <= i < |rows| ==> StampOk(stamps[i]) && RowFits(rows[i])
    ensures ReadFile(FileText(stamps, rows)) == rows
    decreases |rows|
  {
    if rows != [] {
      var rest := FileText(stamps[1..], rows[1..]);
      RowsReadBack(stamps[0], rows[0]);
      LineSplits(LineText(stamps[0], rows[0]), rest);
      FilesReadBack(stamps[1..], rows[1..]);
    }
  }
}
