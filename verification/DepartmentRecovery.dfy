/**
 The departments' totals after a restart: what replay charges each department, told by the file's rows and the
 catalogue read; and that it is what the live cart had, as long as no item changes department.
 */
module DepartmentRecovery {
  import opened Catalogue
  import opened CartModel
  import opened Recovery
  import opened CrashSafety
  import opened SalesActions
  import opened Restarts
  import opened ActionEffects

  // ----- what a file charges a department

  /** Pieces an accepted row adds, or takes back. */
  function RowPieces(sch: Scheme, c: Core, row: LogRow): int {
    if row.AddRow? && Accepting(c) then row.quantity
    else if row.VoidRow? && Accepting(c) && sch.owner(row.barcode) in c.rows then -1
    else 0
  }

  /** The department, of those a function gives to items, that a row's item is in. */
  predicate RowIn(sch: Scheme, dept: nat -> nat, row: LogRow, d: nat) {
    (row.AddRow? || row.VoidRow?) && dept(sch.owner(row.barcode)) == d
  }

  function FilePieces(sch: Scheme, dept: nat -> nat, c: Core, log: seq<LogRow>, d: nat): int
    decreases |log|
  {
    if log == [] then 0
    else (if RowIn(sch, dept, log[0], d) then RowPieces(sch, c, log[0]) else 0)
         + FilePieces(sch, dept, CoreRow(sch, c, log[0]), log[1..], d)
  }

  /** The gross amount of the rows, at the price of the lines. */
  function FileGross(sch: Scheme, dept: nat -> nat, c: Core, log: seq<LogRow>, d: nat): int
    decreases |log|
  {
    if log == [] then 0
    else (if RowIn(sch, dept, log[0], d) then RowGross(sch, c, log[0]) else 0)
         + FileGross(sch, dept, CoreRow(sch, c, log[0]), log[1..], d)
  }

  function DeptOf(items: map<nat, Item>): nat -> nat {
    (code: nat) => if code in items then items[code].department else 0
  }

  function GrossAt(s: CartState, d: nat): int {
    TotalOf(s.totals, d).amount + TotalOf(s.totals, d).discount
  }

  // ----- one operation and a department

  lemma ChargeAt(totals: map<nat, Totals>, dept: nat, t: Totals, d: nat)
    requires d != 0
    ensures var was, now := TotalOf(totals, d), TotalOf(ChargeBoth(totals, dept, t), d);
            if dept == d
            then now.items == was.items + t.items && now.amount == was.amount + t.amount &&
                now.discount == was.discount + t.discount
            else now == was
  {
  }

  /** Pieces an operation moves in a department. */
  function OpPieces(c: Core, op: Op, d: nat): int {
    if op.Add? && Accepting(c) && op.dept == d then op.quantity
    else if op.Remove? && Accepting(c) && op.code in c.rows && op.dept == d then -1
    else 0
  }

  function OpGrossAt(c: Core, op: Op, d: nat): int {
    if (op.Add? || op.Remove?) && op.dept == d then OpGross(c, op) else 0
  }

  lemma AddAt(s: CartState, code: nat, dept: nat, barcode: nat, quantity: nat, price: int, discount: int, d: nat)
    requires d != 0 && Accepting(s.core)
    ensures var t := CartModel.AddItem(s, code, dept, barcode, quantity, price, discount);
            && TotalOf(t.totals, d).items == TotalOf(s.totals, d).items + (if dept == d then quantity else 0)
            && GrossAt(t, d) == GrossAt(s, d) + (if dept == d then price * quantity else 0)
            && TotalOf(t.totals, d).discount ==
                 TotalOf(s.totals, d).discount + (if dept == d then discount * quantity else 0)
  {
    ChargeAt(s.totals, dept, Totals(quantity, (price - discount) * quantity, discount * quantity), d);
    assert (price - discount) * quantity == price * quantity - discount * quantity;
  }

  lemma RemoveAt(s: CartState, code: nat, dept: nat, barcode: nat, price: int, discount: int, d: nat)
    requires d != 0 && Accepting(s.core) && code in s.core.rows
    ensures var t := RemoveItem(s, code, dept, barcode, price, discount);
            && TotalOf(t.totals, d).items == TotalOf(s.totals, d).items - (if dept == d then 1 else 0)
            && GrossAt(t, d) == GrossAt(s, d) - (if dept == d then price else 0)
            && TotalOf(t.totals, d).discount == TotalOf(s.totals, d).discount - (if dept == d then discount else 0)
  {
    ChargeAt(s.totals, dept, Totals(-1, -(price - discount), -discount), d);
  }

  lemma OpAt(s: CartState, op: Op, d: nat)
    requires d != 0
    ensures TotalOf(Apply(s, op).totals, d).items == TotalOf(s.totals, d).items + OpPieces(s.core, op, d)
    ensures GrossAt(Apply(s, op), d) == GrossAt(s, d) + OpGrossAt(s.core, op, d)
  {
    match op
    case Add(code, dept, barcode, quantity, price, discount) =>
      if Accepting(s.core) {
        AddAt(s, code, dept, barcode, quantity, price, discount, d);
      }
    case Remove(code, dept, barcode, price, discount) =>
      if Accepting(s.core) && code in s.core.rows {
        RemoveAt(s, code, dept, barcode, price, discount, d);
      }
    case _ =>
  }

  lemma NoDiscountAt(s: CartState, op: Op, d: nat)
    requires d != 0 && (op.Add? || op.Remove? ==> op.discount == 0)
    ensures TotalOf(Apply(s, op).totals, d).discount == TotalOf(s.totals, d).discount
  {
    match op
    case Add(code, dept, barcode, quantity, price, discount) =>
      if Accepting(s.core) {
        AddAt(s, code, dept, barcode, quantity, price, discount, d);
      }
    case Remove(code, dept, barcode, price, discount) =>
      if Accepting(s.core) && code in s.core.rows {
        RemoveAt(s, code, dept, barcode, price, discount, d);
      }
    case _ =>
  }

  // ----- replay

  lemma ReplayRowAt(sch: Scheme, items: map<nat, Item>, s: CartState, row: LogRow, d: nat)
    requires d != 0
    ensures var t := ReplayRow(sch, items, s, row);
            && TotalOf(t.totals, d).items ==
               TotalOf(s.totals, d).items + (if RowIn(sch, DeptOf(items), row, d) then RowPieces(sch, s.core, row)
                   else 0)
            && TotalOf(t.totals, d).discount == TotalOf(s.totals, d).discount
            && t.core == CoreRow(sch, s.core, row)
  {
    var ops := RowOps(sch, items, s.core, row);
    if ops != [] {
      OpAt(s, ops[0], d);
      NoDiscountAt(s, ops[0], d);
    }
    ReplayIsCoreReplay(sch, items, s, [row]);
    ReplayOfOne(sch, s.core, row);
    assert [row][1..] == [];
  }

  lemma {:induction false} ReplayAt(sch: Scheme, items: map<nat, Item>, s: CartState, log: seq<LogRow>, d: nat)
    requires d != 0
    ensures var t := Replay(sch, items, s, log);
            && TotalOf(t.totals, d).items == TotalOf(s.totals, d).items + FilePieces(sch, DeptOf(items), s.core, log, d)
            && TotalOf(t.totals, d).discount == TotalOf(s.totals, d).discount
    decreases |log|
  {
    if log != [] {
      ReplayRowAt(sch, items, s, log[0], d);
      ReplayAt(sch, items, ReplayRow(sch, items, s, log[0]), log[1..], d);
    }
  }

  /**
   Any file, restarted on any catalogue, leaves each department the pieces its rows add less those they void, of the
   items the catalogue puts there, and no discount.
   */
  lemma RecoveredPieces(sch: Scheme, items: map<nat, Item>, log: seq<LogRow>, d: nat)
    requires d != 0
    ensures var t := Recover(sch, items, log);
            TotalOf(t.totals, d).items == FilePieces(sch, DeptOf(items), LOADING, log, d) &&
                TotalOf(t.totals, d).discount == 0
  {
    ReplayAt(sch, items, Empty(Loading), log, d);
  }

  lemma ReplayRowGrossAt(sch: Scheme, items: map<nat, Item>, s: CartState, row: LogRow, d: nat)
    requires d != 0 && Complete(sch, items) && Inv(sch, s.core) && RowOk(sch, s.core, row) && !sch.priceChanges
    ensures GrossAt(ReplayRow(sch, items, s, row), d) ==
            GrossAt(s, d) + (if RowIn(sch, DeptOf(items), row, d) then RowGross(sch, s.core, row) else 0)
  {
    var ops := RowOps(sch, items, s.core, row);
    if ops != [] {
      OpAt(s, ops[0], d);
      if row.VoidRow? {
        assert sch.owner(row.barcode) != 0;
      }
    }
  }

  lemma {:induction false} ReplayGrossAt(sch: Scheme, items: map<nat, Item>, s: CartState, log: seq<LogRow>, d: nat)
    requires d != 0 && Complete(sch, items) && Inv(sch, s.core) && LogOk(sch, s.core, log) && !sch.priceChanges
    ensures GrossAt(Replay(sch, items, s, log), d) == GrossAt(s, d) + FileGross(sch, DeptOf(items), s.core, log, d)
    decreases |log|
  {
    if log != [] {
      RowsReplaySoundly(sch, items, s, log[0]);
      ReplayRowAt(sch, items, s, log[0], d);
      ReplayRowGrossAt(sch, items, s, log[0], d);
      ReplayGrossAt(sch, items, ReplayRow(sch, items, s, log[0]), log[1..], d);
    }
  }

  /** With frozen prices each department's gross is that of its rows, in line prices. */
  lemma RecoveredGross(sch: Scheme, items: map<nat, Item>, log: seq<LogRow>, d: nat)
    requires d != 0 && Complete(sch, items) && LogOk(sch, LOADING, log) && !sch.priceChanges
    ensures GrossAt(Recover(sch, items, log), d) == FileGross(sch, DeptOf(items), LOADING, log, d)
  {
    EmptyInv(sch, Loading);
    ReplayGrossAt(sch, items, Empty(Loading), log, d);
  }

  // ----- replay, told by numbers

  /** The gross amount of the rows at the prices replay finds: in the barcode, the copy or the catalogue read. */
  function FileCharge(cfg: Config, items: map<nat, Item>, c: Core, log: seq<LogRow>, d: nat): int
    decreases |log|
  {
    if log == [] then 0
    else RowCharge(cfg, items, c, log[0], d) + FileCharge(cfg, items, CoreRow(SchemeOf(cfg), c, log[0]), log[1..], d)
  }

  function RowCharge(cfg: Config, items: map<nat, Item>, c: Core, row: LogRow, d: nat): int {
    if !(row.AddRow? || row.VoidRow?) || !Accepting(c) then 0
    else
      var code := Listed(cfg.barcodes, row.barcode);
      var item := Stocked(items, code);
      var price := SalePrice(cfg, c.frozen, item, row.barcode);
      if item.department != d then 0
      else if row.AddRow? then price * row.quantity
      else if code in c.rows then -price
      else 0
  }

  lemma ChargedIs(cfg: Config, items: map<nat, Item>, frozen: map<nat, Item>, b: nat)
    ensures SchemeOf(cfg).owner(b) == Listed(cfg.barcodes, b)
    ensures Charged(SchemeOf(cfg), frozen, Lookup(items, SchemeOf(cfg).owner(b), NO_ITEM), b) ==
            SalePrice(cfg, frozen, Stocked(items, Listed(cfg.barcodes, b)), b)
  {
    DecodeIs(cfg.barcodes, b);
    PriceIs(cfg, frozen, Stocked(items, Listed(cfg.barcodes, b)), b);
  }

  lemma ReplayRowCharges(cfg: Config, items: map<nat, Item>, s: CartState, row: LogRow, d: nat)
    requires d != 0
    ensures GrossAt(ReplayRow(SchemeOf(cfg), items, s, row), d) == GrossAt(s, d) + RowCharge(cfg, items, s.core, row, d)
  {
    var ops := RowOps(SchemeOf(cfg), items, s.core, row);
    if ops != [] {
      OpAt(s, ops[0], d);
      if row.AddRow? || row.VoidRow? {
        ChargedIs(cfg, items, s.core.frozen, row.barcode);
      }
    }
  }

  lemma {:induction false} ReplayCharges(cfg: Config, items: map<nat, Item>, s: CartState, log: seq<LogRow>, d: nat)
    requires d != 0
    ensures GrossAt(Replay(SchemeOf(cfg), items, s, log), d) == GrossAt(s, d) + FileCharge(cfg, items, s.core, log, d)
    decreases |log|
  {
    if log != [] {
      ReplayRowCharges(cfg, items, s, log[0], d);
      ReplayRowAt(SchemeOf(cfg), items, s, log[0], d);
      ReplayCharges(cfg, items, ReplayRow(SchemeOf(cfg), items, s, log[0]), log[1..], d);
    }
  }

  /** Any file, on any catalogue, in either price mode: what each department is charged after a restart. */
  lemma RecoveredCharges(cfg: Config, items: map<nat, Item>, log: seq<LogRow>, d: nat)
    requires d != 0
    ensures GrossAt(Recover(SchemeOf(cfg), items, log), d) == FileCharge(cfg, items, LOADING, log, d)
  {
    ReplayCharges(cfg, items, Empty(Loading), log, d);
  }

  // ----- the live cart and its file

  /** The catalogue has every sellable item in the department given. */
  ghost predicate HasDepts(sch: Scheme, items: map<nat, Item>, dept: nat -> nat) {
    forall b: nat {:trigger sch.owner(b)} :: DeptOf(items)(sch.owner(b)) == dept(sch.owner(b))
  }

  lemma {:induction false} SameDepts(sch: Scheme, items: map<nat, Item>, dept: nat -> nat, c: Core, log: seq<LogRow>,
                                     d: nat)
    requires HasDepts(sch, items, dept)
    ensures FilePieces(sch, DeptOf(items), c, log, d) == FilePieces(sch, dept, c, log, d)
    ensures FileGross(sch, DeptOf(items), c, log, d) == FileGross(sch, dept, c, log, d)
    decreases |log|
  {
    if log != [] {
      SameDepts(sch, items, dept, CoreRow(sch, c, log[0]), log[1..], d);
      if log[0].AddRow? || log[0].VoidRow? {
        assert DeptOf(items)(sch.owner(log[0].barcode)) == dept(sch.owner(log[0].barcode));
      }
    }
  }

  lemma {:induction false} FileConcat(sch: Scheme, dept: nat -> nat, c: Core, a: seq<LogRow>, b: seq<LogRow>, d: nat)
    ensures FilePieces(sch, dept, c, a + b, d) ==
            FilePieces(sch, dept, c, a, d) + FilePieces(sch, dept, CoreReplay(sch, c, a), b, d)
    ensures FileGross(sch, dept, c, a + b, d) ==
            FileGross(sch, dept, c, a, d) + FileGross(sch, dept, CoreReplay(sch, c, a), b, d)
    decreases |a|
  {
    if a == [] {
      assert a + b == b;
    } else {
      assert (a + b)[1..] == a[1..] + b;
      FileConcat(sch, dept, CoreRow(sch, c, a[0]), a[1..], b, d);
    }
  }

  lemma FileOfOne(sch: Scheme, dept: nat -> nat, c: Core, row: LogRow, d: nat)
    ensures FilePieces(sch, dept, c, [row], d) == if RowIn(sch, dept, row, d) then RowPieces(sch, c, row) else 0
    ensures FileGross(sch, dept, c, [row], d) == if RowIn(sch, dept, row, d) then RowGross(sch, c, row) else 0
  {
    assert [row][1..] == [];
  }

  /** An operation charges the department its item is in. */
  predicate Placed(sch: Scheme, dept: nat -> nat, op: Op) {
    op.Add? || op.Remove? ==> op.code == sch.owner(op.barcode) && op.dept == dept(op.code)
  }

  predicate AllPlaced(sch: Scheme, dept: nat -> nat, ops: seq<Op>) {
    forall i :: 0 <= i < |ops| ==> Placed(sch, dept, ops[i])
  }

  function DriftAt(sch: Scheme, c: Core, op: Op, d: nat): int {
    if (op.Add? || op.Remove?) && op.dept == d then Drift(sch, c, op) else 0
  }

  function TotalDriftAt(sch: Scheme, s: CartState, ops: seq<Op>, d: nat): int
    decreases |ops|
  {
    if ops == [] then 0 else DriftAt(sch, s.core, ops[0], d) + TotalDriftAt(sch, Apply(s, ops[0]), ops[1..], d)
  }

  lemma {:induction false} NoItemRows(sch: Scheme, dept: nat -> nat, c: Core, rows: seq<LogRow>, d: nat)
    requires forall i :: 0 <= i < |rows| ==> !rows[i].AddRow? && !rows[i].VoidRow?
    ensures FilePieces(sch, dept, c, rows, d) == 0 && FileGross(sch, dept, c, rows, d) == 0
    decreases |rows|
  {
    if rows != [] {
      NoItemRows(sch, dept, CoreRow(sch, c, rows[0]), rows[1..], d);
    }
  }

  lemma {:induction false} Repeated(row: LogRow, n: int)
    ensures forall i :: 0 <= i < |Repeat(row, n)| ==> Repeat(row, n)[i] == row
    decreases n
  {
    if n > 0 {
      Repeated(row, n - 1);
    }
  }

  lemma OpIsInFile(sch: Scheme, dept: nat -> nat, s: CartState, r: Core, op: Op, d: nat)
    requires Mirrors(s.core, r) && Placed(sch, dept, op)
    ensures OpPieces(s.core, op, d) == FilePieces(sch, dept, r, Rows(s.core, op), d)
    ensures OpGrossAt(s.core, op, d) == FileGross(sch, dept, r, Rows(s.core, op), d) + DriftAt(sch, s.core, op, d)
  {
    match op
    case Add(_, _, barcode, quantity, price, _) =>
      FileOfOne(sch, dept, r, AddRow(barcode, quantity), d);
      var p := LinePrice(sch, s.core.frozen, barcode);
      assert price * quantity == p * quantity + (price - p) * quantity;
    case Remove(_, _, barcode, _, _) => FileOfOne(sch, dept, r, VoidRow(barcode), d);
    case RemoveCard(card) =>
      Repeated(CardVoidRow(card), FreedSlots(s.core.slots, card));
      NoItemRows(sch, dept, r, Rows(s.core, op), d);
    case _ => NoItemRows(sch, dept, r, Rows(s.core, op), d);
  }

  lemma {:induction false} RunIsInFile(sch: Scheme, dept: nat -> nat, s: CartState, r: Core, ops: seq<Op>, d: nat)
    requires d != 0 && Inv(sch, s.core) && SoundRun(sch, s, ops) && AllPlaced(sch, dept, ops) && Mirrors(s.core, r)
    ensures TotalOf(Run(s, ops).totals, d).items ==
            TotalOf(s.totals, d).items + FilePieces(sch, dept, r, Log(s, ops), d)
    ensures GrossAt(Run(s, ops), d) ==
            GrossAt(s, d) + FileGross(sch, dept, r, Log(s, ops), d) + TotalDriftAt(sch, s, ops, d)
    decreases |ops|
  {
    if ops != [] {
      var s', rows := Apply(s, ops[0]), Rows(s.core, ops[0]);
      OpAt(s, ops[0], d);
      OpIsInFile(sch, dept, s, r, ops[0], d);
      StepIsRedone(sch, s, r, ops[0]);
      RunIsInFile(sch, dept, s', CoreReplay(sch, r, rows), ops[1..], d);
      FileConcat(sch, dept, r, rows, Log(s', ops[1..]), d);
    }
  }
}
