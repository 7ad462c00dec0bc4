/** From a life to the text of its transaction file and back: every row written can be read. */
module TextSafety {
  import opened Catalogue
  import opened Csv
  import opened Archive
  import opened LogText
  import opened Barcode
  import opened CartModel
  import opened Recovery
  import opened CrashSafety
  import opened SalesActions
  import opened Restarts

  predicate RowsFit(rows: seq<LogRow>) {
    forall i :: 0 <= i < |rows| ==> RowFits(rows[i])
  }

  // ----- what fits

  predicate OpFits(op: Op) {
    match op
    case Freeze(item, department) => ItemOk(item) && RowFits(DepartmentRow(department))
    case Add(_, _, barcode, quantity, _, _) => barcode <= MAX_U64 && quantity <= 0xFFFF_FFFF
    case Remove(_, _, barcode, _, _) => barcode <= MAX_U64
    case AddCard(card, _) => card <= MAX_U64
    case RemoveCard(card) => card <= MAX_U64
    case VoidAll => true
  }

  predicate OpsFit(ops: seq<Op>) {
    forall i :: 0 <= i < |ops| ==> OpFits(ops[i])
  }

  predicate ItemsFit(items: map<nat, Item>) {
    forall k :: k in items ==> ItemOk(items[k])
  }

  predicate DepartmentsFit(cfg: Config) {
    forall d :: d in cfg.departments ==> RowFits(DepartmentRow(cfg.departments[d]))
  }

  /** Barcodes and cards are 64-bit, and descriptions hold neither a quote nor a newline. */
  predicate EventFits(e: Event) {
    match e
    case AddItem(barcode, _) => barcode <= MAX_U64
    case VoidItem(barcode) => barcode <= MAX_U64
    case AddLoyalty(card) => card <= MAX_U64
    case VoidLoyalty(card) => card <= MAX_U64
    case UpdateItem(code, description, department, price) => ItemOk(Item(code, description, department, price, 0))
    case Crash(_, items) => ItemsFit(items)
    case VoidSession => true
  }

  predicate EventsFit(events: seq<Event>) {
    forall i :: 0 <= i < |events| ==> EventFits(events[i])
  }

  // ----- every row written fits

  lemma {:induction false} RepeatFits(row: LogRow, n: int)
    requires RowFits(row)
    ensures RowsFit(Repeat(row, n))
    decreases n
  {
    if n > 0 {
      RepeatFits(row, n - 1);
    }
  }

  lemma OpRowsFit(c: Core, op: Op)
    requires OpFits(op)
    ensures RowsFit(Rows(c, op))
  {
    if op.RemoveCard? {
      RepeatFits(CardVoidRow(op.card), FreedSlots(c.slots, op.card));
    }
  }

  lemma {:induction false} LogFits(s: CartState, ops: seq<Op>)
    requires OpsFit(ops)
    ensures RowsFit(Log(s, ops))
    decreases |ops|
  {
    if ops != [] {
      OpRowsFit(s.core, ops[0]);
      LogFits(Apply(s, ops[0]), ops[1..]);
    }
  }

  lemma ItemAtFits(items: map<nat, Item>, code: nat)
    requires ItemsFit(items)
    ensures ItemOk(ItemAt(items, code))
  {
  }

  lemma FreezeFits(cfg: Config, item: Item)
    requires DepartmentsFit(cfg) && ItemOk(item)
    ensures OpsFit(FreezeOps(cfg, item))
  {
  }

  lemma AddOpsFit(cfg: Config, items: map<nat, Item>, c: Core, barcode: nat, discount: int)
    requires DepartmentsFit(cfg) && ItemsFit(items) && barcode <= MAX_U64
    ensures OpsFit(AddOps(cfg, items, c, barcode, discount))
  {
    var item := ItemAt(items, Decode(cfg.barcodes, barcode).code);
    ItemAtFits(items, Decode(cfg.barcodes, barcode).code);
    FreezeFits(cfg, item);
    var linked := ItemAt(items, LinkedCode(cfg, item.linkedBarcode));
    ItemAtFits(items, LinkedCode(cfg, item.linkedBarcode));
    FreezeFits(cfg, linked);
  }

  lemma VoidOpsFit(cfg: Config, items: map<nat, Item>, c: Core, barcode: nat)
    requires ItemsFit(items) && barcode <= MAX_U64
    ensures OpsFit(VoidOps(cfg, items, c, barcode))
  {
    ItemAtFits(items, Owner(cfg.barcodes, barcode));
  }

  lemma EventOpsFit(cfg: Config, items: map<nat, Item>, c: Core, e: Event)
    requires DepartmentsFit(cfg) && ItemsFit(items) && EventFits(e)
    ensures OpsFit(EventOps(cfg, items, c, e))
  {
    match e
    case AddItem(barcode, discount) => AddOpsFit(cfg, items, c, barcode, discount);
    case VoidItem(barcode) => VoidOpsFit(cfg, items, c, barcode);
    case _ =>
  }

  lemma StepFits(cfg: Config, w: World, e: Event)
    requires DepartmentsFit(cfg) && ItemsFit(w.items) && RowsFit(w.log) && EventFits(e)
    ensures ItemsFit(Step(cfg, w, e).items) && RowsFit(Step(cfg, w, e).log)
  {
    match e
    case UpdateItem(_, _, _, _) =>
    case Crash(_, _) =>
    case _ =>
      var ops := EventOps(cfg, w.items, w.cart.core, e);
      EventOpsFit(cfg, w.items, w.cart.core, e);
      LogFits(w.cart, ops);
  }

  lemma {:induction false} LifeFits(cfg: Config, w: World, events: seq<Event>)
    requires DepartmentsFit(cfg) && ItemsFit(w.items) && RowsFit(w.log) && EventsFit(events)
    ensures RowsFit(Live(cfg, w, events).log)
    decreases |events|
  {
    if events != [] {
      StepFits(cfg, w, events[0]);
      LifeFits(cfg, Step(cfg, w, events[0]), events[1..]);
    }
  }

  // ----- the text recovers the cart

  /**
   After any life, the text of the cart's file, under any timestamps, is read and replayed to the cart: its counts,
   cards, copy and phase, and with frozen prices its gross total but for the drift since the last restart.
   */
  lemma TextRecoversTheCart(cfg: Config, items: map<nat, Item>, events: seq<Event>, later: map<nat, Item>,
                            stamps: seq<string>)
    requires CatalogueOk(cfg, items) && Lawful(cfg, events) && Complete(SchemeOf(cfg), later)
    requires DepartmentsFit(cfg) && ItemsFit(items) && EventsFit(events)
    requires |stamps| == |Live(cfg, Opened(items), events).log| && forall i :: 0 <= i < |stamps| ==> StampOk(stamps[i])
    ensures var w := Live(cfg, Opened(items), events);
            var recovered := Recover(SchemeOf(cfg), later, ReadFile(FileText(stamps, w.log)));
            && SameCart(w.cart.core, recovered.core)
            && (!cfg.priceChanges ==> Gross(w.cart) == Gross(recovered) + w.drift)
  {
    LifeFits(cfg, Opened(items), events);
    FilesReadBack(stamps, Live(cfg, Opened(items), events).log);
    AnyLifeIsRecoverable(cfg, items, events, later);
  }

  // ----- an item's copy follows its department's

  /** Right before every item row stands the row of the department the configuration has for the item. */
  predicate Paired(cfg: Config, rows: seq<LogRow>) {
    forall i :: 0 <= i < |rows| && rows[i].ItemRow? ==>
      i > 0 && rows[i - 1] == DepartmentRow(Lookup(cfg.departments, rows[i].item.department, NO_DEPARTMENT))
  }

  predicate PairedOp(cfg: Config, op: Op) {
    op.Freeze? ==> op.department == Lookup(cfg.departments, op.item.department, NO_DEPARTMENT)
  }

  lemma PairedBoth(cfg: Config, a: seq<LogRow>, b: seq<LogRow>)
    requires Paired(cfg, a) && Paired(cfg, b)
    ensures Paired(cfg, a + b)
  {
  }

  lemma OpRowsArePaired(cfg: Config, c: Core, op: Op)
    requires PairedOp(cfg, op)
    ensures Paired(cfg, Rows(c, op))
  {
    if op.RemoveCard? {
      RepeatIsPaired(cfg, op.card, FreedSlots(c.slots, op.card));
    }
  }

  lemma {:induction false} RepeatIsPaired(cfg: Config, card: nat, n: int)
    ensures Paired(cfg, Repeat(CardVoidRow(card), n))
    decreases n
  {
    if n > 0 {
      RepeatIsPaired(cfg, card, n - 1);
    }
  }

  lemma {:induction false} LogIsPaired(cfg: Config, s: CartState, ops: seq<Op>)
    requires forall i :: 0 <= i < |ops| ==> PairedOp(cfg, ops[i])
    ensures Paired(cfg, Log(s, ops))
    decreases |ops|
  {
    if ops != [] {
      OpRowsArePaired(cfg, s.core, ops[0]);
      LogIsPaired(cfg, Apply(s, ops[0]), ops[1..]);
      PairedBoth(cfg, Rows(s.core, ops[0]), Log(Apply(s, ops[0]), ops[1..]));
    }
  }

  lemma EventOpsArePaired(cfg: Config, items: map<nat, Item>, c: Core, e: Event)
    ensures forall i :: 0 <= i < |EventOps(cfg, items, c, e)| ==> PairedOp(cfg, EventOps(cfg, items, c, e)[i])
  {
  }

  lemma PairedStep(cfg: Config, w: World, e: Event)
    requires Paired(cfg, w.log)
    ensures Paired(cfg, Step(cfg, w, e).log)
  {
    if !e.UpdateItem? && !e.Crash? {
      var ops := EventOps(cfg, w.items, w.cart.core, e);
      EventOpsArePaired(cfg, w.items, w.cart.core, e);
      LogIsPaired(cfg, w.cart, ops);
      PairedBoth(cfg, w.log, Log(w.cart, ops));
    }
  }

  /** Through any life, crashes included, every copied item's row follows the row of its department. */
  lemma {:induction false} ItemsFollowDepartments(cfg: Config, w: World, events: seq<Event>)
    requires Paired(cfg, w.log)
    ensures Paired(cfg, Live(cfg, w, events).log)
    decreases |events|
  {
    if events != [] {
      PairedStep(cfg, w, events[0]);
      ItemsFollowDepartments(cfg, Step(cfg, w, events[0]), events[1..]);
    }
  }

  // ----- a variation in the archive

  /**
   A variation of a positive code replaces that item, description, department and price, and no other; dumped and
   read back, the archive still has it.
   */
  lemma VariationSurvivesDump(items: map<nat, Item>, code: nat, description: string, department: nat, price: int,
                              k: nat)
    requires ArchiveOk(items) && code > 0 && k > 0 && ItemOk(Item(code, description, department, price, 0))
    ensures var items' := Update(items, code, description, department, price);
            var (ok, back) := ReadItems(Dump(items', ItemText, InOrder(items'.Keys)), NO_ITEM, map[]);
            ok && Lookup(back, k, NO_ITEM) ==
                  if k == code then Item(code, description, department, price, 0) else Lookup(items, k, NO_ITEM)
  {
    var items' := Update(items, code, description, department, price);
    assert ArchiveOk(items') by {
      forall j | j in items'
        ensures IsOwn(items', j) || IsBlank(items', j)
      {
        assert j != code ==> IsOwn(items, j) || IsBlank(items, j);
      }
    }
    DumpAndReload(items');
  }
}
