/**
 Department 0, the grand total's own key: what an operation on an item of department 0 does to the grand total,
 over every run and every life, whatever the operations.
 */
module GrandTotal {
  import opened Catalogue
  import opened MapSum
  import opened Barcode
  import opened CartModel
  import opened CartLaws
  import opened Recovery
  import opened SalesActions
  import opened Restarts

  // ----- runs

  /** A price times a quantity, one piece at a time. */
  function Product(price: int, quantity: nat): int
    decreases quantity
  {
    if quantity == 0 then 0 else price + Product(price, quantity - 1)
  }

  lemma {:induction false} ProductIs(price: int, quantity: nat)
    ensures Product(price, quantity) == price * quantity
    decreases quantity
  {
    if quantity > 0 {
      ProductIs(price, quantity - 1);
      assert price * quantity == price + price * (quantity - 1);
    }
  }

  /** What an accepted operation charges. */
  function AcceptedCharge(c: Core, op: Op): Totals {
    if op.Add? && Accepting(c) then
      Totals(op.quantity, Product(op.price - op.discount, op.quantity), Product(op.discount, op.quantity))
    else if op.Remove? && Accepting(c) && op.code in c.rows then Totals(-1, op.discount - op.price, -op.discount)
    else NO_TOTALS
  }

  function ZeroCharge(c: Core, op: Op): Totals {
    if (op.Add? || op.Remove?) && op.dept == 0 then AcceptedCharge(c, op) else NO_TOTALS
  }

  /** One component of the charges to department 0, summed. */
  function ZeroSum(f: Totals -> int, s: CartState, ops: seq<Op>): int
    decreases |ops|
  {
    if ops == [] then 0 else f(ZeroCharge(s.core, ops[0])) + ZeroSum(f, Apply(s, ops[0]), ops[1..])
  }

  /** Pieces of department 0 added, less those voided. */
  function ZeroPieces(s: CartState, ops: seq<Op>): int {
    ZeroSum(Items, s, ops)
  }

  /** Pieces the grand total counts beyond the item counter. */
  function CountGap(s: CartState): int {
    TotalOf(s.totals, 0).items - s.core.itemsNumber
  }

  lemma CountedTwice(totals: map<nat, Totals>, d: nat, t: Totals)
    ensures TotalOf(ChargeBoth(totals, d, t), 0).items ==
            TotalOf(totals, 0).items + (if d == 0 then 2 * t.items else t.items)
  {
  }

  lemma AddGap(s: CartState, code: nat, dept: nat, barcode: nat, quantity: nat, price: int, discount: int)
    ensures CountGap(CartModel.AddItem(s, code, dept, barcode, quantity, price, discount)) ==
            CountGap(s) + if Accepting(s.core) && dept == 0 then quantity else 0
  {
    CountedTwice(s.totals, dept, Totals(quantity, (price - discount) * quantity, discount * quantity));
  }

  lemma RemoveGap(s: CartState, code: nat, dept: nat, barcode: nat, price: int, discount: int)
    ensures CountGap(RemoveItem(s, code, dept, barcode, price, discount)) ==
            CountGap(s) - if Accepting(s.core) && code in s.core.rows && dept == 0 then 1 else 0
  {
    CountedTwice(s.totals, dept, Totals(-1, -(price - discount), -discount));
  }

  lemma ZeroStep(s: CartState, op: Op)
    ensures CountGap(Apply(s, op)) == CountGap(s) + ZeroCharge(s.core, op).items
  {
    match op
    case Add(code, dept, barcode, quantity, price, discount) =>
        AddGap(s, code, dept, barcode, quantity, price, discount);
    case Remove(code, dept, barcode, price, discount) => RemoveGap(s, code, dept, barcode, price, discount);
    case _ =>
  }

  /**
   Over every run, with no hypothesis at all, the grand total's count leaves the item counter by exactly the
   pieces of department 0 added, less those voided.
   */
  lemma {:induction false} ZeroDepartmentCountsTwice(s: CartState, ops: seq<Op>)
    ensures CountGap(Run(s, ops)) == CountGap(s) + ZeroPieces(s, ops)
    decreases |ops|
  {
    if ops != [] {
      ZeroStep(s, ops[0]);
      ZeroDepartmentCountsTwice(Apply(s, ops[0]), ops[1..]);
    }
  }

  // ----- the departments

  /** What the grand total has beyond the departments. */
  ghost function Excess(totals: map<nat, Totals>): Totals {
    var g, d := TotalOf(totals, 0), totals - {0};
    Totals(g.items - Sum(d, Items), g.amount - Sum(d, Amount), g.discount - Sum(d, Discount))
  }

  /** A charge to department 0 is in the grand total twice and in no department; any other is once in each. */
  lemma ChargeExceeds(totals: map<nat, Totals>, d: nat, t: Totals)
    ensures var was, now, n := Excess(totals), Excess(ChargeBoth(totals, d, t)), if d == 0 then 2 else 0;
            now.items == was.items + n * t.items && now.amount == was.amount + n * t.amount &&
            now.discount == was.discount + n * t.discount
  {
    var depts, both := totals - {0}, ChargeBoth(totals, d, t);
    if d == 0 {
      assert both - {0} == depts;
    } else {
      var after := Charge(depts, d, t);
      assert both - {0} == after;
      SumSet(depts, d, after[d], Items);
      SumSet(depts, d, after[d], Amount);
      SumSet(depts, d, after[d], Discount);
    }
  }

  lemma NoExcess(totals: map<nat, Totals>)
    ensures Partitioned(totals) <==> Excess(totals) == NO_TOTALS
  {
  }

  /** A charge keeps the departments adding up exactly when it is not to department 0, or nothing. */
  lemma ChargeKeepsPartitionIff(totals: map<nat, Totals>, d: nat, t: Totals, after: map<nat, Totals>)
    requires Partitioned(totals) && after == ChargeBoth(totals, d, t)
    ensures Partitioned(after) <==> d != 0 || t == NO_TOTALS
  {
    NoExcess(totals);
    NoExcess(after);
    ChargeExceeds(totals, d, t);
  }

  // ----- the departments over runs

  /** The excess moves by twice a charge. */
  predicate ExceedsBy(was: Totals, now: Totals, items: int, amount: int, discount: int) {
    now.items == was.items + 2 * items && now.amount == was.amount + 2 * amount &&
    now.discount == was.discount + 2 * discount
  }

  lemma AppliedTotals(s: CartState, op: Op)
    ensures Apply(s, op).totals ==
            if (op.Add? || op.Remove?) && Accepting(s.core) && (op.Remove? ==> op.code in s.core.rows)
            then ChargeBoth(s.totals, op.dept, AcceptedCharge(s.core, op)) else s.totals
  {
    if op.Add? {
      ProductIs(op.price - op.discount, op.quantity);
      ProductIs(op.discount, op.quantity);
    }
  }

  lemma ExcessStep(s: CartState, op: Op)
    ensures var z := ZeroCharge(s.core, op);
            ExceedsBy(Excess(s.totals), Excess(Apply(s, op).totals), z.items, z.amount, z.discount)
  {
    AppliedTotals(s, op);
    if op.Add? || op.Remove? {
      ChargeExceeds(s.totals, op.dept, AcceptedCharge(s.core, op));
    }
  }

  /**
   Over every run, with no hypothesis, the grand total leaves the sum of the departments by exactly twice what
   department 0 was charged, in items, amount and discount.
   */
  lemma {:induction false} DepartmentsMissTwiceZero(s: CartState, ops: seq<Op>)
    ensures ExceedsBy(Excess(s.totals), Excess(Run(s, ops).totals),
                      ZeroSum(Items, s, ops), ZeroSum(Amount, s, ops), ZeroSum(Discount, s, ops))
    decreases |ops|
  {
    if ops != [] {
      ExcessStep(s, ops[0]);
      DepartmentsMissTwiceZero(Apply(s, ops[0]), ops[1..]);
    }
  }

  /** So the departments go on adding up exactly when the charges to department 0 cancel out in all three. */
  lemma PartitionIsKeptIff(s: CartState, ops: seq<Op>)
    requires Partitioned(s.totals)
    ensures Partitioned(Run(s, ops).totals) <==>
              ZeroSum(Items, s, ops) == 0 && ZeroSum(Amount, s, ops) == 0 && ZeroSum(Discount, s, ops) == 0
  {
    DepartmentsMissTwiceZero(s, ops);
    NoExcess(s.totals);
    NoExcess(Run(s, ops).totals);
  }

  // ----- runs in parts

  lemma {:induction false} ZeroConcat(s: CartState, a: seq<Op>, b: seq<Op>)
    ensures ZeroPieces(s, a + b) == ZeroPieces(s, a) + ZeroPieces(Run(s, a), b)
    decreases |a|
  {
    if a == [] {
      assert a + b == b;
    } else {
      assert (a + b)[1..] == a[1..] + b;
      ZeroConcat(Apply(s, a[0]), a[1..], b);
    }
  }

  lemma ZeroOfOne(s: CartState, op: Op)
    ensures ZeroPieces(s, [op]) == ZeroCharge(s.core, op).items
    ensures Run(s, [op]) == Apply(s, op)
  {
    assert [op][1..] == [];
    assert ZeroSum(Items, Apply(s, op), [op][1..]) == 0;
  }

  // ----- what one action adds

  function One(b: bool): nat {
    if b then 1 else 0
  }

  /** Pieces of department 0 an accepted sale adds: the item's own and its linked item's. */
  function AddZero(cfg: Config, items: map<nat, Item>, c: Core, barcode: nat): nat {
    var d := Decode(cfg.barcodes, barcode);
    if !Accepting(c) || d.kind == NotRecognized || d.code == 0 then 0
    else
      var item := ItemAt(items, d.code);
      One(item.department == 0) +
      One(item.linkedBarcode > 0 && ItemAt(items, LinkedCode(cfg, item.linkedBarcode)).department == 0)
  }

  /** Pieces of department 0 a void takes out, where the cart has them. */
  function VoidZero(cfg: Config, items: map<nat, Item>, c: Core, barcode: nat): nat {
    var code := Owner(cfg.barcodes, barcode);
    var item := ItemAt(items, code);
    if !Accepting(c) || item.code != code then 0
    else
      var linked := LinkedCode(cfg, item.linkedBarcode);
      One(code in c.rows && item.department == 0) +
      One(item.linkedBarcode > 0 && linked in RemoveCore(c, code, barcode).rows &&
          ItemAt(items, linked).department == 0)
  }

  lemma FreezeAddZero(cfg: Config, s: CartState, item: Item, add: Op)
    requires add.Add? && Accepting(s.core)
    ensures ZeroPieces(s, FreezeOps(cfg, item) + [add]) == if add.dept == 0 then add.quantity else 0
    ensures Accepting(Run(s, FreezeOps(cfg, item) + [add]).core)
  {
    var freeze := FreezeOps(cfg, item);
    ZeroConcat(s, freeze, [add]);
    RunConcat(s, freeze, [add]);
    if freeze != [] {
      assert freeze == [freeze[0]];
      ZeroOfOne(s, freeze[0]);
    }
    ZeroOfOne(Run(s, freeze), add);
  }

  lemma {:induction false} RefusedRun(s: CartState, ops: seq<Op>)
    requires !Accepting(s.core)
    ensures ZeroPieces(s, ops) == 0
    decreases |ops|
  {
    if ops != [] {
      RefusedRun(Apply(s, ops[0]), ops[1..]);
    }
  }

  lemma AddOpsZero(cfg: Config, items: map<nat, Item>, s: CartState, barcode: nat, discount: int)
    ensures ZeroPieces(s, AddOps(cfg, items, s.core, barcode, discount)) == AddZero(cfg, items, s.core, barcode)
  {
    var d, ops := Decode(cfg.barcodes, barcode), AddOps(cfg, items, s.core, barcode, discount);
    if !Accepting(s.core) {
      RefusedRun(s, ops);
    } else if d.kind != NotRecognized && d.code != 0 {
      BothAddZero(cfg, items, s, ItemAt(items, d.code), d.code, barcode, discount);
    }
  }

  lemma BothAddZero(cfg: Config, items: map<nat, Item>, s: CartState, item: Item, code: nat, barcode: nat,
                    discount: int)
    requires Accepting(s.core)
    ensures ZeroPieces(s, BothAddOps(cfg, items, s.core, item, code, barcode, discount)) ==
            One(item.department == 0) +
            One(item.linkedBarcode > 0 && ItemAt(items, LinkedCode(cfg, item.linkedBarcode)).department == 0)
  {
    var main := MainAddOps(cfg, s.core, item, code, barcode, discount);
    FreezeAddZero(cfg, s, item, main[|main| - 1]);
    if item.linkedBarcode > 0 {
      var linked := LinkedAddOps(cfg, items, item.linkedBarcode);
      FreezeAddZero(cfg, Run(s, main), ItemAt(items, LinkedCode(cfg, item.linkedBarcode)), linked[|linked| - 1]);
      ZeroConcat(s, main, linked);
    } else {
      assert main + [] == main;
    }
  }

  lemma VoidOpsZero(cfg: Config, items: map<nat, Item>, s: CartState, barcode: nat)
    ensures ZeroPieces(s, VoidOps(cfg, items, s.core, barcode)) == -(VoidZero(cfg, items, s.core, barcode) as int)
  {
    var code, ops := Owner(cfg.barcodes, barcode), VoidOps(cfg, items, s.core, barcode);
    var item := ItemAt(items, code);
    if !Accepting(s.core) {
      RefusedRun(s, ops);
    } else if item.code == code {
      var remove := Remove(code, item.department, barcode, PriceOf(s.core.frozen, item, barcode, cfg.priceChanges), 0);
      ZeroOfOne(s, remove);
      if item.linkedBarcode > 0 {
        var linked := LinkedVoidOps(cfg, items, item.linkedBarcode);
        assert linked == [linked[0]];
        ZeroOfOne(Apply(s, remove), linked[0]);
        ZeroConcat(s, [remove], linked);
      } else {
        assert [remove] + [] == [remove];
      }
    }
  }

  /** A sale keeps the counts equal exactly when neither the item nor its linked item is of department 0. */
  lemma AddKeepsCountIff(cfg: Config, items: map<nat, Item>, s: CartState, barcode: nat, discount: int)
    requires CountGap(s) == 0
    ensures CountGap(Run(s, AddOps(cfg, items, s.core, barcode, discount))) == 0 <==>
            AddZero(cfg, items, s.core, barcode) == 0
  {
    AddOpsZero(cfg, items, s, barcode, discount);
    ZeroDepartmentCountsTwice(s, AddOps(cfg, items, s.core, barcode, discount));
  }

  /** A void keeps them equal exactly when it takes out no piece of department 0. */
  lemma VoidKeepsCountIff(cfg: Config, items: map<nat, Item>, s: CartState, barcode: nat)
    requires CountGap(s) == 0
    ensures CountGap(Run(s, VoidOps(cfg, items, s.core, barcode))) == 0 <==> VoidZero(cfg, items, s.core, barcode) == 0
  {
    VoidOpsZero(cfg, items, s, barcode);
    ZeroDepartmentCountsTwice(s, VoidOps(cfg, items, s.core, barcode));
  }

  // ----- lives

  /** Pieces of department 0 that a file's rows replay, at the departments of the catalogue read. */
  function ZeroRows(sch: Scheme, items: map<nat, Item>, c: Core, log: seq<LogRow>): int
    decreases |log|
  {
    if log == [] then 0
    else ZeroRow(sch, items, c, log[0]) + ZeroRows(sch, items, CoreRow(sch, c, log[0]), log[1..])
  }

  function ZeroRow(sch: Scheme, items: map<nat, Item>, c: Core, row: LogRow): int {
    if row.AddRow? && Accepting(c) && ItemAt(items, sch.owner(row.barcode)).department == 0 then row.quantity
    else if row.VoidRow? && Accepting(c) && sch.owner(row.barcode) in c.rows &&
            ItemAt(items, sch.owner(row.barcode)).department == 0
    then -1 else 0
  }

  lemma {:induction false} ReplayGap(sch: Scheme, items: map<nat, Item>, s: CartState, log: seq<LogRow>)
    ensures CountGap(Replay(sch, items, s, log)) == CountGap(s) + ZeroRows(sch, items, s.core, log)
    decreases |log|
  {
    if log != [] {
      var ops := RowOps(sch, items, s.core, log[0]);
      if ops != [] {
        ZeroStep(s, ops[0]);
      }
      ReplayIsCoreReplay(sch, items, s, [log[0]]);
      ReplayOfOne(sch, s.core, log[0]);
      assert [log[0]][1..] == [];
      ReplayGap(sch, items, ReplayRow(sch, items, s, log[0]), log[1..]);
    }
  }

  /** What an event makes of the gap: an action moves it, a restart starts it over from the file. */
  function GapAfter(cfg: Config, w: World, gap: int, e: Event): int {
    match e
    case AddItem(barcode, _) => gap + AddZero(cfg, w.items, w.cart.core, barcode)
    case VoidItem(barcode) => gap - VoidZero(cfg, w.items, w.cart.core, barcode)
    case Crash(keep, items) => ZeroRows(SchemeOf(cfg), items, LOADING, if keep <= |w.log| then w.log[..keep] else w.log)
    case _ => gap
  }

  function LifeGap(cfg: Config, w: World, gap: int, events: seq<Event>): int
    decreases |events|
  {
    if events == [] then gap else LifeGap(cfg, Step(cfg, w, events[0]), GapAfter(cfg, w, gap, events[0]), events[1..])
  }

  lemma GapStep(cfg: Config, w: World, e: Event)
    ensures CountGap(Step(cfg, w, e).cart) == GapAfter(cfg, w, CountGap(w.cart), e)
  {
    match e
    case AddItem(barcode, discount) =>
      AddOpsZero(cfg, w.items, w.cart, barcode, discount);
      ZeroDepartmentCountsTwice(w.cart, AddOps(cfg, w.items, w.cart.core, barcode, discount));
    case VoidItem(barcode) =>
      VoidOpsZero(cfg, w.items, w.cart, barcode);
      ZeroDepartmentCountsTwice(w.cart, VoidOps(cfg, w.items, w.cart.core, barcode));
    case AddLoyalty(card) => ZeroOfOne(w.cart, AddCard(card, cfg.cardLimit));
    case VoidLoyalty(card) => ZeroOfOne(w.cart, RemoveCard(card));
    case VoidSession => ZeroOfOne(w.cart, VoidAll);
    case UpdateItem(_, _, _, _) =>
    case Crash(keep, items) =>
      ReplayGap(SchemeOf(cfg), items, Empty(Loading), if keep <= |w.log| then w.log[..keep] else w.log);
  }

  lemma {:induction false} GapOverLife(cfg: Config, w: World, events: seq<Event>)
    ensures CountGap(Live(cfg, w, events).cart) == LifeGap(cfg, w, CountGap(w.cart), events)
    decreases |events|
  {
    if events != [] {
      GapStep(cfg, w, events[0]);
      GapOverLife(cfg, Step(cfg, w, events[0]), events[1..]);
    }
  }

  /**
   After any life, whatever the catalogues hold, the grand total counts the item counter's pieces exactly when the
   pieces of department 0, sold less voided since the last restart or replayed by it, come to none.
   */
  lemma CountIsRightIff(cfg: Config, items: map<nat, Item>, events: seq<Event>)
    ensures var s := Live(cfg, Opened(items), events).cart;
            TotalOf(s.totals, 0).items == s.core.itemsNumber <==> LifeGap(cfg, Opened(items), 0, events) == 0
  {
    GapOverLife(cfg, Opened(items), events);
  }
}
