/** The departments' totals through whole lives, as long as no item changes department. */
module DepartmentLife {
  import opened Catalogue
  import opened Barcode
  import opened CartModel
  import opened Recovery
  import opened SalesActions
  import opened Restarts
  import opened DepartmentRecovery

  // ----- actions charge the departments of their items

  lemma PlacedBoth(sch: Scheme, dept: nat -> nat, a: seq<Op>, b: seq<Op>)
    requires AllPlaced(sch, dept, a) && AllPlaced(sch, dept, b)
    ensures AllPlaced(sch, dept, a + b)
  {
  }

  lemma FreezeAddIsPlaced(cfg: Config, sch: Scheme, dept: nat -> nat, item: Item, add: Op)
    requires add.Add? && Placed(sch, dept, add)
    ensures AllPlaced(sch, dept, FreezeOps(cfg, item) + [add])
  {
  }

  lemma LinkedIsPlaced(cfg: Config, sch: Scheme, items: map<nat, Item>, dept: nat -> nat, linked: nat)
    requires sch == SchemeOf(cfg) && HasDepts(sch, items, dept) && LinkOk(cfg, linked)
    ensures AllPlaced(sch, dept, LinkedAddOps(cfg, items, linked))
    ensures AllPlaced(sch, dept, LinkedVoidOps(cfg, items, linked))
  {
    var code := LinkedCode(cfg, linked);
    var item := ItemAt(items, code);
    assert sch.owner(linked) == code;
    FreezeAddIsPlaced(cfg, sch, dept, item, Add(code, item.department, linked, 1, item.price, 0));
  }

  lemma MainIsPlaced(cfg: Config, sch: Scheme, items: map<nat, Item>, dept: nat -> nat, c: Core, barcode: nat,
                     discount: int)
    requires sch == SchemeOf(cfg) && HasDepts(sch, items, dept)
    ensures var code := Owner(cfg.barcodes, barcode);
            AllPlaced(sch, dept, MainAddOps(cfg, c, ItemAt(items, code), code, barcode, discount))
  {
    var code := Owner(cfg.barcodes, barcode);
    var ops := MainAddOps(cfg, c, ItemAt(items, code), code, barcode, discount);
    assert sch.owner(barcode) == code;
    FreezeAddIsPlaced(cfg, sch, dept, ItemAt(items, code), ops[|ops| - 1]);
  }

  lemma AddIsPlaced(cfg: Config, sch: Scheme, items: map<nat, Item>, dept: nat -> nat, c: Core, barcode: nat,
                    discount: int)
    requires sch == SchemeOf(cfg) && HasDepts(sch, items, dept) && CatalogueOk(cfg, items)
    ensures AllPlaced(sch, dept, AddOps(cfg, items, c, barcode, discount))
  {
    var d := Decode(cfg.barcodes, barcode);
    if d.kind != NotRecognized && d.code != 0 {
      var item := ItemAt(items, d.code);
      MainIsPlaced(cfg, sch, items, dept, c, barcode, discount);
      if item.linkedBarcode > 0 {
        assert LinkOk(cfg, item.linkedBarcode);
        LinkedIsPlaced(cfg, sch, items, dept, item.linkedBarcode);
        PlacedBoth(sch, dept, MainAddOps(cfg, c, item, d.code, barcode, discount),
            LinkedAddOps(cfg, items, item.linkedBarcode));
      }
    }
  }

  lemma VoidIsPlaced(cfg: Config, sch: Scheme, items: map<nat, Item>, dept: nat -> nat, c: Core, barcode: nat)
    requires sch == SchemeOf(cfg) && HasDepts(sch, items, dept) && CatalogueOk(cfg, items)
    ensures AllPlaced(sch, dept, VoidOps(cfg, items, c, barcode))
  {
    var code := Owner(cfg.barcodes, barcode);
    var item := ItemAt(items, code);
    assert sch.owner(barcode) == code;
    if item.code == code && item.linkedBarcode > 0 {
      assert LinkOk(cfg, item.linkedBarcode);
      LinkedIsPlaced(cfg, sch, items, dept, item.linkedBarcode);
    }
  }

  lemma EventIsPlaced(cfg: Config, items: map<nat, Item>, dept: nat -> nat, c: Core, e: Event)
    requires HasDepts(SchemeOf(cfg), items, dept) && CatalogueOk(cfg, items)
    ensures AllPlaced(SchemeOf(cfg), dept, EventOps(cfg, items, c, e))
  {
    match e
    case AddItem(barcode, discount) => AddIsPlaced(cfg, SchemeOf(cfg), items, dept, c, barcode, discount);
    case VoidItem(barcode) => VoidIsPlaced(cfg, SchemeOf(cfg), items, dept, c, barcode);
    case _ =>
  }

  // ----- the drift of one department

  lemma {:induction false} DriftConcat(sch: Scheme, s: CartState, a: seq<Op>, b: seq<Op>, d: nat)
    ensures TotalDriftAt(sch, s, a + b, d) == TotalDriftAt(sch, s, a, d) + TotalDriftAt(sch, Run(s, a), b, d)
    decreases |a|
  {
    if a == [] {
      assert a + b == b;
    } else {
      assert (a + b)[1..] == a[1..] + b;
      DriftConcat(sch, Apply(s, a[0]), a[1..], b, d);
    }
  }

  lemma OneDrifts(sch: Scheme, s: CartState, op: Op, d: nat)
    requires op.Add? || op.Remove?
    ensures TotalDriftAt(sch, s, [op], d) == if op.dept == d then TotalDrift(sch, s, [op]) else 0
  {
    OneOp(sch, s, op);
    assert [op][1..] == [];
  }

  lemma FreezeAddDrifts(cfg: Config, sch: Scheme, s: CartState, item: Item, add: Op, d: nat)
    requires add.Add?
    ensures var ops := FreezeOps(cfg, item) + [add];
            TotalDriftAt(sch, s, ops, d) == if add.dept == d then TotalDrift(sch, s, ops) else 0
  {
    var freeze := FreezeOps(cfg, item);
    DriftConcat(sch, s, freeze, [add], d);
    DriftSplits(sch, s, freeze, [add]);
    OneDrifts(sch, Run(s, freeze), add, d);
    if freeze != [] {
      assert freeze[1..] == [];
    }
  }

  lemma {:induction false} DriftSplits(sch: Scheme, s: CartState, a: seq<Op>, b: seq<Op>)
    ensures TotalDrift(sch, s, a + b) == TotalDrift(sch, s, a) + TotalDrift(sch, Run(s, a), b)
    decreases |a|
  {
    if a == [] {
      assert a + b == b;
    } else {
      assert (a + b)[1..] == a[1..] + b;
      DriftSplits(sch, Apply(s, a[0]), a[1..], b);
    }
  }

  /** The department of the item an action's item is linked to. */
  function LinkedDept(cfg: Config, items: map<nat, Item>, code: nat): nat {
    ItemAt(items, LinkedCode(cfg, ItemAt(items, code).linkedBarcode)).department
  }

  /** What an event charges off the copied prices in a department: all it does, if the linked item is there. */
  function ChangeAt(cfg: Config, items: map<nat, Item>, c: Core, e: Event, d: nat): int {
    if (e.AddItem? || e.VoidItem?) && LinkedDept(cfg, items, Owner(cfg.barcodes, e.barcode)) == d
    then LinkedChange(cfg, items, c, e) else 0
  }

  lemma AddDriftsAt(cfg: Config, items: map<nat, Item>, s: CartState, barcode: nat, discount: int, d: nat)
    requires CatalogueOk(cfg, items) && !cfg.priceChanges
    ensures TotalDriftAt(SchemeOf(cfg), s, AddOps(cfg, items, s.core, barcode, discount), d) ==
            ChangeAt(cfg, items, s.core, AddItem(barcode, discount), d)
  {
    var sch, dec := SchemeOf(cfg), Decode(cfg.barcodes, barcode);
    if dec.kind != NotRecognized && dec.code != 0 {
      var item := ItemAt(items, dec.code);
      var main := MainAddOps(cfg, s.core, item, dec.code, barcode, discount);
      assert sch.owner(barcode) == dec.code;
      AddIsSound(cfg, items, s, barcode, discount);
      MainAddIsSound(cfg, sch, s, item, barcode, discount);
      FreezeAddDrifts(cfg, sch, s, item, main[|main| - 1], d);
      if Accepting(s.core) && item.linkedBarcode > 0 {
        var linked := LinkedAddOps(cfg, items, item.linkedBarcode);
        DriftConcat(sch, s, main, linked, d);
        DriftSplits(sch, s, main, linked);
        FreezeAddDrifts(cfg, sch, Run(s, main), ItemAt(items, LinkedCode(cfg, item.linkedBarcode)),
            linked[|linked| - 1], d);
      } else {
        assert main + [] == main;
      }
    }
  }

  lemma VoidDriftsAt(cfg: Config, items: map<nat, Item>, s: CartState, barcode: nat, d: nat)
    requires CatalogueOk(cfg, items) && Inv(SchemeOf(cfg), s.core) && !cfg.priceChanges
    ensures TotalDriftAt(SchemeOf(cfg), s, VoidOps(cfg, items, s.core, barcode), d) ==
            ChangeAt(cfg, items, s.core, VoidItem(barcode), d)
  {
    var sch, code := SchemeOf(cfg), Owner(cfg.barcodes, barcode);
    var item := ItemAt(items, code);
    if item.code == code {
      var remove := Remove(code, item.department, barcode, PriceOf(s.core.frozen, item, barcode, cfg.priceChanges), 0);
      VoidIsSound(cfg, items, s, barcode);
      MainVoidIsSound(cfg, sch, items, s, barcode);
      OneDrifts(sch, s, remove, d);
      if Accepting(s.core) && item.linkedBarcode > 0 {
        var linked := LinkedVoidOps(cfg, items, item.linkedBarcode);
        assert linked == [linked[0]];
        DriftConcat(sch, s, [remove], linked, d);
        DriftSplits(sch, s, [remove], linked);
        OneDrifts(sch, Apply(s, remove), linked[0], d);
      } else {
        assert [remove] + [] == [remove];
      }
    }
  }

  lemma EventDriftsAt(cfg: Config, items: map<nat, Item>, s: CartState, e: Event, d: nat)
    requires CatalogueOk(cfg, items) && Inv(SchemeOf(cfg), s.core) && !cfg.priceChanges
    ensures TotalDriftAt(SchemeOf(cfg), s, EventOps(cfg, items, s.core, e), d) == ChangeAt(cfg, items, s.core, e, d)
  {
    match e
    case AddItem(barcode, discount) => AddDriftsAt(cfg, items, s, barcode, discount, d);
    case VoidItem(barcode) => VoidDriftsAt(cfg, items, s, barcode, d);
    case AddLoyalty(card) => NothingDrifts(SchemeOf(cfg), s, AddCard(card, cfg.cardLimit), d);
    case VoidLoyalty(card) => NothingDrifts(SchemeOf(cfg), s, RemoveCard(card), d);
    case VoidSession => NothingDrifts(SchemeOf(cfg), s, VoidAll, d);
    case _ =>
  }

  lemma NothingDrifts(sch: Scheme, s: CartState, op: Op, d: nat)
    requires !op.Add? && !op.Remove?
    ensures TotalDriftAt(sch, s, [op], d) == 0
  {
    assert [op][1..] == [];
  }

  // ----- lives

  /** No event moves an item to another department. */
  ghost predicate StaysPut(sch: Scheme, dept: nat -> nat, e: Event) {
    match e
    case UpdateItem(code, _, department, _) => department == dept(code)
    case Crash(_, items) => HasDepts(sch, items, dept)
    case _ => true
  }

  ghost predicate StayPut(sch: Scheme, dept: nat -> nat, events: seq<Event>) {
    forall i :: 0 <= i < |events| ==> StaysPut(sch, dept, events[i])
  }

  function ChangeAtAfter(cfg: Config, w: World, sum: int, e: Event, d: nat): int {
    if e.Crash? then 0 else sum + ChangeAt(cfg, w.items, w.cart.core, e, d)
  }

  /** A department's linked changes, summed since the last restart. */
  function ChangesAtSinceRestart(cfg: Config, w: World, sum: int, events: seq<Event>, d: nat): int
    decreases |events|
  {
    if events == [] then sum
    else ChangesAtSinceRestart(cfg, Step(cfg, w, events[0]), ChangeAtAfter(cfg, w, sum, events[0], d), events[1..], d)
  }

  /** The file tells the department: its pieces, and with frozen prices its gross but for a drift. */
  ghost predicate DeptTold(cfg: Config, w: World, dept: nat -> nat, drift: int, d: nat) {
    var sch := SchemeOf(cfg);
    && HasDepts(sch, w.items, dept)
    && TotalOf(w.cart.totals, d).items == FilePieces(sch, dept, LOADING, w.log, d)
    && (!cfg.priceChanges ==> GrossAt(w.cart, d) == FileGross(sch, dept, LOADING, w.log, d) + drift)
  }

  lemma RestartTellsDept(cfg: Config, items: map<nat, Item>, log: seq<LogRow>, dept: nat -> nat, d: nat)
    requires d != 0 && CatalogueOk(cfg, items) && LogOk(SchemeOf(cfg), LOADING, log) &&
             HasDepts(SchemeOf(cfg), items, dept)
    ensures DeptTold(cfg, World(Recover(SchemeOf(cfg), items, log), log, items, 0), dept, 0, d)
  {
    var sch := SchemeOf(cfg);
    RecoveredPieces(sch, items, log, d);
    SameDepts(sch, items, dept, LOADING, log, d);
    if !cfg.priceChanges {
      RecoveredGross(sch, items, log, d);
    }
  }

  lemma ActionTellsDept(cfg: Config, w: World, e: Event, dept: nat -> nat, drift: int, d: nat)
    requires d != 0 && Recoverable(cfg, w) && DeptTold(cfg, w, dept, drift, d) && !e.Crash? && !e.UpdateItem?
    ensures DeptTold(cfg, Step(cfg, w, e), dept, ChangeAtAfter(cfg, w, drift, e, d), d)
  {
    var sch := SchemeOf(cfg);
    var ops, r := EventOps(cfg, w.items, w.cart.core, e), CoreReplay(sch, LOADING, w.log);
    EventIsSound(cfg, w.items, w.cart, e);
    EventIsPlaced(cfg, w.items, dept, w.cart.core, e);
    RunIsInFile(sch, dept, w.cart, r, ops, d);
    FileConcat(sch, dept, LOADING, w.log, Log(w.cart, ops), d);
    if !cfg.priceChanges {
      EventDriftsAt(cfg, w.items, w.cart, e, d);
    }
  }

  lemma UpdateKeepsDepts(sch: Scheme, items: map<nat, Item>, dept: nat -> nat, code: nat, description: string,
                         department: nat, price: int)
    requires HasDepts(sch, items, dept) && department == dept(code)
    ensures HasDepts(sch, Update(items, code, description, department, price), dept)
  {
    var items' := Update(items, code, description, department, price);
    forall b: nat
      ensures DeptOf(items')(sch.owner(b)) == dept(sch.owner(b))
    {
      assert DeptOf(items)(sch.owner(b)) == dept(sch.owner(b));
    }
  }

  lemma DeptStep(cfg: Config, w: World, e: Event, dept: nat -> nat, drift: int, d: nat)
    requires d != 0 && Recoverable(cfg, w) && EventOk(cfg, e) && StaysPut(SchemeOf(cfg), dept, e)
    requires DeptTold(cfg, w, dept, drift, d)
    ensures DeptTold(cfg, Step(cfg, w, e), dept, ChangeAtAfter(cfg, w, drift, e, d), d)
  {
    match e
    case UpdateItem(code, description, department, price) =>
      UpdateKeepsDepts(SchemeOf(cfg), w.items, dept, code, description, department, price);
    case Crash(keep, items) =>
      if keep <= |w.log| {
        CutKeepsLogOk(SchemeOf(cfg), w.log, keep);
      }
      RestartTellsDept(cfg, items, if keep <= |w.log| then w.log[..keep] else w.log, dept, d);
    case _ => ActionTellsDept(cfg, w, e, dept, drift, d);
  }

  lemma {:induction false} DeptOverLife(cfg: Config, w: World, events: seq<Event>, dept: nat -> nat, drift: int, d: nat)
    requires d != 0 && Recoverable(cfg, w) && Lawful(cfg, events) && StayPut(SchemeOf(cfg), dept, events)
    requires DeptTold(cfg, w, dept, drift, d)
    ensures DeptTold(cfg, Live(cfg, w, events), dept, ChangesAtSinceRestart(cfg, w, drift, events, d), d)
    decreases |events|
  {
    if events != [] {
      DeptStep(cfg, w, events[0], dept, drift, d);
      RecoverableStep(cfg, w, events[0]);
      DeptOverLife(cfg, Step(cfg, w, events[0]), events[1..], dept, ChangeAtAfter(cfg, w, drift, events[0], d), d);
    }
  }

  lemma OpenedTellsDept(cfg: Config, items: map<nat, Item>, dept: nat -> nat, d: nat)
    requires HasDepts(SchemeOf(cfg), items, dept)
    ensures DeptTold(cfg, Opened(items), dept, 0, d)
  {
  }

  /**
   After any life in which no item changes department, a restart gives every department its pieces back, and with
   frozen prices its gross but for the linked changes in it since the last restart.
   */
  lemma DepartmentsAreRecovered(cfg: Config, items: map<nat, Item>, events: seq<Event>, later: map<nat, Item>,
                                dept: nat -> nat, d: nat)
    requires d != 0 && CatalogueOk(cfg, items) && Lawful(cfg, events) && CatalogueOk(cfg, later)
    requires HasDepts(SchemeOf(cfg), items, dept) && StayPut(SchemeOf(cfg), dept, events)
    requires HasDepts(SchemeOf(cfg), later, dept)
    ensures var w := Live(cfg, Opened(items), events);
            var recovered := Recover(SchemeOf(cfg), later, w.log);
            && TotalOf(recovered.totals, d).items == TotalOf(w.cart.totals, d).items
            && TotalOf(recovered.totals, d).discount == 0
            && (!cfg.priceChanges ==>
                  GrossAt(w.cart, d) - GrossAt(recovered, d) == ChangesAtSinceRestart(cfg, Opened(items), 0, events, d))
  {
    var w := Live(cfg, Opened(items), events);
    OpenedIsRecoverable(cfg, items);
    OpenedTellsDept(cfg, items, dept, d);
    RecoverableOverLife(cfg, Opened(items), events);
    DeptOverLife(cfg, Opened(items), events, dept, 0, d);
    RestartTellsDept(cfg, later, w.log, dept, d);
    RecoveredPieces(SchemeOf(cfg), later, w.log, d);
  }
}
