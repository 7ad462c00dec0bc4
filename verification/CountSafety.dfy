/**
 Recovery of what needs no catalogue: counts, cards, private copy and phase come back whatever the departments,
 quantities and items are, as long as a row's barcode leads back to the item it was written for.
 */
module CountSafety {
  import opened Catalogue
  import opened MapSum
  import opened Barcode
  import opened CartModel
  import opened LoyaltySlots
  import opened Recovery
  import opened CrashSafety
  import opened SalesActions
  import opened Restarts

  // ----- runs

  /** An operation whose rows say enough to redo it. */
  predicate Traced(cfg: Scheme, op: Op) {
    match op
    case Freeze(_, _) => !cfg.priceChanges
    case Add(code, _, barcode, _, _, _) => code == cfg.owner(barcode)
    case Remove(code, _, barcode, _, _) => code == cfg.owner(barcode)
    case AddCard(_, limit) => limit == cfg.cardLimit
    case _ => true
  }

  predicate TracedRun(cfg: Scheme, ops: seq<Op>) {
    forall i :: 0 <= i < |ops| ==> Traced(cfg, ops[i])
  }

  predicate CoreInv(cfg: Scheme, c: Core) {
    SlotsOk(c, cfg.cardLimit) && c.phase != Closed
  }

  lemma CoreInvStep(cfg: Scheme, s: CartState, op: Op)
    requires CoreInv(cfg, s.core) && Traced(cfg, op)
    ensures CoreInv(cfg, Apply(s, op).core)
  {
    match op
    case AddCard(card, limit) => AddKeepsSlots(s.core, card, limit);
    case RemoveCard(card) => RemoveKeepsSlots(s.core, card, cfg.cardLimit);
    case _ =>
  }

  predicate CoreRedone(cfg: Scheme, s: CartState, r: Core, op: Op) {
    var rows := Rows(s.core, op);
    && Mirrors(Apply(s, op).core, CoreReplay(cfg, r, rows))
    && (|rows| <= 1 || (|rows| == 2 && rows[0].DepartmentRow?))
  }

  lemma AddCoreStep(cfg: Scheme, s: CartState, r: Core, op: Op)
    requires op.Add? && Traced(cfg, op) && Mirrors(s.core, r)
    ensures CoreRedone(cfg, s, r, op)
  {
    ReplayOfOne(cfg, r, AddRow(op.barcode, op.quantity));
    AddFollows(s, op);
  }

  lemma AddFollows(s: CartState, op: Op)
    requires op.Add?
    ensures Apply(s, op).core == AddCore(s.core, op.code, op.barcode, op.quantity)
  {
  }

  lemma RemoveCoreStep(cfg: Scheme, s: CartState, r: Core, op: Op)
    requires op.Remove? && Traced(cfg, op) && Mirrors(s.core, r)
    ensures CoreRedone(cfg, s, r, op)
  {
    ReplayOfOne(cfg, r, VoidRow(op.barcode));
    RemoveFollows(s, op);
  }

  lemma RemoveFollows(s: CartState, op: Op)
    requires op.Remove?
    ensures Apply(s, op).core == RemoveCore(s.core, op.code, op.barcode)
  {
  }

  lemma AddCardCoreStep(cfg: Scheme, s: CartState, r: Core, op: Op)
    requires op.AddCard? && Traced(cfg, op) && Mirrors(s.core, r)
    ensures CoreRedone(cfg, s, r, op)
  {
    ReplayOfOne(cfg, r, CardAddRow(op.card));
  }

  lemma VoidAllCoreStep(cfg: Scheme, s: CartState, r: Core)
    requires Mirrors(s.core, r)
    ensures CoreRedone(cfg, s, r, VoidAll)
  {
    ReplayOfOne(cfg, r, CartVoidRow);
  }

  lemma CoreStep(cfg: Scheme, s: CartState, r: Core, op: Op)
    requires CoreInv(cfg, s.core) && Traced(cfg, op) && Mirrors(s.core, r)
    ensures CoreRedone(cfg, s, r, op)
  {
    match op
    case Freeze(item, department) => FreezeIsRedone(cfg, s, r, item, department);
    case Add(_, _, _, _, _, _) => AddCoreStep(cfg, s, r, op);
    case Remove(_, _, _, _, _) => RemoveCoreStep(cfg, s, r, op);
    case AddCard(_, _) => AddCardCoreStep(cfg, s, r, op);
    case RemoveCard(card) => RemoveCardIsRedone(cfg, s, r, card);
    case VoidAll => VoidAllCoreStep(cfg, s, r);
  }

  lemma {:induction false} CoreRunMirrors(cfg: Scheme, s: CartState, r: Core, ops: seq<Op>)
    requires CoreInv(cfg, s.core) && TracedRun(cfg, ops) && Mirrors(s.core, r)
    ensures CoreInv(cfg, Run(s, ops).core)
    ensures Mirrors(Run(s, ops).core, CoreReplay(cfg, r, Log(s, ops)))
    decreases |ops|
  {
    if ops != [] {
      var s', rows := Apply(s, ops[0]), Rows(s.core, ops[0]);
      CoreStep(cfg, s, r, ops[0]);
      CoreInvStep(cfg, s, ops[0]);
      CoreRunMirrors(cfg, s', CoreReplay(cfg, r, rows), ops[1..]);
      CoreReplayConcat(cfg, r, rows, Log(s', ops[1..]));
    }
  }

  lemma CutInFirst(cfg: Scheme, s: CartState, r: Core, op: Op, cut: seq<LogRow>)
    requires Mirrors(s.core, r) && CoreRedone(cfg, s, r, op) && cut <= Rows(s.core, op) && |cut| < |Rows(s.core, op)|
    ensures Mirrors(s.core, CoreReplay(cfg, r, cut))
  {
    if cut != [] {
      assert cut == [Rows(s.core, op)[0]];
      ReplayOfOne(cfg, r, cut[0]);
    }
  }

  /** The first rows of the file mirror the cart after its first operations. */
  lemma {:induction false} CoreCut(cfg: Scheme, s: CartState, r: Core, ops: seq<Op>,
                                   cut: seq<LogRow>) returns (done: seq<Op>)
    requires CoreInv(cfg, s.core) && TracedRun(cfg, ops) && Mirrors(s.core, r) && cut <= Log(s, ops)
    ensures done <= ops && Mirrors(Run(s, done).core, CoreReplay(cfg, r, cut))
    decreases |ops|
  {
    if ops == [] {
      done := [];
    } else {
      var op, rows := ops[0], Rows(s.core, ops[0]);
      CoreStep(cfg, s, r, op);
      if |cut| < |rows| {
        CutInFirst(cfg, s, r, op, cut);
        done := [];
      } else {
        var rest := cut[|rows|..];
        CoreInvStep(cfg, s, op);
        var done' := CoreCut(cfg, Apply(s, op), CoreReplay(cfg, r, rows), ops[1..], rest);
        FirstDone(cfg, s, op, done');
        CoreReplayConcat(cfg, r, rows, rest);
        assert cut == rows + rest;
        done := [op] + done';
      }
    }
  }

  lemma MirrorRecovers(cfg: Scheme, items: map<nat, Item>, log: seq<LogRow>, live: Core)
    requires Mirrors(live, CoreReplay(cfg, LOADING, log))
    ensures SameCart(live, Recover(cfg, items, log).core)
  {
    ReplayIsCoreReplay(cfg, items, Empty(Loading), log);
    FinishedIsSame(Replay(cfg, items, Empty(Loading), log), live);
  }

  /**
   Counts, cards, private copy and phase are recovered for every run, from every prefix of its file and under any
   catalogue whatever, as those of the live cart after some prefix of its operations.
   */
  lemma CoreIsRecovered(cfg: Scheme, items: map<nat, Item>, ops: seq<Op>, k: nat)
    requires TracedRun(cfg, ops) && k <= |Log(Empty(Ready), ops)|
    ensures exists j :: 0 <= j <= |ops| &&
              SameCart(Run(Empty(Ready), ops[..j]).core, Recover(cfg, items, Log(Empty(Ready), ops)[..k]).core)
  {
    var done := CoreCut(cfg, Empty(Ready), LOADING, ops, Log(Empty(Ready), ops)[..k]);
    assert done == ops[..|done|];
    MirrorRecovers(cfg, items, Log(Empty(Ready), ops)[..k], Run(Empty(Ready), done).core);
  }

  // ----- lives

  /** A linked barcode, known or not, leads where decoding it leads. */
  predicate LinkAgrees(cfg: Config, linked: nat) {
    Owner(cfg.barcodes, linked) == LinkedCode(cfg, linked)
  }

  predicate LinksAgree(cfg: Config, items: map<nat, Item>) {
    forall k :: k in items && items[k].linkedBarcode > 0 ==> LinkAgrees(cfg, items[k].linkedBarcode)
  }

  predicate LinksAlwaysAgree(cfg: Config, events: seq<Event>) {
    forall i :: 0 <= i < |events| && events[i].Crash? ==> LinksAgree(cfg, events[i].items)
  }

  lemma UnknownLinkAgrees(cfg: Config, linked: nat)
    requires linked > 0 && linked !in cfg.barcodes && KindOf(linked) != Ean13PriceReq
    ensures LinkAgrees(cfg, linked)
  {
  }

  lemma TracedConcat(sch: Scheme, a: seq<Op>, b: seq<Op>)
    requires TracedRun(sch, a) && TracedRun(sch, b)
    ensures TracedRun(sch, a + b)
  {
  }

  lemma FreezeAddIsTraced(cfg: Config, sch: Scheme, item: Item, add: Op)
    requires sch == SchemeOf(cfg) && add.Add? && Traced(sch, add)
    ensures TracedRun(sch, FreezeOps(cfg, item) + [add])
  {
    assert sch.priceChanges == cfg.priceChanges;
  }

  lemma LinkedAddIsTraced(cfg: Config, sch: Scheme, items: map<nat, Item>, linked: nat)
    requires sch == SchemeOf(cfg) && LinkAgrees(cfg, linked)
    ensures TracedRun(sch, LinkedAddOps(cfg, items, linked))
  {
    var code := LinkedCode(cfg, linked);
    var item := ItemAt(items, code);
    assert sch.owner(linked) == code;
    FreezeAddIsTraced(cfg, sch, item, Add(code, item.department, linked, 1, item.price, 0));
  }

  lemma MainAddIsTraced(cfg: Config, sch: Scheme, c: Core, item: Item, code: nat, barcode: nat, discount: int)
    requires sch == SchemeOf(cfg) && code == Owner(cfg.barcodes, barcode)
    ensures TracedRun(sch, MainAddOps(cfg, c, item, code, barcode, discount))
  {
    var ops := MainAddOps(cfg, c, item, code, barcode, discount);
    assert sch.owner(barcode) == code;
    FreezeAddIsTraced(cfg, sch, item, ops[|ops| - 1]);
  }

  lemma AddIsTraced(cfg: Config, sch: Scheme, items: map<nat, Item>, c: Core, barcode: nat, discount: int)
    requires sch == SchemeOf(cfg) && LinksAgree(cfg, items)
    ensures TracedRun(sch, AddOps(cfg, items, c, barcode, discount))
  {
    var d := Decode(cfg.barcodes, barcode);
    if d.kind != NotRecognized && d.code != 0 {
      var item := ItemAt(items, d.code);
      MainAddIsTraced(cfg, sch, c, item, d.code, barcode, discount);
      if item.linkedBarcode > 0 {
        LinkedAddIsTraced(cfg, sch, items, item.linkedBarcode);
        TracedConcat(sch, MainAddOps(cfg, c, item, d.code, barcode, discount),
            LinkedAddOps(cfg, items, item.linkedBarcode));
      }
    }
  }

  lemma VoidIsTraced(cfg: Config, sch: Scheme, items: map<nat, Item>, c: Core, barcode: nat)
    requires sch == SchemeOf(cfg) && LinksAgree(cfg, items)
    ensures TracedRun(sch, VoidOps(cfg, items, c, barcode))
  {
    var code := Owner(cfg.barcodes, barcode);
    var item := ItemAt(items, code);
    assert sch.owner(barcode) == code;
    if item.code == code && item.linkedBarcode > 0 {
      assert LinkAgrees(cfg, item.linkedBarcode);
      assert sch.owner(item.linkedBarcode) == LinkedCode(cfg, item.linkedBarcode);
    }
  }

  lemma EventIsTraced(cfg: Config, items: map<nat, Item>, c: Core, e: Event)
    requires LinksAgree(cfg, items)
    ensures TracedRun(SchemeOf(cfg), EventOps(cfg, items, c, e))
  {
    match e
    case AddItem(barcode, discount) => AddIsTraced(cfg, SchemeOf(cfg), items, c, barcode, discount);
    case VoidItem(barcode) => VoidIsTraced(cfg, SchemeOf(cfg), items, c, barcode);
    case _ =>
  }

  /** The file tells the cart's counts, cards, copy and phase. */
  predicate CoreTold(sch: Scheme, c: Core, log: seq<LogRow>) {
    CoreInv(sch, c) && Mirrors(c, CoreReplay(sch, LOADING, log))
  }

  lemma {:induction false} ReplayKeepsCoreInv(sch: Scheme, c: Core, log: seq<LogRow>)
    requires CoreInv(sch, c)
    ensures CoreInv(sch, CoreReplay(sch, c, log))
    decreases |log|
  {
    if log != [] {
      match log[0] {
        case CardAddRow(card) => AddKeepsSlots(c, card, sch.cardLimit);
        case CardVoidRow(card) => RemoveKeepsSlots(c, card, sch.cardLimit);
        case _ =>
      }
      ReplayKeepsCoreInv(sch, CoreRow(sch, c, log[0]), log[1..]);
    }
  }

  lemma RecoveredIsTold(sch: Scheme, items: map<nat, Item>, log: seq<LogRow>)
    ensures CoreTold(sch, Recover(sch, items, log).core, log)
  {
    ReplayPhase(sch, LOADING, log);
    ReplayIsCoreReplay(sch, items, Empty(Loading), log);
    ReplayKeepsCoreInv(sch, LOADING, log);
  }

  lemma ToldStep(cfg: Config, w: World, e: Event)
    requires CoreTold(SchemeOf(cfg), w.cart.core, w.log) && LinksAgree(cfg, w.items)
    requires e.Crash? ==> LinksAgree(cfg, e.items)
    ensures CoreTold(SchemeOf(cfg), Step(cfg, w, e).cart.core, Step(cfg, w, e).log) &&
            LinksAgree(cfg, Step(cfg, w, e).items)
  {
    var sch := SchemeOf(cfg);
    match e
    case UpdateItem(_, _, _, _) =>
    case Crash(keep, items) => RecoveredIsTold(sch, items, if keep <= |w.log| then w.log[..keep] else w.log);
    case _ =>
      var ops, r := EventOps(cfg, w.items, w.cart.core, e), CoreReplay(sch, LOADING, w.log);
      EventIsTraced(cfg, w.items, w.cart.core, e);
      CoreRunMirrors(sch, w.cart, r, ops);
      CoreReplayConcat(sch, LOADING, w.log, Log(w.cart, ops));
  }

  lemma {:induction false} ToldOverLife(cfg: Config, w: World, events: seq<Event>)
    requires CoreTold(SchemeOf(cfg), w.cart.core, w.log) && LinksAgree(cfg, w.items) && LinksAlwaysAgree(cfg, events)
    ensures CoreTold(SchemeOf(cfg), Live(cfg, w, events).cart.core, Live(cfg, w, events).log)
    decreases |events|
  {
    if events != [] {
      ToldStep(cfg, w, events[0]);
      ToldOverLife(cfg, Step(cfg, w, events[0]), events[1..]);
    }
  }

  /**
   After any life, whatever the departments and even where items or links are missing from the archives, a restart
   under any catalogue whatever rebuilds the cart's counts, cards, private copy and phase.
   */
  lemma AnyLifeKeepsItsCounts(cfg: Config, items: map<nat, Item>, events: seq<Event>, later: map<nat, Item>)
    requires LinksAgree(cfg, items) && LinksAlwaysAgree(cfg, events)
    ensures var w := Live(cfg, Opened(items), events);
            SameCart(w.cart.core, Recover(SchemeOf(cfg), later, w.log).core)
  {
    OpenedIsTold(cfg, items);
    ToldOverLife(cfg, Opened(items), events);
    var w := Live(cfg, Opened(items), events);
    MirrorRecovers(SchemeOf(cfg), later, w.log, w.cart.core);
  }

  // ----- restarts that lose nothing leave no trace

  lemma {:induction false} RestartsLeaveNoTrace(cfg: Config, w: World, u: World, events: seq<Event>)
    requires CoreTold(SchemeOf(cfg), w.cart.core, w.log) && CoreTold(SchemeOf(cfg), u.cart.core, u.log)
    requires LinksAgree(cfg, w.items) && Lossless(cfg, w, events) && SameCatalogue(cfg, w, events)
    requires w.log == u.log && w.items == u.items
    ensures var w', u' := Live(cfg, w, events), Live(cfg, u, Uninterrupted(events));
            && w'.log == u'.log
            && CoreTold(SchemeOf(cfg), w'.cart.core, w'.log) && CoreTold(SchemeOf(cfg), u'.cart.core, u'.log)
    decreases |events|
  {
    if events != [] {
      var e, w' := events[0], Step(cfg, w, events[0]);
      ToldStep(cfg, w, e);
      if e.Crash? {
        assert w'.log == w.log;
        RestartsLeaveNoTrace(cfg, w', u, events[1..]);
      } else {
        ToldStep(cfg, u, e);
        SameFileSameStep(cfg, w, u, e);
        RestartsLeaveNoTrace(cfg, w', Step(cfg, u, e), events[1..]);
        assert ([e] + Uninterrupted(events[1..]))[1..] == Uninterrupted(events[1..]);
      }
    }
  }

  lemma OpenedIsTold(cfg: Config, items: map<nat, Item>)
    ensures CoreTold(SchemeOf(cfg), Opened(items).cart.core, Opened(items).log)
  {
    assert CoreReplay(SchemeOf(cfg), LOADING, []) == LOADING;
  }

  /**
   With missing items, unknown links and department 0 allowed, crashing and recovering without loss still ends with
   the same file, counts, cards and phase as never crashing.
   */
  lemma CountsCompose(cfg: Config, items: map<nat, Item>, events: seq<Event>)
    requires LinksAgree(cfg, items) && Lossless(cfg, Opened(items), events) && SameCatalogue(cfg, Opened(items), events)
    ensures var w, u := Live(cfg, Opened(items), events), Live(cfg, Opened(items), Uninterrupted(events));
            && w.log == u.log
            && w.cart.core.(frozen := map[]) == u.cart.core.(frozen := map[])
            && (w.cart.core.phase == Ready ==> w.cart.core == u.cart.core)
  {
    OpenedIsTold(cfg, items);
    RestartsLeaveNoTrace(cfg, Opened(items), Opened(items), events);
  }

  // ----- links that lead elsewhere

  /** The live cart adds one item under the barcode, the file another. */
  lemma AddUnderOther(sch: Scheme, s: CartState, r: Core, add: Op)
    requires add.Add? && add.quantity == 1 && s.core.phase == Ready && Mirrors(s.core, r)
    ensures var live, replayed := Apply(s, add).core, CoreReplay(sch, r, Rows(s.core, add));
            live.phase == Ready && (live.rows == replayed.rows <==> add.code == sch.owner(add.barcode))
  {
    var other := sch.owner(add.barcode);
    ReplayOfOne(sch, r, AddRow(add.barcode, 1));
    if add.code != other {
      assert Get(Apply(s, add).core.rows, other) != Get(AddCore(r, other, add.barcode, 1).rows, other);
    }
  }

  lemma LinkedAddUnderOther(cfg: Config, sch: Scheme, items: map<nat, Item>, s: CartState, r: Core, linked: nat)
    requires sch == SchemeOf(cfg) && s.core.phase == Ready && Mirrors(s.core, r)
    ensures var ops := LinkedAddOps(cfg, items, linked);
            var live, replayed := Run(s, ops).core, CoreReplay(sch, r, Log(s, ops));
            live.phase == Ready && (live.rows == replayed.rows <==> LinkAgrees(cfg, linked))
  {
    var code := LinkedCode(cfg, linked);
    var item := ItemAt(items, code);
    var freeze, add := FreezeOps(cfg, item), Add(code, item.department, linked, 1, item.price, 0);
    var s1, r1 := Run(s, freeze), CoreReplay(sch, r, Log(s, freeze));
    RunConcat(s, freeze, [add]);
    CoreReplayConcat(sch, r, Log(s, freeze), Log(s1, [add]));
    assert sch.owner(linked) == Owner(cfg.barcodes, linked) && sch.priceChanges == cfg.priceChanges;
    FreezeRunMirrors(cfg, sch, s, r, item);
    assert [add][1..] == [];
    assert Log(s1, [add]) == Rows(s1.core, add);
    AddUnderOther(sch, s1, r1, add);
  }

  lemma FreezeRunMirrors(cfg: Config, sch: Scheme, s: CartState, r: Core, item: Item)
    requires sch.priceChanges == cfg.priceChanges && s.core.phase == Ready && Mirrors(s.core, r)
    ensures var ops := FreezeOps(cfg, item);
            Run(s, ops).core.phase == Ready && Mirrors(Run(s, ops).core, CoreReplay(sch, r, Log(s, ops)))
  {
    var ops := FreezeOps(cfg, item);
    if ops != [] {
      assert ops[1..] == [];
      FreezeIsRedone(sch, s, r, item, ops[0].department);
      assert Log(s, ops) == Rows(s.core, ops[0]);
    }
  }

  lemma LinkedSaleAfterMain(cfg: Config, sch: Scheme, items: map<nat, Item>, s: CartState, r: Core,
                            main: seq<Op>, linked: nat)
    requires sch == SchemeOf(cfg) && CoreInv(sch, s.core) && Mirrors(s.core, r)
    requires TracedRun(sch, main) && Run(s, main).core.phase == Ready
    ensures var ops := main + LinkedAddOps(cfg, items, linked);
            Run(s, ops).core.rows == CoreReplay(sch, r, Log(s, ops)).rows <==> LinkAgrees(cfg, linked)
  {
    var second := LinkedAddOps(cfg, items, linked);
    CoreRunMirrors(sch, s, r, main);
    RunConcat(s, main, second);
    CoreReplayConcat(sch, r, Log(s, main), Log(Run(s, main), second));
    LinkedAddUnderOther(cfg, sch, items, Run(s, main), CoreReplay(sch, r, Log(s, main)), linked);
  }

  lemma SaleRecovers(cfg: Config, w: World, sale: Event, ops: seq<Op>, later: map<nat, Item>)
    requires sale.AddItem? && ops == EventOps(cfg, w.items, w.cart.core, sale)
    ensures var sch, w' := SchemeOf(cfg), Step(cfg, w, sale);
            && w'.cart == Run(w.cart, ops)
            && Recover(sch, later, w'.log).core.rows ==
               CoreReplay(sch, CoreReplay(sch, LOADING, w.log), Log(w.cart, ops)).rows
  {
    var sch, w' := SchemeOf(cfg), Step(cfg, w, sale);
    ReplayIsCoreReplay(sch, later, Empty(Loading), w'.log);
    CoreReplayConcat(sch, LOADING, w.log, Log(w.cart, ops));
  }

  /**
   Wherever the file still tells the cart, the sale of an item with a link is recovered exactly when the link leads
   where decoding it leads: otherwise the file's row brings back another item than was sold.
   */
  lemma SaleIsRecoveredIff(cfg: Config, w: World, barcode: nat, discount: int, later: map<nat, Item>)
    requires CoreTold(SchemeOf(cfg), w.cart.core, w.log) && w.cart.core.phase == Ready
    requires KindOf(barcode) != NotRecognized && Owner(cfg.barcodes, barcode) != 0
    requires ItemAt(w.items, Owner(cfg.barcodes, barcode)).linkedBarcode > 0
    ensures var w' := Step(cfg, w, AddItem(barcode, discount));
            var linked := ItemAt(w.items, Owner(cfg.barcodes, barcode)).linkedBarcode;
            w'.cart.core.rows == Recover(SchemeOf(cfg), later, w'.log).core.rows <==> LinkAgrees(cfg, linked)
  {
    var sch, s, code := SchemeOf(cfg), w.cart, Owner(cfg.barcodes, barcode);
    var item := ItemAt(w.items, code);
    var main := MainAddOps(cfg, s.core, item, code, barcode, discount);
    MainAddIsTraced(cfg, sch, s.core, item, code, barcode, discount);
    SaleStaysReady(cfg, s, item, main[|main| - 1]);
    LinkedSaleAfterMain(cfg, sch, w.items, s, CoreReplay(sch, LOADING, w.log), main, item.linkedBarcode);
    SaleRecovers(cfg, w, AddItem(barcode, discount), main + LinkedAddOps(cfg, w.items, item.linkedBarcode), later);
  }

  lemma SaleStaysReady(cfg: Config, s: CartState, item: Item, add: Op)
    requires s.core.phase == Ready && add.Add?
    ensures Run(s, FreezeOps(cfg, item) + [add]).core.phase == Ready
  {
    var freeze := FreezeOps(cfg, item);
    RunConcat(s, freeze, [add]);
    assert [add][1..] == [];
    if freeze != [] {
      assert freeze[1..] == [];
    }
  }
}
