/**
 What a sale and a void do to a cart, told by the barcode's number, the catalogue and the cart as they stand: every
 count, every total and the private copy, without the operations the actions are made of.
 */
module ActionEffects {
  import opened Catalogue
  import opened MapSum
  import opened Barcode
  import opened CartModel
  import opened Recovery
  import opened CrashSafety
  import opened SalesActions
  import opened Restarts

  // ----- items and prices by number

  predicate Weighed(b: nat) {
    2_000_000_000_000 <= b < 3_000_000_000_000
  }

  /** A weighed item's barcode with its last six digits zeroed; any other as it is. */
  function Stored(b: nat): nat {
    if Weighed(b) then b - b % 1_000_000 else b
  }

  /** The item listed for a barcode, or none. */
  function Listed(barcodes: map<nat, BarcodeRow>, b: nat): nat {
    if Stored(b) in barcodes && barcodes[Stored(b)].code == Stored(b) then barcodes[Stored(b)].itemCode else 0
  }

  /** What the catalogue has under a code, an item of no name, department or price where it has nothing. */
  function Stocked(items: map<nat, Item>, code: nat): Item {
    if code in items then items[code] else Item(0, "", 0, 0, 0)
  }

  /** The item a link's barcode is listed for as it stands, or none. */
  function Linked(cfg: Config, linked: nat): nat {
    if linked in cfg.barcodes then cfg.barcodes[linked].itemCode else 0
  }

  /**
   The five digits before a weighed item's last one; else the copied price where prices are frozen; else the
   catalogue's.
   */
  function SalePrice(cfg: Config, frozen: map<nat, Item>, item: Item, b: nat): int {
    if Weighed(b) then b / 10 % 100_000
    else if !cfg.priceChanges && item.code in frozen then frozen[item.code].price
    else item.price
  }

  lemma StoredIsNormalised(b: nat)
    ensures Normalised(b) == Stored(b)
  {
    KindIsInterval(b);
    if Weighed(b) {
      NormalisedIsMultiple(b);
    }
  }

  /** Decoding, told by numbers alone. */
  lemma DecodeIs(barcodes: map<nat, BarcodeRow>, b: nat)
    ensures Decode(barcodes, b) == Decoded(KindByInterval(b), Stored(b), Listed(barcodes, b))
  {
    KindIsInterval(b);
    StoredIsNormalised(b);
  }

  lemma PriceIs(cfg: Config, frozen: map<nat, Item>, item: Item, b: nat)
    ensures PriceOf(frozen, item, b, cfg.priceChanges) == SalePrice(cfg, frozen, item, b)
  {
    KindIsInterval(b);
    if Weighed(b) {
      PriceDigits(b);
    }
  }

  // ----- how totals and counts move

  /** The part of a charge to a department that shows under a key: the grand total's key shows every charge. */
  function Share(dept: nat, key: nat, x: int): int {
    if key == 0 && dept == 0 then 2 * x else if key == 0 || key == dept then x else 0
  }

  /** One total moved by one piece's charge. */
  predicate MovedBy(was: Totals, now: Totals, dept: nat, key: nat, items: int, amount: int, discount: int) {
    && now.items == was.items + Share(dept, key, items)
    && now.amount == was.amount + Share(dept, key, amount)
    && now.discount == was.discount + Share(dept, key, discount)
  }

  lemma ChargeMoves(totals: map<nat, Totals>, dept: nat, t: Totals, key: nat)
    ensures MovedBy(TotalOf(totals, key), TotalOf(ChargeBoth(totals, dept, t), key), dept, key, t.items, t.amount,
            t.discount)
  {
  }

  /** Nothing but the private copy can have changed. */
  predicate CopyOnly(c: Core, d: Core) {
    d == c.(frozen := d.frozen)
  }

  /** One piece of an item more under a barcode. */
  predicate OneMore(c: Core, d: Core, code: nat, barcode: nat) {
    && d.rows == c.rows[code := Get(c.rows, code) + 1]
    && d.barcodes == c.barcodes[barcode := Get(c.barcodes, barcode) + 1]
    && d.itemsNumber == c.itemsNumber + 1
    && d.slots == c.slots && d.cardsNumber == c.cardsNumber && d.phase == c.phase
  }

  /** One piece less where the item is held; counts that reach zero disappear. */
  ghost predicate OneLess(c: Core, d: Core, code: nat, barcode: nat) {
    if code !in c.rows then d == c
    else
      && (forall k :: k != code ==> (k in d.rows <==> k in c.rows) && (k in c.rows ==> d.rows[k] == c.rows[k]))
      && (code in d.rows <==> c.rows[code] > 1) && (code in d.rows ==> d.rows[code] == c.rows[code] - 1)
      && (forall k :: k != barcode ==>
           (k in d.barcodes <==> k in c.barcodes) && (k in c.barcodes ==> d.barcodes[k] == c.barcodes[k]))
      && (barcode in d.barcodes <==> Get(c.barcodes, barcode) > 1)
      && (barcode in d.barcodes ==> d.barcodes[barcode] == c.barcodes[barcode] - 1)
      && d.itemsNumber == c.itemsNumber - 1
      && d.frozen == c.frozen && d.slots == c.slots && d.cardsNumber == c.cardsNumber && d.phase == c.phase
  }

  /** An item is copied as the catalogue has it, unless prices may change or a copy is there. */
  predicate Copied(cfg: Config, was: map<nat, Item>, now: map<nat, Item>, item: Item) {
    now == if cfg.priceChanges || item.code in was then was else was[item.code := item]
  }

  /** A piece sold at a price and a discount. */
  ghost predicate Sold(cfg: Config, s: CartState, t: CartState, item: Item, code: nat, barcode: nat, price: int,
                       discount: int) {
    && OneMore(s.core, t.core, code, barcode)
    && Copied(cfg, s.core.frozen, t.core.frozen, item)
    && forall k: nat :: MovedBy(TotalOf(s.totals, k), TotalOf(t.totals, k), item.department, k, 1, price - discount,
         discount)
  }

  /** A piece taken back at a price, where it is held. */
  ghost predicate TakenBack(s: CartState, t: CartState, item: Item, code: nat, barcode: nat, price: int) {
    && OneLess(s.core, t.core, code, barcode)
    && (code !in s.core.rows ==> t.totals == s.totals)
    && (code in s.core.rows ==>
          forall k: nat :: MovedBy(TotalOf(s.totals, k), TotalOf(t.totals, k), item.department, k, -1, -price, 0))
  }

  // ----- one piece

  lemma FreezeAddSells(cfg: Config, s: CartState, item: Item, code: nat, barcode: nat, price: int, discount: int)
    requires Accepting(s.core)
    ensures Sold(cfg, s, Run(s, FreezeOps(cfg, item) + [Add(code, item.department, barcode, 1, price, discount)]),
                 item, code, barcode, price, discount)
  {
    var freeze, add := FreezeOps(cfg, item), Add(code, item.department, barcode, 1, price, discount);
    var s1 := Run(s, freeze);
    RunConcat(s, freeze, [add]);
    assert [add][1..] == [];
    if freeze != [] {
      assert freeze[1..] == [];
    }
    AddSells(cfg, s, s1, item, code, barcode, price, discount);
  }

  lemma AddSells(cfg: Config, s: CartState, s1: CartState, item: Item, code: nat, barcode: nat, price: int,
                 discount: int)
    requires Accepting(s.core) && s1 == AfterFreeze(cfg, s, item)
    ensures Sold(cfg, s, Apply(s1, Add(code, item.department, barcode, 1, price, discount)), item, code, barcode, price,
            discount)
  {
    var t := Totals(1, (price - discount) * 1, discount * 1);
    forall k: nat
      ensures MovedBy(TotalOf(s.totals, k), TotalOf(ChargeBoth(s.totals, item.department, t), k), item.department, k, 1,
              price - discount, discount)
    {
      ChargeMoves(s.totals, item.department, t, k);
    }
  }

  lemma RemoveTakesBack(s: CartState, item: Item, code: nat, barcode: nat, price: int)
    requires Accepting(s.core)
    ensures TakenBack(s, Apply(s, Remove(code, item.department, barcode, price, 0)), item, code, barcode, price)
  {
    var t := Totals(-1, -(price - 0), -0);
    forall k: nat
      ensures MovedBy(TotalOf(s.totals, k), TotalOf(ChargeBoth(s.totals, item.department, t), k), item.department, k,
              -1, -price, 0)
    {
      ChargeMoves(s.totals, item.department, t, k);
    }
    RemoveIsOneLess(s.core, code, barcode);
  }

  lemma RemoveIsOneLess(c: Core, code: nat, barcode: nat)
    requires Accepting(c)
    ensures OneLess(c, RemoveCore(c, code, barcode), code, barcode)
  {
  }

  // ----- the actions

  /**
   A sale in a cart that takes items: a barcode of no kind, or that names no item, changes nothing; any other sells
   one piece of its item at the sale price less the discount, and then one piece of the linked item at the
   catalogue's price and no discount.
   */
  ghost predicate SaleEffect(cfg: Config, items: map<nat, Item>, s: CartState, t: CartState, barcode: nat,
                             discount: int) {
    var code := Listed(cfg.barcodes, barcode);
    var item := Stocked(items, code);
    var price := SalePrice(cfg, s.core.frozen, item, barcode);
    if KindByInterval(barcode) == NotRecognized || code == 0 then t == s
    else if item.linkedBarcode == 0 then Sold(cfg, s, t, item, code, barcode, price, discount)
    else
      var linked := Stocked(items, Linked(cfg, item.linkedBarcode));
      exists m :: Sold(cfg, s, m, item, code, barcode, price, discount) &&
                  Sold(cfg, m, t, linked, Linked(cfg, item.linkedBarcode), item.linkedBarcode, linked.price, 0)
  }

  lemma CopyKeepsPrice(cfg: Config, c: Core, item: Item, barcode: nat)
    ensures SalePrice(cfg, FrozenAfter(cfg, c, item), item, barcode) == SalePrice(cfg, c.frozen, item, barcode)
  {
  }

  lemma MainAddSells(cfg: Config, s: CartState, item: Item, code: nat, barcode: nat, discount: int)
    requires Accepting(s.core)
    ensures Sold(cfg, s, Run(s, MainAddOps(cfg, s.core, item, code, barcode, discount)), item, code, barcode,
                 SalePrice(cfg, s.core.frozen, item, barcode), discount)
  {
    PriceIs(cfg, FrozenAfter(cfg, s.core, item), item, barcode);
    CopyKeepsPrice(cfg, s.core, item, barcode);
    FreezeAddSells(cfg, s, item, code, barcode, SalePrice(cfg, s.core.frozen, item, barcode), discount);
  }

  lemma AddHasItsEffect(cfg: Config, items: map<nat, Item>, s: CartState, barcode: nat, discount: int)
    requires Accepting(s.core)
    ensures SaleEffect(cfg, items, s, Run(s, AddOps(cfg, items, s.core, barcode, discount)), barcode, discount)
  {
    DecodeIs(cfg.barcodes, barcode);
    var code := Listed(cfg.barcodes, barcode);
    var item := Stocked(items, code);
    if KindByInterval(barcode) != NotRecognized && code != 0 {
      BothAddSells(cfg, items, s, item, code, barcode, discount);
    }
  }

  lemma BothAddSells(cfg: Config, items: map<nat, Item>, s: CartState, item: Item, code: nat, barcode: nat,
                     discount: int)
    requires Accepting(s.core)
    ensures var t := Run(s, BothAddOps(cfg, items, s.core, item, code, barcode, discount));
            var price := SalePrice(cfg, s.core.frozen, item, barcode);
            if item.linkedBarcode == 0 then Sold(cfg, s, t, item, code, barcode, price, discount)
            else
              var linked := Stocked(items, Linked(cfg, item.linkedBarcode));
              exists m :: Sold(cfg, s, m, item, code, barcode, price, discount) &&
                          Sold(cfg, m, t, linked, Linked(cfg, item.linkedBarcode), item.linkedBarcode, linked.price, 0)
  {
    var main := MainAddOps(cfg, s.core, item, code, barcode, discount);
    var m := Run(s, main);
    MainAddSells(cfg, s, item, code, barcode, discount);
    if item.linkedBarcode > 0 {
      var linked := Stocked(items, Linked(cfg, item.linkedBarcode));
      RunConcat(s, main, LinkedAddOps(cfg, items, item.linkedBarcode));
      FreezeAddSells(cfg, m, linked, Linked(cfg, item.linkedBarcode), item.linkedBarcode, linked.price, 0);
    } else {
      assert main + [] == main;
    }
  }

  /**
   A void in such a cart: the barcode's item, where the archive has it, is taken back at the price a sale would
   charge, and then the linked item at the catalogue's price, each only where the cart holds it.
   */
  ghost predicate VoidEffect(cfg: Config, items: map<nat, Item>, s: CartState, t: CartState, barcode: nat) {
    var code := Listed(cfg.barcodes, barcode);
    var item := Stocked(items, code);
    var price := SalePrice(cfg, s.core.frozen, item, barcode);
    if item.code != code then t == s
    else if item.linkedBarcode == 0 then TakenBack(s, t, item, code, barcode, price)
    else
      var linked := Stocked(items, Linked(cfg, item.linkedBarcode));
      exists m :: TakenBack(s, m, item, code, barcode, price) &&
                  TakenBack(m, t, linked, Linked(cfg, item.linkedBarcode), item.linkedBarcode, linked.price)
  }

  lemma VoidHasItsEffect(cfg: Config, items: map<nat, Item>, s: CartState, barcode: nat)
    requires Accepting(s.core)
    ensures VoidEffect(cfg, items, s, Run(s, VoidOps(cfg, items, s.core, barcode)), barcode)
  {
    DecodeIs(cfg.barcodes, barcode);
    var code := Listed(cfg.barcodes, barcode);
    var item := Stocked(items, code);
    PriceIs(cfg, s.core.frozen, item, barcode);
    var price := SalePrice(cfg, s.core.frozen, item, barcode);
    if item.code == code {
      var remove := Remove(code, item.department, barcode, price, 0);
      var m := Apply(s, remove);
      RemoveTakesBack(s, item, code, barcode, price);
      OneOp(SchemeOf(cfg), s, remove);
      if item.linkedBarcode > 0 {
        var linked := Stocked(items, Linked(cfg, item.linkedBarcode));
        var second := Remove(Linked(cfg, item.linkedBarcode), linked.department, item.linkedBarcode, linked.price, 0);
        RemoveTakesBack(m, linked, second.code, item.linkedBarcode, linked.price);
        OneOp(SchemeOf(cfg), m, second);
        RunConcat(s, [remove], [second]);
        assert VoidOps(cfg, items, s.core, barcode) == [remove] + [second];
      } else {
        assert [remove] + [] == [remove];
      }
    }
  }

  // ----- carts that take nothing

  predicate ItemOps(ops: seq<Op>) {
    forall i :: 0 <= i < |ops| ==> ops[i].Freeze? || ops[i].Add? || ops[i].Remove?
  }

  lemma {:induction false} RefusedRun(s: CartState, ops: seq<Op>)
    requires !Accepting(s.core) && ItemOps(ops)
    ensures Run(s, ops).totals == s.totals && CopyOnly(s.core, Run(s, ops).core)
    decreases |ops|
  {
    if ops != [] {
      RefusedRun(Apply(s, ops[0]), ops[1..]);
    }
  }

  /** In a cart that takes no items, a sale or a void moves nothing but, at most, the private copy. */
  lemma RefusedActions(cfg: Config, items: map<nat, Item>, s: CartState, barcode: nat, discount: int)
    requires !Accepting(s.core)
    ensures var t := Run(s, AddOps(cfg, items, s.core, barcode, discount));
            t.totals == s.totals && CopyOnly(s.core, t.core)
    ensures var t := Run(s, VoidOps(cfg, items, s.core, barcode));
            t.totals == s.totals && CopyOnly(s.core, t.core)
  {
    RefusedRun(s, AddOps(cfg, items, s.core, barcode, discount));
    RefusedRun(s, VoidOps(cfg, items, s.core, barcode));
  }

  // ----- the discount that stands

  /** What an event gives off, as the grand total shows it. */
  function Given(cfg: Config, w: World, e: Event): int {
    if e.AddItem? && Accepting(w.cart.core) && KindByInterval(e.barcode) != NotRecognized &&
        Listed(cfg.barcodes, e.barcode) != 0
    then Share(Stocked(w.items, Listed(cfg.barcodes, e.barcode)).department, 0, e.discount)
    else 0
  }

  function GivenSinceRestart(cfg: Config, w: World, sum: int, events: seq<Event>): int
    decreases |events|
  {
    if events == [] then sum
    else
      var e := events[0];
      GivenSinceRestart(cfg, Step(cfg, w, e), if e.Crash? then 0 else sum + Given(cfg, w, e), events[1..])
  }

  lemma AddGives(cfg: Config, w: World, barcode: nat, discount: int)
    ensures var t := Run(w.cart, AddOps(cfg, w.items, w.cart.core, barcode, discount));
            TotalOf(t.totals, 0).discount ==
                TotalOf(w.cart.totals, 0).discount + Given(cfg, w, AddItem(barcode, discount))
  {
    if Accepting(w.cart.core) {
      AddHasItsEffect(cfg, w.items, w.cart, barcode, discount);
    } else {
      RefusedActions(cfg, w.items, w.cart, barcode, discount);
    }
  }

  lemma VoidGivesNothing(cfg: Config, w: World, barcode: nat)
    ensures var t := Run(w.cart, VoidOps(cfg, w.items, w.cart.core, barcode));
            TotalOf(t.totals, 0).discount == TotalOf(w.cart.totals, 0).discount
  {
    if Accepting(w.cart.core) {
      VoidHasItsEffect(cfg, w.items, w.cart, barcode);
    } else {
      RefusedActions(cfg, w.items, w.cart, barcode, 0);
    }
  }

  lemma GivenStep(cfg: Config, w: World, e: Event)
    ensures TotalOf(Step(cfg, w, e).cart.totals, 0).discount ==
            if e.Crash? then 0 else TotalOf(w.cart.totals, 0).discount + Given(cfg, w, e)
  {
    match e
    case AddItem(barcode, discount) => AddGives(cfg, w, barcode, discount);
    case VoidItem(barcode) => VoidGivesNothing(cfg, w, barcode);
    case Crash(keep, items) =>
      ReplayGivesNoDiscount(SchemeOf(cfg), items, Empty(Loading), if keep <= |w.log| then w.log[..keep] else w.log);
    case UpdateItem(_, _, _, _) =>
    case AddLoyalty(card) => OneOp(SchemeOf(cfg), w.cart, AddCard(card, cfg.cardLimit));
    case VoidLoyalty(card) => OneOp(SchemeOf(cfg), w.cart, RemoveCard(card));
    case VoidSession => OneOp(SchemeOf(cfg), w.cart, VoidAll);
  }

  lemma {:induction false} GivenOverLife(cfg: Config, w: World, events: seq<Event>)
    ensures TotalOf(Live(cfg, w, events).cart.totals, 0).discount ==
            GivenSinceRestart(cfg, w, TotalOf(w.cart.totals, 0).discount, events)
    decreases |events|
  {
    if events != [] {
      GivenStep(cfg, w, events[0]);
      GivenOverLife(cfg, Step(cfg, w, events[0]), events[1..]);
    }
  }

  /** After any life, with no hypothesis, the discount that stands is what the sales gave since the last restart. */
  lemma DiscountIsWhatWasGiven(cfg: Config, items: map<nat, Item>, events: seq<Event>)
    ensures TotalOf(Live(cfg, Opened(items), events).cart.totals, 0).discount ==
            GivenSinceRestart(cfg, Opened(items), 0, events)
  {
    GivenOverLife(cfg, Opened(items), events);
  }

  /** So a restart finds the right net amount exactly when the linked changes come to the discounts given. */
  lemma RecoveredNetIsRightIff(cfg: Config, items: map<nat, Item>, events: seq<Event>, later: map<nat, Item>)
    requires CatalogueOk(cfg, items) && Lawful(cfg, events) && Complete(SchemeOf(cfg), later) && !cfg.priceChanges
    ensures var w := Live(cfg, Opened(items), events);
            TotalOf(Recover(SchemeOf(cfg), later, w.log).totals, 0).amount == TotalOf(w.cart.totals, 0).amount <==>
              GivenSinceRestart(cfg, Opened(items), 0, events) == ChangesSinceRestart(cfg, Opened(items), 0, events)
  {
    DiscountIsWhatWasGiven(cfg, items, events);
    RecoveredMoneyIsRightIff(cfg, items, events, later);
  }
}
