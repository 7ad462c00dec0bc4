/**
 Sessions of web actions that show where the code falls short, for every catalogue that allows them, and a
 small shop that does.
 */
module Witnesses {
  import opened Catalogue
  import opened Barcode
  import opened CartModel
  import opened CartLaws
  import opened PosExport
  import opened Recovery
  import opened SalesActions
  import opened Restarts
  import opened CountSafety

  /** The barcode sells the item. */
  predicate Sells(cfg: Config, items: map<nat, Item>, barcode: nat, item: Item) {
    && KindOf(barcode) != NotRecognized
    && Owner(cfg.barcodes, barcode) == item.code != 0
    && ItemAt(items, item.code) == item
  }

  lemma OneEvent(cfg: Config, w: World, e: Event)
    ensures Live(cfg, w, [e]) == Step(cfg, w, e)
  {
    assert [e][1..] == [];
  }

  lemma SaleOps(cfg: Config, items: map<nat, Item>, c: Core, barcode: nat, item: Item)
    requires Sells(cfg, items, barcode, item)
    ensures AddOps(cfg, items, c, barcode, 0) == BothAddOps(cfg, items, c, item, item.code, barcode, 0)
    ensures AddChange(cfg, items, c, barcode) == LinkedOffPrice(cfg, items, c, item.code)
  {
  }

  // ----- a linked item whose price changes while the cart is filled

  /** A sale of the linked item copies it at the price of the moment. */
  lemma LinkIsCopied(cfg: Config, items: map<nat, Item>, s: CartState, linked: nat)
    requires CatalogueOk(cfg, items) && LinkOk(cfg, linked) && !cfg.priceChanges && Accepting(s.core)
    requires LinkedCode(cfg, linked) in s.core.frozen ==>
               s.core.frozen[LinkedCode(cfg, linked)] == ItemAt(items, LinkedCode(cfg, linked))
    ensures var c, code := Run(s, LinkedAddOps(cfg, items, linked)).core, LinkedCode(cfg, linked);
            Accepting(c) && code in c.frozen && c.frozen[code] == ItemAt(items, code)
  {
    var sch, code := SchemeOf(cfg), LinkedCode(cfg, linked);
    var bag := ItemAt(items, code);
    assert sch.owner(linked) == code;
    FreezeThenAdd(cfg, sch, s, bag, Add(code, bag.department, linked, 1, bag.price, 0));
  }

  /** The first sale of an item copies its linked item at the price of the moment. */
  lemma SaleCopiesLinkedItem(cfg: Config, items: map<nat, Item>, barcode: nat, item: Item)
    requires CatalogueOk(cfg, items) && Sells(cfg, items, barcode, item) && !cfg.priceChanges
    requires item.linkedBarcode > 0 && LinkedCode(cfg, item.linkedBarcode) != item.code
    ensures var c, code := Step(cfg, Opened(items), AddItem(barcode, 0)).cart.core, LinkedCode(cfg, item.linkedBarcode);
            Accepting(c) && code in c.frozen && c.frozen[code] == ItemAt(items, code)
  {
    var s, linked := Empty(Ready), item.linkedBarcode;
    var main, second := MainAddOps(cfg, s.core, item, item.code, barcode, 0), LinkedAddOps(cfg, items, linked);
    SaleOps(cfg, items, s.core, barcode, item);
    assert SchemeOf(cfg).owner(barcode) == item.code;
    MainAddIsSound(cfg, SchemeOf(cfg), s, item, barcode, 0);
    assert LinkOk(cfg, linked);
    LinkIsCopied(cfg, items, Run(s, main), linked);
    RunConcat(s, main, second);
  }

  lemma FirstChange(cfg: Config, w: World, sum: int, e: Event, rest: seq<Event>)
    ensures ChangesSinceRestart(cfg, w, sum, [e] + rest) ==
            ChangesSinceRestart(cfg, Step(cfg, w, e), ChangesAfter(cfg, w, sum, e), rest)
  {
    assert ([e] + rest)[1..] == rest;
  }

  lemma ThreeChanges(cfg: Config, w: World, w1: World, w2: World, a: Event, b: Event, c: Event)
    requires w1 == Step(cfg, w, a) && w2 == Step(cfg, w1, b)
    ensures var x := ChangesAfter(cfg, w, 0, a);
            ChangesSinceRestart(cfg, w, 0, [a, b, c]) == ChangesAfter(cfg, w2, ChangesAfter(cfg, w1, x, b), c)
  {
    var x := ChangesAfter(cfg, w, 0, a);
    var y := ChangesAfter(cfg, w1, x, b);
    assert [a, b, c] == [a] + ([b] + ([c] + []));
    FirstChange(cfg, w, 0, a, [b] + ([c] + []));
    FirstChange(cfg, w1, x, b, [c] + []);
    FirstChange(cfg, w2, y, c, []);
  }

  /** With the linked item copied at one price and sold at another, the sale is off by the difference. */
  lemma ChangedLinkIsOff(cfg: Config, items: map<nat, Item>, c: Core, barcode: nat, item: Item)
    requires Sells(cfg, items, barcode, item) && Accepting(c) && item.linkedBarcode > 0
    requires KindOf(item.linkedBarcode) != Ean13PriceReq
    ensures var other := ItemAt(items, LinkedCode(cfg, item.linkedBarcode));
            LinkedChange(cfg, items, c, AddItem(barcode, 0)) ==
            if other.code in c.frozen then other.price - c.frozen[other.code].price else 0
  {
    SaleOps(cfg, items, c, barcode, item);
    assert SchemeOf(cfg).embedded(item.linkedBarcode).None?;
  }

  /**
   An item is sold, its linked item's price changes, and it is sold again: the second sale charges the linked
   item the new price, and the restarted cart both times the old one.
   */
  lemma LinkedPriceChangeIsNotRecovered(cfg: Config, items: map<nat, Item>, barcode: nat, item: Item,
                                        description: string, department: nat, price: int, later: map<nat, Item>)
    requires CatalogueOk(cfg, items) && Sells(cfg, items, barcode, item) && !cfg.priceChanges && department != 0
    requires item.linkedBarcode > 0 && KindOf(item.linkedBarcode) != Ean13PriceReq
    requires LinkedCode(cfg, item.linkedBarcode) != item.code && Complete(SchemeOf(cfg), later)
    ensures var code := LinkedCode(cfg, item.linkedBarcode);
            var sale, update := AddItem(barcode, 0), UpdateItem(code, description, department, price);
            var w := Live(cfg, Opened(items), [sale, update, sale]);
            Gross(w.cart) - Gross(Recover(SchemeOf(cfg), later, w.log)) == price - ItemAt(items, code).price
  {
    var code := LinkedCode(cfg, item.linkedBarcode);
    var sale, update := AddItem(barcode, 0), UpdateItem(code, description, department, price);
    var events, w0 := [sale, update, sale], Opened(items);
    assert LinkOk(cfg, item.linkedBarcode);
    var w1 := Step(cfg, w0, sale);
    var w2 := Step(cfg, w1, update);
    SaleCopiesLinkedItem(cfg, items, barcode, item);
    ChangedLinkIsOff(cfg, items, w0.cart.core, barcode, item);
    assert SchemeOf(cfg).owner(item.linkedBarcode) == code;
    assert ItemAt(items, code).code == code;
    assert ItemAt(w2.items, code).code == code && ItemAt(w2.items, code).price == price;
    ChangedLinkIsOff(cfg, w2.items, w2.cart.core, barcode, item);
    ThreeChanges(cfg, w0, w1, w2, sale, update, sale);
    RecoveredMoneyIsRightIff(cfg, items, events, later);
  }

  // ----- a discount

  lemma DiscountStands(cfg: Config, items: map<nat, Item>, barcode: nat, item: Item, discount: int)
    requires CatalogueOk(cfg, items) && Sells(cfg, items, barcode, item) && item.linkedBarcode == 0
    ensures TotalOf(Step(cfg, Opened(items), AddItem(barcode, discount)).cart.totals, 0).discount == discount
  {
    var s, sch := Empty(Ready), SchemeOf(cfg);
    var ops := MainAddOps(cfg, s.core, item, item.code, barcode, discount);
    var add := ops[|ops| - 1];
    assert sch.owner(barcode) == item.code;
    FreezeThenAdd(cfg, sch, s, item, add);
    ChargeBothAt(s.totals, item.department, Totals(1, (add.price - discount) * 1, discount * 1));
    assert AddOps(cfg, items, s.core, barcode, discount) == ops + [] == ops;
  }

  lemma OneChange(cfg: Config, items: map<nat, Item>, barcode: nat, item: Item, discount: int)
    requires Sells(cfg, items, barcode, item) && item.linkedBarcode == 0
    ensures ChangesSinceRestart(cfg, Opened(items), 0, [AddItem(barcode, discount)]) == 0
  {
    var sale, w := AddItem(barcode, discount), Opened(items);
    assert [sale] == [sale] + [];
    FirstChange(cfg, w, 0, sale, []);
    SaleOps(cfg, items, w.cart.core, barcode, item);
    assert ChangesAfter(cfg, w, 0, sale) == 0;
  }

  /** The restarted cart charges the discount back. */
  lemma DiscountIsNotRecovered(cfg: Config, items: map<nat, Item>, barcode: nat, item: Item, discount: int,
                               later: map<nat, Item>)
    requires CatalogueOk(cfg, items) && Sells(cfg, items, barcode, item) && item.linkedBarcode == 0
    requires !cfg.priceChanges && Complete(SchemeOf(cfg), later)
    ensures var w := Live(cfg, Opened(items), [AddItem(barcode, discount)]);
            TotalOf(Recover(SchemeOf(cfg), later, w.log).totals, 0).amount ==
                TotalOf(w.cart.totals, 0).amount + discount
  {
    OneEvent(cfg, Opened(items), AddItem(barcode, discount));
    DiscountStands(cfg, items, barcode, item, discount);
    OneChange(cfg, items, barcode, item, discount);
    RecoveredMoneyIsRightIff(cfg, items, [AddItem(barcode, discount)], later);
  }

  // ----- a void through the item's other barcode

  lemma SaleAlone(cfg: Config, items: map<nat, Item>, barcode: nat, item: Item)
    requires CatalogueOk(cfg, items) && Sells(cfg, items, barcode, item) && item.linkedBarcode == 0
    ensures var c := Step(cfg, Opened(items), AddItem(barcode, 0)).cart.core;
            c.phase == Ready && c.rows == map[item.code := 1] && c.barcodes == map[barcode := 1] && c.itemsNumber == 1
  {
    var s := Empty(Ready);
    var ops := MainAddOps(cfg, s.core, item, item.code, barcode, 0);
    SaleOps(cfg, items, s.core, barcode, item);
    assert SchemeOf(cfg).owner(barcode) == item.code;
    MainAddIsSound(cfg, SchemeOf(cfg), s, item, barcode, 0);
    assert ops + [] == ops;
  }

  /**
   An item sold by one of its barcodes and voided by another leaves an empty cart whose file for the till still
   has the piece: the header counts none, and there is one detail row.
   */
  lemma VoidByOtherBarcode(cfg: Config, items: map<nat, Item>, barcode: nat, other: nat, item: Item, out: seq<nat>)
    requires CatalogueOk(cfg, items) && Sells(cfg, items, barcode, item) && item.linkedBarcode == 0
    requires other != barcode && Owner(cfg.barcodes, other) == item.code
    requires Exports(Live(cfg, Opened(items), [AddItem(barcode, 0), VoidItem(other)]).cart.core.barcodes, out)
    ensures var c := Live(cfg, Opened(items), [AddItem(barcode, 0), VoidItem(other)]).cart.core;
            c.phase == Ready && c.rows == map[] && c.itemsNumber == 0 && c.barcodes == map[barcode := 1]
    ensures out == [barcode]
  {
    var w1 := Step(cfg, Opened(items), AddItem(barcode, 0));
    SaleAlone(cfg, items, barcode, item);
    assert [AddItem(barcode, 0), VoidItem(other)][1..] == [VoidItem(other)];
    OneEvent(cfg, w1, VoidItem(other));
    VoidAlone(cfg, items, w1.cart, other, item);
    assert RemoveCore(w1.cart.core, item.code, other).rows == map[];
    OnePiece(barcode, out);
  }

  lemma VoidAlone(cfg: Config, items: map<nat, Item>, s: CartState, barcode: nat, item: Item)
    requires Owner(cfg.barcodes, barcode) == item.code && ItemAt(items, item.code) == item && item.linkedBarcode == 0
    requires Accepting(s.core) && item.code in s.core.rows
    ensures Run(s, VoidOps(cfg, items, s.core, barcode)).core == RemoveCore(s.core, item.code, barcode)
  {
    var price := PriceOf(s.core.frozen, item, barcode, cfg.priceChanges);
    var remove := Remove(item.code, item.department, barcode, price, 0);
    OneOp(SchemeOf(cfg), s, remove);
    assert VoidOps(cfg, items, s.core, barcode) == [remove] + [] == [remove];
  }

  lemma OnePiece(barcode: nat, out: seq<nat>)
    requires Exports(map[barcode := 1], out)
    ensures out == [barcode]
  {
    var m: map<nat, int> := map[barcode := 1];
    assert multiset(out) == multiset{barcode} by {
      forall b: nat
        ensures multiset(out)[b] == multiset{barcode}[b]
      {
        assert multiset(out)[b] == Pieces(m, b);
      }
    }
    assert |out| == |multiset(out)| == 1;
    assert out == [out[0]];
    assert out[0] in multiset(out);
  }

  // ----- a link that leads elsewhere

  /** A weighed barcode linked with its price: the sale looks it up as it stands, and replay without the price. */
  lemma PricedLinkDisagrees(cfg: Config, linked: nat)
    requires Normalised(linked) != linked && linked !in cfg.barcodes && Owner(cfg.barcodes, linked) != 0
    ensures !LinkAgrees(cfg, linked)
  {
  }

  lemma MislinkedSaleIsNotRecovered(cfg: Config, items: map<nat, Item>, barcode: nat, code: nat, later: map<nat, Item>)
    requires KindOf(barcode) != NotRecognized && Owner(cfg.barcodes, barcode) == code != 0
    requires ItemAt(items, code).linkedBarcode > 0 && !LinkAgrees(cfg, ItemAt(items, code).linkedBarcode)
    ensures var w := Step(cfg, Opened(items), AddItem(barcode, 0));
            w.cart.core.rows != Recover(SchemeOf(cfg), later, w.log).core.rows
  {
    OpenedIsTold(cfg, items);
    SaleIsRecoveredIff(cfg, Opened(items), barcode, 0, later);
  }

  // ----- a link to no barcode

  /** An unknown linked barcode adds the item with no code, whose department 0 is the grand total. */
  lemma UnknownLinkCountsTwice(cfg: Config, items: map<nat, Item>, barcode: nat, item: Item)
    requires Sells(cfg, items, barcode, item) && item.department != 0 && item.linkedBarcode > 0
    requires item.linkedBarcode !in cfg.barcodes && ItemAt(items, 0) == NO_ITEM
    ensures var s := Step(cfg, Opened(items), AddItem(barcode, 0)).cart;
            s.core.itemsNumber == 2 && TotalOf(s.totals, 0).items == 3 && !CountsAgree(s)
  {
    var sch, s, linked := SchemeOf(cfg), Empty(Ready), item.linkedBarcode;
    var main, second := MainAddOps(cfg, s.core, item, item.code, barcode, 0), LinkedAddOps(cfg, items, linked);
    assert sch.owner(barcode) == item.code;
    SaleOps(cfg, items, s.core, barcode, item);
    FreezeThenAdd(cfg, sch, s, item, main[|main| - 1]);
    var s1 := Run(s, main);
    RunConcat(s, main, second);
    UnknownLinkAdds(cfg, items, s1, linked);
  }

  lemma UnknownLinkAdds(cfg: Config, items: map<nat, Item>, s: CartState, linked: nat)
    requires linked !in cfg.barcodes && ItemAt(items, 0) == NO_ITEM
    ensures var ops, s1 := LinkedAddOps(cfg, items, linked), AfterFreeze(cfg, s, NO_ITEM);
            Run(s, ops) == Apply(s1, Add(0, 0, linked, 1, 0, 0))
  {
    var sch, second, add := SchemeOf(cfg), LinkedAddOps(cfg, items, linked), Add(0, 0, linked, 1, 0, 0);
    if cfg.priceChanges {
      assert second == [add];
      OneOp(sch, s, add);
    } else {
      var freeze := second[0];
      assert second == [freeze] + [add];
      RunConcat(s, [freeze], [add]);
      OneOp(sch, s, freeze);
      OneOp(sch, Apply(s, freeze), add);
    }
  }

  // ----- a shop where all of this happens

  const MILK := 10_000_001
  const SAME_MILK := 10_000_002
  const BOTTLE := 10_000_003
  const DEPOSIT := 10_000_009

  const SHOP := Config(map[MILK := BarcodeRow(MILK, 1), SAME_MILK := BarcodeRow(SAME_MILK, 1),
                           BOTTLE := BarcodeRow(BOTTLE, 3), DEPOSIT := BarcodeRow(DEPOSIT, 9)],
                       map[], false, 1, true)

  function Stock(): map<nat, Item> {
    map[1 := Item(1, "milk", 1, 150, 0), 3 := Item(3, "bottle", 1, 100, DEPOSIT), 9 := Item(9, "deposit", 2, 5, 0)]
  }

  lemma ShopOwners()
    ensures forall b: nat {:trigger Owner(SHOP.barcodes, b)} :: Owner(SHOP.barcodes, b) in {0, 1, 3, 9}
  {
  }

  lemma ShopIsOk()
    ensures CatalogueOk(SHOP, Stock())
  {
    ShopOwners();
    KindIsInterval(DEPOSIT);
    var sch := SchemeOf(SHOP);
    forall b: nat | sch.owner(b) != 0
      ensures var item := Lookup(Stock(), sch.owner(b), NO_ITEM); item.code == sch.owner(b) && item.department != 0
    {
      assert sch.owner(b) == Owner(SHOP.barcodes, b);
    }
  }

  lemma ShopSells()
    ensures Sells(SHOP, Stock(), BOTTLE, Stock()[3]) && Sells(SHOP, Stock(), MILK, Stock()[1])
    ensures Owner(SHOP.barcodes, SAME_MILK) == 1 && KindOf(DEPOSIT) != Ean13PriceReq && LinkedCode(SHOP, DEPOSIT) == 9
  {
    KindIsInterval(BOTTLE);
    KindIsInterval(MILK);
    KindIsInterval(SAME_MILK);
    KindIsInterval(DEPOSIT);
  }

  /** The deposit goes from 5 to 7 between two bottles: the recovered total is short of 2. */
  lemma DepositIsNotRecovered()
    ensures var deposit, bottle := UpdateItem(9, "deposit", 2, 7), AddItem(BOTTLE, 0);
            var w := Live(SHOP, Opened(Stock()), [bottle, deposit, bottle]);
            Gross(w.cart) - Gross(Recover(SchemeOf(SHOP), Stock(), w.log)) == 2
  {
    ShopIsOk();
    ShopSells();
    LinkedPriceChangeIsNotRecovered(SHOP, Stock(), BOTTLE, Stock()[3], "deposit", 2, 7, Stock());
  }

  /** Milk at 10 off: the recovered net amount is 10 too high. */
  lemma MilkDiscountIsNotRecovered()
    ensures var w := Live(SHOP, Opened(Stock()), [AddItem(MILK, 10)]);
            TotalOf(Recover(SchemeOf(SHOP), Stock(), w.log).totals, 0).amount == TotalOf(w.cart.totals, 0).amount + 10
  {
    ShopIsOk();
    ShopSells();
    DiscountIsNotRecovered(SHOP, Stock(), MILK, Stock()[1], 10, Stock());
  }

  /** Milk sold by one barcode and voided by the other. */
  lemma MilkIsStillSent(out: seq<nat>)
    requires Exports(Live(SHOP, Opened(Stock()), [AddItem(MILK, 0), VoidItem(SAME_MILK)]).cart.core.barcodes, out)
    ensures Live(SHOP, Opened(Stock()), [AddItem(MILK, 0), VoidItem(SAME_MILK)]).cart.core.itemsNumber == 0
    ensures out == [MILK]
  {
    ShopIsOk();
    ShopSells();
    VoidByOtherBarcode(SHOP, Stock(), MILK, SAME_MILK, Stock()[1], out);
  }

  const CHEESE := 2_000_001_000_000
  const TRAY := 10_000_005

  const DELI := Config(map[CHEESE := BarcodeRow(CHEESE, 4), TRAY := BarcodeRow(TRAY, 5)], map[], false, 1, true)

  /** A tray linked to cheese at a price. */
  function DeliStock(priced: nat): map<nat, Item> {
    map[4 := Item(4, "cheese", 1, 900, 0), 5 := Item(5, "tray", 1, 250, priced)]
  }

  lemma WeighedNormalises(b: nat, n: nat)
    requires 2_000_000_000_000 <= b < 3_000_000_000_000 && n == b / 1_000_000 * 1_000_000
    ensures Normalised(b) == n
  {
    WeighedInterval(b);
    NormalisedIsMultiple(b);
  }

  lemma WeighedOwner(cfg: Config, b: nat, n: nat, code: nat)
    requires Normalised(b) == n && n in cfg.barcodes && cfg.barcodes[n] == BarcodeRow(n, code)
    ensures Owner(cfg.barcodes, b) == code
  {
  }

  lemma TrayIsSold()
    ensures KindOf(TRAY) != NotRecognized && Owner(DELI.barcodes, TRAY) == 5
  {
    KindIsInterval(TRAY);
  }

  lemma CheeseIsMislinked(priced: nat)
    requires CHEESE < priced < CHEESE + 1_000_000
    ensures !LinkAgrees(DELI, priced)
  {
    WeighedNormalises(priced, CHEESE);
    WeighedOwner(DELI, priced, CHEESE, 4);
    PricedLinkDisagrees(DELI, priced);
  }

  /** The tray's sale adds the item with no code, and the restart brings back cheese, whatever its price. */
  lemma CheeseComesBack(priced: nat, later: map<nat, Item>)
    requires CHEESE < priced < CHEESE + 1_000_000
    ensures var w := Step(DELI, Opened(DeliStock(priced)), AddItem(TRAY, 0));
            w.cart.core.rows != Recover(SchemeOf(DELI), later, w.log).core.rows
  {
    CheeseIsMislinked(priced);
    TrayIsSold();
    MislinkedSaleIsNotRecovered(DELI, DeliStock(priced), TRAY, 5, later);
  }
}
