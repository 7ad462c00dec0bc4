/**
 The server object: the live carts by session number, the item archive, the loyalty card registry and
 the next session number. Each web action and the start-up load is tied to its step of the store.
 */
module BaseSystemObject {
  import opened Catalogue
  import opened Barcode
  import opened CartModel
  import opened CartObject
  import opened LoyaltySlots
  import opened Recovery
  import opened SalesActions
  import opened Restarts
  import opened ServerStore
  import opened Loading
  import opened ActionEffects

  /** One more operation done. */
  lemma RunSnoc(s: CartState, ops: seq<Op>, op: Op)
    ensures CartModel.Run(s, ops + [op]) == Apply(CartModel.Run(s, ops), op)
    ensures Log(s, ops + [op]) == Log(s, ops) + Rows(CartModel.Run(s, ops).core, op)
  {
    RunConcat(s, ops, [op]);
    assert [op][1..] == [];
  }

  /** The operations lead from one state and transaction file to the other. */
  ghost predicate Ran(s: CartState, log: seq<LogRow>, ops: seq<Op>, s': CartState, log': seq<LogRow>) {
    s' == CartModel.Run(s, ops) && log' == log + Log(s, ops)
  }

  lemma RanOn(s: CartState, log: seq<LogRow>, a: seq<Op>, s1: CartState, log1: seq<LogRow>, b: seq<Op>, s2: CartState,
              log2: seq<LogRow>)
    requires Ran(s, log, a, s1, log1) && Ran(s1, log1, b, s2, log2)
    ensures Ran(s, log, a + b, s2, log2)
  {
    RunConcat(s, a, b);
    Associates(log, Log(s, a), Log(s1, b));
  }

  lemma Associates(a: seq<LogRow>, b: seq<LogRow>, c: seq<LogRow>)
    ensures (a + b) + c == a + (b + c)
  {
  }

  const CART_NOT_FOUND := 20099
  const BCODE_ITEM_NOT_FOUND := 41003
  const BCODE_NOT_RECOGNIZED := 41081

  /** What a cart answers to an item: its state's code, unless it takes items. */
  function CartAnswer(c: Core): int {
    if Accepting(c) then RC_OK else StateCode(c.phase)
  }

  /** The registry's answer to a card, before the cart is asked. */
  function RegistryAnswer(cfg: Config, registry: map<nat, nat>, id: nat, card: nat): (rc: int)
    ensures rc != RC_OK <==> Refused(cfg, registry, id, card)
  {
    if card in registry && registry[card] == id then RC_LOY_CARD_ALREADY_PRESENT
    else if card in registry && cfg.oneSession then RC_LOY_CARD_IN_ANOTHER_TRANSACTION
    else RC_OK
  }

  function AnswerOnCart(cfg: Config, st: Store, id: nat, e: Event): int
    requires id in st.carts
  {
    var c := st.carts[id].state.core;
    match e
    case AddItem(barcode, _) =>
      var d := Decode(cfg.barcodes, barcode);
      if d.kind == NotRecognized then BCODE_NOT_RECOGNIZED
      else if d.code == 0 then BCODE_ITEM_NOT_FOUND
      else CartAnswer(c)
    case VoidItem(barcode) =>
      var code := Decode(cfg.barcodes, barcode).code;
      if ItemAt(st.items, code).code != code then BCODE_ITEM_NOT_FOUND else CartAnswer(c)
    case AddLoyalty(card) =>
      var rc := RegistryAnswer(cfg, st.registry, id, card);
      if rc == RC_OK then AddCardAnswer(c, card, cfg.cardLimit) else rc
    case VoidLoyalty(_) => if Accepting(c) then RC_LOY_CARD_NOT_PRESENT else StateCode(c.phase)
    case VoidSession => if c.phase == Voided || c.phase == Closed then StateCode(c.phase) else RC_OK
    case _ => RC_OK
  }

  /** The status replied to an action, every error being 3 when dummy codes are configured. */
  function Status(cfg: Config, dummyRcs: bool, st: Store, id: nat, e: Event): int {
    var rc := if id in st.carts then AnswerOnCart(cfg, st, id, e) else CART_NOT_FOUND;
    if rc > 0 && dummyRcs then 3 else rc
  }

  /** The registry's two refusals tell whose the card is. */
  lemma RefusalsTellHolder(cfg: Config, registry: map<nat, nat>, id: nat, card: nat)
    ensures var rc := RegistryAnswer(cfg, registry, id, card);
            && (rc == 41091 <==> card in registry && registry[card] == id)
            && (rc == 41092 <==> card in registry && registry[card] != id && cfg.oneSession)
            && (rc == 0 <==> card !in registry || (registry[card] != id && !cfg.oneSession))
  {
  }

  /** A sale answers success exactly when the cart has a piece more, or two with a linked item. */
  lemma SaleStatus(cfg: Config, dummyRcs: bool, st: Store, id: nat, barcode: nat, discount: int)
    requires id in st.carts
    ensures var sale := AddItem(barcode, discount);
            var was, now := st.carts[id].state.core, Act(cfg, st, OnCart(id, sale)).carts[id].state.core;
            && (Status(cfg, dummyRcs, st, id, sale) == 0 <==> now.itemsNumber > was.itemsNumber)
            && (Status(cfg, dummyRcs, st, id, sale) != 0 ==> CopyOnly(was, now))
  {
    var s := st.carts[id].state;
    DecodeIs(cfg.barcodes, barcode);
    if Accepting(s.core) {
      AddHasItsEffect(cfg, st.items, s, barcode, discount);
    } else {
      RefusedActions(cfg, st.items, s, barcode, discount);
    }
  }

  /** A sale or a void that finds no item says so; a cart that takes none answers its state. */
  lemma ItemStatus(cfg: Config, st: Store, id: nat, barcode: nat, discount: int)
    requires id in st.carts
    ensures var c, code := st.carts[id].state.core, Listed(cfg.barcodes, barcode);
            var state := if c.phase == Ready || c.phase == Phase.Loading then 0 else if c.phase == Voided then 20097
                else 20020;
            && Status(cfg, false, st, id, AddItem(barcode, discount)) ==
               (if KindByInterval(barcode) == NotRecognized then 41081 else if code == 0 then 41003 else state)
            && Status(cfg, false, st, id, VoidItem(barcode)) ==
                 (if Stocked(st.items, code).code != code then 41003 else state)
  {
    DecodeIs(cfg.barcodes, barcode);
  }

  /** The answers about cards: the registry's, then the cart's. */
  lemma CardStatus(cfg: Config, st: Store, id: nat, x: nat)
    requires id in st.carts && Accepting(st.carts[id].state.core)
    ensures var c := st.carts[id].state.core;
            && (Status(cfg, false, st, id, AddLoyalty(x)) == 0 <==>
                  (x in st.registry ==> st.registry[x] != id && !cfg.oneSession) &&
                      (Holds(c, x) ==> c.cardsNumber >= cfg.cardLimit))
            && Status(cfg, false, st, id, VoidLoyalty(x)) == 41090
  {
    RefusalsTellHolder(cfg, st.registry, id, x);
  }

  /** Every error is its own code, or 3 for all of them; what the cart answers names its state. */
  lemma StatusCodes(cfg: Config, st: Store, id: nat, e: Event)
    ensures Status(cfg, true, st, id, e) == 0 <==> Status(cfg, false, st, id, e) == 0
    ensures Status(cfg, true, st, id, e) in {0, 3}
    ensures id !in st.carts ==> Status(cfg, false, st, id, e) == 20099
    ensures id in st.carts && st.carts[id].state.core.phase == Voided && (e.VoidLoyalty? || e.VoidSession?) ==>
              Status(cfg, false, st, id, e) == 20097
  {
  }

  class BaseSystem {
    const cfg: Config
    const dummyRcs: bool
    var carts: map<nat, Cart>
    var items: map<nat, Item>
    var allLoyCards: map<nat, nat>
    var nextCartNumber: nat

    ghost predicate Valid()
      reads this
    {
      forall m, n :: m in carts && n in carts && m != n ==> carts[m] != carts[n]
    }

    ghost function View(): Store
      reads this, carts.Values
    {
      Store.Store(map n | n in carts :: CartView(carts[n].State(), carts[n].log), items, allLoyCards, nextCartNumber)
    }

    /** When the cart under one number is new or changed and no other is, so it is in the view. */
    twostate lemma OneCartSet(number: nat, new cart: Cart)
      requires carts == old(carts)[number := cart]
      requires forall n :: n in old(carts) && n != number ==> unchanged(old(carts)[n])
      ensures View().carts == old(View()).carts[number := CartView(cart.State(), cart.log)]
    {
      forall n | n in old(carts) && n != number
        ensures View().carts[n] == old(View()).carts[n]
      {
        assert carts[n] == old(carts)[n] && unchanged(old(carts)[n]);
      }
      assert View().carts.Keys == old(View()).carts.Keys + {number};
      assert View().carts[number] == CartView(cart.State(), cart.log);
    }

    constructor (cfg: Config, dummyRcs: bool, items: map<nat, Item>)
      ensures Valid() && View() == Booted(items) && this.cfg == cfg && this.dummyRcs == dummyRcs
    {
      this.cfg, this.dummyRcs := cfg, dummyRcs;
      this.items := items;
      carts, allLoyCards, nextCartNumber := map[], map[], 1;
      new;
      assert View().carts == map[];
    }

    /** A number already in use keeps the cart it has. */
    method NewCart(loading: bool, file: seq<LogRow>) returns (number: nat)
      requires Valid()
      modifies this
      ensures Valid() && number == old(nextCartNumber)
      ensures nextCartNumber == Successor(old(nextCartNumber)) && items == old(items) && allLoyCards == old(allLoyCards)
      ensures old(nextCartNumber) in old(carts) ==> carts == old(carts)
      ensures old(nextCartNumber) !in old(carts) ==>
                && number in carts && carts == old(carts)[number := carts[number]] && fresh(carts[number])
                && carts[number].State() == Empty(if loading then Phase.Loading else Ready) && carts[number].log == file
    {
      number := nextCartNumber;
      var cart := new Cart(number, loading, file);
      if number !in carts {
        carts := carts[number := cart];
      }
      nextCartNumber := if nextCartNumber == 0xFFFF_FFFF then 0 else nextCartNumber + 1;
    }

    /** Opening a session; a file left under its number would be appended to. */
    method SessionInit(file: seq<LogRow>) returns (number: nat)
      requires Valid()
      modifies this
      ensures Valid() && View() == OpenOver(old(View()), file) && number == old(nextCartNumber)
      ensures file == [] ==> View() == Act(cfg, old(View()), OpenSession)
    {
      number := NewCart(false, file);
      if number !in old(carts) {
        OneCartSet(number, carts[number]);
      } else {
        assert View().carts == old(View()).carts;
      }
    }

    // ----- item actions

    method MainAdd(cart: Cart, item: Item, code: nat, kind: Kind, barcode: nat, discount: int) returns (rc: int)
      requires kind == KindOf(barcode)
      modifies cart
      ensures Ran(old(cart.State()), old(cart.log),
              MainAddOps(cfg, old(cart.State()).core, item, code, barcode, discount),
                  cart.State(), cart.log)
      ensures rc == CartAnswer(old(cart.State()).core)
    {
      ghost var s := cart.State();
      if !cfg.priceChanges {
        var inserted := cart.UpdateLocalItemMap(item, Lookup(cfg.departments, item.department, NO_DEPARTMENT));
      }
      var price := cart.GetItemPrice(item, barcode, kind, cfg.priceChanges);
      rc := cart.AddItemByBarcode(item, code, barcode, 1, price, discount);
      FreezeAddRuns(s, item, Add(code, item.department, barcode, 1, price, discount));
    }

    /** The linked item is added at the archive's price. */
    method LinkedAdd(cart: Cart, linked: nat)
      modifies cart
      ensures Ran(old(cart.State()), old(cart.log), LinkedAddOps(cfg, items, linked), cart.State(), cart.log)
    {
      ghost var s := cart.State();
      var code := Lookup(cfg.barcodes, linked, NO_BARCODE).itemCode;
      var item := ItemAt(items, code);
      if !cfg.priceChanges {
        var inserted := cart.UpdateLocalItemMap(item, Lookup(cfg.departments, item.department, NO_DEPARTMENT));
      }
      var rc := cart.AddItemByBarcode(item, code, linked, 1, item.price, 0);
      FreezeAddRuns(s, item, Add(code, item.department, linked, 1, item.price, 0));
    }

    lemma FreezeAddRuns(s: CartState, item: Item, add: Op)
      ensures var s1 := AfterFreeze(cfg, s, item);
              var freeze := Freeze(item, Lookup(cfg.departments, item.department, NO_DEPARTMENT));
              && CartModel.Run(s, FreezeOps(cfg, item) + [add]) == Apply(s1, add)
              && Log(s, FreezeOps(cfg, item) + [add]) ==
                   (if cfg.priceChanges then [] else Rows(s.core, freeze)) + Rows(s1.core, add)
    {
      var freeze := Freeze(item, Lookup(cfg.departments, item.department, NO_DEPARTMENT));
      if !cfg.priceChanges {
        RunSnoc(s, [], freeze);
        assert [] + [freeze] == [freeze];
      }
      RunSnoc(s, FreezeOps(cfg, item), add);
    }

    method BothAdd(cart: Cart, item: Item, code: nat, kind: Kind, barcode: nat, discount: int) returns (rc: int)
      requires kind == KindOf(barcode)
      modifies cart
      ensures Ran(old(cart.State()), old(cart.log),
              BothAddOps(cfg, items, old(cart.State()).core, item, code, barcode, discount),
                  cart.State(), cart.log)
      ensures rc == CartAnswer(old(cart.State()).core)
    {
      ghost var s, log := cart.State(), cart.log;
      ghost var main := MainAddOps(cfg, s.core, item, code, barcode, discount);
      rc := MainAdd(cart, item, code, kind, barcode, discount);
      ghost var s1, log1 := cart.State(), cart.log;
      if rc == 0 && item.linkedBarcode > 0 {
        LinkedAdd(cart, item.linkedBarcode);
        RanOn(s, log, main, s1, log1, LinkedAddOps(cfg, items, item.linkedBarcode), cart.State(), cart.log);
      } else {
        assert main + [] == main;
      }
    }

    method AddOnCart(cart: Cart, barcode: nat, discount: int) returns (rc: int)
      modifies cart
      ensures Ran(old(cart.State()), old(cart.log), AddOps(cfg, items, old(cart.State()).core, barcode, discount),
              cart.State(), cart.log)
      ensures var d := Decode(cfg.barcodes, barcode);
              rc == if d.kind == NotRecognized then BCODE_NOT_RECOGNIZED
                    else if d.code == 0 then BCODE_ITEM_NOT_FOUND else CartAnswer(old(cart.State()).core)
    {
      var d := Decode(cfg.barcodes, barcode);
      if d.kind != NotRecognized {
        if d.code != 0 {
          rc := BothAdd(cart, ItemAt(items, d.code), d.code, d.kind, barcode, discount);
        } else {
          rc := BCODE_ITEM_NOT_FOUND;
        }
      } else {
        rc := BCODE_NOT_RECOGNIZED;
      }
    }

    /** A removal, as the one-operation run it is. */
    method Take(cart: Cart, item: Item, code: nat, barcode: nat, price: int) returns (rc: int)
      modifies cart
      ensures Ran(old(cart.State()), old(cart.log), [Remove(code, item.department, barcode, price, 0)], cart.State(),
              cart.log)
      ensures rc == CartAnswer(old(cart.State()).core)
    {
      ghost var s, op := cart.State(), Remove(code, item.department, barcode, price, 0);
      rc := cart.RemoveItemByBarcode(item, code, barcode, price, 0);
      RunSnoc(s, [], op);
      assert [] + [op] == [op];
    }

    method VoidOnCart(cart: Cart, barcode: nat) returns (rc: int)
      modifies cart
      ensures Ran(old(cart.State()), old(cart.log), VoidOps(cfg, items, old(cart.State()).core, barcode), cart.State(),
              cart.log)
      ensures var code := Decode(cfg.barcodes, barcode).code;
              rc == if ItemAt(items, code).code != code then BCODE_ITEM_NOT_FOUND
                  else CartAnswer(old(cart.State()).core)
    {
      ghost var s, log := cart.State(), cart.log;
      var d := Decode(cfg.barcodes, barcode);
      var item := ItemAt(items, d.code);
      if item.code == d.code {
        var price := cart.GetItemPrice(item, barcode, d.kind, cfg.priceChanges);
        rc := Take(cart, item, d.code, barcode, price);
        ghost var main := [Remove(d.code, item.department, barcode, price, 0)];
        ghost var s1, log1 := cart.State(), cart.log;
        if rc == 0 && item.linkedBarcode > 0 {
          var code := Lookup(cfg.barcodes, item.linkedBarcode, NO_BARCODE).itemCode;
          var linked := ItemAt(items, code);
          var rcLinked := Take(cart, linked, code, item.linkedBarcode, linked.price);
          RanOn(s, log, main, s1, log1, LinkedVoidOps(cfg, items, item.linkedBarcode), cart.State(), cart.log);
        } else {
          assert main + [] == main;
        }
      } else {
        rc := BCODE_ITEM_NOT_FOUND;
      }
    }

    /** An error's code, or 3 for all of them. */
    method Reply(rc: int) returns (status: int)
      ensures status == if rc > 0 && dummyRcs then 3 else rc
    {
      status := rc;
      if rc > 0 && dummyRcs {
        status := 3;
      }
    }

    method ItemAdd(id: nat, barcode: nat, discount: int) returns (status: int)
      requires Valid()
      modifies this, carts.Values
      ensures Valid() && View() == Act(cfg, old(View()), OnCart(id, AddItem(barcode, discount)))
      ensures status == Status(cfg, dummyRcs, old(View()), id, AddItem(barcode, discount))
    {
      var rc := CART_NOT_FOUND;
      if id in carts {
        var cart := carts[id];
        ghost var v := CartView(cart.State(), cart.log);
        rc := AddOnCart(cart, barcode, discount);
        assert CartView(cart.State(), cart.log) == After(cfg, items, v, AddItem(barcode, discount));
        OneCartSet(id, cart);
      }
      status := Reply(rc);
    }

    method ItemVoid(id: nat, barcode: nat) returns (status: int)
      requires Valid()
      modifies this, carts.Values
      ensures Valid() && View() == Act(cfg, old(View()), OnCart(id, VoidItem(barcode)))
      ensures status == Status(cfg, dummyRcs, old(View()), id, VoidItem(barcode))
    {
      var rc := CART_NOT_FOUND;
      if id in carts {
        var cart := carts[id];
        ghost var v := CartView(cart.State(), cart.log);
        rc := VoidOnCart(cart, barcode);
        assert CartView(cart.State(), cart.log) == After(cfg, items, v, VoidItem(barcode));
        OneCartSet(id, cart);
      }
      status := Reply(rc);
    }

    // ----- loyalty cards and the session

    lemma OneOperation(v: CartView, e: Event, op: Op)
      requires EventOps(cfg, items, v.state.core, e) == [op]
      ensures After(cfg, items, v, e) == CartView(Apply(v.state, op), v.log + Rows(v.state.core, op))
    {
      RunSnoc(v.state, [], op);
      assert [] + [op] == [op];
    }

    method SearchRegistry(id: nat, card: nat) returns (rc: int)
      ensures rc == RegistryAnswer(cfg, allLoyCards, id, card)
    {
      rc := RC_OK;
      var cards := allLoyCards.Keys;
      while cards != {}
        invariant cards <= allLoyCards.Keys
        invariant card in cards ==> rc == RC_OK
        invariant card !in cards ==> rc == RegistryAnswer(cfg, allLoyCards, id, card)
        decreases |cards|
      {
        var c :| c in cards;
        cards := cards - {c};
        if c == card {
          if allLoyCards[c] == id {
            rc := RC_LOY_CARD_ALREADY_PRESENT;
          } else if cfg.oneSession {
            rc := RC_LOY_CARD_IN_ANOTHER_TRANSACTION;
          }
        }
      }
    }

    /** The registry is searched for the card before the cart is asked. */
    method CustomerAdd(id: nat, card: nat) returns (status: int)
      requires Valid()
      modifies this, carts.Values
      ensures Valid() && View() == Act(cfg, old(View()), OnCart(id, AddLoyalty(card)))
      ensures status == Status(cfg, dummyRcs, old(View()), id, AddLoyalty(card))
    {
      var rc := CART_NOT_FOUND;
      if id in carts {
        var cart := carts[id];
        ghost var s, log := cart.State(), cart.log;
        rc := SearchRegistry(id, card);
        if rc == 0 {
          allLoyCards := allLoyCards[card := id];
          rc := cart.AddLoyCard(card, cfg.cardLimit);
          OneOperation(CartView(s, log), AddLoyalty(card), AddCard(card, cfg.cardLimit));
          OneCartSet(id, cart);
        } else {
          assert View() == old(View());
        }
      }
      status := Reply(rc);
    }

    method CustomerVoid(id: nat, card: nat) returns (status: int)
      requires Valid()
      modifies this, carts.Values
      ensures Valid() && View() == Act(cfg, old(View()), OnCart(id, VoidLoyalty(card)))
      ensures status == Status(cfg, dummyRcs, old(View()), id, VoidLoyalty(card))
    {
      var rc := CART_NOT_FOUND;
      if id in carts {
        var cart := carts[id];
        ghost var s, log := cart.State(), cart.log;
        rc := cart.RemoveLoyCard(card);
        if rc == RC_OK {
          assert false;  // the registration would be erased here, but the cart never answers RC_OK
        }
        OneOperation(CartView(s, log), VoidLoyalty(card), RemoveCard(card));
        OneCartSet(id, cart);
      }
      status := Reply(rc);
    }

    method SessionVoid(id: nat) returns (status: int)
      requires Valid()
      modifies this, carts.Values
      ensures Valid() && View() == Act(cfg, old(View()), OnCart(id, VoidSession))
      ensures status == Status(cfg, dummyRcs, old(View()), id, VoidSession)
    {
      var rc := CART_NOT_FOUND;
      if id in carts {
        var cart := carts[id];
        ghost var s, log := cart.State(), cart.log;
        rc := cart.VoidAllCart();
        OneOperation(CartView(s, log), VoidSession, VoidAll);
        OneCartSet(id, cart);
      }
      status := Reply(rc);
    }

    /** A variation row: item codes above zero only. */
    method VariationRow(code: nat, description: string, department: nat, price: int)
      requires Valid()
      modifies this
      ensures Valid() && View() == Act(cfg, old(View()), Variation(code, description, department, price))
    {
      if code > 0 {
        items := items[code := Item(code, description, department, price, 0)];
      }
      assert View().carts == old(View()).carts;
    }

    // ----- start-up

    lemma SchemePrices(frozen: map<nat, Item>, item: Item, barcode: nat)
      ensures SchemeOf(cfg).owner(barcode) == Decode(cfg.barcodes, barcode).code
      ensures Charged(SchemeOf(cfg), frozen, item, barcode) == PriceOf(frozen, item, barcode, cfg.priceChanges)
    {
    }

    /** An `I` row: the item is looked up afresh and priced as the cart now prices it, at no discount. */
    method ReplayItemRow(cart: Cart, row: LogRow)
      requires row.AddRow? || row.VoidRow?
      requires cart.phase != Ready
      modifies cart
      ensures cart.State() == ReplayRow(SchemeOf(cfg), items, old(cart.State()), row) && cart.log == old(cart.log)
    {
      var d := Decode(cfg.barcodes, row.barcode);
      var item := ItemAt(items, d.code);
      SchemePrices(cart.itemsLocalCopy, item, row.barcode);
      var price := cart.GetItemPrice(item, row.barcode, d.kind, cfg.priceChanges);
      if row.AddRow? {
        var rc := cart.AddItemByBarcode(item, d.code, row.barcode, row.quantity, price, 0);
      } else {
        var rc := cart.RemoveItemByBarcode(item, d.code, row.barcode, price, 0);
      }
    }

    method ReplayRowOn(cart: Cart, number: nat, row: LogRow)
      requires cart.phase == Phase.Loading || cart.phase == Voided
      modifies this`allLoyCards, cart
      ensures cart.State() == ReplayRow(SchemeOf(cfg), items, old(cart.State()), row) && cart.log == old(cart.log)
      ensures allLoyCards == RegisterRow(old(allLoyCards), number, row)
      ensures cart.phase == Phase.Loading || cart.phase == Voided
    {
      match row {
        case AddRow(_, _) => ReplayItemRow(cart, row);
        case VoidRow(_) => ReplayItemRow(cart, row);
        case CardAddRow(card) =>
          var rc := cart.AddLoyCard(card, cfg.cardLimit);
          allLoyCards := allLoyCards[card := number];
        case CardVoidRow(card) =>
          var rc := cart.RemoveLoyCard(card);
          allLoyCards := allLoyCards - {card};
        case CartVoidRow => cart.SetState(Voided);
        case ItemRow(item) =>
          if !cfg.priceChanges {
            var inserted := cart.UpdateLocalItemMap(item, Lookup(cfg.departments, item.department, NO_DEPARTMENT));
          }
        case DepartmentRow(_) =>
      }
    }

    method ReplayFile(cart: Cart, f: File)
      requires cart.State() == Empty(Phase.Loading)
      modifies this`allLoyCards, cart
      ensures cart.State() == Recover(SchemeOf(cfg), items, f.rows) && cart.log == old(cart.log)
      ensures allLoyCards == RegisterRows(old(allLoyCards), f.number, f.rows)
    {
      ghost var sch := SchemeOf(cfg);
      var i := 0;
      while i < |f.rows|
        invariant 0 <= i <= |f.rows|
        invariant cart.phase == Phase.Loading || cart.phase == Voided
        invariant Replay(sch, items, cart.State(), f.rows[i..]) == Replay(sch, items, Empty(Phase.Loading), f.rows)
        invariant RegisterRows(allLoyCards, f.number, f.rows[i..]) == RegisterRows(old(allLoyCards), f.number, f.rows)
        invariant cart.log == old(cart.log)
      {
        assert f.rows[i..][1..] == f.rows[i + 1..];
        ReplayRowOn(cart, f.number, f.rows[i]);
        i := i + 1;
      }
      if cart.phase != Voided && cart.phase != Closed {
        cart.SetState(Ready);
      }
    }

    method LoadCart(f: File)
      requires Valid() && f.number !in carts
      modifies this
      ensures Valid() && View() == LoadFile(cfg, old(View()), f)
      ensures carts.Keys == old(carts.Keys) + {f.number}
    {
      var nextCartNumberTmp := nextCartNumber;
      nextCartNumber := f.number;
      var number := NewCart(true, f.rows);
      nextCartNumber := nextCartNumberTmp;
      var cart := carts[f.number];
      ReplayFile(cart, f);
      if f.number >= nextCartNumber {
        nextCartNumber := if f.number == 0xFFFF_FFFF then 0 else f.number + 1;
      }
      OneCartSet(f.number, cart);
    }

    /** A directory holds one file per session number, and no cart is loaded yet under any of them. */
    method LoadCartsInProgress(files: seq<File>)
      requires Valid() && DistinctNumbers(files)
      requires forall i :: 0 <= i < |files| ==> files[i].number !in carts
      modifies this
      ensures Valid() && View() == LoadFiles(cfg, old(View()).(next := 1), files)
    {
      nextCartNumber := 1;
      assert View() == old(View()).(next := 1);
      var i := 0;
      while i < |files|
        invariant 0 <= i <= |files| && Valid()
        invariant forall j :: i <= j < |files| ==> files[j].number !in carts
        invariant LoadFiles(cfg, View(), files[i..]) == LoadFiles(cfg, old(View()).(next := 1), files)
      {
        assert files[i..][1..] == files[i + 1..];
        LoadCart(files[i]);
        i := i + 1;
      }
    }
  }
}
