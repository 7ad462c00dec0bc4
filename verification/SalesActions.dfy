/**
 What the web actions do to one cart: each action, as the sequence of cart operations it issues against
 the current catalogue, and a session with catalogue updates, crashes and restarts in between.
 */
module SalesActions {
  import opened Catalogue
  import opened Options
  import opened MapSum
  import opened Barcode
  import opened CartModel
  import opened CartLaws
  import opened Recovery

  datatype Config = Config(
    barcodes: map<nat, BarcodeRow>,
    departments: map<nat, Department>,
    priceChanges: bool,   // prices may change while shopping
    cardLimit: nat,       // loyalty cards per transaction
    oneSession: bool)     // only one shopping session per card

  function SchemeOf(cfg: Config): Scheme {
    Scheme((b: nat) => Owner(cfg.barcodes, b),
           (b: nat) => if KindOf(b) == Ean13PriceReq then Some(EmbeddedPrice(b)) else None,
           cfg.priceChanges, cfg.cardLimit)
  }

  function ItemAt(items: map<nat, Item>, code: nat): Item {
    Lookup(items, code, NO_ITEM)
  }

  function FreezeOps(cfg: Config, item: Item): seq<Op> {
    if cfg.priceChanges then [] else [Freeze(item, Lookup(cfg.departments, item.department, NO_DEPARTMENT))]
  }

  function FrozenAfter(cfg: Config, c: Core, item: Item): map<nat, Item> {
    if cfg.priceChanges then c.frozen else FreezeCore(c, item).frozen
  }

  /** The item itself: frozen first, then added at the price its barcode is charged. */
  function MainAddOps(cfg: Config, c: Core, item: Item, code: nat, barcode: nat, discount: int): seq<Op> {
    FreezeOps(cfg, item) +
    [Add(code, item.department, barcode, 1,
         PriceOf(FrozenAfter(cfg, c, item), item, barcode, cfg.priceChanges), discount)]
  }

  /** The item linked to it: frozen too, but added at the catalogue's price of the moment. */
  function LinkedAddOps(cfg: Config, items: map<nat, Item>, linked: nat): seq<Op> {
    var code := LinkedCode(cfg, linked);
    var item := ItemAt(items, code);
    FreezeOps(cfg, item) + [Add(code, item.department, linked, 1, item.price, 0)]
  }

  /** The linked item follows when the main one was accepted. */
  function BothAddOps(cfg: Config, items: map<nat, Item>, c: Core, item: Item, code: nat, barcode: nat,
                      discount: int): seq<Op> {
    MainAddOps(cfg, c, item, code, barcode, discount) +
    (if Accepting(c) && item.linkedBarcode > 0 then LinkedAddOps(cfg, items, item.linkedBarcode) else [])
  }

  function AddOps(cfg: Config, items: map<nat, Item>, c: Core, barcode: nat, discount: int): seq<Op> {
    var d := Decode(cfg.barcodes, barcode);
    if d.kind == NotRecognized || d.code == 0 then []
    else BothAddOps(cfg, items, c, ItemAt(items, d.code), d.code, barcode, discount)
  }

  function LinkedVoidOps(cfg: Config, items: map<nat, Item>, linked: nat): seq<Op> {
    var code := LinkedCode(cfg, linked);
    var item := ItemAt(items, code);
    [Remove(code, item.department, linked, item.price, 0)]
  }

  function VoidOps(cfg: Config, items: map<nat, Item>, c: Core, barcode: nat): seq<Op> {
    var code := Decode(cfg.barcodes, barcode).code;
    var item := ItemAt(items, code);
    if item.code != code then []
    else
      [Remove(code, item.department, barcode, PriceOf(c.frozen, item, barcode, cfg.priceChanges), 0)] +
      (if Accepting(c) && item.linkedBarcode > 0 then LinkedVoidOps(cfg, items, item.linkedBarcode) else [])
  }

  // ----- the catalogue

  function LinkedCode(cfg: Config, linked: nat): nat {
    Lookup(cfg.barcodes, linked, NO_BARCODE).itemCode
  }

  /** A linked barcode, looked up as it stands, names the item that decoding it finds. */
  predicate LinkOk(cfg: Config, linked: nat) {
    LinkedCode(cfg, linked) != 0 && Owner(cfg.barcodes, linked) == LinkedCode(cfg, linked)
  }

  ghost predicate CatalogueOk(cfg: Config, items: map<nat, Item>) {
    && Complete(SchemeOf(cfg), items)
    && forall k :: k in items && items[k].linkedBarcode > 0 ==> LinkOk(cfg, items[k].linkedBarcode)
  }

  /** A variation file replaces an item whole; its linked barcode goes back to none. */
  function Update(items: map<nat, Item>, code: nat, description: string, department: nat, price: int): map<nat, Item> {
    if code > 0 then items[code := Item(code, description, department, price, 0)] else items
  }

  lemma UpdateKeepsCatalogue(cfg: Config, items: map<nat, Item>, code: nat, description: string, department: nat,
                             price: int)
    requires CatalogueOk(cfg, items) && department != 0
    ensures CatalogueOk(cfg, Update(items, code, description, department, price))
  {
  }

  // ----- the operations an action issues are sound

  lemma {:induction false} SoundConcat(sch: Scheme, s: CartState, a: seq<Op>, b: seq<Op>)
    requires SoundRun(sch, s, a) && SoundRun(sch, Run(s, a), b)
    ensures SoundRun(sch, s, a + b)
    ensures TotalDrift(sch, s, a + b) == TotalDrift(sch, s, a) + TotalDrift(sch, Run(s, a), b)
    decreases |a|
  {
    if a == [] {
      assert a + b == b;
    } else {
      assert (a + b)[1..] == a[1..] + b;
      SoundConcat(sch, Apply(s, a[0]), a[1..], b);
    }
  }

  lemma OneOp(sch: Scheme, s: CartState, op: Op)
    ensures SoundRun(sch, s, [op]) <==> Sound(sch, s.core, op)
    ensures Run(s, [op]) == Apply(s, op)
    ensures TotalDrift(sch, s, [op]) == Drift(sch, s.core, op)
  {
    assert [op][1..] == [];
  }

  /** The cart with the item frozen, where prices are frozen. */
  function AfterFreeze(cfg: Config, s: CartState, item: Item): CartState {
    if cfg.priceChanges then s else s.(core := FreezeCore(s.core, item))
  }

  lemma FreezeThenAdd(cfg: Config, sch: Scheme, s: CartState, item: Item, add: Op)
    requires sch.priceChanges == cfg.priceChanges
    requires add.Add? && Regular(sch.owner, s.core, add) && add.code == item.code
    ensures var s1, ops := AfterFreeze(cfg, s, item), FreezeOps(cfg, item) + [add];
            SoundRun(sch, s, ops) && Run(s, ops) == Apply(s1, add) &&
                TotalDrift(sch, s, ops) == Drift(sch, s1.core, add)
  {
    var s1, freeze := AfterFreeze(cfg, s, item), FreezeOps(cfg, item);
    OneOp(sch, s1, add);
    if !cfg.priceChanges {
      OneOp(sch, s, freeze[0]);
      assert freeze == [freeze[0]];
    }
    assert Run(s, freeze) == s1 && SoundRun(sch, s, freeze) && TotalDrift(sch, s, freeze) == 0;
    RunConcat(s, freeze, [add]);
    SoundConcat(sch, s, freeze, [add]);
  }

  /** How far an item's catalogue price is from what replay charges for its barcode. */
  function OffPrice(sch: Scheme, c: Core, item: Item, barcode: nat): int {
    match sch.embedded(barcode)
    case Some(p) => item.price - p
    case None => if item.code in c.frozen then item.price - c.frozen[item.code].price else 0
  }

  /** The same of the item linked to one, if an accepted action touches any. */
  function LinkedOffPrice(cfg: Config, items: map<nat, Item>, c: Core, code: nat): int {
    var linked := ItemAt(items, code).linkedBarcode;
    if Accepting(c) && linked > 0 then OffPrice(SchemeOf(cfg), c, ItemAt(items, LinkedCode(cfg, linked)), linked) else 0
  }

  /** Pieces of the linked item that are left for its void once the main item's piece is gone. */
  function LinkedLeft(cfg: Config, items: map<nat, Item>, c: Core, code: nat): int {
    var linked := LinkedCode(cfg, ItemAt(items, code).linkedBarcode);
    Get(c.rows, linked) - if linked == code then 1 else 0
  }

  function AddChange(cfg: Config, items: map<nat, Item>, c: Core, barcode: nat): int {
    var d := Decode(cfg.barcodes, barcode);
    if d.kind == NotRecognized || d.code == 0 then 0 else LinkedOffPrice(cfg, items, c, d.code)
  }

  function VoidChange(cfg: Config, items: map<nat, Item>, c: Core, barcode: nat): int {
    var code := Owner(cfg.barcodes, barcode);
    if ItemAt(items, code).code == code && LinkedLeft(cfg, items, c, code) >= 1
    then -LinkedOffPrice(cfg, items, c, code)
    else 0
  }

  lemma MainAddIsSound(cfg: Config, sch: Scheme, s: CartState, item: Item, barcode: nat, discount: int)
    requires sch == SchemeOf(cfg)
    requires item.code == Owner(cfg.barcodes, barcode) && item.code != 0 && item.department != 0
    ensures var ops := MainAddOps(cfg, s.core, item, item.code, barcode, discount);
            && SoundRun(sch, s, ops)
            && Run(s, ops).core == AddCore(AfterFreeze(cfg, s, item).core, item.code, barcode, 1)
            && (!cfg.priceChanges ==> TotalDrift(sch, s, ops) == 0)
  {
    var price := PriceOf(FrozenAfter(cfg, s.core, item), item, barcode, cfg.priceChanges);
    var add := Add(item.code, item.department, barcode, 1, price, discount);
    assert sch.owner(barcode) == item.code;
    FreezeThenAdd(cfg, sch, s, item, add);
  }

  lemma LinkedAddIsSound(cfg: Config, sch: Scheme, items: map<nat, Item>, s: CartState, linked: nat)
    requires sch == SchemeOf(cfg) && CatalogueOk(cfg, items) && LinkOk(cfg, linked)
    ensures var ops := LinkedAddOps(cfg, items, linked);
            var item := ItemAt(items, LinkedCode(cfg, linked));
            && SoundRun(sch, s, ops)
            && (!cfg.priceChanges ==>
                  TotalDrift(sch, s, ops) == if Accepting(s.core) then OffPrice(sch, s.core, item, linked) else 0)
  {
    var code := LinkedCode(cfg, linked);
    var item := ItemAt(items, code);
    assert sch.owner(linked) == code;
    FreezeThenAdd(cfg, sch, s, item, Add(code, item.department, linked, 1, item.price, 0));
  }

  /** Freezing an item at the catalogue's price moves no other price off. */
  lemma FreezeKeepsOffPrice(cfg: Config, sch: Scheme, s: CartState, item: Item, barcode: nat, other: Item, linked: nat)
    requires other.code == item.code ==> other == item
    ensures OffPrice(sch, AddCore(AfterFreeze(cfg, s, item).core, item.code, barcode, 1), other, linked) ==
            OffPrice(sch, s.core, other, linked)
  {
  }

  lemma BothAddIsSound(cfg: Config, items: map<nat, Item>, s: CartState, item: Item, barcode: nat, discount: int)
    requires CatalogueOk(cfg, items) && item == ItemAt(items, item.code)
    requires Owner(cfg.barcodes, barcode) == item.code && item.code != 0
    ensures var ops := BothAddOps(cfg, items, s.core, item, item.code, barcode, discount);
            && SoundRun(SchemeOf(cfg), s, ops)
            && (!cfg.priceChanges ==>
                  TotalDrift(SchemeOf(cfg), s, ops) == LinkedOffPrice(cfg, items, s.core, item.code))
  {
    var sch, main := SchemeOf(cfg), MainAddOps(cfg, s.core, item, item.code, barcode, discount);
    assert sch.owner(barcode) == item.code;
    MainAddIsSound(cfg, sch, s, item, barcode, discount);
    if Accepting(s.core) && item.linkedBarcode > 0 {
      assert LinkOk(cfg, item.linkedBarcode);
      LinkedAddIsSound(cfg, sch, items, Run(s, main), item.linkedBarcode);
      FreezeKeepsOffPrice(cfg, sch, s, item, barcode, ItemAt(items, LinkedCode(cfg, item.linkedBarcode)),
          item.linkedBarcode);
      SoundConcat(sch, s, main, LinkedAddOps(cfg, items, item.linkedBarcode));
    } else {
      assert main + [] == main;
    }
  }

  /**
   Adding an item issues sound operations only, and charges off the line prices exactly as far as the
   linked item's catalogue price is from the cart's copy of it.
   */
  lemma AddIsSound(cfg: Config, items: map<nat, Item>, s: CartState, barcode: nat, discount: int)
    requires CatalogueOk(cfg, items)
    ensures var ops := AddOps(cfg, items, s.core, barcode, discount);
            && SoundRun(SchemeOf(cfg), s, ops)
            && (!cfg.priceChanges ==> TotalDrift(SchemeOf(cfg), s, ops) == AddChange(cfg, items, s.core, barcode))
  {
    var d := Decode(cfg.barcodes, barcode);
    if d.kind != NotRecognized && d.code != 0 {
      assert SchemeOf(cfg).owner(barcode) == d.code;
      BothAddIsSound(cfg, items, s, ItemAt(items, d.code), barcode, discount);
    }
  }

  lemma RemoveIsSound(cfg: Config, sch: Scheme, items: map<nat, Item>, s: CartState, barcode: nat, price: int)
    requires sch == SchemeOf(cfg) && CatalogueOk(cfg, items) && Inv(sch, s.core)
    ensures var code := Owner(cfg.barcodes, barcode);
            var remove := Remove(code, ItemAt(items, code).department, barcode, price, 0);
            && Sound(sch, s.core, remove)
            && Inv(sch, Apply(s, remove).core)
            && Accepting(Apply(s, remove).core) == Accepting(s.core)
            && Apply(s, remove).core.frozen == s.core.frozen
            && (!cfg.priceChanges && code in s.core.rows && Accepting(s.core) ==>
                  ItemAt(items, code).code == code && code in s.core.frozen)
  {
    var code := Owner(cfg.barcodes, barcode);
    assert sch.owner(barcode) == code;
    InvStep(sch, s, Remove(code, ItemAt(items, code).department, barcode, price, 0));
  }

  lemma LinkedVoidIsSound(cfg: Config, sch: Scheme, items: map<nat, Item>, s: CartState, linked: nat)
    requires sch == SchemeOf(cfg) && CatalogueOk(cfg, items) && Inv(sch, s.core) && LinkOk(cfg, linked)
    ensures var ops, code := LinkedVoidOps(cfg, items, linked), LinkedCode(cfg, linked);
            && SoundRun(sch, s, ops)
            && (!cfg.priceChanges ==>
                  TotalDrift(sch, s, ops) ==
                  if Accepting(s.core) && code in s.core.rows then -OffPrice(sch, s.core, ItemAt(items, code), linked)
                      else 0)
  {
    var ops := LinkedVoidOps(cfg, items, linked);
    RemoveIsSound(cfg, sch, items, s, linked, ops[0].price);
    OneOp(sch, s, ops[0]);
    assert ops == [ops[0]];
  }

  /** Taking one piece of an item out leaves another item's row, and its own if there was more than one. */
  lemma RowLeft(c: Core, code: nat, barcode: nat, other: nat)
    requires Accepting(c) && Positive(c.rows)
    ensures other in RemoveCore(c, code, barcode).rows <==> Get(c.rows, other) - (if other == code then 1 else 0) >= 1
  {
  }

  lemma MainVoidIsSound(cfg: Config, sch: Scheme, items: map<nat, Item>, s: CartState, barcode: nat)
    requires sch == SchemeOf(cfg) && CatalogueOk(cfg, items) && Inv(sch, s.core)
    ensures var code := Owner(cfg.barcodes, barcode);
            var item := ItemAt(items, code);
            var remove := Remove(code, item.department, barcode,
                PriceOf(s.core.frozen, item, barcode, cfg.priceChanges), 0);
            && SoundRun(sch, s, [remove]) && Run(s, [remove]) == Apply(s, remove)
            && Apply(s, remove).core == RemoveCore(s.core, code, barcode)
            && Inv(sch, Apply(s, remove).core)
            && (!cfg.priceChanges ==> TotalDrift(sch, s, [remove]) == 0)
  {
    var code := Owner(cfg.barcodes, barcode);
    var item := ItemAt(items, code);
    var price := PriceOf(s.core.frozen, item, barcode, cfg.priceChanges);
    assert sch.owner(barcode) == code;
    RemoveIsSound(cfg, sch, items, s, barcode, price);
    OneOp(sch, s, Remove(code, item.department, barcode, price, 0));
  }

  /**
   Voiding an item issues sound operations only, and gives back off the line prices exactly as far as the
   linked item's catalogue price is from the cart's copy, when a piece of the linked item is left to void.
   */
  lemma VoidIsSound(cfg: Config, items: map<nat, Item>, s: CartState, barcode: nat)
    requires CatalogueOk(cfg, items) && Inv(SchemeOf(cfg), s.core)
    ensures var ops := VoidOps(cfg, items, s.core, barcode);
            && SoundRun(SchemeOf(cfg), s, ops)
            && (!cfg.priceChanges ==> TotalDrift(SchemeOf(cfg), s, ops) == VoidChange(cfg, items, s.core, barcode))
  {
    var sch, code := SchemeOf(cfg), Owner(cfg.barcodes, barcode);
    var item, ops := ItemAt(items, code), VoidOps(cfg, items, s.core, barcode);
    if item.code == code {
      var remove := Remove(code, item.department, barcode, PriceOf(s.core.frozen, item, barcode, cfg.priceChanges), 0);
      MainVoidIsSound(cfg, sch, items, s, barcode);
      if Accepting(s.core) && item.linkedBarcode > 0 {
        var linked := item.linkedBarcode;
        assert LinkOk(cfg, linked);
        LinkedVoidIsSound(cfg, sch, items, Apply(s, remove), linked);
        RowLeft(s.core, code, barcode, LinkedCode(cfg, linked));
        SoundConcat(sch, s, [remove], LinkedVoidOps(cfg, items, linked));
      } else {
        assert ops == [remove];
      }
    }
  }
}
