/**
 The cart as the mutable object the server keeps: the same maps, updated in place, with the rows
 appended to the transaction file kept in `log`. Each method is tied to the operation it performs.
 */
module CartObject {
  import opened Catalogue
  import opened MapSum
  import opened Options
  import opened Decimal
  import opened Barcode
  import opened CartModel
  import opened PosExport

  const RC_OK := 0
  const RC_LOY_CARD_NOT_PRESENT := 41090
  const RC_LOY_CARD_ALREADY_PRESENT := 41091
  const RC_LOY_CARD_IN_ANOTHER_TRANSACTION := 41092

  /** A card present below the limit is refused; at the limit the answer is success, although nothing is stored. */
  function AddCardAnswer(c: Core, card: nat, limit: nat): int {
    if !Accepting(c) then StateCode(c.phase)
    else if c.cardsNumber < limit && exists k :: k in c.slots && c.slots[k] == card then RC_LOY_CARD_ALREADY_PRESENT
    else RC_OK
  }

  /** The slots left when those outside `slots` have been searched for the card. */
  ghost function Kept(before: map<nat, nat>, slots: set<nat>, card: nat): map<nat, nat> {
    map k | k in before && (k in slots || before[k] != card) :: before[k]
  }

  lemma KeptStep(before: map<nat, nat>, slots: set<nat>, k: nat, card: nat)
    requires k in slots && k in before
    ensures before[k] == card ==> Kept(before, slots - {k}, card) == Kept(before, slots, card) - {k}
    ensures before[k] == card ==> |Kept(before, slots - {k}, card)| == |Kept(before, slots, card)| - 1
    ensures before[k] != card ==> Kept(before, slots - {k}, card) == Kept(before, slots, card)
  {
    var was := Kept(before, slots, card);
    assert (was - {k}).Keys == was.Keys - {k};
  }

  lemma LessStep(n: nat, k: nat)
    ensures Less(Less(n, k), 1) == Less(n, k + 1)
  {
  }

  lemma KeptEnds(before: map<nat, nat>, card: nat)
    ensures Kept(before, before.Keys, card) == before
    ensures Kept(before, {}, card) == WithoutCard(before, card)
  {
  }

  class Cart {
    const number: nat
    var cartItems: map<nat, int>
    var barcodes: map<nat, int>
    var totals: map<nat, Totals>
    var itemsNumber: int
    var itemsLocalCopy: map<nat, Item>
    var loyCards: map<nat, nat>
    var loyCardsNumber: nat
    var phase: Phase
    var log: seq<LogRow>

    ghost function State(): CartState
      reads this
    {
      CartState(Core(cartItems, barcodes, itemsNumber, itemsLocalCopy, loyCards, loyCardsNumber, phase), totals)
    }

    /** The transaction file is opened for appending: the rows already in it stay. */
    constructor (number: nat, loading: bool, file: seq<LogRow>)
      ensures State() == Empty(if loading then Loading else Ready)
      ensures log == file && this.number == number
    {
      this.number := number;
      cartItems, barcodes, itemsLocalCopy, loyCards := map[], map[], map[], map[];
      itemsNumber, loyCardsNumber := 0, 0;
      totals := map[0 := NO_TOTALS];
      phase := if loading then Loading else Ready;
      log := file;
    }

    method SetState(p: Phase)
      modifies this
      ensures State() == old(State()).(core := old(State()).core.(phase := p)) && log == old(log)
    {
      phase := p;
    }

    method UpdateLocalItemMap(item: Item, department: Department) returns (inserted: bool)
      modifies this
      ensures State() == Apply(old(State()), Freeze(item, department))
      ensures log == old(log) + Rows(old(State()).core, Freeze(item, department))
      ensures inserted <==> item.code !in old(itemsLocalCopy)
    {
      if item.code in itemsLocalCopy {
        inserted := false;
      } else {
        if phase == Ready {
          log := log + [DepartmentRow(department)];
          log := log + [ItemRow(item)];
        }
        itemsLocalCopy := itemsLocalCopy[item.code := item];
        inserted := true;
      }
    }

    /** Callers pass the kind that decoding the same barcode gave. */
    method GetItemPrice(item: Item, barcode: nat, kind: Kind, priceChanges: bool) returns (price: int)
      requires kind == KindOf(barcode)
      ensures price == PriceOf(itemsLocalCopy, item, barcode, priceChanges)
    {
      if kind != Ean13PriceReq {
        if !priceChanges {
          if item.code in itemsLocalCopy {
            price := itemsLocalCopy[item.code].price;
          } else {
            price := item.price;
          }
        } else {
          price := item.price;
        }
      } else {
        price := FromDecimal(ToDecimal(barcode)[7..12]);
      }
    }

    method UpdateTotals(department: nat, t: Totals)
      modifies this`totals
      ensures totals == ChargeBoth(old(totals), department, t)
    {
      totals := Charge(totals, 0, t);
      totals := Charge(totals, department, t);
    }

    method AddItemByBarcode(item: Item, code: nat, barcode: nat, quantity: nat, price: int,
                            discount: int) returns (rc: int)
      modifies this
      ensures State() == Apply(old(State()), Add(code, item.department, barcode, quantity, price, discount))
      ensures log == old(log) + Rows(old(State()).core, Add(code, item.department, barcode, quantity, price, discount))
      ensures rc == if Accepting(old(State()).core) then RC_OK else StateCode(old(phase))
    {
      if phase == Loading || phase == Ready {
        var quantityItem := Get(cartItems, code) + quantity;
        var quantityBarcode := Get(barcodes, barcode) + quantity;
        UpdateTotals(item.department, Totals(quantity, (price - discount) * quantity, discount * quantity));
        itemsNumber := itemsNumber + quantity;
        cartItems := cartItems[code := quantityItem];
        barcodes := barcodes[barcode := quantityBarcode];
        if phase == Ready {
          log := log + [AddRow(barcode, quantity)];
        }
        rc := RC_OK;
      } else {
        rc := StateCode(phase);
      }
    }

    method RemoveItemByBarcode(item: Item, code: nat, barcode: nat, price: int, discount: int) returns (rc: int)
      modifies this
      ensures State() == Apply(old(State()), Remove(code, item.department, barcode, price, discount))
      ensures log == old(log) + Rows(old(State()).core, Remove(code, item.department, barcode, price, discount))
      ensures rc == if Accepting(old(State()).core) then RC_OK else StateCode(old(phase))
    {
      if phase == Loading || phase == Ready {
        if code in cartItems {
          var quantityItem := cartItems[code] - 1;
          var quantityBarcode := Get(barcodes, barcode) - 1;
          UpdateTotals(item.department, Totals(-1, -(price - discount), -discount));
          itemsNumber := itemsNumber - 1;
          if quantityItem < 1 {
            cartItems := cartItems - {code};
          } else {
            cartItems := cartItems[code := quantityItem];
          }
          if quantityBarcode < 1 {
            barcodes := barcodes - {barcode};
          } else {
            barcodes := barcodes[barcode := quantityBarcode];
          }
          if phase == Ready {
            log := log + [VoidRow(barcode)];
          }
        }
        rc := RC_OK;
      } else {
        rc := StateCode(phase);
      }
    }

    /** At the limit nothing is stored, and the source still answers RC_OK. */
    method AddLoyCard(card: nat, limit: nat) returns (rc: int)
      modifies this
      ensures State() == Apply(old(State()), AddCard(card, limit))
      ensures log == old(log) + Rows(old(State()).core, AddCard(card, limit))
      ensures rc == AddCardAnswer(old(State()).core, card, limit)
    {
      if phase == Loading || phase == Ready {
        if loyCardsNumber < limit {
          var slots := loyCards.Keys;
          while slots != {}
            invariant slots <= loyCards.Keys
            invariant forall k :: k in loyCards && k !in slots ==> loyCards[k] != card
            decreases |slots|
          {
            var k :| k in slots;
            if loyCards[k] == card {
              return RC_LOY_CARD_ALREADY_PRESENT;
            }
            slots := slots - {k};
          }
          loyCards := loyCards[loyCardsNumber := card];
          if phase == Ready {
            log := log + [CardAddRow(card)];
          }
          loyCardsNumber := loyCardsNumber + 1;
        }
        rc := RC_OK;
      } else {
        rc := StateCode(phase);
      }
    }

    /** The loop over the slots: each one holding the card is freed, logged and counted down. */
    method FreeSlots(card: nat)
      modifies `loyCards, `loyCardsNumber, `log
      ensures loyCards == WithoutCard(old(loyCards), card)
      ensures loyCardsNumber == Less(old(loyCardsNumber), FreedSlots(old(loyCards), card))
      ensures log == old(log) + if phase == Ready then Repeat(CardVoidRow(card), FreedSlots(old(loyCards), card))
              else []
    {
      ghost var before, freed: nat := loyCards, 0;
      var slots := loyCards.Keys;
      assert loyCards == Kept(before, slots, card);
      while slots != {}
        invariant slots <= before.Keys
        invariant loyCards == Kept(before, slots, card) && freed == |before| - |loyCards|
        invariant loyCardsNumber == Less(old(loyCardsNumber), freed)
        invariant log == old(log) + if phase == Ready then Repeat(CardVoidRow(card), freed) else []
        decreases |slots|
      {
        var k :| k in slots;
        KeptStep(before, slots, k, card);
        slots := slots - {k};
        if loyCards[k] == card {
          LessStep(old(loyCardsNumber), freed);
          FreeSlot(k, card);
          freed := freed + 1;
        }
      }
      KeptEnds(before, card);
    }

    /** One slot freed, logged by a live cart, and counted down. */
    method FreeSlot(k: nat, card: nat)
      modifies `loyCards, `loyCardsNumber, `log
      ensures loyCards == old(loyCards) - {k}
      ensures loyCardsNumber == Less(old(loyCardsNumber), 1)
      ensures log == old(log) + if phase == Ready then [CardVoidRow(card)] else []
    {
      loyCards := loyCards - {k};
      if phase == Ready {
        log := log + [CardVoidRow(card)];
      }
      loyCardsNumber := if loyCardsNumber > 0 then loyCardsNumber - 1 else 0xFFFF_FFFF;
    }

    /** Whether a card was found or not, an accepting cart answers that it was not present. */
    method RemoveLoyCard(card: nat) returns (rc: int)
      modifies this
      ensures State() == Apply(old(State()), RemoveCard(card))
      ensures log == old(log) + Rows(old(State()).core, RemoveCard(card))
      ensures rc == if Accepting(old(State()).core) then RC_LOY_CARD_NOT_PRESENT else StateCode(old(phase))
    {
      if phase == Loading || phase == Ready {
        FreeSlots(card);
        rc := RC_LOY_CARD_NOT_PRESENT;
      } else {
        rc := StateCode(phase);
      }
    }

    method VoidAllCart() returns (rc: int)
      modifies this
      ensures State() == Apply(old(State()), VoidAll)
      ensures log == old(log) + Rows(old(State()).core, VoidAll)
      ensures rc == if old(phase) == Voided || old(phase) == Closed then StateCode(old(phase)) else RC_OK
    {
      if phase != Voided && phase != Closed {
        phase := Voided;
        log := log + [CartVoidRow];
        rc := RC_OK;
      } else {
        rc := StateCode(phase);
      }
    }

    /** One detail row per piece. */
    static method SendLine(rows: seq<nat>, barcode: nat, quantity: int) returns (rows': seq<nat>)
      ensures rows' == rows + Copies(barcode, if quantity > 0 then quantity else 0)
    {
      rows' := rows;
      if quantity > 0 {
        for repetitions := 0 to quantity
          invariant rows' == rows + Copies(barcode, repetitions)
        {
          rows' := rows' + [barcode];
        }
      }
    }

    /** The card in the first slot, where the source's ordered map begins. */
    method FirstCard() returns (card: Option<nat>)
      ensures card == FirstCardOf(loyCards)
    {
      if loyCards == map[] {
        return None;
      }
      ghost var least := Least(loyCards.Keys);
      var slot :| slot in loyCards && forall k :: k in loyCards ==> slot <= k;
      card := Some(loyCards[slot]);
    }

    /**
     The header and the detail rows of the file for the till. Only a READY cart is sent; the cart itself does
     not change.
     */
    method SendToPos(till: nat, store: string) returns (rc: int, header: Header, rows: seq<nat>)
      ensures rc == if phase == Ready then RC_OK else StateCode(phase)
      ensures phase == Ready ==> IsTillFile(State(), number, till, store, header, rows)
    {
      header, rows := Header(till, "", store, number, 0, 0, None), [];
      if phase != Ready {
        return StateCode(phase), header, rows;
      }
      var card := FirstCard();
      header := Header(till, CustomerCode(card), store, number, itemsNumber, TotalOf(totals, 0).amount, card);
      FirstCardIs(loyCards);
      CustomerCodeIs(card);
      var left := barcodes.Keys;
      while left != {}
        invariant left <= barcodes.Keys && Sent(barcodes, left, rows)
        decreases |left|
      {
        ghost var least := Least(left);
        var barcode :| barcode in left && forall x :: x in left ==> barcode <= x;
        var quantity := barcodes[barcode];
        SentStep(barcodes, left, rows, barcode);
        rows := SendLine(rows, barcode, quantity);
        left := left - {barcode};
      }
      rc := RC_OK;
    }
  }
}
