/** The loyalty card slots of one cart under a fixed limit. */
module LoyaltySlots {
  import opened CartModel

  predicate Distinct(slots: map<nat, nat>) {
    forall j, k :: j in slots && k in slots && slots[j] == slots[k] ==> j == k
  }

  /** No card twice, every slot below the limit, and the counter between the stored cards and the limit. */
  predicate SlotsOk(c: Core, limit: nat) {
    && Distinct(c.slots)
    && (forall k :: k in c.slots ==> k < limit)
    && |c.slots| <= c.cardsNumber <= limit
  }

  lemma AtMostOneFreed(slots: map<nat, nat>, card: nat)
    requires Distinct(slots)
    ensures 0 <= FreedSlots(slots, card) <= 1
    ensures FreedSlots(slots, card) == 0 <==> WithoutCard(slots, card) == slots
  {
    var after := WithoutCard(slots, card);
    if k :| k in slots && slots[k] == card {
      assert forall j :: j in slots && slots[j] == card ==> j == k;
      assert after == slots - {k};
      assert (slots - {k}).Keys == slots.Keys - {k};
    } else {
      assert forall j :: j in slots ==> slots[j] != card;
      assert after == slots;
    }
  }

  lemma AddKeepsSlots(c: Core, card: nat, limit: nat)
    requires SlotsOk(c, limit)
    ensures SlotsOk(AddCardCore(c, card, limit), limit)
  {
    if CardFits(c, card, limit) {
      var after := c.slots[c.cardsNumber := card];
      assert after.Keys == c.slots.Keys + {c.cardsNumber};
    }
  }

  lemma RemoveKeepsSlots(c: Core, card: nat, limit: nat)
    requires SlotsOk(c, limit)
    ensures SlotsOk(RemoveCardCore(c, card), limit)
  {
    AtMostOneFreed(c.slots, card);
    assert Less(c.cardsNumber, 0) == c.cardsNumber;
  }

  predicate FixedLimit(ops: seq<Op>, limit: nat) {
    forall i :: 0 <= i < |ops| && ops[i].AddCard? ==> ops[i].limit == limit
  }

  /** Under one limit the slots stay in order over every run, although a freed slot can be reused. */
  lemma {:induction false} SlotsOkOverRuns(s: CartState, ops: seq<Op>, limit: nat)
    requires SlotsOk(s.core, limit) && FixedLimit(ops, limit)
    ensures SlotsOk(Run(s, ops).core, limit)
    decreases |ops|
  {
    if ops != [] {
      match ops[0] {
        case AddCard(card, _) => AddKeepsSlots(s.core, card, limit);
        case RemoveCard(card) => RemoveKeepsSlots(s.core, card, limit);
        case _ =>
      }
      SlotsOkOverRuns(Apply(s, ops[0]), ops[1..], limit);
    }
  }

  predicate Holds(c: Core, card: nat) {
    exists k :: k in c.slots && c.slots[k] == card
  }

  /**
   Storing a card keeps every card stored before exactly when the slot the counter points at is free;
   otherwise the card in that slot is lost.
   */
  lemma StoringKeepsOthersIffSlotFree(c: Core, card: nat, limit: nat)
    requires SlotsOk(c, limit) && CardFits(c, card, limit)
    ensures (forall x :: Holds(c, x) ==> Holds(AddCardCore(c, card, limit), x)) <==> c.cardsNumber !in c.slots
  {
    var c' := AddCardCore(c, card, limit);
    if c.cardsNumber in c.slots {
      var lost := c.slots[c.cardsNumber];
      assert Holds(c, lost);
      assert !Holds(c', lost);
    } else {
      forall x | Holds(c, x)
        ensures Holds(c', x)
      {
        var k :| k in c.slots && c.slots[k] == x;
        assert k in c'.slots && c'.slots[k] == x;
      }
    }
  }

  /** Two cards, the first removed, a third added: the second one is gone. */
  lemma FreedSlotLosesACard()
    ensures var c0 := Empty(Ready).core;
            var c1 := AddCardCore(AddCardCore(c0, 1, 2), 2, 2);
            var c2 := AddCardCore(RemoveCardCore(c1, 1), 3, 2);
            Holds(c1, 2) && !Holds(c2, 2) && c2.slots == map[1 := 3] && c2.cardsNumber == 2
  {
    var c0 := Empty(Ready).core;
    var c1 := AddCardCore(AddCardCore(c0, 1, 2), 2, 2);
    assert c1.slots == map[0 := 1, 1 := 2];
    assert c1.slots[1] == 2;
    assert WithoutCard(c1.slots, 1) == map[1 := 2];
    assert c1.cardsNumber == 2 && Less(2, 1) == 1;
    assert RemoveCardCore(c1, 1).slots == map[1 := 2] && RemoveCardCore(c1, 1).cardsNumber == 1;
  }
}
