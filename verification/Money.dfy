/** With prices frozen, the gross grand total is the worth of the lines in the cart. */
module Money {
  import opened Catalogue
  import opened MapSum
  import opened CartModel
  import opened CartLaws
  import opened Recovery

  ghost function Lines(cfg: Scheme, c: Core): map<nat, int> {
    map b | b in c.barcodes :: c.barcodes[b] * LinePrice(cfg, c.frozen, b)
  }

  /** The sum over the barcodes of count times price. */
  ghost function Worth(cfg: Scheme, c: Core): int {
    Sum(Lines(cfg, c), Self)
  }

  /** What the lines' worth moves by: the line price of what is added or taken out. */
  function LineCharge(cfg: Scheme, c: Core, op: Op): int {
    if op.Add? && Accepting(c) then LinePrice(cfg, c.frozen, op.barcode) * op.quantity
    else if op.Remove? && Accepting(c) && op.code in c.rows && op.barcode in c.barcodes
    then -LinePrice(cfg, c.frozen, op.barcode)
    else 0
  }

  lemma SetLine(cfg: Scheme, c: Core, c': Core, b: nat, n: int)
    requires c'.frozen == c.frozen && c'.barcodes == c.barcodes[b := n]
    ensures Worth(cfg, c') == Worth(cfg, c) + (n - Get(c.barcodes, b)) * LinePrice(cfg, c.frozen, b)
  {
    var p, m := LinePrice(cfg, c.frozen, b), Get(c.barcodes, b);
    var was, now := m * p, n * p;
    assert Lines(cfg, c') == Lines(cfg, c)[b := now];
    assert b in c.barcodes ==> Lines(cfg, c)[b] == was;
    SumSet(Lines(cfg, c), b, now, Self);
    Difference(n, m, p);
  }

  lemma Difference(n: int, m: int, p: int)
    ensures (n - m) * p == n * p - m * p
    ensures m == 0 ==> m * p == 0
  {
  }

  lemma SameLines(cfg: Scheme, c: Core, c': Core)
    requires c'.frozen == c.frozen && c'.barcodes == c.barcodes
    ensures Worth(cfg, c') == Worth(cfg, c)
  {
    assert Lines(cfg, c') == Lines(cfg, c);
  }

  lemma EraseLine(cfg: Scheme, c: Core, c': Core, b: nat)
    requires c'.frozen == c.frozen && c'.barcodes == c.barcodes - {b}
    ensures Worth(cfg, c') == Worth(cfg, c) - Get(c.barcodes, b) * LinePrice(cfg, c.frozen, b)
  {
    assert Lines(cfg, c') == Lines(cfg, c) - {b};
    SumErase(Lines(cfg, c), b, Self);
  }

  lemma RemoveWorth(cfg: Scheme, c: Core, code: nat, b: nat)
    requires Accepting(c) && code in c.rows && Positive(c.barcodes)
    ensures Worth(cfg, RemoveCore(c, code, b)) ==
            Worth(cfg, c) - (if b in c.barcodes then LinePrice(cfg, c.frozen, b) else 0)
  {
    var c', n := RemoveCore(c, code, b), Get(c.barcodes, b) - 1;
    if n < 1 {
      EraseLine(cfg, c, c', b);
    } else {
      SetLine(cfg, c, c', b, n);
    }
  }

  /** Freezing one more item changes no line: the lines' items are frozen already. */
  lemma FreezeWorth(cfg: Scheme, c: Core, item: Item)
    requires Covered(cfg, c) && !cfg.priceChanges
    ensures Worth(cfg, FreezeCore(c, item)) == Worth(cfg, c)
  {
    assert Lines(cfg, FreezeCore(c, item)) == Lines(cfg, c);
  }

  lemma AddWorth(cfg: Scheme, c: Core, code: nat, b: nat, quantity: nat)
    requires Accepting(c)
    ensures Worth(cfg, AddCore(c, code, b, quantity)) == Worth(cfg, c) + LinePrice(cfg, c.frozen, b) * quantity
  {
    var n, c' := Get(c.barcodes, b) + quantity, AddCore(c, code, b, quantity);
    assert c'.frozen == c.frozen && c'.barcodes == c.barcodes[b := n];
    SetLine(cfg, c, c', b, n);
    Times(n - Get(c.barcodes, b), quantity, LinePrice(cfg, c.frozen, b));
  }

  lemma Times(m: int, q: int, p: int)
    requires m == q
    ensures m * p == p * q
  {
  }

  lemma WorthStep(cfg: Scheme, s: CartState, op: Op)
    requires Inv(cfg, s.core) && Sound(cfg, s.core, op) && !cfg.priceChanges
    ensures Worth(cfg, Apply(s, op).core) == Worth(cfg, s.core) + LineCharge(cfg, s.core, op)
  {
    var c, c' := s.core, Apply(s, op).core;
    match op
    case Freeze(item, _) => FreezeWorth(cfg, c, item);
    case Add(code, _, b, quantity, _, _) =>
      if Accepting(c) {
        AddWorth(cfg, c, code, b, quantity);
        assert c' == AddCore(c, code, b, quantity);
      }
    case Remove(code, _, b, _, _) =>
      if Accepting(c) && code in c.rows {
        RemoveWorth(cfg, c, code, b);
        assert c' == RemoveCore(c, code, b);
      }
    case _ => SameLines(cfg, c, c');
  }

  /** The value of voids that took money out of the total but no count off a barcode. */
  function UnfaithfulValue(cfg: Scheme, s: CartState, ops: seq<Op>): int
    decreases |ops|
  {
    if ops == [] then 0
    else (if Unfaithful(s.core, ops[0]) then LinePrice(cfg, s.core.frozen, ops[0].barcode) else 0)
         + UnfaithfulValue(cfg, Apply(s, ops[0]), ops[1..])
  }

  lemma ChargeSplits(cfg: Scheme, c: Core, op: Op)
    ensures OpGross(c, op) == LineCharge(cfg, c, op) + Drift(cfg, c, op)
                              - (if Unfaithful(c, op) then LinePrice(cfg, c.frozen, op.barcode) else 0)
  {
    if op.Add? && Accepting(c) {
      var p := LinePrice(cfg, c.frozen, op.barcode);
      assert (op.price - p) * op.quantity == op.price * op.quantity - p * op.quantity;
    }
  }

  /**
   Over every run, catalogue changes in between included, the gross total differs from the worth of the
   lines by the drift of linked items, less the value of the unfaithful voids: nothing else moves money.
   */
  lemma {:induction false} GrossIsWorth(cfg: Scheme, s: CartState, ops: seq<Op>)
    requires Inv(cfg, s.core) && SoundRun(cfg, s, ops) && !cfg.priceChanges
    ensures Gross(Run(s, ops)) - Worth(cfg, Run(s, ops).core) ==
            Gross(s) - Worth(cfg, s.core) + TotalDrift(cfg, s, ops) - UnfaithfulValue(cfg, s, ops)
    decreases |ops|
  {
    if ops != [] {
      WorthStep(cfg, s, ops[0]);
      InvStep(cfg, s, ops[0]);
      GrossStep(cfg.owner, s, ops[0]);
      ChargeSplits(cfg, s.core, ops[0]);
      GrossIsWorth(cfg, Apply(s, ops[0]), ops[1..]);
    }
  }

  lemma WorthOfPositivePrices(cfg: Scheme, c: Core)
    requires Positive(c.barcodes) && forall b :: b in c.barcodes ==> LinePrice(cfg, c.frozen, b) >= 0
    ensures Worth(cfg, c) >= 0
  {
    forall b | b in c.barcodes
      ensures Lines(cfg, c)[b] >= 0
    {
      ProductNotNegative(c.barcodes[b], LinePrice(cfg, c.frozen, b));
    }
    SumAtLeast(Lines(cfg, c), 0);
  }

  lemma ProductNotNegative(a: int, b: int)
    requires a >= 0 && b >= 0
    ensures a * b >= 0
  {
  }
}
