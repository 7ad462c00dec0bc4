/**
 What every run of cart operations keeps: the item rows, the barcode counts, the item counter, the
 totals and the money agree with one another.
 */
module CartLaws {
  import opened MapSum
  import opened CartModel

  /**
   An operation as the sales actions issue it: a positive quantity, departments other than 0 (the
   grand total's key) wherever the totals are touched, and a row keyed by the item its barcode stands
   for, which `owner` tells.
   */
  predicate Regular(owner: nat -> nat, c: Core, op: Op) {
    match op
    case Add(code, dept, barcode, quantity, _, _) => quantity >= 1 && dept != 0 && code == owner(barcode) && code != 0
    case Remove(code, dept, barcode, _, _) => code == owner(barcode) && (code in c.rows ==> dept != 0)
    case _ => true
  }

  predicate RegularRun(owner: nat -> nat, s: CartState, ops: seq<Op>)
    decreases |ops|
  {
    ops == [] || (Regular(owner, s.core, ops[0]) && RegularRun(owner, Apply(s, ops[0]), ops[1..]))
  }

  predicate Positive(m: map<nat, int>) {
    forall k :: k in m ==> m[k] >= 1
  }

  ghost predicate CoreCounts(c: Core) {
    && Positive(c.rows) && Positive(c.barcodes)
    && 0 !in c.rows
    && Sum(c.rows, Self) == c.itemsNumber
  }

  ghost predicate CountsAgree(s: CartState) {
    CoreCounts(s.core) && TotalOf(s.totals, 0).items == s.core.itemsNumber
  }

  // ----- voids that name a barcode the cart does not hold

  /** A void that finds its item but whose barcode has no count left: the barcode counts do not move. */
  predicate Unfaithful(c: Core, op: Op) {
    op.Remove? && Accepting(c) && op.code in c.rows && op.barcode !in c.barcodes
  }

  function UnfaithfulVoids(s: CartState, ops: seq<Op>): nat
    decreases |ops|
  {
    if ops == [] then 0
    else (if Unfaithful(s.core, ops[0]) then 1 else 0) + UnfaithfulVoids(Apply(s, ops[0]), ops[1..])
  }

  function UnfaithfulVoidsOf(item: nat, s: CartState, ops: seq<Op>): nat
    decreases |ops|
  {
    if ops == [] then 0
    else (if Unfaithful(s.core, ops[0]) && ops[0].code == item then 1 else 0)
         + UnfaithfulVoidsOf(item, Apply(s, ops[0]), ops[1..])
  }

  // ----- counts

  lemma ChargeBothAt(totals: map<nat, Totals>, d: nat, t: Totals)
    requires d != 0
    ensures TotalOf(ChargeBoth(totals, d, t), 0) ==
            Totals(TotalOf(totals, 0).items + t.items,
                   TotalOf(totals, 0).amount + t.amount,
                   TotalOf(totals, 0).discount + t.discount)
  {
  }

  lemma AddCounts(c: Core, code: nat, barcode: nat, quantity: nat)
    requires CoreCounts(c) && quantity >= 1 && code != 0
    ensures CoreCounts(AddCore(c, code, barcode, quantity))
    ensures Sum(AddCore(c, code, barcode, quantity).barcodes, Self) - AddCore(c, code, barcode, quantity).itemsNumber ==
            Sum(c.barcodes, Self) - c.itemsNumber
  {
    SumSet(c.rows, code, Get(c.rows, code) + quantity, Self);
    SumSet(c.barcodes, barcode, Get(c.barcodes, barcode) + quantity, Self);
  }

  lemma RemoveCounts(c: Core, code: nat, barcode: nat)
    requires CoreCounts(c) && Accepting(c) && code in c.rows
    ensures CoreCounts(RemoveCore(c, code, barcode))
    ensures Sum(RemoveCore(c, code, barcode).barcodes, Self) - RemoveCore(c, code, barcode).itemsNumber ==
            Sum(c.barcodes, Self) - c.itemsNumber + (if barcode in c.barcodes then 0 else 1)
  {
    SumPut(c.rows, code, c.rows[code] - 1);
    if barcode in c.barcodes {
      SumPut(c.barcodes, barcode, c.barcodes[barcode] - 1);
    } else {
      assert Put(c.barcodes, barcode, -1) == c.barcodes;
    }
  }

  lemma CountsStep(owner: nat -> nat, s: CartState, op: Op)
    requires CountsAgree(s) && Regular(owner, s.core, op)
    ensures CountsAgree(Apply(s, op))
    ensures Sum(Apply(s, op).core.barcodes, Self) - Apply(s, op).core.itemsNumber ==
            Sum(s.core.barcodes, Self) - s.core.itemsNumber + (if Unfaithful(s.core, op) then 1 else 0)
  {
    var c := s.core;
    match op
    case Add(code, dept, barcode, quantity, price, discount) =>
      AddCounts(c, code, barcode, quantity);
      ChargeBothAt(s.totals, dept, Totals(quantity, (price - discount) * quantity, discount * quantity));
    case Remove(code, dept, barcode, price, discount) =>
      if Accepting(c) && code in c.rows {
        RemoveCounts(c, code, barcode);
        ChargeBothAt(s.totals, dept, Totals(-1, -(price - discount), -discount));
      }
    case _ =>
  }

  /**
   Over every run, the item rows sum to the item counter and to the grand total's count, every row is
   at least one (so no counter ever goes below zero), and the barcode counts exceed the item counter
   by exactly the number of voids that named a barcode the cart did not hold.
   */
  lemma {:induction false} CountsAgreeOverRuns(owner: nat -> nat, s: CartState, ops: seq<Op>)
    requires CountsAgree(s) && RegularRun(owner, s, ops)
    ensures CountsAgree(Run(s, ops))
    ensures Sum(Run(s, ops).core.barcodes, Self) - Run(s, ops).core.itemsNumber ==
            Sum(s.core.barcodes, Self) - s.core.itemsNumber + UnfaithfulVoids(s, ops)
    decreases |ops|
  {
    if ops != [] {
      CountsStep(owner, s, ops[0]);
      CountsAgreeOverRuns(owner, Apply(s, ops[0]), ops[1..]);
    }
  }

  /** The states' numbers. */
  lemma StateCodes()
    ensures StateCode(Ready) == 20000 && StateCode(Closed) == 20020
    ensures StateCode(Loading) == 20030 && StateCode(Voided) == 20097
  {
  }

  lemma EmptyAgrees(phase: Phase)
    ensures CountsAgree(Empty(phase))
    ensures Sum(Empty(phase).core.barcodes, Self) == 0
  {
  }

  // ----- counts per item

  ghost function OfItem(owner: nat -> nat, barcodes: map<nat, int>, item: nat): map<nat, int> {
    map b | b in barcodes && owner(b) == item :: barcodes[b]
  }

  ghost function Surplus(owner: nat -> nat, c: Core, item: nat): int {
    Sum(OfItem(owner, c.barcodes, item), Self) - Get(c.rows, item)
  }

  lemma AddSurplus(owner: nat -> nat, c: Core, code: nat, barcode: nat, quantity: nat, item: nat)
    requires code == owner(barcode)
    ensures Surplus(owner, AddCore(c, code, barcode, quantity), item) == Surplus(owner, c, item)
  {
    var before := OfItem(owner, c.barcodes, item);
    var after := OfItem(owner, AddCore(c, code, barcode, quantity).barcodes, item);
    if Accepting(c) && code == item {
      assert after == before[barcode := Get(before, barcode) + quantity];
      SumSet(before, barcode, Get(before, barcode) + quantity, Self);
    } else {
      assert after == before;
    }
  }

  lemma RemoveSurplus(owner: nat -> nat, c: Core, code: nat, barcode: nat, item: nat)
    requires CoreCounts(c) && Accepting(c) && code in c.rows && code == owner(barcode)
    ensures Surplus(owner, RemoveCore(c, code, barcode), item) ==
            Surplus(owner, c, item) + (if barcode !in c.barcodes && code == item then 1 else 0)
  {
    var before := OfItem(owner, c.barcodes, item);
    var after := OfItem(owner, RemoveCore(c, code, barcode).barcodes, item);
    if code == item && barcode in c.barcodes {
      assert after == Put(before, barcode, before[barcode] - 1);
      SumPut(before, barcode, before[barcode] - 1);
    } else {
      assert after == before;
    }
  }

  /**
   For each item, the counts of its barcodes exceed its row by exactly the voids of that item that
   named a barcode the cart did not hold.
   */
  lemma {:induction false} ItemRowIsItsBarcodes(owner: nat -> nat, s: CartState, ops: seq<Op>, item: nat)
    requires CountsAgree(s) && RegularRun(owner, s, ops)
    ensures Surplus(owner, Run(s, ops).core, item) == Surplus(owner, s.core, item) + UnfaithfulVoidsOf(item, s, ops)
    decreases |ops|
  {
    if ops != [] {
      CountsStep(owner, s, ops[0]);
      match ops[0] {
        case Add(code, _, barcode, quantity, _, _) =>
          AddSurplus(owner, s.core, code, barcode, quantity, item);
        case Remove(code, _, barcode, _, _) =>
          if Accepting(s.core) && code in s.core.rows {
            RemoveSurplus(owner, s.core, code, barcode, item);
          }
        case _ =>
      }
      ItemRowIsItsBarcodes(owner, Apply(s, ops[0]), ops[1..], item);
    }
  }

  // ----- departments

  function Items(t: Totals): int { t.items }
  function Amount(t: Totals): int { t.amount }
  function Discount(t: Totals): int { t.discount }

  /** The grand total is, in items, amount and discount, the sum of the departments' rows. */
  ghost predicate Partitioned(totals: map<nat, Totals>) {
    var g := TotalOf(totals, 0);
    && g.items == Sum(totals - {0}, Items)
    && g.amount == Sum(totals - {0}, Amount)
    && g.discount == Sum(totals - {0}, Discount)
  }

  lemma ChargeKeepsPartition(totals: map<nat, Totals>, d: nat, t: Totals)
    requires Partitioned(totals) && d != 0
    ensures Partitioned(ChargeBoth(totals, d, t))
  {
    var depts := totals - {0};
    var after := Charge(depts, d, t);
    assert ChargeBoth(totals, d, t) - {0} == after;
    SumSet(depts, d, after[d], Items);
    SumSet(depts, d, after[d], Amount);
    SumSet(depts, d, after[d], Discount);
  }

  lemma PartitionStep(owner: nat -> nat, s: CartState, op: Op)
    requires Partitioned(s.totals) && Regular(owner, s.core, op)
    ensures Partitioned(Apply(s, op).totals)
  {
    var totals, totals' := s.totals, Apply(s, op).totals;
    match op
    case Add(code, dept, _, quantity, price, discount) =>
      var t := Totals(quantity, (price - discount) * quantity, discount * quantity);
      ChargeKeepsPartition(totals, dept, t);
      assert totals' == totals || totals' == ChargeBoth(totals, dept, t);
    case Remove(code, dept, _, price, discount) =>
      var t := Totals(-1, -(price - discount), -discount);
      if code in s.core.rows {
        ChargeKeepsPartition(totals, dept, t);
      }
      assert totals' == totals || totals' == ChargeBoth(totals, dept, t);
    case _ => assert totals' == totals;
  }

  /** Whatever the operations, unfaithful voids and department changes included, the partition holds. */
  lemma {:induction false} DepartmentsPartitionTheTotal(owner: nat -> nat, s: CartState, ops: seq<Op>)
    requires Partitioned(s.totals) && RegularRun(owner, s, ops)
    ensures Partitioned(Run(s, ops).totals)
    decreases |ops|
  {
    if ops != [] {
      PartitionStep(owner, s, ops[0]);
      DepartmentsPartitionTheTotal(owner, Apply(s, ops[0]), ops[1..]);
    }
  }

  lemma EmptyIsPartitioned(phase: Phase)
    ensures Partitioned(Empty(phase).totals)
  {
    assert Empty(phase).totals - {0} == map[];
  }
}
