/** Equations between cart operations: voids undo adds, and adds may come in any order. */
module CartAlgebra {
  import opened MapSum
  import opened CartModel
  import opened CartLaws

  function RemoveTimes(s: CartState, code: nat, dept: nat, barcode: nat, price: int, n: nat): CartState
    decreases n
  {
    if n == 0 then s else RemoveTimes(RemoveItem(s, code, dept, barcode, price, 0), code, dept, barcode, price, n - 1)
  }

  function RemoveCoreTimes(c: Core, code: nat, barcode: nat, n: nat): Core
    decreases n
  {
    if n == 0 then c else RemoveCoreTimes(RemoveCore(c, code, barcode), code, barcode, n - 1)
  }

  lemma {:induction false} RemoveManyCore(c: Core, code: nat, barcode: nat, n: nat)
    requires Accepting(c) && n >= 1
    requires code in c.rows && c.rows[code] >= n && barcode in c.barcodes && c.barcodes[barcode] >= n
    ensures RemoveCoreTimes(c, code, barcode, n) ==
            c.(rows := Put(c.rows, code, c.rows[code] - n),
               barcodes := Put(c.barcodes, barcode, c.barcodes[barcode] - n),
               itemsNumber := c.itemsNumber - n)
    decreases n
  {
    var c' := RemoveCore(c, code, barcode);
    if n == 1 {
      assert RemoveCoreTimes(c', code, barcode, 0) == c';
    } else {
      RemoveManyCore(c', code, barcode, n - 1);
      PutTwice(c.rows, code, c.rows[code] - 1, c.rows[code] - n);
      PutTwice(c.barcodes, barcode, c.barcodes[barcode] - 1, c.barcodes[barcode] - n);
    }
  }

  /** A charge shows in the grand total and in its own department's row, and nowhere else. */
  lemma ChargeShowsAt(totals: map<nat, Totals>, dept: nat, t: Totals, d: nat)
    requires dept != 0
    ensures var was := TotalOf(totals, d);
            TotalOf(ChargeBoth(totals, dept, t), d) ==
            if d == 0 || d == dept
            then Totals(was.items + t.items, was.amount + t.amount, was.discount + t.discount)
            else was
    ensures ChargeBoth(totals, dept, t).Keys == totals.Keys + {0, dept}
  {
  }

  lemma {:induction false} RemoveManyTotals(s: CartState, code: nat, dept: nat, barcode: nat, price: int, n: nat,
                                            d: nat)
    requires Accepting(s.core) && dept != 0 && code in s.core.rows && s.core.rows[code] >= n
    ensures var t, was := RemoveTimes(s, code, dept, barcode, price, n), TotalOf(s.totals, d);
            && t.core == RemoveCoreTimes(s.core, code, barcode, n)
            && TotalOf(t.totals, d) ==
               (if d == 0 || d == dept then Totals(was.items - n, was.amount - price * n, was.discount) else was)
            && (n > 0 ==> t.totals.Keys == s.totals.Keys + {0, dept})
    decreases n
  {
    if n > 0 {
      var s' := RemoveItem(s, code, dept, barcode, price, 0);
      ChargeShowsAt(s.totals, dept, Totals(-1, -(price - 0), -0), d);
      if n > 1 {
        RemoveManyTotals(s', code, dept, barcode, price, n - 1, d);
      } else {
        assert RemoveTimes(s', code, dept, barcode, price, 0) == s';
        assert RemoveCoreTimes(s'.core, code, barcode, 0) == s'.core;
      }
      assert price * n == price + price * (n - 1);
    }
  }

  lemma PutTwice(m: map<nat, int>, k: nat, v: int, w: int)
    ensures Put(Put(m, k, v), k, w) == Put(m, k, w)
  {
  }

  /** What an add and its voids leave of a total: all of it, but for how it splits into net and discount. */
  predicate Undone(was: Totals, now: Totals, discount: int) {
    now.items == was.items && now.discount == was.discount + discount && now.amount == was.amount - discount
  }

  lemma VoidsUndoTotals(s: CartState, code: nat, dept: nat, barcode: nat, price: int, discount: int, q: nat, d: nat)
    requires Accepting(s.core) && dept != 0 && q >= 1 && Positive(s.core.rows)
    ensures var t := RemoveTimes(AddItem(s, code, dept, barcode, q, price, discount), code, dept, barcode, price, q);
            && Undone(TotalOf(s.totals, d), TotalOf(t.totals, d), if d == 0 || d == dept then discount * q else 0)
            && t.totals.Keys == s.totals.Keys + {0, dept}
  {
    var a := AddItem(s, code, dept, barcode, q, price, discount);
    RemoveManyTotals(a, code, dept, barcode, price, q, d);
    ChargeShowsAt(s.totals, dept, Totals(q, (price - discount) * q, discount * q), d);
    assert (price - discount) * q == price * q - discount * q;
  }

  /**
   Adding q pieces and voiding them q times gives back every row, barcode count, counter, card and copy,
   and in the grand total and in every department the items and the gross amount; the discount given on the
   way in is not taken back. At most a row of zeros for the department is new.
   */
  lemma VoidsUndoAdds(s: CartState, code: nat, dept: nat, barcode: nat, price: int, discount: int, q: nat)
    requires Accepting(s.core) && dept != 0 && q >= 1
    requires Positive(s.core.rows) && Positive(s.core.barcodes)
    ensures var t := RemoveTimes(AddItem(s, code, dept, barcode, q, price, discount), code, dept, barcode, price, q);
            && t.core == s.core
            && Gross(t) == Gross(s)
            && t.totals.Keys == s.totals.Keys + {0, dept}
            && forall d: nat ::
                 Undone(TotalOf(s.totals, d), TotalOf(t.totals, d), if d == 0 || d == dept then discount * q else 0)
  {
    var c, a := s.core, AddItem(s, code, dept, barcode, q, price, discount);
    RemoveManyCore(a.core, code, barcode, q);
    RemoveManyTotals(a, code, dept, barcode, price, q, 0);
    PutBack(c.rows, code, q);
    PutBack(c.barcodes, barcode, q);
    forall d: nat
      ensures var t := RemoveTimes(a, code, dept, barcode, price, q);
              && Undone(TotalOf(s.totals, d), TotalOf(t.totals, d), if d == 0 || d == dept then discount * q else 0)
              && t.totals.Keys == s.totals.Keys + {0, dept}
    {
      VoidsUndoTotals(s, code, dept, barcode, price, discount, q, d);
    }
    VoidsUndoTotals(s, code, dept, barcode, price, discount, q, 0);
  }

  lemma PutBack(m: map<nat, int>, k: nat, q: nat)
    requires Positive(m)
    ensures Put(Bump(m, k, q), k, Get(m, k)) == m
  {
    if k in m {
      assert m[k := m[k]] == m;
    } else {
      assert m[k := q] - {k} == m;
    }
  }

  // ----- order of adds

  lemma CountsCommute(m: map<nat, int>, j: nat, p: int, k: nat, q: int)
    ensures Bump(Bump(m, j, p), k, q) == Bump(Bump(m, k, q), j, p)
  {
  }

  lemma ChargesCommute(totals: map<nat, Totals>, d: nat, t: Totals, e: nat, u: Totals)
    ensures Charge(Charge(totals, d, t), e, u) == Charge(Charge(totals, e, u), d, t)
  {
  }

  lemma ChargeBothCommute(totals: map<nat, Totals>, d: nat, t: Totals, e: nat, u: Totals)
    ensures ChargeBoth(ChargeBoth(totals, d, t), e, u) == ChargeBoth(ChargeBoth(totals, e, u), d, t)
  {
    var z := Charge(totals, 0, t);
    calc {
      Charge(Charge(Charge(z, d, t), 0, u), e, u);
      { ChargesCommute(z, d, t, 0, u); }
      Charge(Charge(Charge(z, 0, u), d, t), e, u);
      { ChargesCommute(Charge(z, 0, u), d, t, e, u); }
      Charge(Charge(Charge(z, 0, u), e, u), d, t);
      { ChargesCommute(totals, 0, t, 0, u); }
      Charge(Charge(Charge(Charge(totals, 0, u), 0, t), e, u), d, t);
      { ChargesCommute(Charge(totals, 0, u), 0, t, e, u); }
      Charge(Charge(Charge(Charge(totals, 0, u), e, u), 0, t), d, t);
    }
  }

  lemma AddCoresCommute(c: Core, a: Op, b: Op)
    requires a.Add? && b.Add?
    ensures AddCore(AddCore(c, a.code, a.barcode, a.quantity), b.code, b.barcode, b.quantity) ==
            AddCore(AddCore(c, b.code, b.barcode, b.quantity), a.code, a.barcode, a.quantity)
  {
    CountsCommute(c.rows, a.code, a.quantity, b.code, b.quantity);
    CountsCommute(c.barcodes, a.barcode, a.quantity, b.barcode, b.quantity);
  }

  function ChargeOf(op: Op): Totals
    requires op.Add?
  {
    Totals(op.quantity, (op.price - op.discount) * op.quantity, op.discount * op.quantity)
  }

  lemma AddIs(s: CartState, a: Op)
    requires a.Add? && Accepting(s.core)
    ensures Apply(s, a) == CartState(AddCore(s.core, a.code, a.barcode, a.quantity),
            ChargeBoth(s.totals, a.dept, ChargeOf(a)))
    ensures Accepting(Apply(s, a).core)
  {
  }

  lemma AddsCommute(s: CartState, a: Op, b: Op)
    requires a.Add? && b.Add?
    ensures Apply(Apply(s, a), b) == Apply(Apply(s, b), a)
  {
    if Accepting(s.core) {
      AddIs(s, a);
      AddIs(s, b);
      AddIs(Apply(s, a), b);
      AddIs(Apply(s, b), a);
      AddCoresCommute(s.core, a, b);
      ChargeBothCommute(s.totals, a.dept, ChargeOf(a), b.dept, ChargeOf(b));
    }
  }

  predicate AllAdds(ops: seq<Op>) {
    forall i :: 0 <= i < |ops| ==> ops[i].Add?
  }

  lemma {:induction false} MoveToFront(s: CartState, before: seq<Op>, a: Op, after: seq<Op>)
    requires AllAdds(before) && a.Add?
    ensures Run(s, before + [a] + after) == Run(Apply(s, a), before + after)
    decreases |before|
  {
    var ops := before + [a] + after;
    if before == [] {
      assert ops[1..] == after && before + after == after;
    } else {
      var b := before[0];
      assert ops[1..] == before[1..] + [a] + after;
      assert (before + after)[1..] == before[1..] + after;
      MoveToFront(Apply(s, b), before[1..], a, after);
      AddsCommute(s, b, a);
    }
  }

  lemma TakeOut(a: seq<Op>, b: seq<Op>) returns (i: nat)
    requires a != [] && multiset(a) == multiset(b)
    ensures i < |b| && b[i] == a[0]
    ensures multiset(a[1..]) == multiset(b[..i] + b[i + 1..])
  {
    assert a == [a[0]] + a[1..];
    assert a[0] in multiset(b);
    i :| 0 <= i < |b| && b[i] == a[0];
    assert b == b[..i] + [a[0]] + b[i + 1..];
    assert multiset(a[1..]) == multiset(a) - multiset{a[0]};
    assert multiset(b[..i] + b[i + 1..]) == multiset(b) - multiset{a[0]};
  }

  /** Any two orders of the same adds end in the same cart, totals of every department included. */
  lemma {:induction false} OrderOfAddsIsIrrelevant(s: CartState, a: seq<Op>, b: seq<Op>)
    requires AllAdds(a) && AllAdds(b) && multiset(a) == multiset(b)
    ensures Run(s, a) == Run(s, b)
    decreases |a|
  {
    if a == [] {
      assert |multiset(b)| == 0;
    } else {
      var i := TakeOut(a, b);
      var before, after := b[..i], b[i + 1..];
      assert b == before + [a[0]] + after;
      MoveToFront(s, before, a[0], after);
      OrderOfAddsIsIrrelevant(Apply(s, a[0]), a[1..], before + after);
    }
  }
}
