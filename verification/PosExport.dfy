/** The detail rows of the file sent to the till: one per piece, barcodes in ascending order. */
module PosExport {
  import opened MapSum
  import opened Options
  import opened Decimal
  import opened CartModel
  import opened CartLaws

  /** The header row, but for its timestamps: who and where, item count, net amount and loyalty card. */
  datatype Header = Header(
    till: nat,
    customer: string,
    store: string,
    cart: nat,
    items: int,
    amount: int,
    card: Option<nat>)

  /** Up to eight digits of the card after its first. */
  function CustomerCode(card: Option<nat>): string {
    match card
    case None => ""
    case Some(c) =>
      var digits := ToDecimal(c);
      digits[1..if |digits| < 9 then |digits| else 9]
  }

  ghost function FirstCardOf(slots: map<nat, nat>): Option<nat> {
    if slots == map[] then None else Some(slots[Least(slots.Keys)])
  }

  /** A card, if any, in a slot that no other slot is below. */
  predicate IsFirstCard(slots: map<nat, nat>, card: Option<nat>) {
    match card
    case None => slots == map[]
    case Some(c) => exists k :: k in slots && slots[k] == c && forall j :: j in slots ==> k <= j
  }

  /** Up to eight digits of the card's number, from its second one on. */
  predicate IsCustomerOf(customer: string, card: Option<nat>) {
    match card
    case None => customer == ""
    case Some(c) =>
      var digits := ToDecimal(c);
      && |customer| <= 8 && |customer| < |digits| && (|customer| < 8 ==> |customer| == |digits| - 1)
      && forall i :: 0 <= i < |customer| ==> customer[i] == digits[i + 1]
  }

  /**
   The file for the till: where from and where to, the item counter, the gross total less the discount that stands,
   the first card with its customer, and the detail rows.
   */
  ghost predicate IsTillFile(s: CartState, cart: nat, till: nat, store: string, header: Header, rows: seq<nat>) {
    && header.cart == cart && header.till == till && header.store == store
    && header.items == s.core.itemsNumber
    && header.amount + TotalOf(s.totals, 0).discount == Gross(s)
    && IsFirstCard(s.core.slots, header.card) && IsCustomerOf(header.customer, header.card)
    && Exports(s.core.barcodes, rows)
  }

  lemma FirstCardIs(slots: map<nat, nat>)
    ensures IsFirstCard(slots, FirstCardOf(slots))
  {
    if slots != map[] {
      var k := Least(slots.Keys);
      assert k in slots && slots[k] == FirstCardOf(slots).value;
    }
  }

  lemma CustomerCodeIs(card: Option<nat>)
    ensures IsCustomerOf(CustomerCode(card), card)
  {
  }

  predicate Ascending(out: seq<nat>) {
    forall i, j :: 0 <= i < j < |out| ==> out[i] <= out[j]
  }

  function Pieces(barcodes: map<nat, int>, b: nat): nat {
    if Get(barcodes, b) > 0 then Get(barcodes, b) else 0
  }

  ghost predicate Exports(barcodes: map<nat, int>, out: seq<nat>) {
    Ascending(out) && forall b: nat :: multiset(out)[b] == Pieces(barcodes, b)
  }

  function Copies(b: nat, n: nat): seq<nat> {
    if n == 0 then [] else Copies(b, n - 1) + [b]
  }

  /** Appending copies of a barcode not below what is there keeps the order and counts them. */
  lemma {:induction false} AppendCopies(rows: seq<nat>, b: nat, n: nat)
    requires Ascending(rows) && forall i :: 0 <= i < |rows| ==> rows[i] <= b
    ensures var out := rows + Copies(b, n);
            && Ascending(out)
            && (forall i :: 0 <= i < |out| ==> out[i] <= b)
            && multiset(out) == multiset(rows)[b := multiset(rows)[b] + n]
  {
    if n == 0 {
      assert rows + Copies(b, n) == rows;
    } else {
      AppendCopies(rows, b, n - 1);
      assert rows + Copies(b, n) == (rows + Copies(b, n - 1)) + [b];
    }
  }

  /** The rows sent so far: everything but the barcodes left, in order, and below them. */
  ghost predicate Sent(barcodes: map<nat, int>, left: set<nat>, rows: seq<nat>) {
    && Ascending(rows)
    && (forall i, x :: 0 <= i < |rows| && x in left ==> rows[i] <= x)
    && (forall b: nat :: multiset(rows)[b] == if b in left then 0 else Pieces(barcodes, b))
  }

  lemma SentStep(barcodes: map<nat, int>, left: set<nat>, rows: seq<nat>, b: nat)
    requires Sent(barcodes, left, rows) && b in left && forall x :: x in left ==> b <= x
    ensures Sent(barcodes, left - {b}, rows + Copies(b, Pieces(barcodes, b)))
  {
    AppendCopies(rows, b, Pieces(barcodes, b));
  }

  /** A multiset counted by a map has as many elements as the map's values sum to. */
  lemma {:induction false} SizeIsSum(out: multiset<nat>, m: map<nat, int>)
    requires Positive(m) && forall b: nat :: out[b] == Get(m, b)
    ensures |out| == Sum(m, Self)
    decreases |m|
  {
    if m == map[] {
      assert out == multiset{};
    } else {
      var k :| k in m;
      SumSplit(m, k, Self);
      assert (m - {k}).Keys == m.Keys - {k};
      SizeIsSum(out[k := 0], m - {k});
      assert out == out[k := 0] + multiset{}[k := out[k]];
    }
  }

  /** Pieces of a barcode added, less pieces voided. */
  function Net(s: CartState, ops: seq<Op>, b: nat): int
    decreases |ops|
  {
    if ops == [] then 0
    else
      var op := ops[0];
      (if op.Add? && Accepting(s.core) && op.barcode == b then op.quantity
       else if op.Remove? && Accepting(s.core) && op.code in s.core.rows && op.barcode == b then -1
       else 0) + Net(Apply(s, op), ops[1..], b)
  }

  /** Voids that named this barcode when the cart had none of it left. */
  function UnfaithfulVoidsBy(b: nat, s: CartState, ops: seq<Op>): nat
    decreases |ops|
  {
    if ops == [] then 0
    else (if Unfaithful(s.core, ops[0]) && ops[0].barcode == b then 1 else 0)
         + UnfaithfulVoidsBy(b, Apply(s, ops[0]), ops[1..])
  }

  /** A barcode's count is what was added less what was voided, but for the voids it could not follow. */
  lemma {:induction false} CountsAreNet(owner: nat -> nat, s: CartState, ops: seq<Op>, b: nat)
    requires CountsAgree(s) && RegularRun(owner, s, ops)
    ensures Get(Run(s, ops).core.barcodes, b) == Get(s.core.barcodes, b) + Net(s, ops, b) + UnfaithfulVoidsBy(b, s, ops)
    decreases |ops|
  {
    if ops != [] {
      CountsStep(owner, s, ops[0]);
      CountsAreNet(owner, Apply(s, ops[0]), ops[1..], b);
    }
  }

  /**
   The detail rows outnumber the header's item count by exactly the voids that named a barcode the cart
   did not hold; and each barcode appears once per piece added and not voided, and once more for each of
   those voids that named it.
   */
  lemma HeaderCountsDetailRows(owner: nat -> nat, ops: seq<Op>, out: seq<nat>)
    requires RegularRun(owner, Empty(Ready), ops)
    requires Exports(Run(Empty(Ready), ops).core.barcodes, out)
    ensures |out| == Run(Empty(Ready), ops).core.itemsNumber + UnfaithfulVoids(Empty(Ready), ops)
    ensures forall b: nat ::
              multiset(out)[b] == Net(Empty(Ready), ops, b) + UnfaithfulVoidsBy(b, Empty(Ready), ops)
  {
    var s0, s := Empty(Ready), Run(Empty(Ready), ops);
    EmptyAgrees(Ready);
    CountsAgreeOverRuns(owner, s0, ops);
    assert forall b: nat :: multiset(out)[b] == Get(s.core.barcodes, b);
    SizeIsSum(multiset(out), s.core.barcodes);
    forall b: nat
      ensures multiset(out)[b] == Net(s0, ops, b) + UnfaithfulVoidsBy(b, s0, ops)
    {
      CountsAreNet(owner, s0, ops, b);
    }
  }
}
