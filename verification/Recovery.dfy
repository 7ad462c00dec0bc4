/**
 Crash recovery: replaying a transaction file through the cart's own operations, and the proof that
 the replayed cart is the cart that wrote the file.
 */
module Recovery {
  import opened Catalogue
  import opened Options
  import opened CartModel
  import opened CartLaws
  import opened LoyaltySlots

  /** What replay needs to know besides the file: whose barcode it is, the price inside it, and two settings. */
  datatype Scheme = Scheme(owner: nat -> nat, embedded: nat -> Option<int>, priceChanges: bool, cardLimit: nat)

  function Charged(cfg: Scheme, frozen: map<nat, Item>, item: Item, barcode: nat): int {
    match cfg.embedded(barcode)
    case Some(p) => p
    case None => if !cfg.priceChanges && item.code in frozen then frozen[item.code].price else item.price
  }

  // ----- replay

  /** The operation a row is replayed as, at the catalogue's department and with no discount. */
  function RowOps(cfg: Scheme, items: map<nat, Item>, c: Core, row: LogRow): seq<Op> {
    match row
    case DepartmentRow(_) => []
    case ItemRow(item) => if cfg.priceChanges then [] else [Freeze(item, NO_DEPARTMENT)]
    case AddRow(b, q) =>
      var item := Lookup(items, cfg.owner(b), NO_ITEM);
      [Add(cfg.owner(b), item.department, b, q, Charged(cfg, c.frozen, item, b), 0)]
    case VoidRow(b) =>
      var item := Lookup(items, cfg.owner(b), NO_ITEM);
      [Remove(cfg.owner(b), item.department, b, Charged(cfg, c.frozen, item, b), 0)]
    case CardAddRow(card) => [AddCard(card, cfg.cardLimit)]
    case CardVoidRow(card) => [RemoveCard(card)]
    case CartVoidRow => [VoidAll]
  }

  function ReplayRow(cfg: Scheme, items: map<nat, Item>, s: CartState, row: LogRow): CartState {
    var ops := RowOps(cfg, items, s.core, row);
    if ops == [] then s else Apply(s, ops[0])
  }

  function Replay(cfg: Scheme, items: map<nat, Item>, s: CartState, log: seq<LogRow>): CartState
    decreases |log|
  {
    if log == [] then s else Replay(cfg, items, ReplayRow(cfg, items, s, log[0]), log[1..])
  }

  function Finish(s: CartState): CartState {
    if s.core.phase == Voided || s.core.phase == Closed then s else s.(core := s.core.(phase := Ready))
  }

  function Recover(cfg: Scheme, items: map<nat, Item>, log: seq<LogRow>): CartState {
    Finish(Replay(cfg, items, Empty(Loading), log))
  }

  // ----- the same replay on the part of the cart that needs no catalogue

  function CoreRow(cfg: Scheme, c: Core, row: LogRow): Core {
    match row
    case DepartmentRow(_) => c
    case ItemRow(item) => if cfg.priceChanges then c else FreezeCore(c, item)
    case AddRow(b, q) => AddCore(c, cfg.owner(b), b, q)
    case VoidRow(b) => RemoveCore(c, cfg.owner(b), b)
    case CardAddRow(card) => AddCardCore(c, card, cfg.cardLimit)
    case CardVoidRow(card) => RemoveCardCore(c, card)
    case CartVoidRow => VoidCore(c)
  }

  function CoreReplay(cfg: Scheme, c: Core, log: seq<LogRow>): Core
    decreases |log|
  {
    if log == [] then c else CoreReplay(cfg, CoreRow(cfg, c, log[0]), log[1..])
  }

  lemma {:induction false} ReplayIsCoreReplay(cfg: Scheme, items: map<nat, Item>, s: CartState, log: seq<LogRow>)
    ensures Replay(cfg, items, s, log).core == CoreReplay(cfg, s.core, log)
    decreases |log|
  {
    if log != [] {
      ReplayIsCoreReplay(cfg, items, ReplayRow(cfg, items, s, log[0]), log[1..]);
    }
  }

  // ----- money

  /** The price of one piece of a barcode in a cart: embedded in it, or the private copy's. */
  function LinePrice(cfg: Scheme, frozen: map<nat, Item>, barcode: nat): int {
    match cfg.embedded(barcode)
    case Some(p) => p
    case None => if cfg.owner(barcode) in frozen then frozen[cfg.owner(barcode)].price else 0
  }

  function RowGross(cfg: Scheme, c: Core, row: LogRow): int {
    if row.AddRow? && Accepting(c) then LinePrice(cfg, c.frozen, row.barcode) * row.quantity
    else if row.VoidRow? && Accepting(c) && cfg.owner(row.barcode) in c.rows then -LinePrice(cfg, c.frozen, row.barcode)
    else 0
  }

  /** The gross total a transaction file stands for, with no catalogue at hand. */
  function LogGross(cfg: Scheme, c: Core, log: seq<LogRow>): int
    decreases |log|
  {
    if log == [] then 0 else RowGross(cfg, c, log[0]) + LogGross(cfg, CoreRow(cfg, c, log[0]), log[1..])
  }

  /** What an operation adds to amount plus discount. */
  function OpGross(c: Core, op: Op): int {
    if op.Add? && Accepting(c) then op.price * op.quantity
    else if op.Remove? && Accepting(c) && op.code in c.rows then -op.price
    else 0
  }

  lemma GrossStep(owner: nat -> nat, s: CartState, op: Op)
    requires Regular(owner, s.core, op)
    ensures Gross(Apply(s, op)) == Gross(s) + OpGross(s.core, op)
  {
    match op
    case Add(code, dept, barcode, quantity, price, discount) =>
      ChargeBothAt(s.totals, dept, Totals(quantity, (price - discount) * quantity, discount * quantity));
      assert (price - discount) * quantity + discount * quantity == price * quantity;
    case Remove(code, dept, barcode, price, discount) =>
      if code in s.core.rows {
        ChargeBothAt(s.totals, dept, Totals(-1, -(price - discount), -discount));
      }
    case _ =>
  }

  // ----- what the cart keeps at every step

  /** Every line's item is in the private copy, so its price can no longer change. */
  predicate Covered(cfg: Scheme, c: Core) {
    !cfg.priceChanges ==>
      && (forall k :: k in c.rows ==> k in c.frozen)
      && (forall b :: b in c.barcodes ==> cfg.owner(b) in c.frozen)
  }

  ghost predicate Inv(cfg: Scheme, c: Core) {
    CoreCounts(c) && Covered(cfg, c) && SlotsOk(c, cfg.cardLimit) && c.phase != Closed
  }

  /** An operation the sales actions may issue on this cart. */
  predicate Sound(cfg: Scheme, c: Core, op: Op) {
    && Regular(cfg.owner, c, op)
    && (op.Freeze? ==> !cfg.priceChanges)
    && (op.Add? && !cfg.priceChanges ==> op.code in c.frozen)
    && (op.AddCard? ==> op.limit == cfg.cardLimit)
  }

  predicate SoundRun(cfg: Scheme, s: CartState, ops: seq<Op>)
    decreases |ops|
  {
    ops == [] || (Sound(cfg, s.core, ops[0]) && SoundRun(cfg, Apply(s, ops[0]), ops[1..]))
  }

  lemma EmptyInv(cfg: Scheme, phase: Phase)
    requires phase != Closed
    ensures Inv(cfg, Empty(phase).core)
  {
  }

  lemma InvStep(cfg: Scheme, s: CartState, op: Op)
    requires Inv(cfg, s.core) && Sound(cfg, s.core, op)
    ensures Inv(cfg, Apply(s, op).core)
  {
    var c := s.core;
    match op
    case Freeze(_, _) =>
    case Add(code, _, barcode, quantity, _, _) => AddCounts(c, code, barcode, quantity);
    case Remove(code, _, barcode, _, _) =>
      if Accepting(c) && code in c.rows {
        RemoveCounts(c, code, barcode);
      }
    case AddCard(card, limit) => AddKeepsSlots(c, card, limit);
    case RemoveCard(card) => RemoveKeepsSlots(c, card, cfg.cardLimit);
    case VoidAll =>
  }

  // ----- rows a cart may have written

  /** No row follows the one that voids the cart. */
  predicate RowOk(cfg: Scheme, c: Core, row: LogRow) {
    && Accepting(c)
    && match row
       case AddRow(b, q) => q >= 1 && cfg.owner(b) != 0 && (!cfg.priceChanges ==> cfg.owner(b) in c.frozen)
       case VoidRow(b) => cfg.owner(b) in c.rows
       case _ => true
  }

  predicate LogOk(cfg: Scheme, c: Core, log: seq<LogRow>)
    decreases |log|
  {
    log == [] || (RowOk(cfg, c, log[0]) && LogOk(cfg, CoreRow(cfg, c, log[0]), log[1..]))
  }

  /** Every barcode's item is in the catalogue, under its own code and in a department of its own. */
  ghost predicate Complete(cfg: Scheme, items: map<nat, Item>) {
    forall b: nat :: cfg.owner(b) != 0 ==>
      var item := Lookup(items, cfg.owner(b), NO_ITEM);
      item.code == cfg.owner(b) && item.department != 0
  }

  lemma RowsReplaySoundly(cfg: Scheme, items: map<nat, Item>, s: CartState, row: LogRow)
    requires Complete(cfg, items) && Inv(cfg, s.core) && RowOk(cfg, s.core, row)
    ensures var ops := RowOps(cfg, items, s.core, row); ops != [] ==> Sound(cfg, s.core, ops[0])
    ensures !cfg.priceChanges ==> Gross(ReplayRow(cfg, items, s, row)) == Gross(s) + RowGross(cfg, s.core, row)
    ensures Inv(cfg, CoreRow(cfg, s.core, row))
  {
    var ops := RowOps(cfg, items, s.core, row);
    if ops != [] {
      if row.VoidRow? {
        assert cfg.owner(row.barcode) != 0;
      }
      GrossStep(cfg.owner, s, ops[0]);
      InvStep(cfg, s, ops[0]);
    }
  }

  /** Under any complete catalogue, a file replays to the gross total it stands for. */
  lemma {:induction false} ReplayGross(cfg: Scheme, items: map<nat, Item>, s: CartState, log: seq<LogRow>)
    requires Complete(cfg, items) && Inv(cfg, s.core) && LogOk(cfg, s.core, log)
    ensures Inv(cfg, CoreReplay(cfg, s.core, log))
    ensures !cfg.priceChanges ==> Gross(Replay(cfg, items, s, log)) == Gross(s) + LogGross(cfg, s.core, log)
    decreases |log|
  {
    if log != [] {
      RowsReplaySoundly(cfg, items, s, log[0]);
      ReplayGross(cfg, items, ReplayRow(cfg, items, s, log[0]), log[1..]);
    }
  }

  lemma {:induction false} CoreReplayConcat(cfg: Scheme, c: Core, a: seq<LogRow>, b: seq<LogRow>)
    ensures CoreReplay(cfg, c, a + b) == CoreReplay(cfg, CoreReplay(cfg, c, a), b)
    ensures LogGross(cfg, c, a + b) == LogGross(cfg, c, a) + LogGross(cfg, CoreReplay(cfg, c, a), b)
    ensures LogOk(cfg, c, a + b) <==> LogOk(cfg, c, a) && LogOk(cfg, CoreReplay(cfg, c, a), b)
    decreases |a|
  {
    if a == [] {
      assert a + b == b;
    } else {
      assert (a + b)[1..] == a[1..] + b;
      CoreReplayConcat(cfg, CoreRow(cfg, c, a[0]), a[1..], b);
    }
  }

  // ----- the simulation

  predicate PartOf(part: map<nat, Item>, whole: map<nat, Item>) {
    forall k :: k in part ==> k in whole && whole[k] == part[k]
  }

  /**
   The replayed core is the live one, still loading; once the cart is voided, the live private copy may
   have grown unlogged, and nothing else differs.
   */
  predicate Mirrors(live: Core, replayed: Core) {
    if live.phase == Voided then replayed == live.(frozen := replayed.frozen) && PartOf(replayed.frozen, live.frozen)
    else live.phase == Ready && replayed == live.(phase := Loading)
  }

  /** The charge of a live operation beyond the line price: zero unless a linked item's price has moved. */
  function Drift(cfg: Scheme, c: Core, op: Op): int {
    if op.Add? && Accepting(c) then (op.price - LinePrice(cfg, c.frozen, op.barcode)) * op.quantity
    else if op.Remove? && Accepting(c) && op.code in c.rows then -(op.price - LinePrice(cfg, c.frozen, op.barcode))
    else 0
  }

  function TotalDrift(cfg: Scheme, s: CartState, ops: seq<Op>): int
    decreases |ops|
  {
    if ops == [] then 0 else Drift(cfg, s.core, ops[0]) + TotalDrift(cfg, Apply(s, ops[0]), ops[1..])
  }

  lemma ReplayOfOne(cfg: Scheme, c: Core, row: LogRow)
    ensures CoreReplay(cfg, c, [row]) == CoreRow(cfg, c, row)
    ensures LogGross(cfg, c, [row]) == RowGross(cfg, c, row)
    ensures LogOk(cfg, c, [row]) <==> RowOk(cfg, c, row)
  {
    assert [row][1..] == [];
  }

  /** The rows of one operation, replayed, redo the operation; only a private copy takes two rows. */
  predicate Redone(cfg: Scheme, s: CartState, r: Core, op: Op) {
    var rows := Rows(s.core, op);
    && Mirrors(Apply(s, op).core, CoreReplay(cfg, r, rows))
    && LogOk(cfg, r, rows)
    && OpGross(s.core, op) == LogGross(cfg, r, rows) + Drift(cfg, s.core, op)
    && (|rows| <= 1 || (|rows| == 2 && rows[0].DepartmentRow?))
  }

  lemma FreezeIsRedone(cfg: Scheme, s: CartState, r: Core, item: Item, department: Department)
    requires Mirrors(s.core, r) && !cfg.priceChanges
    ensures Redone(cfg, s, r, Freeze(item, department))
  {
    if s.core.phase == Ready && item.code !in s.core.frozen {
      assert Rows(s.core, Freeze(item, department)) == [DepartmentRow(department)] + [ItemRow(item)];
      CoreReplayConcat(cfg, r, [DepartmentRow(department)], [ItemRow(item)]);
      ReplayOfOne(cfg, r, DepartmentRow(department));
      ReplayOfOne(cfg, r, ItemRow(item));
    }
  }

  lemma AddIsRedone(cfg: Scheme, s: CartState, r: Core, op: Op)
    requires Mirrors(s.core, r) && op.Add? && Sound(cfg, s.core, op)
    ensures Redone(cfg, s, r, op)
  {
    if s.core.phase == Ready {
      ReplayOfOne(cfg, r, AddRow(op.barcode, op.quantity));
      var p := LinePrice(cfg, s.core.frozen, op.barcode);
      assert op.price * op.quantity == p * op.quantity + (op.price - p) * op.quantity;
    }
  }

  lemma RemoveIsRedone(cfg: Scheme, s: CartState, r: Core, op: Op)
    requires Mirrors(s.core, r) && op.Remove? && Sound(cfg, s.core, op)
    ensures Redone(cfg, s, r, op)
  {
    ReplayOfOne(cfg, r, VoidRow(op.barcode));
  }

  lemma RemoveCardIsRedone(cfg: Scheme, s: CartState, r: Core, card: nat)
    requires Distinct(s.core.slots) && Mirrors(s.core, r)
    ensures Redone(cfg, s, r, RemoveCard(card))
  {
    AtMostOneFreed(s.core.slots, card);
    ReplayOfOne(cfg, r, CardVoidRow(card));
    if s.core.phase == Ready && FreedSlots(s.core.slots, card) == 1 {
      assert Repeat(CardVoidRow(card), 1) == [CardVoidRow(card)];
    }
  }

  lemma MirrorStep(cfg: Scheme, s: CartState, r: Core, op: Op)
    requires Inv(cfg, s.core) && Sound(cfg, s.core, op) && Mirrors(s.core, r)
    ensures Redone(cfg, s, r, op)
  {
    match op
    case Freeze(item, department) => FreezeIsRedone(cfg, s, r, item, department);
    case Add(_, _, _, _, _, _) => AddIsRedone(cfg, s, r, op);
    case Remove(_, _, _, _, _) => RemoveIsRedone(cfg, s, r, op);
    case AddCard(card, _) => ReplayOfOne(cfg, r, CardAddRow(card));
    case RemoveCard(card) => RemoveCardIsRedone(cfg, s, r, card);
    case VoidAll => ReplayOfOne(cfg, r, CartVoidRow);
  }
}
