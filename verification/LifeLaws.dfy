/**
 What one cart keeps through a whole life of web actions, catalogue updates, crashes that lose rows, and
 restarts: its counts and totals agree, and its gross total is the worth of its lines.
 */
module LifeLaws {
  import opened Catalogue
  import opened MapSum
  import opened CartModel
  import opened CartLaws
  import opened LoyaltySlots
  import opened Recovery
  import opened SalesActions
  import opened Restarts
  import opened ActionEffects
  import opened Money
  import opened PosExport

  // ----- counts and departments

  ghost predicate Consistent(s: CartState) {
    CountsAgree(s) && Partitioned(s.totals)
  }

  lemma {:induction false} SoundIsRegular(sch: Scheme, s: CartState, ops: seq<Op>)
    requires SoundRun(sch, s, ops)
    ensures RegularRun(sch.owner, s, ops)
    decreases |ops|
  {
    if ops != [] {
      SoundIsRegular(sch, Apply(s, ops[0]), ops[1..]);
    }
  }

  lemma {:induction false} ReplayIsConsistent(sch: Scheme, items: map<nat, Item>, s: CartState, log: seq<LogRow>)
    requires Complete(sch, items) && Inv(sch, s.core) && LogOk(sch, s.core, log) && Consistent(s)
    ensures Consistent(Replay(sch, items, s, log))
    decreases |log|
  {
    if log != [] {
      var ops := RowOps(sch, items, s.core, log[0]);
      RowsReplaySoundly(sch, items, s, log[0]);
      if ops != [] {
        CountsStep(sch.owner, s, ops[0]);
        PartitionStep(sch.owner, s, ops[0]);
      }
      ReplayIsCoreReplay(sch, items, s, [log[0]]);
      ReplayOfOne(sch, s.core, log[0]);
      ReplayIsConsistent(sch, items, ReplayRow(sch, items, s, log[0]), log[1..]);
    }
  }

  lemma RecoveredIsConsistent(sch: Scheme, items: map<nat, Item>, log: seq<LogRow>)
    requires Complete(sch, items) && LogOk(sch, LOADING, log)
    ensures Consistent(Recover(sch, items, log))
  {
    EmptyInv(sch, Loading);
    EmptyAgrees(Loading);
    EmptyIsPartitioned(Loading);
    ReplayIsConsistent(sch, items, Empty(Loading), log);
  }

  lemma ConsistentStep(cfg: Config, w: World, e: Event)
    requires Recoverable(cfg, w) && EventOk(cfg, e) && Consistent(w.cart)
    ensures Consistent(Step(cfg, w, e).cart)
  {
    var sch := SchemeOf(cfg);
    match e
    case UpdateItem(_, _, _, _) =>
    case Crash(keep, items) =>
      var log := if keep <= |w.log| then w.log[..keep] else w.log;
      if keep <= |w.log| {
        CutKeepsLogOk(sch, w.log, keep);
      }
      RecoveredIsConsistent(sch, items, log);
    case _ =>
      var ops := EventOps(cfg, w.items, w.cart.core, e);
      EventIsSound(cfg, w.items, w.cart, e);
      SoundIsRegular(sch, w.cart, ops);
      CountsAgreeOverRuns(sch.owner, w.cart, ops);
      DepartmentsPartitionTheTotal(sch.owner, w.cart, ops);
  }

  lemma {:induction false} ConsistentOverLife(cfg: Config, w: World, events: seq<Event>)
    requires Recoverable(cfg, w) && Lawful(cfg, events) && Consistent(w.cart)
    ensures Consistent(Live(cfg, w, events).cart)
    decreases |events|
  {
    if events != [] {
      ConsistentStep(cfg, w, events[0]);
      RecoverableStep(cfg, w, events[0]);
      ConsistentOverLife(cfg, Step(cfg, w, events[0]), events[1..]);
    }
  }

  /**
   Whatever a cart lives through, its rows, its counter and the grand total's count agree, and the grand total
   is the sum of the departments, although replay may charge other departments than the sales did.
   */
  lemma AnyLifeIsConsistent(cfg: Config, items: map<nat, Item>, events: seq<Event>)
    requires CatalogueOk(cfg, items) && Lawful(cfg, events)
    ensures Consistent(Live(cfg, Opened(items), events).cart)
  {
    OpenedIsRecoverable(cfg, items);
    EmptyAgrees(Ready);
    EmptyIsPartitioned(Ready);
    ConsistentOverLife(cfg, Opened(items), events);
  }

  // ----- money, told by the file

  /** A void row that takes an item out of the cart but no barcode count. */
  predicate UnfaithfulRow(sch: Scheme, c: Core, row: LogRow) {
    row.VoidRow? && Accepting(c) && sch.owner(row.barcode) in c.rows && row.barcode !in c.barcodes
  }

  predicate FaithfulLog(sch: Scheme, c: Core, log: seq<LogRow>)
    decreases |log|
  {
    log == [] || (!UnfaithfulRow(sch, c, log[0]) && FaithfulLog(sch, CoreRow(sch, c, log[0]), log[1..]))
  }

  function UnfaithfulRowsValue(sch: Scheme, c: Core, log: seq<LogRow>): int
    decreases |log|
  {
    if log == [] then 0
    else (if UnfaithfulRow(sch, c, log[0]) then LinePrice(sch, c.frozen, log[0].barcode) else 0)
         + UnfaithfulRowsValue(sch, CoreRow(sch, c, log[0]), log[1..])
  }

  lemma RowWorth(sch: Scheme, c: Core, row: LogRow)
    requires Inv(sch, c) && RowOk(sch, c, row) && !sch.priceChanges
    ensures Worth(sch, CoreRow(sch, c, row)) ==
            Worth(sch, c) + RowGross(sch, c, row) +
                (if UnfaithfulRow(sch, c, row) then LinePrice(sch, c.frozen, row.barcode) else 0)
  {
    match row
    case ItemRow(item) => FreezeWorth(sch, c, item);
    case AddRow(b, q) => AddWorth(sch, c, sch.owner(b), b, q);
    case VoidRow(b) => RemoveWorth(sch, c, sch.owner(b), b);
    case _ => SameLines(sch, c, CoreRow(sch, c, row));
  }

  lemma RowKeepsInv(sch: Scheme, c: Core, row: LogRow)
    requires Inv(sch, c) && RowOk(sch, c, row)
    ensures Inv(sch, CoreRow(sch, c, row))
  {
    match row
    case AddRow(b, q) => AddCounts(c, sch.owner(b), b, q);
    case VoidRow(b) => RemoveCounts(c, sch.owner(b), b);
    case CardAddRow(card) => AddKeepsSlots(c, card, sch.cardLimit);
    case CardVoidRow(card) => RemoveKeepsSlots(c, card, sch.cardLimit);
    case _ =>
  }

  /** The gross total a file stands for is the worth of the lines it leaves, less its unfaithful voids. */
  lemma {:induction false} LogWorth(sch: Scheme, c: Core, log: seq<LogRow>)
    requires Inv(sch, c) && LogOk(sch, c, log) && !sch.priceChanges
    ensures Inv(sch, CoreReplay(sch, c, log))
    ensures Worth(sch, CoreReplay(sch, c, log)) ==
            Worth(sch, c) + LogGross(sch, c, log) + UnfaithfulRowsValue(sch, c, log)
    decreases |log|
  {
    if log != [] {
      RowWorth(sch, c, log[0]);
      RowKeepsInv(sch, c, log[0]);
      LogWorth(sch, CoreRow(sch, c, log[0]), log[1..]);
    }
  }

  /** A live cart's lines are worth what its file's lines are: unlogged copies price none of them. */
  lemma MirroredWorth(sch: Scheme, live: Core, replayed: Core)
    requires Mirrors(live, replayed) && Inv(sch, replayed) && !sch.priceChanges
    ensures Worth(sch, live) == Worth(sch, replayed)
  {
    assert Lines(sch, live) == Lines(sch, replayed);
  }

  lemma GrossOfRecoverable(cfg: Config, w: World)
    requires Recoverable(cfg, w) && !cfg.priceChanges
    ensures Gross(w.cart) ==
            Worth(SchemeOf(cfg), w.cart.core) + w.drift - UnfaithfulRowsValue(SchemeOf(cfg), LOADING, w.log)
  {
    var sch := SchemeOf(cfg);
    EmptyInv(sch, Loading);
    LogWorth(sch, LOADING, w.log);
    MirroredWorth(sch, w.cart.core, CoreReplay(sch, LOADING, w.log));
    assert Lines(sch, LOADING) == map[];
  }

  /**
   After any life, crashes and restarts included, the gross total is the worth of the lines, plus the drift of
   linked items since the last restart, less the value of the file's unfaithful voids.
   */
  lemma GrossOfAnyLife(cfg: Config, items: map<nat, Item>, events: seq<Event>)
    requires CatalogueOk(cfg, items) && Lawful(cfg, events) && !cfg.priceChanges
    ensures var sch, w := SchemeOf(cfg), Live(cfg, Opened(items), events);
            Gross(w.cart) ==
            Worth(sch, w.cart.core) + ChangesSinceRestart(cfg, Opened(items), 0, events)
            - UnfaithfulRowsValue(sch, LOADING, w.log)
  {
    OpenedIsRecoverable(cfg, items);
    RecoverableOverLife(cfg, Opened(items), events);
    DriftIsLinkedChanges(cfg, Opened(items), events);
    GrossOfRecoverable(cfg, Live(cfg, Opened(items), events));
  }

  // ----- the file for the till, told by the cart's own

  function UnfaithfulRows(sch: Scheme, c: Core, log: seq<LogRow>): nat
    decreases |log|
  {
    if log == [] then 0
    else (if UnfaithfulRow(sch, c, log[0]) then 1 else 0) + UnfaithfulRows(sch, CoreRow(sch, c, log[0]), log[1..])
  }

  /** Pieces of a barcode the rows add, less pieces they void. */
  function NetRows(sch: Scheme, c: Core, log: seq<LogRow>, b: nat): int
    decreases |log|
  {
    if log == [] then 0
    else
      var row := log[0];
      (if row.AddRow? && Accepting(c) && row.barcode == b then row.quantity
       else if row.VoidRow? && Accepting(c) && sch.owner(row.barcode) in c.rows && row.barcode == b then -1
       else 0) + NetRows(sch, CoreRow(sch, c, row), log[1..], b)
  }

  lemma RowSurplus(sch: Scheme, c: Core, row: LogRow)
    requires CoreCounts(c) && RowOk(sch, c, row)
    ensures var c' := CoreRow(sch, c, row);
            CoreCounts(c') &&
            Sum(c'.barcodes, Self) - c'.itemsNumber ==
            Sum(c.barcodes, Self) - c.itemsNumber + (if UnfaithfulRow(sch, c, row) then 1 else 0)
  {
    match row
    case AddRow(b, q) => AddCounts(c, sch.owner(b), b, q);
    case VoidRow(b) => RemoveCounts(c, sch.owner(b), b);
    case _ =>
  }

  lemma {:induction false} LogSurplus(sch: Scheme, c: Core, log: seq<LogRow>)
    requires CoreCounts(c) && LogOk(sch, c, log)
    ensures var c' := CoreReplay(sch, c, log);
            Sum(c'.barcodes, Self) - c'.itemsNumber ==
                Sum(c.barcodes, Self) - c.itemsNumber + UnfaithfulRows(sch, c, log)
    decreases |log|
  {
    if log != [] {
      RowSurplus(sch, c, log[0]);
      LogSurplus(sch, CoreRow(sch, c, log[0]), log[1..]);
    }
  }

  function UnfaithfulRowsBy(b: nat, sch: Scheme, c: Core, log: seq<LogRow>): nat
    decreases |log|
  {
    if log == [] then 0
    else (if UnfaithfulRow(sch, c, log[0]) && log[0].barcode == b then 1 else 0)
         + UnfaithfulRowsBy(b, sch, CoreRow(sch, c, log[0]), log[1..])
  }

  lemma {:induction false} LogCountsAreNet(sch: Scheme, c: Core, log: seq<LogRow>, b: nat)
    requires CoreCounts(c) && LogOk(sch, c, log)
    ensures Get(CoreReplay(sch, c, log).barcodes, b) ==
            Get(c.barcodes, b) + NetRows(sch, c, log, b) + UnfaithfulRowsBy(b, sch, c, log)
    decreases |log|
  {
    if log != [] {
      RowSurplus(sch, c, log[0]);
      LogCountsAreNet(sch, CoreRow(sch, c, log[0]), log[1..], b);
    }
  }

  /**
   After any life, restarts included, the detail rows outnumber the header's item count by exactly the unfaithful
   voids in the cart's file; and each barcode appears once per piece the file adds and does not void, and once
   more for each of those voids that named it.
   */
  lemma DetailRowsOfAnyLife(cfg: Config, items: map<nat, Item>, events: seq<Event>, out: seq<nat>)
    requires CatalogueOk(cfg, items) && Lawful(cfg, events)
    requires Exports(Live(cfg, Opened(items), events).cart.core.barcodes, out)
    ensures var sch, w := SchemeOf(cfg), Live(cfg, Opened(items), events);
            && |out| == w.cart.core.itemsNumber + UnfaithfulRows(sch, LOADING, w.log)
            && forall b: nat ::
                 multiset(out)[b] == NetRows(sch, LOADING, w.log, b) + UnfaithfulRowsBy(b, sch, LOADING, w.log)
  {
    var w := Live(cfg, Opened(items), events);
    OpenedIsRecoverable(cfg, items);
    RecoverableOverLife(cfg, Opened(items), events);
    DetailRowsOfFile(SchemeOf(cfg), w.cart.core, w.log, out);
  }

  lemma DetailRowsOfFile(sch: Scheme, c: Core, log: seq<LogRow>, out: seq<nat>)
    requires Inv(sch, c) && LogOk(sch, LOADING, log) && Mirrors(c, CoreReplay(sch, LOADING, log))
    requires Exports(c.barcodes, out)
    ensures |out| == c.itemsNumber + UnfaithfulRows(sch, LOADING, log)
    ensures forall b: nat ::
              multiset(out)[b] == NetRows(sch, LOADING, log, b) + UnfaithfulRowsBy(b, sch, LOADING, log)
  {
    EmptyAgrees(Loading);
    LogSurplus(sch, LOADING, log);
    assert forall b: nat :: multiset(out)[b] == Get(c.barcodes, b);
    SizeIsSum(multiset(out), c.barcodes);
    forall b: nat
      ensures multiset(out)[b] == NetRows(sch, LOADING, log, b) + UnfaithfulRowsBy(b, sch, LOADING, log)
    {
      LogCountsAreNet(sch, LOADING, log, b);
    }
  }

  // ----- faithful lives

  lemma {:induction false} FaithfulConcat(sch: Scheme, c: Core, a: seq<LogRow>, b: seq<LogRow>)
    ensures FaithfulLog(sch, c, a + b) <==> FaithfulLog(sch, c, a) && FaithfulLog(sch, CoreReplay(sch, c, a), b)
    decreases |a|
  {
    if a == [] {
      assert a + b == b;
    } else {
      assert (a + b)[1..] == a[1..] + b;
      FaithfulConcat(sch, CoreRow(sch, c, a[0]), a[1..], b);
    }
  }

  lemma {:induction false} FaithfulIsFree(sch: Scheme, c: Core, log: seq<LogRow>)
    requires FaithfulLog(sch, c, log)
    ensures UnfaithfulRowsValue(sch, c, log) == 0
    decreases |log|
  {
    if log != [] {
      FaithfulIsFree(sch, CoreRow(sch, c, log[0]), log[1..]);
    }
  }

  lemma {:induction false} NoVoidRowsIsFaithful(sch: Scheme, c: Core, log: seq<LogRow>)
    requires forall i :: 0 <= i < |log| ==> !log[i].VoidRow?
    ensures FaithfulLog(sch, c, log)
    decreases |log|
  {
    if log != [] {
      NoVoidRowsIsFaithful(sch, CoreRow(sch, c, log[0]), log[1..]);
    }
  }

  lemma {:induction false} RepeatedRow(row: LogRow, n: int)
    ensures forall i :: 0 <= i < |Repeat(row, n)| ==> Repeat(row, n)[i] == row
    decreases n
  {
    if n > 0 {
      RepeatedRow(row, n - 1);
    }
  }

  lemma FaithfulOpLogs(sch: Scheme, s: CartState, r: Core, op: Op)
    requires Mirrors(s.core, r) && Sound(sch, s.core, op) && !Unfaithful(s.core, op)
    ensures FaithfulLog(sch, r, Rows(s.core, op))
  {
    if op.RemoveCard? {
      RepeatedRow(CardVoidRow(op.card), FreedSlots(s.core.slots, op.card));
    }
    if op.Remove? {
      assert FaithfulLog(sch, CoreRow(sch, r, VoidRow(op.barcode)), [VoidRow(op.barcode)][1..]);
    } else {
      NoVoidRowsIsFaithful(sch, r, Rows(s.core, op));
    }
  }

  lemma {:induction false} FaithfulRunLogs(sch: Scheme, s: CartState, r: Core, ops: seq<Op>)
    requires Inv(sch, s.core) && SoundRun(sch, s, ops) && Mirrors(s.core, r) && UnfaithfulVoids(s, ops) == 0
    ensures FaithfulLog(sch, r, Log(s, ops))
    decreases |ops|
  {
    if ops != [] {
      var s', rows := Apply(s, ops[0]), Rows(s.core, ops[0]);
      FaithfulOpLogs(sch, s, r, ops[0]);
      MirrorStep(sch, s, r, ops[0]);
      InvStep(sch, s, ops[0]);
      FaithfulRunLogs(sch, s', CoreReplay(sch, r, rows), ops[1..]);
      FaithfulConcat(sch, r, rows, Log(s', ops[1..]));
    }
  }

  /** A void of a held item names a barcode the cart holds. */
  predicate Faithful(cfg: Config, c: Core, e: Event) {
    e.VoidItem? && Accepting(c) && Owner(cfg.barcodes, e.barcode) in c.rows ==> e.barcode in c.barcodes
  }

  predicate FaithfulLife(cfg: Config, w: World, events: seq<Event>)
    decreases |events|
  {
    events == [] || (Faithful(cfg, w.cart.core, events[0]) && FaithfulLife(cfg, Step(cfg, w, events[0]), events[1..]))
  }

  lemma {:induction false} NoRemoves(s: CartState, ops: seq<Op>)
    requires forall i :: 0 <= i < |ops| ==> !ops[i].Remove?
    ensures UnfaithfulVoids(s, ops) == 0
    decreases |ops|
  {
    if ops != [] {
      NoRemoves(Apply(s, ops[0]), ops[1..]);
    }
  }

  lemma FaithfulEventOps(cfg: Config, items: map<nat, Item>, s: CartState, e: Event)
    requires NoLinks(items) && Faithful(cfg, s.core, e)
    ensures UnfaithfulVoids(s, EventOps(cfg, items, s.core, e)) == 0
  {
    var ops := EventOps(cfg, items, s.core, e);
    if e.VoidItem? && ops != [] {
      assert ops == [ops[0]];
      assert UnfaithfulVoids(Apply(s, ops[0]), ops[1..]) == 0;
    } else {
      NoRemoves(s, ops);
    }
  }

  lemma FaithfulStep(cfg: Config, w: World, e: Event)
    requires Recoverable(cfg, w) && NoLinks(w.items) && Faithful(cfg, w.cart.core, e)
    requires FaithfulLog(SchemeOf(cfg), LOADING, w.log)
    ensures FaithfulLog(SchemeOf(cfg), LOADING, Step(cfg, w, e).log)
  {
    var sch := SchemeOf(cfg);
    match e
    case UpdateItem(_, _, _, _) =>
    case Crash(keep, _) =>
      if keep <= |w.log| {
        assert w.log == w.log[..keep] + w.log[keep..];
        FaithfulConcat(sch, LOADING, w.log[..keep], w.log[keep..]);
      }
    case _ =>
      var ops := EventOps(cfg, w.items, w.cart.core, e);
      var r := CoreReplay(sch, LOADING, w.log);
      EventIsSound(cfg, w.items, w.cart, e);
      FaithfulEventOps(cfg, w.items, w.cart, e);
      FaithfulRunLogs(sch, w.cart, r, ops);
      FaithfulConcat(sch, LOADING, w.log, Log(w.cart, ops));
  }

  lemma {:induction false} FaithfulOverLife(cfg: Config, w: World, events: seq<Event>)
    requires Recoverable(cfg, w) && Lawful(cfg, events) && !cfg.priceChanges && NoLinks(w.items) &&
             NoLinksRead(events) && w.drift == 0
    requires FaithfulLog(SchemeOf(cfg), LOADING, w.log) && FaithfulLife(cfg, w, events)
    ensures FaithfulLog(SchemeOf(cfg), LOADING, Live(cfg, w, events).log)
    decreases |events|
  {
    if events != [] {
      FaithfulStep(cfg, w, events[0]);
      StepWithoutLinks(cfg, w, events[0]);
      RecoverableStep(cfg, w, events[0]);
      FaithfulOverLife(cfg, Step(cfg, w, events[0]), events[1..]);
    }
  }

  lemma FaithfulGross(cfg: Config, w: World)
    requires Recoverable(cfg, w) && !cfg.priceChanges && w.drift == 0 && FaithfulLog(SchemeOf(cfg), LOADING, w.log)
    ensures Gross(w.cart) == Worth(SchemeOf(cfg), w.cart.core)
  {
    FaithfulIsFree(SchemeOf(cfg), LOADING, w.log);
    GrossOfRecoverable(cfg, w);
  }

  lemma GrossNotNegative(sch: Scheme, s: CartState)
    requires Inv(sch, s.core) && Gross(s) == Worth(sch, s.core)
    ensures (forall b :: b in s.core.barcodes ==> LinePrice(sch, s.core.frozen, b) >= 0) ==> Gross(s) >= 0
  {
    if forall b :: b in s.core.barcodes ==> LinePrice(sch, s.core.frozen, b) >= 0 {
      WorthOfPositivePrices(sch, s.core);
    }
  }

  /**
   With frozen prices and main items only, a cart whose voids are faithful totals exactly count times price over
   its barcodes, through catalogue updates, crashes and restarts; and never less than nothing, for line prices
   that are not.
   */
  lemma FaithfulSessionTotals(cfg: Config, items: map<nat, Item>, events: seq<Event>)
    requires CatalogueOk(cfg, items) && Lawful(cfg, events) && !cfg.priceChanges
    requires NoLinks(items) && NoLinksRead(events) && FaithfulLife(cfg, Opened(items), events)
    ensures var sch, s := SchemeOf(cfg), Live(cfg, Opened(items), events).cart;
            && Gross(s) == Worth(sch, s.core)
            && ((forall b :: b in s.core.barcodes ==> LinePrice(sch, s.core.frozen, b) >= 0) ==> Gross(s) >= 0)
  {
    var w := Live(cfg, Opened(items), events);
    OpenedIsRecoverable(cfg, items);
    RecoverableOverLife(cfg, Opened(items), events);
    NoLinksNoDrift(cfg, Opened(items), events);
    FaithfulOverLife(cfg, Opened(items), events);
    FaithfulGross(cfg, w);
    GrossNotNegative(SchemeOf(cfg), w.cart);
  }

  /**
   The file sent to the till after any life: its detail rows outnumber its header's items by the unfaithful voids of
   the cart's file; and for a faithful cart of main items with frozen prices its amount is count times price less
   the discounts given since the last restart.
   */
  lemma TillFileOfAnyLife(cfg: Config, items: map<nat, Item>, events: seq<Event>,
                          cart: nat, till: nat, store: string, header: Header, rows: seq<nat>)
    requires CatalogueOk(cfg, items) && Lawful(cfg, events)
    requires IsTillFile(Live(cfg, Opened(items), events).cart, cart, till, store, header, rows)
    ensures var sch, w := SchemeOf(cfg), Live(cfg, Opened(items), events);
            && |rows| == header.items + UnfaithfulRows(sch, LOADING, w.log)
            && (!cfg.priceChanges && NoLinks(items) && NoLinksRead(events) &&
                 FaithfulLife(cfg, Opened(items), events) ==>
                  header.amount == Worth(sch, w.cart.core) - GivenSinceRestart(cfg, Opened(items), 0, events))
  {
    DetailRowsOfAnyLife(cfg, items, events, rows);
    DiscountIsWhatWasGiven(cfg, items, events);
    if !cfg.priceChanges && NoLinks(items) && NoLinksRead(events) && FaithfulLife(cfg, Opened(items), events) {
      FaithfulSessionTotals(cfg, items, events);
    }
  }
}
