/**
 One cart through a whole life of web actions, catalogue updates, crashes that may lose the end of the
 transaction file, and restarts that replay what is left of it.
 */
module Restarts {
  import opened Catalogue
  import opened CartModel
  import opened Recovery
  import opened CrashSafety
  import opened SalesActions

  datatype Event =
    | AddItem(barcode: nat, discount: int)
    | VoidItem(barcode: nat)
    | AddLoyalty(card: nat)
    | VoidLoyalty(card: nat)
    | VoidSession
    | UpdateItem(code: nat, description: string, department: nat, price: int)
    | Crash(keep: nat, items: map<nat, Item>)   // the first `keep` rows survive; a restart reads this catalogue

  /** The cart, its file, the catalogue, and the drift charged since the last restart. */
  datatype World = World(cart: CartState, log: seq<LogRow>, items: map<nat, Item>, drift: int)

  function Opened(items: map<nat, Item>): World {
    World(Empty(Ready), [], items, 0)
  }

  function EventOps(cfg: Config, items: map<nat, Item>, c: Core, e: Event): seq<Op> {
    match e
    case AddItem(barcode, discount) => AddOps(cfg, items, c, barcode, discount)
    case VoidItem(barcode) => VoidOps(cfg, items, c, barcode)
    case AddLoyalty(card) => [AddCard(card, cfg.cardLimit)]
    case VoidLoyalty(card) => [RemoveCard(card)]
    case VoidSession => [VoidAll]
    case _ => []
  }

  function Step(cfg: Config, w: World, e: Event): World {
    match e
    case UpdateItem(code, description, department, price) =>
      w.(items := Update(w.items, code, description, department, price))
    case Crash(keep, items) =>
      var log := if keep <= |w.log| then w.log[..keep] else w.log;
      World(Recover(SchemeOf(cfg), items, log), log, items, 0)
    case _ =>
      var ops := EventOps(cfg, w.items, w.cart.core, e);
      World(CartModel.Run(w.cart, ops), w.log + Log(w.cart, ops), w.items,
            w.drift + TotalDrift(SchemeOf(cfg), w.cart, ops))
  }

  function Live(cfg: Config, w: World, events: seq<Event>): World
    decreases |events|
  {
    if events == [] then w else Live(cfg, Step(cfg, w, events[0]), events[1..])
  }

  /** Updates never move an item into department 0, and restarts read a catalogue that is in order. */
  ghost predicate EventOk(cfg: Config, e: Event) {
    match e
    case UpdateItem(_, _, department, _) => department != 0
    case Crash(_, items) => CatalogueOk(cfg, items)
    case _ => true
  }

  ghost predicate Lawful(cfg: Config, events: seq<Event>) {
    forall i :: 0 <= i < |events| ==> EventOk(cfg, events[i])
  }

  const LOADING := Empty(Loading).core

  /** The file tells the whole story of the cart. */
  ghost predicate FileTells(cfg: Config, c: Core, log: seq<LogRow>) {
    var sch := SchemeOf(cfg);
    Inv(sch, c) && LogOk(sch, LOADING, log) && Mirrors(c, CoreReplay(sch, LOADING, log))
  }

  ghost predicate Recoverable(cfg: Config, w: World) {
    && CatalogueOk(cfg, w.items)
    && FileTells(cfg, w.cart.core, w.log)
    && (!cfg.priceChanges ==> Gross(w.cart) == LogGross(SchemeOf(cfg), LOADING, w.log) + w.drift)
  }

  /** What an event charges off the copied prices, told by the catalogue and the cart as they stand before it. */
  function LinkedChange(cfg: Config, items: map<nat, Item>, c: Core, e: Event): int {
    match e
    case AddItem(barcode, _) => AddChange(cfg, items, c, barcode)
    case VoidItem(barcode) => VoidChange(cfg, items, c, barcode)
    case _ => 0
  }

  lemma EventIsSound(cfg: Config, items: map<nat, Item>, s: CartState, e: Event)
    requires CatalogueOk(cfg, items) && Inv(SchemeOf(cfg), s.core)
    ensures SoundRun(SchemeOf(cfg), s, EventOps(cfg, items, s.core, e))
    ensures !cfg.priceChanges ==>
              TotalDrift(SchemeOf(cfg), s, EventOps(cfg, items, s.core, e)) == LinkedChange(cfg, items, s.core, e)
  {
    match e
    case AddItem(barcode, discount) => AddIsSound(cfg, items, s, barcode, discount);
    case VoidItem(barcode) => VoidIsSound(cfg, items, s, barcode);
    case AddLoyalty(card) => OneOp(SchemeOf(cfg), s, AddCard(card, cfg.cardLimit));
    case VoidLoyalty(card) => OneOp(SchemeOf(cfg), s, RemoveCard(card));
    case VoidSession => OneOp(SchemeOf(cfg), s, VoidAll);
    case _ =>
  }

  lemma CutKeepsLogOk(sch: Scheme, log: seq<LogRow>, keep: nat)
    requires LogOk(sch, LOADING, log) && keep <= |log|
    ensures LogOk(sch, LOADING, log[..keep])
  {
    assert log == log[..keep] + log[keep..];
    CoreReplayConcat(sch, LOADING, log[..keep], log[keep..]);
  }

  /** A file replays to a cart that is still loading, or voided; the finished cart mirrors it. */
  lemma {:induction false} ReplayPhase(sch: Scheme, c: Core, log: seq<LogRow>)
    requires c.phase == Loading || c.phase == Voided
    ensures CoreReplay(sch, c, log).phase == Loading || CoreReplay(sch, c, log).phase == Voided
    decreases |log|
  {
    if log != [] {
      ReplayPhase(sch, CoreRow(sch, c, log[0]), log[1..]);
    }
  }

  lemma RestartIsRecoverable(cfg: Config, items: map<nat, Item>, log: seq<LogRow>)
    requires CatalogueOk(cfg, items) && LogOk(SchemeOf(cfg), LOADING, log)
    ensures Recoverable(cfg, World(Recover(SchemeOf(cfg), items, log), log, items, 0))
  {
    var sch := SchemeOf(cfg);
    var r := CoreReplay(sch, LOADING, log);
    ReplayPhase(sch, LOADING, log);
    ReplayIsCoreReplay(sch, items, Empty(Loading), log);
    RecoverMeans(sch, items, log, if r.phase == Voided then r else r.(phase := Ready));
  }

  lemma RecoverableStep(cfg: Config, w: World, e: Event)
    requires Recoverable(cfg, w) && EventOk(cfg, e)
    ensures Recoverable(cfg, Step(cfg, w, e))
  {
    var sch := SchemeOf(cfg);
    match e
    case UpdateItem(code, description, department, price) =>
      UpdateKeepsCatalogue(cfg, w.items, code, description, department, price);
    case Crash(keep, items) =>
      var log := if keep <= |w.log| then w.log[..keep] else w.log;
      if keep <= |w.log| {
        CutKeepsLogOk(sch, w.log, keep);
      }
      RestartIsRecoverable(cfg, items, log);
    case _ =>
      var ops := EventOps(cfg, w.items, w.cart.core, e);
      var r := CoreReplay(sch, LOADING, w.log);
      EventIsSound(cfg, w.items, w.cart, e);
      RunMirrors(sch, w.cart, r, ops);
      CoreReplayConcat(sch, LOADING, w.log, Log(w.cart, ops));
  }

  lemma OpenedIsRecoverable(cfg: Config, items: map<nat, Item>)
    requires CatalogueOk(cfg, items)
    ensures Recoverable(cfg, Opened(items))
  {
    EmptyInv(SchemeOf(cfg), Ready);
  }

  lemma {:induction false} RecoverableOverLife(cfg: Config, w: World, events: seq<Event>)
    requires Recoverable(cfg, w) && Lawful(cfg, events)
    ensures Recoverable(cfg, Live(cfg, w, events))
    decreases |events|
  {
    if events != [] {
      RecoverableStep(cfg, w, events[0]);
      RecoverableOverLife(cfg, Step(cfg, w, events[0]), events[1..]);
    }
  }

  /**
   After any life, crashes that lost rows included, a restart under any complete catalogue rebuilds the
   cart as it is now, and with frozen prices its gross total but for the drift since the last restart.
   */
  lemma AnyLifeIsRecoverable(cfg: Config, items: map<nat, Item>, events: seq<Event>, later: map<nat, Item>)
    requires CatalogueOk(cfg, items) && Lawful(cfg, events) && Complete(SchemeOf(cfg), later)
    ensures var w := Live(cfg, Opened(items), events);
            var recovered := Recover(SchemeOf(cfg), later, w.log);
            && SameCart(w.cart.core, recovered.core)
            && (!cfg.priceChanges ==> Gross(w.cart) == Gross(recovered) + w.drift)
  {
    OpenedIsRecoverable(cfg, items);
    RecoverableOverLife(cfg, Opened(items), events);
    var w := Live(cfg, Opened(items), events);
    RecoverMeans(SchemeOf(cfg), later, w.log, w.cart.core);
  }

  // ----- when the recovered money is right

  /** The linked changes of a life, summed since its last restart. */
  function ChangesSinceRestart(cfg: Config, w: World, sum: int, events: seq<Event>): int
    decreases |events|
  {
    if events == [] then sum
    else
      ChangesSinceRestart(cfg, Step(cfg, w, events[0]), ChangesAfter(cfg, w, sum, events[0]), events[1..])
  }

  function ChangesAfter(cfg: Config, w: World, sum: int, e: Event): int {
    if e.Crash? then 0 else sum + LinkedChange(cfg, w.items, w.cart.core, e)
  }

  lemma DriftStep(cfg: Config, w: World, e: Event)
    requires Recoverable(cfg, w) && !cfg.priceChanges
    ensures Step(cfg, w, e).drift == ChangesAfter(cfg, w, w.drift, e)
  {
    if !e.Crash? && !e.UpdateItem? {
      EventIsSound(cfg, w.items, w.cart, e);
    }
  }

  lemma {:induction false} DriftIsLinkedChanges(cfg: Config, w: World, events: seq<Event>)
    requires Recoverable(cfg, w) && Lawful(cfg, events) && !cfg.priceChanges
    ensures Live(cfg, w, events).drift == ChangesSinceRestart(cfg, w, w.drift, events)
    decreases |events|
  {
    if events != [] {
      var w' := Step(cfg, w, events[0]);
      DriftStep(cfg, w, events[0]);
      RecoverableStep(cfg, w, events[0]);
      DriftIsLinkedChanges(cfg, w', events[1..]);
    }
  }

  /**
   After any life, a restart finds the right gross total exactly when the linked items' changes since the last
   restart cancel out, and the right net amount exactly when they come to the discount that stands.
   */
  lemma RecoveredMoneyIsRightIff(cfg: Config, items: map<nat, Item>, events: seq<Event>, later: map<nat, Item>)
    requires CatalogueOk(cfg, items) && Lawful(cfg, events) && Complete(SchemeOf(cfg), later) && !cfg.priceChanges
    ensures var w := Live(cfg, Opened(items), events);
            var recovered, off := Recover(SchemeOf(cfg), later, w.log),
                ChangesSinceRestart(cfg, Opened(items), 0, events);
            && Gross(w.cart) - Gross(recovered) == off
            && (Gross(recovered) == Gross(w.cart) <==> off == 0)
            && TotalOf(recovered.totals, 0).amount - TotalOf(w.cart.totals, 0).amount ==
                 TotalOf(w.cart.totals, 0).discount - off
            && (TotalOf(recovered.totals, 0).amount == TotalOf(w.cart.totals, 0).amount <==>
                  TotalOf(w.cart.totals, 0).discount == off)
  {
    OpenedIsRecoverable(cfg, items);
    RecoverableOverLife(cfg, Opened(items), events);
    DriftIsLinkedChanges(cfg, Opened(items), events);
    var w := Live(cfg, Opened(items), events);
    RecoverMeans(SchemeOf(cfg), later, w.log, w.cart.core);
  }

  /**
   Where the recovered gross total is right, it stays right after an action exactly when that action's linked
   item is priced in the catalogue as replay will price it, or is not touched.
   */
  lemma ActionKeepsMoneyRightIff(cfg: Config, w: World, e: Event, later: map<nat, Item>)
    requires Recoverable(cfg, w) && !cfg.priceChanges && !e.Crash? && EventOk(cfg, e)
    requires Complete(SchemeOf(cfg), later)
    requires Gross(Recover(SchemeOf(cfg), later, w.log)) == Gross(w.cart)
    ensures var w' := Step(cfg, w, e);
            Gross(Recover(SchemeOf(cfg), later, w'.log)) == Gross(w'.cart) <==>
                LinkedChange(cfg, w.items, w.cart.core, e) == 0
  {
    var w' := Step(cfg, w, e);
    RecoverableStep(cfg, w, e);
    DriftStep(cfg, w, e);
    RecoverMeans(SchemeOf(cfg), later, w.log, w.cart.core);
    RecoverMeans(SchemeOf(cfg), later, w'.log, w'.cart.core);
  }

  // ----- restarts that lose nothing leave no trace

  /** The same life with the crashes left out. */
  function Uninterrupted(events: seq<Event>): seq<Event> {
    if events == [] then []
    else if events[0].Crash? then Uninterrupted(events[1..])
    else [events[0]] + Uninterrupted(events[1..])
  }

  /** Every restart reads the catalogue that was in memory. */
  predicate SameCatalogue(cfg: Config, w: World, events: seq<Event>)
    decreases |events|
  {
    events == [] ||
    ((events[0].Crash? ==> events[0].items == w.items) && SameCatalogue(cfg, Step(cfg, w, events[0]), events[1..]))
  }

  /** No crash loses a row. */
  predicate Lossless(cfg: Config, w: World, events: seq<Event>)
    decreases |events|
  {
    events == [] ||
    ((events[0].Crash? ==> events[0].keep >= |w.log|) && Lossless(cfg, Step(cfg, w, events[0]), events[1..]))
  }

  /** The file tells which cart this is. */
  predicate FileMirrors(cfg: Config, w: World) {
    Mirrors(w.cart.core, CoreReplay(SchemeOf(cfg), LOADING, w.log))
  }

  lemma SameFileSameStep(cfg: Config, w: World, u: World, e: Event)
    requires FileMirrors(cfg, w) && FileMirrors(cfg, u) && !e.Crash?
    requires w.log == u.log && w.items == u.items
    ensures Step(cfg, w, e).log == Step(cfg, u, e).log && Step(cfg, w, e).items == Step(cfg, u, e).items
  {
    if !e.UpdateItem? {
      var ops, ops' := EventOps(cfg, w.items, w.cart.core, e), EventOps(cfg, u.items, u.cart.core, e);
      if w.cart.core.phase == Voided {
        VoidedIsFinal(w.cart, ops);
        VoidedIsFinal(u.cart, ops');
      } else {
        assert w.cart.core == u.cart.core;
        LogFollowsCore(w.cart, u.cart, ops);
      }
    }
  }

  lemma {:induction false} CrashesLeaveNoTrace(cfg: Config, w: World, u: World, events: seq<Event>)
    requires Recoverable(cfg, w) && Recoverable(cfg, u)
    requires Lawful(cfg, events) && Lossless(cfg, w, events) && SameCatalogue(cfg, w, events)
    requires w.log == u.log && w.items == u.items
    ensures Live(cfg, w, events).log == Live(cfg, u, Uninterrupted(events)).log
    ensures Recoverable(cfg, Live(cfg, w, events)) && Recoverable(cfg, Live(cfg, u, Uninterrupted(events)))
    decreases |events|
  {
    if events != [] {
      var e, w' := events[0], Step(cfg, w, events[0]);
      RecoverableStep(cfg, w, e);
      if e.Crash? {
        assert w'.log == w.log;
        CrashesLeaveNoTrace(cfg, w', u, events[1..]);
      } else {
        RecoverableStep(cfg, u, e);
        SameFileSameStep(cfg, w, u, e);
        CrashesLeaveNoTrace(cfg, w', Step(cfg, u, e), events[1..]);
        assert ([e] + Uninterrupted(events[1..]))[1..] == Uninterrupted(events[1..]);
      }
    }
  }

  /**
   Crashing and recovering any number of times, losing no row and no catalogue update, ends with the same file
   as never crashing, hence the same counts, cards and phase, and the same gross total once the drifts are taken out.
   */
  lemma RecoveryComposes(cfg: Config, items: map<nat, Item>, events: seq<Event>)
    requires CatalogueOk(cfg, items) && Lawful(cfg, events) && Lossless(cfg, Opened(items), events)
    requires SameCatalogue(cfg, Opened(items), events)
    ensures var w, u := Live(cfg, Opened(items), events), Live(cfg, Opened(items), Uninterrupted(events));
            && w.log == u.log
            && w.cart.core.(frozen := map[]) == u.cart.core.(frozen := map[])
            && (w.cart.core.phase == Ready ==> w.cart.core == u.cart.core)
            && (!cfg.priceChanges ==> Gross(w.cart) - w.drift == Gross(u.cart) - u.drift)
  {
    OpenedIsRecoverable(cfg, items);
    CrashesLeaveNoTrace(cfg, Opened(items), Opened(items), events);
  }

  // ----- what a life without linked items, and a voided cart, add

  predicate NoLinks(items: map<nat, Item>) {
    forall k :: k in items ==> items[k].linkedBarcode == 0
  }

  /** No restart reads a catalogue with links. */
  predicate NoLinksRead(events: seq<Event>) {
    forall i :: 0 <= i < |events| && events[i].Crash? ==> NoLinks(events[i].items)
  }

  lemma StepWithoutLinks(cfg: Config, w: World, e: Event)
    requires Recoverable(cfg, w) && !cfg.priceChanges && NoLinks(w.items) && (e.Crash? ==> NoLinks(e.items)) &&
             w.drift == 0
    ensures NoLinks(Step(cfg, w, e).items) && Step(cfg, w, e).drift == 0
  {
    DriftStep(cfg, w, e);
  }

  /** Where no item is linked to another, nothing is ever charged off the line prices. */
  lemma {:induction false} NoLinksNoDrift(cfg: Config, w: World, events: seq<Event>)
    requires Recoverable(cfg, w) && Lawful(cfg, events) && !cfg.priceChanges
    requires NoLinks(w.items) && NoLinksRead(events) && w.drift == 0
    ensures Live(cfg, w, events).drift == 0
    decreases |events|
  {
    if events != [] {
      RecoverableStep(cfg, w, events[0]);
      StepWithoutLinks(cfg, w, events[0]);
      NoLinksNoDrift(cfg, Step(cfg, w, events[0]), events[1..]);
    }
  }

  lemma LosslessCrash(cfg: Config, w: World, keep: nat, items: map<nat, Item>)
    requires keep >= |w.log|
    ensures Step(cfg, w, Crash(keep, items)) == World(Recover(SchemeOf(cfg), items, w.log), w.log, items, 0)
  {
    assert w.log[..|w.log|] == w.log;
  }

  lemma VoidedRestart(cfg: Config, w: World, items: map<nat, Item>)
    requires Recoverable(cfg, w) && w.cart.core.phase == Voided && CatalogueOk(cfg, items)
    ensures Recover(SchemeOf(cfg), items, w.log).core.phase == Voided
  {
    RecoverMeans(SchemeOf(cfg), items, w.log, w.cart.core);
  }

  lemma VoidedStep(cfg: Config, w: World, e: Event)
    requires Recoverable(cfg, w) && w.cart.core.phase == Voided && !e.Crash?
    ensures Step(cfg, w, e).cart.core.phase == Voided && Step(cfg, w, e).log == w.log
  {
    if !e.UpdateItem? {
      VoidedIsFinal(w.cart, EventOps(cfg, w.items, w.cart.core, e));
    }
  }

  /** Voiding a session voids the cart for good, and the file's last row says so. */
  lemma VoidSessionVoids(cfg: Config, w: World)
    requires w.cart.core.phase != Closed
    ensures var w' := Step(cfg, w, VoidSession);
            && w'.cart.core == w.cart.core.(phase := Voided) && w'.cart.totals == w.cart.totals
            && w'.log == if w.cart.core.phase == Voided then w.log else w.log + [CartVoidRow]
  {
    OneOp(SchemeOf(cfg), w.cart, VoidAll);
    assert [VoidAll][1..] == [];
    assert Log(w.cart, [VoidAll]) == Rows(w.cart.core, VoidAll) + [];
  }

  /** A voided cart stays voided, its file unchanged, through every event and every lossless restart. */
  lemma {:induction false} VoidedForever(cfg: Config, w: World, events: seq<Event>)
    requires Recoverable(cfg, w) && Lawful(cfg, events) && Lossless(cfg, w, events)
    requires w.cart.core.phase == Voided
    ensures Live(cfg, w, events).cart.core.phase == Voided
    ensures Live(cfg, w, events).log == w.log
    decreases |events|
  {
    if events != [] {
      RecoverableStep(cfg, w, events[0]);
      if events[0].Crash? {
        LosslessCrash(cfg, w, events[0].keep, events[0].items);
        VoidedRestart(cfg, w, events[0].items);
      } else {
        VoidedStep(cfg, w, events[0]);
      }
      VoidedForever(cfg, Step(cfg, w, events[0]), events[1..]);
    }
  }
}
