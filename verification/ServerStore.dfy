/**
 The whole server: every cart with its transaction file, the registry of loyalty cards in use, and the
 next session number; web actions, and the restart that loads every file left in the carts directory.
 */
module ServerStore {
  import opened Catalogue
  import opened CartModel
  import opened LoyaltySlots
  import opened Recovery
  import opened CrashSafety
  import opened SalesActions
  import opened Restarts

  datatype CartView = CartView(state: CartState, log: seq<LogRow>)

  datatype Store = Store(carts: map<nat, CartView>, items: map<nat, Item>, registry: map<nat, nat>, next: nat)

  datatype Action =
    | OpenSession
    | OnCart(id: nat, event: Event)
    | Variation(code: nat, description: string, department: nat, price: int)

  /** Session numbers are unsigned 32-bit. */
  function Successor(n: nat): nat {
    if n == 0xFFFF_FFFF then 0 else n + 1
  }

  /** Inserting under a number in use leaves the cart there alone. */
  function Insert(carts: map<nat, CartView>, n: nat, v: CartView): map<nat, CartView> {
    if n in carts then carts else carts[n := v]
  }

  /** A new cart appends to whatever its file holds. */
  function OpenOver(st: Store, file: seq<LogRow>): Store {
    st.(carts := Insert(st.carts, st.next, CartView(Empty(Ready), file)), next := Successor(st.next))
  }

  function Open(st: Store): Store {
    OpenOver(st, [])
  }

  function After(cfg: Config, items: map<nat, Item>, v: CartView, e: Event): CartView {
    var ops := EventOps(cfg, items, v.state.core, e);
    CartView(CartModel.Run(v.state, ops), v.log + Log(v.state, ops))
  }

  /** A card registered to this cart, or to any cart when cards are good for one session only. */
  predicate Refused(cfg: Config, registry: map<nat, nat>, id: nat, card: nat) {
    card in registry && (registry[card] == id || cfg.oneSession)
  }

  /**
   A card not refused is registered before the cart is asked to store it, and stays registered: the
   cart's answer to a removal is never the one that would erase it.
   */
  function ActOnCart(cfg: Config, st: Store, id: nat, e: Event): Store
    requires id in st.carts
  {
    if e.AddLoyalty? && Refused(cfg, st.registry, id, e.card) then st
    else st.(carts := st.carts[id := After(cfg, st.items, st.carts[id], e)],
             registry := if e.AddLoyalty? then st.registry[e.card := id] else st.registry)
  }

  function Act(cfg: Config, st: Store, a: Action): Store {
    match a
    case OpenSession => Open(st)
    case OnCart(id, e) => if id in st.carts then ActOnCart(cfg, st, id, e) else st
    case Variation(code, description, department, price) =>
      st.(items := Update(st.items, code, description, department, price))
  }

  function Serve(cfg: Config, st: Store, actions: seq<Action>): Store
    decreases |actions|
  {
    if actions == [] then st else Serve(cfg, Act(cfg, st, actions[0]), actions[1..])
  }

  // ----- loyalty cards are exclusive

  /** A card a cart holds is registered to that cart. */
  ghost predicate Exclusive(st: Store) {
    forall n, x :: n in st.carts && Holds(st.carts[n].state.core, x) ==> x in st.registry && st.registry[x] == n
  }

  ghost predicate Unshared(carts: map<nat, CartView>) {
    forall m, n, x :: m in carts && n in carts && Holds(carts[m].state.core, x) && Holds(carts[n].state.core, x)
      ==> m == n
  }

  lemma ExclusiveIsUnshared(st: Store)
    requires Exclusive(st)
    ensures Unshared(st.carts)
  {
    forall m, n, x | m in st.carts && n in st.carts && Holds(st.carts[m].state.core, x) &&
        Holds(st.carts[n].state.core, x)
      ensures m == n
    {
      assert st.registry[x] == m;
    }
  }

  lemma {:induction false} ItemsLeaveSlots(s: CartState, ops: seq<Op>)
    requires forall i :: 0 <= i < |ops| ==> !ops[i].AddCard? && !ops[i].RemoveCard?
    ensures CartModel.Run(s, ops).core.slots == s.core.slots
    decreases |ops|
  {
    if ops != [] {
      ItemsLeaveSlots(Apply(s, ops[0]), ops[1..]);
    }
  }

  /** The only card an event can bring into a cart is the one it names. */
  lemma EventHolds(cfg: Config, items: map<nat, Item>, v: CartView, e: Event, x: nat)
    requires Holds(After(cfg, items, v, e).state.core, x)
    ensures Holds(v.state.core, x) || (e.AddLoyalty? && e.card == x)
  {
    var ops := EventOps(cfg, items, v.state.core, e);
    if e.AddLoyalty? || e.VoidLoyalty? {
      assert ops[1..] == [];
      assert CartModel.Run(v.state, ops) == Apply(v.state, ops[0]);
      var slots := Apply(v.state, ops[0]).core.slots;
      var k :| k in slots && slots[k] == x;
      if k in v.state.core.slots && v.state.core.slots[k] == x {
        assert Holds(v.state.core, x);
      }
    } else {
      ItemsLeaveSlots(v.state, ops);
    }
  }

  lemma ExclusiveStep(cfg: Config, st: Store, a: Action)
    requires Exclusive(st) && cfg.oneSession
    ensures Exclusive(Act(cfg, st, a))
  {
    var st' := Act(cfg, st, a);
    forall n, x | n in st'.carts && Holds(st'.carts[n].state.core, x)
      ensures x in st'.registry && st'.registry[x] == n
    {
      if a.OnCart? && a.id == n && n in st.carts && st'.carts[n] != st.carts[n] {
        EventHolds(cfg, st.items, st.carts[n], a.event, x);
      } else {
        assert n in st.carts ==> st'.carts[n] == st.carts[n];
      }
    }
  }

  /**
   With one session per card, in every state the web actions reach, a card held by a cart is registered to
   it, so no two carts hold the same card.
   */
  lemma {:induction false} CardsAreExclusive(cfg: Config, st: Store, actions: seq<Action>)
    requires Exclusive(st) && cfg.oneSession
    ensures Exclusive(Serve(cfg, st, actions))
    ensures Unshared(Serve(cfg, st, actions).carts)
    decreases |actions|
  {
    if actions == [] {
      ExclusiveIsUnshared(st);
    } else {
      ExclusiveStep(cfg, st, actions[0]);
      CardsAreExclusive(cfg, Act(cfg, st, actions[0]), actions[1..]);
    }
  }

  /**
   With one session per card, a registration outlives every action, so no cart but its own ever comes to hold the
   card, even after that one has given it up.
   */
  lemma {:induction false} RegistrationsStay(cfg: Config, st: Store, actions: seq<Action>, x: nat)
    requires cfg.oneSession && Exclusive(st) && x in st.registry
    ensures var st' := Serve(cfg, st, actions);
            && x in st'.registry && st'.registry[x] == st.registry[x]
            && forall n :: n in st'.carts && n != st.registry[x] ==> !Holds(st'.carts[n].state.core, x)
    decreases |actions|
  {
    if actions != [] {
      ExclusiveStep(cfg, st, actions[0]);
      RegistrationsStay(cfg, Act(cfg, st, actions[0]), actions[1..], x);
    }
  }

  // ----- what an offered card, and one given up, become

  lemma OneCardAdded(c: Core, card: nat, limit: nat, x: nat)
    requires CardFits(c, card, limit)
    ensures Holds(AddCardCore(c, card, limit), card)
    ensures Holds(AddCardCore(c, card, limit), x) ==> x == card || Holds(c, x)
  {
    var c' := AddCardCore(c, card, limit);
    assert c.cardsNumber in c'.slots && c'.slots[c.cardsNumber] == card;
    if Holds(c', x) && x != card {
      var k :| k in c'.slots && c'.slots[k] == x;
      assert k in c.slots && c.slots[k] == x;
    }
  }

  /**
   An offered card is in the cart afterwards exactly when it was before, or it is not refused by the registry and
   the cart takes items and has room; and it is registered to the cart exactly when it was before, or no other
   cart's registration stands in the way.
   */
  lemma OfferIsTakenIff(cfg: Config, st: Store, id: nat, x: nat)
    requires id in st.carts
    ensures var st', c := Act(cfg, st, OnCart(id, AddLoyalty(x))), st.carts[id].state.core;
            var mine, others := x in st.registry && st.registry[x] == id, x in st.registry && st.registry[x] != id;
            && (Holds(st'.carts[id].state.core, x) <==>
                  Holds(c, x) || (!mine && !(others && cfg.oneSession) && Accepting(c) &&
                      c.cardsNumber < cfg.cardLimit))
            && (x in st'.registry && st'.registry[x] == id <==> mine || !(others && cfg.oneSession))
            && (others && cfg.oneSession ==> st' == st)
            && (forall y :: y != x ==> (y in st'.registry <==> y in st.registry) &&
                                       (y in st.registry ==> st'.registry[y] == st.registry[y]))
  {
    var c, op := st.carts[id].state.core, AddCard(x, cfg.cardLimit);
    OneOp(SchemeOf(cfg), st.carts[id].state, op);
    if CardFits(c, x, cfg.cardLimit) {
      OneCardAdded(c, x, cfg.cardLimit, x);
    } else if Accepting(c) && c.cardsNumber < cfg.cardLimit {
      assert Holds(c, x);
    }
  }

  /** A card given up is in the cart no more, where the cart takes items; every other card is as it was. */
  lemma GivenUpIsGone(cfg: Config, st: Store, id: nat, x: nat, y: nat)
    requires id in st.carts
    ensures var c, c' := st.carts[id].state.core, Act(cfg, st, OnCart(id, VoidLoyalty(x))).carts[id].state.core;
            Holds(c', y) <==> Holds(c, y) && (y == x ==> !Accepting(c))
    ensures Act(cfg, st, OnCart(id, VoidLoyalty(x))).registry == st.registry
  {
    var c := st.carts[id].state.core;
    OneOp(SchemeOf(cfg), st.carts[id].state, RemoveCard(x));
    var c' := RemoveCardCore(c, x);
    if Holds(c, y) && y != x && Accepting(c) {
      var k :| k in c.slots && c.slots[k] == y;
      assert k in c'.slots && c'.slots[k] == y;
    }
    if Holds(c', y) {
      var k :| k in c'.slots && c'.slots[k] == y;
      assert k in c.slots && c.slots[k] == y;
    }
  }

  // ----- session numbers are fresh

  predicate Fresh(st: Store) {
    forall n :: n in st.carts ==> n < st.next
  }

  function Openings(actions: seq<Action>): nat {
    if actions == [] then 0 else (if actions[0].OpenSession? then 1 else 0) + Openings(actions[1..])
  }

  lemma OpenAddsOne(st: Store)
    requires st.next !in st.carts
    ensures Open(st).carts.Keys == st.carts.Keys + {st.next} && |Open(st).carts| == |st.carts| + 1
  {
  }

  lemma OthersKeepKeys(cfg: Config, st: Store, a: Action)
    requires !a.OpenSession?
    ensures var st' := Act(cfg, st, a);
            st'.carts.Keys == st.carts.Keys && |st'.carts| == |st.carts| && st'.next == st.next
  {
    var st' := Act(cfg, st, a);
    assert st'.carts.Keys == st.carts.Keys;
    assert |st'.carts.Keys| == |st'.carts| && |st.carts.Keys| == |st.carts|;
  }

  lemma FreshStep(cfg: Config, st: Store, a: Action)
    requires Fresh(st) && (a.OpenSession? ==> st.next < 0xFFFF_FFFF)
    ensures var st', n := Act(cfg, st, a), if a.OpenSession? then 1 else 0;
            Fresh(st') && st'.next == st.next + n && |st'.carts| == |st.carts| + n && st.carts.Keys <= st'.carts.Keys
  {
    if a.OpenSession? {
      OpenAddsOne(st);
    } else {
      OthersKeepKeys(cfg, st, a);
    }
  }

  lemma ActKeepsCarts(cfg: Config, st: Store, a: Action)
    requires st.next <= 0xFFFF_FFFF
    ensures st.carts.Keys <= Act(cfg, st, a).carts.Keys
    ensures Act(cfg, st, a).next <= 0xFFFF_FFFF
  {
  }

  lemma {:induction false} ServeKeepsCarts(cfg: Config, st: Store, actions: seq<Action>)
    requires st.next <= 0xFFFF_FFFF
    ensures st.carts.Keys <= Serve(cfg, st, actions).carts.Keys
    ensures Serve(cfg, st, actions).next <= 0xFFFF_FFFF
    decreases |actions|
  {
    if actions != [] {
      ActKeepsCarts(cfg, st, actions[0]);
      ServeKeepsCarts(cfg, Act(cfg, st, actions[0]), actions[1..]);
    }
  }

  /**
   The next number stays above every number in use exactly as long as the 32-bit numbers last; while they do,
   every session opened adds a cart under a new, larger number.
   */
  lemma {:induction false} NumbersStayFresh(cfg: Config, st: Store, actions: seq<Action>)
    requires Fresh(st) && st.next <= 0xFFFF_FFFF
    ensures var st' := Serve(cfg, st, actions);
            && (Fresh(st') <==> st.next + Openings(actions) <= 0xFFFF_FFFF)
            && (Fresh(st') ==> st'.next == st.next + Openings(actions) && |st'.carts| == |st.carts| + Openings(actions))
            && st.carts.Keys <= st'.carts.Keys
    decreases |actions|
  {
    if actions != [] {
      var a, rest, st1 := actions[0], actions[1..], Act(cfg, st, actions[0]);
      ActKeepsCarts(cfg, st, a);
      if a.OpenSession? && st.next == 0xFFFF_FFFF {
        assert 0xFFFF_FFFF in st1.carts;
        ServeKeepsCarts(cfg, st1, rest);
      } else {
        FreshStep(cfg, st, a);
        NumbersStayFresh(cfg, st1, rest);
      }
    }
  }

  // ----- every cart stays recoverable

  ghost predicate AllRecoverable(cfg: Config, st: Store) {
    && CatalogueOk(cfg, st.items)
    && forall n :: n in st.carts ==> FileTells(cfg, st.carts[n].state.core, st.carts[n].log)
  }

  lemma AfterIsRecoverable(cfg: Config, items: map<nat, Item>, v: CartView, e: Event)
    requires CatalogueOk(cfg, items) && FileTells(cfg, v.state.core, v.log)
    ensures var v' := After(cfg, items, v, e); FileTells(cfg, v'.state.core, v'.log)
  {
    var sch, ops := SchemeOf(cfg), EventOps(cfg, items, v.state.core, e);
    EventIsSound(cfg, items, v.state, e);
    RunMirrors(sch, v.state, CoreReplay(sch, LOADING, v.log), ops);
    CoreReplayConcat(sch, LOADING, v.log, Log(v.state, ops));
  }

  lemma OpenIsRecoverable(cfg: Config, st: Store)
    requires AllRecoverable(cfg, st)
    ensures AllRecoverable(cfg, Open(st))
  {
    EmptyInv(SchemeOf(cfg), Ready);
    assert FileTells(cfg, Empty(Ready).core, []);
  }

  lemma ActionIsRecoverable(cfg: Config, st: Store, id: nat, e: Event)
    requires AllRecoverable(cfg, st) && id in st.carts
    ensures AllRecoverable(cfg, ActOnCart(cfg, st, id, e))
  {
    AfterIsRecoverable(cfg, st.items, st.carts[id], e);
  }

  lemma ActIsRecoverable(cfg: Config, st: Store, a: Action)
    requires AllRecoverable(cfg, st) && (a.Variation? ==> a.department != 0)
    ensures AllRecoverable(cfg, Act(cfg, st, a))
  {
    match a
    case OpenSession => OpenIsRecoverable(cfg, st);
    case OnCart(id, e) => if id in st.carts { ActionIsRecoverable(cfg, st, id, e); }
    case Variation(code, description, department, price) =>
      UpdateKeepsCatalogue(cfg, st.items, code, description, department, price);
  }

  lemma {:induction false} EveryCartStaysRecoverable(cfg: Config, st: Store, actions: seq<Action>)
    requires AllRecoverable(cfg, st)
    requires forall i :: 0 <= i < |actions| && actions[i].Variation? ==> actions[i].department != 0
    ensures AllRecoverable(cfg, Serve(cfg, st, actions))
    decreases |actions|
  {
    if actions != [] {
      ActIsRecoverable(cfg, st, actions[0]);
      EveryCartStaysRecoverable(cfg, Act(cfg, st, actions[0]), actions[1..]);
    }
  }
}
