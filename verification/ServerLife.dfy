/**
 The server through web actions, variations, and restarts that read the files left in any order, whole or
 with rows lost at their ends.
 */
module ServerLife {
  import opened Catalogue
  import opened Options
  import opened CartModel
  import opened LoyaltySlots
  import opened Recovery
  import opened SalesActions
  import opened Restarts
  import opened ServerStore
  import opened Loading

  datatype Change = Do(action: Action) | Restart(files: seq<File>, items: map<nat, Item>)

  function Next(cfg: Config, st: Store, e: Change): Store {
    match e
    case Do(action) => Act(cfg, st, action)
    case Restart(files, items) => LoadFiles(cfg, Booted(items), files)
  }

  function Life(cfg: Config, st: Store, es: seq<Change>): Store
    decreases |es|
  {
    if es == [] then st else Life(cfg, Next(cfg, st, es[0]), es[1..])
  }

  /** A restart reads what is left of the carts' files, and any catalogue that is in order. */
  ghost predicate Allowed(cfg: Config, st: Store, e: Change) {
    match e
    case Do(action) => action.Variation? ==> action.department != 0
    case Restart(files, items) => Surviving(st.carts, files) && CatalogueOk(cfg, items)
  }

  ghost predicate AllowedLife(cfg: Config, st: Store, es: seq<Change>)
    decreases |es|
  {
    es == [] || (Allowed(cfg, st, es[0]) && AllowedLife(cfg, Next(cfg, st, es[0]), es[1..]))
  }

  // ----- every cart stays recoverable

  lemma PrefixReplays(sch: Scheme, log: seq<LogRow>, rows: seq<LogRow>)
    requires LogOk(sch, LOADING, log) && rows <= log
    ensures LogOk(sch, LOADING, rows)
  {
    assert rows == log[..|rows|];
    CutKeepsLogOk(sch, log, |rows|);
  }

  lemma SurvivorIsRecoverable(cfg: Config, st: Store, items: map<nat, Item>, files: seq<File>, n: nat)
    requires AllRecoverable(cfg, st) && Surviving(st.carts, files) && CatalogueOk(cfg, items)
    ensures var back := LoadFiles(cfg, Booted(items), files).carts;
            && (n in back <==> n in st.carts)
            && (n in back ==> back[n].log <= st.carts[n].log && FileTells(cfg, back[n].state.core, back[n].log))
  {
    LoadedCarts(cfg, Booted(items), files, n);
    if n in st.carts {
      var i :| 0 <= i < |files| && files[i].number == n;
      PrefixReplays(SchemeOf(cfg), st.carts[n].log, files[i].rows);
      RestartIsRecoverable(cfg, items, files[i].rows);
    }
  }

  lemma RestartedStoreIsRecoverable(cfg: Config, st: Store, items: map<nat, Item>, files: seq<File>)
    requires AllRecoverable(cfg, st) && Surviving(st.carts, files) && CatalogueOk(cfg, items)
    ensures AllRecoverable(cfg, LoadFiles(cfg, Booted(items), files))
  {
    var back := LoadFiles(cfg, Booted(items), files);
    ItemsStay(cfg, Booted(items), files);
    forall n | n in back.carts
      ensures FileTells(cfg, back.carts[n].state.core, back.carts[n].log)
    {
      SurvivorIsRecoverable(cfg, st, items, files, n);
    }
  }

  lemma ChangeIsRecoverable(cfg: Config, st: Store, e: Change)
    requires AllRecoverable(cfg, st) && Allowed(cfg, st, e)
    ensures AllRecoverable(cfg, Next(cfg, st, e))
  {
    match e
    case Do(action) => ActIsRecoverable(cfg, st, action);
    case Restart(files, items) => RestartedStoreIsRecoverable(cfg, st, items, files);
  }

  /**
   However often the server restarts, in whatever order, from whatever catalogue and with whatever rows lost, its
   carts stay recoverable.
   */
  lemma {:induction false} AnyServerLifeIsRecoverable(cfg: Config, st: Store, es: seq<Change>)
    requires AllRecoverable(cfg, st) && AllowedLife(cfg, st, es)
    ensures AllRecoverable(cfg, Life(cfg, st, es))
    decreases |es|
  {
    if es != [] {
      ChangeIsRecoverable(cfg, st, es[0]);
      AnyServerLifeIsRecoverable(cfg, Next(cfg, st, es[0]), es[1..]);
    }
  }

  // ----- numbers stay fresh

  function SessionsOpened(es: seq<Change>): nat {
    if es == [] then 0 else (if es[0].Do? && es[0].action.OpenSession? then 1 else 0) + SessionsOpened(es[1..])
  }

  /** The next number is the least above those in use. */
  predicate Tight(st: Store) {
    Fresh(st) && 1 <= st.next <= 0xFFFF_FFFF && (st.next == 1 || st.next - 1 in st.carts)
  }

  predicate InRange(st: Store) {
    st.next <= 0xFFFF_FFFF && forall n :: n in st.carts ==> n <= 0xFFFF_FFFF
  }

  lemma RestartKeepsTight(cfg: Config, st: Store, items: map<nat, Item>, files: seq<File>)
    requires Tight(st) && Surviving(st.carts, files)
    ensures var back := LoadFiles(cfg, Booted(items), files);
            back.carts.Keys == st.carts.Keys && back.next == st.next && Tight(back)
  {
    NumbersComeBack(cfg, st, items, files);
    NextComesBack(cfg, st, items, files);
    SameNumbersStayTight(st, LoadFiles(cfg, Booted(items), files));
  }

  lemma SameNumbersStayTight(st: Store, back: Store)
    requires Tight(st) && back.carts.Keys == st.carts.Keys && back.next == st.next
    ensures Tight(back)
  {
    assert forall n :: n in back.carts <==> n in st.carts;
  }

  lemma NextComesBack(cfg: Config, st: Store, items: map<nat, Item>, files: seq<File>)
    requires Tight(st) && Surviving(st.carts, files)
    ensures LoadFiles(cfg, Booted(items), files).next == st.next
  {
    var next := LoadFiles(cfg, Booted(items), files).next;
    NextIsBeyond(cfg, Booted(items), files);
    if st.next > 1 {
      var i :| 0 <= i < |files| && files[i].number == st.next - 1;
      assert files[i].number < next;
    }
    if next != 1 {
      var j :| 0 <= j < |files| && next == files[j].number + 1;
      assert files[j].number in st.carts;
    }
  }

  lemma ChangeKeepsTight(cfg: Config, st: Store, e: Change)
    requires Tight(st) && st.next + SessionsOpened([e]) <= 0xFFFF_FFFF && Allowed(cfg, st, e)
    ensures var st', n := Next(cfg, st, e), SessionsOpened([e]);
            Tight(st') && st'.next == st.next + n && |st'.carts| == |st.carts| + n && st.carts.Keys <= st'.carts.Keys
  {
    assert [e][1..] == [];
    match e
    case Do(action) => FreshStep(cfg, st, action);
    case Restart(files, items) =>
      var back := LoadFiles(cfg, Booted(items), files);
      RestartKeepsTight(cfg, st, items, files);
      assert |back.carts.Keys| == |back.carts| && |st.carts.Keys| == |st.carts|;
  }

  lemma ChangeKeepsCarts(cfg: Config, st: Store, e: Change)
    requires InRange(st) && Allowed(cfg, st, e)
    ensures InRange(Next(cfg, st, e)) && st.carts.Keys <= Next(cfg, st, e).carts.Keys
  {
    match e
    case Do(action) => ActKeepsCarts(cfg, st, action);
    case Restart(files, items) =>
      NumbersComeBack(cfg, st, items, files);
      NextIsNumber(cfg, Booted(items), files);
  }

  lemma {:induction false} LifeKeepsCarts(cfg: Config, st: Store, es: seq<Change>)
    requires InRange(st) && AllowedLife(cfg, st, es)
    ensures InRange(Life(cfg, st, es)) && st.carts.Keys <= Life(cfg, st, es).carts.Keys
    decreases |es|
  {
    if es != [] {
      ChangeKeepsCarts(cfg, st, es[0]);
      LifeKeepsCarts(cfg, Next(cfg, st, es[0]), es[1..]);
    }
  }

  /**
   Through restarts too, the next number stays above every number in use exactly as long as the 32-bit numbers
   last; while they do, each session opened is a cart more, and the next number counts them.
   */
  lemma {:induction false} NumbersStayFreshOverLife(cfg: Config, st: Store, es: seq<Change>)
    requires Tight(st) && AllowedLife(cfg, st, es)
    ensures var st' := Life(cfg, st, es);
            && (Fresh(st') <==> st.next + SessionsOpened(es) <= 0xFFFF_FFFF)
            && (Fresh(st') ==>
                  st'.next == st.next + SessionsOpened(es) && |st'.carts| == |st.carts| + SessionsOpened(es))
            && st.carts.Keys <= st'.carts.Keys
    decreases |es|
  {
    if es != [] {
      var e, st1 := es[0], Next(cfg, st, es[0]);
      assert [e][1..] == [];
      ChangeKeepsCarts(cfg, st, e);
      if e == Do(OpenSession) && st.next == 0xFFFF_FFFF {
        assert 0xFFFF_FFFF in st1.carts;
        LifeKeepsCarts(cfg, st1, es[1..]);
      } else {
        ChangeKeepsTight(cfg, st, e);
        NumbersStayFreshOverLife(cfg, st1, es[1..]);
      }
    }
  }

  // ----- when cards stay exclusive across a restart

  /** No card is named in a file read after the file of a cart that holds it. */
  ghost predicate CardSafe(cfg: Config, items: map<nat, Item>, files: seq<File>) {
    forall i, j, x :: 0 <= i < j < |files| && Holds(Recover(SchemeOf(cfg), items, files[i].rows).core, x) ==>
      !Mentions(files[j].rows, x)
  }

  lemma HeldCardIff(cfg: Config, items: map<nat, Item>, files: seq<File>, i: nat, x: nat)
    requires i < |files| && DistinctNumbers(files) && LogOk(SchemeOf(cfg), LOADING, files[i].rows)
    requires Holds(Recover(SchemeOf(cfg), items, files[i].rows).core, x)
    ensures RegisteredTo(LoadFiles(cfg, Booted(items), files).registry, x) == Some(files[i].number) <==>
              forall j :: i < j < |files| ==> !Mentions(files[j].rows, x)
  {
    var before, later := files[..i], files[i + 1..];
    assert files == before + [files[i]] + later;
    HeldCardStaysRegisteredIffUnnamedLater(cfg, items, before, files[i], later, x);
    LaterMentions(files, i, later, x);
  }

  lemma LaterMentions(files: seq<File>, i: nat, later: seq<File>, x: nat)
    requires i < |files| && later == files[i + 1..]
    ensures (forall k :: 0 <= k < |later| ==> !Mentions(later[k].rows, x)) <==>
              forall j :: i < j < |files| ==> !Mentions(files[j].rows, x)
  {
    assert forall j :: i < j < |files| ==> files[j] == later[j - i - 1];
    assert forall k :: 0 <= k < |later| ==> later[k] == files[k + i + 1];
  }

  /** After a restart every held card is registered to its holder exactly when the order was safe for the cards. */
  lemma {:induction false} ExclusiveAfterRestartIff(cfg: Config, items: map<nat, Item>, files: seq<File>)
    requires DistinctNumbers(files) && forall i :: 0 <= i < |files| ==> LogOk(SchemeOf(cfg), LOADING, files[i].rows)
    ensures Exclusive(LoadFiles(cfg, Booted(items), files)) <==> CardSafe(cfg, items, files)
  {
    var back := LoadFiles(cfg, Booted(items), files);
    if Exclusive(back) {
      forall i, j, x | 0 <= i < j < |files| && Holds(Recover(SchemeOf(cfg), items, files[i].rows).core, x)
        ensures !Mentions(files[j].rows, x)
      {
        LoadedCarts(cfg, Booted(items), files, files[i].number);
        HeldCardIff(cfg, items, files, i, x);
      }
    }
    if CardSafe(cfg, items, files) {
      forall n, x | n in back.carts && Holds(back.carts[n].state.core, x)
        ensures x in back.registry && back.registry[x] == n
      {
        LoadedCarts(cfg, Booted(items), files, n);
        var i :| 0 <= i < |files| && files[i].number == n;
        HeldCardIff(cfg, items, files, i, x);
      }
    }
  }

  ghost predicate SafeOrders(cfg: Config, st: Store, es: seq<Change>)
    decreases |es|
  {
    es == [] || ((es[0].Restart? ==> CardSafe(cfg, es[0].items, es[0].files)) &&
        SafeOrders(cfg, Next(cfg, st, es[0]), es[1..]))
  }

  lemma SurvivorsReplay(cfg: Config, st: Store, files: seq<File>)
    requires AllRecoverable(cfg, st) && Surviving(st.carts, files)
    ensures forall i :: 0 <= i < |files| ==> LogOk(SchemeOf(cfg), LOADING, files[i].rows)
  {
    forall i | 0 <= i < |files|
      ensures LogOk(SchemeOf(cfg), LOADING, files[i].rows)
    {
      PrefixReplays(SchemeOf(cfg), st.carts[files[i].number].log, files[i].rows);
    }
  }

  /** With one session per card, and restarts in orders safe for the cards, no two carts ever hold one card. */
  lemma {:induction false} CardsAreExclusiveOverLife(cfg: Config, st: Store, es: seq<Change>)
    requires cfg.oneSession && AllRecoverable(cfg, st) && Exclusive(st)
    requires AllowedLife(cfg, st, es) && SafeOrders(cfg, st, es)
    ensures Exclusive(Life(cfg, st, es)) && Unshared(Life(cfg, st, es).carts)
    decreases |es|
  {
    if es == [] {
      ExclusiveIsUnshared(st);
    } else {
      match es[0] {
        case Do(action) => ExclusiveStep(cfg, st, action);
        case Restart(files, items) =>
          SurvivorsReplay(cfg, st, files);
          ExclusiveAfterRestartIff(cfg, items, files);
      }
      ChangeIsRecoverable(cfg, st, es[0]);
      CardsAreExclusiveOverLife(cfg, Next(cfg, st, es[0]), es[1..]);
    }
  }

  // ----- when they do not

  lemma FirstChange(cfg: Config, st: Store, e: Change, es: seq<Change>)
    ensures Life(cfg, st, [e] + es) == Life(cfg, Next(cfg, st, e), es)
    ensures AllowedLife(cfg, st, [e] + es) <==> Allowed(cfg, st, e) && AllowedLife(cfg, Next(cfg, st, e), es)
  {
    assert ([e] + es)[1..] == es;
  }

  function Opening(): Change { Do(OpenSession) }
  function Giving(n: nat, x: nat): Change { Do(OnCart(n, AddLoyalty(x))) }
  function Taking(n: nat, x: nat): Change { Do(OnCart(n, VoidLoyalty(x))) }

  lemma FreshCartTakesCard(cfg: Config, st: Store, n: nat, x: nat)
    requires n in st.carts && st.carts[n] == CartView(Empty(Ready), []) && x !in st.registry && cfg.cardLimit >= 1
    ensures var st' := Next(cfg, st, Giving(n, x));
            && st'.items == st.items && st'.registry == st.registry[x := n] && st'.next == st.next
            && (exists c :: st'.carts == st.carts[n := CartView(c, [CardAddRow(x)])] && c.core.slots == map[0 := x] &&
                            c.core.phase == Ready && c.core.cardsNumber == 1)
  {
    var op := AddCard(x, cfg.cardLimit);
    OneOp(SchemeOf(cfg), Empty(Ready), op);
    assert [op][1..] == [];
    var c := Apply(Empty(Ready), op);
    assert Log(Empty(Ready), [op]) == Rows(Empty(Ready).core, op) == [CardAddRow(x)];
    assert Next(cfg, st, Giving(n, x)).carts == st.carts[n := CartView(c, [] + [CardAddRow(x)])];
    assert [] + [CardAddRow(x)] == [CardAddRow(x)];
  }

  lemma HeldCardIsFreed(cfg: Config, s: CartState, x: nat)
    requires s.core.slots == map[0 := x] && s.core.phase == Ready
    ensures Log(s, [RemoveCard(x)]) == [CardVoidRow(x)]
  {
    var op := RemoveCard(x);
    assert [op][1..] == [];
    assert WithoutCard(s.core.slots, x) == map[];
    assert Repeat(CardVoidRow(x), 1) == [CardVoidRow(x)];
  }

  lemma CartGivesCardBack(cfg: Config, st: Store, n: nat, x: nat)
    requires n in st.carts && st.carts[n].state.core.slots == map[0 := x] && st.carts[n].state.core.phase == Ready
    ensures var st' := Next(cfg, st, Taking(n, x));
            && st'.items == st.items && st'.registry == st.registry && st'.next == st.next
            && (exists c :: st'.carts == st.carts[n := CartView(c, st.carts[n].log + [CardVoidRow(x)])])
  {
    var s := st.carts[n].state;
    HeldCardIsFreed(cfg, s, x);
    assert Next(cfg, st, Taking(n, x)).carts ==
           st.carts[n := CartView(CartModel.Run(s, [RemoveCard(x)]), st.carts[n].log + [CardVoidRow(x)])];
  }

  lemma SessionOpens(cfg: Config, st: Store)
    requires st.next !in st.carts && st.next < 0xFFFF_FFFF
    ensures Next(cfg, st, Opening()) ==
            Store(st.carts[st.next := CartView(Empty(Ready), [])], st.items, st.registry, st.next + 1)
  {
  }

  /** Cart 1 took a card and gave it up; the restart leaves it registered to no one. */
  lemma FirstRestart(cfg: Config, st: Store, items: map<nat, Item>, x: nat)
    requires CatalogueOk(cfg, items) && st.carts.Keys == {1} && st.carts[1].log == [CardAddRow(x), CardVoidRow(x)]
    ensures var e := Restart([File(1, [CardAddRow(x), CardVoidRow(x)])], items);
            var back := Next(cfg, st, e);
            Allowed(cfg, st, e) && back.carts.Keys == {1} && back.carts[1].log == st.carts[1].log &&
            back.registry == map[] && back.next == 2
  {
    var rows := [CardAddRow(x), CardVoidRow(x)];
    var f := File(1, rows);
    LoadOne(cfg, Booted(items), f);
    TakenAndGivenBack(map[], 1, x);
    assert [f][0].number == 1;
  }

  lemma TakenAndGivenBack(registry: map<nat, nat>, n: nat, x: nat)
    ensures RegisterRows(registry, n, [CardAddRow(x), CardVoidRow(x)]) == registry[x := n] - {x}
  {
    var add, void := CardAddRow(x), CardVoidRow(x);
    assert [add, void][1..] == [void] && [void][1..] == [];
    assert RegisterRows(registry[x := n], n, [void]) == registry[x := n] - {x};
  }

  /** Cart 2 holds the card; read in the order 2, 1, its registration is erased. */
  lemma SecondRestart(cfg: Config, st: Store, items: map<nat, Item>, x: nat)
    requires CatalogueOk(cfg, items) && st.carts.Keys == {1, 2} && cfg.cardLimit >= 1
    requires st.carts[1].log == [CardAddRow(x), CardVoidRow(x)] && st.carts[2].log == [CardAddRow(x)]
    ensures var e := Restart([File(2, [CardAddRow(x)]), File(1, [CardAddRow(x), CardVoidRow(x)])], items);
            var back := Next(cfg, st, e);
            Allowed(cfg, st, e) && back.carts.Keys == {1, 2} && Holds(back.carts[2].state.core, x) &&
            x !in back.registry && back.next == 3
  {
    var one, two := File(1, [CardAddRow(x), CardVoidRow(x)]), File(2, [CardAddRow(x)]);
    var st1 := LoadFile(cfg, Booted(items), two);
    assert [two, one] == [two] + [one];
    LoadFilesConcat(cfg, Booted(items), [two], [one]);
    LoadOne(cfg, Booted(items), two);
    LoadOne(cfg, st1, one);
    OneCardFile(SchemeOf(cfg), items, x);
    TakenAndGivenBack(st1.registry, 1, x);
    assert [two, one][0].number == 2 && [two, one][1].number == 1;
  }

  lemma {:induction false} LifeConcat(cfg: Config, st: Store, a: seq<Change>, b: seq<Change>)
    ensures Life(cfg, st, a + b) == Life(cfg, Life(cfg, st, a), b)
    ensures AllowedLife(cfg, st, a + b) <==> AllowedLife(cfg, st, a) && AllowedLife(cfg, Life(cfg, st, a), b)
    decreases |a|
  {
    if a == [] {
      assert a + b == b;
    } else {
      assert (a + b)[1..] == a[1..] + b;
      LifeConcat(cfg, Next(cfg, st, a[0]), a[1..], b);
    }
  }

  lemma TwoChanges(cfg: Config, st: Store, d: Change, e: Change)
    ensures Life(cfg, st, [d, e]) == Next(cfg, Next(cfg, st, d), e)
    ensures AllowedLife(cfg, st, [d, e]) <==> Allowed(cfg, st, d) && Allowed(cfg, Next(cfg, st, d), e)
  {
    assert [d, e] == [d] + ([e] + []);
    FirstChange(cfg, st, d, [e] + []);
    FirstChange(cfg, Next(cfg, st, d), e, []);
  }

  lemma OpenAndGive(cfg: Config, st: Store, x: nat)
    requires st.next !in st.carts && st.next < 0xFFFF_FFFF && x !in st.registry && cfg.cardLimit >= 1
    ensures var es := [Opening(), Giving(st.next, x)];
            var st' := Life(cfg, st, es);
            && AllowedLife(cfg, st, es)
            && st'.carts.Keys == st.carts.Keys + {st.next} &&
                 (forall n :: n in st.carts ==> st'.carts[n] == st.carts[n])
            && st'.carts[st.next].log == [CardAddRow(x)] && Holds(st'.carts[st.next].state.core, x)
            && st'.carts[st.next].state.core.slots == map[0 := x] && st'.carts[st.next].state.core.phase == Ready
            && st'.items == st.items && st'.next == st.next + 1
  {
    var st1 := Next(cfg, st, Opening());
    SessionOpens(cfg, st);
    FreshCartTakesCard(cfg, st1, st.next, x);
    TwoChanges(cfg, st, Opening(), Giving(st.next, x));
    var slots := Next(cfg, st1, Giving(st.next, x)).carts[st.next].state.core.slots;
    assert 0 in slots && slots[0] == x;
  }

  lemma GiveBackAndRestart(cfg: Config, st: Store, items: map<nat, Item>, x: nat)
    requires CatalogueOk(cfg, items) && st.carts.Keys == {1} && st.carts[1].log == [CardAddRow(x)]
    requires st.carts[1].state.core.slots == map[0 := x] && st.carts[1].state.core.phase == Ready
    ensures var es := [Taking(1, x), Restart([File(1, [CardAddRow(x), CardVoidRow(x)])], items)];
            var st' := Life(cfg, st, es);
            && AllowedLife(cfg, st, es)
            && st'.carts.Keys == {1} && st'.carts[1].log == [CardAddRow(x), CardVoidRow(x)]
            && st'.registry == map[] && st'.next == 2
  {
    var st1, restart := Next(cfg, st, Taking(1, x)), Restart([File(1, [CardAddRow(x), CardVoidRow(x)])], items);
    CartGivesCardBack(cfg, st, 1, x);
    assert [CardAddRow(x)] + [CardVoidRow(x)] == [CardAddRow(x), CardVoidRow(x)];
    assert st1.carts.Keys == {1};
    FirstRestart(cfg, st1, items, x);
    TwoChanges(cfg, st, Taking(1, x), restart);
  }

  function CartOne(x: nat): File { File(1, [CardAddRow(x), CardVoidRow(x)]) }
  function CartTwo(x: nat): File { File(2, [CardAddRow(x)]) }

  /** Cart 1 takes a card and gives it up, and after a restart cart 2 takes it. */
  function CardMoves(items: map<nat, Item>, x: nat): seq<Change> {
    ([Opening(), Giving(1, x)] + [Taking(1, x), Restart([CartOne(x)], items)]) + [Opening(), Giving(2, x)]
  }

  /** A second restart reads cart 2's file before cart 1's. */
  function CardMovesAndRestart(items: map<nat, Item>, x: nat): seq<Change> {
    CardMoves(items, x) + [Restart([CartTwo(x), CartOne(x)], items)]
  }

  lemma AfterFirstRestart(cfg: Config, items: map<nat, Item>, x: nat)
    requires cfg.cardLimit >= 1 && CatalogueOk(cfg, items)
    ensures var es := [Opening(), Giving(1, x)] + [Taking(1, x), Restart([CartOne(x)], items)];
            var st := Life(cfg, Booted(items), es);
            && AllowedLife(cfg, Booted(items), es)
            && st.carts.Keys == {1} && st.carts[1].log == CartOne(x).rows && st.registry == map[] && st.next == 2
  {
    var a, b := [Opening(), Giving(1, x)], [Taking(1, x), Restart([CartOne(x)], items)];
    var st0 := Booted(items);
    OpenAndGive(cfg, st0, x);
    var st1 := Life(cfg, st0, a);
    assert st1.carts.Keys == {1};
    GiveBackAndRestart(cfg, st1, items, x);
    LifeConcat(cfg, st0, a, b);
  }

  lemma AfterCardMoves(cfg: Config, items: map<nat, Item>, x: nat)
    requires cfg.cardLimit >= 1 && CatalogueOk(cfg, items)
    ensures var st := Life(cfg, Booted(items), CardMoves(items, x));
            && AllowedLife(cfg, Booted(items), CardMoves(items, x))
            && st.carts.Keys == {1, 2} && st.carts[1].log == CartOne(x).rows && st.carts[2].log == CartTwo(x).rows
  {
    var es := [Opening(), Giving(1, x)] + [Taking(1, x), Restart([CartOne(x)], items)];
    AfterFirstRestart(cfg, items, x);
    OpenAndGive(cfg, Life(cfg, Booted(items), es), x);
    LifeConcat(cfg, Booted(items), es, [Opening(), Giving(2, x)]);
  }

  lemma AfterSecondRestart(cfg: Config, items: map<nat, Item>, x: nat)
    requires cfg.cardLimit >= 1 && CatalogueOk(cfg, items)
    ensures var st := Life(cfg, Booted(items), CardMovesAndRestart(items, x));
            && AllowedLife(cfg, Booted(items), CardMovesAndRestart(items, x))
            && st.carts.Keys == {1, 2} && Holds(st.carts[2].state.core, x) && x !in st.registry && st.next == 3
  {
    var e := Restart([CartTwo(x), CartOne(x)], items);
    var st := Life(cfg, Booted(items), CardMoves(items, x));
    AfterCardMoves(cfg, items, x);
    SecondRestart(cfg, st, items, x);
    assert [e] == [e] + [];
    FirstChange(cfg, st, e, []);
    LifeConcat(cfg, Booted(items), CardMoves(items, x), [e]);
  }

  /**
   Two restarts can end the exclusiveness of a card that web actions alone keep. Cart 1 takes a card and gives it
   up; a restart erases the registration; cart 2 takes the card; a second restart reads cart 2's file before
   cart 1's and erases it again; and cart 3 takes the card that cart 2 still holds.
   */
  lemma RestartsLetCartsShareACard(cfg: Config, items: map<nat, Item>, x: nat)
    requires cfg.oneSession && cfg.cardLimit >= 1 && CatalogueOk(cfg, items)
    ensures var es := CardMovesAndRestart(items, x) + [Opening(), Giving(3, x)];
            AllowedLife(cfg, Booted(items), es) && !Unshared(Life(cfg, Booted(items), es).carts)
  {
    var es, last := CardMovesAndRestart(items, x), [Opening(), Giving(3, x)];
    var st := Life(cfg, Booted(items), es);
    AfterSecondRestart(cfg, items, x);
    OpenAndGive(cfg, st, x);
    LifeConcat(cfg, Booted(items), es, last);
    var st' := Life(cfg, st, last);
    assert Holds(st'.carts[3].state.core, x) && Holds(st'.carts[2].state.core, x);
  }
}
