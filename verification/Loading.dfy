/** The restart of the server: every transaction file left in the carts directory is replayed, in any order. */
module Loading {
  import opened Catalogue
  import opened Options
  import opened CartModel
  import opened LoyaltySlots
  import opened Recovery
  import opened CrashSafety
  import opened SalesActions
  import opened Restarts
  import opened ServerStore

  datatype File = File(number: nat, rows: seq<LogRow>)

  function RegisterRow(registry: map<nat, nat>, n: nat, row: LogRow): map<nat, nat> {
    match row
    case CardAddRow(card) => registry[card := n]
    case CardVoidRow(card) => registry - {card}
    case _ => registry
  }

  function RegisterRows(registry: map<nat, nat>, n: nat, rows: seq<LogRow>): map<nat, nat>
    decreases |rows|
  {
    if rows == [] then registry else RegisterRows(RegisterRow(registry, n, rows[0]), n, rows[1..])
  }

  /** One file: a cart under its number, replayed and finished; the next number moves past it. */
  function LoadFile(cfg: Config, st: Store, f: File): Store {
    Store(st.carts[f.number := CartView(Recover(SchemeOf(cfg), st.items, f.rows), f.rows)],
          st.items,
          RegisterRows(st.registry, f.number, f.rows),
          if f.number >= st.next then Successor(f.number) else st.next)
  }

  function LoadFiles(cfg: Config, st: Store, files: seq<File>): Store
    decreases |files|
  {
    if files == [] then st else LoadFiles(cfg, LoadFile(cfg, st, files[0]), files[1..])
  }

  function Booted(items: map<nat, Item>): Store {
    Store(map[], items, map[], 1)
  }

  predicate DistinctNumbers(files: seq<File>) {
    forall i, j :: 0 <= i < j < |files| ==> files[i].number != files[j].number
  }

  /** Session numbers are unsigned 32-bit. */
  predicate Numbers32(files: seq<File>) {
    forall i :: 0 <= i < |files| ==> files[i].number <= 0xFFFF_FFFF
  }

  /** No file has the last number, after which the next number starts over. */
  predicate BelowLimit(files: seq<File>) {
    forall i :: 0 <= i < |files| ==> files[i].number < 0xFFFF_FFFF
  }

  // ----- which carts there are

  lemma {:induction false} LoadedCarts(cfg: Config, st: Store, files: seq<File>, n: nat)
    requires DistinctNumbers(files)
    ensures (forall i :: 0 <= i < |files| ==> files[i].number != n) ==>
              (n in LoadFiles(cfg, st, files).carts <==> n in st.carts) &&
              (n in st.carts ==> LoadFiles(cfg, st, files).carts[n] == st.carts[n])
    ensures forall i :: 0 <= i < |files| && files[i].number == n ==>
              n in LoadFiles(cfg, st, files).carts &&
              LoadFiles(cfg, st, files).carts[n] ==
                  CartView(Recover(SchemeOf(cfg), st.items, files[i].rows), files[i].rows)
    decreases |files|
  {
    if files != [] {
      var st', rest := LoadFile(cfg, st, files[0]), files[1..];
      LoadedCarts(cfg, st', rest, n);
      forall i | 0 <= i < |files| && files[i].number == n
        ensures n in LoadFiles(cfg, st, files).carts
        ensures LoadFiles(cfg, st, files).carts[n] ==
                CartView(Recover(SchemeOf(cfg), st.items, files[i].rows), files[i].rows)
      {
        if i == 0 {
          assert forall j :: 0 <= j < |rest| ==> rest[j] == files[j + 1];
        } else {
          assert rest[i - 1] == files[i];
        }
      }
    }
  }

  lemma {:induction false} NextIsBeyond(cfg: Config, st: Store, files: seq<File>)
    requires BelowLimit(files)
    ensures var next := LoadFiles(cfg, st, files).next;
            && next >= st.next
            && (forall i :: 0 <= i < |files| ==> files[i].number < next)
            && (next == st.next || exists i :: 0 <= i < |files| && next == files[i].number + 1)
    decreases |files|
  {
    if files != [] {
      var st', rest := LoadFile(cfg, st, files[0]), files[1..];
      NextIsBeyond(cfg, st', rest);
      var next := LoadFiles(cfg, st, files).next;
      forall i | 0 <= i < |files|
        ensures files[i].number < next
      {
        if i > 0 {
          assert files[i] == rest[i - 1];
        }
      }
      if next != st'.next {
        var i :| 0 <= i < |rest| && next == rest[i].number + 1;
        assert rest[i] == files[i + 1];
      }
    }
  }

  lemma {:induction false} NextIsNumber(cfg: Config, st: Store, files: seq<File>)
    requires st.next <= 0xFFFF_FFFF && Numbers32(files)
    ensures LoadFiles(cfg, st, files).next <= 0xFFFF_FFFF
    decreases |files|
  {
    if files != [] {
      NextIsNumber(cfg, LoadFile(cfg, st, files[0]), files[1..]);
    }
  }

  /**
   The next number exceeds every loaded number exactly when no file has the last 32-bit number; and then it is
   the least such number not below the old one.
   */
  lemma NextIsBeyondIff(cfg: Config, st: Store, files: seq<File>)
    requires st.next <= 0xFFFF_FFFF && Numbers32(files)
    ensures var next := LoadFiles(cfg, st, files).next;
            && ((forall i :: 0 <= i < |files| ==> files[i].number < next) <==> BelowLimit(files))
            && (BelowLimit(files) ==>
                  next >= st.next && (next == st.next || exists i :: 0 <= i < |files| && next == files[i].number + 1))
  {
    NextIsNumber(cfg, st, files);
    if BelowLimit(files) {
      NextIsBeyond(cfg, st, files);
    }
  }

  /** A file is in one listing exactly when it is in the other. */
  predicate SameFiles(a: seq<File>, b: seq<File>) {
    && (forall i :: 0 <= i < |a| ==> a[i] in b)
    && (forall i :: 0 <= i < |b| ==> b[i] in a)
  }

  lemma NextAtMost(cfg: Config, items: map<nat, Item>, a: seq<File>, b: seq<File>)
    requires BelowLimit(a) && BelowLimit(b) && SameFiles(a, b)
    ensures LoadFiles(cfg, Booted(items), a).next <= LoadFiles(cfg, Booted(items), b).next
  {
    NextIsBeyond(cfg, Booted(items), a);
    NextIsBeyond(cfg, Booted(items), b);
    var next := LoadFiles(cfg, Booted(items), a).next;
    if next != 1 {
      var i :| 0 <= i < |a| && next == a[i].number + 1;
      var j :| 0 <= j < |b| && b[j] == a[i];
    }
  }

  /** The directory's order changes no recovered cart, and below the limit not the next session number either. */
  lemma OrderOfFilesIsIrrelevant(cfg: Config, items: map<nat, Item>, a: seq<File>, b: seq<File>)
    requires DistinctNumbers(a) && DistinctNumbers(b) && SameFiles(a, b)
    ensures LoadFiles(cfg, Booted(items), a).carts == LoadFiles(cfg, Booted(items), b).carts
    ensures BelowLimit(a) ==> LoadFiles(cfg, Booted(items), a).next == LoadFiles(cfg, Booted(items), b).next
  {
    var x, y := LoadFiles(cfg, Booted(items), a).carts, LoadFiles(cfg, Booted(items), b).carts;
    forall n: nat
      ensures n in x <==> n in y
      ensures n in x ==> x[n] == y[n]
    {
      SameCartEither(cfg, items, a, b, n);
    }
    assert x == y;
    if BelowLimit(a) {
      forall j | 0 <= j < |b|
        ensures b[j].number < 0xFFFF_FFFF
      {
        var i :| 0 <= i < |a| && a[i] == b[j];
      }
      NextAtMost(cfg, items, a, b);
      NextAtMost(cfg, items, b, a);
    }
  }

  lemma SameCartEither(cfg: Config, items: map<nat, Item>, a: seq<File>, b: seq<File>, n: nat)
    requires DistinctNumbers(a) && DistinctNumbers(b) && SameFiles(a, b)
    ensures var x, y := LoadFiles(cfg, Booted(items), a).carts, LoadFiles(cfg, Booted(items), b).carts;
            (n in x <==> n in y) && (n in x ==> x[n] == y[n])
  {
    LoadedCarts(cfg, Booted(items), a, n);
    LoadedCarts(cfg, Booted(items), b, n);
    if i :| 0 <= i < |a| && a[i].number == n {
      var j :| 0 <= j < |b| && b[j] == a[i];
    } else {
      forall j | 0 <= j < |b|
        ensures b[j].number != n
      {
        assert b[j] in a;
      }
    }
  }

  // ----- the last number

  /** With the last number read last, the next number is 0; read first, it is above the others'. */
  lemma LimitLastOrFirst(cfg: Config, items: map<nat, Item>, f: File, rest: seq<File>)
    requires f.number == 0xFFFF_FFFF && BelowLimit(rest) && rest != []
    ensures LoadFiles(cfg, Booted(items), rest + [f]).next == 0
    ensures LoadFiles(cfg, Booted(items), [f] + rest).next > 0
  {
    var st := LoadFiles(cfg, Booted(items), rest);
    LoadFilesConcat(cfg, Booted(items), rest, [f]);
    LoadOne(cfg, st, f);
    NextIsNumber(cfg, Booted(items), rest);
    LoadFilesConcat(cfg, Booted(items), [f], rest);
    LoadOne(cfg, Booted(items), f);
    NextIsBeyond(cfg, LoadFile(cfg, Booted(items), f), rest);
    assert rest[0].number < LoadFiles(cfg, Booted(items), [f] + rest).next;
  }

  function Without(files: seq<File>, k: nat): (rest: seq<File>)
    requires k < |files|
    ensures |rest| == |files| - 1
    ensures forall i :: 0 <= i < |rest| ==> rest[i] == files[if i < k then i else i + 1]
  {
    files[..k] + files[k + 1..]
  }

  lemma WithoutIsApart(files: seq<File>, k: nat)
    requires k < |files| && DistinctNumbers(files)
    ensures DistinctNumbers(Without(files, k))
    ensures forall i :: 0 <= i < |files| - 1 ==> Without(files, k)[i].number != files[k].number
  {
  }

  lemma WithoutHasTheOthers(files: seq<File>, k: nat, i: nat)
    requires k < |files| && i < |files| && i != k
    ensures files[i] in Without(files, k)
  {
    assert files[i] == Without(files, k)[if i < k then i else i - 1];
  }

  lemma PutAtEitherEnd(rest: seq<File>, f: File)
    requires DistinctNumbers(rest) && forall i :: 0 <= i < |rest| ==> rest[i].number != f.number
    ensures DistinctNumbers(rest + [f]) && DistinctNumbers([f] + rest)
  {
  }

  lemma SameAtEitherEnd(files: seq<File>, k: nat)
    requires k < |files|
    ensures SameFiles(files, Without(files, k) + [files[k]]) && SameFiles(files, [files[k]] + Without(files, k))
  {
    forall i | 0 <= i < |files|
      ensures files[i] in Without(files, k) + [files[k]] && files[i] in [files[k]] + Without(files, k)
    {
      if i != k {
        WithoutHasTheOthers(files, k, i);
      }
    }
  }

  lemma Reordered(files: seq<File>, k: nat)
    requires k < |files| && DistinctNumbers(files)
    ensures var f, rest := files[k], Without(files, k);
            && SameFiles(files, rest + [f]) && DistinctNumbers(rest + [f])
            && SameFiles(files, [f] + rest) && DistinctNumbers([f] + rest)
  {
    WithoutIsApart(files, k);
    PutAtEitherEnd(Without(files, k), files[k]);
    SameAtEitherEnd(files, k);
  }

  ghost predicate OrderFree(cfg: Config, items: map<nat, Item>, a: seq<File>) {
    forall b: seq<File> :: DistinctNumbers(b) && SameFiles(a, b) ==>
      LoadFiles(cfg, Booted(items), b).next == LoadFiles(cfg, Booted(items), a).next
  }

  lemma BelowLimitIsOrderFree(cfg: Config, items: map<nat, Item>, a: seq<File>)
    requires DistinctNumbers(a) && BelowLimit(a)
    ensures OrderFree(cfg, items, a)
  {
    forall b: seq<File> | DistinctNumbers(b) && SameFiles(a, b)
      ensures LoadFiles(cfg, Booted(items), b).next == LoadFiles(cfg, Booted(items), a).next
    {
      OrderOfFilesIsIrrelevant(cfg, items, a, b);
    }
  }

  lemma OneFileHasOneOrder(a: seq<File>, b: seq<File>)
    requires |a| == 1 && DistinctNumbers(b) && SameFiles(a, b)
    ensures b == a
  {
    assert a[0] in b;
    forall j | 0 <= j < |b|
      ensures b[j] == a[0]
    {
      assert b[j] in a;
    }
    FewEqualFiles(b, a[0]);
  }

  lemma FewEqualFiles(b: seq<File>, f: File)
    requires forall j :: 0 <= j < |b| ==> b[j] == f
    ensures |b| > 1 ==> !DistinctNumbers(b)
  {
    if |b| > 1 {
      assert b[0].number == b[1].number;
    }
  }

  lemma LimitIsNotOrderFree(cfg: Config, items: map<nat, Item>, a: seq<File>, k: nat)
    requires DistinctNumbers(a) && Numbers32(a) && |a| > 1 && k < |a| && a[k].number == 0xFFFF_FFFF
    ensures !OrderFree(cfg, items, a)
  {
    var f, rest := a[k], Without(a, k);
    Reordered(a, k);
    WithoutIsApart(a, k);
    assert BelowLimit(rest);
    LimitLastOrFirst(cfg, items, f, rest);
    assert LoadFiles(cfg, Booted(items), rest + [f]).next != LoadFiles(cfg, Booted(items), [f] + rest).next;
  }

  /** Every order gives the same next number exactly when no file has the last number, or there is no other file. */
  lemma NextIsOrderFreeIff(cfg: Config, items: map<nat, Item>, a: seq<File>)
    requires DistinctNumbers(a) && Numbers32(a)
    ensures OrderFree(cfg, items, a) <==> BelowLimit(a) || |a| <= 1
  {
    if BelowLimit(a) {
      BelowLimitIsOrderFree(cfg, items, a);
    } else if |a| <= 1 {
      forall b: seq<File> | DistinctNumbers(b) && SameFiles(a, b)
        ensures b == a
      {
        OneFileHasOneOrder(a, b);
      }
    } else {
      var k :| 0 <= k < |a| && a[k].number == 0xFFFF_FFFF;
      LimitIsNotOrderFree(cfg, items, a, k);
    }
  }

  // ----- a restart gives the store back

  /** One file per cart, in some order, each holding the first rows of the cart's own. */
  predicate Surviving(carts: map<nat, CartView>, files: seq<File>) {
    && DistinctNumbers(files)
    && (forall i :: 0 <= i < |files| ==> files[i].number in carts && files[i].rows <= carts[files[i].number].log)
    && (forall n :: n in carts ==> exists i :: 0 <= i < |files| && files[i].number == n)
  }

  /** Nothing lost. */
  predicate Listing(carts: map<nat, CartView>, files: seq<File>) {
    Surviving(carts, files) && forall i :: 0 <= i < |files| ==> files[i].rows == carts[files[i].number].log
  }

  lemma CartComesBack(cfg: Config, st: Store, items: map<nat, Item>, files: seq<File>, n: nat)
    requires AllRecoverable(cfg, st) && CatalogueOk(cfg, items) && Listing(st.carts, files)
    ensures var back := LoadFiles(cfg, Booted(items), files).carts;
            && (n in back <==> n in st.carts)
            && (n in st.carts ==>
                  && SameCart(st.carts[n].state.core, back[n].state.core)
                  && back[n].log == st.carts[n].log
                  && FileTells(cfg, back[n].state.core, back[n].log))
  {
    LoadedCarts(cfg, Booted(items), files, n);
    if n in st.carts {
      var i :| 0 <= i < |files| && files[i].number == n;
      RecoverMeans(SchemeOf(cfg), items, st.carts[n].log, st.carts[n].state.core);
      RestartIsRecoverable(cfg, items, st.carts[n].log);
    }
  }

  lemma NumbersComeBack(cfg: Config, st: Store, items: map<nat, Item>, files: seq<File>)
    requires Surviving(st.carts, files)
    ensures LoadFiles(cfg, Booted(items), files).carts.Keys == st.carts.Keys
  {
    var back := LoadFiles(cfg, Booted(items), files);
    forall n: nat
      ensures n in back.carts <==> n in st.carts
    {
      LoadedCarts(cfg, Booted(items), files, n);
    }
  }

  lemma RestartIsFresh(cfg: Config, st: Store, items: map<nat, Item>, files: seq<File>)
    requires Surviving(st.carts, files) && Numbers32(files)
    ensures Fresh(LoadFiles(cfg, Booted(items), files)) <==> BelowLimit(files)
  {
    var back := LoadFiles(cfg, Booted(items), files);
    NextIsBeyondIff(cfg, Booted(items), files);
    NumbersComeBack(cfg, st, items, files);
    if BelowLimit(files) {
      forall n | n in back.carts
        ensures n < back.next
      {
        assert n in st.carts;
        var i :| 0 <= i < |files| && files[i].number == n;
      }
    } else {
      var i :| 0 <= i < |files| && files[i].number >= back.next;
      assert files[i].number in back.carts;
    }
  }

  /**
   A server restarted from the files its carts left, in whatever order the directory lists them, and from
   any catalogue in order, has every cart back under its number, with its file; the next number is above them
   all exactly when none has the last number; and the new store is as recoverable as the old one.
   */
  lemma {:induction false} RestartGivesTheStoreBack(cfg: Config, st: Store, items: map<nat, Item>, files: seq<File>)
    requires AllRecoverable(cfg, st) && CatalogueOk(cfg, items) && Listing(st.carts, files) && Numbers32(files)
    ensures var back := LoadFiles(cfg, Booted(items), files);
            && back.carts.Keys == st.carts.Keys
            && (forall n :: n in st.carts ==>
                 SameCart(st.carts[n].state.core, back.carts[n].state.core) && back.carts[n].log == st.carts[n].log)
            && (Fresh(back) <==> BelowLimit(files))
            && AllRecoverable(cfg, back)
  {
    var back := LoadFiles(cfg, Booted(items), files);
    RestartIsFresh(cfg, st, items, files);
    NumbersComeBack(cfg, st, items, files);
    ItemsStay(cfg, Booted(items), files);
    forall n | n in st.carts
      ensures SameCart(st.carts[n].state.core, back.carts[n].state.core) && back.carts[n].log == st.carts[n].log
      ensures FileTells(cfg, back.carts[n].state.core, back.carts[n].log)
    {
      CartComesBack(cfg, st, items, files, n);
    }
  }

  // ----- the registry after a restart

  /** Some row of the file names the card. */
  predicate Mentions(rows: seq<LogRow>, x: nat) {
    exists i :: 0 <= i < |rows| && (rows[i] == CardAddRow(x) || rows[i] == CardVoidRow(x))
  }

  function RegisteredTo(registry: map<nat, nat>, x: nat): Option<nat> {
    if x in registry then Some(registry[x]) else None
  }

  /** A file that names a card leaves it registered to its own cart or to none; one that does not leaves it alone. */
  lemma {:induction false} FileRegisters(registry: map<nat, nat>, n: nat, rows: seq<LogRow>, x: nat)
    ensures !Mentions(rows, x) ==> RegisteredTo(RegisterRows(registry, n, rows), x) == RegisteredTo(registry, x)
    ensures Mentions(rows, x) ==> RegisteredTo(RegisterRows(registry, n, rows), x) in {None, Some(n)}
    decreases |rows|
  {
    if rows != [] {
      var row, rest := rows[0], rows[1..];
      FileRegisters(RegisterRow(registry, n, row), n, rest, x);
      if Mentions(rest, x) {
        var i :| 0 <= i < |rest| && (rest[i] == CardAddRow(x) || rest[i] == CardVoidRow(x));
        assert rows[i + 1] == rest[i];
      } else {
        assert Mentions(rows, x) ==> row == CardAddRow(x) || row == CardVoidRow(x);
      }
    }
  }

  /** The last row of a file that names a card decides: added, it is the cart's; given up, it is no one's. */
  lemma {:induction false} LastNamingDecides(registry: map<nat, nat>, n: nat, rows: seq<LogRow>, x: nat, i: nat)
    requires i < |rows| && (rows[i] == CardAddRow(x) || rows[i] == CardVoidRow(x))
    requires !Mentions(rows[i + 1..], x)
    ensures RegisteredTo(RegisterRows(registry, n, rows), x) == if rows[i].CardAddRow? then Some(n) else None
    decreases |rows|
  {
    if i == 0 {
      FileRegisters(RegisterRow(registry, n, rows[0]), n, rows[1..], x);
    } else {
      assert rows[1..][i..] == rows[i + 1..];
      LastNamingDecides(RegisterRow(registry, n, rows[0]), n, rows[1..], x, i - 1);
    }
  }

  /** The only card a row can bring into a cart is the one it adds, and no row keeps a card it voids. */
  lemma RowHolds(sch: Scheme, c: Core, row: LogRow, x: nat)
    requires Holds(CoreRow(sch, c, row), x)
    ensures row == CardAddRow(x) || Holds(c, x)
    ensures row == CardVoidRow(x) && Accepting(c) ==> !Holds(CoreRow(sch, c, row), x)
  {
    var c' := CoreRow(sch, c, row);
    var k :| k in c'.slots && c'.slots[k] == x;
    if k in c.slots && c.slots[k] == x {
      assert Holds(c, x);
    }
  }

  /** What a replayed cart holds is registered to it when its own file has been read. */
  lemma {:induction false} HeldIsRegistered(sch: Scheme, c: Core, registry: map<nat, nat>, n: nat, rows: seq<LogRow>)
    requires forall x :: Holds(c, x) ==> RegisteredTo(registry, x) == Some(n)
    requires LogOk(sch, c, rows)
    ensures forall x :: Holds(CoreReplay(sch, c, rows), x) ==>
            RegisteredTo(RegisterRows(registry, n, rows), x) == Some(n)
    decreases |rows|
  {
    if rows != [] {
      var c', registry' := CoreRow(sch, c, rows[0]), RegisterRow(registry, n, rows[0]);
      forall x | Holds(c', x)
        ensures RegisteredTo(registry', x) == Some(n)
      {
        RowHolds(sch, c, rows[0], x);
      }
      HeldIsRegistered(sch, c', registry', n, rows[1..]);
    }
  }

  lemma {:induction false} LaterFiles(cfg: Config, st: Store, files: seq<File>, n: nat, x: nat)
    requires forall i :: 0 <= i < |files| ==> files[i].number != n
    ensures RegisteredTo(LoadFiles(cfg, st, files).registry, x) == Some(n) <==>
              RegisteredTo(st.registry, x) == Some(n) && forall i :: 0 <= i < |files| ==> !Mentions(files[i].rows, x)
    decreases |files|
  {
    if files != [] {
      FileRegisters(st.registry, files[0].number, files[0].rows, x);
      LaterFiles(cfg, LoadFile(cfg, st, files[0]), files[1..], n, x);
      assert files == [files[0]] + files[1..];
    }
  }

  lemma {:induction false} LoadFilesConcat(cfg: Config, st: Store, a: seq<File>, b: seq<File>)
    ensures LoadFiles(cfg, st, a + b) == LoadFiles(cfg, LoadFiles(cfg, st, a), b)
    decreases |a|
  {
    if a == [] {
      assert a + b == b;
    } else {
      assert (a + b)[1..] == a[1..] + b;
      LoadFilesConcat(cfg, LoadFile(cfg, st, a[0]), a[1..], b);
    }
  }

  lemma OwnFileRegisters(cfg: Config, st: Store, f: File, x: nat)
    requires LogOk(SchemeOf(cfg), LOADING, f.rows) && Holds(Recover(SchemeOf(cfg), st.items, f.rows).core, x)
    ensures RegisteredTo(LoadFile(cfg, st, f).registry, x) == Some(f.number)
  {
    var sch := SchemeOf(cfg);
    ReplayIsCoreReplay(sch, st.items, Empty(Loading), f.rows);
    var r := CoreReplay(sch, LOADING, f.rows);
    var k :| k in r.slots && r.slots[k] == x;
    assert Holds(r, x);
    HeldIsRegistered(sch, LOADING, st.registry, f.number, f.rows);
  }

  lemma LoadOne(cfg: Config, st: Store, f: File)
    ensures LoadFiles(cfg, st, [f]) == LoadFile(cfg, st, f)
  {
    assert [f][1..] == [];
  }

  /**
   Exclusive cards do not always survive a restart. A card held by a recovered cart is registered to it
   exactly when no file read after that cart's own names the card.
   */
  lemma {:induction false} HeldCardStaysRegisteredIffUnnamedLater(cfg: Config, items: map<nat, Item>, before: seq<File>,
                                                                  f: File, later: seq<File>, x: nat)
    requires forall i :: 0 <= i < |later| ==> later[i].number != f.number
    requires LogOk(SchemeOf(cfg), LOADING, f.rows) && Holds(Recover(SchemeOf(cfg), items, f.rows).core, x)
    ensures RegisteredTo(LoadFiles(cfg, Booted(items), before + [f] + later).registry, x) == Some(f.number) <==>
              forall i :: 0 <= i < |later| ==> !Mentions(later[i].rows, x)
  {
    var st := LoadFiles(cfg, Booted(items), before);
    LoadFilesConcat(cfg, Booted(items), before + [f], later);
    LoadFilesConcat(cfg, Booted(items), before, [f]);
    LoadOne(cfg, st, f);
    ItemsStay(cfg, Booted(items), before);
    OwnFileRegisters(cfg, st, f, x);
    LaterFiles(cfg, LoadFile(cfg, st, f), later, f.number, x);
  }

  lemma {:induction false} ItemsStay(cfg: Config, st: Store, files: seq<File>)
    ensures LoadFiles(cfg, st, files).items == st.items
    decreases |files|
  {
    if files != [] {
      ItemsStay(cfg, LoadFile(cfg, st, files[0]), files[1..]);
    }
  }

  lemma OneCardFile(sch: Scheme, items: map<nat, Item>, x: nat)
    requires sch.cardLimit >= 1
    ensures Holds(Recover(sch, items, [CardAddRow(x)]).core, x)
  {
    ReplayIsCoreReplay(sch, items, Empty(Loading), [CardAddRow(x)]);
    ReplayOfOne(sch, LOADING, CardAddRow(x));
    var slots := Recover(sch, items, [CardAddRow(x)]).core.slots;
    assert 0 in slots && slots[0] == x;
  }
}
