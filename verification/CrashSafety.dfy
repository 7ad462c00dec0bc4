/**
 Whole runs: whatever prefix of its transaction file survives, a cart is recovered to a state it was
 in while it was live.
 */
module CrashSafety {
  import opened Catalogue
  import opened CartModel
  import opened Recovery

  /** A recovered cart equals the live one; only a voided cart's private copy may be smaller. */
  predicate SameCart(live: Core, recovered: Core) {
    && recovered == live.(frozen := recovered.frozen)
    && PartOf(recovered.frozen, live.frozen)
    && (live.phase == Ready ==> recovered.frozen == live.frozen)
  }

  lemma {:induction false} RunMirrors(cfg: Scheme, s: CartState, r: Core, ops: seq<Op>)
    requires Inv(cfg, s.core) && SoundRun(cfg, s, ops) && Mirrors(s.core, r)
    ensures Inv(cfg, Run(s, ops).core)
    ensures Mirrors(Run(s, ops).core, CoreReplay(cfg, r, Log(s, ops)))
    ensures LogOk(cfg, r, Log(s, ops))
    ensures Gross(Run(s, ops)) - Gross(s) == LogGross(cfg, r, Log(s, ops)) + TotalDrift(cfg, s, ops)
    decreases |ops|
  {
    if ops != [] {
      var s', rows := Apply(s, ops[0]), Rows(s.core, ops[0]);
      MirrorStep(cfg, s, r, ops[0]);
      InvStep(cfg, s, ops[0]);
      GrossStep(cfg.owner, s, ops[0]);
      RunMirrors(cfg, s', CoreReplay(cfg, r, rows), ops[1..]);
      CoreReplayConcat(cfg, r, rows, Log(s', ops[1..]));
    }
  }

  /** Rows worth the way from one state to another, but for a drift. */
  predicate Means(cfg: Scheme, s: CartState, t: CartState, drift: int, r: Core, rows: seq<LogRow>) {
    && Mirrors(t.core, CoreReplay(cfg, r, rows))
    && LogOk(cfg, r, rows)
    && Gross(t) - Gross(s) == LogGross(cfg, r, rows) + drift
  }

  lemma MeansBoth(cfg: Scheme, s: CartState, s': CartState, t: CartState, first: int, drift: int, r: Core,
                  rows: seq<LogRow>, rest: seq<LogRow>)
    requires LogOk(cfg, r, rows) && Gross(s') == Gross(s) + LogGross(cfg, r, rows) + first
    requires Means(cfg, s', t, drift, CoreReplay(cfg, r, rows), rest)
    ensures Means(cfg, s, t, first + drift, r, rows + rest)
  {
    CoreReplayConcat(cfg, r, rows, rest);
  }

  lemma StepIsRedone(cfg: Scheme, s: CartState, r: Core, op: Op)
    requires Inv(cfg, s.core) && Sound(cfg, s.core, op) && Mirrors(s.core, r)
    ensures Redone(cfg, s, r, op) && Inv(cfg, Apply(s, op).core)
    ensures Gross(Apply(s, op)) == Gross(s) + LogGross(cfg, r, Rows(s.core, op)) + Drift(cfg, s.core, op)
  {
    MirrorStep(cfg, s, r, op);
    InvStep(cfg, s, op);
    GrossStep(cfg.owner, s, op);
  }

  /** The first rows of the file mean the first operations of the run. */
  predicate CutMeans(cfg: Scheme, s: CartState, r: Core, done: seq<Op>, cut: seq<LogRow>) {
    Means(cfg, s, Run(s, done), TotalDrift(cfg, s, done), r, cut)
  }

  /** A cut inside the first operation's rows keeps at most the unread half of a private copy. */
  lemma CutInsideFirst(cfg: Scheme, s: CartState, r: Core, op: Op, cut: seq<LogRow>)
    requires Mirrors(s.core, r) && Redone(cfg, s, r, op) && cut <= Rows(s.core, op) && |cut| < |Rows(s.core, op)|
    ensures CutMeans(cfg, s, r, [], cut)
  {
    if cut != [] {
      assert cut == [Rows(s.core, op)[0]];
      ReplayOfOne(cfg, r, cut[0]);
    }
  }

  lemma FirstDone(cfg: Scheme, s: CartState, op: Op, done: seq<Op>)
    ensures Run(s, [op] + done) == Run(Apply(s, op), done)
    ensures TotalDrift(cfg, s, [op] + done) == Drift(cfg, s.core, op) + TotalDrift(cfg, Apply(s, op), done)
  {
    assert ([op] + done)[1..] == done;
  }

  lemma CutBeyondFirst(cfg: Scheme, s: CartState, r: Core, op: Op, done: seq<Op>, cut: seq<LogRow>)
    requires LogOk(cfg, r, Rows(s.core, op))
    requires Gross(Apply(s, op)) == Gross(s) + LogGross(cfg, r, Rows(s.core, op)) + Drift(cfg, s.core, op)
    requires CutMeans(cfg, Apply(s, op), CoreReplay(cfg, r, Rows(s.core, op)), done, cut)
    ensures CutMeans(cfg, s, r, [op] + done, Rows(s.core, op) + cut)
  {
    var s' := Apply(s, op);
    FirstDone(cfg, s, op, done);
    MeansBoth(cfg, s, s', Run(s', done), Drift(cfg, s.core, op), TotalDrift(cfg, s', done), r, Rows(s.core, op), cut);
  }

  lemma CutSplits(rows: seq<LogRow>, rest: seq<LogRow>, cut: seq<LogRow>)
    requires cut <= rows + rest
    ensures |cut| < |rows| ==> cut <= rows
    ensures |cut| >= |rows| ==> cut == rows + cut[|rows|..] && cut[|rows|..] <= rest
  {
  }

  lemma {:induction false} CutIsAPrefix(cfg: Scheme, s: CartState, r: Core, ops: seq<Op>,
                                        cut: seq<LogRow>) returns (done: seq<Op>)
    requires Inv(cfg, s.core) && SoundRun(cfg, s, ops) && Mirrors(s.core, r) && cut <= Log(s, ops)
    ensures done <= ops && CutMeans(cfg, s, r, done, cut)
    decreases |ops|
  {
    done := [];
    if ops != [] {
      var op, rows := ops[0], Rows(s.core, ops[0]);
      StepIsRedone(cfg, s, r, op);
      CutSplits(rows, Log(Apply(s, op), ops[1..]), cut);
      if |cut| < |rows| {
        CutInsideFirst(cfg, s, r, op, cut);
      } else {
        var rest := cut[|rows|..];
        var done' := CutIsAPrefix(cfg, Apply(s, op), CoreReplay(cfg, r, rows), ops[1..], rest);
        CutBeyondFirst(cfg, s, r, op, done', rest);
        done := [op] + done';
      }
    }
  }

  lemma {:induction false} ReplayGivesNoDiscount(cfg: Scheme, items: map<nat, Item>, s: CartState, log: seq<LogRow>)
    requires TotalOf(s.totals, 0).discount == 0
    ensures TotalOf(Replay(cfg, items, s, log).totals, 0).discount == 0
    decreases |log|
  {
    if log != [] {
      ReplayGivesNoDiscount(cfg, items, ReplayRow(cfg, items, s, log[0]), log[1..]);
    }
  }

  lemma FinishedIsSame(s: CartState, live: Core)
    requires Mirrors(live, s.core)
    ensures SameCart(live, Finish(s).core)
    ensures Finish(s).totals == s.totals
  {
  }

  lemma FinishedKeepsInv(cfg: Scheme, s: CartState)
    requires Inv(cfg, s.core)
    ensures Inv(cfg, Finish(s).core)
  {
  }

  /** A loaded file's cart, finished: its core, and with prices frozen its gross total, follow from the file. */
  lemma RecoverMeans(cfg: Scheme, items: map<nat, Item>, log: seq<LogRow>, live: Core)
    requires Complete(cfg, items) && LogOk(cfg, Empty(Loading).core, log)
    requires Mirrors(live, CoreReplay(cfg, Empty(Loading).core, log))
    ensures SameCart(live, Recover(cfg, items, log).core)
    ensures !cfg.priceChanges ==> Gross(Recover(cfg, items, log)) == LogGross(cfg, Empty(Loading).core, log)
    ensures TotalOf(Recover(cfg, items, log).totals, 0).discount == 0
    ensures Inv(cfg, Recover(cfg, items, log).core)
  {
    EmptyInv(cfg, Loading);
    ReplayIsCoreReplay(cfg, items, Empty(Loading), log);
    ReplayGross(cfg, items, Empty(Loading), log);
    ReplayGivesNoDiscount(cfg, items, Empty(Loading), log);
    var s := Replay(cfg, items, Empty(Loading), log);
    FinishedIsSame(s, live);
    FinishedKeepsInv(cfg, s);
    assert Gross(Finish(s)) == Gross(s);
  }

  /**
   Recovery simulates the live run. However the operations interleave, and however many rows at the end
   of the file are lost, the recovered cart is the live cart after some prefix of its operations: rows,
   barcode counts, counter, cards, private copy and phase. With frozen prices the gross totals agree up
   to the drift of linked items, and the recovered discount is zero. Any complete catalogue will do.
   */
  lemma RecoverySimulatesTheRun(cfg: Scheme, items: map<nat, Item>, ops: seq<Op>, k: nat)
    requires SoundRun(cfg, Empty(Ready), ops) && Complete(cfg, items) && k <= |Log(Empty(Ready), ops)|
    ensures exists j :: 0 <= j <= |ops| &&
              var live, recovered := Run(Empty(Ready), ops[..j]), Recover(cfg, items, Log(Empty(Ready), ops)[..k]);
              && SameCart(live.core, recovered.core)
              && TotalOf(recovered.totals, 0).discount == 0
              && (!cfg.priceChanges ==> Gross(live) == Gross(recovered) + TotalDrift(cfg, Empty(Ready), ops[..j]))
  {
    EmptyInv(cfg, Ready);
    var r := Empty(Loading).core;
    var done := CutIsAPrefix(cfg, Empty(Ready), r, ops, Log(Empty(Ready), ops)[..k]);
    assert done == ops[..|done|];
    RecoverMeans(cfg, items, Log(Empty(Ready), ops)[..k], Run(Empty(Ready), done).core);
  }

  /**
   With nothing lost, the recovered cart is the final one. Its gross total is short of the live one by exactly
   what linked items were charged off their copied prices, and its net amount is its gross total.
   */
  lemma FullRecovery(cfg: Scheme, items: map<nat, Item>, ops: seq<Op>)
    requires SoundRun(cfg, Empty(Ready), ops) && Complete(cfg, items) && !cfg.priceChanges
    ensures var live, recovered := Run(Empty(Ready), ops), Recover(cfg, items, Log(Empty(Ready), ops));
            && SameCart(live.core, recovered.core)
            && Gross(recovered) == Gross(live) - TotalDrift(cfg, Empty(Ready), ops)
            && TotalOf(recovered.totals, 0).amount ==
               TotalOf(live.totals, 0).amount + TotalOf(live.totals, 0).discount - TotalDrift(cfg, Empty(Ready), ops)
  {
    EmptyInv(cfg, Ready);
    RunMirrors(cfg, Empty(Ready), Empty(Loading).core, ops);
    RecoverMeans(cfg, items, Log(Empty(Ready), ops), Run(Empty(Ready), ops).core);
  }

  // ----- voided carts

  lemma VoidedIsLeftAlone(s: CartState, op: Op)
    requires s.core.phase == Voided
    ensures Rows(s.core, op) == []
    ensures Apply(s, op).totals == s.totals
    ensures Apply(s, op).core == s.core.(frozen := Apply(s, op).core.frozen)
  {
  }

  /** A voided cart's file never grows, and its counts, cards and totals no longer move. */
  lemma {:induction false} VoidedIsFinal(s: CartState, ops: seq<Op>)
    requires s.core.phase == Voided
    ensures Log(s, ops) == []
    ensures Run(s, ops).totals == s.totals
    ensures Run(s, ops).core == s.core.(frozen := Run(s, ops).core.frozen)
    decreases |ops|
  {
    if ops != [] {
      VoidedIsLeftAlone(s, ops[0]);
      VoidedIsFinal(Apply(s, ops[0]), ops[1..]);
    }
  }

  /** The file depends on the core alone. */
  lemma {:induction false} LogFollowsCore(s: CartState, t: CartState, ops: seq<Op>)
    requires s.core == t.core
    ensures Log(s, ops) == Log(t, ops)
    ensures Run(s, ops).core == Run(t, ops).core
    decreases |ops|
  {
    if ops != [] {
      LogFollowsCore(Apply(s, ops[0]), Apply(t, ops[0]), ops[1..]);
    }
  }
}
