/** The whole-run theorems of the strategy-driven backtest. */
module BacktestRun {
  import opened Basics
  import opened Market
  import opened Ledger
  import opened Backtest
  import opened BacktestInvariant

  /** What holds after the last processed day e. */
  ghost predicate Sound(st: State, e: int, k: KLine, cfg: Config) {
    && Books(st, cfg) && Solvent(st) && AllTimely(st.positions, e, e, k)
    && |st.positions| <= Cap(cfg)
  }

  lemma SoundParts(st: State, e: int, k: KLine, cfg: Config)
    requires Sound(st, e, k, cfg)
    ensures Books(st, cfg) && Solvent(st) && AllTimely(st.positions, e, e, k) && Distinct(st.positions)
  {
  }

  function Cap(cfg: Config): nat { if cfg.maxHoldings > 0 then cfg.maxHoldings else 0 }

  ghost predicate GoodRun(dates: seq<int>, screen: Screen, k: KLine, cfg: Config) {
    && StrictlyIncreasing(dates) && GoodMarket(k) && GoodConfig(cfg)
    && forall d :: DistinctCandidates(screen(d))
  }

  /** The last processed day, or the eve of the first one. */
  function LastDay(n: nat, dates: seq<int>): int
    requires n <= |dates|
  {
    if n > 0 then dates[n-1] else if dates != [] then dates[0] - 1 else 0
  }

  lemma {:induction false} SellsDoNotGrow(st: State, sigs: seq<Signal>, d: int, k: KLine, cfg: Config)
    ensures |ExecuteSells(st, sigs, d, k, cfg).positions| <= |st.positions|
  {
    if sigs != [] { SellsDoNotGrow(st, sigs[..|sigs|-1], d, k, cfg); }
  }

  lemma AfterSalesDoNotGrow(st: State, d: int, day: int, k: KLine, cfg: Config)
    ensures |AfterSales(st, d, day, k, cfg).positions| <= |st.positions|
  {
    var u := Unfreeze(st);
    SellsDoNotGrow(u.(positions := ClearPending(u.positions)), PendingSignals(u.positions), d, k, cfg);
    var r := RetryPending(u, d, k, cfg);
    var (ps, sigs) := CheckAll(r.positions, d, day, k, cfg);
    SellsDoNotGrow(r.(positions := ps), StableSort(sigs, MoreUrgent), d, k, cfg);
  }

  lemma DayKeepsSound(st: State, e: int, d: int, day: int, cs: seq<Candidate>, k: KLine, cfg: Config)
    requires Sound(st, e, k, cfg) && e < d
    requires GoodMarket(k) && GoodConfig(cfg) && DistinctCandidates(cs)
    ensures Sound(Day(st, d, day, cs, k, cfg), d, k, cfg)
  {
    hide Replay, Sum, Distinct, Timely, AfterSales, ExecuteBuys, GoodMarket, DistinctCandidates, MarkValue;
    AfterSalesKeeps(st, e, d, day, k, cfg);
    AfterSalesDoNotGrow(st, d, day, k, cfg);
    ExecuteBuysKeeps(AfterSales(st, d, day, k, cfg), cs, d, day, k, cfg);
  }

  lemma InitialIsSound(e: int, k: KLine, cfg: Config)
    requires GoodConfig(cfg)
    ensures Sound(Initial(cfg), e, k, cfg)
  {
    assert BuyRecords([], cfg) == [];
  }

  /**
   * Every run: the records replay to the open positions, cash and frozen cash account for every
   * trade and never go negative, lots are whole, holdings stay within the maximum.
   */
  lemma {:induction false} RunIsSound(n: nat, dates: seq<int>, screen: Screen, k: KLine, cfg: Config)
    requires n <= |dates| && GoodRun(dates, screen, k, cfg)
    ensures Sound(Run(n, dates, screen, k, cfg), LastDay(n, dates), k, cfg)
  {
    hide Day, Sound, Initial;
    if n > 0 {
      RunIsSound(n-1, dates, screen, k, cfg);
      DayKeepsSound(Run(n-1, dates, screen, k, cfg), LastDay(n-1, dates), dates[n-1], n-1, screen(dates[n-1]), k, cfg);
    } else {
      InitialIsSound(LastDay(0, dates), k, cfg);
    }
  }

  /** Each symbol trades BUY, SELL, BUY, ...: same quantity, the sale strictly after the buy; it is held exactly after a BUY. */
  lemma TradesAlternate(n: nat, dates: seq<int>, screen: Screen, k: KLine, cfg: Config, s: Symbol)
    requires n <= |dates| && GoodRun(dates, screen, k, cfg)
    ensures var st := Run(n, dates, screen, k, cfg);
            && Alternates(Of(st.records, s))
            && (Holds(st.positions, s) <==> |Of(st.records, s)| % 2 == 1)
  {
    RunIsSound(n, dates, screen, k, cfg);
    var st := Run(n, dates, screen, k, cfg);
    ReplayAlternates(st.records, s);
    FindIsIndexOf(st.positions, s, cfg);
  }

  /** Cash conservation over every run. */
  lemma CashIsConserved(n: nat, dates: seq<int>, screen: Screen, k: KLine, cfg: Config)
    requires n <= |dates| && GoodRun(dates, screen, k, cfg)
    ensures var st := Run(n, dates, screen, k, cfg);
            && st.cash + st.frozen == cfg.initialCapital + Sum(st.records, Flow)
            && st.cash >= 0.0 && st.frozen >= 0.0
  {
    RunIsSound(n, dates, screen, k, cfg);
  }

  /**
   * The FIFO matching of the metrics pairs every SELL of a run with the BUY that opened its position,
   * and the realised profit is the money gained plus what the open positions cost.
   */
  lemma FifoReconstructsTheLedger(n: nat, dates: seq<int>, screen: Screen, k: KLine, cfg: Config)
    requires n <= |dates| && GoodRun(dates, screen, k, cfg)
    ensures var st := Run(n, dates, screen, k, cfg);
            && (forall i :: 0 <= i < |st.records| && st.records[i].action == SELL ==>
                  && Mate(st.records, i).Some?
                  && Closes(st.records[i], Mate(st.records, i).value)
                  && Replay(st.records[..i]).Some?
                  && Mate(st.records, i).value in Replay(st.records[..i]).value)
            && Realised(st.records)
                 == st.cash + st.frozen - cfg.initialCapital + Sum(BuyRecords(st.positions, cfg), Outlay)
  {
    RunIsSound(n, dates, screen, k, cfg);
    var rs := Run(n, dates, screen, k, cfg).records;
    forall i | 0 <= i < |rs| && rs[i].action == SELL
      ensures Mate(rs, i).Some? && Closes(rs[i], Mate(rs, i).value)
      ensures Replay(rs[..i]).Some? && Mate(rs, i).value in Replay(rs[..i]).value
    {
      FifoFindsOpeningBuy(rs, i);
    }
    assert rs[..|rs|] == rs;
    FlowIsRealisedLessOpen(rs, |rs|);
  }

  // ----- equity snapshots -----

  /** Unrealised profit: the mark less everything the purchase cost. */
  function Unrealised(ps: seq<Position>, d: int, k: KLine, cfg: Config): real {
    if ps == [] then 0.0
    else Unrealised(ps[..|ps|-1], d, k, cfg)
         + (MarkOf(ps[|ps|-1], d, k) - Outlay(BuyRecord(ps[|ps|-1], cfg)))
  }

  lemma {:induction false} UnrealisedSplits(ps: seq<Position>, d: int, k: KLine, cfg: Config)
    ensures Unrealised(ps, d, k, cfg) == MarkValue(ps, d, k) - Sum(BuyRecords(ps, cfg), Outlay)
  {
    if ps != [] {
      UnrealisedSplits(ps[..|ps|-1], d, k, cfg);
      assert BuyRecords(ps, cfg)[..|ps|-1] == BuyRecords(ps[..|ps|-1], cfg);
    }
  }

  lemma {:induction false} SellsKeepSnapshots(st: State, sigs: seq<Signal>, d: int, k: KLine, cfg: Config)
    ensures ExecuteSells(st, sigs, d, k, cfg).snapshots == st.snapshots
  {
    if sigs != [] { SellsKeepSnapshots(st, sigs[..|sigs|-1], d, k, cfg); }
  }

  lemma {:induction false} BuysKeepSnapshots(st: State, cs: seq<Candidate>, d: int, day: int, k: KLine, cfg: Config, total: real)
    ensures BuyEach(st, cs, d, day, k, cfg, total).snapshots == st.snapshots
  {
    if cs != [] { BuysKeepSnapshots(st, cs[..|cs|-1], d, day, k, cfg, total); }
  }

  lemma AfterSalesSnapshots(st: State, d: int, day: int, k: KLine, cfg: Config)
    ensures AfterSales(st, d, day, k, cfg).snapshots == st.snapshots
  {
    var u := Unfreeze(st);
    SellsKeepSnapshots(u.(positions := ClearPending(u.positions)), PendingSignals(u.positions), d, k, cfg);
    var r := RetryPending(u, d, k, cfg);
    var (ps, sigs) := CheckAll(r.positions, d, day, k, cfg);
    SellsKeepSnapshots(r.(positions := ps), StableSort(sigs, MoreUrgent), d, k, cfg);
  }

  lemma DaySnapshots(st: State, d: int, day: int, cs: seq<Candidate>, k: KLine, cfg: Config)
    ensures var st' := Day(st, d, day, cs, k, cfg);
            st'.snapshots == st.snapshots + [(d, st'.cash + st'.frozen + MarkValue(st'.positions, d, k))]
  {
    hide AfterSales, BuyEach, Rank, NotHeld, MarkValue;
    AfterSalesSnapshots(st, d, day, k, cfg);
    var sold := AfterSales(st, d, day, k, cfg);
    var slots := cfg.maxHoldings - |sold.positions|;
    if slots > 0 {
      var ranked := Rank(NotHeld(cs, sold.positions), slots);
      BuysKeepSnapshots(sold, ranked, d, day, k, cfg, Sum(ranked, ScoreOf));
    }
  }

  /** Capital plus realised profit plus the unrealised profit at day d. */
  function ProfitShot(st: State, d: int, k: KLine, cfg: Config): (int, real) {
    (d, cfg.initialCapital + Realised(st.records) + Unrealised(st.positions, d, k, cfg))
  }

  lemma LastSnapshot(n: nat, dates: seq<int>, screen: Screen, k: KLine, cfg: Config)
    requires n < |dates| && GoodRun(dates, screen, k, cfg)
    ensures var st' := Run(n+1, dates, screen, k, cfg);
            st'.snapshots == Run(n, dates, screen, k, cfg).snapshots + [ProfitShot(st', dates[n], k, cfg)]
  {
    hide Day, GoodMarket, DistinctCandidates, MarkValue, Unrealised, Replay;
    var st, st' := Run(n, dates, screen, k, cfg), Run(n+1, dates, screen, k, cfg);
    DaySnapshots(st, dates[n], n, screen(dates[n]), k, cfg);
    assert st'.cash + st'.frozen + MarkValue(st'.positions, dates[n], k) == ProfitShot(st', dates[n], k, cfg).1 by {
      FifoReconstructsTheLedger(n+1, dates, screen, k, cfg);
      UnrealisedSplits(st'.positions, dates[n], k, cfg);
    }
  }

  /** Every equity snapshot of a run is capital plus realised profit plus the unrealised profit of that day. */
  lemma {:induction false} SnapshotsAreProfit(n: nat, dates: seq<int>, screen: Screen, k: KLine, cfg: Config)
    requires n <= |dates| && GoodRun(dates, screen, k, cfg)
    ensures var shots := Run(n, dates, screen, k, cfg).snapshots;
            && |shots| == n
            && forall j :: 0 <= j < n ==> shots[j] == ProfitShot(Run(j+1, dates, screen, k, cfg), dates[j], k, cfg)
  {
    hide Day, ProfitShot;
    if n > 0 {
      SnapshotsAreProfit(n-1, dates, screen, k, cfg);
      LastSnapshot(n-1, dates, screen, k, cfg);
    }
  }

  // ----- whose money a day spends -----

  /** r is a SELL decided on day d: it is filled at the open of the symbol's next bar. */
  predicate SaleOf(r: Record, d: int, k: KLine) {
    && r.action == SELL && SaleBar(k, r.symbol, d).Some?
    && r.date == SaleBar(k, r.symbol, d).value.date && r.price == SaleBar(k, r.symbol, d).value.open
  }

  /** What is claimed of the sales of day d from st to st'. */
  ghost predicate SalesBooked(st: State, st': State, d: int, k: KLine) {
    && st.records <= st'.records && st'.cash == st.cash
    && (forall r :: r in st'.records[|st.records|..] ==> SaleOf(r, d, k))
    && st'.frozen == st.frozen + Sum(st'.records[|st.records|..], Flow)
  }

  lemma SalesBookedThen(a: State, b: State, c: State, d: int, k: KLine)
    requires SalesBooked(a, b, d, k) && SalesBooked(b, c, d, k)
    ensures SalesBooked(a, c, d, k)
  {
    hide Sum, Flow, SaleOf;
    var x, y := b.records[|a.records|..], c.records[|b.records|..];
    assert c.records[|a.records|..] == x + y;
    SumConcat(x, y, Flow);
  }

  lemma NoSale(st: State, st': State, d: int, k: KLine)
    requires st'.records == st.records && st'.cash == st.cash && st'.frozen == st.frozen
    ensures SalesBooked(st, st', d, k)
  {
    assert st'.records[|st.records|..] == [];
  }

  lemma OneSale(st: State, st': State, r: Record, d: int, k: KLine)
    requires st'.records == st.records + [r] && SaleOf(r, d, k)
    requires st'.cash == st.cash && st'.frozen == st.frozen + Flow(r)
    ensures SalesBooked(st, st', d, k)
  {
    hide Sum, SaleOf;
    assert st'.records[|st.records|..] == [r];
    SumSingle(r, Flow);
  }

  lemma SellRecords1(st: State, sig: Signal, d: int, k: KLine, cfg: Config)
    ensures SalesBooked(st, ExecuteSell(st, sig, d, k, cfg), d, k)
  {
    hide SaleBar, SellCost, IndexOf, RemoveAt, SalesBooked;
    var st', i := ExecuteSell(st, sig, d, k, cfg), IndexOf(st.positions, sig.symbol);
    if i >= 0 && SaleBar(k, sig.symbol, d).Some? {
      OneSale(st, st', SaleRecord(st.positions[i], sig, SaleBar(k, sig.symbol, d).value, cfg), d, k);
    } else {
      NoSale(st, st', d, k);
    }
  }

  lemma {:induction false} SellsRecords(st: State, sigs: seq<Signal>, d: int, k: KLine, cfg: Config)
    ensures SalesBooked(st, ExecuteSells(st, sigs, d, k, cfg), d, k)
  {
    hide ExecuteSell;
    if sigs == [] {
      assert st.records[|st.records|..] == [];
    } else {
      var mid := ExecuteSells(st, sigs[..|sigs|-1], d, k, cfg);
      SellsRecords(st, sigs[..|sigs|-1], d, k, cfg);
      SellRecords1(mid, sigs[|sigs|-1], d, k, cfg);
      SalesBookedThen(st, mid, ExecuteSells(st, sigs, d, k, cfg), d, k);
    }
  }

  /** The sales of a day leave the unfrozen cash alone and freeze all their proceeds. */
  lemma SalesFreezeProceeds(st: State, d: int, day: int, k: KLine, cfg: Config)
    ensures SalesBooked(Unfreeze(st), AfterSales(st, d, day, k, cfg), d, k)
  {
    hide ExecuteSells, CheckAll, StableSort, Sum;
    var u := Unfreeze(st);
    SellsRecords(u.(positions := ClearPending(u.positions)), PendingSignals(u.positions), d, k, cfg);
    var r := RetryPending(u, d, k, cfg);
    var (ps, sigs) := CheckAll(r.positions, d, day, k, cfg);
    SellsRecords(r.(positions := ps), StableSort(sigs, MoreUrgent), d, k, cfg);
    SalesBookedThen(u, r, AfterSales(st, d, day, k, cfg), d, k);
  }

  /** Booking a purchase lowers the cost-basis equity by its fees. */
  lemma PurchaseLowersEquity(st: State, p: Position, cfg: Config)
    requires GoodConfig(cfg) && GoodLot(p)
    ensures var r := BuyRecord(p, cfg);
            CostEquity(st.(cash := st.cash - Outlay(r), positions := st.positions + [p])) <= CostEquity(st)
  {
    SumConcat(st.positions, [p], CostValue);
    SumSingle(p, CostValue);
    var amount := p.costPrice * p.quantity as real;
    assert amount >= 0.0;
    assert amount * cfg.commissionBuy >= 0.0 && amount * cfg.slippage >= 0.0;
  }

  /** One candidate: nothing, or one BUY within the cap paid from cash. */
  lemma BuyRecords1(st: State, c: Candidate, d: int, day: int, k: KLine, cfg: Config, total: real)
    requires GoodMarket(k) && GoodConfig(cfg) && !Holds(st.positions, c.symbol)
    ensures var st' := ExecuteBuy(st, c, d, day, k, cfg, total);
            st' == st || BuyBooked(st, st', cfg)
  {
    hide Purchase, Timely, CostEquity, BuyRecord, GoodLot, GoodMarket, GoodConfig, Put, Holds, BuyBooked;
    if Purchase(c, st, d, day, k, cfg, total).Some? {
      PurchaseFacts(c, st, d, day, k, cfg, total);
      PurchaseBooked(st, Purchase(c, st, d, day, k, cfg, total).value, cfg);
    }
  }

  lemma PurchaseBooked(st: State, p: Position, cfg: Config)
    requires GoodConfig(cfg) && GoodLot(p) && !Holds(st.positions, p.symbol)
    requires BuyRecord(p, cfg).amount <= CostEquity(st) * cfg.maxPositionPct
    ensures var r := BuyRecord(p, cfg);
            BuyBooked(st, st.(cash := st.cash - Outlay(r), positions := Put(st.positions, p), records := st.records + [r]), cfg)
  {
    PurchaseLowersEquity(st, p, cfg);
    hide CostEquity, BuyCost, GoodConfig;
  }

  /** r is a BUY of a positive amount, at most cap. */
  predicate BuyWithin(r: Record, cap: real) { r.action == BUY && 0.0 < r.amount <= cap }

  lemma {:induction false} BuysRecords(st: State, cs: seq<Candidate>, d: int, day: int, k: KLine, cfg: Config, total: real)
    requires GoodMarket(k) && GoodConfig(cfg) && DistinctCandidates(cs)
    requires CostEquity(st) >= 0.0
    requires forall c :: c in cs ==> !Holds(st.positions, c.symbol)
    ensures BuysBooked(st, BuyEach(st, cs, d, day, k, cfg, total), cfg)
  {
    if cs == [] {
      assert st.records[|st.records|..] == [];
    } else {
      var front, c := cs[..|cs|-1], cs[|cs|-1];
      assert forall x :: x in front ==> x in cs;
      BuysRecords(st, front, d, day, k, cfg, total);
      LastNotHeld(st, cs, d, day, k, cfg, total);
      BuyRecords1(BuyEach(st, front, d, day, k, cfg, total), c, d, day, k, cfg, total);
      BuysRecordsStep(st, BuyEach(st, front, d, day, k, cfg, total), BuyEach(st, cs, d, day, k, cfg, total), cfg);
    }
  }

  /** What is claimed of the buys from st to st'; a negative share buys nothing. */
  ghost predicate BuysBooked(st: State, st': State, cfg: Config) {
    && st.records <= st'.records && st'.frozen == st.frozen && CostEquity(st') <= CostEquity(st)
    && st'.cash == st.cash + Sum(st'.records[|st.records|..], Flow)
    && (forall r :: r in st'.records[|st.records|..] ==> BuyWithin(r, CostEquity(st) * cfg.maxPositionPct))
    && (cfg.maxPositionPct < 0.0 ==> st' == st)
  }

  ghost predicate BuyBooked(st: State, st': State, cfg: Config) {
    && |st'.records| == |st.records| + 1
    && var r := st'.records[|st.records|];
    && st'.records == st.records + [r] && BuyWithin(r, CostEquity(st) * cfg.maxPositionPct)
    && st'.cash == st.cash + Flow(r) && st'.frozen == st.frozen
    && CostEquity(st') <= CostEquity(st)
  }

  lemma BuysRecordsStep(st: State, mid: State, st': State, cfg: Config)
    requires BuysBooked(st, mid, cfg) && CostEquity(st) >= 0.0
    requires st' == mid || BuyBooked(mid, st', cfg)
    ensures BuysBooked(st, st', cfg)
  {
    hide CostEquity, Flow, Sum;
    if st' != mid {
      var more, r := mid.records[|st.records|..], st'.records[|mid.records|];
      NoShareNoBuy(r, CostEquity(mid), cfg.maxPositionPct);
      assert st'.records[|st.records|..] == more + [r];
      SumConcat(more, [r], Flow);
      SumSingle(r, Flow);
      BuyWithinLarger(r, CostEquity(mid), CostEquity(st), cfg.maxPositionPct);
      assert forall x :: x in more + [r] <==> x in more || x == r;
    }
  }

  lemma NoShareNoBuy(r: Record, equity: real, pct: real)
    requires BuyWithin(r, equity * pct)
    ensures equity >= 0.0 ==> pct >= 0.0
  {
    assert equity >= 0.0 && pct <= 0.0 ==> equity * pct <= 0.0;
  }

  lemma BuyWithinLarger(r: Record, less: real, more: real, pct: real)
    requires BuyWithin(r, less * pct) && less <= more && pct >= 0.0
    ensures BuyWithin(r, more * pct)
  {
  }

  lemma ExecuteBuysRecords(st: State, cs: seq<Candidate>, d: int, day: int, k: KLine, cfg: Config)
    requires GoodMarket(k) && GoodConfig(cfg) && DistinctCandidates(cs) && CostEquity(st) >= 0.0
    ensures BuysBooked(st, ExecuteBuys(st, cs, d, day, k, cfg), cfg)
  {
    var slots := cfg.maxHoldings - |st.positions|;
    if slots > 0 {
      var unheld := NotHeld(cs, st.positions);
      NotHeldFacts(cs, st.positions);
      RankFacts(unheld, slots);
      RankDistinct(unheld, slots);
      var ranked := Rank(unheld, slots);
      BuysRecords(st, ranked, d, day, k, cfg, Sum(ranked, ScoreOf));
    } else {
      assert st.records[|st.records|..] == [];
    }
  }

  lemma {:induction false} CostNonNegative(ps: seq<Position>)
    requires forall p :: p in ps ==> GoodLot(p)
    ensures Sum(ps, CostValue) >= 0.0
  {
    if ps != [] {
      CostNonNegative(ps[..|ps|-1]);
      assert GoodLot(ps[|ps|-1]);
    }
  }

  lemma SoldEquityNonNegative(n: nat, dates: seq<int>, screen: Screen, k: KLine, cfg: Config)
    requires n < |dates| && GoodRun(dates, screen, k, cfg)
    ensures CostEquity(AfterSales(Run(n, dates, screen, k, cfg), dates[n], n, k, cfg)) >= 0.0
  {
    hide AfterSales, Run, GoodMarket, DistinctCandidates, Sum, Replay, Distinct;
    RunIsSound(n, dates, screen, k, cfg);
    AfterSalesKeeps(Run(n, dates, screen, k, cfg), LastDay(n, dates), dates[n], n, k, cfg);
    CostNonNegative(AfterSales(Run(n, dates, screen, k, cfg), dates[n], n, k, cfg).positions);
  }

  /** The money of a day from st over sold (after the sales) to st' (at its end). */
  ghost predicate DayMoney(st: State, sold: State, st': State, d: int, k: KLine, cfg: Config) {
    && st.records <= sold.records && sold.records <= st'.records
    && (forall r :: r in sold.records[|st.records|..] ==> SaleOf(r, d, k))
    && (forall r :: r in st'.records[|sold.records|..] ==> BuyWithin(r, CostEquity(sold) * cfg.maxPositionPct))
    && st'.frozen == Sum(sold.records[|st.records|..], Flow)
    && st'.cash == st.cash + st.frozen + Sum(st'.records[|sold.records|..], Flow)
    && st'.cash >= 0.0
  }

  /**
   * A day's buys are paid entirely from the cash that was free before its sales: the proceeds of
   * the same day stay frozen. Each buy is within the single-stock share of the equity at cost.
   */
  lemma BuysSpendOnlyFreeCash(n: nat, dates: seq<int>, screen: Screen, k: KLine, cfg: Config)
    requires n < |dates| && GoodRun(dates, screen, k, cfg)
    ensures DayMoney(Run(n, dates, screen, k, cfg), AfterSales(Run(n, dates, screen, k, cfg), dates[n], n, k, cfg),
                     Run(n+1, dates, screen, k, cfg), dates[n], k, cfg)
  {
    hide AfterSales, ExecuteBuys, GoodMarket, DistinctCandidates, Books;
    var st, d := Run(n, dates, screen, k, cfg), dates[n];
    var sold := AfterSales(st, d, n, k, cfg);
    var st' := Run(n+1, dates, screen, k, cfg);
    assert st'.cash >= 0.0 by { RunIsSound(n+1, dates, screen, k, cfg); }
    SalesFreezeProceeds(st, d, n, k, cfg);
    SoldEquityNonNegative(n, dates, screen, k, cfg);
    ExecuteBuysRecords(sold, screen(d), d, n, k, cfg);
    assert st' == Snapshot(ExecuteBuys(sold, screen(d), d, n, k, cfg), d, k);
    assert DayMoney(st, sold, st', d, k, cfg);
  }

  // ----- deferred sales -----

  /** One day seen from one held symbol: a pending sale is retried first. */
  lemma RetryAt(st: State, e: int, d: int, k: KLine, cfg: Config, s: Symbol)
    requires Distinct(st.positions) && AllTimely(st.positions, e, e, k) && At(st.positions, s).Some?
    ensures Distinct(RetryPending(st, d, k, cfg).positions)
    ensures var p := At(st.positions, s).value;
            At(RetryPending(st, d, k, cfg).positions, s)
              == if p.pendingSell.Some? && SaleBar(k, s, d).Some? then None else Some(p)
  {
    var ps, cleared := st.positions, ClearPending(st.positions);
    var sigs := PendingSignals(ps);
    var i := IndexOf(ps, s);
    var p := ps[i];
    AtUnique(cleared, i);
    PendingMembers(ps);
    forall sig | sig in sigs && sig.symbol == s ensures p.pendingSell == Some(sig) {
      var q :| q in ps && q.pendingSell == Some(sig);
      var j :| 0 <= j < |ps| && ps[j] == q;
      assert Timely(q, e, e, k);
      AtUnique(ps, j);
    }
    if p.pendingSell.Some? {
      assert p in ps && Timely(p, e, e, k);
      assert p.pendingSell.value in sigs && p.pendingSell.value.symbol == s;
    }
    SellsAt(st.(positions := cleared), sigs, d, k, cfg, s);
  }

  /** One day seen from one held symbol: it is checked, and sold if a signal fires and the next open allows it. */
  lemma CheckAt(st: State, d: int, day: int, k: KLine, cfg: Config, s: Symbol)
    requires Distinct(st.positions) && At(st.positions, s).Some?
    ensures Distinct(CheckAndSell(st, d, day, k, cfg).positions)
    ensures var (q, sig) := CheckSell(At(st.positions, s).value, d, day, k, cfg);
            At(CheckAndSell(st, d, day, k, cfg).positions, s)
              == if sig.None? then Some(q)
                 else if SaleBar(k, s, d).Some? then None
                 else Some(q.(pendingSell := sig))
  {
    var ps := st.positions;
    var (qs, sigs) := CheckAll(ps, d, day, k, cfg);
    CheckAllPositions(ps, d, day, k, cfg);
    CheckAllSignals(ps, d, day, k, cfg);
    forall i | 0 <= i < |ps| ensures qs[i].symbol == ps[i].symbol {
      CheckSellKeepsHolding(ps[i], d, day, k, cfg);
    }
    var i := IndexOf(ps, s);
    var p := ps[i];
    assert p in ps;
    CheckSellKeepsHolding(p, d, day, k, cfg);
    AtUnique(qs, i);
    SortedSignals(sigs);
    var sorted := StableSort(sigs, MoreUrgent);
    forall sig | sig in sorted && sig.symbol == s ensures CheckSell(p, d, day, k, cfg).1 == Some(sig) {
      var q :| q in ps && CheckSell(q, d, day, k, cfg).1 == Some(sig);
      CheckSellKeepsHolding(q, d, day, k, cfg);
      var j :| 0 <= j < |ps| && ps[j] == q;
      AtUnique(ps, j);
    }
    SellsAt(st.(positions := qs), sorted, d, k, cfg, s);
  }

  /** Today's signal for the position of s, as it stands after the retries. */
  function TodaysSignal(p: Position, d: int, day: int, k: KLine, cfg: Config): Option<Signal> {
    CheckSell(p, d, day, k, cfg).1
  }

  /**
   * What one day of any run does to a held symbol: it is sold exactly when a sale is pending or fires
   * today and the next bar exists and opens above limit-down; otherwise the holding survives the sales,
   * carrying a pending sale exactly when one was pending or fired, and its close is tracked.
   */
  lemma DayAt(st: State, e: int, d: int, day: int, k: KLine, cfg: Config, s: Symbol)
    requires Sound(st, e, k, cfg) && e < d && At(st.positions, s).Some?
    requires GoodMarket(k) && GoodConfig(cfg)
    ensures var p := At(st.positions, s).value;
            var due := p.pendingSell.Some? || TodaysSignal(p, d, day, k, cfg).Some?;
            var after := At(AfterSales(st, d, day, k, cfg).positions, s);
            && (after.None? <==> due && SaleBar(k, s, d).Some?)
            && (after.Some? ==>
                  && SameHolding(after.value, p) && (after.value.pendingSell.Some? <==> due)
                  && after.value.highestClose == CheckSell(p, d, day, k, cfg).0.highestClose)
  {
    var p := At(st.positions, s).value;
    RetryAt(Unfreeze(st), e, d, k, cfg, s);
    var mid := RetryPending(Unfreeze(st), d, k, cfg);
    CheckSellKeepsHolding(p, d, day, k, cfg);
    if At(mid.positions, s).Some? {
      CheckAt(mid, d, day, k, cfg, s);
    } else {
      StaysGone(mid, d, day, k, cfg, s);
    }
  }

  lemma StaysGone(st: State, d: int, day: int, k: KLine, cfg: Config, s: Symbol)
    requires Distinct(st.positions) && At(st.positions, s).None?
    ensures At(CheckAndSell(st, d, day, k, cfg).positions, s).None?
  {
    var ps := st.positions;
    var (qs, sigs) := CheckAll(ps, d, day, k, cfg);
    CheckAllPositions(ps, d, day, k, cfg);
    forall i | 0 <= i < |ps| ensures qs[i].symbol == ps[i].symbol {
      CheckSellKeepsHolding(ps[i], d, day, k, cfg);
    }
    SellsAt(st.(positions := qs), StableSort(sigs, MoreUrgent), d, k, cfg, s);
  }

  /** What survives the sales is still there, unchanged, at the end of the day. */
  lemma BuysKeepHoldings(st: State, cs: seq<Candidate>, d: int, day: int, k: KLine, cfg: Config, s: Symbol)
    requires Books(st, cfg) && Solvent(st) && AllTimely(st.positions, d, d, k)
    requires GoodMarket(k) && DistinctCandidates(cs)
    ensures var before, after := At(st.positions, s), At(ExecuteBuys(st, cs, d, day, k, cfg).positions, s);
            && (before.Some? ==> after == before)
            && (before.None? && after.Some? ==> JustBought(after.value, d, day, k))
  {
    ExecuteBuysKeeps(st, cs, d, day, k, cfg);
    var ps' := ExecuteBuys(st, cs, d, day, k, cfg).positions;
    var i := IndexOf(st.positions, s);
    if i >= 0 {
      AtUnique(ps', i);
    } else {
      var j := IndexOf(ps', s);
      assert forall l :: 0 <= l < |st.positions| ==> st.positions[l] == ps'[l];
    }
  }

  /** A pending sale over one day: kept if the symbol cannot be sold, sold otherwise. */
  lemma PendingOneDay(st: State, e: int, d: int, day: int, cs: seq<Candidate>, k: KLine, cfg: Config, s: Symbol)
    requires Sound(st, e, k, cfg) && e < d && At(st.positions, s).Some?
    requires At(st.positions, s).value.pendingSell.Some?
    requires GoodMarket(k) && GoodConfig(cfg) && DistinctCandidates(cs)
    ensures var p, q := At(st.positions, s).value, At(Day(st, d, day, cs, k, cfg).positions, s);
            if SaleBar(k, s, d).None? then q.Some? && SameHolding(q.value, p) && q.value.pendingSell.Some?
            else At(AfterSales(st, d, day, k, cfg).positions, s).None? && (q.Some? ==> q.value.buyDayIndex == day + 1)
  {
    DayAt(st, e, d, day, k, cfg, s);
    AfterSalesKeeps(st, e, d, day, k, cfg);
    BuysKeepHoldings(AfterSales(st, d, day, k, cfg), cs, d, day, k, cfg, s);
  }

  /** After n days s is held with a sale pending. */
  ghost predicate PendingAfter(n: nat, dates: seq<int>, screen: Screen, k: KLine, cfg: Config, s: Symbol)
    requires n <= |dates|
  {
    var p := At(Run(n, dates, screen, k, cfg).positions, s);
    p.Some? && p.value.pendingSell.Some?
  }

  /** Once a sale is pending, it stays pending through every day on which the symbol cannot be sold. */
  lemma {:induction false} PendingUntilSellable(n: nat, m: nat, dates: seq<int>, screen: Screen, k: KLine, cfg: Config, s: Symbol)
    requires n <= m <= |dates| && GoodRun(dates, screen, k, cfg)
    requires PendingAfter(n, dates, screen, k, cfg, s)
    requires forall j :: n <= j < m ==> SaleBar(k, s, dates[j]).None?
    ensures PendingAfter(m, dates, screen, k, cfg, s)
    ensures SameHolding(At(Run(m, dates, screen, k, cfg).positions, s).value, At(Run(n, dates, screen, k, cfg).positions, s).value)
  {
    hide Day, SaleBar, Sound, DistinctCandidates;
    if n < m {
      PendingUntilSellable(n, m-1, dates, screen, k, cfg, s);
      RunIsSound(m-1, dates, screen, k, cfg);
      assert SaleBar(k, s, dates[m-1]).None?;
      PendingOneDay(Run(m-1, dates, screen, k, cfg), LastDay(m-1, dates), dates[m-1], m-1, screen(dates[m-1]), k, cfg, s);
    }
  }

  /** p is held on day n and due for sale: a sale is pending or a signal fires. */
  ghost predicate DueOn(p: Position, n: nat, dates: seq<int>, screen: Screen, k: KLine, cfg: Config, s: Symbol)
    requires n < |dates|
  {
    && At(Run(n, dates, screen, k, cfg).positions, s) == Some(p)
    && (p.pendingSell.Some? || TodaysSignal(p, dates[n], n, k, cfg).Some?)
  }

  /** After m days: the holding p of s is gone for good, or still there with its sale pending. */
  ghost predicate GoneOrPending(p: Position, n: nat, m: nat, dates: seq<int>, screen: Screen, k: KLine, cfg: Config, s: Symbol)
    requires m <= |dates|
  {
    var q := At(Run(m, dates, screen, k, cfg).positions, s);
    q.None? || q.value.buyDayIndex > n || (SameHolding(q.value, p) && q.value.pendingSell.Some?)
  }

  lemma DueThatDay(p: Position, n: nat, dates: seq<int>, screen: Screen, k: KLine, cfg: Config, s: Symbol)
    requires n < |dates| && GoodRun(dates, screen, k, cfg) && DueOn(p, n, dates, screen, k, cfg, s)
    ensures GoneOrPending(p, n, n+1, dates, screen, k, cfg, s)
  {
    hide AfterSales, ExecuteBuys, GoodMarket, DistinctCandidates, SaleBar, CheckSell;
    var st, e, d := Run(n, dates, screen, k, cfg), LastDay(n, dates), dates[n];
    RunIsSound(n, dates, screen, k, cfg);
    DayAt(st, e, d, n, k, cfg, s);
    AfterSalesKeeps(st, e, d, n, k, cfg);
    BuysKeepHoldings(AfterSales(st, d, n, k, cfg), screen(d), d, n, k, cfg, s);
  }

  lemma GoneOrPendingNext(p: Position, n: nat, m: nat, dates: seq<int>, screen: Screen, k: KLine, cfg: Config, s: Symbol)
    requires n < m < |dates| && GoodRun(dates, screen, k, cfg)
    requires GoneOrPending(p, n, m, dates, screen, k, cfg, s)
    ensures GoneOrPending(p, n, m+1, dates, screen, k, cfg, s)
  {
    hide AfterSales, ExecuteBuys, GoodMarket, DistinctCandidates, SaleBar, CheckSell;
    var st, e, d := Run(m, dates, screen, k, cfg), LastDay(m, dates), dates[m];
    RunIsSound(m, dates, screen, k, cfg);
    AfterSalesKeeps(st, e, d, m, k, cfg);
    BuysKeepHoldings(AfterSales(st, d, m, k, cfg), screen(d), d, m, k, cfg, s);
    if At(st.positions, s).None? {
      SalesAddNothing(st, d, m, k, cfg, s);
    } else {
      DayAt(st, e, d, m, k, cfg, s);
    }
  }

  /**
   * Once a signal fires on a holding, at the end of that day and of every later one the holding is gone
   * (a position of the same symbol is then a later purchase) or still carries a pending sale.
   */
  lemma {:induction false} SignalSticks(p: Position, n: nat, m: nat, dates: seq<int>, screen: Screen, k: KLine, cfg: Config, s: Symbol)
    requires n < m <= |dates| && GoodRun(dates, screen, k, cfg) && DueOn(p, n, dates, screen, k, cfg, s)
    ensures GoneOrPending(p, n, m, dates, screen, k, cfg, s)
  {
    hide *;
    if m == n + 1 {
      DueThatDay(p, n, dates, screen, k, cfg, s);
    } else {
      SignalSticks(p, n, m-1, dates, screen, k, cfg, s);
      GoneOrPendingNext(p, n, m-1, dates, screen, k, cfg, s);
    }
  }

  /** ... and it is sold on the first day whose next bar exists and opens above limit-down. */
  lemma SoldOnFirstChance(n: nat, m: nat, dates: seq<int>, screen: Screen, k: KLine, cfg: Config, s: Symbol)
    requires n <= m < |dates| && GoodRun(dates, screen, k, cfg)
    requires PendingAfter(n, dates, screen, k, cfg, s)
    requires forall j :: n <= j < m ==> SaleBar(k, s, dates[j]).None?
    requires SaleBar(k, s, dates[m]).Some?
    ensures At(AfterSales(Run(m, dates, screen, k, cfg), dates[m], m, k, cfg).positions, s).None?
    ensures At(Run(m+1, dates, screen, k, cfg).positions, s).Some? ==>
              At(Run(m+1, dates, screen, k, cfg).positions, s).value.buyDayIndex == m + 1
  {
    PendingUntilSellable(n, m, dates, screen, k, cfg, s);
    RunIsSound(m, dates, screen, k, cfg);
    PendingOneDay(Run(m, dates, screen, k, cfg), LastDay(m, dates), dates[m], m, screen(dates[m]), k, cfg, s);
  }

  /** One day of a run seen from one symbol: its holding survives unchanged, or goes; a new one was just bought. */
  lemma NextDayAt(n: nat, dates: seq<int>, screen: Screen, k: KLine, cfg: Config, s: Symbol)
    requires n < |dates| && GoodRun(dates, screen, k, cfg)
    ensures var p, q := At(Run(n, dates, screen, k, cfg).positions, s), At(Run(n+1, dates, screen, k, cfg).positions, s);
            var sold := At(AfterSales(Run(n, dates, screen, k, cfg), dates[n], n, k, cfg).positions, s);
            && (sold.Some? ==> p.Some? && q == sold && SameHolding(q.value, p.value))
            && (sold.None? && q.Some? ==> JustBought(q.value, dates[n], n, k))
  {
    hide GoodMarket, DistinctCandidates, Sound, AfterSales, ExecuteBuys, CheckSell, SaleBar, JustBought, SameHolding;
    RunIsSound(n, dates, screen, k, cfg);
    var st, e, d := Run(n, dates, screen, k, cfg), LastDay(n, dates), dates[n];
    SoundParts(st, e, k, cfg);
    AfterSalesKeeps(st, e, d, n, k, cfg);
    BuysKeepHoldings(AfterSales(st, d, n, k, cfg), screen(d), d, n, k, cfg, s);
    if At(st.positions, s).None? {
      SalesAddNothing(st, d, n, k, cfg, s);
    } else {
      DayAt(st, e, d, n, k, cfg, s);
    }
  }

  // ----- bounded holding time -----

  lemma OverdueFires(p: Position, past: Bars, d: int, day: int, cfg: Config)
    requires past != [] && day - p.buyDayIndex > cfg.maxHoldingDays
    ensures SellSignal(p, past, d, day, cfg).Some?
  {
  }

  /** A position held longer than the limit always gets a signal on a day its symbol trades. */
  lemma OverdueGetsSignal(p: Position, d: int, day: int, k: KLine, cfg: Config, i: nat)
    requires day - p.buyDayIndex > cfg.maxHoldingDays
    requires Ordered(BarsOf(k, p.symbol)) && i < |BarsOf(k, p.symbol)| && BarsOf(k, p.symbol)[i].date == d
    ensures TodaysSignal(p, d, day, k, cfg).Some?
  {
    var bars := BarsOf(k, p.symbol);
    ScansCut(bars, d);
    CutDates(bars, d);
    var past := UpTo(bars, d);
    assert past[|past|-1] == bars[|past|-1];
    assert bars[i].date <= bars[|past|-1].date;
    OverdueFires(TrackClose(p, past), past, d, day, cfg);
  }

  /**
   * At the end of every day of every run, a position past its holding limit has no bar that day,
   * or could not be sold: its next bar is missing or opens at limit-down.
   */
  lemma NoneOverstays(n: nat, dates: seq<int>, screen: Screen, k: KLine, cfg: Config, s: Symbol)
    requires n < |dates| && GoodRun(dates, screen, k, cfg)
    requires var q := At(Run(n+1, dates, screen, k, cfg).positions, s);
             q.Some? && q.value.buyDayIndex <= n && n - q.value.buyDayIndex > cfg.maxHoldingDays
    ensures (forall b :: b in BarsOf(k, s) ==> b.date != dates[n]) || SaleBar(k, s, dates[n]).None?
  {
    RunIsSound(n, dates, screen, k, cfg);
    var st, e, d := Run(n, dates, screen, k, cfg), LastDay(n, dates), dates[n];
    AfterSalesKeeps(st, e, d, n, k, cfg);
    BuysKeepHoldings(AfterSales(st, d, n, k, cfg), screen(d), d, n, k, cfg, s);
    SalesAddNothing(st, d, n, k, cfg, s);
    DayAt(st, e, d, n, k, cfg, s);
    var bars := BarsOf(k, s);
    if i :| 0 <= i < |bars| && bars[i].date == d {
      OverdueGetsSignal(At(st.positions, s).value, d, n, k, cfg, i);
    }
  }

  /** The sales of a day never add a holding. */
  lemma SalesAddNothing(st: State, d: int, day: int, k: KLine, cfg: Config, s: Symbol)
    requires Distinct(st.positions)
    ensures At(st.positions, s).None? ==> At(AfterSales(st, d, day, k, cfg).positions, s).None?
  {
    if At(st.positions, s).None? {
      RetryGone(Unfreeze(st), d, k, cfg, s);
      StaysGone(RetryPending(Unfreeze(st), d, k, cfg), d, day, k, cfg, s);
    }
  }

  lemma RetryGone(st: State, d: int, k: KLine, cfg: Config, s: Symbol)
    requires Distinct(st.positions) && At(st.positions, s).None?
    ensures Distinct(RetryPending(st, d, k, cfg).positions)
    ensures At(RetryPending(st, d, k, cfg).positions, s).None?
  {
    var cleared := ClearPending(st.positions);
    assert forall i :: 0 <= i < |cleared| ==> cleared[i].symbol == st.positions[i].symbol;
    SellsAt(st.(positions := cleared), PendingSignals(st.positions), d, k, cfg, s);
  }
}
