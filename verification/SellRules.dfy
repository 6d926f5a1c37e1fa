/** What the sell rules mean in prices, and what the tracked extremes are over a whole run. */
module SellRules {
  import opened Basics
  import opened Market
  import opened Backtest
  import opened BacktestInvariant
  import opened BacktestRun

  // ----- the rules in prices -----

  /** The close has fallen by at least pct below the reference. */
  predicate FellBy(reference: real, close: real, pct: real) {
    reference > 0.0 && close <= reference * (1.0 - pct)
  }

  function TotalOfCloses(bars: Bars): real {
    if bars == [] then 0.0 else TotalOfCloses(bars[..|bars|-1]) + bars[|bars|-1].close
  }

  lemma {:induction false} SumOfCloses(bars: Bars)
    ensures Sum(bars, CloseOf) == TotalOfCloses(bars)
  {
    if bars != [] { SumOfCloses(bars[..|bars|-1]); }
  }

  /** The close is below the mean of the last period closes. */
  predicate BelowAverage(past: Bars, period: Period)
    requires past != []
  {
    |past| >= period && past[|past|-1].close * period as real < TotalOfCloses(past[|past|-period..])
  }

  lemma RelativeFall(reference: real, close: real, pct: real)
    requires reference > 0.0
    ensures (reference - close) / reference >= pct <==> FellBy(reference, close, pct)
  {
    var x := (reference - close) / reference;
    assert x * reference == reference - close;
    if x >= pct { assert x * reference >= pct * reference; } else { assert x * reference < pct * reference; }
    assert reference * (1.0 - pct) == reference - pct * reference;
  }

  lemma AverageBelow(total: real, n: int, close: real)
    requires n > 0
    ensures close < total / n as real <==> close * n as real < total
  {
    var m := n as real;
    var a := total / m;
    assert a * m == total;
    if close < a { assert close * m < a * m; } else { assert close * m >= a * m; }
  }

  /** Which rule applies: the first broken one, in order of priority; 0 when none is broken. */
  function BrokenRule(p: Position, past: Bars, day: int, cfg: Config): int
    requires past != []
  {
    var close := past[|past|-1].close;
    if FellBy(p.costPrice, close, cfg.stopLossPct) then 1
    else if BelowAverage(past, cfg.trendStopMa) then 2
    else if FellBy(p.highestClose, close, cfg.trailingStopPct) then 3
    else if day > p.buyDayIndex + cfg.maxHoldingDays then 4
    else if cfg.exitRule.Some? && cfg.exitRule.value(p, |past|-1).Some? then 5
    else 0
  }

  /** A signal fires exactly when a rule is broken, with the priority of the first broken rule. */
  lemma SignalIffRuleBroken(p: Position, past: Bars, d: int, day: int, cfg: Config)
    requires past != []
    ensures SellSignal(p, past, d, day, cfg).None? <==> BrokenRule(p, past, day, cfg) == 0
    ensures SellSignal(p, past, d, day, cfg).Some? ==>
              && SellSignal(p, past, d, day, cfg).value.priority == BrokenRule(p, past, day, cfg)
              && SellSignal(p, past, d, day, cfg).value.symbol == p.symbol
  {
    var close := past[|past|-1].close;
    if p.costPrice > 0.0 { RelativeFall(p.costPrice, close, cfg.stopLossPct); }
    if p.highestClose > 0.0 { RelativeFall(p.highestClose, close, cfg.trailingStopPct); }
    if |past| >= cfg.trendStopMa {
      SumOfCloses(past[|past|-cfg.trendStopMa..]);
      AverageBelow(Sum(past[|past|-cfg.trendStopMa..], CloseOf), cfg.trendStopMa, close);
    }
    hide Sum, FellBy;
  }

  // ----- what a check answers, from the bars of the symbol alone -----

  /** The reason given for the rule that fired. */
  function ReasonFor(rule: int, p: Position, past: Bars, cfg: Config): string {
    if rule == 1 then "STOP_LOSS"
    else if rule == 2 then "TREND_BREAK"
    else if rule == 3 then "TRAILING_STOP"
    else if rule == 4 then "MAX_HOLDING_DAYS"
    else if cfg.exitRule.Some? && cfg.exitRule.value(p, |past|-1).Some? && cfg.exitRule.value(p, |past|-1).value != "" then
      "EXIT_CONDITION: " + cfg.exitRule.value(p, |past|-1).value
    else "EXIT_CONDITION"
  }

  /** q is p with today's close tracked: the highest close not on a limit-up day, the lowest on every day. */
  predicate TrackedAs(p: Position, q: Position, bars: Bars, n: int)
    requires 0 < n <= |bars|
  {
    var close := bars[n-1].close;
    var counts := n == 1 || close < LimitUp(bars[n-2].close, p.symbol);
    && SameHolding(q, p) && q.pendingSell == p.pendingSell
    && q.highestClose == (if counts && close > p.highestClose then close else p.highestClose)
    && q.lowestClose == (if close < p.lowestClose then close else p.lowestClose)
  }

  /**
   * The answer of a check on day d, n bars being dated at most d: without a bar of that very day the position is
   * left alone and nothing fires; else the close is tracked, and a signal fires exactly when a rule is broken.
   */
  predicate CheckedAs(p: Position, q: Position, sig: Option<Signal>, bars: Bars, n: int, d: int, day: int, cfg: Config)
    requires 0 <= n <= |bars|
  {
    if n == 0 || bars[n-1].date != d then q == p && sig == None
    else
      && TrackedAs(p, q, bars, n)
      && var rule := BrokenRule(q, bars[..n], day, cfg);
      sig == if rule == 0 then None else Some(Signal(p.symbol, ReasonFor(rule, q, bars[..n], cfg), d, rule))
  }

  lemma TrackIs(p: Position, bars: Bars, n: int)
    requires 0 < n <= |bars|
    ensures TrackedAs(p, TrackClose(p, bars[..n]), bars, n)
  {
    hide LimitUp;
    var past := bars[..n];
    assert past[|past|-1] == bars[n-1] && (n >= 2 ==> past[|past|-2] == bars[n-2]);
  }

  /** The signal in full. */
  lemma SignalIs(p: Position, past: Bars, d: int, day: int, cfg: Config)
    requires past != []
    ensures var rule := BrokenRule(p, past, day, cfg);
            SellSignal(p, past, d, day, cfg)
              == if rule == 0 then None else Some(Signal(p.symbol, ReasonFor(rule, p, past, cfg), d, rule))
  {
    SignalIffRuleBroken(p, past, d, day, cfg);
    hide Sum, BrokenRule;
  }

  /** The check answers as stated, on any bars the date cuts. */
  lemma CheckIs(p: Position, d: int, day: int, k: KLine, cfg: Config, n: int)
    requires Cut(BarsOf(k, p.symbol), d, n)
    ensures var r := CheckSell(p, d, day, k, cfg);
            CheckedAs(p, r.0, r.1, BarsOf(k, p.symbol), n, d, day, cfg)
  {
    var bars := BarsOf(k, p.symbol);
    ScansAtCut(bars, d, n);
    if n > 0 && bars[n-1].date == d {
      TrackIs(p, bars, n);
      SignalIs(TrackClose(p, bars[..n]), bars[..n], d, day, cfg);
    }
    hide BrokenRule, TrackClose, SellSignal, TrackedAs, ReasonFor, UpTo;
    assert n > 0 ==> bars[..n][n-1] == bars[n-1];
  }

  /** Day d is in the list exactly when the last bar before the cut is dated d. */
  lemma BarOfDay(bars: Bars, d: int, n: int)
    requires Ordered(bars) && Cut(bars, d, n)
    ensures (exists b :: b in bars && b.date == d) <==> n > 0 && bars[n-1].date == d
  {
    if b :| b in bars && b.date == d {
      var i :| 0 <= i < |bars| && bars[i] == b;
      assert i < n;
    }
    if n > 0 { assert bars[n-1] in bars; }
  }

  /** A signal fires exactly when the symbol has a bar on the day and a rule is broken on the bars up to it. */
  lemma SignalIffTradesAndBroken(p: Position, d: int, day: int, k: KLine, cfg: Config, n: int)
    requires var bars := BarsOf(k, p.symbol); Ordered(bars) && Cut(bars, d, n)
    ensures var bars, r := BarsOf(k, p.symbol), CheckSell(p, d, day, k, cfg);
            r.1.Some? <==> n > 0 && (exists b :: b in bars && b.date == d) && BrokenRule(r.0, bars[..n], day, cfg) != 0
  {
    BarOfDay(BarsOf(k, p.symbol), d, n);
    CheckIs(p, d, day, k, cfg, n);
    hide CheckSell, BrokenRule, ReasonFor;
  }

  /** Bars after the day do not matter: markets that agree up to it give the same answer. */
  lemma LaterBarsDoNotMatter(p: Position, d: int, day: int, k: KLine, k': KLine, cfg: Config, n: int)
    requires var bars, bars' := BarsOf(k, p.symbol), BarsOf(k', p.symbol);
             Cut(bars, d, n) && Cut(bars', d, n) && bars[..n] == bars'[..n]
    ensures CheckSell(p, d, day, k, cfg) == CheckSell(p, d, day, k', cfg)
  {
    ScansAtCut(BarsOf(k, p.symbol), d, n);
    ScansAtCut(BarsOf(k', p.symbol), d, n);
    hide UpTo, SellSignal, TrackClose;
  }

  /** The signals of a day are acted on in order of priority, equal ones in the order of the positions. */
  lemma SignalsByPriority(sigs: seq<Signal>)
    ensures var sorted := StableSort(sigs, MoreUrgent);
            && multiset(sorted) == multiset(sigs)
            && (forall i, j :: 0 <= i < j < |sorted| ==> sorted[i].priority <= sorted[j].priority)
            && forall rank: int :: Only(sorted, OfPriority(rank)) == Only(sigs, OfPriority(rank))
  {
    StableSortCorrect(sigs, MoreUrgent);
    forall rank: int ensures Only(StableSort(sigs, MoreUrgent), OfPriority(rank)) == Only(sigs, OfPriority(rank)) {
      StableSortIsStable(sigs, MoreUrgent, OfPriority(rank));
    }
    hide StableSort;
  }

  function OfPriority(rank: int): Signal -> bool { (sig: Signal) => sig.priority == rank }

  /** In every run a holding with nothing pending is exactly the same after a day on which its symbol has no bar. */
  lemma SuspensionChangesNothing(n: nat, dates: seq<int>, screen: Screen, k: KLine, cfg: Config, s: Symbol)
    requires n < |dates| && GoodRun(dates, screen, k, cfg)
    requires forall b :: b in BarsOf(k, s) ==> b.date != dates[n]
    ensures var p := At(Run(n, dates, screen, k, cfg).positions, s);
            p.Some? && p.value.pendingSell.None? ==> At(Run(n+1, dates, screen, k, cfg).positions, s) == p
  {
    var st, e, d := Run(n, dates, screen, k, cfg), LastDay(n, dates), dates[n];
    var p := At(st.positions, s);
    if p.Some? && p.value.pendingSell.None? {
      RunIsSound(n, dates, screen, k, cfg);
      SoundParts(st, e, k, cfg);
      SuspendedCheck(p.value, d, n, k, cfg, s);
      hide Sound, GoodMarket, DistinctCandidates, CheckSell, SaleBar, Run, Books, Solvent, AllTimely;
      RetryAt(Unfreeze(st), e, d, k, cfg, s);
      CheckAt(RetryPending(Unfreeze(st), d, k, cfg), d, n, k, cfg, s);
      NextDayAt(n, dates, screen, k, cfg, s);
    }
  }

  lemma SuspendedCheck(p: Position, d: int, day: int, k: KLine, cfg: Config, s: Symbol)
    requires GoodMarket(k) && p.symbol == s && forall b :: b in BarsOf(k, s) ==> b.date != d
    ensures CheckSell(p, d, day, k, cfg) == (p, None)
  {
    var bars := BarsOf(k, s);
    var n := CutExists(bars, d);
    CheckIs(p, d, day, k, cfg, n);
    hide CheckSell;
    if n > 0 { assert bars[n-1] in bars; }
  }

  // ----- tracked extremes over a run -----

  /** Day j counts for the highest close: the symbol trades that day and does not close at limit-up. */
  predicate Counts(k: KLine, s: Symbol, d: int) {
    var past := UpTo(BarsOf(k, s), d);
    && past != [] && past[|past|-1].date == d
    && (|past| >= 2 ==> past[|past|-1].close < LimitUp(past[|past|-2].close, s))
  }

  function CloseAt(k: KLine, s: Symbol, d: int): real {
    var past := UpTo(BarsOf(k, s), d);
    if past == [] then 0.0 else past[|past|-1].close
  }

  /** h is the maximum of the purchase price and the closes that count on days from..n-1. */
  ghost predicate IsHighest(h: real, cost: real, k: KLine, s: Symbol, dates: seq<int>, from: int, n: nat)
    requires n <= |dates|
  {
    && h >= cost
    && (forall j :: 0 <= j < n && from <= j && Counts(k, s, dates[j]) ==> CloseAt(k, s, dates[j]) <= h)
    && (h == cost || exists j :: 0 <= j < n && from <= j && Counts(k, s, dates[j]) && CloseAt(k, s, dates[j]) == h)
  }

  lemma HighestStep(h: real, h': real, cost: real, k: KLine, s: Symbol, dates: seq<int>, from: int, n: nat)
    requires n < |dates| && from <= n && IsHighest(h, cost, k, s, dates, from, n)
    requires h' == if Counts(k, s, dates[n]) && CloseAt(k, s, dates[n]) > h then CloseAt(k, s, dates[n]) else h
    ensures IsHighest(h', cost, k, s, dates, from, n+1)
  {
    hide Counts, CloseAt;
  }

  lemma CheckTracks(p: Position, dates: seq<int>, n: nat, k: KLine, cfg: Config)
    requires n < |dates|
    ensures var d := dates[n];
            CheckSell(p, d, n, k, cfg).0.highestClose
              == if Counts(k, p.symbol, d) && CloseAt(k, p.symbol, d) > p.highestClose then CloseAt(k, p.symbol, d) else p.highestClose
  {
    hide SellSignal, LimitUp, UpTo;
  }

  /** s is not held after n days, or its tracked highest close is the true one since its purchase. */
  ghost predicate HighestIsTrue(n: nat, dates: seq<int>, screen: Screen, k: KLine, cfg: Config, s: Symbol)
    requires n <= |dates|
  {
    var p := At(Run(n, dates, screen, k, cfg).positions, s);
    p.Some? ==>
      && p.value.buyDayIndex <= n && p.value.symbol == s
      && IsHighest(p.value.highestClose, p.value.costPrice, k, s, dates, p.value.buyDayIndex, n)
  }

  lemma HighestNextDay(n: nat, dates: seq<int>, screen: Screen, k: KLine, cfg: Config, s: Symbol)
    requires n < |dates| && GoodRun(dates, screen, k, cfg) && HighestIsTrue(n, dates, screen, k, cfg, s)
    ensures HighestIsTrue(n+1, dates, screen, k, cfg, s)
  {
    hide GoodMarket, DistinctCandidates, Sound, AfterSales, ExecuteBuys, CheckSell, SaleBar, IsHighest;
    RunIsSound(n, dates, screen, k, cfg);
    var st, e, d := Run(n, dates, screen, k, cfg), LastDay(n, dates), dates[n];
    SoundParts(st, e, k, cfg);
    AfterSalesKeeps(st, e, d, n, k, cfg);
    BuysKeepHoldings(AfterSales(st, d, n, k, cfg), screen(d), d, n, k, cfg, s);
    SalesAddNothing(st, d, n, k, cfg, s);
    var p, q := At(st.positions, s), At(Run(n+1, dates, screen, k, cfg).positions, s);
    assert q == At(ExecuteBuys(AfterSales(st, d, n, k, cfg), screen(d), d, n, k, cfg).positions, s);
    if At(AfterSales(st, d, n, k, cfg).positions, s).Some? {
      DayAt(st, e, d, n, k, cfg, s);
      CheckTracks(p.value, dates, n, k, cfg);
      HighestStep(p.value.highestClose, q.value.highestClose, p.value.costPrice, k, s, dates, p.value.buyDayIndex, n);
    } else if q.Some? {
      HighestAtStart(q.value.costPrice, k, s, dates, n+1);
    }
  }

  lemma HighestAtStart(cost: real, k: KLine, s: Symbol, dates: seq<int>, n: nat)
    requires n <= |dates|
    ensures IsHighest(cost, cost, k, s, dates, n, n)
  {
  }

  lemma NoneAtStart(dates: seq<int>, screen: Screen, k: KLine, cfg: Config, s: Symbol)
    ensures HighestIsTrue(0, dates, screen, k, cfg, s)
  {
  }

  /**
   * In every run the tracked highest close of a position is exactly the maximum of its purchase price and
   * the closes of its symbol since then, limit-up days and suspensions left out.
   */
  lemma {:induction false} HighestCloseIsMaximum(n: nat, dates: seq<int>, screen: Screen, k: KLine, cfg: Config, s: Symbol)
    requires n <= |dates| && GoodRun(dates, screen, k, cfg)
    ensures HighestIsTrue(n, dates, screen, k, cfg, s)
  {
    hide Day, HighestIsTrue, GoodMarket, DistinctCandidates;
    if n == 0 {
      NoneAtStart(dates, screen, k, cfg, s);
    } else {
      HighestCloseIsMaximum(n-1, dates, screen, k, cfg, s);
      HighestNextDay(n-1, dates, screen, k, cfg, s);
    }
  }
}
