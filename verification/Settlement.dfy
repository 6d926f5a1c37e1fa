/**
 * When orders are filled, against the day they are booked for: proceeds become spendable, and the holding
 * limit starts to count, on the next trading day of the market, whether or not the symbol trades that day.
 */
module Settlement {
  import opened Basics
  import opened Market
  import opened Ledger
  import opened Backtest
  import opened BacktestInvariant
  import opened BacktestRun

  function Calendar(k: KLine, cfg: Config): seq<int> { TradeDates(k, cfg.startDate, cfg.endDate) }

  /** The symbol has a bar on day d. */
  predicate Trades(k: KLine, s: Symbol, d: int) {
    exists b | b in BarsOf(k, s) :: b.date == d
  }

  /** An order of one trading day fills on the next one at the earliest, and exactly then if the symbol trades. */
  lemma FillDates(k: KLine, s: Symbol, first: int, last: int, n: nat)
    requires Ordered(BarsOf(k, s))
    ensures var dates := TradeDates(k, first, last);
            n + 1 < |dates| && FillFor(BarsOf(k, s), dates[n]).Some? ==>
              var fill := FillFor(BarsOf(k, s), dates[n]).value.bar.date;
              && dates[n] < fill && dates[n+1] <= fill
              && (fill == dates[n+1] <==> Trades(k, s, dates[n+1]))
  {
    var dates, bars := TradeDates(k, first, last), BarsOf(k, s);
    TradeDatesCorrect(k, first, last);
    if n + 1 < |dates| && FillFor(bars, dates[n]).Some? {
      FillIsNextBar(bars, dates[n]);
      var fill := FillFor(bars, dates[n]).value.bar;
      assert dates[n] in dates && dates[n+1] in dates;
      BarIsTrading(k, s, fill);
      NextDateIsLeast(dates, n, fill.date, last);
    }
  }

  lemma NextDateIsLeast(dates: seq<int>, n: nat, d: int, last: int)
    requires StrictlyIncreasing(dates) && n + 1 < |dates| && dates[n] < d
    requires dates[n+1] <= last && (d <= last ==> d in dates)
    ensures dates[n+1] <= d
  {
  }

  lemma BarIsTrading(k: KLine, s: Symbol, b: Bar)
    requires b in BarsOf(k, s)
    ensures TradesOn(k, b.date)
  {
    var i :| 0 <= i < |k[s]| && k[s][i] == b;
  }

  /**
   * In every run the proceeds of the sales of a day are released at the start of the next one. That is the
   * date of the fill exactly for the symbols that trade on it; for the others the fill comes later.
   */
  lemma ReleasedOnFillDateIff(n: nat, screen: Screen, k: KLine, cfg: Config)
    requires GoodRun(Calendar(k, cfg), screen, k, cfg) && n + 1 < |Calendar(k, cfg)|
    ensures var dates := Calendar(k, cfg);
            var st, next := Run(n, dates, screen, k, cfg), Run(n+1, dates, screen, k, cfg);
            var sold := AfterSales(st, dates[n], n, k, cfg);
            && st.records <= sold.records <= next.records
            && Unfreeze(next).cash == next.cash + Sum(sold.records[|st.records|..], Flow)
            && forall r :: r in sold.records[|st.records|..] ==>
                 r.action == SELL && dates[n+1] <= r.date && (r.date == dates[n+1] <==> Trades(k, r.symbol, dates[n+1]))
  {
    var dates := Calendar(k, cfg);
    var st := Run(n, dates, screen, k, cfg);
    var sold := AfterSales(st, dates[n], n, k, cfg);
    hide AfterSales, Run, Sum, TradeDates, Trades, FillFor, DistinctCandidates;
    BuysSpendOnlyFreeCash(n, dates, screen, k, cfg);
    forall r | r in sold.records[|st.records|..]
      ensures r.action == SELL && dates[n+1] <= r.date && (r.date == dates[n+1] <==> Trades(k, r.symbol, dates[n+1]))
    {
      assert SaleOf(r, dates[n], k);
      FillDates(k, r.symbol, cfg.startDate, cfg.endDate, n);
    }
  }

  // ----- what the holding limit counts from -----

  /** p was ordered on the trading day before its buyDayIndex and filled on the next bar. */
  ghost predicate OrderedBefore(p: Position, n: nat, dates: seq<int>, k: KLine)
    requires n <= |dates|
  {
    && 1 <= p.buyDayIndex <= n
    && var fill := FillFor(BarsOf(k, p.symbol), dates[p.buyDayIndex - 1]);
    && fill.Some? && p.buyDate == fill.value.bar.date
  }

  ghost predicate HeldSinceOrder(n: nat, dates: seq<int>, screen: Screen, k: KLine, cfg: Config, s: Symbol)
    requires n <= |dates|
  {
    var p := At(Run(n, dates, screen, k, cfg).positions, s);
    p.Some? ==> p.value.symbol == s && OrderedBefore(p.value, n, dates, k)
  }

  lemma HeldNextDay(n: nat, dates: seq<int>, screen: Screen, k: KLine, cfg: Config, s: Symbol)
    requires n < |dates| && GoodRun(dates, screen, k, cfg) && HeldSinceOrder(n, dates, screen, k, cfg, s)
    ensures HeldSinceOrder(n+1, dates, screen, k, cfg, s)
  {
    hide GoodRun, Run, AfterSales, FillFor;
    NextDayAt(n, dates, screen, k, cfg, s);
    AtSymbol(Run(n+1, dates, screen, k, cfg).positions, s);
  }

  lemma AtSymbol(ps: seq<Position>, s: Symbol)
    ensures At(ps, s).Some? ==> At(ps, s).value.symbol == s
  {
  }

  lemma NothingHeldYet(dates: seq<int>, screen: Screen, k: KLine, cfg: Config, s: Symbol)
    ensures HeldSinceOrder(0, dates, screen, k, cfg, s)
  {
  }

  lemma {:induction false} EveryHoldingWasOrdered(n: nat, dates: seq<int>, screen: Screen, k: KLine, cfg: Config, s: Symbol)
    requires n <= |dates| && GoodRun(dates, screen, k, cfg)
    ensures HeldSinceOrder(n, dates, screen, k, cfg, s)
  {
    hide *;
    if n == 0 {
      NothingHeldYet(dates, screen, k, cfg, s);
    } else {
      EveryHoldingWasOrdered(n-1, dates, screen, k, cfg, s);
      HeldNextDay(n-1, dates, screen, k, cfg, s);
    }
  }

  /** The fill of p came on the trading day it counts from, or later because its symbol did not trade that day. */
  ghost predicate CountsFrom(p: Position, k: KLine, dates: seq<int>) {
    0 <= p.buyDayIndex < |dates| ==>
      && dates[p.buyDayIndex] <= p.buyDate
      && (p.buyDate == dates[p.buyDayIndex] <==> Trades(k, p.symbol, dates[p.buyDayIndex]))
  }

  lemma OrderCountsFrom(p: Position, n: nat, k: KLine, cfg: Config)
    requires OrderedMarket(k) && n <= |Calendar(k, cfg)| && OrderedBefore(p, n, Calendar(k, cfg), k)
    ensures CountsFrom(p, k, Calendar(k, cfg))
  {
    hide TradeDates, Trades, FillFor;
    FillDates(k, p.symbol, cfg.startDate, cfg.endDate, p.buyDayIndex - 1);
  }

  /**
   * The holding limit counts from buyDayIndex: that is the day the purchase was filled exactly when the
   * symbol traded on it. Otherwise the fill came later, and the position is held for less than is counted.
   */
  lemma CountsFromFillIff(n: nat, screen: Screen, k: KLine, cfg: Config, s: Symbol)
    requires GoodRun(Calendar(k, cfg), screen, k, cfg) && n <= |Calendar(k, cfg)|
    ensures var p := At(Run(n, Calendar(k, cfg), screen, k, cfg).positions, s);
            p.Some? ==> 1 <= p.value.buyDayIndex <= n && CountsFrom(p.value, k, Calendar(k, cfg))
  {
    var p := At(Run(n, Calendar(k, cfg), screen, k, cfg).positions, s);
    hide Run, TradeDates, Calendar, FillFor, CountsFrom, At, DistinctCandidates, StrictlyIncreasing;
    EveryHoldingWasOrdered(n, Calendar(k, cfg), screen, k, cfg, s);
    if p.Some? { OrderCountsFrom(p.value, n, k, cfg); }
  }

  // ----- a run that spends the proceeds of a sale before the sale is filled -----

  /** A is suspended on days 2 and 3. */
  const A_BARS := [Bar(0, 10.0, 10.0), Bar(1, 10.0, 9.0), Bar(4, 10.0, 10.0)]
  const B_BARS := [Bar(2, 10.0, 10.0), Bar(3, 10.0, 10.0)]
  const MARKET: KLine := map["A" := A_BARS, "B" := B_BARS]
  const CONFIG := Config(0, 4, 1000.0, 0.0, 0.0, 0.0, 1.0, 1, 0.05, 1.0, 100, 100, false, None)
  const PICK_A := Candidate("A", 1.0, LOW, 0)
  const PICK_B := Candidate("B", 1.0, LOW, 0)

  function Picks(d: int): seq<Candidate> {
    if d == 0 then [PICK_A] else if d == 2 then [PICK_B] else []
  }

  const BOUGHT_A := Position("A", 100, 10.0, 1, 1, 10.0, 10.0, None)
  const BOUGHT_B := Position("B", 100, 10.0, 3, 3, 10.0, 10.0, None)
  const SOLD_A := Record(4, "A", SELL, 10.0, 100, 0.0, 1000.0, "STOP_LOSS")

  lemma Scans()
    ensures FillFor(A_BARS, 0) == Some(Fill(10.0, A_BARS[1]))
    ensures FillFor(A_BARS, 1) == Some(Fill(9.0, A_BARS[2]))
    ensures FillFor(B_BARS, 2) == Some(Fill(10.0, B_BARS[1]))
    ensures UpTo(A_BARS, 1) == A_BARS[..2]
  {
    assert A_BARS[..2][..1][..0] == [] && A_BARS[..2][..1] == [A_BARS[0]];
    assert UpTo(A_BARS[..2][..1], 0) == [A_BARS[0]] && After(A_BARS[..2][..1], 0) == [];
    assert UpTo(A_BARS[..2], 0) == [A_BARS[0]] && After(A_BARS[..2], 0) == [A_BARS[1]];
    assert UpTo(A_BARS[..2][..1], 1) == [A_BARS[0]] && After(A_BARS[..2][..1], 1) == [];
    assert UpTo(A_BARS[..2], 1) == A_BARS[..2] && After(A_BARS[..2], 1) == [];
    assert B_BARS[..1][..0] == [];
    assert UpTo(B_BARS[..1], 2) == [B_BARS[0]] && After(B_BARS[..1], 2) == [];
  }

  lemma Limits()
    ensures LimitUp(10.0, "A") == 11.0 == LimitUp(10.0, "B")
    ensures LimitDown(9.0, "A") == 8.1
  {
    assert "A"[1..] == "" == "B"[1..];
    assert Bare("A") == "A" && Bare("B") == "B";
    assert "300"[0] != 'A' && "688"[0] != 'A' && "8"[0] != 'A' && "4"[0] != 'A';
    assert "300"[0] != 'B' && "688"[0] != 'B' && "8"[0] != 'B' && "4"[0] != 'B';
    assert LimitPct("A") == LimitPct("B") == 0.10;
  }

  lemma OneRanked(c: Candidate)
    ensures Rank(NotHeld([c], []), 1) == [c]
  {
    assert [c][..0] == [];
    assert NotHeld([c][..0], []) == [];
    assert StableSort([c][..0], RanksBefore) == [];
  }

  /** All the cash goes into one purchase of 100 shares at 10.0. */
  lemma BuysOneLot(st: State, c: Candidate, d: int, day: int, fill: Fill)
    requires st.cash == 1000.0 && st.positions == []
    requires FillFor(BarsOf(MARKET, c.symbol), d) == Some(fill) && fill.bar.open == 10.0 && LimitUp(fill.prevClose, c.symbol) == 11.0
    ensures var p := Position(c.symbol, 100, 10.0, fill.bar.date, day + 1, 10.0, 10.0, None);
            ExecuteBuys(st, [c], d, day, MARKET, CONFIG)
              == st.(cash := 0.0, positions := [p], records := st.records + [BuyRecord(p, CONFIG)])
  {
    hide FillFor, LimitUp, MARKET, Rank, NotHeld, RanksBefore, StableSort;
    OneRanked(c);
    assert [c][..0] == [];
    assert Sum([], CostValue) == 0.0;
    var total := Sum([c], ScoreOf);
    assert BuyShares(c, st, CONFIG, 10.0, total) == 100;
    assert ExecuteBuy(st, c, d, day, MARKET, CONFIG, total)
        == BuyEach(st, [c], d, day, MARKET, CONFIG, total);
  }

  lemma FirstDay()
    ensures var st := Day(Initial(CONFIG), 0, 0, Picks(0), MARKET, CONFIG);
            && st.cash == st.frozen == 0.0 && st.positions == [BOUGHT_A] && st.records == [BuyRecord(BOUGHT_A, CONFIG)]
  {
    Scans();
    Limits();
    hide FillFor, LimitUp, MarkValue, ExecuteBuys;
    assert AfterSales(Initial(CONFIG), 0, 0, MARKET, CONFIG) == Initial(CONFIG);
    BuysOneLot(Initial(CONFIG), PICK_A, 0, 0, Fill(10.0, A_BARS[1]));
  }

  lemma CheckOne(p: Position, d: int, day: int)
    ensures var r := CheckSell(p, d, day, MARKET, CONFIG);
            CheckAll([p], d, day, MARKET, CONFIG) == ([r.0], if r.1.Some? then [r.1.value] else [])
  {
    hide CheckSell, MARKET, CONFIG;
    assert [p][..0] == [] && CheckAll([], d, day, MARKET, CONFIG) == ([], []);
    var r := CheckSell(p, d, day, MARKET, CONFIG);
    var sigs := if r.1.Some? then [r.1.value] else [];
    assert [] + [r.0] == [r.0] && [] + sigs == sigs;
  }

  /** The stop-loss fires; the next bar is that of day 4. */
  lemma SecondDay(st: State)
    requires st.cash == st.frozen == 0.0 && st.positions == [BOUGHT_A]
    ensures var st' := Day(st, 1, 1, Picks(1), MARKET, CONFIG);
            && st'.cash == 0.0 && st'.frozen == 1000.0 && st'.positions == [] && st'.records == st.records + [SOLD_A]
  {
    Scans();
    Limits();
    hide FillFor, LimitUp, LimitDown, UpTo, MarkValue;
    assert [BOUGHT_A][..0] == [];
    assert PendingSignals([BOUGHT_A]) == [];
    assert ClearPending([BOUGHT_A])[0] == BOUGHT_A;
    assert ClearPending([BOUGHT_A]) == [BOUGHT_A];
    var u := Unfreeze(st);
    assert RetryPending(u, 1, MARKET, CONFIG) == u;
    var p := BOUGHT_A.(lowestClose := 9.0);
    var sig := Signal("A", "STOP_LOSS", 1, 1);
    assert CheckSell(BOUGHT_A, 1, 1, MARKET, CONFIG) == (p, Some(sig));
    CheckOne(BOUGHT_A, 1, 1);
    assert [sig][..0] == [];
    assert StableSort([sig], MoreUrgent) == [sig];
    assert [p][..0] == [] && IndexOf([p], "A") == 0 && RemoveAt([p], 0) == [];
    assert SaleBar(MARKET, "A", 1) == Some(A_BARS[2]);
    assert ExecuteSells(u.(positions := [p]), [sig], 1, MARKET, CONFIG)
        == ExecuteSell(u.(positions := [p]), sig, 1, MARKET, CONFIG);
    assert Rank(NotHeld([], []), 1) == [];
  }

  lemma ThirdDay(st: State)
    requires st.cash == 0.0 && st.frozen == 1000.0 && st.positions == []
    ensures var st' := Day(st, 2, 2, Picks(2), MARKET, CONFIG);
            && st'.cash == 0.0 && st'.frozen == 0.0 && st'.positions == [BOUGHT_B]
            && st'.records == st.records + [BuyRecord(BOUGHT_B, CONFIG)]
  {
    Scans();
    Limits();
    hide FillFor, LimitUp, MarkValue, ExecuteBuys;
    var sold := AfterSales(st, 2, 2, MARKET, CONFIG);
    assert sold == Unfreeze(st);
    BuysOneLot(sold, PICK_B, 2, 2, Fill(10.0, B_BARS[1]));
  }

  lemma FiveDays()
    ensures Calendar(MARKET, CONFIG) == [0, 1, 2, 3, 4]
  {
    assert TradesOn(MARKET, 0) by { assert MARKET["A"][0].date == 0; }
    assert TradesOn(MARKET, 1) by { assert MARKET["A"][1].date == 1; }
    assert TradesOn(MARKET, 2) by { assert MARKET["B"][0].date == 2; }
    assert TradesOn(MARKET, 3) by { assert MARKET["B"][1].date == 3; }
    assert TradesOn(MARKET, 4) by { assert MARKET["A"][2].date == 4; }
    hide TradesOn;
    assert TradeDates(MARKET, 5, 4) == [];
    assert TradeDates(MARKET, 4, 4) == [4];
    assert TradeDates(MARKET, 3, 4) == [3, 4];
    assert TradeDates(MARKET, 2, 4) == [2, 3, 4];
    assert TradeDates(MARKET, 1, 4) == [1, 2, 3, 4];
  }

  /** A run of the model in which the buy of day 3 is paid entirely with a sale that is filled on day 4. */
  lemma UnfilledProceedsAreSpent()
    ensures var dates := Calendar(MARKET, CONFIG);
            && GoodRun(dates, Picks, MARKET, CONFIG) && |dates| == 5
            && var before, after := Run(2, dates, Picks, MARKET, CONFIG), Run(3, dates, Picks, MARKET, CONFIG);
            && before.cash == 0.0 && before.frozen == 1000.0
            && before.records == [BuyRecord(BOUGHT_A, CONFIG), SOLD_A]
            && after.records == before.records + [BuyRecord(BOUGHT_B, CONFIG)]
            && BuyRecord(BOUGHT_B, CONFIG).date < SOLD_A.date
  {
    FiveDays();
    FirstDay();
    hide Day, Calendar, MARKET;
    var dates := [0, 1, 2, 3, 4];
    assert Run(0, dates, Picks, MARKET, CONFIG) == Initial(CONFIG);
    var one, two := Run(1, dates, Picks, MARKET, CONFIG), Run(2, dates, Picks, MARKET, CONFIG);
    SecondDay(one);
    ThirdDay(two);
    assert two.records == [BuyRecord(BOUGHT_A, CONFIG), SOLD_A];
    GoodExample(dates);
  }

  lemma GoodExample(dates: seq<int>)
    requires StrictlyIncreasing(dates)
    ensures GoodRun(dates, Picks, MARKET, CONFIG)
  {
  }
}
