/** At which price the open positions are marked in the equity curve, read off the bars. */
module Valuation {
  import opened Market
  import opened Backtest
  import opened BacktestRun

  /** i is the last bar of the list dated at most d. */
  ghost predicate LastUpTo(bars: Bars, d: int, i: int) {
    0 <= i < |bars| && bars[i].date <= d && forall j :: i < j < |bars| ==> bars[j].date > d
  }

  /** p is worth the close of its symbol's last bar up to d, or what it was bought at when there is none. */
  ghost predicate PricedAt(price: real, p: Position, bars: Bars, d: int) {
    || (exists i :: LastUpTo(bars, d, i) && price == bars[i].close)
    || ((forall j :: 0 <= j < |bars| ==> bars[j].date > d) && price == p.costPrice)
  }

  ghost predicate AllPriced(prices: seq<real>, ps: seq<Position>, d: int, k: KLine) {
    |prices| == |ps| && forall i :: 0 <= i < |ps| ==> PricedAt(prices[i], ps[i], BarsOf(k, ps[i].symbol), d)
  }

  /** What the positions are worth at the prices. */
  function Worth(ps: seq<Position>, prices: seq<real>): real
    requires |ps| == |prices|
  {
    if ps == [] then 0.0
    else Worth(ps[..|ps|-1], prices[..|ps|-1]) + prices[|ps|-1] * ps[|ps|-1].quantity as real
  }

  lemma PriceIsUnique(a: real, b: real, p: Position, bars: Bars, d: int)
    requires PricedAt(a, p, bars, d) && PricedAt(b, p, bars, d)
    ensures a == b
  {
  }

  lemma MarkAt(p: Position, d: int, k: KLine) returns (price: real)
    requires Ordered(BarsOf(k, p.symbol))
    ensures PricedAt(price, p, BarsOf(k, p.symbol), d) && MarkOf(p, d, k) == price * p.quantity as real
  {
    var bars := BarsOf(k, p.symbol);
    var n := CutExists(bars, d);
    ScansAtCut(bars, d, n);
    price := if n == 0 then p.costPrice else bars[n-1].close;
    hide UpTo;
    if n > 0 { assert LastUpTo(bars, d, n-1); }
  }

  lemma PricedAppend(ps: seq<Position>, prices: seq<real>, p: Position, price: real, d: int, k: KLine)
    requires AllPriced(prices, ps, d, k) && PricedAt(price, p, BarsOf(k, p.symbol), d)
    ensures AllPriced(prices + [price], ps + [p], d, k)
    ensures Worth(ps + [p], prices + [price]) == Worth(ps, prices) + price * p.quantity as real
  {
    hide PricedAt;
    assert (ps + [p])[..|ps|] == ps && (prices + [price])[..|prices|] == prices;
  }

  lemma MarkAppend(ps: seq<Position>, p: Position, d: int, k: KLine)
    ensures MarkValue(ps + [p], d, k) == MarkValue(ps, d, k) + MarkOf(p, d, k)
  {
    hide MarkOf;
    assert (ps + [p])[..|ps|] == ps;
  }

  lemma NothingPriced(d: int, k: KLine)
    ensures AllPriced([], [], d, k) && MarkValue([], d, k) == Worth([], [])
  {
  }

  lemma {:induction false} MarksAreWorth(ps: seq<Position>, d: int, k: KLine) returns (prices: seq<real>)
    requires OrderedMarket(k)
    ensures AllPriced(prices, ps, d, k) && MarkValue(ps, d, k) == Worth(ps, prices)
  {
    if ps == [] {
      NothingPriced(d, k);
      prices := [];
    } else {
      var front, p := ps[..|ps|-1], ps[|ps|-1];
      assert Ordered(BarsOf(k, p.symbol));
      hide *;
      assert ps == front + [p];
      var before := MarksAreWorth(front, d, k);
      var price := MarkAt(p, d, k);
      PricedAppend(front, before, p, price, d, k);
      MarkAppend(front, p, d, k);
      prices := before + [price];
    }
  }

  /** The equity recorded for the day: all the money, and the positions at their prices. */
  ghost predicate EquityAt(shot: (int, real), st: State, d: int, k: KLine) {
    && shot.0 == d
    && exists prices :: AllPriced(prices, st.positions, d, k) && shot.1 == st.cash + st.frozen + Worth(st.positions, prices)
  }

  lemma RunUnfolds(n: nat, dates: seq<int>, screen: Screen, k: KLine, cfg: Config)
    requires n < |dates|
    ensures Run(n+1, dates, screen, k, cfg) == Day(Run(n, dates, screen, k, cfg), dates[n], n, screen(dates[n]), k, cfg)
  {
    hide Day;
  }

  lemma LastEquity(n: nat, dates: seq<int>, screen: Screen, k: KLine, cfg: Config)
    requires n < |dates| && OrderedMarket(k)
    ensures var st := Run(n+1, dates, screen, k, cfg);
            |st.snapshots| > 0 && st.snapshots[..|st.snapshots|-1] == Run(n, dates, screen, k, cfg).snapshots
            && EquityAt(st.snapshots[|st.snapshots|-1], st, dates[n], k)
  {
    var st := Run(n+1, dates, screen, k, cfg);
    var before := Run(n, dates, screen, k, cfg);
    hide *;
    RunUnfolds(n, dates, screen, k, cfg);
    DaySnapshots(before, dates[n], n, screen(dates[n]), k, cfg);
    var prices := MarksAreWorth(st.positions, dates[n], k);
    var shot := st.snapshots[|before.snapshots|];
    assert shot.1 == st.cash + st.frozen + Worth(st.positions, prices);
    EquityFrom(shot, st, dates[n], k, prices);
  }

  lemma EquityFrom(shot: (int, real), st: State, d: int, k: KLine, prices: seq<real>)
    requires AllPriced(prices, st.positions, d, k)
    requires shot.0 == d && shot.1 == st.cash + st.frozen + Worth(st.positions, prices)
    ensures EquityAt(shot, st, d, k)
  {
    hide AllPriced, Worth;
  }

  /**
   * In every run the equity of each day is the cash, the frozen cash, and every held position's quantity times the
   * close of the last bar of its symbol up to that day, or times its purchase price when it has no bar yet.
   */
  lemma {:induction false} EquityIsMarkedAtLastClose(n: nat, dates: seq<int>, screen: Screen, k: KLine, cfg: Config)
    requires n <= |dates| && OrderedMarket(k)
    ensures var shots := Run(n, dates, screen, k, cfg).snapshots;
            |shots| == n && forall j :: 0 <= j < n ==> EquityAt(shots[j], Run(j+1, dates, screen, k, cfg), dates[j], k)
  {
    hide Day, EquityAt;
    if n > 0 {
      EquityIsMarkedAtLastClose(n-1, dates, screen, k, cfg);
      LastEquity(n-1, dates, screen, k, cfg);
    }
  }
}
