/**
 * The engine as it runs: a portfolio updated in place, bars found through the date index
 * (or by a scan for a symbol the index does not cover). Every operation is proved to leave
 * exactly the state that Backtest's functions, which only scan, describe.
 */
module BacktestEngine {
  import opened Basics
  import opened Market
  import opened Ledger
  import opened Backtest
  import opened SellRules

  type Index = map<Symbol, DateIndex>

  /** The last close up to d and the first bar after d. */
  method FindFill(k: KLine, s: Symbol, d: int, index: Index) returns (f: Option<Fill>)
    requires OrderedMarket(k) && IndexesMarket(index, k)
    ensures f == FillFor(BarsOf(k, s), d)
  {
    if s !in k || k[s] == [] {
      return None;
    }
    var bars := k[s];
    if s in index {
      var end := GetBarsUpTo(index[s], d, bars);
      if end + 1 >= |bars| || end < 0 {
        return None;
      }
      f := Some(Fill(bars[end].close, bars[end+1]));
    } else {
      var future := After(bars, d);
      if future == [] {
        return None;
      }
      var past := UpTo(bars, d);
      if past == [] {
        return None;
      }
      f := Some(Fill(past[|past|-1].close, future[0]));
    }
  }

  method BarsUpTo(k: KLine, s: Symbol, d: int, index: Index) returns (past: Bars)
    requires OrderedMarket(k) && IndexesMarket(index, k)
    ensures past == UpTo(BarsOf(k, s), d)
  {
    if s !in k || k[s] == [] {
      return [];
    }
    if s in index {
      var end := GetBarsUpTo(index[s], d, k[s]);
      past := k[s][..end+1];
    } else {
      past := UpTo(k[s], d);
    }
  }

  method CheckSellConditions(position: Position, d: int, day: int, k: KLine, cfg: Config, index: Index)
    returns (p: Position, sig: Option<Signal>)
    requires OrderedMarket(k) && IndexesMarket(index, k)
    ensures (p, sig) == CheckSell(position, d, day, k, cfg)
    ensures forall n: int :: Cut(BarsOf(k, position.symbol), d, n) ==>
              CheckedAs(position, p, sig, BarsOf(k, position.symbol), n, d, day, cfg)
  {
    ghost var cut := CutExists(BarsOf(k, position.symbol), d);
    CheckIs(position, d, day, k, cfg, cut);
    hide CheckedAs, Cut;
    p := position;
    var past := BarsUpTo(k, p.symbol, d, index);
    if past == [] || past[|past|-1].date != d {
      return p, None;
    }
    var close := past[|past|-1].close;
    if |past| >= 2 {
      var limitUp := LimitUp(past[|past|-2].close, p.symbol);
      if close > p.highestClose && close < limitUp {
        p := p.(highestClose := close);
      }
    } else if close > p.highestClose {
      p := p.(highestClose := close);
    }
    if close < p.lowestClose {
      p := p.(lowestClose := close);
    }
    sig := SellSignal(p, past, d, day, cfg);
  }

  class Portfolio {
    var cash: real
    var frozenCash: real
    var positions: seq<Position>
    var tradeRecords: seq<Record>
    var equitySnapshots: seq<(int, real)>

    ghost function View(): State
      reads this
    {
      State(cash, frozenCash, positions, tradeRecords, equitySnapshots)
    }

    constructor (capital: real)
      ensures View() == State(capital, 0.0, [], [], [])
    {
      cash, frozenCash := capital, 0.0;
      positions, tradeRecords, equitySnapshots := [], [], [];
    }

    /** One sell order: filled at the next open, or left pending on its position. */
    method ExecuteSell(sig: Signal, d: int, k: KLine, cfg: Config, index: Index)
      requires OrderedMarket(k) && IndexesMarket(index, k)
      modifies this
      ensures View() == Backtest.ExecuteSell(old(View()), sig, d, k, cfg)
    {
      hide FillFor, IndexesMarket, OrderedMarket, LimitDown, SaleRecord;
      var at := IndexOf(positions, sig.symbol);
      if at < 0 {
        return;
      }
      var position := positions[at];
      var fill := FindFill(k, sig.symbol, d, index);
      if fill.None? || fill.value.bar.open <= LimitDown(fill.value.prevClose, sig.symbol) {
        positions := positions[at := position.(pendingSell := Some(sig))];
        return;
      }
      var record := SaleRecord(position, sig, fill.value.bar, cfg);
      frozenCash := frozenCash + (record.amount - record.cost);
      tradeRecords := tradeRecords + [record];
      positions := RemoveAt(positions, at);
    }

    method ExecuteSells(signals: seq<Signal>, d: int, k: KLine, cfg: Config, index: Index)
      requires OrderedMarket(k) && IndexesMarket(index, k)
      modifies this
      ensures View() == Backtest.ExecuteSells(old(View()), signals, d, k, cfg)
    {
      hide Backtest.ExecuteSell, IndexesMarket, OrderedMarket;
      for i := 0 to |signals|
        invariant View() == Backtest.ExecuteSells(old(View()), signals[..i], d, k, cfg)
      {
        assert signals[..i+1][..i] == signals[..i];
        ExecuteSell(signals[i], d, k, cfg, index);
      }
      assert signals[..|signals|] == signals;
    }

    /** One candidate: bought at the next open, or skipped. */
    method ExecuteBuy(c: Candidate, d: int, day: int, k: KLine, cfg: Config, index: Index, totalScore: real)
      requires OrderedMarket(k) && IndexesMarket(index, k)
      modifies this
      ensures View() == Backtest.ExecuteBuy(old(View()), c, d, day, k, cfg, totalScore)
    {
      hide FillFor, IndexesMarket, OrderedMarket, LimitUp, IndexOf, BuyShares, Put, BuyCost, BuyRecord, Outlay;
      var fill := FindFill(k, c.symbol, d, index);
      if fill.None? {
        return;
      }
      var open := fill.value.bar.open;
      if open >= LimitUp(fill.value.prevClose, c.symbol) {
        return;
      }
      var shares := BuyShares(c, State(cash, frozenCash, positions, tradeRecords, equitySnapshots), cfg, open, totalScore);
      if shares == 0 {
        return;
      }
      var cost := BuyCost(open, shares, cfg);
      if open * shares as real + cost > cash {
        return;
      }
      var position := Position(c.symbol, shares, open, fill.value.bar.date, day + 1, open, open, None);
      var record := BuyRecord(position, cfg);
      cash := cash - Outlay(record);
      positions := Put(positions, position);
      tradeRecords := tradeRecords + [record];
    }

    method ExecuteBuys(candidates: seq<Candidate>, d: int, day: int, k: KLine, cfg: Config, index: Index)
      requires OrderedMarket(k) && IndexesMarket(index, k)
      modifies this
      ensures View() == Backtest.ExecuteBuys(old(View()), candidates, d, day, k, cfg)
    {
      hide Backtest.ExecuteBuy, IndexesMarket, OrderedMarket, Rank, NotHeld, Sum;
      var slots := cfg.maxHoldings - |positions|;
      if slots <= 0 {
        return;
      }
      var ranked := Rank(NotHeld(candidates, positions), slots);
      var totalScore := Sum(ranked, ScoreOf);
      for i := 0 to |ranked|
        invariant View() == BuyEach(old(View()), ranked[..i], d, day, k, cfg, totalScore)
      {
        assert ranked[..i+1][..i] == ranked[..i];
        ExecuteBuy(ranked[i], d, day, k, cfg, index, totalScore);
      }
      assert ranked[..|ranked|] == ranked;
    }

    /** Takes the pending sales off their positions, in dictionary order. */
    method TakePending() returns (signals: seq<Signal>)
      modifies this`positions
      ensures positions == ClearPending(old(positions))
      ensures signals == PendingSignals(old(positions))
    {
      signals := [];
      ghost var before := positions;
      for i := 0 to |positions|
        invariant |positions| == |before|
        invariant forall j :: 0 <= j < i ==> positions[j] == before[j].(pendingSell := None)
        invariant forall j :: i <= j < |before| ==> positions[j] == before[j]
        invariant signals == PendingSignals(before[..i])
      {
        assert before[..i+1][..i] == before[..i];
        if positions[i].pendingSell.Some? {
          signals := signals + [positions[i].pendingSell.value];
          positions := positions[i := positions[i].(pendingSell := None)];
        }
      }
      assert before[..|before|] == before;
    }

    method CheckPositions(d: int, day: int, k: KLine, cfg: Config, index: Index) returns (signals: seq<Signal>)
      requires OrderedMarket(k) && IndexesMarket(index, k)
      modifies this`positions
      ensures (positions, signals) == CheckAll(old(positions), d, day, k, cfg)
    {
      hide CheckSell, IndexesMarket, OrderedMarket, UpTo;
      signals := [];
      ghost var before := positions;
      for i := 0 to |positions|
        invariant |positions| == |before|
        invariant positions[..i] == CheckAll(before[..i], d, day, k, cfg).0
        invariant signals == CheckAll(before[..i], d, day, k, cfg).1
        invariant positions[i..] == before[i..]
      {
        assert before[..i+1][..i] == before[..i];
        assert positions[i] == positions[i..][0] == before[i];
        var p, sig := CheckSellConditions(positions[i], d, day, k, cfg, index);
        assert positions[i := p][..i+1] == positions[..i] + [p];
        assert positions[i := p][i+1..] == positions[i..][1..] == before[i+1..];
        positions := positions[i := p];
        if sig.Some? {
          signals := signals + [sig.value];
        }
      }
      assert before[..|before|] == before && positions[..|before|] == positions;
    }

    method MarkPositions(d: int, k: KLine, index: Index) returns (value: real)
      requires OrderedMarket(k) && IndexesMarket(index, k)
      ensures value == MarkValue(positions, d, k)
    {
      hide UpTo, IndexesMarket, OrderedMarket, BarsOf;
      value := 0.0;
      for i := 0 to |positions|
        invariant value == MarkValue(positions[..i], d, k)
      {
        assert positions[..i+1][..i] == positions[..i];
        var p := positions[i];
        var past := BarsUpTo(k, p.symbol, d, index);
        var mark := (if past == [] then p.costPrice else past[|past|-1].close) * p.quantity as real;
        assert mark == MarkOf(p, d, k);
        value := value + mark;
      }
      assert positions[..|positions|] == positions;
    }

    /** One iteration of the day loop. */
    method TradeDay(d: int, day: int, candidates: seq<Candidate>, k: KLine, cfg: Config, index: Index)
      requires OrderedMarket(k) && IndexesMarket(index, k)
      modifies this
      ensures View() == Day(old(View()), d, day, candidates, k, cfg)
    {
      hide Backtest.ExecuteSells, Backtest.ExecuteBuys, CheckAll, StableSort, MarkValue, PendingSignals, IndexesMarket, OrderedMarket;
      cash := cash + frozenCash;
      frozenCash := 0.0;
      var pending := TakePending();
      ExecuteSells(pending, d, k, cfg, index);
      assert View() == RetryPending(Unfreeze(old(View())), d, k, cfg);
      var signals := CheckPositions(d, day, k, cfg, index);
      ExecuteSells(StableSort(signals, MoreUrgent), d, k, cfg, index);
      assert View() == AfterSales(old(View()), d, day, k, cfg);
      ExecuteBuys(candidates, d, day, k, cfg, index);
      var value := MarkPositions(d, k, index);
      equitySnapshots := equitySnapshots + [(d, cash + frozenCash + value)];
    }
  }

  /** The whole backtest: the index is built once, then one iteration per trading day. */
  method RunStrategyDriven(screen: Screen, k: KLine, cfg: Config) returns (portfolio: Portfolio)
    requires OrderedMarket(k)
    ensures fresh(portfolio)
    ensures var dates := TradeDates(k, cfg.startDate, cfg.endDate);
            portfolio.View() == Run(|dates|, dates, screen, k, cfg)
  {
    hide Day, IndexesMarket, OrderedMarket, TradeDates;
    portfolio := new Portfolio(cfg.initialCapital);
    var dates := TradeDates(k, cfg.startDate, cfg.endDate);
    var index := BuildMarketIndex(k);
    for n := 0 to |dates|
      invariant portfolio.View() == Run(n, dates, screen, k, cfg)
    {
      portfolio.TradeDay(dates[n], n, screen(dates[n]), k, cfg, index);
    }
  }
}
