/**
 * The strategy-driven backtest as functions on states. Bars are found by the linear scans of
 * Market; the engine in BacktestEngine works on the date index and is proved to compute these.
 * Money is exact (real); the screener's candidates of each day are arbitrary input.
 */
module Backtest {
  import opened Basics
  import opened Market
  import opened Ledger

  datatype Signal = Signal(symbol: Symbol, reason: string, triggerDate: int, priority: int)

  datatype Position = Position(symbol: Symbol, quantity: int, costPrice: real, buyDate: int, buyDayIndex: int,
                               highestClose: real, lowestClose: real, pendingSell: Option<Signal>)

  datatype RiskLevel = LOW | MEDIUM | HIGH
  datatype Candidate = Candidate(symbol: Symbol, trendScore: real, riskLevel: RiskLevel, signalCount: nat)

  type Period = n: int | n > 0 witness 1

  /** The custom exit conditions see the position and the index of its latest bar. */
  type ExitRule = (Position, int) -> Option<string>

  datatype Config = Config(
    startDate: int, endDate: int, initialCapital: real,
    commissionBuy: real, commissionSell: real, slippage: real,
    maxPositionPct: real, maxHoldings: int,
    stopLossPct: real, trailingStopPct: real, trendStopMa: Period, maxHoldingDays: int,
    scoreWeighted: bool, exitRule: Option<ExitRule>)

  /** positions is the insertion-ordered dictionary of open positions. */
  datatype State = State(cash: real, frozen: real, positions: seq<Position>, records: seq<Record>,
                         snapshots: seq<(int, real)>)

  // ----- the position dictionary -----

  function IndexOf(ps: seq<Position>, s: Symbol): (i: int)
    ensures -1 <= i < |ps|
    ensures i >= 0 ==> ps[i].symbol == s
    ensures i < 0 ==> forall j :: 0 <= j < |ps| ==> ps[j].symbol != s
  {
    if ps == [] then -1
    else if ps[|ps|-1].symbol == s then |ps| - 1
    else IndexOf(ps[..|ps|-1], s)
  }

  predicate Holds(ps: seq<Position>, s: Symbol) { IndexOf(ps, s) >= 0 }

  function Put(ps: seq<Position>, p: Position): seq<Position> {
    var i := IndexOf(ps, p.symbol);
    if i >= 0 then ps[i := p] else ps + [p]
  }

  // ----- costs -----

  function BuyCost(price: real, quantity: int, cfg: Config): real {
    var amount := price * quantity as real;
    amount * cfg.commissionBuy + amount * cfg.slippage
  }

  function SellCost(price: real, quantity: int, cfg: Config): real {
    var amount := price * quantity as real;
    amount * cfg.commissionSell + amount * cfg.slippage
  }

  // ----- selling -----

  function SaleRecord(p: Position, sig: Signal, bar: Bar, cfg: Config): Record {
    Record(bar.date, p.symbol, SELL, bar.open, p.quantity, SellCost(bar.open, p.quantity, cfg),
           bar.open * p.quantity as real, sig.reason)
  }

  /** The bar a sale decided on day d would go through at, unless it is missing or opens at limit-down. */
  function SaleBar(k: KLine, s: Symbol, d: int): Option<Bar> {
    match FillFor(BarsOf(k, s), d)
    case None => None
    case Some(f) => if f.bar.open <= LimitDown(f.prevClose, s) then None else Some(f.bar)
  }

  function ExecuteSell(st: State, sig: Signal, d: int, k: KLine, cfg: Config): State {
    var i := IndexOf(st.positions, sig.symbol);
    if i < 0 then st else
      var p := st.positions[i];
      match SaleBar(k, sig.symbol, d)
      case None => st.(positions := st.positions[i := p.(pendingSell := Some(sig))])
      case Some(bar) =>
        var r := SaleRecord(p, sig, bar, cfg);
        st.(frozen := st.frozen + (r.amount - r.cost),
            records := st.records + [r],
            positions := RemoveAt(st.positions, i))
  }

  function ExecuteSells(st: State, sigs: seq<Signal>, d: int, k: KLine, cfg: Config): State {
    if sigs == [] then st
    else ExecuteSell(ExecuteSells(st, sigs[..|sigs|-1], d, k, cfg), sigs[|sigs|-1], d, k, cfg)
  }

  // ----- sell conditions -----

  /** The highest close follows the close, but not on a limit-up day. */
  function TrackClose(p: Position, past: Bars): Position
    requires past != []
  {
    var close := past[|past|-1].close;
    var counts := |past| >= 2 ==> close < LimitUp(past[|past|-2].close, p.symbol);
    p.(highestClose := if close > p.highestClose && counts then close else p.highestClose,
       lowestClose := if close < p.lowestClose then close else p.lowestClose)
  }

  function CloseOf(b: Bar): real { b.close }

  function SellSignal(p: Position, past: Bars, d: int, day: int, cfg: Config): Option<Signal>
    requires past != []
  {
    var close := past[|past|-1].close;
    var n := |past|;
    if p.costPrice > 0.0 && (p.costPrice - close) / p.costPrice >= cfg.stopLossPct then
      Some(Signal(p.symbol, "STOP_LOSS", d, 1))
    else if n >= cfg.trendStopMa && close < Sum(past[n-cfg.trendStopMa..], CloseOf) / cfg.trendStopMa as real then
      Some(Signal(p.symbol, "TREND_BREAK", d, 2))
    else if p.highestClose > 0.0 && (p.highestClose - close) / p.highestClose >= cfg.trailingStopPct then
      Some(Signal(p.symbol, "TRAILING_STOP", d, 3))
    else if day - p.buyDayIndex > cfg.maxHoldingDays then
      Some(Signal(p.symbol, "MAX_HOLDING_DAYS", d, 4))
    else if cfg.exitRule.Some? && cfg.exitRule.value(p, n-1).Some? then
      var reason := cfg.exitRule.value(p, n-1).value;
      Some(Signal(p.symbol, if reason != "" then "EXIT_CONDITION: " + reason else "EXIT_CONDITION", d, 5))
    else None
  }

  /** No bar on day d means the symbol is suspended: nothing is checked or tracked. */
  function CheckSell(p: Position, d: int, day: int, k: KLine, cfg: Config): (Position, Option<Signal>) {
    var past := UpTo(BarsOf(k, p.symbol), d);
    if past == [] || past[|past|-1].date != d then (p, None)
    else
      var p' := TrackClose(p, past);
      (p', SellSignal(p', past, d, day, cfg))
  }

  function CheckAll(ps: seq<Position>, d: int, day: int, k: KLine, cfg: Config): (r: (seq<Position>, seq<Signal>))
    ensures |r.0| == |ps|
  {
    if ps == [] then ([], []) else
      var (qs, sigs) := CheckAll(ps[..|ps|-1], d, day, k, cfg);
      var (q, sig) := CheckSell(ps[|ps|-1], d, day, k, cfg);
      (qs + [q], sigs + if sig.Some? then [sig.value] else [])
  }

  predicate MoreUrgent(a: Signal, b: Signal) { a.priority <= b.priority }

  // ----- buying -----

  function RiskOrder(r: RiskLevel): int {
    match r case LOW => 0 case MEDIUM => 1 case HIGH => 2
  }

  /** Higher score, then lower risk, then more signals. */
  predicate RanksBefore(a: Candidate, b: Candidate) {
    if a.trendScore != b.trendScore then a.trendScore > b.trendScore
    else if a.riskLevel != b.riskLevel then RiskOrder(a.riskLevel) < RiskOrder(b.riskLevel)
    else a.signalCount >= b.signalCount
  }

  function Rank(cs: seq<Candidate>, slots: nat): seq<Candidate> {
    var sorted := StableSort(cs, RanksBefore);
    if slots < |sorted| then sorted[..slots] else sorted
  }

  function NotHeld(cs: seq<Candidate>, ps: seq<Position>): seq<Candidate> {
    if cs == [] then []
    else NotHeld(cs[..|cs|-1], ps) + if Holds(ps, cs[|cs|-1].symbol) then [] else [cs[|cs|-1]]
  }

  function CostValue(p: Position): real { p.costPrice * p.quantity as real }
  function ScoreOf(c: Candidate): real { c.trendScore }

  /** Cash plus the open positions at cost. */
  function CostEquity(st: State): real { st.cash + Sum(st.positions, CostValue) }

  function Allocation(c: Candidate, st: State, cfg: Config, totalScore: real): Option<real> {
    if cfg.scoreWeighted && totalScore > 0.0 then Some(st.cash * (c.trendScore / totalScore))
    else
      var slots := cfg.maxHoldings - |st.positions|;
      if slots <= 0 then None else Some(st.cash / slots as real)
  }

  function BuyShares(c: Candidate, st: State, cfg: Config, open: real, totalScore: real): int {
    match Allocation(c, st, cfg, totalScore)
    case None => 0
    case Some(target) =>
      var cap := CostEquity(st) * cfg.maxPositionPct;
      var capped := if cap < target then cap else target;
      if open <= 0.0 then 0
      else
        var shares := (Truncate(capped / open) / 100) * 100;
        if shares < 100 then 0 else shares
  }

  function BuyRecord(p: Position, cfg: Config): Record {
    Record(p.buyDate, p.symbol, BUY, p.costPrice, p.quantity, BuyCost(p.costPrice, p.quantity, cfg),
           p.costPrice * p.quantity as real, "")
  }

  /** The position a candidate would become, or None when it is skipped. */
  function Purchase(c: Candidate, st: State, d: int, day: int, k: KLine, cfg: Config, totalScore: real): Option<Position> {
    match FillFor(BarsOf(k, c.symbol), d)
    case None => None
    case Some(f) =>
      var open := f.bar.open;
      if open >= LimitUp(f.prevClose, c.symbol) then None
      else
        var shares := BuyShares(c, st, cfg, open, totalScore);
        if shares == 0 || open * shares as real + BuyCost(open, shares, cfg) > st.cash then None
        else Some(Position(c.symbol, shares, open, f.bar.date, day + 1, open, open, None))
  }

  function ExecuteBuy(st: State, c: Candidate, d: int, day: int, k: KLine, cfg: Config, totalScore: real): State {
    match Purchase(c, st, d, day, k, cfg, totalScore)
    case None => st
    case Some(p) =>
      var r := BuyRecord(p, cfg);
      st.(cash := st.cash - Outlay(r), positions := Put(st.positions, p), records := st.records + [r])
  }

  function BuyEach(st: State, cs: seq<Candidate>, d: int, day: int, k: KLine, cfg: Config, totalScore: real): State {
    if cs == [] then st
    else ExecuteBuy(BuyEach(st, cs[..|cs|-1], d, day, k, cfg, totalScore), cs[|cs|-1], d, day, k, cfg, totalScore)
  }

  function ExecuteBuys(st: State, cs: seq<Candidate>, d: int, day: int, k: KLine, cfg: Config): State {
    var slots := cfg.maxHoldings - |st.positions|;
    if slots <= 0 then st
    else
      var ranked := Rank(NotHeld(cs, st.positions), slots);
      BuyEach(st, ranked, d, day, k, cfg, Sum(ranked, ScoreOf))
  }

  // ----- one day, and the whole run -----

  function PendingSignals(ps: seq<Position>): seq<Signal> {
    if ps == [] then []
    else PendingSignals(ps[..|ps|-1])
         + match ps[|ps|-1].pendingSell case None => [] case Some(sig) => [sig]
  }

  function ClearPending(ps: seq<Position>): (r: seq<Position>)
    ensures |r| == |ps|
    ensures forall i :: 0 <= i < |ps| ==> r[i] == ps[i].(pendingSell := None)
  {
    seq(|ps|, i requires 0 <= i < |ps| => ps[i].(pendingSell := None))
  }

  /** A position is marked at the last close up to d, or at cost before any bar. */
  function MarkOf(p: Position, d: int, k: KLine): real {
    var past := UpTo(BarsOf(k, p.symbol), d);
    (if past == [] then p.costPrice else past[|past|-1].close) * p.quantity as real
  }

  function MarkValue(ps: seq<Position>, d: int, k: KLine): real {
    if ps == [] then 0.0 else MarkValue(ps[..|ps|-1], d, k) + MarkOf(ps[|ps|-1], d, k)
  }

  function Unfreeze(st: State): State {
    st.(cash := st.cash + st.frozen, frozen := 0.0)
  }

  /** Yesterday's deferred sales are tried again, each position's mark being cleared first. */
  function RetryPending(st: State, d: int, k: KLine, cfg: Config): State {
    ExecuteSells(st.(positions := ClearPending(st.positions)), PendingSignals(st.positions), d, k, cfg)
  }

  function CheckAndSell(st: State, d: int, day: int, k: KLine, cfg: Config): State {
    var (ps, sigs) := CheckAll(st.positions, d, day, k, cfg);
    ExecuteSells(st.(positions := ps), StableSort(sigs, MoreUrgent), d, k, cfg)
  }

  function Snapshot(st: State, d: int, k: KLine): State {
    st.(snapshots := st.snapshots + [(d, st.cash + st.frozen + MarkValue(st.positions, d, k))])
  }

  /** The state of day d after its sales and before its buys. */
  function AfterSales(st: State, d: int, day: int, k: KLine, cfg: Config): State {
    CheckAndSell(RetryPending(Unfreeze(st), d, k, cfg), d, day, k, cfg)
  }

  function Day(st: State, d: int, day: int, cs: seq<Candidate>, k: KLine, cfg: Config): State {
    Snapshot(ExecuteBuys(AfterSales(st, d, day, k, cfg), cs, d, day, k, cfg), d, k)
  }

  function Initial(cfg: Config): State { State(cfg.initialCapital, 0.0, [], [], []) }

  /** The candidates of every trading day; empty on a day of market danger. */
  type Screen = int -> seq<Candidate>

  /** The state after the first n trading days. */
  function Run(n: nat, dates: seq<int>, screen: Screen, k: KLine, cfg: Config): State
    requires n <= |dates|
  {
    if n == 0 then Initial(cfg)
    else Day(Run(n-1, dates, screen, k, cfg), dates[n-1], n-1, screen(dates[n-1]), k, cfg)
  }
}
