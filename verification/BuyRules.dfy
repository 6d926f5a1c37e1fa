/** What the buys of a day do, from bars, cash and scores alone: ranking, sizing, filling, and the fees of every trade. */
module BuyRules {
  import opened Basics
  import opened Market
  import opened Ledger
  import opened Backtest
  import opened BacktestInvariant

  // ----- ranking -----

  predicate LowerRisk(a: RiskLevel, b: RiskLevel) {
    (a == LOW && b != LOW) || (a == MEDIUM && b == HIGH)
  }

  /** a is preferred to b: more score, or as much at lower risk, or as much at the same risk on more signals. */
  predicate Ahead(a: Candidate, b: Candidate) {
    || a.trendScore > b.trendScore
    || (a.trendScore == b.trendScore && LowerRisk(a.riskLevel, b.riskLevel))
    || (a.trendScore == b.trendScore && a.riskLevel == b.riskLevel && a.signalCount > b.signalCount)
  }

  function TiedWith(c: Candidate): Candidate -> bool {
    (x: Candidate) => !Ahead(x, c) && !Ahead(c, x)
  }

  lemma RanksBeforeIs(a: Candidate, b: Candidate)
    ensures RanksBefore(a, b) <==> !Ahead(b, a)
  {
  }

  /** The candidates whose symbol no open position has, in their order. */
  function Unheld(cs: seq<Candidate>, ps: seq<Position>): seq<Candidate> {
    if cs == [] then []
    else
      var c := cs[|cs|-1];
      Unheld(cs[..|cs|-1], ps) + if exists p | p in ps :: p.symbol == c.symbol then [] else [c]
  }

  lemma {:induction false} NotHeldIsUnheld(cs: seq<Candidate>, ps: seq<Position>)
    ensures NotHeld(cs, ps) == Unheld(cs, ps)
  {
    if cs != [] {
      NotHeldIsUnheld(cs[..|cs|-1], ps);
      HoldsIs(ps, cs[|cs|-1].symbol);
    }
  }

  lemma HoldsIs(ps: seq<Position>, s: Symbol)
    ensures Holds(ps, s) <==> exists p :: p in ps && p.symbol == s
  {
    var i := IndexOf(ps, s);
    if i >= 0 { assert ps[i] in ps; }
  }

  /**
   * ranked is the beginning, as long as there are slots, of all the candidates put in order of preference,
   * those that tie keeping the order they came in.
   */
  ghost predicate BestFirst(ranked: seq<Candidate>, cs: seq<Candidate>, slots: int) {
    exists sorted: seq<Candidate> :: Preferred(sorted, cs) && ranked == sorted[..if 0 <= slots < |sorted| then slots else |sorted|]
  }

  ghost predicate Preferred(sorted: seq<Candidate>, cs: seq<Candidate>) {
    && multiset(sorted) == multiset(cs)
    && (forall i, j :: 0 <= i < j < |sorted| ==> !Ahead(sorted[j], sorted[i]))
    && (forall c :: Only(sorted, TiedWith(c)) == Only(cs, TiedWith(c)))
  }

  lemma SortIsPreferred(cs: seq<Candidate>)
    ensures Preferred(StableSort(cs, RanksBefore), cs)
  {
    var sorted := StableSort(cs, RanksBefore);
    RanksBeforeIsTotal();
    StableSortCorrect(cs, RanksBefore);
    forall c ensures Only(sorted, TiedWith(c)) == Only(cs, TiedWith(c)) {
      TiesRankAlike(c);
      StableSortIsStable(cs, RanksBefore, TiedWith(c));
    }
    forall i, j | 0 <= i < j < |sorted| ensures !Ahead(sorted[j], sorted[i]) {
      RanksBeforeIs(sorted[i], sorted[j]);
    }
  }

  lemma TiesRankAlike(c: Candidate)
    ensures forall y, z :: TiedWith(c)(y) && TiedWith(c)(z) ==> RanksBefore(y, z)
  {
  }

  lemma RankIsBestFirst(cs: seq<Candidate>, slots: nat)
    ensures BestFirst(Rank(cs, slots), cs, slots)
  {
    SortIsPreferred(cs);
    hide Preferred, StableSort;
    var sorted := StableSort(cs, RanksBefore);
    assert sorted[..|sorted|] == sorted;
  }

  // ----- sizing -----

  function HeldAtCost(ps: seq<Position>): real {
    if ps == [] then 0.0
    else HeldAtCost(ps[..|ps|-1]) + ps[|ps|-1].costPrice * ps[|ps|-1].quantity as real
  }

  function TotalScore(cs: seq<Candidate>): real {
    if cs == [] then 0.0 else TotalScore(cs[..|cs|-1]) + cs[|cs|-1].trendScore
  }

  lemma {:induction false} SumOfCosts(ps: seq<Position>)
    ensures Sum(ps, CostValue) == HeldAtCost(ps)
  {
    if ps != [] { SumOfCosts(ps[..|ps|-1]); }
  }

  lemma {:induction false} SumOfScores(cs: seq<Candidate>)
    ensures Sum(cs, ScoreOf) == TotalScore(cs)
  {
    if cs != [] { SumOfScores(cs[..|cs|-1]); }
  }

  /** n is the largest number of shares, in lots of 100, that the budget pays for at the price; 0 when it pays for no lot. */
  predicate LargestLots(n: int, price: real, budget: real) {
    && n >= 0 && n % 100 == 0
    && (n > 0 ==> price * n as real <= budget)
    && price * (n + 100) as real > budget
  }

  lemma LargestLotsUnique(m: int, n: int, price: real, budget: real)
    requires price > 0.0 && LargestLots(m, price, budget) && LargestLots(n, price, budget)
    ensures m == n
  {
    MoreCostMore(m, n, price, budget);
    MoreCostMore(n, m, price, budget);
  }

  lemma MoreCostMore(m: int, n: int, price: real, budget: real)
    requires price > 0.0 && LargestLots(m, price, budget) && LargestLots(n, price, budget)
    ensures m >= n
  {
    assert m < n ==> m + 100 <= n;
    assert m + 100 <= n ==> price * (m + 100) as real <= price * n as real;
  }

  /** A place is paid for by score, or the cash is split evenly over the free places; None when there is no free place. */
  function AllottedTo(c: Candidate, cash: real, held: seq<Position>, total: real, cfg: Config): Option<real> {
    if cfg.scoreWeighted && total > 0.0 then Some(cash * (c.trendScore / total))
    else if |held| < cfg.maxHoldings then Some(cash / (cfg.maxHoldings - |held|) as real)
    else None
  }

  /** No single stock may cost more than its share of the cash and the open positions at cost. */
  function StockCap(cash: real, held: seq<Position>, cfg: Config): real {
    (cash + HeldAtCost(held)) * cfg.maxPositionPct
  }

  /** shares is what c gets: the largest whole lots within its allotment and within the single-stock cap. */
  predicate SizedAs(shares: int, c: Candidate, cash: real, held: seq<Position>, open: real, total: real, cfg: Config) {
    var allotted, cap := AllottedTo(c, cash, held, total, cfg), StockCap(cash, held, cfg);
    if open <= 0.0 || allotted.None? then shares == 0
    else if cap < allotted.value then LargestLots(shares, open, cap)
    else LargestLots(shares, open, allotted.value)
  }

  lemma AllocationIs(c: Candidate, st: State, cfg: Config, total: real)
    ensures var a, b := Allocation(c, st, cfg, total), AllottedTo(c, st.cash, st.positions, total, cfg);
            (a.Some? <==> b.Some?) && (a.Some? ==> a.value == b.value)
  {
  }

  lemma CapIs(st: State, cfg: Config)
    ensures CostEquity(st) * cfg.maxPositionPct == StockCap(st.cash, st.positions, cfg)
  {
    SumOfCosts(st.positions);
    hide Sum, HeldAtCost;
    assert CostEquity(st) == st.cash + HeldAtCost(st.positions);
  }

  lemma NoShares(c: Candidate, st: State, cfg: Config, open: real, total: real)
    requires open <= 0.0 || Allocation(c, st, cfg, total).None?
    ensures BuyShares(c, st, cfg, open, total) == 0
  {
    hide CostEquity, Truncate;
  }

  lemma BudgetIs(c: Candidate, st: State, cfg: Config, total: real)
    requires Allocation(c, st, cfg, total).Some? && AllottedTo(c, st.cash, st.positions, total, cfg).Some?
    ensures var allotted, cap := AllottedTo(c, st.cash, st.positions, total, cfg).value, StockCap(st.cash, st.positions, cfg);
            Budget(c, st, cfg, total) == if cap < allotted then cap else allotted
  {
    AllocationIs(c, st, cfg, total);
    CapIs(st, cfg);
    hide CostEquity, Allocation, AllottedTo, StockCap;
  }

  lemma SharesAreSized(c: Candidate, st: State, cfg: Config, open: real, total: real)
    ensures SizedAs(BuyShares(c, st, cfg, open, total), c, st.cash, st.positions, open, total, cfg)
  {
    hide LargestLots, BuyShares, Lots, Budget, Allocation, AllottedTo, StockCap;
    AllocationIs(c, st, cfg, total);
    if open > 0.0 && Allocation(c, st, cfg, total).Some? {
      var budget := Budget(c, st, cfg, total);
      BudgetIs(c, st, cfg, total);
      SharesAreLots(c, st, cfg, open, total);
      LotsAreLargest(budget, open);
      if StockCap(st.cash, st.positions, cfg) < AllottedTo(c, st.cash, st.positions, total, cfg).value {
        assert budget == StockCap(st.cash, st.positions, cfg);
      } else {
        assert budget == AllottedTo(c, st.cash, st.positions, total, cfg).value;
      }
    } else {
      NoShares(c, st, cfg, open, total);
    }
  }

  lemma LotsAreLargest(budget: real, price: real)
    requires price > 0.0
    ensures LargestLots(Lots(budget, price), price, budget)
  {
    LotsWithin(budget, price);
    NextLotExceeds(budget, price);
  }

  // ----- one candidate, and the buys of a day -----

  /**
   * What becomes of the portfolio when c is up on day d, n bars of its symbol being dated at most d. It is bought
   * exactly when there is a bar on either side of the cut, the next one opens below limit-up, and the shares it
   * gets are at least one lot whose price and fees the cash can pay.
   */
  ghost predicate BoughtAs(st: State, st': State, c: Candidate, bars: Bars, n: int, day: int, cfg: Config, total: real) {
    if !(0 < n < |bars|) || bars[n].open >= LimitUp(bars[n-1].close, c.symbol) then st' == st
    else exists shares: int :: SizedAs(shares, c, st.cash, st.positions, bars[n].open, total, cfg)
                               && FilledWith(st, st', shares, c, bars[n], day, cfg)
  }

  function AmountOf(price: real, shares: int): real { price * shares as real }

  /** Commission and slippage, both on the amount. */
  function FeesOn(amount: real, commission: real, cfg: Config): real {
    amount * commission + amount * cfg.slippage
  }

  lemma BuyRecordIs(p: Position, cfg: Config)
    ensures var amount := AmountOf(p.costPrice, p.quantity);
            BuyRecord(p, cfg) == Record(p.buyDate, p.symbol, BUY, p.costPrice, p.quantity,
                                        FeesOn(amount, cfg.commissionBuy, cfg), amount, "")
  {
    assert BuyCost(p.costPrice, p.quantity, cfg) == FeesOn(AmountOf(p.costPrice, p.quantity), cfg.commissionBuy, cfg);
    assert BuyRecord(p, cfg).amount == AmountOf(p.costPrice, p.quantity);
    hide BuyCost, FeesOn, AmountOf;
  }

  lemma SaleRecordIs(p: Position, sig: Signal, bar: Bar, cfg: Config)
    ensures var amount := AmountOf(bar.open, p.quantity);
            SaleRecord(p, sig, bar, cfg) == Record(bar.date, p.symbol, SELL, bar.open, p.quantity,
                                                   FeesOn(amount, cfg.commissionSell, cfg), amount, sig.reason)
  {
    assert SellCost(bar.open, p.quantity, cfg) == FeesOn(AmountOf(bar.open, p.quantity), cfg.commissionSell, cfg);
    assert SaleRecord(p, sig, bar, cfg).amount == AmountOf(bar.open, p.quantity);
    hide SellCost, FeesOn, AmountOf;
  }

  lemma BuyCostIs(price: real, shares: int, cfg: Config)
    ensures AmountOf(price, shares) == price * shares as real
    ensures BuyCost(price, shares, cfg) == FeesOn(AmountOf(price, shares), cfg.commissionBuy, cfg)
  {
  }

  /** shares of c are bought at the open of its next bar, unless they are none or the cash cannot pay them and their fees. */
  predicate FilledWith(st: State, st': State, shares: int, c: Candidate, next: Bar, day: int, cfg: Config) {
    var amount := AmountOf(next.open, shares);
    var fees := FeesOn(amount, cfg.commissionBuy, cfg);
    if shares == 0 || amount + fees > st.cash then st' == st
    else
      st' == State(st.cash - (amount + fees), st.frozen,
                   st.positions + [Position(c.symbol, shares, next.open, next.date, day + 1, next.open, next.open, None)],
                   st.records + [Record(next.date, c.symbol, BUY, next.open, shares, fees, amount, "")], st.snapshots)
  }

  lemma BuyFills(st: State, c: Candidate, d: int, day: int, k: KLine, cfg: Config, total: real, f: Fill)
    requires FillFor(BarsOf(k, c.symbol), d) == Some(f) && f.bar.open < LimitUp(f.prevClose, c.symbol)
    requires !Holds(st.positions, c.symbol)
    ensures FilledWith(st, ExecuteBuy(st, c, d, day, k, cfg, total), BuyShares(c, st, cfg, f.bar.open, total), c, f.bar, day, cfg)
  {
    var shares := BuyShares(c, st, cfg, f.bar.open, total);
    BuyCostIs(f.bar.open, shares, cfg);
    BuyRecordIs(Position(c.symbol, shares, f.bar.open, f.bar.date, day + 1, f.bar.open, f.bar.open, None), cfg);
    hide BuyShares, FillFor, LimitUp, IndexOf, BuyCost, FeesOn, AmountOf, BuyRecord;
  }

  lemma NotFilled(st: State, c: Candidate, d: int, day: int, k: KLine, cfg: Config, total: real)
    requires var fill := FillFor(BarsOf(k, c.symbol), d);
             fill.None? || fill.value.bar.open >= LimitUp(fill.value.prevClose, c.symbol)
    ensures ExecuteBuy(st, c, d, day, k, cfg, total) == st
  {
    hide FillFor, LimitUp;
  }

  lemma BuyIs(st: State, c: Candidate, d: int, day: int, k: KLine, cfg: Config, total: real, n: int)
    requires Cut(BarsOf(k, c.symbol), d, n) && !Holds(st.positions, c.symbol)
    ensures BoughtAs(st, ExecuteBuy(st, c, d, day, k, cfg, total), c, BarsOf(k, c.symbol), n, day, cfg, total)
  {
    var bars := BarsOf(k, c.symbol);
    FillAtCut(bars, d, n);
    hide ExecuteBuy, BuyShares, SizedAs, FillFor, LimitUp, Cut, FilledWith, Holds;
    if 0 < n < |bars| && bars[n].open < LimitUp(bars[n-1].close, c.symbol) {
      SharesAreSized(c, st, cfg, bars[n].open, total);
      BuyFills(st, c, d, day, k, cfg, total, Fill(bars[n-1].close, bars[n]));
    } else {
      NotFilled(st, c, d, day, k, cfg, total);
    }
  }

  /** Each ranked candidate is up in turn, on the portfolio the ones before it left. */
  ghost predicate BoughtInTurn(states: seq<State>, ranked: seq<Candidate>, d: int, day: int, k: KLine, cfg: Config) {
    && |states| == |ranked| + 1
    && forall i, n: int :: 0 <= i < |ranked| && Cut(BarsOf(k, ranked[i].symbol), d, n) ==>
         BoughtAs(states[i], states[i+1], ranked[i], BarsOf(k, ranked[i].symbol), n, day, cfg, TotalScore(ranked))
  }

  /** The buys of a day: the best unheld candidates, one per free place, each bought in turn if it can be. */
  lemma DayBuysAre(st: State, cs: seq<Candidate>, d: int, day: int, k: KLine, cfg: Config)
    returns (ranked: seq<Candidate>, states: seq<State>)
    requires DistinctCandidates(cs)
    ensures BestFirst(ranked, Unheld(cs, st.positions), cfg.maxHoldings - |st.positions|) || |st.positions| >= cfg.maxHoldings
    ensures |st.positions| >= cfg.maxHoldings ==> ranked == []
    ensures BoughtInTurn(states, ranked, d, day, k, cfg)
    ensures states[0] == st && states[|ranked|] == ExecuteBuys(st, cs, d, day, k, cfg)
  {
    var slots := cfg.maxHoldings - |st.positions|;
    if slots <= 0 {
      ranked, states := [], [st];
    } else {
      var unheld := NotHeld(cs, st.positions);
      NotHeldIsUnheld(cs, st.positions);
      NotHeldFacts(cs, st.positions);
      RankIsBestFirst(unheld, slots);
      RankFacts(unheld, slots);
      RankDistinct(unheld, slots);
      SumOfScores(Rank(unheld, slots));
      ranked := Rank(unheld, slots);
      hide BestFirst, Rank, NotHeld;
      states := BuyStates(st, ranked, d, day, k, cfg);
    }
  }

  lemma BuyStates(st: State, ranked: seq<Candidate>, d: int, day: int, k: KLine, cfg: Config) returns (states: seq<State>)
    requires DistinctCandidates(ranked) && forall c :: c in ranked ==> !Holds(st.positions, c.symbol)
    ensures BoughtInTurn(states, ranked, d, day, k, cfg)
    ensures states[0] == st && states[|ranked|] == BuyEach(st, ranked, d, day, k, cfg, TotalScore(ranked))
  {
    var total := TotalScore(ranked);
    states := seq(|ranked| + 1, i requires 0 <= i < |ranked| + 1 => BuyEach(st, ranked[..i], d, day, k, cfg, total));
    assert ranked[..|ranked|] == ranked;
    hide BoughtAs, ExecuteBuy, Holds, TotalScore;
    forall i, n: int | 0 <= i < |ranked| && Cut(BarsOf(k, ranked[i].symbol), d, n)
      ensures BoughtAs(states[i], states[i+1], ranked[i], BarsOf(k, ranked[i].symbol), n, day, cfg, total)
    {
      assert ranked[..i+1][..i] == ranked[..i];
      StillUnheld(st, ranked, i, d, day, k, cfg, total);
      BuyIs(states[i], ranked[i], d, day, k, cfg, total, n);
    }
  }

  lemma StillUnheld(st: State, ranked: seq<Candidate>, i: nat, d: int, day: int, k: KLine, cfg: Config, total: real)
    requires i < |ranked| && DistinctCandidates(ranked) && forall c :: c in ranked ==> !Holds(st.positions, c.symbol)
    ensures !Holds(BuyEach(st, ranked[..i], d, day, k, cfg, total).positions, ranked[i].symbol)
  {
    var upTo := ranked[..i+1];
    assert upTo[..|upTo|-1] == ranked[..i] && upTo[|upTo|-1] == ranked[i];
    assert forall c :: c in upTo ==> c in ranked;
    LastNotHeld(st, upTo, d, day, k, cfg, total);
  }

  // ----- sales, and the fees of every trade -----

  /**
   * What becomes of the portfolio on a sell order for the position at i: without a next bar, or when it opens
   * at limit-down, the order is left pending; else the whole position goes, its proceeds less fees are frozen.
   */
  predicate SoldAs(st: State, st': State, i: int, sig: Signal, bars: Bars, n: int, cfg: Config)
    requires 0 <= i < |st.positions|
  {
    var p := st.positions[i];
    if !(0 < n < |bars|) || bars[n].open <= LimitDown(bars[n-1].close, p.symbol) then
      st' == st.(positions := st.positions[i := p.(pendingSell := Some(sig))])
    else
      var amount := AmountOf(bars[n].open, p.quantity);
      var fees := FeesOn(amount, cfg.commissionSell, cfg);
      st' == State(st.cash, st.frozen + (amount - fees), st.positions[..i] + st.positions[i+1..],
                   st.records + [Record(bars[n].date, p.symbol, SELL, bars[n].open, p.quantity, fees, amount, sig.reason)],
                   st.snapshots)
  }

  /** A sale goes through at the next bar exactly when there is one, with one before it, opening above limit-down. */
  lemma SaleBarAtCut(k: KLine, s: Symbol, d: int, n: int)
    requires Cut(BarsOf(k, s), d, n)
    ensures var bars := BarsOf(k, s);
            SaleBar(k, s, d) == if 0 < n < |bars| && bars[n].open > LimitDown(bars[n-1].close, s) then Some(bars[n]) else None
  {
    FillAtCut(BarsOf(k, s), d, n);
    hide FillFor, LimitDown;
  }

  lemma SellIs(st: State, sig: Signal, d: int, k: KLine, cfg: Config, i: nat, n: int)
    requires Distinct(st.positions) && i < |st.positions| && st.positions[i].symbol == sig.symbol
    requires Cut(BarsOf(k, sig.symbol), d, n)
    ensures SoldAs(st, ExecuteSell(st, sig, d, k, cfg), i, sig, BarsOf(k, sig.symbol), n, cfg)
  {
    AtUnique(st.positions, i);
    SaleBarAtCut(k, sig.symbol, d, n);
    if 0 < n < |BarsOf(k, sig.symbol)| {
      SaleRecordIs(st.positions[i], sig, BarsOf(k, sig.symbol)[n], cfg);
    }
    hide LimitDown, SaleBar, IndexOf, Distinct, Cut;
    hide SaleRecord, FeesOn, AmountOf;
  }

  lemma SellNothing(st: State, sig: Signal, d: int, k: KLine, cfg: Config)
    requires forall p :: p in st.positions ==> p.symbol != sig.symbol
    ensures ExecuteSell(st, sig, d, k, cfg) == st
  {
    HoldsIs(st.positions, sig.symbol);
  }

  /** The amount of a record is price times quantity; its cost is the commission of its side plus slippage, both on the amount. */
  predicate FeesAreRight(r: Record, cfg: Config) {
    var commission := if r.action == BUY then cfg.commissionBuy else cfg.commissionSell;
    r.amount == AmountOf(r.price, r.quantity) && r.cost == FeesOn(r.amount, commission, cfg)
  }

  lemma {:induction false} SellsFees(st: State, sigs: seq<Signal>, d: int, k: KLine, cfg: Config)
    requires forall r :: r in st.records ==> FeesAreRight(r, cfg)
    ensures forall r :: r in ExecuteSells(st, sigs, d, k, cfg).records ==> FeesAreRight(r, cfg)
  {
    hide SaleBar;
    if sigs != [] { SellsFees(st, sigs[..|sigs|-1], d, k, cfg); }
  }

  lemma {:induction false} BuysFees(st: State, cs: seq<Candidate>, d: int, day: int, k: KLine, cfg: Config, total: real)
    requires forall r :: r in st.records ==> FeesAreRight(r, cfg)
    ensures forall r :: r in BuyEach(st, cs, d, day, k, cfg, total).records ==> FeesAreRight(r, cfg)
  {
    hide Purchase;
    if cs != [] { BuysFees(st, cs[..|cs|-1], d, day, k, cfg, total); }
  }

  lemma DayFees(st: State, d: int, day: int, cs: seq<Candidate>, k: KLine, cfg: Config)
    requires forall r :: r in st.records ==> FeesAreRight(r, cfg)
    ensures forall r :: r in Day(st, d, day, cs, k, cfg).records ==> FeesAreRight(r, cfg)
  {
    hide FeesAreRight, ExecuteSells, BuyEach, CheckAll, StableSort, Rank, NotHeld, MarkValue, Sum, PendingSignals;
    var u := Unfreeze(st);
    SellsFees(u.(positions := ClearPending(u.positions)), PendingSignals(u.positions), d, k, cfg);
    var r := RetryPending(u, d, k, cfg);
    var (ps, sigs) := CheckAll(r.positions, d, day, k, cfg);
    SellsFees(r.(positions := ps), StableSort(sigs, MoreUrgent), d, k, cfg);
    var sold := AfterSales(st, d, day, k, cfg);
    var slots := cfg.maxHoldings - |sold.positions|;
    if slots > 0 {
      var ranked := Rank(NotHeld(cs, sold.positions), slots);
      BuysFees(sold, ranked, d, day, k, cfg, Sum(ranked, ScoreOf));
    }
  }

  /** Every record of every run carries the fees of its side. */
  lemma {:induction false} EveryRecordPaysItsFees(n: nat, dates: seq<int>, screen: Screen, k: KLine, cfg: Config)
    requires n <= |dates|
    ensures forall r :: r in Run(n, dates, screen, k, cfg).records ==> FeesAreRight(r, cfg)
  {
    hide Day, FeesAreRight;
    if n > 0 {
      EveryRecordPaysItsFees(n-1, dates, screen, k, cfg);
      DayFees(Run(n-1, dates, screen, k, cfg), dates[n-1], n-1, screen(dates[n-1]), k, cfg);
    }
  }
}
