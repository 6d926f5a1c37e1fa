/** What every operation of the backtest keeps, up to one whole trading day. */
module BacktestInvariant {
  import opened Basics
  import opened Market
  import opened Ledger
  import opened Backtest

  ghost predicate Distinct(ps: seq<Position>) {
    forall i, j :: 0 <= i < j < |ps| ==> ps[i].symbol != ps[j].symbol
  }

  /** Board lots bought at a positive price. */
  predicate GoodLot(p: Position) {
    p.quantity > 0 && p.quantity % 100 == 0 && p.costPrice > 0.0
  }

  ghost function BuyRecords(ps: seq<Position>, cfg: Config): (r: seq<Record>)
    ensures |r| == |ps|
    ensures forall i :: 0 <= i < |ps| ==> r[i] == BuyRecord(ps[i], cfg)
  {
    seq(|ps|, i requires 0 <= i < |ps| => BuyRecord(ps[i], cfg))
  }

  /** The books: the trade records alone determine the open positions and the cash. */
  ghost predicate Books(st: State, cfg: Config) {
    && Distinct(st.positions)
    && Replay(st.records) == Some(BuyRecords(st.positions, cfg))
    && st.cash + st.frozen == cfg.initialCapital + Sum(st.records, Flow)
    && (forall p :: p in st.positions ==> GoodLot(p))
  }

  ghost predicate Solvent(st: State) { st.cash >= 0.0 && st.frozen >= 0.0 }

  /** Bars of the symbol after day e come no earlier than the fill; only an arrived position waits to be sold. */
  ghost predicate Timely(p: Position, e: int, d: int, k: KLine) {
    && (forall b :: b in BarsOf(k, p.symbol) && b.date > e ==> b.date >= p.buyDate)
    && (p.pendingSell.Some? ==> p.buyDate <= d && p.pendingSell.value.symbol == p.symbol)
  }

  ghost predicate AllTimely(ps: seq<Position>, e: int, d: int, k: KLine) {
    forall p :: p in ps ==> Timely(p, e, d, k)
  }

  ghost predicate GoodMarket(k: KLine) {
    && OrderedMarket(k)
    && forall s, b :: s in k && b in k[s] ==> b.close >= 0.0
  }

  ghost predicate GoodConfig(cfg: Config) {
    && cfg.initialCapital >= 0.0
    && cfg.commissionBuy >= 0.0 && cfg.commissionSell >= 0.0 && cfg.slippage >= 0.0
    && cfg.commissionSell + cfg.slippage <= 1.0
  }

  ghost predicate DistinctCandidates(cs: seq<Candidate>) {
    forall i, j :: 0 <= i < j < |cs| ==> cs[i].symbol != cs[j].symbol
  }

  /** p and q are the same holding: they differ at most in tracked closes and the pending sale. */
  predicate SameHolding(p: Position, q: Position) {
    && p.symbol == q.symbol && p.quantity == q.quantity && p.costPrice == q.costPrice
    && p.buyDate == q.buyDate && p.buyDayIndex == q.buyDayIndex
  }

  // ----- looking a symbol up -----

  function At(ps: seq<Position>, s: Symbol): Option<Position> {
    var i := IndexOf(ps, s);
    if i >= 0 then Some(ps[i]) else None
  }

  lemma AtUnique(ps: seq<Position>, i: nat)
    requires Distinct(ps) && i < |ps|
    ensures IndexOf(ps, ps[i].symbol) == i
    ensures At(ps, ps[i].symbol) == Some(ps[i])
  {
  }

  lemma AtUpdate(ps: seq<Position>, i: nat, q: Position, s: Symbol)
    requires Distinct(ps) && i < |ps| && q.symbol == ps[i].symbol
    ensures Distinct(ps[i := q])
    ensures At(ps[i := q], s) == if s == q.symbol then Some(q) else At(ps, s)
  {
    var j := IndexOf(ps, s);
    if j >= 0 { AtUnique(ps[i := q], j); }
  }

  lemma AtRemove(ps: seq<Position>, i: nat, s: Symbol)
    requires Distinct(ps) && i < |ps|
    ensures Distinct(RemoveAt(ps, i))
    ensures At(RemoveAt(ps, i), s) == if s == ps[i].symbol then None else At(ps, s)
  {
    var j := IndexOf(ps, s);
    var r := RemoveAt(ps, i);
    if j >= 0 && j != i {
      AtUnique(r, if j < i then j else j - 1);
    }
  }

  lemma AtAppend(ps: seq<Position>, p: Position, s: Symbol)
    requires Distinct(ps) && !Holds(ps, p.symbol)
    ensures Distinct(ps + [p])
    ensures At(ps + [p], s) == if s == p.symbol then Some(p) else At(ps, s)
  {
    var j := IndexOf(ps, s);
    if j >= 0 { AtUnique(ps + [p], j); }
    AtUnique(ps + [p], |ps|);
  }

  lemma FindIsIndexOf(ps: seq<Position>, s: Symbol, cfg: Config)
    requires Distinct(ps)
    ensures Find(BuyRecords(ps, cfg), s) == IndexOf(ps, s)
  {
    var rs, j, i := BuyRecords(ps, cfg), Find(BuyRecords(ps, cfg), s), IndexOf(ps, s);
    if j >= 0 {
      assert rs[j].symbol == ps[j].symbol;
      AtUnique(ps, j);
    }
    assert forall l :: 0 <= l < |ps| ==> rs[l].symbol == ps[l].symbol;
  }

  // ----- one sale -----

  ghost predicate Arrived(ps: seq<Position>, s: Symbol, d: int) {
    forall p :: p in ps && p.symbol == s ==> p.buyDate <= d
  }

  lemma SaleBarFacts(k: KLine, s: Symbol, d: int)
    requires GoodMarket(k) && SaleBar(k, s, d).Some?
    ensures SaleBar(k, s, d).value.date > d && SaleBar(k, s, d).value.open > 0.0
  {
    FillIsNextBar(BarsOf(k, s), d);
    LimitDownNonNegative(FillFor(BarsOf(k, s), d).value.prevClose, s);
  }

  lemma ProceedsNonNegative(amount: real, cfg: Config)
    requires GoodConfig(cfg) && amount >= 0.0
    ensures amount - (amount * cfg.commissionSell + amount * cfg.slippage) >= 0.0
  {
    assert amount - (amount * cfg.commissionSell + amount * cfg.slippage)
        == amount * (1.0 - cfg.commissionSell - cfg.slippage);
  }

  /** Replacing each position by the same holding keeps the books. */
  lemma BooksUnderTracking(st: State, ps: seq<Position>, cfg: Config)
    requires Books(st, cfg) && |ps| == |st.positions|
    requires forall i :: 0 <= i < |ps| ==> SameHolding(ps[i], st.positions[i])
    ensures Books(st.(positions := ps), cfg)
  {
    hide Replay, Sum, BuyCost;
    assert forall i :: 0 <= i < |ps| ==> BuyRecord(ps[i], cfg) == BuyRecord(st.positions[i], cfg);
    assert BuyRecords(ps, cfg) == BuyRecords(st.positions, cfg);
    forall p | p in ps ensures GoodLot(p) {
      var i :| 0 <= i < |ps| && ps[i] == p;
      assert GoodLot(st.positions[i]);
    }
  }

  /** Booking a sale that closes the i-th position. */
  lemma SaleKeepsBooks(st: State, i: nat, r: Record, cfg: Config)
    requires Books(st, cfg) && i < |st.positions|
    requires r.action == SELL && WellPriced(r) && Closes(r, BuyRecord(st.positions[i], cfg))
    ensures Books(st.(frozen := st.frozen + (r.amount - r.cost), records := st.records + [r],
                      positions := RemoveAt(st.positions, i)), cfg)
  {
    hide Sum, Find, IndexOf, Replay;
    var s := st.positions[i].symbol;
    FindIsIndexOf(st.positions, s, cfg);
    AtUnique(st.positions, i);
    ReplayAppend(st.records, r);
    AtRemove(st.positions, i, s);
    assert BuyRecords(RemoveAt(st.positions, i), cfg) == RemoveAt(BuyRecords(st.positions, cfg), i);
    SumConcat(st.records, [r], Flow);
    SumSingle(r, Flow);
  }

  lemma SellKeepsBooks(st: State, sig: Signal, d: int, k: KLine, cfg: Config)
    requires Books(st, cfg) && GoodMarket(k)
    requires Arrived(st.positions, sig.symbol, d)
    ensures Books(ExecuteSell(st, sig, d, k, cfg), cfg)
  {
    hide Books, SaleBar, IndexOf, SellCost;
    var i := IndexOf(st.positions, sig.symbol);
    if i >= 0 {
      var p := st.positions[i];
      match SaleBar(k, sig.symbol, d)
      case None =>
        BooksUnderTracking(st, st.positions[i := p.(pendingSell := Some(sig))], cfg);
      case Some(bar) =>
        SaleBarFacts(k, sig.symbol, d);
        assert p.buyDate <= d;
        SaleKeepsBooks(st, i, SaleRecord(p, sig, bar, cfg), cfg);
    }
  }

  lemma SaleOfLot(p: Position, open: real, cfg: Config)
    requires GoodConfig(cfg) && GoodLot(p) && open > 0.0
    ensures open * p.quantity as real - SellCost(open, p.quantity, cfg) >= 0.0
  {
    var amount := open * p.quantity as real;
    assert amount >= 0.0;
    ProceedsNonNegative(amount, cfg);
  }

  lemma SellKeepsSolvent(st: State, sig: Signal, d: int, k: KLine, cfg: Config)
    requires Solvent(st) && GoodMarket(k) && GoodConfig(cfg)
    requires forall p :: p in st.positions ==> GoodLot(p)
    ensures Solvent(ExecuteSell(st, sig, d, k, cfg))
  {
    hide SaleBar, SellCost, IndexOf, GoodLot, GoodMarket, GoodConfig;
    var i := IndexOf(st.positions, sig.symbol);
    if i >= 0 && SaleBar(k, sig.symbol, d).Some? {
      SaleBarFacts(k, sig.symbol, d);
      SaleOfLot(st.positions[i], SaleBar(k, sig.symbol, d).value.open, cfg);
    }
  }

  lemma SellKeepsTimely(st: State, sig: Signal, e: int, d: int, k: KLine, cfg: Config)
    requires AllTimely(st.positions, e, d, k) && Arrived(st.positions, sig.symbol, d)
    ensures AllTimely(ExecuteSell(st, sig, d, k, cfg).positions, e, d, k)
    ensures forall q :: q in ExecuteSell(st, sig, d, k, cfg).positions ==>
              exists p :: p in st.positions && SameHolding(q, p)
  {
    var ps := ExecuteSell(st, sig, d, k, cfg).positions;
    forall q | q in ps ensures exists p :: p in st.positions && SameHolding(q, p) && Timely(q, e, d, k) {
      var i := IndexOf(st.positions, sig.symbol);
      if q in st.positions {
        assert SameHolding(q, q);
      } else {
        assert SameHolding(q, st.positions[i]) && Timely(st.positions[i], e, d, k);
      }
    }
  }

  // ----- a list of sales -----

  lemma {:induction false} SellsKeep(st: State, sigs: seq<Signal>, e: int, d: int, k: KLine, cfg: Config)
    requires Books(st, cfg) && Solvent(st) && AllTimely(st.positions, e, d, k)
    requires GoodMarket(k) && GoodConfig(cfg)
    requires forall sig :: sig in sigs ==> Arrived(st.positions, sig.symbol, d)
    ensures var st' := ExecuteSells(st, sigs, d, k, cfg);
            && Books(st', cfg) && Solvent(st') && AllTimely(st'.positions, e, d, k)
            && forall q :: q in st'.positions ==> exists p :: p in st.positions && SameHolding(q, p)
  {
    if sigs == [] {
      assert forall q :: q in st.positions ==> SameHolding(q, q);
    } else {
      var front, sig := sigs[..|sigs|-1], sigs[|sigs|-1];
      assert forall x :: x in front ==> x in sigs;
      SellsKeep(st, front, e, d, k, cfg);
      var mid := ExecuteSells(st, front, d, k, cfg);
      assert sig in sigs;
      SellKeepsBooks(mid, sig, d, k, cfg);
      SellKeepsSolvent(mid, sig, d, k, cfg);
      SellKeepsTimely(mid, sig, e, d, k, cfg);
    }
  }

  /** What sales of some of the signals do to the position of one symbol. */
  ghost predicate SoldOrPending(before: Option<Position>, after: Option<Position>, sigs: seq<Signal>, s: Symbol, bar: Option<Bar>) {
    if before.None? || forall sig :: sig in sigs ==> sig.symbol != s then after == before
    else if bar.Some? then after == None
    else exists sig :: sig in sigs && sig.symbol == s && after == Some(before.value.(pendingSell := Some(sig)))
  }

  lemma SellAt(st: State, sig: Signal, d: int, k: KLine, cfg: Config, s: Symbol)
    requires Distinct(st.positions)
    ensures var ps' := ExecuteSell(st, sig, d, k, cfg).positions;
            && Distinct(ps')
            && At(ps', s) == if At(st.positions, s).None? || sig.symbol != s then At(st.positions, s)
                             else if SaleBar(k, s, d).Some? then None
                             else Some(At(st.positions, s).value.(pendingSell := Some(sig)))
  {
    hide SaleBar, SaleRecord;
    var i := IndexOf(st.positions, sig.symbol);
    if i >= 0 {
      AtUpdate(st.positions, i, st.positions[i].(pendingSell := Some(sig)), s);
      AtRemove(st.positions, i, s);
    }
  }

  lemma {:induction false} SellsAt(st: State, sigs: seq<Signal>, d: int, k: KLine, cfg: Config, s: Symbol)
    requires Distinct(st.positions)
    ensures Distinct(ExecuteSells(st, sigs, d, k, cfg).positions)
    ensures SoldOrPending(At(st.positions, s), At(ExecuteSells(st, sigs, d, k, cfg).positions, s), sigs, s, SaleBar(k, s, d))
  {
    hide At, ExecuteSell, SaleBar, Distinct;
    if sigs != [] {
      var front, sig := sigs[..|sigs|-1], sigs[|sigs|-1];
      assert forall x :: x in sigs <==> x in front || x == sig;
      SellsAt(st, front, d, k, cfg, s);
      SellAt(ExecuteSells(st, front, d, k, cfg), sig, d, k, cfg, s);
    }
  }

  // ----- the checks -----

  lemma CheckSellKeepsHolding(p: Position, d: int, day: int, k: KLine, cfg: Config)
    ensures var r := CheckSell(p, d, day, k, cfg);
            && SameHolding(r.0, p) && r.0.pendingSell == p.pendingSell
            && (r.1.Some? ==> r.1.value.symbol == p.symbol)
  {
  }

  /** A signal needs a bar on the day itself, so the position has arrived. */
  lemma SignalArrived(p: Position, e: int, d: int, day: int, k: KLine, cfg: Config)
    requires e < d && Timely(p, e, d, k) && CheckSell(p, d, day, k, cfg).1.Some?
    ensures p.buyDate <= d
  {
    var bars := BarsOf(k, p.symbol);
    ScanMembers(bars, d);
    assert UpTo(bars, d)[|UpTo(bars, d)|-1] in UpTo(bars, d);
  }

  lemma {:induction false} CheckAllPositions(ps: seq<Position>, d: int, day: int, k: KLine, cfg: Config)
    ensures forall i :: 0 <= i < |ps| ==> CheckAll(ps, d, day, k, cfg).0[i] == CheckSell(ps[i], d, day, k, cfg).0
  {
    hide CheckSell;
    if ps != [] { CheckAllPositions(ps[..|ps|-1], d, day, k, cfg); }
  }

  lemma {:induction false} CheckAllSignals(ps: seq<Position>, d: int, day: int, k: KLine, cfg: Config)
    ensures forall sig :: sig in CheckAll(ps, d, day, k, cfg).1 ==>
              exists p :: p in ps && CheckSell(p, d, day, k, cfg).1 == Some(sig)
    ensures forall p :: p in ps && CheckSell(p, d, day, k, cfg).1.Some? ==>
              CheckSell(p, d, day, k, cfg).1.value in CheckAll(ps, d, day, k, cfg).1
  {
    if ps != [] {
      var front, last := ps[..|ps|-1], ps[|ps|-1];
      CheckAllSignals(front, d, day, k, cfg);
      assert ps == front + [last];
    }
  }

  lemma SortedSignals(sigs: seq<Signal>)
    ensures forall sig :: sig in StableSort(sigs, MoreUrgent) <==> sig in sigs
  {
    StableSortCorrect(sigs, MoreUrgent);
    var sorted := StableSort(sigs, MoreUrgent);
    assert forall sig :: sig in sorted <==> sig in multiset(sorted);
    assert forall sig :: sig in sigs <==> sig in multiset(sigs);
  }

  lemma {:induction false} PendingMembers(ps: seq<Position>)
    ensures forall sig :: sig in PendingSignals(ps) <==> exists p :: p in ps && p.pendingSell == Some(sig)
  {
    if ps != [] {
      PendingMembers(ps[..|ps|-1]);
      assert ps == ps[..|ps|-1] + [ps[|ps|-1]];
    }
  }

  // ----- the selling half of a day -----

  lemma ArrivedOnce(ps: seq<Position>, i: nat, d: int)
    requires Distinct(ps) && i < |ps| && ps[i].buyDate <= d
    ensures Arrived(ps, ps[i].symbol, d)
  {
  }

  lemma RetryKeeps(st: State, e: int, d: int, k: KLine, cfg: Config)
    requires Books(st, cfg) && Solvent(st) && AllTimely(st.positions, e, e, k) && e < d
    requires GoodMarket(k) && GoodConfig(cfg)
    ensures var st' := RetryPending(st, d, k, cfg);
            Books(st', cfg) && Solvent(st') && AllTimely(st'.positions, e, d, k)
  {
    var ps, cleared := st.positions, ClearPending(st.positions);
    BooksUnderTracking(st, cleared, cfg);
    forall i | 0 <= i < |ps| ensures Timely(cleared[i], e, d, k) {
      assert Timely(ps[i], e, e, k);
    }
    PendingMembers(ps);
    forall sig | sig in PendingSignals(ps) ensures Arrived(cleared, sig.symbol, d) {
      var p :| p in ps && p.pendingSell == Some(sig);
      var i :| 0 <= i < |ps| && ps[i] == p;
      assert Timely(p, e, e, k);
      ArrivedOnce(cleared, i, d);
    }
    SellsKeep(st.(positions := cleared), PendingSignals(ps), e, d, k, cfg);
  }

  lemma CheckAndSellKeeps(st: State, e: int, d: int, day: int, k: KLine, cfg: Config)
    requires Books(st, cfg) && Solvent(st) && AllTimely(st.positions, e, d, k) && e < d
    requires GoodMarket(k) && GoodConfig(cfg)
    ensures var st' := CheckAndSell(st, d, day, k, cfg);
            Books(st', cfg) && Solvent(st') && AllTimely(st'.positions, e, d, k)
  {
    hide CheckSell, CheckAll, StableSort, ExecuteSells, GoodMarket, GoodConfig;
    var ps := st.positions;
    var (qs, sigs) := CheckAll(ps, d, day, k, cfg);
    CheckAllPositions(ps, d, day, k, cfg);
    CheckAllSignals(ps, d, day, k, cfg);
    forall i | 0 <= i < |ps| ensures SameHolding(qs[i], ps[i]) && Timely(qs[i], e, d, k) {
      CheckSellKeepsHolding(ps[i], d, day, k, cfg);
      assert Timely(ps[i], e, d, k);
    }
    BooksUnderTracking(st, qs, cfg);
    SortedSignals(sigs);
    forall sig | sig in sigs ensures Arrived(qs, sig.symbol, d) {
      var p :| p in ps && CheckSell(p, d, day, k, cfg).1 == Some(sig);
      var i :| 0 <= i < |ps| && ps[i] == p;
      CheckSellKeepsHolding(p, d, day, k, cfg);
      SignalArrived(p, e, d, day, k, cfg);
      ArrivedOnce(qs, i, d);
    }
    SellsKeep(st.(positions := qs), StableSort(sigs, MoreUrgent), e, d, k, cfg);
  }

  lemma AfterSalesKeeps(st: State, e: int, d: int, day: int, k: KLine, cfg: Config)
    requires Books(st, cfg) && Solvent(st) && AllTimely(st.positions, e, e, k) && e < d
    requires GoodMarket(k) && GoodConfig(cfg)
    ensures var st' := AfterSales(st, d, day, k, cfg);
            Books(st', cfg) && Solvent(st') && AllTimely(st'.positions, d, d, k)
  {
    RetryKeeps(Unfreeze(st), e, d, k, cfg);
    CheckAndSellKeeps(RetryPending(Unfreeze(st), d, k, cfg), e, d, day, k, cfg);
  }

  // ----- buying -----

  lemma SharesFacts(c: Candidate, st: State, cfg: Config, open: real, totalScore: real)
    ensures var n := BuyShares(c, st, cfg, open, totalScore);
            && n >= 0 && n % 100 == 0
            && (n > 0 ==> open > 0.0 && open * n as real <= CostEquity(st) * cfg.maxPositionPct)
  {
    var n := BuyShares(c, st, cfg, open, totalScore);
    if n > 0 {
      match Allocation(c, st, cfg, totalScore)
      case Some(target) =>
        var cap := CostEquity(st) * cfg.maxPositionPct;
        var capped := if cap < target then cap else target;
        LotsWithin(capped, open);
    }
  }

  /** Truncating to whole lots never exceeds the amount to be spent. */
  lemma LotsWithin(amount: real, price: real)
    requires price > 0.0
    ensures var n := (Truncate(amount / price) / 100) * 100;
            n > 0 ==> price * n as real <= amount
  {
    var q := amount / price;
    var n := (Truncate(q) / 100) * 100;
    if n > 0 {
      assert n <= Truncate(q);
      assert q < 0.0 ==> (-q).Floor >= 0;
      assert n as real <= q;
      assert price * n as real <= price * q;
      assert price * q == amount;
    }
  }

  /** The whole lots an amount buys at a price. */
  function Lots(amount: real, price: real): int
    requires price > 0.0
  {
    var shares := (Truncate(amount / price) / 100) * 100;
    if shares < 100 then 0 else shares
  }

  /** What one candidate may cost at most: its allotment, or the single-stock cap if that is less. */
  function Budget(c: Candidate, st: State, cfg: Config, totalScore: real): real
    requires Allocation(c, st, cfg, totalScore).Some?
  {
    var target, cap := Allocation(c, st, cfg, totalScore).value, CostEquity(st) * cfg.maxPositionPct;
    if cap < target then cap else target
  }

  lemma SharesAreLots(c: Candidate, st: State, cfg: Config, open: real, totalScore: real)
    requires open > 0.0 && Allocation(c, st, cfg, totalScore).Some?
    ensures BuyShares(c, st, cfg, open, totalScore) == Lots(Budget(c, st, cfg, totalScore), open)
  {
    hide Truncate, CostEquity, Allocation;
  }

  /** Whole lots are used up: one lot more would exceed the budget. */
  lemma SharesAreMaximal(c: Candidate, st: State, cfg: Config, open: real, totalScore: real)
    requires open > 0.0 && Allocation(c, st, cfg, totalScore).Some?
    ensures open * (BuyShares(c, st, cfg, open, totalScore) + 100) as real > Budget(c, st, cfg, totalScore)
  {
    hide *;
    SharesAreLots(c, st, cfg, open, totalScore);
    NextLotExceeds(Budget(c, st, cfg, totalScore), open);
  }

  lemma NextLotExceeds(amount: real, price: real)
    requires price > 0.0
    ensures price * (Lots(amount, price) + 100) as real > amount
  {
    var q := amount / price;
    var m := Lots(amount, price) + 100;
    assert Truncate(q) < m;
    assert q < m as real;
    assert price * q < price * m as real;
    assert price * q == amount;
  }

  /** A purchase is a whole number of lots, within the single-stock cap, and paid from free cash. */
  lemma PurchaseFacts(c: Candidate, st: State, d: int, day: int, k: KLine, cfg: Config, totalScore: real)
    requires Purchase(c, st, d, day, k, cfg, totalScore).Some? && GoodMarket(k)
    ensures var p := Purchase(c, st, d, day, k, cfg, totalScore).value;
            && GoodLot(p) && p.symbol == c.symbol && p.buyDayIndex == day + 1 && p.pendingSell.None?
            && BuyRecord(p, cfg).amount <= CostEquity(st) * cfg.maxPositionPct
            && Outlay(BuyRecord(p, cfg)) <= st.cash
            && p.buyDate > d && Timely(p, d, d, k)
            && p.costPrice < LimitUp(FillFor(BarsOf(k, c.symbol), d).value.prevClose, c.symbol)
  {
    FillIsNextBar(BarsOf(k, c.symbol), d);
    var f := FillFor(BarsOf(k, c.symbol), d).value;
    SharesFacts(c, st, cfg, f.bar.open, totalScore);
  }

  /** Booking the purchase of a symbol that is not held. */
  lemma PurchaseKeepsBooks(st: State, p: Position, cfg: Config)
    requires Books(st, cfg) && !Holds(st.positions, p.symbol) && GoodLot(p)
    ensures Books(st.(cash := st.cash - Outlay(BuyRecord(p, cfg)), positions := st.positions + [p],
                      records := st.records + [BuyRecord(p, cfg)]), cfg)
  {
    hide Sum, IndexOf, Replay;
    var r := BuyRecord(p, cfg);
    AtAppend(st.positions, p, p.symbol);
    ReplayAppend(st.records, r);
    PurchaseReplays(st.positions, p, cfg);
    SumConcat(st.records, [r], Flow);
    SumSingle(r, Flow);
  }

  lemma PurchaseReplays(ps: seq<Position>, p: Position, cfg: Config)
    requires Distinct(ps) && !Holds(ps, p.symbol)
    ensures ReplayStep(BuyRecords(ps, cfg), BuyRecord(p, cfg)) == Some(BuyRecords(ps + [p], cfg))
  {
    FindIsIndexOf(ps, p.symbol, cfg);
    assert BuyRecords(ps + [p], cfg) == BuyRecords(ps, cfg) + [BuyRecord(p, cfg)];
  }

  lemma BuyKeeps(st: State, c: Candidate, d: int, day: int, k: KLine, cfg: Config, totalScore: real)
    requires Books(st, cfg) && Solvent(st) && AllTimely(st.positions, d, d, k)
    requires GoodMarket(k) && !Holds(st.positions, c.symbol)
    ensures var st' := ExecuteBuy(st, c, d, day, k, cfg, totalScore);
            Books(st', cfg) && Solvent(st') && AllTimely(st'.positions, d, d, k)
  {
    if Purchase(c, st, d, day, k, cfg, totalScore).Some? {
      PurchaseFacts(c, st, d, day, k, cfg, totalScore);
      PurchaseKeepsBooks(st, Purchase(c, st, d, day, k, cfg, totalScore).value, cfg);
    }
  }

  /** A position bought on day d: filled on the next bar, counted from the next day, its tracked close starting at its price. */
  predicate JustBought(p: Position, d: int, day: int, k: KLine) {
    var fill := FillFor(BarsOf(k, p.symbol), d);
    && p.buyDayIndex == day + 1 && p.highestClose == p.costPrice
    && fill.Some? && p.buyDate == fill.value.bar.date && p.costPrice == fill.value.bar.open
  }

  /** One candidate appends at most its own position. */
  ghost predicate Appends(ps: seq<Position>, ps': seq<Position>, c: Candidate, d: int, day: int, k: KLine) {
    ps' == ps || (|ps'| == |ps| + 1 && ps'[..|ps|] == ps && ps'[|ps|].symbol == c.symbol && JustBought(ps'[|ps|], d, day, k))
  }

  lemma BuyAppends(st: State, c: Candidate, d: int, day: int, k: KLine, cfg: Config, totalScore: real)
    requires !Holds(st.positions, c.symbol)
    ensures Appends(st.positions, ExecuteBuy(st, c, d, day, k, cfg, totalScore).positions, c, d, day, k)
  {
    hide FillFor, BuyShares, BuyCost, LimitUp;
  }

  /** The buys of a day only append positions, one per candidate at most, dated for the next day. */
  lemma {:induction false} BuyEachAppends(st: State, cs: seq<Candidate>, d: int, day: int, k: KLine, cfg: Config, totalScore: real)
    requires DistinctCandidates(cs)
    requires forall c :: c in cs ==> !Holds(st.positions, c.symbol)
    ensures var ps' := BuyEach(st, cs, d, day, k, cfg, totalScore).positions;
            && st.positions <= ps' && |ps'| <= |st.positions| + |cs|
            && forall i :: |st.positions| <= i < |ps'| ==>
                 JustBought(ps'[i], d, day, k) && exists j :: 0 <= j < |cs| && ps'[i].symbol == cs[j].symbol
  {
    hide ExecuteBuy, Holds;
    if cs != [] {
      var front, c := cs[..|cs|-1], cs[|cs|-1];
      assert forall x :: x in front ==> x in cs;
      BuyEachAppends(st, front, d, day, k, cfg, totalScore);
      var mid := BuyEach(st, front, d, day, k, cfg, totalScore);
      var ps' := BuyEach(st, cs, d, day, k, cfg, totalScore).positions;
      NotHeldAfter(st.positions, mid.positions, cs);
      BuyAppends(mid, c, d, day, k, cfg, totalScore);
      forall i | |st.positions| <= i < |ps'|
        ensures JustBought(ps'[i], d, day, k) && exists j :: 0 <= j < |cs| && ps'[i].symbol == cs[j].symbol
      {
        if i < |mid.positions| {
          var j :| 0 <= j < |front| && mid.positions[i].symbol == front[j].symbol;
          assert cs[j] == front[j];
        } else {
          assert ps'[i].symbol == cs[|cs|-1].symbol;
        }
      }
    }
  }

  /** Once earlier candidates were bought, the last one is still not held. */
  lemma NotHeldAfter(ps: seq<Position>, ps': seq<Position>, cs: seq<Candidate>)
    requires cs != [] && DistinctCandidates(cs) && ps <= ps'
    requires forall c :: c in cs ==> !Holds(ps, c.symbol)
    requires forall i :: |ps| <= i < |ps'| ==> exists j :: 0 <= j < |cs| - 1 && ps'[i].symbol == cs[j].symbol
    ensures !Holds(ps', cs[|cs|-1].symbol)
  {
    var c := cs[|cs|-1];
    assert c in cs;
    forall i | 0 <= i < |ps'| ensures ps'[i].symbol != c.symbol {
      if i < |ps| { assert ps'[i] == ps[i]; }
    }
  }

  lemma LastNotHeld(st: State, cs: seq<Candidate>, d: int, day: int, k: KLine, cfg: Config, total: real)
    requires cs != [] && DistinctCandidates(cs)
    requires forall c :: c in cs ==> !Holds(st.positions, c.symbol)
    ensures !Holds(BuyEach(st, cs[..|cs|-1], d, day, k, cfg, total).positions, cs[|cs|-1].symbol)
  {
    var front := cs[..|cs|-1];
    assert forall x :: x in front ==> x in cs;
    BuyEachAppends(st, front, d, day, k, cfg, total);
    var ps := BuyEach(st, front, d, day, k, cfg, total).positions;
    forall i | |st.positions| <= i < |ps| ensures exists j :: 0 <= j < |cs| - 1 && ps[i].symbol == cs[j].symbol {
      var j :| 0 <= j < |front| && ps[i].symbol == front[j].symbol;
      assert cs[j] == front[j];
    }
    NotHeldAfter(st.positions, ps, cs);
  }

  lemma {:induction false} BuyEachKeeps(st: State, cs: seq<Candidate>, d: int, day: int, k: KLine, cfg: Config, totalScore: real)
    requires Books(st, cfg) && Solvent(st) && AllTimely(st.positions, d, d, k)
    requires GoodMarket(k) && DistinctCandidates(cs)
    requires forall c :: c in cs ==> !Holds(st.positions, c.symbol)
    ensures var st' := BuyEach(st, cs, d, day, k, cfg, totalScore);
            Books(st', cfg) && Solvent(st') && AllTimely(st'.positions, d, d, k)
  {
    hide Books, Solvent, AllTimely, GoodMarket, ExecuteBuy, Holds;
    if cs != [] {
      var front, c := cs[..|cs|-1], cs[|cs|-1];
      assert forall x :: x in front ==> x in cs;
      BuyEachKeeps(st, front, d, day, k, cfg, totalScore);
      var mid := BuyEach(st, front, d, day, k, cfg, totalScore);
      assert !Holds(mid.positions, c.symbol) by {
        BuyEachAppends(st, front, d, day, k, cfg, totalScore);
        forall i | |st.positions| <= i < |mid.positions|
          ensures exists j :: 0 <= j < |cs| - 1 && mid.positions[i].symbol == cs[j].symbol
        {
          var j :| 0 <= j < |front| && mid.positions[i].symbol == front[j].symbol;
          assert cs[j] == front[j];
        }
        NotHeldAfter(st.positions, mid.positions, cs);
      }
      BuyKeeps(mid, c, d, day, k, cfg, totalScore);
    }
  }

  // ----- ranking -----

  lemma RanksBeforeIsTotal()
    ensures TotalPreorder(RanksBefore)
  {
  }

  lemma {:induction false} NotHeldFacts(cs: seq<Candidate>, ps: seq<Position>)
    ensures forall c :: c in NotHeld(cs, ps) <==> c in cs && !Holds(ps, c.symbol)
    ensures DistinctCandidates(cs) ==> DistinctCandidates(NotHeld(cs, ps))
  {
    if cs != [] {
      var front, c := cs[..|cs|-1], cs[|cs|-1];
      NotHeldFacts(front, ps);
      assert cs == front + [c];
      if DistinctCandidates(cs) {
        var r := NotHeld(front, ps);
        assert forall i :: 0 <= i < |r| ==> r[i] in r;
      }
    }
  }

  lemma DistinctIsMultiset(cs: seq<Candidate>)
    requires forall c, x :: c in cs && x in cs && c != x ==> c.symbol != x.symbol
    requires forall c :: multiset(cs)[c] <= 1
    ensures DistinctCandidates(cs)
  {
    forall i, j | 0 <= i < j < |cs| ensures cs[i].symbol != cs[j].symbol {
      assert cs == cs[..j] + [cs[j]] + cs[j+1..];
      assert cs[i] in cs[..j];
      assert multiset(cs)[cs[j]] >= multiset(cs[..j])[cs[j]] + 1;
      assert cs[i] != cs[j];
    }
  }

  lemma {:induction false} DistinctOnce(cs: seq<Candidate>)
    requires DistinctCandidates(cs)
    ensures forall c :: multiset(cs)[c] <= 1
  {
    if cs != [] {
      var front, c := cs[..|cs|-1], cs[|cs|-1];
      DistinctOnce(front);
      assert cs == front + [c];
      assert c !in front;
    }
  }

  lemma RankCut(cs: seq<Candidate>, slots: nat)
    ensures var sorted, r := StableSort(cs, RanksBefore), Rank(cs, slots);
            && SortedBy(sorted, RanksBefore) && multiset(sorted) == multiset(cs)
            && |r| == (if slots < |cs| then slots else |cs|)
            && |r| <= |sorted| && r == sorted[..|r|]
            && multiset(cs) - multiset(r) == multiset(sorted[|r|..])
  {
    hide StableSort, RanksBefore;
    RanksBeforeIsTotal();
    StableSortCorrect(cs, RanksBefore);
    var sorted, r := StableSort(cs, RanksBefore), Rank(cs, slots);
    SameMultisetSameLength(sorted, cs);
    assert sorted == r + sorted[|r|..];
  }

  /** The slots go to the best candidates: chosen ones are candidates, in rank order, and none left out ranks strictly better. */
  lemma RankFacts(cs: seq<Candidate>, slots: nat)
    ensures var r := Rank(cs, slots);
            && |r| == (if slots < |cs| then slots else |cs|)
            && SortedBy(r, RanksBefore)
            && (forall c :: c in r ==> c in cs)
            && (forall c, x :: c in r && x in multiset(cs) - multiset(r) ==> RanksBefore(c, x))
  {
    hide StableSort, RanksBefore, Rank;
    RankCut(cs, slots);
    var sorted, r := StableSort(cs, RanksBefore), Rank(cs, slots);
    forall c | c in r ensures c in cs {
      assert c in sorted;
      assert c in multiset(sorted);
    }
    forall c, x | c in r && x in multiset(cs) - multiset(r) ensures RanksBefore(c, x) {
      CutIsBest(sorted, |r|, c, x);
    }
  }

  lemma CutIsBest(sorted: seq<Candidate>, n: nat, c: Candidate, x: Candidate)
    requires n <= |sorted| && SortedBy(sorted, RanksBefore)
    requires c in sorted[..n] && x in multiset(sorted[n..])
    ensures RanksBefore(c, x)
  {
    hide RanksBefore;
    assert x in sorted[n..];
    var i :| 0 <= i < n && sorted[..n][i] == c;
    var j :| 0 <= j < |sorted| - n && sorted[n..][j] == x;
    assert sorted[i] == c && sorted[n + j] == x;
  }

  lemma SameMultisetSameLength<T>(xs: seq<T>, ys: seq<T>)
    requires multiset(xs) == multiset(ys)
    ensures |xs| == |ys|
  {
    assert |multiset(xs)| == |multiset(ys)|;
  }

  lemma RankDistinct(cs: seq<Candidate>, slots: nat)
    requires DistinctCandidates(cs)
    ensures DistinctCandidates(Rank(cs, slots))
  {
    hide StableSort, RanksBefore, Rank, SortedBy;
    RankCut(cs, slots);
    DistinctOnce(cs);
    RankFacts(cs, slots);
    var r := Rank(cs, slots);
    assert multiset(cs) == multiset(r) + (multiset(cs) - multiset(r)) by {
      var sorted := StableSort(cs, RanksBefore);
      assert sorted == r + sorted[|r|..];
    }
    forall c ensures multiset(r)[c] <= 1 {
      assert multiset(cs)[c] <= 1;
    }
    DistinctIsMultiset(r);
  }

  lemma ExecuteBuysKeeps(st: State, cs: seq<Candidate>, d: int, day: int, k: KLine, cfg: Config)
    requires Books(st, cfg) && Solvent(st) && AllTimely(st.positions, d, d, k)
    requires GoodMarket(k) && DistinctCandidates(cs)
    ensures var st' := ExecuteBuys(st, cs, d, day, k, cfg);
            && Books(st', cfg) && Solvent(st') && AllTimely(st'.positions, d, d, k)
            && st.positions <= st'.positions
            && (|st'.positions| <= |st.positions| || |st'.positions| <= cfg.maxHoldings)
            && (forall i :: |st.positions| <= i < |st'.positions| ==> JustBought(st'.positions[i], d, day, k))
  {
    var slots := cfg.maxHoldings - |st.positions|;
    if slots > 0 {
      var unheld := NotHeld(cs, st.positions);
      NotHeldFacts(cs, st.positions);
      RankFacts(unheld, slots);
      RankDistinct(unheld, slots);
      var ranked := Rank(unheld, slots);
      BuyEachAppends(st, ranked, d, day, k, cfg, Sum(ranked, ScoreOf));
      BuyEachKeeps(st, ranked, d, day, k, cfg, Sum(ranked, ScoreOf));
    }
  }
}
