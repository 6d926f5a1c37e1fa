/** The order risk gateway, and what its checks guarantee over a run of accepted orders. */
module RiskGateway {
  import opened Basics

  datatype Lot = Lot(symbol: string, marketValue: real)
  datatype Direction = BUY | SELL
  datatype Order = Order(symbol: string, direction: Direction, price: Option<real>, quantity: int)
  datatype RiskLevel = NORMAL | CAUTION | DANGER

  datatype Verdict = Passed | Blacklisted | RoseTooMuch | StockOverCap | SectorOverCap | TotalOverLimit

  const DAILY_GAIN_LIMIT := 9.0
  const STOCK_CAP := 15.0
  const SECTOR_CAP := 30.0

  function TotalLimit(level: RiskLevel): real {
    match level case NORMAL => 80.0 case CAUTION => 60.0 case DANGER => 30.0
  }

  type Industries = map<string, string>

  function IndustryOf(industries: Industries, symbol: string): string {
    if symbol in industries then industries[symbol] else "未分类"
  }

  // ----- market value of some of the positions -----

  function ValueIn(ps: seq<Lot>, member: string -> bool): real {
    if ps == [] then 0.0
    else ValueIn(ps[..|ps|-1], member) + if member(ps[|ps|-1].symbol) then ps[|ps|-1].marketValue else 0.0
  }

  function OfStock(symbol: string): string -> bool { s => s == symbol }
  function OfIndustry(industries: Industries, industry: string): string -> bool { s => IndustryOf(industries, s) == industry }
  function Anything(): string -> bool { s => true }

  function Total(ps: seq<Lot>): real { ValueIn(ps, Anything()) }

  // ----- the check chain -----

  function Amount(o: Order): real {
    (if o.price.Some? then o.price.value else 0.0) * o.quantity as real
  }

  function TotalPct(marketValue: real, cash: real): real {
    if marketValue + cash <= 0.0 then 0.0 else marketValue / (marketValue + cash) * 100.0
  }

  function CheckOrderRisk(o: Order, ps: seq<Lot>, blacklist: set<string>, dailyChangePct: real,
                          industries: Industries, marketValue: real, cash: real, totalLimit: real): Verdict {
    if o.direction == SELL then Passed
    else if o.symbol in blacklist then Blacklisted
    else if dailyChangePct > DAILY_GAIN_LIMIT then RoseTooMuch
    else
      var assets := marketValue + cash;
      var sector := OfIndustry(industries, IndustryOf(industries, o.symbol));
      if assets > 0.0 && (ValueIn(ps, OfStock(o.symbol)) + Amount(o)) / assets * 100.0 > STOCK_CAP then StockOverCap
      else if assets > 0.0 && (ValueIn(ps, sector) + Amount(o)) / assets * 100.0 > SECTOR_CAP then SectorOverCap
      else if TotalPct(marketValue, cash) > totalLimit then TotalOverLimit
      else Passed
  }

  // ----- an account traded through the gateway at fixed prices, without fees -----

  datatype Account = Account(lots: seq<Lot>, cash: real)

  function Assets(a: Account): real { Total(a.lots) + a.cash }

  function IndexOf(ps: seq<Lot>, symbol: string): (i: int)
    ensures -1 <= i < |ps| && (i >= 0 ==> ps[i].symbol == symbol)
    ensures i < 0 ==> forall j :: 0 <= j < |ps| ==> ps[j].symbol != symbol
  {
    if ps == [] then -1 else if ps[|ps|-1].symbol == symbol then |ps| - 1 else IndexOf(ps[..|ps|-1], symbol)
  }

  /** Adds delta to the position of the symbol, opening it when needed. */
  function AddTo(ps: seq<Lot>, symbol: string, delta: real): seq<Lot> {
    var i := IndexOf(ps, symbol);
    if i >= 0 then ps[i := Lot(symbol, ps[i].marketValue + delta)] else ps + [Lot(symbol, delta)]
  }

  /** What surrounds an order: the daily change of its stock, the blacklist and the market's risk level. */
  datatype Event = Event(order: Order, dailyChangePct: real, blacklist: set<string>, level: RiskLevel)

  function VerdictOn(a: Account, e: Event, industries: Industries): Verdict {
    CheckOrderRisk(e.order, a.lots, e.blacklist, e.dailyChangePct, industries, Total(a.lots), a.cash, TotalLimit(e.level))
  }

  /** A passed order is filled in full; a sale of more than is held is turned down by the broker. */
  function Traded(a: Account, e: Event, industries: Industries): Account {
    var amount := Amount(e.order);
    if VerdictOn(a, e, industries) != Passed then a
    else if e.order.direction == BUY then Account(AddTo(a.lots, e.order.symbol, amount), a.cash - amount)
    else if amount <= ValueIn(a.lots, OfStock(e.order.symbol)) then
      Account(AddTo(a.lots, e.order.symbol, -amount), a.cash + amount)
    else a
  }

  function Run(a: Account, events: seq<Event>, industries: Industries): Account {
    if events == [] then a else Traded(Run(a, events[..|events|-1], industries), events[|events|-1], industries)
  }

  /** Every order carries a positive price and quantity. */
  ghost predicate Priced(events: seq<Event>) {
    forall i :: 0 <= i < |events| ==> events[i].order.price.Some? && Amount(events[i].order) > 0.0
  }

  lemma {:induction false} ValueConcat(a: seq<Lot>, b: seq<Lot>, member: string -> bool)
    ensures ValueIn(a + b, member) == ValueIn(a, member) + ValueIn(b, member)
  {
    if b == [] {
      assert a + b == a;
    } else {
      assert (a + b)[..|a + b| - 1] == a + b[..|b| - 1];
      ValueConcat(a, b[..|b| - 1], member);
    }
  }

  lemma ValueOne(l: Lot, member: string -> bool)
    ensures ValueIn([l], member) == if member(l.symbol) then l.marketValue else 0.0
  {
    assert [l][..0] == [];
  }

  /** Adding to one stock changes exactly the totals that stock belongs to. */
  lemma AddToValue(ps: seq<Lot>, symbol: string, delta: real, member: string -> bool)
    ensures ValueIn(AddTo(ps, symbol, delta), member) == ValueIn(ps, member) + if member(symbol) then delta else 0.0
  {
    var i := IndexOf(ps, symbol);
    if i >= 0 {
      var before, after := ps[..i], ps[i+1..];
      var old', new' := ps[i], Lot(symbol, ps[i].marketValue + delta);
      assert ps == before + [old'] + after && AddTo(ps, symbol, delta) == before + [new'] + after;
      ValueConcat(before + [old'], after, member);
      ValueConcat(before, [old'], member);
      ValueConcat(before + [new'], after, member);
      ValueConcat(before, [new'], member);
      ValueOne(old', member);
      ValueOne(new', member);
    } else {
      ValueConcat(ps, [Lot(symbol, delta)], member);
      ValueOne(Lot(symbol, delta), member);
    }
  }

  /** The caps, in money: assets are A, the total may exceed the highest limit by one stock cap. */
  ghost predicate WithinCaps(a: Account, assets: real, limit: real, industries: Industries) {
    && Assets(a) == assets
    && (forall s :: ValueIn(a.lots, OfStock(s)) <= assets * STOCK_CAP / 100.0)
    && (forall g :: ValueIn(a.lots, OfIndustry(industries, g)) <= assets * SECTOR_CAP / 100.0)
    && Total(a.lots) <= assets * (limit + STOCK_CAP) / 100.0
  }

  lemma PctBound(value: real, assets: real, pct: real)
    requires assets > 0.0 && value / assets * 100.0 <= pct
    ensures value <= assets * pct / 100.0
  {
    var q := value / assets;
    assert q * assets == value;
    assert q <= pct / 100.0;
    assert q * assets <= pct / 100.0 * assets;
  }

  /** What passing means for a buy, in money. */
  lemma PassedBuy(a: Account, e: Event, industries: Industries, assets: real)
    requires Assets(a) == assets > 0.0 && e.order.direction == BUY && VerdictOn(a, e, industries) == Passed
    ensures var o := e.order;
            && ValueIn(a.lots, OfStock(o.symbol)) + Amount(o) <= assets * STOCK_CAP / 100.0
            && ValueIn(a.lots, OfIndustry(industries, IndustryOf(industries, o.symbol))) + Amount(o) <= assets * SECTOR_CAP / 100.0
            && Total(a.lots) <= assets * TotalLimit(e.level) / 100.0
  {
    hide ValueIn, Amount;
    var o := e.order;
    PctBound(ValueIn(a.lots, OfStock(o.symbol)) + Amount(o), assets, STOCK_CAP);
    PctBound(ValueIn(a.lots, OfIndustry(industries, IndustryOf(industries, o.symbol))) + Amount(o), assets, SECTOR_CAP);
    PctBound(Total(a.lots), assets, TotalLimit(e.level));
  }

  ghost predicate NoShorts(a: Account) {
    forall s :: ValueIn(a.lots, OfStock(s)) >= 0.0
  }

  lemma OneCapAbove(assets: real, total: real, amount: real, level: real, limit: real)
    requires assets > 0.0 && level <= limit
    requires total <= assets * level / 100.0 && amount <= assets * STOCK_CAP / 100.0
    ensures total + amount <= assets * (limit + STOCK_CAP) / 100.0
  {
    assert assets * level <= assets * limit;
    assert assets * (limit + STOCK_CAP) == assets * limit + assets * STOCK_CAP;
  }

  /** A fill that moves delta into one stock: its own totals move, the others and the assets stay. */
  lemma FillKeepsCaps(a: Account, symbol: string, delta: real, industries: Industries, assets: real, limit: real)
    requires WithinCaps(a, assets, limit, industries) && NoShorts(a)
    requires ValueIn(a.lots, OfStock(symbol)) + delta >= 0.0
    requires delta > 0.0 ==> ValueIn(a.lots, OfStock(symbol)) + delta <= assets * STOCK_CAP / 100.0
    requires delta > 0.0 ==> ValueIn(a.lots, OfIndustry(industries, IndustryOf(industries, symbol))) + delta <= assets * SECTOR_CAP / 100.0
    requires Total(a.lots) + delta <= assets * (limit + STOCK_CAP) / 100.0
    ensures var b := Account(AddTo(a.lots, symbol, delta), a.cash - delta);
            WithinCaps(b, assets, limit, industries) && NoShorts(b)
  {
    hide ValueIn, AddTo;
    var b := Account(AddTo(a.lots, symbol, delta), a.cash - delta);
    AddToValue(a.lots, symbol, delta, Anything());
    forall s ensures 0.0 <= ValueIn(b.lots, OfStock(s)) <= assets * STOCK_CAP / 100.0 {
      AddToValue(a.lots, symbol, delta, OfStock(s));
      assert 0.0 <= ValueIn(a.lots, OfStock(s)) <= assets * STOCK_CAP / 100.0;
    }
    forall g ensures ValueIn(b.lots, OfIndustry(industries, g)) <= assets * SECTOR_CAP / 100.0 {
      AddToValue(a.lots, symbol, delta, OfIndustry(industries, g));
      assert ValueIn(a.lots, OfIndustry(industries, g)) <= assets * SECTOR_CAP / 100.0;
    }
  }

  lemma BuyKeepsCaps(a: Account, e: Event, industries: Industries, assets: real, limit: real)
    requires assets > 0.0 && WithinCaps(a, assets, limit, industries) && NoShorts(a)
    requires Amount(e.order) > 0.0 && TotalLimit(e.level) <= limit
    requires e.order.direction == BUY && VerdictOn(a, e, industries) == Passed
    ensures var b := Account(AddTo(a.lots, e.order.symbol, Amount(e.order)), a.cash - Amount(e.order));
            WithinCaps(b, assets, limit, industries) && NoShorts(b)
  {
    var symbol, amount := e.order.symbol, Amount(e.order);
    assert ValueIn(a.lots, OfStock(symbol)) >= 0.0 && Assets(a) == assets;
    hide ValueIn, Amount, AddTo, TotalLimit, VerdictOn, WithinCaps, NoShorts, Assets, Total;
    PassedBuy(a, e, industries, assets);
    OneCapAbove(assets, Total(a.lots), amount, TotalLimit(e.level), limit);
    FillKeepsCaps(a, symbol, amount, industries, assets, limit);
  }

  lemma SaleKeepsCaps(a: Account, symbol: string, amount: real, industries: Industries, assets: real, limit: real)
    requires WithinCaps(a, assets, limit, industries) && NoShorts(a)
    requires 0.0 < amount <= ValueIn(a.lots, OfStock(symbol))
    ensures var b := Account(AddTo(a.lots, symbol, -amount), a.cash + amount);
            WithinCaps(b, assets, limit, industries) && NoShorts(b)
  {
    assert Total(a.lots) <= assets * (limit + STOCK_CAP) / 100.0;
    hide ValueIn, AddTo, WithinCaps, NoShorts, Total;
    FillKeepsCaps(a, symbol, -amount, industries, assets, limit);
    assert a.cash - (-amount) == a.cash + amount;
  }

  lemma TradeKeepsCaps(a: Account, e: Event, industries: Industries, assets: real, limit: real)
    requires assets > 0.0 && WithinCaps(a, assets, limit, industries) && NoShorts(a)
    requires Amount(e.order) > 0.0 && TotalLimit(e.level) <= limit
    ensures WithinCaps(Traded(a, e, industries), assets, limit, industries) && NoShorts(Traded(a, e, industries))
  {
    var o := e.order;
    hide ValueIn, Amount, AddTo, TotalLimit, VerdictOn, WithinCaps, NoShorts;
    if VerdictOn(a, e, industries) == Passed {
      if o.direction == BUY {
        BuyKeepsCaps(a, e, industries, assets, limit);
      } else if Amount(o) <= ValueIn(a.lots, OfStock(o.symbol)) {
        SaleKeepsCaps(a, o.symbol, Amount(o), industries, assets, limit);
      }
    }
  }

  /**
   * Over any run of priced orders at fixed prices and without fees, from any account within the caps: assets are
   * conserved, each stock and each industry stays within its cap, and the total exceeds the highest limit in
   * force by at most one stock cap.
   */
  lemma {:induction false} RunStaysWithinCaps(a: Account, events: seq<Event>, industries: Industries, assets: real, limit: real)
    requires assets > 0.0 && WithinCaps(a, assets, limit, industries) && NoShorts(a)
    requires Priced(events) && forall i :: 0 <= i < |events| ==> TotalLimit(events[i].level) <= limit
    ensures WithinCaps(Run(a, events, industries), assets, limit, industries)
    ensures NoShorts(Run(a, events, industries))
  {
    hide WithinCaps, NoShorts, Traded, Amount, TotalLimit;
    if events != [] {
      var front, e := events[..|events|-1], events[|events|-1];
      assert e.order == events[|events|-1].order;
      RunStaysWithinCaps(a, front, industries, assets, limit);
      TradeKeepsCaps(Run(a, front, industries), e, industries, assets, limit);
    }
  }

  /** An account of nothing but cash is within the caps. */
  lemma CashIsWithinCaps(cash: real, industries: Industries, limit: real)
    requires cash > 0.0 && limit >= 0.0
    ensures WithinCaps(Account([], cash), cash, limit, industries) && NoShorts(Account([], cash))
  {
    assert cash * (limit + STOCK_CAP) >= 0.0;
  }

  /**
   * No accepted order needs more cash than there is: whatever the highest limit in force and one stock cap
   * leave of the assets stays in cash, at least five percent under all three risk levels.
   */
  lemma CashNeverNegative(a: Account, events: seq<Event>, industries: Industries, assets: real, limit: real)
    requires assets > 0.0 && WithinCaps(a, assets, limit, industries) && NoShorts(a)
    requires Priced(events) && forall i :: 0 <= i < |events| ==> TotalLimit(events[i].level) <= limit
    ensures Run(a, events, industries).cash >= assets * (100.0 - limit - STOCK_CAP) / 100.0
    ensures limit <= 80.0 ==> Run(a, events, industries).cash >= assets * 5.0 / 100.0
  {
    RunStaysWithinCaps(a, events, industries, assets, limit);
    hide *;
    CashWithinCaps(Run(a, events, industries), assets, limit, industries);
  }

  lemma CashWithinCaps(b: Account, assets: real, limit: real, industries: Industries)
    requires assets > 0.0 && WithinCaps(b, assets, limit, industries)
    ensures b.cash >= assets * (100.0 - limit - STOCK_CAP) / 100.0
    ensures limit <= 80.0 ==> b.cash >= assets * 5.0 / 100.0
  {
    var most, least := assets * (limit + STOCK_CAP) / 100.0, assets * (100.0 - limit - STOCK_CAP) / 100.0;
    assert b.cash == assets - Total(b.lots) && Total(b.lots) <= most;
    CashLeft(assets, limit, STOCK_CAP);
    hide *;
    assert assets - most == least;
  }

  lemma CashLeft(assets: real, limit: real, cap: real)
    requires assets > 0.0
    ensures assets - assets * (limit + cap) / 100.0 == assets * (100.0 - limit - cap) / 100.0
    ensures limit + cap <= 95.0 ==> assets * (100.0 - limit - cap) / 100.0 >= assets * 5.0 / 100.0
  {
    assert assets * (100.0 - limit - cap) == assets * 100.0 - assets * (limit + cap);
    assert limit + cap <= 95.0 ==> assets * (100.0 - limit - cap) >= assets * 5.0;
  }

  // ----- the total limit: compared before the order is added -----

  /** The passed buy e would still be within the cap on the total. */
  predicate Fits(a: Account, e: Event, industries: Industries, cap: real) {
    e.order.direction == BUY && VerdictOn(a, e, industries) == Passed ==> Total(a.lots) + Amount(e.order) <= cap
  }

  lemma TotalAfter(a: Account, e: Event, industries: Industries)
    ensures Total(Traded(a, e, industries).lots)
         == if Traded(a, e, industries) == a then Total(a.lots)
            else if e.order.direction == BUY then Total(a.lots) + Amount(e.order) else Total(a.lots) - Amount(e.order)
  {
    AddToValue(a.lots, e.order.symbol, Amount(e.order), Anything());
    AddToValue(a.lots, e.order.symbol, -Amount(e.order), Anything());
    hide ValueIn, AddTo, Amount, VerdictOn;
  }

  lemma BuyMoves(a: Account, e: Event, industries: Industries)
    requires e.order.direction == BUY && VerdictOn(a, e, industries) == Passed && Amount(e.order) != 0.0
    ensures Traded(a, e, industries) != a
  {
    hide ValueIn, AddTo, Amount, VerdictOn;
    assert Traded(a, e, industries).cash == a.cash - Amount(e.order);
  }

  lemma StepBelowIff(a: Account, e: Event, industries: Industries, cap: real)
    requires Amount(e.order) > 0.0 && Total(a.lots) <= cap
    ensures Total(Traded(a, e, industries).lots) <= cap <==> Fits(a, e, industries, cap)
  {
    TotalAfter(a, e, industries);
    if e.order.direction == BUY && VerdictOn(a, e, industries) == Passed { BuyMoves(a, e, industries); }
    hide Amount, Total, VerdictOn;
  }

  ghost predicate AllFit(a: Account, events: seq<Event>, industries: Industries, cap: real) {
    forall n :: 0 <= n < |events| ==> Fits(Run(a, events[..n], industries), events[n], industries, cap)
  }

  ghost predicate NeverAbove(a: Account, events: seq<Event>, industries: Industries, cap: real) {
    forall n :: 0 <= n <= |events| ==> Total(Run(a, events[..n], industries).lots) <= cap
  }

  lemma RunStep(a: Account, events: seq<Event>, industries: Industries, n: nat)
    requires n < |events|
    ensures Run(a, events[..n+1], industries) == Traded(Run(a, events[..n], industries), events[n], industries)
  {
    assert events[..n+1][..n] == events[..n];
  }

  /** Over a whole run the total never exceeds a cap exactly when every passed buy still fits below it. */
  lemma TotalNeverExceedsIff(a: Account, events: seq<Event>, industries: Industries, cap: real)
    requires Priced(events) && Total(a.lots) <= cap
    ensures NeverAbove(a, events, industries, cap) <==> AllFit(a, events, industries, cap)
  {
    hide Run, Total, Fits, Traded, Amount;
    if NeverAbove(a, events, industries, cap) {
      forall n | 0 <= n < |events| ensures Fits(Run(a, events[..n], industries), events[n], industries, cap) {
        RunStep(a, events, industries, n);
        assert events[n].order == events[n].order;
        StepBelowIff(Run(a, events[..n], industries), events[n], industries, cap);
      }
    }
    if AllFit(a, events, industries, cap) {
      forall n | 0 <= n <= |events| ensures Total(Run(a, events[..n], industries).lots) <= cap {
        FitsStaysBelow(a, events, industries, cap, n);
      }
    }
  }

  lemma {:induction false} FitsStaysBelow(a: Account, events: seq<Event>, industries: Industries, cap: real, n: nat)
    requires Priced(events) && Total(a.lots) <= cap && AllFit(a, events, industries, cap) && n <= |events|
    ensures Total(Run(a, events[..n], industries).lots) <= cap
  {
    hide Run, Total, Fits, Traded, Amount;
    if n == 0 {
      RunNothing(a, industries);
    } else {
      FitsStaysBelow(a, events, industries, cap, n-1);
      RunStep(a, events, industries, n-1);
      assert Fits(Run(a, events[..n-1], industries), events[n-1], industries, cap);
      StepBelowIff(Run(a, events[..n-1], industries), events[n-1], industries, cap);
    }
  }

  lemma RunNothing(a: Account, industries: Industries)
    ensures Run(a, [], industries) == a
  {
  }

  function UnitBuy(symbol: string, price: real): Event {
    Event(Order(symbol, BUY, Some(price), 1), 0.0, {}, DANGER)
  }

  const THREE_INDUSTRIES: Industries := map["a" := "x", "b" := "y", "c" := "z"]

  lemma ValuePair(l: Lot, m: Lot, member: string -> bool)
    ensures ValueIn([l, m], member) == (if member(l.symbol) then l.marketValue else 0.0)
                                     + (if member(m.symbol) then m.marketValue else 0.0)
  {
    assert [l, m] == [l] + [m];
    ValueConcat([l], [m], member);
    ValueOne(l, member);
    ValueOne(m, member);
  }

  lemma FirstUnit()
    ensures Traded(Account([], 100.0), UnitBuy("a", 15.0), THREE_INDUSTRIES) == Account([Lot("a", 15.0)], 85.0)
  {
  }

  lemma SecondUnit()
    ensures Traded(Account([Lot("a", 15.0)], 85.0), UnitBuy("b", 15.0), THREE_INDUSTRIES)
         == Account([Lot("a", 15.0), Lot("b", 15.0)], 70.0)
  {
    assert [Lot("a", 15.0)][..0] == [];
  }

  lemma ThirdUnit()
    ensures Total(Traded(Account([Lot("a", 15.0), Lot("b", 15.0)], 70.0), UnitBuy("c", 15.0), THREE_INDUSTRIES).lots) == 45.0
  {
    var lots := [Lot("a", 15.0), Lot("b", 15.0)];
    ValuePair(lots[0], lots[1], Anything());
    ValuePair(lots[0], lots[1], OfStock("c"));
    ValuePair(lots[0], lots[1], OfIndustry(THREE_INDUSTRIES, "z"));
    hide ValueIn, AddTo;
    assert VerdictOn(Account(lots, 70.0), UnitBuy("c", 15.0), THREE_INDUSTRIES) == Passed;
    AddToValue(lots, "c", 15.0, Anything());
  }

  lemma RunThree(a: Account, e: Event, f: Event, g: Event, industries: Industries)
    ensures Run(a, [e, f, g], industries) == Traded(Traded(Traded(a, e, industries), f, industries), g, industries)
  {
    hide Traded;
    assert [e][..0] == [] && Run(a, [e], industries) == Traded(a, e, industries);
    assert [e, f][..1] == [e] && Run(a, [e, f], industries) == Traded(Run(a, [e], industries), f, industries);
    assert [e, f, g][..2] == [e, f];
  }

  /** So the limit of 30% does not hold: two buys of 15% reach it and a third one passes, up to the proved bound. */
  lemma LimitExceeded()
    ensures var events := [UnitBuy("a", 15.0), UnitBuy("b", 15.0), UnitBuy("c", 15.0)];
            Total(Run(Account([], 100.0), events, THREE_INDUSTRIES).lots) == 45.0
  {
    hide Traded, UnitBuy, Total, THREE_INDUSTRIES;
    FirstUnit();
    SecondUnit();
    ThirdUnit();
    RunThree(Account([], 100.0), UnitBuy("a", 15.0), UnitBuy("b", 15.0), UnitBuy("c", 15.0), THREE_INDUSTRIES);
  }

  // ----- accounts without assets -----

  /** With the order added, its stock and its industry are within their caps. */
  predicate CapsAfter(a: Account, e: Event, industries: Industries) {
    var o := e.order;
    && ValueIn(a.lots, OfStock(o.symbol)) + Amount(o) <= Assets(a) * STOCK_CAP / 100.0
    && ValueIn(a.lots, OfIndustry(industries, IndustryOf(industries, o.symbol))) + Amount(o) <= Assets(a) * SECTOR_CAP / 100.0
  }

  /** Without assets neither the caps nor the total limit apply: every buy of an unlisted stock passes, at any level. */
  lemma NoAssetsNoCaps(a: Account, e: Event, industries: Industries)
    requires Assets(a) <= 0.0 && e.order.direction == BUY
    ensures VerdictOn(a, e, industries) == Passed <==> e.order.symbol !in e.blacklist && e.dailyChangePct <= DAILY_GAIN_LIMIT
  {
    hide ValueIn, Amount;
  }

  /** A buy too large for any account without assets. */
  function Oversized(a: Account): Event {
    var held := ValueIn(a.lots, OfStock(""));
    Event(Order("", BUY, Some(if held < 0.0 then 1.0 - held else 1.0), 1), 0.0, {}, NORMAL)
  }

  lemma OversizedBreaksCap(a: Account, industries: Industries)
    requires Assets(a) <= 0.0
    ensures !CapsAfter(a, Oversized(a), industries)
  {
    hide ValueIn, Assets;
    var held := ValueIn(a.lots, OfStock(""));
    assert Amount(Oversized(a).order) == if held < 0.0 then 1.0 - held else 1.0;
  }

  /** Every passed buy respects the caps exactly when the account has assets. */
  lemma CapsRespectedIffAssets(a: Account, industries: Industries)
    ensures Assets(a) > 0.0 <==>
            forall e: Event :: e.order.direction == BUY && VerdictOn(a, e, industries) == Passed ==> CapsAfter(a, e, industries)
  {
    if Assets(a) > 0.0 {
      forall e: Event | e.order.direction == BUY && VerdictOn(a, e, industries) == Passed ensures CapsAfter(a, e, industries) {
        PassedBuy(a, e, industries, Assets(a));
      }
    } else {
      NoAssetsNoCaps(a, Oversized(a), industries);
      OversizedBreaksCap(a, industries);
    }
  }

  // ----- the verdict, from the positions and the literal limits alone -----

  function StockValue(ps: seq<Lot>, symbol: string): real {
    if ps == [] then 0.0
    else StockValue(ps[..|ps|-1], symbol) + if ps[|ps|-1].symbol == symbol then ps[|ps|-1].marketValue else 0.0
  }

  function IndustryName(industries: Industries, symbol: string): string {
    if symbol in industries then industries[symbol] else "未分类"
  }

  function IndustryValue(ps: seq<Lot>, industries: Industries, name: string): real {
    if ps == [] then 0.0
    else IndustryValue(ps[..|ps|-1], industries, name)
         + if IndustryName(industries, ps[|ps|-1].symbol) == name then ps[|ps|-1].marketValue else 0.0
  }

  function MarketValue(ps: seq<Lot>): real {
    if ps == [] then 0.0 else MarketValue(ps[..|ps|-1]) + ps[|ps|-1].marketValue
  }

  lemma {:induction false} ValuesAre(ps: seq<Lot>, symbol: string, industries: Industries, name: string)
    ensures ValueIn(ps, OfStock(symbol)) == StockValue(ps, symbol)
    ensures ValueIn(ps, OfIndustry(industries, name)) == IndustryValue(ps, industries, name)
    ensures Total(ps) == MarketValue(ps)
  {
    if ps != [] { ValuesAre(ps[..|ps|-1], symbol, industries, name); }
  }

  /** part is more than pct percent of whole. */
  predicate MoreThan(part: real, pct: real, whole: real) { part * 100.0 > pct * whole }

  lemma MoreThanIff(part: real, pct: real, whole: real)
    requires whole > 0.0
    ensures part / whole * 100.0 > pct <==> MoreThan(part, pct, whole)
  {
    var q := part / whole;
    assert q * whole == part;
    if q * 100.0 > pct { assert q * 100.0 * whole > pct * whole; } else { assert q * 100.0 * whole <= pct * whole; }
    assert q * 100.0 * whole == part * 100.0;
  }

  /**
   * The first of the checks an order fails: sales pass; then the blacklist, a rise above 9%, and, for an account with
   * assets, 15% of them in the stock and 30% in its industry with the order added, and the level's limit before it.
   */
  predicate JudgedAs(v: Verdict, o: Order, ps: seq<Lot>, assets: real, blacklist: set<string>, change: real,
                     industries: Industries, limit: real)
  {
    var amount := Amount(o);
    var name := IndustryName(industries, o.symbol);
    v == if o.direction == SELL then Passed
         else if o.symbol in blacklist then Blacklisted
         else if change > 9.0 then RoseTooMuch
         else if assets <= 0.0 then Passed
         else if MoreThan(StockValue(ps, o.symbol) + amount, 15.0, assets) then StockOverCap
         else if MoreThan(IndustryValue(ps, industries, name) + amount, 30.0, assets) then SectorOverCap
         else if MoreThan(MarketValue(ps), limit, assets) then TotalOverLimit
         else Passed
  }

  lemma AmountIs(o: Order)
    ensures o.price.Some? ==> Amount(o) == o.price.value * o.quantity as real
    ensures o.price.None? ==> Amount(o) == 0.0
  {
  }

  /** Every verdict on every order, for every account: NORMAL allows 80% in stocks, CAUTION 60%, DANGER 30%. */
  lemma VerdictIs(a: Account, e: Event, industries: Industries)
    ensures var limit := match e.level case NORMAL => 80.0 case CAUTION => 60.0 case DANGER => 30.0;
            JudgedAs(VerdictOn(a, e, industries), e.order, a.lots, MarketValue(a.lots) + a.cash, e.blacklist,
                     e.dailyChangePct, industries, limit)
  {
    var o, assets, name := e.order, MarketValue(a.lots) + a.cash, IndustryName(industries, e.order.symbol);
    ValuesAre(a.lots, o.symbol, industries, name);
    if assets > 0.0 {
      MoreThanIff(StockValue(a.lots, o.symbol) + Amount(o), 15.0, assets);
      MoreThanIff(IndustryValue(a.lots, industries, name) + Amount(o), 30.0, assets);
      MoreThanIff(MarketValue(a.lots), TotalLimit(e.level), assets);
    }
    hide ValueIn, StockValue, IndustryValue, MarketValue, Amount, MoreThan, Total;
  }

  /** Whatever the levels along the run, an account that starts within the caps of NORMAL keeps five percent in cash. */
  lemma FivePercentStays(a: Account, events: seq<Event>, industries: Industries, assets: real)
    requires assets > 0.0 && WithinCaps(a, assets, 80.0, industries) && NoShorts(a) && Priced(events)
    ensures Run(a, events, industries).cash >= assets * 5.0 / 100.0
  {
    CashNeverNegative(a, events, industries, assets, 80.0);
  }
}
