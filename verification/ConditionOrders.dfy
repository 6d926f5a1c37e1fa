/** The condition-order manager: orders watch price ticks and submit at most once. */
module ConditionOrders {
  import opened Basics

  datatype Kind = BREAKOUT_BUY | STOP_LOSS | TAKE_PROFIT | TRAILING_STOP

  datatype Order = Order(symbol: string, kind: Kind, triggerPrice: real, trailingPct: Option<real>,
                         peak: Option<real>, active: bool)

  // ----- one tick on one order -----

  /** The peak follows the price; an order registered without a peak never stores one. */
  function PeakAfter(o: Order, price: real): Option<real> {
    if o.kind == TRAILING_STOP && o.peak.Some? && price > o.peak.value then Some(price) else o.peak
  }

  function Pct(o: Order): real { if o.trailingPct.Some? then o.trailingPct.value else 0.0 }

  function ShouldTrigger(o: Order, price: real): bool {
    match o.kind
    case BREAKOUT_BUY => price >= o.triggerPrice
    case STOP_LOSS => price <= o.triggerPrice
    case TAKE_PROFIT => price >= o.triggerPrice
    case TRAILING_STOP =>
      var peak := if PeakAfter(o, price).Some? then PeakAfter(o, price).value else price;
      price <= peak * (1.0 - Pct(o))
  }

  function Fires(o: Order, price: Option<real>): bool {
    o.active && price.Some? && ShouldTrigger(o, price.value)
  }

  function Ticked(o: Order, price: Option<real>): Order {
    if !o.active || price.None? then o
    else o.(peak := PeakAfter(o, price.value), active := !ShouldTrigger(o, price.value))
  }

  // ----- the manager -----

  class ConditionOrder {
    const symbol: string
    const kind: Kind
    const triggerPrice: real
    const trailingPct: Option<real>
    var peakPrice: Option<real>
    var isActive: bool

    function View(): Order
      reads this
    {
      Order(symbol, kind, triggerPrice, trailingPct, peakPrice, isActive)
    }

    constructor (symbol: string, kind: Kind, triggerPrice: real, trailingPct: Option<real>, peakPrice: Option<real>)
      ensures View() == Order(symbol, kind, triggerPrice, trailingPct, peakPrice, true)
    {
      this.symbol, this.kind, this.triggerPrice, this.trailingPct := symbol, kind, triggerPrice, trailingPct;
      this.peakPrice, isActive := peakPrice, true;
    }

    method EvaluateTrigger(price: real) returns (hit: bool)
      modifies this`peakPrice
      ensures hit == ShouldTrigger(old(View()), price)
      ensures View() == old(View()).(peak := PeakAfter(old(View()), price))
    {
      match kind
      case BREAKOUT_BUY => hit := price >= triggerPrice;
      case STOP_LOSS => hit := price <= triggerPrice;
      case TAKE_PROFIT => hit := price >= triggerPrice;
      case TRAILING_STOP =>
        var peak := if peakPrice.Some? then peakPrice.value else price;
        if price > peak {
          peak := price;
          peakPrice := Some(price);
        }
        var pct := if trailingPct.Some? then trailingPct.value else 0.0;
        hit := price <= peak * (1.0 - pct);
    }
  }

  function PriceFor(prices: map<string, real>, symbol: string): Option<real> {
    if symbol in prices then Some(prices[symbol]) else None
  }

  /** One call on the book of registered orders. */
  function BookStep(book: seq<Order>, c: Call): seq<Order> {
    match c
    case RegisterCall(o) => book + [o]
    case CancelCall(index) => if 0 <= index < |book| then book[index := book[index].(active := false)] else book
    case CheckCall(prices) => seq(|book|, i requires 0 <= i < |book| => Ticked(book[i], PriceFor(prices, book[i].symbol)))
  }

  lemma TickedTwice(o: Order, price: Option<real>)
    ensures Ticked(Ticked(o, price), price) == Ticked(o, price)
    ensures !Fires(Ticked(o, price), price)
  {
  }

  lemma CheckIsBookStep(was: seq<Order>, now: seq<Order>, prices: map<string, real>)
    requires |was| == |now|
    requires forall i :: 0 <= i < |was| ==> now[i] == Ticked(was[i], PriceFor(prices, was[i].symbol))
    ensures now == BookStep(was, CheckCall(prices))
  {
  }

  class Manager {
    /** Registration order; the same order object may have been registered more than once. */
    var orders: seq<ConditionOrder>

    /** The registered orders as they are now. */
    ghost function View(): (book: seq<Order>)
      reads this, orders
      ensures |book| == |orders| && forall i :: 0 <= i < |orders| ==> book[i] == orders[i].View()
    {
      seq(|orders|, i requires 0 <= i < |orders| reads this, orders => orders[i].View())
    }

    ghost predicate Distinct()
      reads this
    {
      forall i, j :: 0 <= i < j < |orders| ==> orders[i] != orders[j]
    }

    constructor ()
      ensures orders == []
    {
      orders := [];
    }

    method Register(o: ConditionOrder)
      modifies this
      ensures orders == old(orders) + [o]
      ensures View() == BookStep(old(View()), RegisterCall(o.View()))
    {
      orders := orders + [o];
    }

    method Cancel(index: int) returns (ok: bool)
      modifies orders
      ensures ok <==> 0 <= index < |orders| && old(orders[index].isActive)
      ensures forall o :: o in orders ==>
                o.View() == if ok && o == orders[index] then old(o.View()).(active := false) else old(o.View())
      ensures Distinct() ==> View() == BookStep(old(View()), CancelCall(index))
    {
      if index < 0 || |orders| <= index || !orders[index].isActive {
        return false;
      }
      orders[index].isActive := false;
      return true;
    }

    /** Every registered order sees the tick once; the triggered ones are returned without repetition. */
    method CheckAndTrigger(prices: map<string, real>) returns (triggered: seq<ConditionOrder>)
      modifies orders
      ensures forall o :: o in orders ==> o.View() == Ticked(old(o.View()), PriceFor(prices, o.symbol))
      ensures forall o :: o in triggered <==> o in orders && Fires(old(o.View()), PriceFor(prices, o.symbol))
      ensures forall i, j :: 0 <= i < j < |triggered| ==> triggered[i] != triggered[j]
      ensures forall o :: o in orders && o.symbol !in prices ==> o.View() == old(o.View()) && o !in triggered
      ensures View() == BookStep(old(View()), CheckCall(prices))
    {
      hide ShouldTrigger, PeakAfter, BookStep;
      ghost var was := View();
      triggered := [];
      for i := 0 to |orders|
        invariant forall o :: o in orders[..i] ==> o.View() == Ticked(old(o.View()), PriceFor(prices, o.symbol))
        invariant forall o :: o in orders && o !in orders[..i] ==> o.View() == old(o.View())
        invariant forall o :: o in triggered <==> o in orders[..i] && Fires(old(o.View()), PriceFor(prices, o.symbol))
        invariant forall i, j :: 0 <= i < j < |triggered| ==> triggered[i] != triggered[j]
      {
        var order := orders[i];
        ghost var seen := orders[..i];
        assert orders[..i+1] == seen + [order];
        ghost var before := order.View();
        ghost var price := PriceFor(prices, order.symbol);
        TickedTwice(old(order.View()), price);
        if order.isActive && order.symbol in prices {
          var hit := order.EvaluateTrigger(prices[order.symbol]);
          if hit {
            order.isActive := false;
            triggered := triggered + [order];
          }
        }
        assert order.View() == Ticked(before, price);
      }
      assert orders[..|orders|] == orders;
      CheckIsBookStep(was, View(), prices);
    }
  }

  // ----- the life of one order -----

  datatype Event = Tick(price: Option<real>) | CancelOrder

  function Stepped(o: Order, e: Event): Order {
    match e
    case Tick(price) => Ticked(o, price)
    case CancelOrder => o.(active := false)
  }

  function Life(o: Order, events: seq<Event>, n: nat): Order
    requires n <= |events|
  {
    if n == 0 then o else Stepped(Life(o, events, n-1), events[n-1])
  }

  /** Event n makes the order submit. */
  predicate SubmitsAt(o: Order, events: seq<Event>, n: nat)
    requires n < |events|
  {
    events[n].Tick? && Fires(Life(o, events, n), events[n].price)
  }

  /** The highest of the registered peak and the first n ticks. */
  function MaxTick(peak: real, events: seq<Event>, n: nat): real
    requires n <= |events|
  {
    if n == 0 then peak
    else
      var m := MaxTick(peak, events, n-1);
      if events[n-1].Tick? && events[n-1].price.Some? && events[n-1].price.value > m then events[n-1].price.value else m
  }

  /** Price event n meets the condition, by the definition of the order type alone. */
  predicate Hits(o: Order, events: seq<Event>, n: nat)
    requires n < |events|
  {
    && events[n].Tick? && events[n].price.Some?
    && var price := events[n].price.value;
    match o.kind
    case BREAKOUT_BUY => price >= o.triggerPrice
    case STOP_LOSS => price <= o.triggerPrice
    case TAKE_PROFIT => price >= o.triggerPrice
    case TRAILING_STOP =>
      price <= (if o.peak.Some? then MaxTick(o.peak.value, events, n+1) else price) * (1.0 - Pct(o))
  }

  /** The order is still waiting after n events: not cancelled, and its condition never met. */
  ghost predicate Waiting(o: Order, events: seq<Event>, n: nat)
    requires n <= |events|
  {
    o.active && forall i :: 0 <= i < n ==> events[i] != CancelOrder && !Hits(o, events, i)
  }

  /** What the order's fields say after n events. */
  ghost predicate Tracked(o: Order, events: seq<Event>, n: nat, now: Order)
    requires n <= |events|
  {
    && now.(peak := None, active := true) == o.(peak := None, active := true)
    && (now.active <==> Waiting(o, events, n))
    && (now.active && o.kind == TRAILING_STOP && o.peak.Some? ==> now.peak == Some(MaxTick(o.peak.value, events, n)))
    && (o.kind != TRAILING_STOP || o.peak.None? ==> now.peak == o.peak)
  }

  lemma WaitingStep(o: Order, events: seq<Event>, n: nat)
    requires 0 < n <= |events|
    ensures Waiting(o, events, n) <==> Waiting(o, events, n-1) && events[n-1] != CancelOrder && !Hits(o, events, n-1)
  {
    hide Hits;
  }

  /** A waiting order fires at an event exactly when the event meets its condition. */
  lemma FiresIffHits(o: Order, events: seq<Event>, n: nat, now: Order)
    requires n < |events| && events[n].Tick? && now.active && Tracked(o, events, n, now)
    ensures Fires(now, events[n].price) <==> Hits(o, events, n)
    ensures events[n].price.Some? && o.kind == TRAILING_STOP && o.peak.Some? ==>
              PeakAfter(now, events[n].price.value) == Some(MaxTick(o.peak.value, events, n+1))
  {
    hide Waiting;
  }

  lemma TrackStep(o: Order, events: seq<Event>, n: nat, now: Order)
    requires 0 < n <= |events| && Tracked(o, events, n-1, now)
    ensures Tracked(o, events, n, Stepped(now, events[n-1]))
  {
    WaitingStep(o, events, n);
    if events[n-1].Tick? && now.active {
      FiresIffHits(o, events, n-1, now);
    }
    hide Waiting, Hits, ShouldTrigger;
  }

  /** While waiting, a trailing order's peak is the maximum of its registered peak and all ticks. */
  lemma {:induction false} LifeTracks(o: Order, events: seq<Event>, n: nat)
    requires n <= |events|
    ensures Tracked(o, events, n, Life(o, events, n))
  {
    if n == 0 {
    } else {
      hide Tracked, Stepped;
      LifeTracks(o, events, n-1);
      TrackStep(o, events, n, Life(o, events, n-1));
    }
  }

  /**
   * Whatever the ticks and cancellations: the order submits at an event exactly when its condition is met
   * there for the first time and it was not cancelled before.
   */
  lemma SubmitsAtFirstHit(o: Order, events: seq<Event>, n: nat)
    requires n < |events|
    ensures SubmitsAt(o, events, n) <==> Waiting(o, events, n) && Hits(o, events, n)
  {
    LifeTracks(o, events, n);
    if events[n].Tick? && Life(o, events, n).active {
      FiresIffHits(o, events, n, Life(o, events, n));
    }
    hide Waiting, Hits, ShouldTrigger;
  }

  /** Hence it submits at most once, and never after being cancelled. */
  lemma SubmitsAtMostOnce(o: Order, events: seq<Event>, i: nat, j: nat)
    requires i < j < |events| && SubmitsAt(o, events, j)
    ensures !SubmitsAt(o, events, i) && events[i] != CancelOrder
  {
    SubmitsAtFirstHit(o, events, i);
    SubmitsAtFirstHit(o, events, j);
  }

  /**
   * A trailing order registered without a peak measures each price against itself, so it submits at the first
   * tick whose product with the percentage is not positive: at a positive price, exactly when the percentage
   * is missing or not positive.
   */
  lemma NoPeakSubmitsIff(o: Order, events: seq<Event>, n: nat)
    requires n < |events| && o.kind == TRAILING_STOP && o.peak.None?
    requires events[n].Tick? && events[n].price.Some?
    ensures SubmitsAt(o, events, n) <==> Waiting(o, events, n) && events[n].price.value * Pct(o) <= 0.0
    ensures events[n].price.value > 0.0 ==> (SubmitsAt(o, events, n) <==> Waiting(o, events, n) && Pct(o) <= 0.0)
  {
    SubmitsAtFirstHit(o, events, n);
    hide Waiting, SubmitsAt;
    var price, pct := events[n].price.value, Pct(o);
    assert price * (1.0 - pct) == price - price * pct;
    SignOfProduct(price, pct);
  }

  lemma SignOfProduct(price: real, pct: real)
    ensures price > 0.0 ==> (price * pct <= 0.0 <==> pct <= 0.0)
  {
    assert price > 0.0 && pct > 0.0 ==> price * pct > 0.0;
    assert price > 0.0 && pct <= 0.0 ==> price * pct <= 0.0;
  }

  // ----- the manager as a whole: every registered order lives its own life -----

  datatype Call = RegisterCall(order: Order) | CancelCall(index: int) | CheckCall(prices: map<string, real>)

  /** The registered orders after any calls; Manager's methods are proved to follow these steps. */
  function Book(calls: seq<Call>): seq<Order> {
    if calls == [] then [] else BookStep(Book(calls[..|calls|-1]), calls[|calls|-1])
  }

  /** The orders as they were registered. */
  function Registered(calls: seq<Call>): seq<Order> {
    if calls == [] then [] else
      var front, c := Registered(calls[..|calls|-1]), calls[|calls|-1];
      if c.RegisterCall? then front + [c.order] else front
  }

  /** What one call is to the order at position i. */
  function EventOf(c: Call, i: nat, symbol: string): seq<Event> {
    match c
    case RegisterCall(_) => []
    case CancelCall(index) => if index == i then [CancelOrder] else []
    case CheckCall(prices) => [Tick(PriceFor(prices, symbol))]
  }

  /** The events the order at position i has seen: those of the calls after its registration. */
  function EventsOf(calls: seq<Call>, i: nat, symbol: string): seq<Event> {
    if calls == [] || i >= |Registered(calls[..|calls|-1])| then []
    else EventsOf(calls[..|calls|-1], i, symbol) + EventOf(calls[|calls|-1], i, symbol)
  }

  lemma {:induction false} BookSize(calls: seq<Call>)
    ensures |Book(calls)| == |Registered(calls)|
  {
    if calls != [] { BookSize(calls[..|calls|-1]); }
  }

  lemma {:induction false} LifeOfPrefix(o: Order, events: seq<Event>, more: seq<Event>, n: nat)
    requires n <= |events|
    ensures Life(o, events + more, n) == Life(o, events, n)
  {
    if n > 0 { LifeOfPrefix(o, events, more, n-1); }
  }

  lemma LifeAppend(o: Order, events: seq<Event>, e: Event)
    ensures Life(o, events + [e], |events| + 1) == Stepped(Life(o, events, |events|), e)
  {
    LifeOfPrefix(o, events, [e], |events|);
  }

  lemma {:induction false} LifeKeepsSymbol(o: Order, events: seq<Event>, n: nat)
    requires n <= |events|
    ensures Life(o, events, n).symbol == o.symbol
  {
    if n > 0 { LifeKeepsSymbol(o, events, n-1); }
  }

  /** Over any calls, the order at each position is where its own life, from its registration on, has brought it. */
  lemma {:induction false} BookIsLives(calls: seq<Call>, i: nat)
    requires i < |Registered(calls)|
    ensures |Book(calls)| == |Registered(calls)|
    ensures var o := Registered(calls)[i];
            var events := EventsOf(calls, i, o.symbol);
            Book(calls)[i] == Life(o, events, |events|)
  {
    BookSize(calls);
    var front, c := calls[..|calls|-1], calls[|calls|-1];
    BookSize(front);
    if i < |Registered(front)| {
      BookIsLives(front, i);
      var o := Registered(calls)[i];
      assert o == Registered(front)[i];
      var events := EventsOf(front, i, o.symbol);
      hide Life, Ticked, EventsOf, Registered, Book, PriceFor;
      assert EventsOf(calls, i, o.symbol) == events + EventOf(c, i, o.symbol) by { EventsStep(calls, i, o.symbol); }
      assert Book(calls) == BookStep(Book(front), c) by { BookUnfolds(calls); }
      LifeKeepsSymbol(o, events, |events|);
      if EventOf(c, i, o.symbol) == [] {
        assert events + [] == events;
      } else {
        LifeAppend(o, events, EventOf(c, i, o.symbol)[0]);
        assert EventOf(c, i, o.symbol) == [EventOf(c, i, o.symbol)[0]];
      }
    }
  }

  lemma EventsStep(calls: seq<Call>, i: nat, symbol: string)
    requires calls != [] && i < |Registered(calls[..|calls|-1])|
    ensures EventsOf(calls, i, symbol) == EventsOf(calls[..|calls|-1], i, symbol) + EventOf(calls[|calls|-1], i, symbol)
  {
  }

  lemma BookUnfolds(calls: seq<Call>)
    requires calls != []
    ensures Book(calls) == BookStep(Book(calls[..|calls|-1]), calls[|calls|-1])
  {
  }

  /** Call k makes the manager submit the order at position i. */
  predicate SubmitsIn(calls: seq<Call>, k: nat, i: nat)
    requires k < |calls|
  {
    var book := Book(calls[..k]);
    calls[k].CheckCall? && i < |book| && Fires(book[i], PriceFor(calls[k].prices, book[i].symbol))
  }

  lemma {:induction false} RegisteredPrefix(calls: seq<Call>, k: nat)
    requires k <= |calls|
    ensures Registered(calls[..k]) <= Registered(calls)
  {
    if k < |calls| {
      RegisteredPrefix(calls[..|calls|-1], k);
      assert calls[..|calls|-1][..k] == calls[..k];
    } else {
      assert calls[..k] == calls;
    }
  }

  lemma {:induction false} EventsPrefix(calls: seq<Call>, k: nat, i: nat, symbol: string)
    requires k <= |calls| && i < |Registered(calls[..k])|
    ensures EventsOf(calls[..k], i, symbol) <= EventsOf(calls, i, symbol)
  {
    if k < |calls| {
      var front := calls[..|calls|-1];
      assert front[..k] == calls[..k];
      EventsPrefix(front, k, i, symbol);
      RegisteredPrefix(front, k);
    } else {
      assert calls[..k] == calls;
    }
  }

  /** The events up to and including call k begin those of all calls. */
  lemma EventsAround(calls: seq<Call>, k: nat, i: nat, symbol: string)
    requires k < |calls| && i < |Registered(calls[..k])|
    ensures EventsOf(calls[..k], i, symbol) + EventOf(calls[k], i, symbol) <= EventsOf(calls, i, symbol)
  {
    var next := calls[..k+1];
    assert next[..k] == calls[..k] && next[k] == calls[k];
    RegisteredPrefix(next, k);
    EventsStep(next, i, symbol);
    EventsPrefix(calls, k+1, i, symbol);
  }

  /** The order at position i before call k is where its life was after the events until then. */
  lemma BookAt(calls: seq<Call>, k: nat, i: nat)
    requires k <= |calls| && i < |Registered(calls[..k])|
    ensures i < |Registered(calls)| && i < |Book(calls[..k])|
    ensures var o := Registered(calls)[i];
            var events, at := EventsOf(calls, i, o.symbol), |EventsOf(calls[..k], i, o.symbol)|;
            && at <= |events| && Book(calls[..k])[i] == Life(o, events, at) && Life(o, events, at).symbol == o.symbol
  {
    RegisteredPrefix(calls, k);
    var o := Registered(calls)[i];
    BookIsLives(calls[..k], i);
    EventsPrefix(calls, k, i, o.symbol);
    hide Life, Registered, EventsOf, Book;
    var before, events := EventsOf(calls[..k], i, o.symbol), EventsOf(calls, i, o.symbol);
    assert o == Registered(calls[..k])[i];
    assert events == before + events[|before|..];
    LifeOfPrefix(o, before, events[|before|..], |before|);
    LifeKeepsSymbol(o, events, |before|);
  }

  /** A submission in call k is one of the order's own life, at the event of that call. */
  lemma SubmissionIsLifes(calls: seq<Call>, k: nat, i: nat)
    requires k < |calls| && i < |Registered(calls[..k])|
    ensures i < |Registered(calls)|
    ensures var o := Registered(calls)[i];
            var events, at := EventsOf(calls, i, o.symbol), |EventsOf(calls[..k], i, o.symbol)|;
            && (SubmitsIn(calls, k, i) ==> at < |events| && SubmitsAt(o, events, at))
            && (calls[k] == CancelCall(i) ==> at < |events| && events[at] == CancelOrder)
  {
    BookAt(calls, k, i);
    var o := Registered(calls)[i];
    EventsAround(calls, k, i, o.symbol);
    hide Life, Registered, EventsOf, Fires, Book, PriceFor;
    var before, event, events := EventsOf(calls[..k], i, o.symbol), EventOf(calls[k], i, o.symbol), EventsOf(calls, i, o.symbol);
    assert event != [] ==> |before| < |events| && events[|before|] == event[0];
  }

  /** Whatever the calls, the manager submits each order at most once, and never after cancelling it. */
  lemma ManagerSubmitsAtMostOnce(calls: seq<Call>, k: nat, l: nat, i: nat)
    requires k < l < |calls| && SubmitsIn(calls, l, i)
    ensures !SubmitsIn(calls, k, i)
    ensures i < |Registered(calls[..k])| ==> calls[k] != CancelCall(i)
  {
    BookSize(calls[..k]);
    BookSize(calls[..l]);
    if i < |Registered(calls[..k])| {
      SubmissionIsLifes(calls, k, i);
      SubmissionIsLifes(calls, l, i);
      var o := Registered(calls)[i];
      if SubmitsIn(calls, k, i) || calls[k] == CancelCall(i) {
        EventsGrow(calls, k, l, i, o.symbol);
        SubmitsAtMostOnce(o, EventsOf(calls, i, o.symbol), |EventsOf(calls[..k], i, o.symbol)|, |EventsOf(calls[..l], i, o.symbol)|);
      }
    }
  }

  lemma EventsGrow(calls: seq<Call>, k: nat, l: nat, i: nat, symbol: string)
    requires k < l <= |calls| && i < |Registered(calls[..k])|
    requires EventOf(calls[k], i, symbol) != []
    ensures |EventsOf(calls[..k], i, symbol)| < |EventsOf(calls[..l], i, symbol)|
  {
    var upTo := calls[..l];
    assert upTo[..k+1][..k] == calls[..k] && upTo[..k+1][k] == calls[k];
    RegisteredPrefix(upTo[..k+1], k);
    EventsStep(upTo[..k+1], i, symbol);
    EventsPrefix(upTo, k+1, i, symbol);
  }
}
