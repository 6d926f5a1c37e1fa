/** The staged stop-loss of a plan position: a pure stage evaluator driven by daily quotes. */
module StopLoss {
  import opened Basics

  /** Percentages as configured, e.g. 8.0 for 8%. */
  datatype StopConfig = StopConfig(
    fixedStopPct: real, trailingTriggerPct: real, trailingStopPct: real,
    tightTriggerPct: real, tightStopPct: real, longHoldDays: int, longHoldTrendThreshold: real)

  datatype Trigger = TrendBreak | LongHold | TightStop | TrailingStop | FixedStop
  datatype Verdict = Verdict(stage: int, stop: real, signal: Option<Trigger>)

  datatype Status = HOLDING | PENDING_SELL
  datatype Holding = Holding(costPrice: real, currentPrice: real, peakPrice: real, stopStage: int, stopPrice: real,
                             holdingDays: int, trendScore: Option<real>, signal: Option<Trigger>, status: Status)

  /** Today's market data; a missing entry falls back as the code does. */
  datatype Quote = Quote(currentPrice: Option<real>, ma20: Option<real>, trend: Option<real>)

  function Ticks(x: real): real { RoundHalfEven(x * 10000.0) as real / 10000.0 }

  /** price less pct percent. */
  function Below(price: real, pct: real): real { price * (1.0 - pct / 100.0) }

  function Gain(cost: real, price: real): real {
    if cost > 0.0 then (price - cost) / cost * 100.0 else 0.0
  }

  // ----- the evaluator -----

  /** The stage the peak alone determines. */
  function StageOfPeak(cost: real, peak: real, cfg: StopConfig): int {
    if Gain(cost, peak) >= cfg.tightTriggerPct then 3
    else if Gain(cost, peak) >= cfg.trailingTriggerPct then 2
    else 1
  }

  /** The unrounded stop of a stage below 4. */
  function RawStop(stage: int, cost: real, peak: real, cfg: StopConfig): real {
    if stage == 3 then Below(peak, cfg.tightStopPct)
    else if stage == 2 then Below(peak, cfg.trailingStopPct)
    else Below(cost, cfg.fixedStopPct)
  }

  function EvaluateStopStage(cost: real, current: real, peak: real, holdingDays: int,
                             trend: real, ma20: real, cfg: StopConfig): Verdict {
    if current < ma20 then Verdict(5, current, Some(TrendBreak))
    else if holdingDays >= cfg.longHoldDays && trend < cfg.longHoldTrendThreshold then
      Verdict(4, Ticks(ma20), Some(LongHold))
    else if Gain(cost, peak) >= cfg.tightTriggerPct then
      var trailing := Below(peak, cfg.tightStopPct);
      Verdict(3, Ticks(trailing), if current <= trailing then Some(TightStop) else None)
    else if Gain(cost, peak) >= cfg.trailingTriggerPct then
      var trailing := Below(peak, cfg.trailingStopPct);
      Verdict(2, Ticks(trailing), if current <= trailing then Some(TrailingStop) else None)
    else
      var fixed := Below(cost, cfg.fixedStopPct);
      Verdict(1, Ticks(fixed), if current <= fixed then Some(FixedStop) else None)
  }

  // ----- opening and one day -----

  function Open(price: real, trend: Option<real>, cfg: StopConfig): Holding {
    Holding(price, price, price, 1, Ticks(Below(price, cfg.fixedStopPct)), 0, trend, None, HOLDING)
  }

  function PriceOf(h: Holding, q: Quote): real { if q.currentPrice.Some? then q.currentPrice.value else h.currentPrice }
  function OrZero(x: Option<real>): real { if x.Some? then x.value else 0.0 }
  function PeakWith(h: Holding, price: real): real { if price > h.peakPrice then price else h.peakPrice }

  function VerdictOn(h: Holding, q: Quote, cfg: StopConfig): Verdict {
    var price := PriceOf(h, q);
    var peak := PeakWith(h, price);
    EvaluateStopStage(h.costPrice, price, if peak == 0.0 then price else peak, h.holdingDays + 1,
                      OrZero(q.trend), OrZero(q.ma20), cfg)
  }

  /** One evaluation; only positions still HOLDING are selected. */
  function Evaluated(h: Holding, q: Quote, cfg: StopConfig): Holding {
    if h.status != HOLDING then h else
      var v := VerdictOn(h, q, cfg);
      var trend := OrZero(q.trend);
      Holding(h.costPrice, PriceOf(h, q), PeakWith(h, PriceOf(h, q)),
              if v.stage > h.stopStage then v.stage else h.stopStage,
              if v.stage > h.stopStage then v.stop else h.stopPrice,
              h.holdingDays + 1, if trend != 0.0 then Some(trend) else None,
              if v.signal.Some? then v.signal else h.signal,
              if v.signal.Some? then PENDING_SELL else HOLDING)
  }

  function After(n: nat, h: Holding, quotes: seq<Quote>, cfg: StopConfig): Holding
    requires n <= |quotes|
  {
    if n == 0 then h else Evaluated(After(n-1, h, quotes, cfg), quotes[n-1], cfg)
  }

  // ----- one evaluation, from the percentages and the quote alone -----

  /** The peak is at least pct percent above the cost; without a positive cost the gain counts as zero. */
  predicate GainReaches(cost: real, peak: real, pct: real) {
    if cost > 0.0 then peak >= cost + cost * pct / 100.0 else pct <= 0.0
  }

  /** The stage a peak is in: 3 at the tight trigger, 2 at the trailing one, else 1. */
  predicate StageAtPeak(stage: int, cost: real, peak: real, cfg: StopConfig) {
    if GainReaches(cost, peak, cfg.tightTriggerPct) then stage == 3
    else if GainReaches(cost, peak, cfg.trailingTriggerPct) then stage == 2
    else stage == 1
  }

  /** stop is base less pct percent. */
  predicate IsLess(stop: real, base: real, pct: real) { stop == base - base * pct / 100.0 }

  /** What fires below stage 4: the price has come down to the unrounded stop of the stage. */
  predicate SignalBelow4(signal: Option<Trigger>, stage: int, price: real, stop: real) {
    signal == if price > stop then None
              else Some(if stage == 3 then TightStop else if stage == 2 then TrailingStop else FixedStop)
  }

  /**
   * What the evaluation finds at a price: a trend break, with the price as stop, exactly when the price is below the
   * average; else a long hold, with the rounded average as stop, exactly when the position is held long enough and its
   * trend is under the threshold; else the stage of its peak, with the rounded stop of that stage.
   */
  ghost predicate Finds(v: Verdict, cost: real, price: real, peak: real, days: int, trend: real, ma20: real, cfg: StopConfig) {
    if price < ma20 then v == Verdict(5, price, Some(TrendBreak))
    else if days >= cfg.longHoldDays && trend < cfg.longHoldTrendThreshold then
      v.stage == 4 && Quantized(v.stop, ma20, 10000.0) && v.signal == Some(LongHold)
    else
      && StageAtPeak(v.stage, cost, peak, cfg)
      && exists stop ::
           && (if v.stage == 3 then IsLess(stop, peak, cfg.tightStopPct)
               else if v.stage == 2 then IsLess(stop, peak, cfg.trailingStopPct) else IsLess(stop, cost, cfg.fixedStopPct))
           && Quantized(v.stop, stop, 10000.0) && SignalBelow4(v.signal, v.stage, price, stop)
  }

  /** The price of a quote, or the last one when it has none. */
  predicate QuotedAs(price: real, h: Holding, q: Quote) {
    price == match q.currentPrice case Some(p) => p case None => h.currentPrice
  }

  /** One evaluation of a held position: what it finds raises the stage and its stop, never lowers the stage, and marks a sale. */
  ghost predicate EvaluatesTo(h: Holding, q: Quote, cfg: StopConfig, after: Holding) {
    exists v: Verdict ::
      && QuotedAs(after.currentPrice, h, q)
      && after.peakPrice == (if after.currentPrice > h.peakPrice then after.currentPrice else h.peakPrice)
      && Finds(v, h.costPrice, after.currentPrice, if after.peakPrice == 0.0 then after.currentPrice else after.peakPrice,
               h.holdingDays + 1, if q.trend.Some? then q.trend.value else 0.0, if q.ma20.Some? then q.ma20.value else 0.0, cfg)
      && after.costPrice == h.costPrice && after.holdingDays == h.holdingDays + 1
      && after.trendScore == (if q.trend.Some? && q.trend.value != 0.0 then q.trend else None)
      && (if v.stage > h.stopStage then after.stopStage == v.stage && after.stopPrice == v.stop
          else after.stopStage == h.stopStage && after.stopPrice == h.stopPrice)
      && (if v.signal.Some? then after.status == PENDING_SELL && after.signal == v.signal
          else after.status == HOLDING && after.signal == h.signal)
  }

  lemma TicksQuantized(x: real)
    ensures Quantized(Ticks(x), x, 10000.0)
  {
    assert NearestEven(RoundHalfEven(x * 10000.0), x * 10000.0);
  }

  lemma BelowIsLess(base: real, pct: real)
    ensures IsLess(Below(base, pct), base, pct)
  {
  }

  lemma GainReachesIff(cost: real, peak: real, pct: real)
    ensures Gain(cost, peak) >= pct <==> GainReaches(cost, peak, pct)
  {
    if cost > 0.0 {
      var g := (peak - cost) / cost;
      assert g * cost == peak - cost;
      var x := pct / 100.0;
      assert g * 100.0 >= pct <==> g >= x;
      if g >= x { assert g * cost >= x * cost; } else { assert g * cost < x * cost; }
    }
  }

  lemma EvaluatorFinds(cost: real, price: real, peak: real, days: int, trend: real, ma20: real, cfg: StopConfig)
    ensures Finds(EvaluateStopStage(cost, price, peak, days, trend, ma20, cfg), cost, price, peak, days, trend, ma20, cfg)
  {
    GainReachesIff(cost, peak, cfg.tightTriggerPct);
    GainReachesIff(cost, peak, cfg.trailingTriggerPct);
    BelowIsLess(peak, cfg.tightStopPct);
    BelowIsLess(peak, cfg.trailingStopPct);
    BelowIsLess(cost, cfg.fixedStopPct);
    TicksQuantized(ma20);
    TicksQuantized(Below(peak, cfg.tightStopPct));
    TicksQuantized(Below(peak, cfg.trailingStopPct));
    TicksQuantized(Below(cost, cfg.fixedStopPct));
    hide Gain, GainReaches, Below, IsLess, Ticks, Quantized;
  }

  lemma EvaluatedIs(h: Holding, q: Quote, cfg: StopConfig)
    requires h.status == HOLDING
    ensures EvaluatesTo(h, q, cfg, Evaluated(h, q, cfg))
  {
    var price := PriceOf(h, q);
    var peak := PeakWith(h, price);
    EvaluatorFinds(h.costPrice, price, if peak == 0.0 then price else peak, h.holdingDays + 1,
                   OrZero(q.trend), OrZero(q.ma20), cfg);
    hide EvaluateStopStage, Finds;
    assert Finds(VerdictOn(h, q, cfg), h.costPrice, price, if peak == 0.0 then price else peak, h.holdingDays + 1,
                 OrZero(q.trend), OrZero(q.ma20), cfg);
  }

  /** A position that is no longer held is not evaluated. */
  lemma SoldIsLeftAlone(h: Holding, q: Quote, cfg: StopConfig)
    requires h.status != HOLDING
    ensures Evaluated(h, q, cfg) == h
  {
  }

  /**
   * Every evaluation of every run of a position still held: it becomes a trend break, at stage 5 with the price as stop,
   * exactly when the price is below that quote's average; a long hold, at stage 4 with the rounded average as stop,
   * exactly when it is not, enough days have passed, and the trend is under the threshold; else its stage is that of its peak.
   */
  lemma SellReasons(n: nat, price: real, trend: Option<real>, quotes: seq<Quote>, cfg: StopConfig)
    requires n < |quotes| && price > 0.0 && After(n, Open(price, trend, cfg), quotes, cfg).status == HOLDING
    ensures var start, q := Open(price, trend, cfg), quotes[n];
            var g, h := After(n, start, quotes, cfg), After(n+1, start, quotes, cfg);
            var now := if q.currentPrice.Some? then q.currentPrice.value else g.currentPrice;
            var ma20 := if q.ma20.Some? then q.ma20.value else 0.0;
            var score := if q.trend.Some? then q.trend.value else 0.0;
            var long := now >= ma20 && g.holdingDays + 1 >= cfg.longHoldDays && score < cfg.longHoldTrendThreshold;
            && EvaluatesTo(g, q, cfg, h)
            && (h.signal == Some(TrendBreak) <==> now < ma20)
            && (now < ma20 ==> h.stopStage == 5 && h.stopPrice == now && h.status == PENDING_SELL)
            && (h.signal == Some(LongHold) <==> long)
            && (long ==> h.stopStage == 4 && Quantized(h.stopPrice, ma20, 10000.0) && h.status == PENDING_SELL)
            && (now >= ma20 && !long ==> StageAtPeak(h.stopStage, price, h.peakPrice, cfg))
  {
    var start := Open(price, trend, cfg);
    var g := After(n, start, quotes, cfg);
    StageFollowsPeak(n, price, trend, quotes, cfg);
    StageFollowsPeak(n+1, price, trend, quotes, cfg);
    CostIsKept(n, start, quotes, cfg);
    CostIsKept(n+1, start, quotes, cfg);
    EvaluatedIs(g, quotes[n], cfg);
    var h := After(n+1, start, quotes, cfg);
    assert h == Evaluated(g, quotes[n], cfg);
    GainReachesIff(price, h.peakPrice, cfg.tightTriggerPct);
    GainReachesIff(price, h.peakPrice, cfg.trailingTriggerPct);
    hide Evaluated, After, Gain, GainReaches, Quantized, IsLess, RawStop, Open;
  }

  lemma {:induction false} CostIsKept(n: nat, h: Holding, quotes: seq<Quote>, cfg: StopConfig)
    requires n <= |quotes|
    ensures After(n, h, quotes, cfg).costPrice == h.costPrice
  {
    hide VerdictOn;
    if n > 0 { CostIsKept(n-1, h, quotes, cfg); }
  }

  // ----- stages over a run -----

  lemma GainMonotone(cost: real, p: real, q: real)
    requires p <= q
    ensures Gain(cost, p) <= Gain(cost, q)
  {
    if cost > 0.0 {
      var x, y := (p - cost) / cost, (q - cost) / cost;
      assert x * cost == p - cost && y * cost == q - cost;
      if x > y { assert x * cost > y * cost; }
    }
  }

  /**
   * The state of a position opened at a positive price, after any number of evaluations: stages 4 and 5 are
   * their two sell reasons; below them the stage is that of the peak, and sold means at or under its stop.
   */
  ghost predicate Staged(h: Holding, evaluated: bool, cfg: StopConfig) {
    && 0.0 < h.costPrice <= h.peakPrice && 1 <= h.stopStage <= 5
    && (h.status == PENDING_SELL <==> h.signal.Some?)
    && (h.stopStage == 5 <==> h.signal == Some(TrendBreak))
    && (h.stopStage == 4 <==> h.signal == Some(LongHold))
    && (!evaluated ==> h.stopStage == 1 && h.status == HOLDING)
    && (evaluated && h.stopStage <= 3 ==>
          && h.stopStage == StageOfPeak(h.costPrice, h.peakPrice, cfg)
          && (h.status == PENDING_SELL <==> h.currentPrice <= RawStop(h.stopStage, h.costPrice, h.peakPrice, cfg)))
  }

  lemma EvaluatedStaged(h: Holding, evaluated: bool, q: Quote, cfg: StopConfig)
    requires Staged(h, evaluated, cfg)
    ensures Staged(Evaluated(h, q, cfg), evaluated || h.status == HOLDING, cfg)
    ensures h.stopStage <= Evaluated(h, q, cfg).stopStage
    ensures h.peakPrice <= Evaluated(h, q, cfg).peakPrice
  {
    var peak := PeakWith(h, PriceOf(h, q));
    GainMonotone(h.costPrice, h.peakPrice, peak);
    hide Gain, Below, Ticks;
  }

  /**
   * Over any sequence of quotes: a position still HOLDING is in the stage its peak determines (3 at most),
   * the stage never falls, and stages 4 and 5 occur exactly with a pending sale for their own reason.
   */
  lemma {:induction false} StageFollowsPeak(n: nat, price: real, trend: Option<real>, quotes: seq<Quote>, cfg: StopConfig)
    requires n <= |quotes| && price > 0.0
    ensures Staged(After(n, Open(price, trend, cfg), quotes, cfg), n > 0, cfg)
    ensures var h := After(n, Open(price, trend, cfg), quotes, cfg);
            n > 0 ==> After(n-1, Open(price, trend, cfg), quotes, cfg).stopStage <= h.stopStage
  {
    hide Evaluated, StageOfPeak;
    if n > 0 {
      StageFollowsPeak(n-1, price, trend, quotes, cfg);
      EvaluatedStaged(After(n-1, Open(price, trend, cfg), quotes, cfg), n-1 > 0, quotes[n-1], cfg);
    }
  }

  /** The peak is the maximum of the purchase price and the prices quoted until the sale. */
  lemma {:induction false} PeakIsMaximum(n: nat, price: real, trend: Option<real>, quotes: seq<Quote>, cfg: StopConfig)
    requires n <= |quotes|
    ensures var h := After(n, Open(price, trend, cfg), quotes, cfg);
            && 0 <= h.holdingDays <= n && (h.status == HOLDING ==> h.holdingDays == n)
            && h.currentPrice <= h.peakPrice && price <= h.peakPrice
            && (forall k :: 0 <= k < h.holdingDays && quotes[k].currentPrice.Some? ==> quotes[k].currentPrice.value <= h.peakPrice)
            && (h.peakPrice == price || exists k :: 0 <= k < h.holdingDays && quotes[k].currentPrice == Some(h.peakPrice))
  {
    hide EvaluateStopStage, Ticks, Below;
    if n > 0 {
      PeakIsMaximum(n-1, price, trend, quotes, cfg);
      var g := After(n-1, Open(price, trend, cfg), quotes, cfg);
      if g.status == HOLDING {
        assert PeakWith(g, PriceOf(g, quotes[n-1])) == g.peakPrice
            || quotes[n-1].currentPrice == Some(PeakWith(g, PriceOf(g, quotes[n-1])));
      }
    }
  }

  // ----- the stored stop over a run -----

  lemma TicksMonotone(x: real, y: real)
    requires x <= y
    ensures Ticks(x) <= Ticks(y)
  {
    RoundHalfEvenMonotone(x * 10000.0, y * 10000.0);
  }

  lemma TicksClose(x: real)
    ensures x - 0.00005 <= Ticks(x) <= x + 0.00005
  {
  }

  lemma TicksStrict(x: real, y: real)
    requires x + 0.0001 < y
    ensures Ticks(x) < Ticks(y)
  {
    TicksClose(x);
    TicksClose(y);
  }

  /** How many evaluations it took to enter the stage the position is in after n of them. */
  function EntryDay(n: nat, h: Holding, quotes: seq<Quote>, cfg: StopConfig): (entry: nat)
    requires n <= |quotes|
    ensures entry <= n
  {
    if n == 0 then 0
    else if After(n, h, quotes, cfg).stopStage > After(n-1, h, quotes, cfg).stopStage then n
    else EntryDay(n-1, h, quotes, cfg)
  }

  /** The peak at the evaluation that entered the stage. */
  function EntryPeak(n: nat, h: Holding, quotes: seq<Quote>, cfg: StopConfig): real
    requires n <= |quotes|
  {
    After(EntryDay(n, h, quotes, cfg), h, quotes, cfg).peakPrice
  }

  /** Below stage 4 the stored stop is the rounded stop of the stage at the peak e it was entered with. */
  ghost predicate EnteredWith(h: Holding, e: real, cfg: StopConfig) {
    && h.costPrice <= e <= h.peakPrice
    && (h.stopStage <= 3 ==> h.stopPrice == Ticks(RawStop(h.stopStage, h.costPrice, e, cfg)))
    && (2 <= h.stopStage <= 3 ==> h.stopStage == StageOfPeak(h.costPrice, e, cfg))
  }

  lemma EnteredStep(h: Holding, e: real, evaluated: bool, q: Quote, cfg: StopConfig)
    requires Staged(h, evaluated, cfg) && EnteredWith(h, e, cfg)
    ensures var h' := Evaluated(h, q, cfg);
            EnteredWith(h', if h'.stopStage > h.stopStage then h'.peakPrice else e, cfg)
  {
    hide Gain, Below, Ticks;
  }

  lemma OpenEntered(price: real, trend: Option<real>, cfg: StopConfig)
    ensures EnteredWith(Open(price, trend, cfg), price, cfg)
  {
  }

  /** Over any quotes the stored stop is that of the peak at which the current stage was entered. */
  lemma {:induction false} StopIsEntryStop(n: nat, price: real, trend: Option<real>, quotes: seq<Quote>, cfg: StopConfig)
    requires n <= |quotes| && price > 0.0
    ensures var start := Open(price, trend, cfg);
            EnteredWith(After(n, start, quotes, cfg), EntryPeak(n, start, quotes, cfg), cfg)
  {
    hide Evaluated, EnteredWith, Staged;
    var start := Open(price, trend, cfg);
    if n == 0 {
      OpenEntered(price, trend, cfg);
    } else {
      StopIsEntryStop(n-1, price, trend, quotes, cfg);
      StageFollowsPeak(n-1, price, trend, quotes, cfg);
      EnteredStep(After(n-1, start, quotes, cfg), EntryPeak(n-1, start, quotes, cfg), n-1 > 0, quotes[n-1], cfg);
    }
  }

  /** The peak is still the one of the entry, or was quoted since. */
  lemma {:induction false} PeakSinceEntry(n: nat, price: real, trend: Option<real>, quotes: seq<Quote>, cfg: StopConfig)
    requires n <= |quotes|
    ensures var start := Open(price, trend, cfg);
            var h := After(n, start, quotes, cfg);
            && 0 <= h.holdingDays <= n
            && (h.peakPrice == EntryPeak(n, start, quotes, cfg)
                || exists k :: EntryDay(n, start, quotes, cfg) <= k < h.holdingDays && quotes[k].currentPrice == Some(h.peakPrice))
  {
    hide VerdictOn, Ticks, Below, Open;
    PeakIsMaximum(n, price, trend, quotes, cfg);
    if n > 0 {
      PeakSinceEntry(n-1, price, trend, quotes, cfg);
      PeakIsMaximum(n-1, price, trend, quotes, cfg);
      var g := After(n-1, Open(price, trend, cfg), quotes, cfg);
      if g.status == HOLDING {
        assert PeakWith(g, PriceOf(g, quotes[n-1])) == g.peakPrice
            || quotes[n-1].currentPrice == Some(PeakWith(g, PriceOf(g, quotes[n-1])));
      }
    }
  }

  /** No price quoted since the entry into the stage, up to the sale, exceeds the peak of the entry. */
  ghost predicate NoNewPeak(n: nat, h: Holding, quotes: seq<Quote>, cfg: StopConfig)
    requires n <= |quotes|
  {
    forall k :: EntryDay(n, h, quotes, cfg) <= k < After(n, h, quotes, cfg).holdingDays && k < n && quotes[k].currentPrice.Some? ==>
      quotes[k].currentPrice.value <= EntryPeak(n, h, quotes, cfg)
  }

  /**
   * Inside a stage the stored stop does not follow the peak. It is the stop of today's peak exactly when the
   * two peaks round to the same stop: always when no later quote exceeded the peak of the entry,
   * and not any more once the two stops are more than a tick apart.
   */
  lemma StopFollowsPeakIff(n: nat, price: real, trend: Option<real>, quotes: seq<Quote>, cfg: StopConfig)
    requires n <= |quotes| && price > 0.0
    ensures var start := Open(price, trend, cfg);
            var h, e := After(n, start, quotes, cfg), EntryPeak(n, start, quotes, cfg);
            var was, today := RawStop(h.stopStage, h.costPrice, e, cfg), RawStop(h.stopStage, h.costPrice, h.peakPrice, cfg);
            && (e == h.peakPrice <==> NoNewPeak(n, start, quotes, cfg))
            && (h.stopStage <= 3 ==>
                  && (h.stopPrice == Ticks(today) <==> Ticks(was) == Ticks(today))
                  && (NoNewPeak(n, start, quotes, cfg) ==> h.stopPrice == Ticks(today))
                  && (was + 0.0001 < today ==> h.stopPrice < Ticks(today)))
  {
    var start := Open(price, trend, cfg);
    var h, e := After(n, start, quotes, cfg), EntryPeak(n, start, quotes, cfg);
    StopIsEntryStop(n, price, trend, quotes, cfg);
    PeakSinceEntry(n, price, trend, quotes, cfg);
    PeakIsMaximum(n, price, trend, quotes, cfg);
    hide After, EntryDay, EntryPeak, RawStop, Ticks, StageOfPeak;
    var was, today := RawStop(h.stopStage, h.costPrice, e, cfg), RawStop(h.stopStage, h.costPrice, h.peakPrice, cfg);
    if was + 0.0001 < today { TicksStrict(was, today); }
  }

  const DEFAULTS := StopConfig(8.0, 5.0, 5.0, 10.0, 3.0, 15, 60.0)

  /** A rise to 106 enters stage 2 with the stop at 100.7; a rise to 109 leaves it there, though 5% below 109 is 103.55. */
  lemma StopLags()
    ensures var quotes := [Calm(106.0, DEFAULTS), Calm(109.0, DEFAULTS)];
            var h := After(2, Open(100.0, None, DEFAULTS), quotes, DEFAULTS);
            && h.status == HOLDING && h.stopStage == 2 && h.peakPrice == 109.0 && h.stopPrice == 100.7
            && Ticks(RawStop(2, 100.0, 109.0, DEFAULTS)) == 103.55
  {
    var start, quotes := Open(100.0, None, DEFAULTS), [Calm(106.0, DEFAULTS), Calm(109.0, DEFAULTS)];
    assert After(1, start, quotes, DEFAULTS) == Evaluated(start, quotes[0], DEFAULTS);
    assert Ticks(100.7) == 100.7 && Ticks(103.55) == 103.55;
  }

  lemma BelowMonotone(p: real, q: real, pct: real)
    requires p <= q && pct <= 100.0
    ensures Below(p, pct) <= Below(q, pct)
  {
    var x := 1.0 - pct / 100.0;
    assert p * x <= q * x;
  }

  /** With trailing and tight stops of at most 100% a held position is above its stored stop, up to half a tick of rounding. */
  lemma PriceAboveStop(n: nat, price: real, trend: Option<real>, quotes: seq<Quote>, cfg: StopConfig)
    requires n <= |quotes| && price > 0.0
    requires cfg.trailingStopPct <= 100.0 && cfg.tightStopPct <= 100.0
    requires n == 0 ==> cfg.fixedStopPct > 0.0
    ensures var h := After(n, Open(price, trend, cfg), quotes, cfg);
            h.status == HOLDING ==> h.stopPrice - 0.00005 < h.currentPrice
  {
    var h, e := After(n, Open(price, trend, cfg), quotes, cfg), EntryPeak(n, Open(price, trend, cfg), quotes, cfg);
    StopIsEntryStop(n, price, trend, quotes, cfg);
    StageFollowsPeak(n, price, trend, quotes, cfg);
    BelowMonotone(e, h.peakPrice, cfg.trailingStopPct);
    BelowMonotone(e, h.peakPrice, cfg.tightStopPct);
    TicksClose(RawStop(h.stopStage, h.costPrice, e, cfg));
    if n == 0 {
      BelowIsBelow(price, cfg.fixedStopPct);
    }
    hide Below, Ticks, StageOfPeak;
  }

  // ----- exactly when the stop never falls -----

  /** The n-th evaluation does not lower the stop, unless it enters stage 4 or 5. */
  ghost predicate NoFall(n: nat, price: real, trend: Option<real>, quotes: seq<Quote>, cfg: StopConfig)
    requires n < |quotes|
  {
    var start := Open(price, trend, cfg);
    var before, after := After(n, start, quotes, cfg), After(n+1, start, quotes, cfg);
    after.stopStage <= 3 ==> before.stopPrice <= after.stopPrice
  }

  /** price plus pct percent. */
  function Above(price: real, pct: real): real { price * (1.0 + pct / 100.0) }

  /** The lowest peak, per unit of cost, with a gain of at least pct. */
  function Reach(pct: real): (r: real)
    ensures r >= 1.0
  {
    if pct > 0.0 then Above(1.0, pct) else 1.0
  }

  /** Some peak is in stage 2. */
  predicate HasStage2(cfg: StopConfig) {
    cfg.trailingTriggerPct < cfg.tightTriggerPct && cfg.tightTriggerPct > 0.0
  }

  /** The stop of a stage is never below the one it replaces, per unit of cost, at any peaks that lead there. */
  predicate NeverFalls(cfg: StopConfig) {
    var fixed, trailing, tight := Below(1.0, cfg.fixedStopPct), Below(1.0, cfg.trailingStopPct), Below(1.0, cfg.tightStopPct);
    var lo, hi := Reach(cfg.trailingTriggerPct), Reach(cfg.tightTriggerPct);
    && tight >= 0.0 && hi * tight >= fixed
    && (HasStage2(cfg) ==> lo * trailing >= fixed && hi * trailing >= fixed && (trailing < 1.0 ==> trailing <= tight))
  }

  lemma GainMeansAbove(cost: real, price: real, pct: real)
    requires cost > 0.0
    ensures Gain(cost, price) >= pct <==> price >= Above(cost, pct)
  {
    var g := (price - cost) / cost;
    assert g * cost == price - cost;
    var p := pct / 100.0;
    assert g * 100.0 >= pct <==> g >= p;
    if g >= p { assert g * cost >= p * cost; } else { assert g * cost < p * cost; }
    assert Above(cost, pct) == cost + p * cost;
  }

  predicate Reached(cost: real, peak: real, pct: real) { peak >= cost * Reach(pct) }

  lemma GainMeansReach(cost: real, price: real, pct: real)
    requires 0.0 < cost <= price
    ensures Gain(cost, price) >= pct <==> Reached(cost, price, pct)
    ensures Gain(cost, price) >= 0.0
  {
    GainMeansAbove(cost, price, pct);
    GainMeansAbove(cost, price, 0.0);
    assert Above(cost, pct) == cost * Above(1.0, pct);
  }

  lemma BelowIsProduct(price: real, pct: real)
    ensures Below(price, pct) == price * Below(1.0, pct)
  {
  }

  lemma ScaledUp(cost: real, q: real, factor: real, x: real, y: real)
    requires cost > 0.0 && q >= cost * factor && y >= 0.0 && factor * y >= x
    ensures cost * x <= q * y
  {
    assert cost * x <= cost * (factor * y) == cost * factor * y;
    assert cost * factor * y <= q * y;
  }

  /** Stage 1 to stage 3. */
  lemma FixedToTight(cost: real, q: real, cfg: StopConfig)
    requires cost > 0.0 && Reached(cost, q, cfg.tightTriggerPct) && NeverFalls(cfg)
    ensures Below(cost, cfg.fixedStopPct) <= Below(q, cfg.tightStopPct)
  {
    BelowIsProduct(cost, cfg.fixedStopPct);
    BelowIsProduct(q, cfg.tightStopPct);
    hide Below, Reach;
    ScaledUp(cost, q, Reach(cfg.tightTriggerPct), Below(1.0, cfg.fixedStopPct), Below(1.0, cfg.tightStopPct));
  }

  /** Stage 1 to stage 2. */
  lemma FixedToTrailing(cost: real, q: real, cfg: StopConfig)
    requires cost > 0.0 && Reached(cost, q, cfg.trailingTriggerPct) && !Reached(cost, q, cfg.tightTriggerPct)
    requires HasStage2(cfg) && NeverFalls(cfg)
    ensures Below(cost, cfg.fixedStopPct) <= Below(q, cfg.trailingStopPct)
  {
    var lo, hi := Reach(cfg.trailingTriggerPct), Reach(cfg.tightTriggerPct);
    var fixed, trailing := Below(1.0, cfg.fixedStopPct), Below(1.0, cfg.trailingStopPct);
    BelowIsProduct(cost, cfg.fixedStopPct);
    BelowIsProduct(q, cfg.trailingStopPct);
    hide Below, Reach;
    if trailing >= 0.0 {
      ScaledUp(cost, q, lo, fixed, trailing);
    } else {
      assert cost * fixed <= cost * (hi * trailing) == cost * hi * trailing;
      assert cost * hi * trailing <= q * trailing;
    }
  }

  /** Stage 2 to stage 3. */
  lemma TrailingToTight(e: real, q: real, cfg: StopConfig)
    requires 0.0 < e <= q && HasStage2(cfg) && NeverFalls(cfg) && Below(1.0, cfg.trailingStopPct) < 1.0
    ensures Below(e, cfg.trailingStopPct) <= Below(q, cfg.tightStopPct)
  {
    var trailing, tight := Below(1.0, cfg.trailingStopPct), Below(1.0, cfg.tightStopPct);
    assert trailing <= tight && 0.0 <= tight;
    BelowIsProduct(e, cfg.trailingStopPct);
    BelowIsProduct(q, cfg.tightStopPct);
    hide Below, Reach, NeverFalls;
    if trailing >= 0.0 {
      assert e * trailing <= q * trailing <= q * tight;
    } else {
      assert e * trailing <= 0.0 <= q * tight;
    }
  }

  /** Entering stage next at peak q from an earlier stage entered at peak e does not lower the unrounded stop. */
  lemma EntryRises(cost: real, e: real, q: real, stage: int, cfg: StopConfig)
    requires NeverFalls(cfg) && 0.0 < cost <= e <= q
    requires stage == 1 || (stage == 2 && StageOfPeak(cost, e, cfg) == 2 && Below(1.0, cfg.trailingStopPct) < 1.0)
    requires stage < StageOfPeak(cost, q, cfg)
    ensures RawStop(stage, cost, e, cfg) <= RawStop(StageOfPeak(cost, q, cfg), cost, q, cfg)
  {
    hide Gain, Below, Reach, Reached, NeverFalls;
    GainMeansReach(cost, e, cfg.tightTriggerPct);
    GainMeansReach(cost, q, cfg.tightTriggerPct);
    GainMeansReach(cost, q, cfg.trailingTriggerPct);
    if stage == 2 {
      TrailingToTight(e, q, cfg);
    } else if StageOfPeak(cost, q, cfg) == 3 {
      FixedToTight(cost, q, cfg);
    } else {
      FixedToTrailing(cost, q, cfg);
    }
  }

  /** A position held in stage 2 is above its stop, so the stop keeps less than the whole peak. */
  lemma HeldInStage2(peak: real, current: real, pct: real)
    requires 0.0 < peak && Below(peak, pct) < current <= peak
    ensures Below(1.0, pct) < 1.0
  {
    var x := Below(1.0, pct);
    assert Below(peak, pct) == peak * x;
    assert x >= 1.0 ==> peak * x >= peak;
  }

  lemma NeverFallsHolds(n: nat, price: real, trend: Option<real>, quotes: seq<Quote>, cfg: StopConfig)
    requires n < |quotes| && price > 0.0 && NeverFalls(cfg)
    ensures NoFall(n, price, trend, quotes, cfg)
  {
    var start := Open(price, trend, cfg);
    var g, h, e := After(n, start, quotes, cfg), After(n+1, start, quotes, cfg), EntryPeak(n, start, quotes, cfg);
    StopIsEntryStop(n, price, trend, quotes, cfg);
    StopIsEntryStop(n+1, price, trend, quotes, cfg);
    StageFollowsPeak(n, price, trend, quotes, cfg);
    PeakIsMaximum(n, price, trend, quotes, cfg);
    StepFacts(n, price, trend, quotes, cfg);
    hide After, Open, RawStop, StageOfPeak, Ticks, NeverFalls, Staged, EnteredWith, EntryPeak;
    if h.stopStage <= 3 && h.stopStage > g.stopStage {
      RiseDoesNotLower(g, h, e, n > 0, cfg);
    }
  }

  lemma RiseDoesNotLower(g: Holding, h: Holding, e: real, evaluated: bool, cfg: StopConfig)
    requires NeverFalls(cfg) && Staged(g, evaluated, cfg) && EnteredWith(g, e, cfg) && EnteredWith(h, h.peakPrice, cfg)
    requires g.status == HOLDING && g.currentPrice <= g.peakPrice <= h.peakPrice && g.costPrice == h.costPrice
    requires g.stopStage < h.stopStage <= 3
    ensures g.stopPrice <= h.stopPrice
  {
    hide RawStop, StageOfPeak, Ticks, NeverFalls;
    if g.stopStage == 2 { HeldAbove(g, evaluated, cfg); }
    EntryRises(g.costPrice, e, h.peakPrice, g.stopStage, cfg);
    TicksMonotone(RawStop(g.stopStage, g.costPrice, e, cfg), RawStop(h.stopStage, h.costPrice, h.peakPrice, cfg));
  }

  lemma HeldAbove(g: Holding, evaluated: bool, cfg: StopConfig)
    requires Staged(g, evaluated, cfg) && g.stopStage == 2 && g.status == HOLDING && g.currentPrice <= g.peakPrice
    ensures Below(1.0, cfg.trailingStopPct) < 1.0
  {
    HeldInStage2(g.peakPrice, g.currentPrice, cfg.trailingStopPct);
  }

  /** What one evaluation of a run leaves alone. */
  lemma StepFacts(n: nat, price: real, trend: Option<real>, quotes: seq<Quote>, cfg: StopConfig)
    requires n < |quotes|
    ensures var start := Open(price, trend, cfg);
            var g, h := After(n, start, quotes, cfg), After(n+1, start, quotes, cfg);
            && h.costPrice == g.costPrice && g.peakPrice <= h.peakPrice
            && (h.stopStage == g.stopStage ==> h.stopPrice == g.stopPrice)
            && (h.stopStage != g.stopStage ==> g.status == HOLDING && h.stopStage > g.stopStage)
            && (h.stopStage > g.stopStage ==> EntryPeak(n+1, start, quotes, cfg) == h.peakPrice)
  {
    hide EvaluateStopStage;
  }

  // ----- a fall whenever the condition fails -----

  /** A quote that leaves stages 4 and 5 out of play. */
  function Calm(price: real, cfg: StopConfig): Quote { Quote(Some(price), None, Some(cfg.longHoldTrendThreshold)) }

  /** A calm quote at the peak that reaches a higher stage sets the stop of that stage. */
  lemma CalmRise(h: Holding, price: real, stage: int, cfg: StopConfig)
    requires h.status == HOLDING && 0.0 < h.peakPrice <= price
    requires stage == StageOfPeak(h.costPrice, price, cfg) && stage > h.stopStage
    ensures var h' := Evaluated(h, Calm(price, cfg), cfg);
            && h'.stopStage == stage && h'.stopPrice == Ticks(RawStop(stage, h.costPrice, price, cfg))
            && h'.peakPrice == price && h'.costPrice == h.costPrice
            && (RawStop(stage, h.costPrice, price, cfg) < price ==> h'.status == HOLDING)
  {
    hide Gain, Below, Ticks;
  }

  /** The factor on the cost at which the stage is 2, or 3. */
  predicate Enters(factor: real, stage: int, cfg: StopConfig) {
    var lo, hi := Reach(cfg.trailingTriggerPct), Reach(cfg.tightTriggerPct);
    if stage == 3 then factor >= hi else stage == 2 && HasStage2(cfg) && lo <= factor < hi
  }

  lemma StageAt(cost: real, factor: real, stage: int, cfg: StopConfig)
    requires cost > 0.0 && Enters(factor, stage, cfg)
    ensures factor >= 1.0 && cost * factor >= cost && StageOfPeak(cost, cost * factor, cfg) == stage
  {
    assert cost * factor >= cost * 1.0;
    GainMeansReach(cost, cost * factor, cfg.tightTriggerPct);
    GainMeansReach(cost, cost * factor, cfg.trailingTriggerPct);
    Factors(cost, factor, Reach(cfg.tightTriggerPct));
    Factors(cost, factor, Reach(cfg.trailingTriggerPct));
    hide Gain, Reach;
  }

  lemma Factors(cost: real, a: real, b: real)
    requires cost > 0.0
    ensures cost * a >= cost * b <==> a >= b
  {
    if a >= b { assert cost * a >= cost * b; } else { assert cost * a < cost * b; }
  }

  function StagePct(stage: int, cfg: StopConfig): real {
    if stage == 3 then cfg.tightStopPct else cfg.trailingStopPct
  }

  lemma BelowIsBelow(p: real, pct: real)
    requires p > 0.0 && pct > 0.0
    ensures Below(p, pct) < p
  {
    assert p * (pct / 100.0) > 0.0;
    assert Below(p, pct) == p - p * (pct / 100.0);
  }

  /** Prices can be chosen so high that a fall per unit of cost shows after rounding. */
  lemma ShowsAfterRounding(low: real, lowPct: real, high: real, highPct: real, gap: real) returns (price: real)
    requires gap > 0.0 && low * Below(1.0, lowPct) + gap <= high * Below(1.0, highPct)
    ensures price > 0.0 && Ticks(Below(price * low, lowPct)) < Ticks(Below(price * high, highPct))
  {
    price := 1.0 / gap;
    assert price * gap == 1.0;
    BelowIsProduct(price * low, lowPct);
    BelowIsProduct(price * high, highPct);
    Apart(price, low, Below(1.0, lowPct), high, Below(1.0, highPct), gap);
    hide Below;
    TicksStrict(price * low * Below(1.0, lowPct), price * high * Below(1.0, highPct));
  }

  lemma Apart(price: real, a: real, x: real, b: real, y: real, gap: real)
    requires price > 0.0 && price * gap == 1.0 && a * x + gap <= b * y
    ensures price * a * x + 1.0 <= price * b * y
  {
    assert price * (a * x + gap) <= price * (b * y);
    assert price * (a * x + gap) == price * a * x + price * gap;
    assert price * (b * y) == price * b * y;
  }

  /** One rise, straight from stage 1. */
  lemma FallsFromFixed(factor: real, stage: int, gap: real, cfg: StopConfig) returns (price: real, quotes: seq<Quote>)
    requires Enters(factor, stage, cfg) && gap > 0.0
    requires factor * Below(1.0, StagePct(stage, cfg)) + gap <= Below(1.0, cfg.fixedStopPct)
    ensures price > 0.0 && |quotes| == 1 && !NoFall(0, price, None, quotes, cfg)
  {
    assert stage <= 3;
    hide Ticks, Below, Enters, After, Calm, Open;
    price := ShowsAfterRounding(factor, StagePct(stage, cfg), 1.0, cfg.fixedStopPct, gap);
    assert price * 1.0 == price;
    quotes := [Calm(price * factor, cfg)];
    OneRise(price, factor, stage, cfg);
  }

  lemma OneRise(price: real, factor: real, stage: int, cfg: StopConfig)
    requires price > 0.0 && Enters(factor, stage, cfg)
    ensures var start, quotes := Open(price, None, cfg), [Calm(price * factor, cfg)];
            && start.stopPrice == Ticks(Below(price, cfg.fixedStopPct))
            && After(0, start, quotes, cfg) == start
            && After(1, start, quotes, cfg).stopPrice == Ticks(Below(price * factor, StagePct(stage, cfg)))
            && After(1, start, quotes, cfg).stopStage == stage
  {
    StageAt(price, factor, stage, cfg);
    assert stage == 2 || stage == 3;
    hide *;
    CalmRiseFromOpen(price, price * factor, stage, cfg);
  }

  lemma CalmRiseFromOpen(price: real, peak: real, stage: int, cfg: StopConfig)
    requires 0.0 < price <= peak && StageOfPeak(price, peak, cfg) == stage && 2 <= stage <= 3
    ensures var start, quotes := Open(price, None, cfg), [Calm(peak, cfg)];
            && start.stopPrice == Ticks(Below(price, cfg.fixedStopPct))
            && After(0, start, quotes, cfg) == start
            && After(1, start, quotes, cfg).stopPrice == Ticks(Below(peak, StagePct(stage, cfg)))
            && After(1, start, quotes, cfg).stopStage == stage
  {
    var start, quotes := Open(price, None, cfg), [Calm(peak, cfg)];
    hide Ticks, Below, StageOfPeak;
    CalmRise(start, peak, stage, cfg);
    hide Evaluated, Calm;
    assert After(0, start, quotes, cfg) == start;
    assert After(1, start, quotes, cfg) == Evaluated(start, quotes[0], cfg);
  }

  /** A rise into stage 2 and one into stage 3. */
  lemma FallsFromTrailing(factor: real, next: real, gap: real, cfg: StopConfig) returns (price: real, quotes: seq<Quote>)
    requires Enters(factor, 2, cfg) && Enters(next, 3, cfg) && gap > 0.0 && Below(1.0, cfg.trailingStopPct) < 1.0
    requires next * Below(1.0, cfg.tightStopPct) + gap <= factor * Below(1.0, cfg.trailingStopPct)
    ensures price > 0.0 && |quotes| == 2 && !NoFall(1, price, None, quotes, cfg)
  {
    hide Below, Ticks, Enters, After;
    price := ShowsAfterRounding(next, cfg.tightStopPct, factor, cfg.trailingStopPct, gap);
    quotes := [Calm(price * factor, cfg), Calm(price * next, cfg)];
    TwoRises(price, factor, next, cfg);
  }

  lemma TwoRises(price: real, factor: real, next: real, cfg: StopConfig)
    requires price > 0.0 && Enters(factor, 2, cfg) && Enters(next, 3, cfg) && Below(1.0, cfg.trailingStopPct) < 1.0
    ensures var start, quotes := Open(price, None, cfg), [Calm(price * factor, cfg), Calm(price * next, cfg)];
            && After(1, start, quotes, cfg).stopPrice == Ticks(Below(price * factor, cfg.trailingStopPct))
            && After(2, start, quotes, cfg).stopPrice == Ticks(Below(price * next, cfg.tightStopPct))
            && After(2, start, quotes, cfg).stopStage == 3
  {
    StageAt(price, factor, 2, cfg);
    StageAt(price, next, 3, cfg);
    assert 1.0 <= factor <= next;
    PricesRise(price, factor, next);
    BelowIsBelow(price * factor, cfg.trailingStopPct);
    hide *;
    CalmRises(price, price * factor, price * next, cfg);
  }

  lemma PricesRise(price: real, a: real, b: real)
    requires price > 0.0 && 1.0 <= a <= b
    ensures price <= price * a <= price * b
  {
  }

  lemma CalmRises(price: real, first: real, second: real, cfg: StopConfig)
    requires 0.0 < price <= first <= second && Below(first, cfg.trailingStopPct) < first
    requires StageOfPeak(price, first, cfg) == 2 && StageOfPeak(price, second, cfg) == 3
    ensures var start, quotes := Open(price, None, cfg), [Calm(first, cfg), Calm(second, cfg)];
            && After(1, start, quotes, cfg).stopPrice == Ticks(Below(first, cfg.trailingStopPct))
            && After(2, start, quotes, cfg).stopPrice == Ticks(Below(second, cfg.tightStopPct))
            && After(2, start, quotes, cfg).stopStage == 3
  {
    hide StageOfPeak, Below, Ticks;
    var start := Open(price, None, cfg);
    CalmRise(start, first, 2, cfg);
    var one := Evaluated(start, Calm(first, cfg), cfg);
    CalmRise(one, second, 3, cfg);
    hide Evaluated, Calm, Open;
    var quotes := [Calm(first, cfg), Calm(second, cfg)];
    assert After(0, start, quotes, cfg) == start;
    assert After(1, start, quotes, cfg) == one;
    assert After(2, start, quotes, cfg) == Evaluated(one, quotes[1], cfg);
  }

  /** A factor below hi, from lo on, so close to hi that its product with x is within room of hi's. */
  lemma JustBelow(lo: real, hi: real, x: real, room: real) returns (factor: real)
    requires lo < hi && room > 0.0
    ensures lo <= factor < hi && hi * x - room <= factor * x <= hi * x + room
  {
    var size := if x >= 0.0 then x + 1.0 else 1.0 - x;
    assert size >= 1.0 && -size <= x <= size;
    var s := room / size;
    assert s * size == room && s > 0.0;
    var step := if hi - lo < s then hi - lo else s;
    factor := hi - step;
    assert step * size <= s * size;
    assert factor * x == hi * x - step * x;
    Within(step, x, size);
  }

  lemma Within(step: real, x: real, size: real)
    requires step >= 0.0 && -size <= x <= size
    ensures -(step * size) <= step * x <= step * size
  {
  }

  /** Whenever the condition fails, some run lowers the stop. */
  lemma FallExists(cfg: StopConfig) returns (n: nat, price: real, quotes: seq<Quote>)
    requires !NeverFalls(cfg)
    ensures price > 0.0 && n < |quotes| && !NoFall(n, price, None, quotes, cfg)
  {
    var fixed, trailing, tight := Below(1.0, cfg.fixedStopPct), Below(1.0, cfg.trailingStopPct), Below(1.0, cfg.tightStopPct);
    var lo, hi := Reach(cfg.trailingTriggerPct), Reach(cfg.tightTriggerPct);
    hide Below, NoFall, Reach;
    n := 0;
    if tight < 0.0 {
      var factor := FarEnough(hi, tight, fixed);
      price, quotes := FallsFromFixed(factor, 3, 1.0, cfg);
    } else if hi * tight < fixed {
      price, quotes := FallsFromFixed(hi, 3, fixed - hi * tight, cfg);
    } else if lo * trailing < fixed || hi * trailing < fixed {
      hide NeverFalls;
      price, quotes := FallsInStage2(cfg);
    } else {
      assert tight < trailing < 1.0;
      hide NeverFalls;
      n := 1;
      price, quotes := FallsInStage3(cfg);
    }
  }

  lemma FallsInStage2(cfg: StopConfig) returns (price: real, quotes: seq<Quote>)
    requires HasStage2(cfg)
    requires Reach(cfg.trailingTriggerPct) * Below(1.0, cfg.trailingStopPct) < Below(1.0, cfg.fixedStopPct)
          || Reach(cfg.tightTriggerPct) * Below(1.0, cfg.trailingStopPct) < Below(1.0, cfg.fixedStopPct)
    ensures price > 0.0 && |quotes| == 1 && !NoFall(0, price, None, quotes, cfg)
  {
    var fixed, trailing := Below(1.0, cfg.fixedStopPct), Below(1.0, cfg.trailingStopPct);
    var lo, hi := Reach(cfg.trailingTriggerPct), Reach(cfg.tightTriggerPct);
    ReachesApart(cfg);
    hide Below, NoFall, Reach;
    if lo * trailing < fixed {
      price, quotes := FallsFromFixed(lo, 2, fixed - lo * trailing, cfg);
    } else {
      var gap := (fixed - hi * trailing) / 2.0;
      var factor := JustBelow(lo, hi, trailing, gap);
      price, quotes := FallsFromFixed(factor, 2, gap, cfg);
    }
  }

  lemma FallsInStage3(cfg: StopConfig) returns (price: real, quotes: seq<Quote>)
    requires HasStage2(cfg) && Below(1.0, cfg.tightStopPct) < Below(1.0, cfg.trailingStopPct) < 1.0
    ensures price > 0.0 && |quotes| == 2 && !NoFall(1, price, None, quotes, cfg)
  {
    var trailing, tight := Below(1.0, cfg.trailingStopPct), Below(1.0, cfg.tightStopPct);
    var lo, hi := Reach(cfg.trailingTriggerPct), Reach(cfg.tightTriggerPct);
    ReachesApart(cfg);
    hide Below, NoFall, Reach;
    TighterIsLower(hi, tight, trailing);
    var gap := (hi * trailing - hi * tight) / 2.0;
    var factor := JustBelow(lo, hi, trailing, gap);
    price, quotes := FallsFromTrailing(factor, hi, gap, cfg);
  }

  lemma ReachesApart(cfg: StopConfig)
    requires HasStage2(cfg)
    ensures Reach(cfg.trailingTriggerPct) < Reach(cfg.tightTriggerPct)
  {
  }

  lemma TighterIsLower(hi: real, a: real, b: real)
    requires hi >= 1.0 && a < b
    ensures hi * a < hi * b
  {
  }

  /** With a negative multiplier a peak can be so high that its stop is far below any value. */
  lemma FarEnough(hi: real, x: real, value: real) returns (factor: real)
    requires hi >= 1.0 && x < 0.0
    ensures factor >= hi && factor * x + 1.0 <= value
  {
    var depth := if value >= 0.0 then 1.0 else 1.0 - value;
    var more := depth / -x;
    assert more * -x == depth && more >= 0.0;
    factor := hi + more;
    assert factor * x == hi * x - depth;
    assert hi * x <= 0.0;
  }

  /** For every configuration: over all prices and quotes the stop never falls exactly when NeverFalls says so. */
  lemma StopNeverFallsIff(cfg: StopConfig)
    ensures NeverFalls(cfg) <==>
            forall n: nat, price: real, trend: Option<real>, quotes: seq<Quote> :: price > 0.0 && n < |quotes| ==> NoFall(n, price, trend, quotes, cfg)
  {
    hide NeverFalls, NoFall;
    if NeverFalls(cfg) {
      forall n: nat, price: real, trend: Option<real>, quotes: seq<Quote> | price > 0.0 && n < |quotes|
        ensures NoFall(n, price, trend, quotes, cfg)
      {
        NeverFallsHolds(n, price, trend, quotes, cfg);
      }
    } else {
      var n, price, quotes := FallExists(cfg);
    }
  }

  // ----- the usual configurations -----

  /** The trailing stop at its trigger is not below the fixed stop, and the tight stop is no looser than the trailing one. */
  predicate Ratchets(cfg: StopConfig) {
    && Below(Above(1.0, cfg.trailingTriggerPct), cfg.trailingStopPct) >= Below(1.0, cfg.fixedStopPct)
    && cfg.tightStopPct <= cfg.trailingStopPct
  }

  /** With the triggers in order, ratcheting percentages suffice. */
  lemma RatchetsSuffice(cfg: StopConfig)
    requires cfg.trailingTriggerPct <= cfg.tightTriggerPct && cfg.trailingStopPct <= 100.0
    requires Ratchets(cfg)
    ensures NeverFalls(cfg)
  {
    var trailing, tight := Below(1.0, cfg.trailingStopPct), Below(1.0, cfg.tightStopPct);
    var at, lo, hi := Above(1.0, cfg.trailingTriggerPct), Reach(cfg.trailingTriggerPct), Reach(cfg.tightTriggerPct);
    BelowIsProduct(at, cfg.trailingStopPct);
    assert 0.0 <= trailing <= tight && at <= lo <= hi;
    hide Below, Reach, Above;
    ProductsRise(at, lo, hi, trailing, tight);
    assert at * trailing >= Below(1.0, cfg.fixedStopPct);
    assert lo * trailing >= Below(1.0, cfg.fixedStopPct);
    assert hi * trailing >= Below(1.0, cfg.fixedStopPct);
    assert hi * tight >= Below(1.0, cfg.fixedStopPct);
  }

  lemma ProductsRise(a: real, b: real, c: real, x: real, y: real)
    requires 0.0 <= x <= y && a <= b <= c && c >= 0.0
    ensures a * x <= b * x <= c * x <= c * y
  {
  }

  /** With positive triggers that differ they are needed too. */
  lemma RatchetsNeeded(cfg: StopConfig)
    requires 0.0 < cfg.trailingTriggerPct < cfg.tightTriggerPct && 0.0 < cfg.trailingStopPct
    requires NeverFalls(cfg)
    ensures Ratchets(cfg)
  {
    BelowIsProduct(Above(1.0, cfg.trailingTriggerPct), cfg.trailingStopPct);
    assert Reach(cfg.trailingTriggerPct) == Above(1.0, cfg.trailingTriggerPct);
    hide Reach, Above;
  }

  /**
   * Over any sequence of quotes, with ratcheting percentages and the triggers in order: the stored stop never
   * falls as long as the stage is below 4, and a position still held is above it, up to half a tick of rounding.
   */
  lemma StopNeverFalls(n: nat, price: real, trend: Option<real>, quotes: seq<Quote>, cfg: StopConfig)
    requires n < |quotes| && price > 0.0 && Ratchets(cfg)
    requires cfg.trailingTriggerPct <= cfg.tightTriggerPct && cfg.trailingStopPct <= 100.0
    ensures NoFall(n, price, trend, quotes, cfg)
    ensures var h := After(n+1, Open(price, trend, cfg), quotes, cfg);
            h.status == HOLDING ==> h.stopPrice - 0.00005 < h.currentPrice
  {
    RatchetsSuffice(cfg);
    NeverFallsHolds(n, price, trend, quotes, cfg);
    PriceAboveStop(n+1, price, trend, quotes, cfg);
  }

  const SWAPPED := StopConfig(8.0, 10.0, 15.0, 5.0, 14.0, 60, 50.0)

  /** With the tight trigger below the trailing one, ratcheting percentages do not help: at +5% the stop falls from 92.0 to 90.3. */
  lemma SwappedTriggersFall()
    ensures Ratchets(SWAPPED) && !NoFall(0, 100.0, None, [Calm(105.0, SWAPPED)], SWAPPED)
  {
    var start, quotes := Open(100.0, None, SWAPPED), [Calm(105.0, SWAPPED)];
    assert After(1, start, quotes, SWAPPED) == Evaluated(start, quotes[0], SWAPPED);
    assert Ticks(92.0) == 92.0 && Ticks(90.3) == 90.3;
  }

  // ----- the positions of a plan, evaluated in place -----

  class PlanPosition {
    const symbol: string
    const costPrice: real
    var currentPrice: real
    var peakPrice: real
    var stopStage: int
    var stopPrice: real
    var holdingDays: int
    var latestTrendScore: Option<real>
    var sellSignal: Option<Trigger>
    var status: Status

    function View(): Holding
      reads this
    {
      Holding(costPrice, currentPrice, peakPrice, stopStage, stopPrice, holdingDays, latestTrendScore, sellSignal, status)
    }

    /** The position created by a buy. */
    constructor (symbol: string, buyPrice: real, trend: Option<real>, cfg: StopConfig)
      ensures View() == Open(buyPrice, trend, cfg) && this.symbol == symbol
      ensures exists stop, raw :: IsLess(raw, buyPrice, cfg.fixedStopPct) && Quantized(stop, raw, 10000.0)
                                  && View() == Holding(buyPrice, buyPrice, buyPrice, 1, stop, 0, trend, None, HOLDING)
    {
      BelowIsLess(buyPrice, cfg.fixedStopPct);
      TicksQuantized(Below(buyPrice, cfg.fixedStopPct));
      this.symbol, costPrice, currentPrice, peakPrice := symbol, buyPrice, buyPrice, buyPrice;
      stopStage, stopPrice := 1, Ticks(Below(buyPrice, cfg.fixedStopPct));
      holdingDays, latestTrendScore, sellSignal, status := 0, trend, None, HOLDING;
    }

    method Evaluate(q: Quote, cfg: StopConfig) returns (fired: bool)
      requires status == HOLDING
      modifies this
      ensures View() == Evaluated(old(View()), q, cfg)
      ensures EvaluatesTo(old(View()), q, cfg, View())
      ensures fired <==> status == PENDING_SELL
    {
      EvaluateFields(q, cfg);
      hide EvaluateStopStage, OrZero, EvaluatesTo, Evaluated;
      EvaluatedIs(old(View()), q, cfg);
      fired := status == PENDING_SELL;
    }

    /** The assignments of an evaluation. */
    method EvaluateFields(q: Quote, cfg: StopConfig)
      requires status == HOLDING
      modifies this
      ensures View() == Evaluated(old(View()), q, cfg)
    {
      hide EvaluateStopStage, Ticks, Below, OrZero;
      var price := if q.currentPrice.Some? then q.currentPrice.value else currentPrice;
      if price > peakPrice {
        peakPrice := price;
      }
      var v := EvaluateStopStage(costPrice, price, if peakPrice == 0.0 then price else peakPrice, holdingDays + 1,
                                 OrZero(q.trend), OrZero(q.ma20), cfg);
      currentPrice := price;
      holdingDays := holdingDays + 1;
      latestTrendScore := if OrZero(q.trend) != 0.0 then Some(OrZero(q.trend)) else None;
      if v.stage > stopStage {
        stopStage := v.stage;
        stopPrice := v.stop;
      }
      if v.signal.Some? {
        sellSignal := v.signal;
        status := PENDING_SELL;
      }
    }
  }

  function QuoteFor(market: map<string, Quote>, symbol: string): Quote {
    if symbol in market then market[symbol] else Quote(None, None, None)
  }

  function Next(p: PlanPosition, was: Holding, market: map<string, Quote>, cfg: StopConfig): Holding {
    Evaluated(was, QuoteFor(market, p.symbol), cfg)
  }

  /** In a plan, the held positions of an active one are evaluated with the quote of their symbol, if any; the rest stay. */
  lemma NextOfPlanIs(plan: Plan, was: seq<Holding>, market: map<string, Quote>, i: nat)
    requires |was| == |plan.positions| && i < |was|
    ensures var now, symbol := NextAll(plan, was, market)[i], plan.positions[i].symbol;
            if plan.active && was[i].status == HOLDING then
              EvaluatesTo(was[i], if symbol in market then market[symbol] else Quote(None, None, None), plan.cfg, now)
            else now == was[i]
  {
    hide Evaluated, EvaluatesTo;
    var q := QuoteFor(market, plan.positions[i].symbol);
    if was[i].status == HOLDING { EvaluatedIs(was[i], q, plan.cfg); } else { SoldStays(was[i], q, plan.cfg); }
  }

  /** How many positions an evaluation selects, and how many of those it marks for sale. */
  function Selected(was: seq<Holding>): nat {
    if was == [] then 0
    else Selected(was[..|was|-1]) + (if was[|was|-1].status == HOLDING then 1 else 0)
  }

  function Marked(was: seq<Holding>, now: seq<Holding>): nat
    requires |was| == |now|
  {
    if was == [] then 0
    else
      var last := if was[|was|-1].status == HOLDING && now[|was|-1].status == PENDING_SELL then 1 else 0;
      Marked(was[..|was|-1], now[..|was|-1]) + last
  }

  function HeldAt(was: seq<Holding>): set<int> {
    set i | 0 <= i < |was| && was[i].status == HOLDING
  }

  function MarkedAt(was: seq<Holding>, now: seq<Holding>): set<int>
    requires |was| == |now|
  {
    set i | 0 <= i < |was| && was[i].status == HOLDING && now[i].status == PENDING_SELL
  }

  lemma HeldAtSplits(was: seq<Holding>, w: Holding)
    ensures HeldAt(was + [w]) == HeldAt(was) + if w.status == HOLDING then {|was|} else {}
    ensures |was| !in HeldAt(was)
  {
  }

  lemma MarkedAtSplits(was: seq<Holding>, now: seq<Holding>, w: Holding, n: Holding)
    requires |was| == |now|
    ensures MarkedAt(was + [w], now + [n])
         == MarkedAt(was, now) + if w.status == HOLDING && n.status == PENDING_SELL then {|was|} else {}
    ensures |was| !in MarkedAt(was, now)
  {
  }

  /** The counts are those of the positions concerned. */
  lemma {:induction false} SelectedCounts(was: seq<Holding>)
    ensures Selected(was) == |HeldAt(was)|
  {
    if was == [] {
      assert HeldAt([]) == {};
    } else {
      var front, w := was[..|was|-1], was[|was|-1];
      hide HeldAt;
      SelectedCounts(front);
      HeldAtSplits(front, w);
      assert was == front + [w];
      UnionCount(HeldAt(front), if w.status == HOLDING then {|front|} else {});
    }
  }

  lemma {:induction false} MarkedCounts(was: seq<Holding>, now: seq<Holding>)
    requires |was| == |now|
    ensures Marked(was, now) == |MarkedAt(was, now)|
  {
    if was == [] {
      assert MarkedAt([], []) == {};
    } else {
      var before, after, w, n := was[..|was|-1], now[..|was|-1], was[|was|-1], now[|was|-1];
      hide MarkedAt;
      MarkedCounts(before, after);
      MarkedAtSplits(before, after, w, n);
      assert was == before + [w] && now == after + [n];
      UnionCount(MarkedAt(before, after), if w.status == HOLDING && n.status == PENDING_SELL then {|before|} else {});
    }
  }

  lemma CountStep(was: seq<Holding>, now: seq<Holding>, w: Holding, n: Holding)
    requires |was| == |now|
    ensures Selected(was + [w]) == Selected(was) + (if w.status == HOLDING then 1 else 0)
    ensures Marked(was + [w], now + [n]) ==
            Marked(was, now) + (if w.status == HOLDING && n.status == PENDING_SELL then 1 else 0)
  {
    assert (was + [w])[..|was|] == was && (now + [n])[..|now|] == now;
  }

  lemma NoneCounted()
    ensures Selected([]) == 0 && Marked([], []) == 0
  {
  }

  /** The current states of the positions, in order. */
  function Views(positions: seq<PlanPosition>): (views: seq<Holding>)
    reads positions
    ensures |views| == |positions| && forall i :: 0 <= i < |positions| ==> views[i] == positions[i].View()
  {
    if positions == [] then [] else Views(positions[..|positions|-1]) + [positions[|positions|-1].View()]
  }

  /** The positions of a plan with its percentages; only active plans are evaluated. */
  datatype Plan = Plan(active: bool, cfg: StopConfig, positions: seq<PlanPosition>)

  ghost predicate SeparatePositions(positions: seq<PlanPosition>) {
    forall i, j :: 0 <= i < j < |positions| ==> positions[i] != positions[j]
  }

  /** No position belongs to two plans, or to one plan twice. */
  ghost predicate SeparatePlans(plans: seq<Plan>) {
    && (forall i :: 0 <= i < |plans| ==> SeparatePositions(plans[i].positions))
    && (forall i, j :: 0 <= i < |plans| && 0 <= j < |plans| && i != j ==> Disjoint(plans[i].positions, plans[j].positions))
  }

  ghost predicate Disjoint(a: seq<PlanPosition>, b: seq<PlanPosition>) {
    forall p :: p in a ==> p !in b
  }

  ghost function PositionsOf(plans: seq<Plan>): (all: set<PlanPosition>)
    ensures forall i, p :: 0 <= i < |plans| && p in plans[i].positions ==> p in all
  {
    set i, p | 0 <= i < |plans| && p in plans[i].positions :: p
  }

  /** The current states of the positions, plan by plan. */
  ghost function PlanViews(plans: seq<Plan>): (views: seq<seq<Holding>>)
    reads PositionsOf(plans)
    ensures |views| == |plans|
    ensures forall i :: 0 <= i < |plans| ==> views[i] == Views(plans[i].positions)
  {
    seq(|plans|, i requires 0 <= i < |plans| reads PositionsOf(plans) => Views(plans[i].positions))
  }

  /** What the evaluation makes of the positions of a plan. */
  function NextAll(plan: Plan, was: seq<Holding>, market: map<string, Quote>): (now: seq<Holding>)
    requires |was| == |plan.positions|
    ensures |now| == |was|
  {
    if plan.active then seq(|was|, i requires 0 <= i < |was| => Next(plan.positions[i], was[i], market, plan.cfg)) else was
  }

  ghost predicate Sized(plans: seq<Plan>, was: seq<seq<Holding>>) {
    |was| == |plans| && forall i :: 0 <= i < |plans| ==> |was[i]| == |plans[i].positions|
  }

  /** The positions of the active plans that are selected, and those of them that are marked for sale. */
  ghost function Totals(plans: seq<Plan>, was: seq<seq<Holding>>, market: map<string, Quote>): (int, int)
    requires Sized(plans, was)
  {
    if plans == [] then (0, 0)
    else
      var n := |plans| - 1;
      var rest := Totals(plans[..n], was[..n], market);
      if plans[n].active then (rest.0 + Selected(was[n]), rest.1 + Marked(was[n], NextAll(plans[n], was[n], market))) else rest
  }

  lemma TotalsStep(plans: seq<Plan>, was: seq<seq<Holding>>, market: map<string, Quote>, n: nat)
    requires n < |plans| && Sized(plans, was)
    ensures Sized(plans[..n], was[..n]) && Sized(plans[..n+1], was[..n+1])
    ensures var rest := Totals(plans[..n], was[..n], market);
            Totals(plans[..n+1], was[..n+1], market)
              == if plans[n].active then (rest.0 + Selected(was[n]), rest.1 + Marked(was[n], NextAll(plans[n], was[n], market))) else rest
  {
    assert plans[..n+1][..n] == plans[..n] && was[..n+1][..n] == was[..n];
  }

  twostate lemma SameViews(positions: seq<PlanPosition>)
    requires forall p :: p in positions ==> unchanged(p)
    ensures Views(positions) == old(Views(positions))
  {
    forall i | 0 <= i < |positions| ensures Views(positions)[i] == old(Views(positions))[i] {
      var p := positions[i];
      assert p in positions && unchanged(p);
    }
  }

  lemma NoTotals(market: map<string, Quote>)
    ensures Totals([], [], market) == (0, 0)
  {
  }

  lemma NextOfPlan(plan: Plan, was: seq<Holding>, market: map<string, Quote>)
    requires |was| == |plan.positions|
    ensures !plan.active ==> NextAll(plan, was, market) == was
  {
  }

  /** The positions of one active plan: each selected once, each ending as its own evaluation says. */
  method EvaluatePlan(plan: Plan, market: map<string, Quote>) returns (updated: nat, pendingSell: nat)
    requires plan.active && SeparatePositions(plan.positions)
    modifies plan.positions
    ensures Views(plan.positions) == NextAll(plan, old(Views(plan.positions)), market)
    ensures updated == Selected(old(Views(plan.positions)))
    ensures pendingSell == Marked(old(Views(plan.positions)), Views(plan.positions))
  {
    hide Evaluated, QuoteFor, Views, Selected, Marked;
    NoneCounted();
    var positions := plan.positions;
    ghost var was, now := Views(positions), [];
    updated, pendingSell := 0, 0;
    for i := 0 to |positions|
      invariant |now| == i && forall j :: 0 <= j < i ==> now[j] == positions[j].View() == Next(positions[j], was[j], market, plan.cfg)
      invariant forall j :: i <= j < |positions| ==> positions[j].View() == was[j]
      invariant updated == Selected(was[..i]) && pendingSell == Marked(was[..i], now)
    {
      var p := positions[i];
      ghost var n := Next(p, was[i], market, plan.cfg);
      CountStep(was[..i], now, was[i], n);
      assert was[..i+1] == was[..i] + [was[i]];
      if p.status == HOLDING {
        var fired := p.Evaluate(QuoteFor(market, p.symbol), plan.cfg);
        updated := updated + 1;
        if fired {
          pendingSell := pendingSell + 1;
        }
      } else {
        SoldStays(p.View(), QuoteFor(market, p.symbol), plan.cfg);
      }
      now := now + [n];
    }
    assert was[..|positions|] == was && now == Views(positions);
    assert now == NextAll(plan, was, market);
  }

  /** Every position of every active plan is evaluated once, with the percentages of its plan; both totals are exact. */
  method RunStopLossEvaluation(plans: seq<Plan>, market: map<string, Quote>) returns (updated: int, pendingSell: int)
    requires SeparatePlans(plans)
    modifies PositionsOf(plans)
    ensures forall i :: 0 <= i < |plans| ==> Views(plans[i].positions) == NextAll(plans[i], old(PlanViews(plans))[i], market)
    ensures Sized(plans, old(PlanViews(plans))) && (updated, pendingSell) == Totals(plans, old(PlanViews(plans)), market)
  {
    ghost var was := PlanViews(plans);
    hide NextAll, Selected, Marked, PlanViews, Totals, PositionsOf, SeparatePositions, Views;
    updated, pendingSell := 0, 0;
    assert Sized(plans, was);
    NoTotals(market);
    for n := 0 to |plans|
      invariant forall i :: 0 <= i < n ==> Views(plans[i].positions) == NextAll(plans[i], was[i], market)
      invariant forall i :: n <= i < |plans| ==> Views(plans[i].positions) == was[i]
      invariant Sized(plans[..n], was[..n]) && (updated, pendingSell) == Totals(plans[..n], was[..n], market)
    {
      TotalsStep(plans, was, market, n);
      NextOfPlan(plans[n], was[n], market);
      if plans[n].active {
        label Before:
        var u, m := EvaluatePlan(plans[n], market);
        forall i | 0 <= i < |plans| && i != n
          ensures Views(plans[i].positions) == old@Before(Views(plans[i].positions))
        {
          assert Disjoint(plans[i].positions, plans[n].positions);
          SameViews@Before(plans[i].positions);
        }
        updated, pendingSell := updated + u, pendingSell + m;
      }
    }
    assert plans[..|plans|] == plans && was[..|plans|] == was;
  }

  lemma SoldStays(h: Holding, q: Quote, cfg: StopConfig)
    requires h.status != HOLDING
    ensures Evaluated(h, q, cfg) == h
  {
  }
}
