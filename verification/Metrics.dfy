/** Performance metrics computed from the trade records and the net-value curve alone. */
module Metrics {
  import opened Basics
  import opened Market
  import opened Ledger

  // ----- FIFO matching -----

  type Queues = map<Symbol, seq<Record>>

  function Queue(q: Queues, s: Symbol): seq<Record> { if s in q then q[s] else [] }

  function Dropped(buys: seq<Record>, n: nat): seq<Record> { if n <= |buys| then buys[n..] else [] }

  function SalesUpTo(rs: seq<Record>, n: nat): nat
    requires n <= |rs|
  {
    if n == 0 then 0 else SalesUpTo(rs, n-1) + if rs[n-1].action == SELL then 1 else 0
  }

  function MatchedUpTo(rs: seq<Record>, n: nat): nat
    requires n <= |rs|
  {
    if n == 0 then 0
    else MatchedUpTo(rs, n-1) + if rs[n-1].action == SELL && Mate(rs, n-1).Some? then 1 else 0
  }

  function WinsUpTo(rs: seq<Record>, n: nat): nat
    requires n <= |rs|
  {
    if n == 0 then 0 else WinsUpTo(rs, n-1) + if PnlAt(rs, n-1) > 0.0 then 1 else 0
  }

  /** First pass: every BUY is queued by symbol. */
  method QueueBuys(rs: seq<Record>) returns (queues: Queues)
    ensures forall s :: Queue(queues, s) == Buys(rs, s)
  {
    queues := map[];
    for i := 0 to |rs|
      invariant forall s :: Queue(queues, s) == Buys(rs[..i], s)
    {
      assert rs[..i+1][..i] == rs[..i];
      if rs[i].action == BUY {
        queues := queues[rs[i].symbol := Queue(queues, rs[i].symbol) + [rs[i]]];
      }
    }
    assert rs[..|rs|] == rs;
  }

  /** The queues after the sales among the first n records have each popped one buy. */
  ghost predicate QueuesAfter(queues: Queues, rs: seq<Record>, n: nat)
    requires n <= |rs|
  {
    forall s :: Queue(queues, s) == Dropped(Buys(rs, s), Sales(rs[..n], s))
  }

  /** Popping the head of the seller's queue yields the FIFO mate. */
  lemma PopIsMate(queues: Queues, rs: seq<Record>, i: nat)
    requires i < |rs| && QueuesAfter(queues, rs, i) && rs[i].action == SELL
    ensures var queue := Queue(queues, rs[i].symbol);
            if queue == [] then Mate(rs, i).None? && QueuesAfter(queues, rs, i+1)
            else Mate(rs, i) == Some(queue[0]) && QueuesAfter(queues[rs[i].symbol := queue[1..]], rs, i+1)
  {
    hide Buys;
    assert rs[..i+1][..i] == rs[..i] && rs[..i+1][i] == rs[i];
  }

  lemma KeepQueues(queues: Queues, rs: seq<Record>, i: nat)
    requires i < |rs| && QueuesAfter(queues, rs, i) && rs[i].action == BUY
    ensures QueuesAfter(queues, rs, i+1)
  {
    hide Buys, Queue;
    assert rs[..i+1][..i] == rs[..i] && rs[..i+1][i] == rs[i];
  }

  /**
   * Second pass: each SELL pops one queued BUY. Gains and losses are accumulated apart; their
   * difference is the realised profit.
   */
  method MatchTrades(rs: seq<Record>) returns (totalTrades: nat, matched: nat, wins: nat, profit: real, loss: real)
    ensures totalTrades == SalesUpTo(rs, |rs|)
    ensures matched == MatchedUpTo(rs, |rs|)
    ensures wins == WinsUpTo(rs, |rs|)
    ensures profit >= 0.0 && loss >= 0.0 && profit - loss == Realised(rs)
  {
    var queues := QueueBuys(rs);
    hide Mate, QueuesAfter, Buys, Sales;
    assert QueuesAfter(queues, rs, 0) by { InitialQueues(queues, rs); }
    totalTrades, matched, wins, profit, loss := 0, 0, 0, 0.0, 0.0;
    for i := 0 to |rs|
      invariant QueuesAfter(queues, rs, i)
      invariant totalTrades == SalesUpTo(rs, i) && matched == MatchedUpTo(rs, i) && wins == WinsUpTo(rs, i)
      invariant profit >= 0.0 && loss >= 0.0 && profit - loss == RealisedUpTo(rs, i)
    {
      var sale := rs[i];
      if sale.action == SELL {
        PopIsMate(queues, rs, i);
        totalTrades := totalTrades + 1;
        var queue := Queue(queues, sale.symbol);
        if queue != [] {
          queues := queues[sale.symbol := queue[1..]];
          matched := matched + 1;
          var pnl := Pnl(sale, queue[0]);
          if pnl > 0.0 {
            wins := wins + 1;
            profit := profit + pnl;
          } else if pnl < 0.0 {
            loss := loss + -pnl;
          }
        }
      } else {
        KeepQueues(queues, rs, i);
      }
    }
  }

  lemma InitialQueues(queues: Queues, rs: seq<Record>)
    requires forall s :: Queue(queues, s) == Buys(rs, s)
    ensures QueuesAfter(queues, rs, 0)
  {
    hide Buys;
    assert rs[..0] == [];
  }

  /** When the records replay, as those of every run do, no sale is left unmatched. */
  lemma {:induction false} AllMatched(rs: seq<Record>, n: nat)
    requires Replay(rs).Some? && n <= |rs|
    ensures MatchedUpTo(rs, n) == SalesUpTo(rs, n)
  {
    if n > 0 {
      hide Replay, Mate, Find, Closes;
      AllMatched(rs, n-1);
      if rs[n-1].action == SELL { FifoFindsOpeningBuy(rs, n-1); }
    }
  }

  // ----- what the matching counts -----

  predicate IsSale(rs: seq<Record>, i: nat)
    requires i < |rs|
  {
    rs[i].action == SELL
  }

  predicate IsMatched(rs: seq<Record>, i: nat)
    requires i < |rs|
  {
    rs[i].action == SELL && Mate(rs, i).Some?
  }

  /** The sale brought more, after its fees, than its shares had cost with theirs. */
  predicate IsWin(rs: seq<Record>, i: nat)
    requires i < |rs|
  {
    IsMatched(rs, i)
    && var sale, buy := rs[i], Mate(rs, i).value;
    sale.price * sale.quantity as real - sale.cost > buy.price * sale.quantity as real + buy.cost
  }

  lemma WinIff(rs: seq<Record>, i: nat)
    requires i < |rs|
    ensures PnlAt(rs, i) > 0.0 <==> IsWin(rs, i)
  {
    if IsMatched(rs, i) {
      var sale, buy, q := rs[i], Mate(rs, i).value, rs[i].quantity as real;
      assert (sale.price - buy.price) * q == sale.price * q - buy.price * q;
    }
    hide Mate;
  }

  function SaleIndices(rs: seq<Record>, n: nat): set<nat>
    requires n <= |rs|
  {
    set i: nat | 0 <= i < n && IsSale(rs, i)
  }

  function MatchedIndices(rs: seq<Record>, n: nat): set<nat>
    requires n <= |rs|
  {
    set i: nat | 0 <= i < n && IsMatched(rs, i)
  }

  function WinIndices(rs: seq<Record>, n: nat): set<nat>
    requires n <= |rs|
  {
    set i: nat | 0 <= i < n && IsWin(rs, i)
  }

  lemma SalesSplit(rs: seq<Record>, n: nat)
    requires n < |rs|
    ensures SaleIndices(rs, n+1) == SaleIndices(rs, n) + if IsSale(rs, n) then {n} else {}
    ensures n !in SaleIndices(rs, n)
  {
    hide IsSale;
  }

  lemma MatchesSplit(rs: seq<Record>, n: nat)
    requires n < |rs|
    ensures MatchedIndices(rs, n+1) == MatchedIndices(rs, n) + if IsMatched(rs, n) then {n} else {}
    ensures n !in MatchedIndices(rs, n)
  {
    hide IsMatched;
  }

  lemma WinsSplit(rs: seq<Record>, n: nat)
    requires n < |rs|
    ensures WinIndices(rs, n+1) == WinIndices(rs, n) + if IsWin(rs, n) then {n} else {}
    ensures n !in WinIndices(rs, n)
  {
    hide IsWin;
  }

  lemma NothingCounted(rs: seq<Record>)
    ensures SaleIndices(rs, 0) == {} && MatchedIndices(rs, 0) == {} && WinIndices(rs, 0) == {}
  {
  }

  /** The total of trades is the number of sales. */
  lemma {:induction false} SalesCounted(rs: seq<Record>, n: nat)
    requires n <= |rs|
    ensures SalesUpTo(rs, n) == |SaleIndices(rs, n)|
  {
    hide SaleIndices;
    if n == 0 {
      NothingCounted(rs);
    } else {
      SalesCounted(rs, n-1);
      SalesSplit(rs, n-1);
      Grows(SaleIndices(rs, n-1), SaleIndices(rs, n), n-1);
    }
  }

  /** The matched trades are the sales with a buy to match. */
  lemma {:induction false} MatchesCounted(rs: seq<Record>, n: nat)
    requires n <= |rs|
    ensures MatchedUpTo(rs, n) == |MatchedIndices(rs, n)|
  {
    hide Mate, MatchedIndices;
    if n == 0 {
      NothingCounted(rs);
    } else {
      MatchesCounted(rs, n-1);
      MatchesSplit(rs, n-1);
      Grows(MatchedIndices(rs, n-1), MatchedIndices(rs, n), n-1);
    }
  }

  /** The wins are the matched sales that brought more than their shares had cost. */
  lemma {:induction false} WinsCounted(rs: seq<Record>, n: nat)
    requires n <= |rs|
    ensures WinsUpTo(rs, n) == |WinIndices(rs, n)|
  {
    hide Mate, IsWin, PnlAt, WinIndices;
    if n == 0 {
      NothingCounted(rs);
    } else {
      WinsCounted(rs, n-1);
      WinIff(rs, n-1);
      WinsSplit(rs, n-1);
      Grows(WinIndices(rs, n-1), WinIndices(rs, n), n-1);
    }
  }

  lemma Grows(before: set<nat>, after: set<nat>, n: nat)
    requires n !in before && (after == before || after == before + {n})
    ensures |after| == |before| + if n in after then 1 else 0
  {
    if n in after { UnionCount(before, {n}); }
  }

  // ----- maximum drawdown -----

  /** The loss from net value i to net value j, relative to i. */
  function Loss(navs: seq<real>, i: nat, j: nat): real
    requires i <= j < |navs| && navs[i] != 0.0
  {
    LossFrom(navs[i], navs[j])
  }

  function LossFrom(peak: real, nav: real): real
    requires peak != 0.0
  {
    (peak - nav) / peak
  }

  ghost predicate Positive(navs: seq<real>) {
    forall i :: 0 <= i < |navs| ==> navs[i] > 0.0
  }

  /** dd is the largest loss between any two net values in order. */
  ghost predicate IsMaxDrawdown(navs: seq<real>, dd: real)
    requires Positive(navs)
  {
    && (forall i, j :: 0 <= i <= j < |navs| ==> Loss(navs, i, j) <= dd)
    && (navs != [] ==> exists i, j :: 0 <= i <= j < |navs| && Loss(navs, i, j) == dd)
  }

  /** p is the position of the running peak at j. */
  ghost predicate PeakAt(navs: seq<real>, p: nat, j: nat) {
    p <= j < |navs| && forall i :: 0 <= i <= j ==> navs[i] <= navs[p]
  }

  /** v is the loss at j from the highest net value so far. */
  ghost predicate OnCurve(navs: seq<real>, j: nat, v: real)
    requires Positive(navs)
  {
    exists p :: PeakAt(navs, p, j) && v == Loss(navs, p, j)
  }

  lemma LossFromItself(nav: real)
    ensures nav != 0.0 ==> LossFrom(nav, nav) == 0.0
  {
  }

  lemma LossFromPeak(navs: seq<real>, p: nat, i: nat, j: nat)
    requires Positive(navs) && i <= j && PeakAt(navs, p, j)
    ensures Loss(navs, i, j) <= Loss(navs, p, j)
  {
    var a, b, n := navs[i], navs[p], navs[j];
    RelativeLoss(a, n);
    RelativeLoss(b, n);
    if n / b > n / a {
      assert n / b * a > n / a * a;
      assert n / b * b >= n / b * a;
    }
  }

  lemma RelativeLoss(a: real, n: real)
    requires a > 0.0 && n > 0.0
    ensures (a - n) / a == 1.0 - n / a && n / a > 0.0 && n / a * a == n
  {
    var x, y := (a - n) / a, n / a;
    assert x * a == a - n && y * a == n;
    assert (x + y - 1.0) * a == 0.0;
    NoZeroDivisors(x + y - 1.0, a);
  }

  lemma NoZeroDivisors(u: real, a: real)
    requires a > 0.0 && u * a == 0.0
    ensures u == 0.0
  {
    assert u > 0.0 ==> u * a > 0.0;
    assert u < 0.0 ==> u * a < 0.0;
  }

  lemma LossBelowOne(navs: seq<real>, i: nat, j: nat)
    requires Positive(navs) && i <= j < |navs|
    ensures Loss(navs, i, j) < 1.0
  {
    RelativeLoss(navs[i], navs[j]);
  }

  /** The one-pass maximum drawdown. */
  method CalcMaxDrawdown(navs: seq<real>) returns (maxDd: real)
    ensures 0.0 <= maxDd
    ensures Positive(navs) ==> IsMaxDrawdown(navs, maxDd) && maxDd < 1.0
  {
    if navs == [] {
      return 0.0;
    }
    LossFromItself(navs[0]);
    hide LossFrom;
    var peak := navs[0];
    maxDd := 0.0;
    ghost var p, hi, lo := 0, 0, 0;
    for j := 0 to |navs|
      invariant 0.0 <= maxDd
      invariant 0 <= p < |navs| && p <= j && peak == navs[p]
      invariant forall i :: 0 <= i < j ==> navs[i] <= peak
      invariant 0 <= hi <= lo < |navs|
      invariant Positive(navs) ==> Loss(navs, hi, lo) == maxDd
      invariant Positive(navs) ==> forall a, b :: 0 <= a <= b < j ==> Loss(navs, a, b) <= maxDd
    {
      var nav := navs[j];
      if nav > peak {
        peak := nav;
        p := j;
      }
      var dd := if peak > 0.0 then LossFrom(peak, nav) else 0.0;
      if dd > maxDd {
        maxDd := dd;
        hi, lo := p, j;
      }
      if Positive(navs) {
        forall a | 0 <= a <= j ensures Loss(navs, a, j) <= maxDd {
          LossFromPeak(navs, p, a, j);
        }
      }
    }
    if Positive(navs) { LossBelowOne(navs, hi, lo); }
  }

  lemma PointOnCurve(navs: seq<real>, p: nat, j: nat, v: real)
    requires Positive(navs) && p <= j < |navs| && (forall i :: 0 <= i <= j ==> navs[i] <= navs[p])
    requires v == if navs[p] > 0.0 then LossFrom(navs[p], navs[j]) else 0.0
    ensures OnCurve(navs, j, v)
  {
    assert PeakAt(navs, p, j);
  }

  /** r is the beginning of the curve's drawdown: same dates, the loss from the highest net value so far. */
  ghost predicate Drawn(curve: seq<(int, real)>, r: seq<(int, real)>) {
    && |r| <= |curve|
    && (forall j :: 0 <= j < |r| ==> r[j].0 == curve[j].0)
    && (Positive(Navs(curve)) ==> forall j :: 0 <= j < |r| ==> OnCurve(Navs(curve), j, r[j].1))
  }

  /** p is the position of the highest net value among the first n. */
  ghost predicate HighestOf(navs: seq<real>, p: nat, n: nat) {
    p < n <= |navs| && forall i :: 0 <= i < n ==> navs[i] <= navs[p]
  }

  lemma DrawnStep(curve: seq<(int, real)>, r: seq<(int, real)>, p: nat, dd: real)
    requires Drawn(curve, r) && |r| < |curve| && HighestOf(Navs(curve), p, |r| + 1)
    requires dd == if curve[p].1 > 0.0 then LossFrom(curve[p].1, curve[|r|].1) else 0.0
    ensures Drawn(curve, r + [(curve[|r|].0, dd)])
  {
    hide OnCurve, LossFrom;
    if Positive(Navs(curve)) { PointOnCurve(Navs(curve), p, |r|, dd); }
  }

  /** Each point of the drawdown curve is the loss from the highest net value so far. */
  method GenerateDrawdownCurve(curve: seq<(int, real)>) returns (r: seq<(int, real)>)
    ensures |r| == |curve|
    ensures forall j :: 0 <= j < |r| ==> r[j].0 == curve[j].0
    ensures var navs := Navs(curve);
            Positive(navs) ==> forall j :: 0 <= j < |r| ==> OnCurve(navs, j, r[j].1)
  {
    r := [];
    if curve == [] {
      return;
    }
    var peak := curve[0].1;
    ghost var p := 0;
    for j := 0 to |curve|
      invariant |r| == j && Drawn(curve, r) && p < |curve| && peak == curve[p].1
      invariant if j == 0 then p == 0 else HighestOf(Navs(curve), p, j)
    {
      hide Drawn, OnCurve, LossFrom, Positive;
      var nav := curve[j].1;
      if nav > peak {
        peak := nav;
        p := j;
      }
      var dd := if peak > 0.0 then LossFrom(peak, nav) else 0.0;
      DrawnStep(curve, r, p, dd);
      r := r + [(curve[j].0, dd)];
    }
  }

  function Navs(curve: seq<(int, real)>): (navs: seq<real>)
    ensures |navs| == |curve|
    ensures forall i :: 0 <= i < |navs| ==> navs[i] == curve[i].1
  {
    seq(|curve|, i requires 0 <= i < |curve| => curve[i].1)
  }

  /** The maximum drawdown is the highest point of the drawdown curve. */
  lemma MaxDrawdownTopsTheCurve(navs: seq<real>, dd: real, curve: seq<real>)
    requires Positive(navs) && navs != [] && |curve| == |navs| && IsMaxDrawdown(navs, dd)
    requires forall j :: 0 <= j < |curve| ==> OnCurve(navs, j, curve[j])
    ensures (forall j :: 0 <= j < |curve| ==> curve[j] <= dd) && exists j :: 0 <= j < |curve| && curve[j] == dd
  {
    var i, j :| 0 <= i <= j < |navs| && Loss(navs, i, j) == dd;
    assert OnCurve(navs, j, curve[j]);
    var p: nat :| PeakAt(navs, p, j) && curve[j] == Loss(navs, p, j);
    LossFromPeak(navs, p, i, j);
  }
}
