/**
 * Daily bars, price limits, and the date index that replaces linear scans over the bars.
 * Dates are day numbers; a bar carries the trade date derived from its timestamp.
 */
module Market {
  import opened Basics

  type Symbol = string
  datatype Bar = Bar(date: int, open: real, close: real)
  type Bars = seq<Bar>
  type KLine = map<Symbol, Bars>

  /** Bars are in nondecreasing trade-date order; duplicate dates are allowed. */
  ghost predicate Ordered(bars: Bars) {
    forall i, j :: 0 <= i <= j < |bars| ==> bars[i].date <= bars[j].date
  }

  ghost predicate OrderedMarket(k: KLine) {
    forall s :: s in k ==> Ordered(k[s])
  }

  function BarsOf(k: KLine, s: Symbol): Bars {
    if s in k then k[s] else []
  }

  // ----- the linear scans -----

  function UpTo(bars: Bars, d: int): Bars {
    if bars == [] then []
    else UpTo(bars[..|bars|-1], d) + if bars[|bars|-1].date <= d then [bars[|bars|-1]] else []
  }

  function After(bars: Bars, d: int): Bars {
    if bars == [] then []
    else After(bars[..|bars|-1], d) + if bars[|bars|-1].date > d then [bars[|bars|-1]] else []
  }

  /** Both scans keep only bars of the list, each on its side of the date. */
  lemma {:induction false} ScanMembers(bars: Bars, d: int)
    ensures forall b :: b in UpTo(bars, d) <==> b in bars && b.date <= d
    ensures forall b :: b in After(bars, d) <==> b in bars && b.date > d
  {
    if bars != [] {
      ScanMembers(bars[..|bars|-1], d);
      assert bars == bars[..|bars|-1] + [bars[|bars|-1]];
    }
  }

  lemma UpToStep(bars: Bars, d: int)
    requires bars != []
    ensures var front, last := bars[..|bars|-1], bars[|bars|-1];
            if last.date <= d then UpTo(bars, d) == UpTo(front, d) + [last] && After(bars, d) == After(front, d)
            else UpTo(bars, d) == UpTo(front, d) && After(bars, d) == After(front, d) + [last]
  {
    var front := bars[..|bars|-1];
    assert UpTo(front, d) + [] == UpTo(front, d) && After(front, d) + [] == After(front, d);
  }

  lemma {:induction false} AllUpTo(bars: Bars, d: int)
    requires forall i :: 0 <= i < |bars| ==> bars[i].date <= d
    ensures UpTo(bars, d) == bars && After(bars, d) == []
  {
    if bars != [] {
      var front, last := bars[..|bars|-1], bars[|bars|-1];
      AllUpTo(front, d);
      hide UpTo, After;
      UpToStep(bars, d);
      assert bars == front + [last];
    }
  }

  /** On ordered bars the two scans cut the list at one point. */
  lemma {:induction false} ScansCut(bars: Bars, d: int)
    requires Ordered(bars)
    ensures |UpTo(bars, d)| <= |bars|
    ensures UpTo(bars, d) == bars[..|UpTo(bars, d)|]
    ensures After(bars, d) == bars[|UpTo(bars, d)|..]
  {
    if bars != [] {
      var front, last := bars[..|bars|-1], bars[|bars|-1];
      if last.date <= d {
        AllUpTo(bars, d);
      } else {
        ScansCut(front, d);
        var n := |UpTo(front, d)|;
        assert bars[n..] == front[n..] + [last];
      }
    }
  }

  /** Positions before the cut are dated at most d, later ones after d. */
  lemma CutDates(bars: Bars, d: int)
    requires Ordered(bars)
    ensures |UpTo(bars, d)| <= |bars|
    ensures forall i :: 0 <= i < |bars| ==> (bars[i].date <= d <==> i < |UpTo(bars, d)|)
  {
    ScansCut(bars, d);
    ScanMembers(bars, d);
    var n := |UpTo(bars, d)|;
    forall i | 0 <= i < |bars| ensures bars[i].date <= d <==> i < n {
      if i < n {
        assert UpTo(bars, d)[i] in UpTo(bars, d);
      } else {
        assert After(bars, d)[i-n] in After(bars, d);
      }
    }
  }

  /** n cuts the list at d: the bars before n are dated at most d, those from n on later. */
  ghost predicate Cut(bars: Bars, d: int, n: int) {
    && 0 <= n <= |bars|
    && (forall i :: 0 <= i < n ==> bars[i].date <= d)
    && (forall i :: n <= i < |bars| ==> bars[i].date > d)
  }

  /** The two scans are the two sides of the cut. */
  lemma {:induction false} ScansAtCut(bars: Bars, d: int, n: int)
    requires Cut(bars, d, n)
    ensures UpTo(bars, d) == bars[..n] && After(bars, d) == bars[n..]
  {
    if n == |bars| {
      AllUpTo(bars, d);
    } else {
      var front, last := bars[..|bars|-1], bars[|bars|-1];
      ScansAtCut(front, d, n);
      hide UpTo, After;
      UpToStep(bars, d);
      assert bars[n..] == front[n..] + [last] && front[..n] == bars[..n];
    }
  }

  /** Ordered bars have exactly one cut. */
  lemma CutExists(bars: Bars, d: int) returns (n: nat)
    requires Ordered(bars)
    ensures Cut(bars, d, n)
    ensures forall m :: Cut(bars, d, m) ==> m == n
  {
    CutDates(bars, d);
    n := |UpTo(bars, d)|;
    forall m | Cut(bars, d, m) ensures m == n {
      ScansAtCut(bars, d, m);
    }
  }

  // ----- price limits -----

  function Bare(s: Symbol): Symbol {
    if s == "" || s[0] == '.' then "" else [s[0]] + Bare(s[1..])
  }

  function LimitPct(s: Symbol): real {
    var bare := Bare(s);
    if "300" <= bare || "688" <= bare then 0.20
    else if "8" <= bare || "4" <= bare then 0.30
    else 0.10
  }

  function Cents(x: real): real {
    RoundHalfEven(x * 100.0) as real / 100.0
  }

  function LimitUp(prevClose: real, s: Symbol): real {
    Cents(prevClose * (1.0 + LimitPct(s)))
  }

  function LimitDown(prevClose: real, s: Symbol): real {
    Cents(prevClose * (1.0 - LimitPct(s)))
  }

  lemma LimitDownNonNegative(prevClose: real, s: Symbol)
    requires prevClose >= 0.0
    ensures LimitDown(prevClose, s) >= 0.0
  {
    assert prevClose * (1.0 - LimitPct(s)) * 100.0 >= 0.0;
    RoundHalfEvenMonotone(0.0, prevClose * (1.0 - LimitPct(s)) * 100.0);
    assert RoundHalfEven(0.0) == 0;
  }

  predicate StartsWith(s: string, prefix: string) {
    |prefix| <= |s| && s[..|prefix|] == prefix
  }

  /** The first m characters of s are its code, up to the first dot if there is one. */
  predicate IsCode(s: Symbol, m: int) {
    && 0 <= m <= |s|
    && (forall i :: 0 <= i < m ==> s[i] != '.')
    && (m < |s| ==> s[m] == '.')
  }

  lemma {:induction false} BareIsCode(s: Symbol, m: int)
    requires IsCode(s, m)
    ensures Bare(s) == s[..m]
  {
    if m > 0 {
      BareIsCode(s[1..], m - 1);
      assert s[..m] == [s[0]] + s[1..][..m-1];
    }
  }

  /** The price limits: 20% for codes 300 and 688, 30% for codes 8 and 4, else 10%, rounded half-even to cents. */
  lemma LimitPrices(prevClose: real, s: Symbol, m: int)
    requires IsCode(s, m)
    ensures var code := s[..m];
            var pct := if StartsWith(code, "300") || StartsWith(code, "688") then 0.2
                       else if StartsWith(code, "8") || StartsWith(code, "4") then 0.3 else 0.1;
            && Quantized(LimitUp(prevClose, s), prevClose * (1.0 + pct), 100.0)
            && Quantized(LimitDown(prevClose, s), prevClose * (1.0 - pct), 100.0)
  {
    BareIsCode(s, m);
    var code, pct := s[..m], LimitPct(s);
    PrefixIsStart("300", code);
    PrefixIsStart("688", code);
    PrefixIsStart("8", code);
    PrefixIsStart("4", code);
    CentsQuantized(prevClose * (1.0 + pct));
    CentsQuantized(prevClose * (1.0 - pct));
    hide Cents;
  }

  lemma PrefixIsStart(prefix: string, s: string)
    ensures prefix <= s <==> StartsWith(s, prefix)
  {
  }

  lemma CentsQuantized(x: real)
    ensures Quantized(Cents(x), x, 100.0)
  {
    assert NearestEven(RoundHalfEven(x * 100.0), x * 100.0);
  }

  // ----- the bar an order placed on day d is filled at -----

  /** The close of the last bar up to d, and the first bar after d. */
  datatype Fill = Fill(prevClose: real, bar: Bar)

  function FillFor(bars: Bars, d: int): Option<Fill> {
    var past, future := UpTo(bars, d), After(bars, d);
    if future == [] || past == [] then None
    else Some(Fill(past[|past|-1].close, future[0]))
  }

  /** At the cut: the next bar fills the order, the last one before it sets the price limits. */
  lemma FillAtCut(bars: Bars, d: int, n: int)
    requires Cut(bars, d, n)
    ensures FillFor(bars, d) == if 0 < n < |bars| then Some(Fill(bars[n-1].close, bars[n])) else None
  {
    ScansAtCut(bars, d, n);
  }

  /** A fill is always on a bar of the symbol strictly after d, no bar lies between, and the last one up to d sets the limits. */
  lemma FillIsNextBar(bars: Bars, d: int)
    requires Ordered(bars) && FillFor(bars, d).Some?
    ensures FillFor(bars, d).value.bar in bars
    ensures FillFor(bars, d).value.bar.date > d
    ensures forall b :: b in bars && b.date > d ==> FillFor(bars, d).value.bar.date <= b.date
    ensures exists n :: 0 < n < |bars| && Cut(bars, d, n) && FillFor(bars, d).value == Fill(bars[n-1].close, bars[n])
  {
    ScansCut(bars, d);
    CutDates(bars, d);
    var n := |UpTo(bars, d)|;
    assert bars[n] in bars && bars[n-1] in bars;
    assert Cut(bars, d, n);
  }

  // ----- the date index -----

  datatype DateIndex = DateIndex(dateToIdx: map<int, int>, sortedDates: seq<int>)

  ghost predicate StrictlyIncreasing(ds: seq<int>) {
    forall i, j :: 0 <= i < j < |ds| ==> ds[i] < ds[j]
  }

  /** i is the last position of date d in bars. */
  ghost predicate LastAt(bars: Bars, d: int, i: int) {
    0 <= i < |bars| && bars[i].date == d && forall j :: i < j < |bars| ==> bars[j].date != d
  }

  ghost predicate Indexes(ix: DateIndex, bars: Bars) {
    && StrictlyIncreasing(ix.sortedDates)
    && (forall d :: d in ix.sortedDates <==> d in ix.dateToIdx)
    && (forall b :: b in bars ==> b.date in ix.dateToIdx)
    && (forall d :: d in ix.dateToIdx ==> LastAt(bars, d, ix.dateToIdx[d]))
  }

  ghost predicate IndexesMarket(index: map<Symbol, DateIndex>, k: KLine) {
    forall s :: s in index ==> s in k && Indexes(index[s], k[s])
  }

  method SortDates(dates: set<int>) returns (r: seq<int>)
    ensures StrictlyIncreasing(r)
    ensures forall d :: d in r <==> d in dates
  {
    r := [];
    var rest := dates;
    while rest != {}
      invariant StrictlyIncreasing(r)
      invariant rest <= dates
      invariant forall d :: d in r <==> d in dates && d !in rest
      invariant forall i, e :: 0 <= i < |r| && e in rest ==> r[i] < e
      decreases |rest|
    {
      var least := SmallestDate(rest);
      r := r + [least];
      rest := rest - {least};
    }
  }

  method SmallestDate(dates: set<int>) returns (least: int)
    requires dates != {}
    ensures least in dates && forall d :: d in dates ==> least <= d
  {
    least := Pick(dates);
    var rest := dates;
    while rest != {}
      invariant rest <= dates && least in dates
      invariant forall d :: d in dates ==> d in rest || least <= d
      decreases rest
    {
      var d := Pick(rest);
      rest := rest - {d};
      if d < least { least := d; }
    }
  }

  method BuildDateIndex(bars: Bars) returns (ix: DateIndex)
    ensures Indexes(ix, bars)
  {
    var dateToIdx: map<int, int> := map[];
    for i := 0 to |bars|
      invariant forall b :: b in bars[..i] ==> b.date in dateToIdx
      invariant forall d :: d in dateToIdx ==> LastAt(bars[..i], d, dateToIdx[d])
    {
      ghost var before := dateToIdx;
      dateToIdx := dateToIdx[bars[i].date := i];
      assert bars[..i+1] == bars[..i] + [bars[i]];
      forall d | d in dateToIdx ensures LastAt(bars[..i+1], d, dateToIdx[d]) {
        if d != bars[i].date { assert LastAt(bars[..i], d, before[d]); }
      }
    }
    assert bars[..|bars|] == bars;
    var sorted := SortDates(dateToIdx.Keys);
    ix := DateIndex(dateToIdx, sorted);
  }

  method BuildMarketIndex(k: KLine) returns (index: map<Symbol, DateIndex>)
    ensures IndexesMarket(index, k) && index.Keys == k.Keys
  {
    index := map[];
    var rest := k.Keys;
    while rest != {}
      invariant rest <= k.Keys && index.Keys == k.Keys - rest
      invariant IndexesMarket(index, k)
      decreases rest
    {
      var s := Pick(rest);
      var ix := BuildDateIndex(k[s]);
      index := index[s := ix];
      rest := rest - {s};
    }
  }

  /** Python's bisect_right. */
  method BisectRight(dates: seq<int>, d: int) returns (pos: nat)
    requires StrictlyIncreasing(dates)
    ensures pos <= |dates|
    ensures forall i :: 0 <= i < pos ==> dates[i] <= d
    ensures forall i :: pos <= i < |dates| ==> d < dates[i]
  {
    var lo, hi := 0, |dates|;
    while lo < hi
      invariant 0 <= lo <= hi <= |dates|
      invariant forall i :: 0 <= i < lo ==> dates[i] <= d
      invariant forall i :: hi <= i < |dates| ==> d < dates[i]
    {
      var mid := (lo + hi) / 2;
      if d < dates[mid] { hi := mid; } else { lo := mid + 1; }
    }
    pos := lo;
  }

  /** The indexed lookup agrees with the linear scan on ordered bars, duplicate dates included. */
  method GetBarsUpTo(ix: DateIndex, d: int, ghost bars: Bars) returns (end: int)
    requires Indexes(ix, bars) && Ordered(bars)
    ensures end == |UpTo(bars, d)| - 1
    ensures -1 <= end < |bars|
    ensures bars[..end+1] == UpTo(bars, d) && bars[end+1..] == After(bars, d)
  {
    var pos := BisectRight(ix.sortedDates, d);
    ScansCut(bars, d);
    if pos == 0 {
      end := -1;
      IndexedEnd(ix, bars, d, -1);
    } else {
      var lastDate := ix.sortedDates[pos-1];
      assert lastDate in ix.sortedDates;
      end := ix.dateToIdx[lastDate];
      assert LastAt(bars, lastDate, end);
      forall b | b in bars && b.date <= d ensures b.date <= lastDate {
        assert b.date in ix.sortedDates;
        var i :| 0 <= i < |ix.sortedDates| && ix.sortedDates[i] == b.date;
        assert i < pos;
      }
      IndexedEnd(ix, bars, d, end);
    }
  }

  /** The last position whose date is at most d ends the linear scan. */
  lemma IndexedEnd(ix: DateIndex, bars: Bars, d: int, end: int)
    requires Indexes(ix, bars) && Ordered(bars)
    requires -1 <= end < |bars|
    requires end >= 0 ==> bars[end].date <= d && LastAt(bars, bars[end].date, end)
    requires forall b :: b in bars && b.date <= d ==> end >= 0 && b.date <= bars[end].date
    ensures end == |UpTo(bars, d)| - 1
  {
    CutDates(bars, d);
    var n := |UpTo(bars, d)|;
    if n > 0 {
      assert bars[n-1] in bars && bars[n-1].date <= bars[end].date;
    }
  }

  // ----- the trading calendar -----

  predicate TradesOn(k: KLine, d: int) {
    exists s | s in k :: exists i | 0 <= i < |k[s]| :: k[s][i].date == d
  }

  /** The sorted distinct bar dates inside [first, last]. */
  function TradeDates(k: KLine, first: int, last: int): seq<int>
    decreases last - first + 1
  {
    if first > last then []
    else (if TradesOn(k, first) then [first] else []) + TradeDates(k, first + 1, last)
  }

  lemma {:induction false} TradeDatesCorrect(k: KLine, first: int, last: int)
    ensures StrictlyIncreasing(TradeDates(k, first, last))
    ensures forall d :: d in TradeDates(k, first, last) <==> first <= d <= last && TradesOn(k, d)
    decreases last - first + 1
  {
    if first <= last {
      TradeDatesCorrect(k, first + 1, last);
      var rest := TradeDates(k, first + 1, last);
      assert forall i :: 0 <= i < |rest| ==> rest[i] in rest;
    }
  }

  /** The calendar: every date in the range on which some symbol has a bar, and no other. */
  lemma CalendarIs(k: KLine, first: int, last: int, d: int)
    ensures d in TradeDates(k, first, last) <==> first <= d <= last && exists s, b :: s in k && b in k[s] && b.date == d
  {
    TradeDatesCorrect(k, first, last);
    if TradesOn(k, d) {
      var s :| s in k && exists i | 0 <= i < |k[s]| :: k[s][i].date == d;
      var i :| 0 <= i < |k[s]| && k[s][i].date == d;
      assert k[s][i] in k[s];
    }
    if s, b :| s in k && b in k[s] && b.date == d {
      var i :| 0 <= i < |k[s]| && k[s][i] == b;
      assert k[s][i].date == d;
    }
  }
}
