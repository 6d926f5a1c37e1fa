/**
 * Minute bars aligned with daily bars, and the exit-condition evaluator that scans them.
 * Indicator and threshold lookups are arbitrary partial functions (None for a missing or NaN value).
 */
module MinuteExit {
  import opened Basics
  import Market

  type Range = (int, int)
  const NO_DATA: Range := (-1, -1)

  ghost predicate Nondecreasing(ds: seq<int>) {
    forall i, j :: 0 <= i <= j < |ds| ==> ds[i] <= ds[j]
  }

  // ----- day ranges -----

  /** r holds exactly the positions of date d, or is the sentinel when there are none. */
  ghost predicate Exact(r: Range, dates: seq<int>, d: int) {
    if d in dates then
      && 0 <= r.0 <= r.1 < |dates|
      && forall i :: 0 <= i < |dates| ==> (dates[i] == d <==> r.0 <= i <= r.1)
    else r == NO_DATA
  }

  /** First and last position of each date seen so far. */
  ghost predicate Spans(spans: map<int, Range>, dates: seq<int>) {
    && (forall d :: d in spans <==> d in dates)
    && forall d :: d in spans ==>
         && 0 <= spans[d].0 <= spans[d].1 < |dates|
         && dates[spans[d].0] == d && dates[spans[d].1] == d
         && forall i :: 0 <= i < |dates| && dates[i] == d ==> spans[d].0 <= i <= spans[d].1
  }

  method GroupByDate(dates: seq<int>) returns (spans: map<int, Range>)
    ensures Spans(spans, dates)
  {
    spans := map[];
    for i := 0 to |dates|
      invariant Spans(spans, dates[..i])
    {
      var d := dates[i];
      ghost var before := spans;
      spans := spans[d := if d in spans then (spans[d].0, i) else (i, i)];
      SpansStep(before, spans, dates, i);
    }
    assert dates[..|dates|] == dates;
  }

  lemma SpansStep(before: map<int, Range>, after: map<int, Range>, dates: seq<int>, i: nat)
    requires i < |dates| && Spans(before, dates[..i])
    requires after == before[dates[i] := if dates[i] in before then (before[dates[i]].0, i) else (i, i)]
    ensures Spans(after, dates[..i+1])
  {
    var was, now := dates[..i], dates[..i+1];
    assert now == was + [dates[i]];
    assert forall j :: 0 <= j < i ==> now[j] == was[j];
    forall d | d in after
      ensures 0 <= after[d].0 <= after[d].1 < |now| && now[after[d].0] == d && now[after[d].1] == d
      ensures forall j :: 0 <= j < |now| && now[j] == d ==> after[d].0 <= j <= after[d].1
    {
      if d != dates[i] { assert after[d] == before[d]; }
    }
  }

  /**
   * One range per distinct daily date, in date order. With minute bars in order each range is exact:
   * it holds the minute bars of its date and no other.
   */
  method BuildDayRanges(dailyDates: seq<int>, minuteDates: seq<int>) returns (days: seq<int>, ranges: seq<Range>)
    ensures Market.StrictlyIncreasing(days) && forall d :: d in days <==> d in dailyDates
    ensures |ranges| == |days|
    ensures Nondecreasing(minuteDates) ==> forall j :: 0 <= j < |days| ==> Exact(ranges[j], minuteDates, days[j])
  {
    days := Market.SortDates(set d | d in dailyDates);
    var spans := GroupByDate(minuteDates);
    ranges := [];
    for j := 0 to |days|
      invariant |ranges| == j
      invariant Nondecreasing(minuteDates) ==> forall i :: 0 <= i < j ==> Exact(ranges[i], minuteDates, days[i])
    {
      ranges := ranges + [if days[j] in spans then spans[days[j]] else NO_DATA];
    }
  }

  /** The last of increasing dates is the largest; the others are the rest. */
  lemma LastIsLargest(a: seq<int>)
    requires Market.StrictlyIncreasing(a) && a != []
    ensures var front, last := a[..|a|-1], a[|a|-1];
            && last in a && Market.StrictlyIncreasing(front)
            && (forall d :: d in a ==> d <= last)
            && (forall d :: d in front <==> d in a && d != last)
  {
    var front, last := a[..|a|-1], a[|a|-1];
    assert a == front + [last];
    assert forall i :: 0 <= i < |front| ==> front[i] == a[i];
  }

  lemma NotEmptyEither(a: seq<int>, b: seq<int>)
    requires a != [] && forall d :: d in a ==> d in b
    ensures b != []
  {
    var d := a[0];
    assert d in b;
  }

  lemma {:induction false} SameDatesSameOrder(a: seq<int>, b: seq<int>)
    requires Market.StrictlyIncreasing(a) && Market.StrictlyIncreasing(b)
    requires forall d :: d in a <==> d in b
    ensures a == b
  {
    hide Market.StrictlyIncreasing;
    if a != [] || b != [] {
      if a != [] { NotEmptyEither(a, b); } else { NotEmptyEither(b, a); }
      LastIsLargest(a);
      LastIsLargest(b);
      assert a[|a|-1] == b[|b|-1];
      SameDatesSameOrder(a[..|a|-1], b[..|b|-1]);
      assert a == a[..|a|-1] + [a[|a|-1]] && b == b[..|b|-1] + [b[|b|-1]];
    }
  }

  /** Position j of the ranges belongs to daily bar j, for every j, exactly when the daily dates do not repeat. */
  lemma AlignedIffNoDuplicates(dailyDates: seq<int>, days: seq<int>)
    requires Nondecreasing(dailyDates) && Market.StrictlyIncreasing(days)
    requires forall d :: d in days <==> d in dailyDates
    ensures days == dailyDates <==> Market.StrictlyIncreasing(dailyDates)
  {
    if Market.StrictlyIncreasing(dailyDates) {
      SameDatesSameOrder(dailyDates, days);
    }
  }

  /** Exact ranges of increasing days are disjoint and ordered. */
  lemma RangesAreOrdered(days: seq<int>, minuteDates: seq<int>, ranges: seq<Range>, i: nat, j: nat)
    requires Market.StrictlyIncreasing(days) && Nondecreasing(minuteDates) && |ranges| == |days|
    requires forall l :: 0 <= l < |days| ==> Exact(ranges[l], minuteDates, days[l])
    requires i < j < |days| && ranges[i] != NO_DATA && ranges[j] != NO_DATA
    ensures ranges[i].1 < ranges[j].0
  {
    assert minuteDates[ranges[i].1] == days[i] && minuteDates[ranges[j].0] == days[j];
  }

  // ----- the evaluator -----

  /** The parameters of an indicator by name, such as its period. */
  type Params = map<string, real>

  datatype Condition = Condition(freq: string, indicator: string, params: Params, operator: string, crossTarget: Option<string>)
  datatype Logic = AND | OR

  /** The caches at hand, and what they yield: value(cache, indicator, parameters, index) and threshold(condition, index). */
  datatype Env = Env(
    caches: Option<set<string>>,
    value: (Option<string>, string, Params, int) -> Option<real>,
    threshold: (Condition, int) -> Option<real>,
    ranges: Option<map<string, seq<Range>>>)

  const MINUTE_FREQS := {"1min", "5min", "15min", "30min", "60min"}

  function ResolveFreq(freq: string): string { if freq == "minute" then "1min" else freq }

  /** The cache of the frequency, falling back to the daily one. */
  function CacheFor(env: Env, freq: string): Option<string> {
    if env.caches.None? then None
    else if freq in env.caches.value then Some(freq)
    else if freq != "daily" && "daily" in env.caches.value then Some("daily")
    else None
  }

  predicate IsCross(c: Condition) { c.operator == "cross_up" || c.operator == "cross_down" }

  /** The numeric comparison; an unknown operator never holds. */
  predicate Compares(operator: string, a: real, b: real) {
    || (operator == ">" && a > b) || (operator == "<" && a < b)
    || (operator == ">=" && a >= b) || (operator == "<=" && a <= b)
  }

  predicate Crosses(env: Env, cache: Option<string>, c: Condition, i: int) {
    && i >= 1 && c.crossTarget.Some?
    && var now, was := env.value(cache, c.indicator, c.params, i), env.value(cache, c.indicator, c.params, i - 1);
    && var target, targetWas := env.value(cache, c.crossTarget.value, c.params, i), env.value(cache, c.crossTarget.value, c.params, i - 1);
    && now.Some? && was.Some? && target.Some? && targetWas.Some?
    && if c.operator == "cross_up" then was.value <= targetWas.value && now.value > target.value
       else was.value >= targetWas.value && now.value < target.value
  }

  /** The value at index i meets the threshold resolved at index at. */
  predicate Meets(env: Env, cache: Option<string>, c: Condition, i: int, at: int) {
    && env.value(cache, c.indicator, c.params, i).Some? && env.threshold(c, at).Some?
    && Compares(c.operator, env.value(cache, c.indicator, c.params, i).value, env.threshold(c, at).value)
  }

  /** Inside a day: some adjacent pair crosses, or some bar meets the threshold resolved at the day's first bar. */
  ghost predicate HoldsWithin(env: Env, cache: Option<string>, c: Condition, r: Range) {
    if IsCross(c) then exists i :: r.0 < i <= r.1 && Crosses(env, cache, c, i)
    else exists i :: r.0 <= i <= r.1 && Meets(env, cache, c, i, r.0)
  }

  predicate Scans(env: Env, freq: string) {
    freq in MINUTE_FREQS && env.ranges.Some? && freq in env.ranges.value
  }

  /** The verdict on one condition at a daily bar; a skipped condition counts as false. */
  ghost predicate Holds(env: Env, c: Condition, bar: int) {
    var freq := ResolveFreq(c.freq);
    var cache := CacheFor(env, freq);
    if Scans(env, freq) then
      var ranges := env.ranges.value[freq];
      0 <= bar < |ranges| && ranges[bar] != NO_DATA && HoldsWithin(env, cache, c, ranges[bar])
    else if IsCross(c) then Crosses(env, cache, c, bar)
    else Meets(env, cache, c, bar, bar)
  }

  method EvaluateSingleMinuteScanning(env: Env, cache: Option<string>, c: Condition, r: Range) returns (triggered: bool)
    ensures triggered <==> HoldsWithin(env, cache, c, r)
  {
    if IsCross(c) {
      if c.crossTarget.None? {
        return false;
      }
      var i := r.0 + 1;
      while i <= r.1
        invariant r.0 < i
        invariant forall j :: r.0 < j < i ==> !Crosses(env, cache, c, j)
        decreases r.1 - i
      {
        if Crosses(env, cache, c, i) {
          return true;
        }
        i := i + 1;
      }
      return false;
    }
    var threshold := env.threshold(c, r.0);
    if threshold.None? {
      return false;
    }
    var i := r.0;
    while i <= r.1
      invariant r.0 <= i
      invariant forall j :: r.0 <= j < i ==> !Meets(env, cache, c, j, r.0)
      decreases r.1 - i
    {
      var value := env.value(cache, c.indicator, c.params, i);
      if value.Some? && Compares(c.operator, value.value, threshold.value) {
        assert Meets(env, cache, c, i, r.0);
        return true;
      }
      i := i + 1;
    }
    return false;
  }

  /** All conditions (AND) or any (OR); no conditions never trigger. */
  ghost predicate Verdict(env: Env, conditions: seq<Condition>, logic: Logic, bar: int) {
    && conditions != []
    && if logic == OR then exists i :: 0 <= i < |conditions| && Holds(env, conditions[i], bar)
       else forall i :: 0 <= i < |conditions| ==> Holds(env, conditions[i], bar)
  }

  method Evaluate(env: Env, conditions: seq<Condition>, logic: Logic, bar: int) returns (triggered: bool)
    ensures triggered <==> Verdict(env, conditions, logic, bar)
  {
    if conditions == [] {
      return false;
    }
    var results: seq<bool> := [];
    for i := 0 to |conditions|
      invariant |results| == i
      invariant forall j :: 0 <= j < i ==> (results[j] <==> Holds(env, conditions[j], bar))
    {
      var c := conditions[i];
      var freq := ResolveFreq(c.freq);
      var cache := CacheFor(env, freq);
      var result := false;
      if Scans(env, freq) {
        var ranges := env.ranges.value[freq];
        if 0 <= bar < |ranges| && ranges[bar] != NO_DATA {
          result := EvaluateSingleMinuteScanning(env, cache, c, ranges[bar]);
        }
      } else if IsCross(c) {
        result := Crosses(env, cache, c, bar);
      } else {
        result := Meets(env, cache, c, bar, bar);
      }
      results := results + [result];
    }
    if logic == OR {
      triggered := exists i :: 0 <= i < |results| && results[i];
    } else {
      triggered := forall i :: 0 <= i < |results| ==> results[i];
    }
  }

  /**
   * From bars to verdict: with ranges aligned to the daily bars and ordered minute bars, a scanned condition
   * holds at daily bar j exactly when some minute bar of that very date (or some adjacent pair inside it) satisfies it.
   */
  lemma MinuteVerdictIsAboutTheDay(env: Env, c: Condition, bar: nat, dailyDates: seq<int>, minuteDates: seq<int>)
    requires Nondecreasing(minuteDates) && bar < |dailyDates|
    requires Scans(env, ResolveFreq(c.freq)) && |env.ranges.value[ResolveFreq(c.freq)]| == |dailyDates|
    requires forall j :: 0 <= j < |dailyDates| ==> Exact(env.ranges.value[ResolveFreq(c.freq)][j], minuteDates, dailyDates[j])
    ensures var freq, d := ResolveFreq(c.freq), dailyDates[bar];
            Holds(env, c, bar) <==> SomeBarOf(env, CacheFor(env, freq), c, minuteDates, d, env.ranges.value[freq][bar].0)
  {
    var d := dailyDates[bar];
    var r := env.ranges.value[ResolveFreq(c.freq)][bar];
    assert Exact(r, minuteDates, d);
    var cache := CacheFor(env, ResolveFreq(c.freq));
    hide Crosses, Meets;
    if IsCross(c) {
      if i :| 0 < i < |minuteDates| && minuteDates[i-1] == minuteDates[i] == d && Crosses(env, cache, c, i) {
        assert minuteDates[i] in minuteDates;
        assert r.0 < i <= r.1;
      }
      if i :| r != NO_DATA && r.0 < i <= r.1 && Crosses(env, cache, c, i) {
        assert minuteDates[i-1] == d;
      }
    } else {
      if i :| 0 <= i < |minuteDates| && minuteDates[i] == d && Meets(env, cache, c, i, r.0) {
        assert minuteDates[i] in minuteDates;
        assert r.0 <= i <= r.1;
      }
    }
  }

  /** Some minute bar of date d meets the condition, or some adjacent pair inside d crosses. */
  ghost predicate SomeBarOf(env: Env, cache: Option<string>, c: Condition, minuteDates: seq<int>, d: int, first: int) {
    if IsCross(c) then
      exists i :: 0 < i < |minuteDates| && minuteDates[i-1] == minuteDates[i] == d && Crosses(env, cache, c, i)
    else
      exists i :: 0 <= i < |minuteDates| && minuteDates[i] == d && Meets(env, cache, c, i, first)
  }

  // ----- conditions, from the looked-up values alone -----

  /** The frequency a condition is about, and the cache it reads: its own, or else the daily one. */
  lemma CacheIs(env: Env, freq: string, name: string)
    requires env.caches.Some?
    ensures ResolveFreq("minute") == "1min" && (freq != "minute" ==> ResolveFreq(freq) == freq)
    ensures CacheFor(env, freq) == Some(name) <==>
              name in env.caches.value && (name == freq || (name == "daily" && freq !in env.caches.value))
  {
  }

  /** By how much the indicator lies above its cross target; None when either is missing. */
  function Lead(env: Env, cache: Option<string>, c: Condition, i: int): Option<real> {
    if c.crossTarget.None? then None
    else
      var a, b := env.value(cache, c.indicator, c.params, i), env.value(cache, c.crossTarget.value, c.params, i);
      if a.Some? && b.Some? then Some(a.value - b.value) else None
  }

  /** A cross at i is a change of lead between i - 1 and i: from none or behind to ahead, or from none or ahead to behind. */
  lemma CrossIs(env: Env, cache: Option<string>, c: Condition, i: int)
    requires IsCross(c)
    ensures Crosses(env, cache, c, i) <==>
              && i >= 1 && Lead(env, cache, c, i - 1).Some? && Lead(env, cache, c, i).Some?
              && var was, now := Lead(env, cache, c, i - 1).value, Lead(env, cache, c, i).value;
              if c.operator == "cross_up" then was <= 0.0 < now else now < 0.0 <= was
  {
  }

  /** A comparison at i holds by the sign of the value less the threshold; any other operator never does. */
  lemma MeetsIs(env: Env, cache: Option<string>, c: Condition, i: int, at: int)
    ensures Meets(env, cache, c, i, at) <==>
              && env.value(cache, c.indicator, c.params, i).Some? && env.threshold(c, at).Some?
              && var above := env.value(cache, c.indicator, c.params, i).value - env.threshold(c, at).value;
              || (c.operator == ">" && above > 0.0) || (c.operator == ">=" && above >= 0.0)
              || (c.operator == "<" && above < 0.0) || (c.operator == "<=" && above <= 0.0)
  {
  }

  /** Which of the two is asked, and where: the minutes of the day for the five minute frequencies with ranges, else the daily bar. */
  lemma HoldsIs(env: Env, c: Condition, bar: int)
    ensures var freq := if c.freq == "minute" then "1min" else c.freq;
            var cache := CacheFor(env, freq);
            var cross := c.operator == "cross_up" || c.operator == "cross_down";
            var scanned := (freq == "1min" || freq == "5min" || freq == "15min" || freq == "30min" || freq == "60min")
                           && env.ranges.Some? && freq in env.ranges.value;
            Holds(env, c, bar) <==>
              if !scanned then (if cross then Crosses(env, cache, c, bar) else Meets(env, cache, c, bar, bar))
              else
                && 0 <= bar < |env.ranges.value[freq]|
                && var (first, last) := env.ranges.value[freq][bar];
                && (first, last) != (-1, -1)
                && if cross then exists i :: first < i <= last && Crosses(env, cache, c, i)
                   else exists i :: first <= i <= last && Meets(env, cache, c, i, first)
  {
    hide Crosses, Meets, CacheFor;
  }
}
