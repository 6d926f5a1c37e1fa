/** The two repair scripts at work on the table, and why they agree. */
module RepairEngine {
  import opened Basics
  import opened KlineTable
  import opened RepairStatements
  import opened RepairCounts

  // ----- date batches -----

  /** The windows cover start..end one after the other, without gap or overlap. */
  ghost predicate Tiles(ws: seq<Window>, startDate: int, endDate: int) {
    if startDate > endDate then ws == []
    else
      && ws != []
      && var last := ws[|ws|-1];
      && last.endDate == endDate && startDate <= last.startDate <= endDate
      && Tiles(ws[..|ws|-1], startDate, last.startDate - 1)
  }

  predicate Covers(w: Window, d: int) { w.startDate <= d <= w.endDate }

  /** Every date of the range, and no other, lies in exactly one window of a tiling. */
  lemma {:induction false} TilesCoverOnce(ws: seq<Window>, startDate: int, endDate: int, d: int)
    requires Tiles(ws, startDate, endDate)
    ensures startDate <= d <= endDate <==> exists i :: 0 <= i < |ws| && Covers(ws[i], d)
    ensures forall i, j :: 0 <= i < |ws| && 0 <= j < |ws| && Covers(ws[i], d) && Covers(ws[j], d) ==> i == j
  {
    if startDate <= endDate {
      var front, last := ws[..|ws|-1], ws[|ws|-1];
      TilesCoverOnce(front, startDate, last.startDate - 1, d);
      assert forall i :: 0 <= i < |front| ==> front[i] == ws[i];
    }
  }

  method SplitDateBatches(startDate: int, endDate: int, batchDays: int) returns (r: Result<seq<Window>>)
    ensures r.Ok? <==> startDate <= endDate && batchDays > 0
    ensures r.Ok? ==> Tiles(r.result, startDate, endDate)
    ensures r.Ok? ==> forall w :: w in r.result ==> w.endDate - w.startDate + 1 <= batchDays
    ensures r.Ok? ==> forall i :: 0 <= i < |r.result| - 1 ==> r.result[i].endDate - r.result[i].startDate + 1 == batchDays
  {
    if startDate > endDate {
      return ValueError("start-date");
    }
    if batchDays <= 0 {
      return ValueError("batch-days");
    }
    var batches: seq<Window> := [];
    var current := startDate;
    while current <= endDate
      invariant startDate <= current <= endDate + 1
      invariant Tiles(batches, startDate, current - 1)
      invariant forall w :: w in batches ==> w.endDate - w.startDate + 1 <= batchDays
      invariant forall i :: 0 <= i < |batches| - 1 ==> batches[i].endDate - batches[i].startDate + 1 == batchDays
      invariant batches != [] && current <= endDate ==>
                  batches[|batches|-1].endDate - batches[|batches|-1].startDate + 1 == batchDays
    {
      var batchEnd := if current + (batchDays - 1) < endDate then current + (batchDays - 1) else endDate;
      var w := Window(current, batchEnd);
      assert (batches + [w])[..|batches|] == batches;
      batches := batches + [w];
      current := batchEnd + 1;
    }
    return Ok(batches);
  }

  // ----- batches are independent -----

  /** A repair neither creates nor removes other candidates. */
  lemma CandidatesAfterRepair(t: Table, a: set<Key>, w: Window, freqs: seq<string>)
    requires a <= t.Keys && AllShifted(a)
    ensures Candidates(Repaired(t, a), w, freqs) == Candidates(t, w, freqs) - a
  {
    RepairLeavesNone(t, a);
    hide Repaired, InWindow;
  }

  function RepairBatches(t: Table, ws: seq<Window>, freqs: seq<string>): Table {
    if ws == [] then t else
      var u := RepairBatches(t, ws[..|ws|-1], freqs);
      Repaired(u, Candidates(u, ws[|ws|-1], freqs))
  }

  lemma WindowSplits(t: Table, startDate: int, middle: int, endDate: int, freqs: seq<string>)
    requires startDate <= middle <= endDate
    ensures var a, b := Candidates(t, Window(startDate, middle - 1), freqs), Candidates(t, Window(middle, endDate), freqs);
            a !! b && a + b == Candidates(t, Window(startDate, endDate), freqs)
  {
    hide HourOf;
  }

  /** Repairing the batches one after another is one repair over the whole range. */
  lemma {:induction false} BatchesAreOneRepair(t: Table, ws: seq<Window>, startDate: int, endDate: int, freqs: seq<string>)
    requires Tiles(ws, startDate, endDate)
    ensures RepairBatches(t, ws, freqs) == Repaired(t, Candidates(t, Window(startDate, endDate), freqs))
  {
    hide Repaired, Candidates;
    if startDate > endDate {
      EmptyWindow(t, Window(startDate, endDate), freqs);
      RepairNothing(t);
    } else {
      var last := ws[|ws|-1];
      BatchesAreOneRepair(t, ws[..|ws|-1], startDate, last.startDate - 1, freqs);
      var a, b := Candidates(t, Window(startDate, last.startDate - 1), freqs), Candidates(t, last, freqs);
      WindowSplits(t, startDate, last.startDate, endDate, freqs);
      CandidatesAfterRepair(t, a, last, freqs);
      assert b - a == b;
      RepairTwice(t, a, b);
    }
  }

  lemma EmptyWindow(t: Table, w: Window, freqs: seq<string>)
    requires w.startDate > w.endDate
    ensures Candidates(t, w, freqs) == {}
  {
  }

  /** After a repair its window holds no candidate, so repairing again changes nothing. */
  lemma RepairIsIdempotent(t: Table, w: Window, freqs: seq<string>)
    ensures var once := Repaired(t, Candidates(t, w, freqs));
            && Candidates(once, w, freqs) == {}
            && Repaired(once, Candidates(once, w, freqs)) == once
  {
    var c := Candidates(t, w, freqs);
    CandidatesAfterRepair(t, c, w, freqs);
    RepairNothing(Repaired(t, c));
  }

  // ----- the day-by-day script: five statements on a temporary table -----

  datatype Ident = Ident(symbol: string, freq: string, adjType: int)

  function IdentOf(k: Key): Ident { Ident(k.symbol, k.freq, k.adjType) }
  function KeyAt(time: int, id: Ident): Key { Key(time, id.symbol, id.freq, id.adjType) }

  function SourceTime(day: int): int { day * DAY - SHIFT }
  function TargetTime(day: int): int { day * DAY }

  /** The temporary table: candidate identities, each with has_conflict. */
  type Temp = map<Ident, bool>

  function DayCandidates(t: Table, day: int, freqs: seq<string>): (c: set<Key>)
    ensures c <= t.Keys
  {
    set k | k in t && k.time == SourceTime(day) && k.freq in freqs
  }

  function FillTemp(t: Table, day: int, freqs: seq<string>): (tmp: Temp)
    ensures forall id :: id in tmp <==> KeyAt(SourceTime(day), id) in DayCandidates(t, day, freqs)
    ensures forall id :: id in tmp ==> (tmp[id] <==> KeyAt(TargetTime(day), id) in t)
  {
    var ids := set k | k in DayCandidates(t, day, freqs) :: IdentOf(k);
    assert forall id :: KeyAt(SourceTime(day), id) in DayCandidates(t, day, freqs) ==> IdentOf(KeyAt(SourceTime(day), id)) == id;
    assert forall k :: k in DayCandidates(t, day, freqs) ==> KeyAt(SourceTime(day), IdentOf(k)) == k;
    map id | id in ids :: KeyAt(TargetTime(day), id) in t
  }

  /** The temporary table says that the row of id in the source slot has (or has not) a conflict. */
  predicate Listed(tmp: Temp, id: Ident, conflict: bool) { id in tmp && tmp[id] == conflict }

  function DayMerges(t: Table, tmp: Temp, day: int): (m: Table)
    ensures m.Keys <= t.Keys
  {
    map d | d in t && d.time == TargetTime(day) && Listed(tmp, IdentOf(d), true)
            && KeyAt(SourceTime(day), IdentOf(d)) in t
            && NeedsFill(t[d], t[KeyAt(SourceTime(day), IdentOf(d))])
      :: Merge(t[d], t[KeyAt(SourceTime(day), IdentOf(d))])
  }

  function DayDeletes(t: Table, tmp: Temp, day: int): set<Key> {
    set k | k in t && k.time == SourceTime(day) && Listed(tmp, IdentOf(k), true)
  }

  /** INSERT ... ON CONFLICT DO NOTHING. */
  function DayInserts(t: Table, tmp: Temp, day: int): (ins: Table) {
    map d | d in (set k | k in t && k.time == SourceTime(day) && Listed(tmp, IdentOf(k), false)
                    :: KeyAt(TargetTime(day), IdentOf(k))) && d !in t
      :: t[KeyAt(SourceTime(day), IdentOf(d))]
  }

  function DayPurges(t: Table, tmp: Temp, day: int): set<Key> {
    set k | k in t && k.time == SourceTime(day) && Listed(tmp, IdentOf(k), false)
            && KeyAt(TargetTime(day), IdentOf(k)) in t
  }

  lemma DayCandidatesAreShifted(t: Table, day: int, freqs: seq<string>)
    ensures AllShifted(DayCandidates(t, day, freqs))
  {
    NextDayBack(day);
  }

  lemma NextDayBack(day: int)
    ensures HourOf(SourceTime(day)) == SHIFTED_HOUR
    ensures SourceTime(day) % DAY == 2 * SHIFT
  {
    assert SourceTime(day) == (day - 1) * DAY + 2 * SHIFT;
  }

  /** The table after the four writing statements, run in sequence on one temporary table. */
  function RepairedDay(t: Table, day: int, freqs: seq<string>): Table {
    var tmp := FillTemp(t, day, freqs);
    var merged := t + DayMerges(t, tmp, day);
    var deleted := merged - DayDeletes(merged, tmp, day);
    var inserted := deleted + DayInserts(deleted, tmp, day);
    inserted - DayPurges(inserted, tmp, day)
  }

  /** The day's statements in sequence repair exactly the rows of its source slot. */
  lemma DayIsRepair(t: Table, day: int, freqs: seq<string>)
    ensures RepairedDay(t, day, freqs) == Repaired(t, DayCandidates(t, day, freqs))
  {
    hide RepairedDay, Repaired;
    var seqd, ref := RepairedDay(t, day, freqs), Repaired(t, DayCandidates(t, day, freqs));
    forall d ensures (d in seqd <==> d in ref) && (d in seqd ==> seqd[d] == ref[d]) {
      DayAt(t, day, freqs, d);
    }
  }

  /** A key's row in the source slot of a day. */
  function SourceOn(day: int, d: Key): Key { KeyAt(SourceTime(day), IdentOf(d)) }

  lemma AfterDayMerges(t: Table, tmp: Temp, day: int, d: Key)
    ensures var u := t + DayMerges(t, tmp, day);
            && (d in u <==> d in t)
            && (d in t ==> u[d] == if d.time == TargetTime(day) && Listed(tmp, IdentOf(d), true) && SourceOn(day, d) in t
                                   then Merge(t[d], t[SourceOn(day, d)]) else t[d])
  {
    hide Merge, NeedsFill, Listed;
    var src := SourceOn(day, d);
    if d in t && src in t { FillIffMergeChanges(t[d], t[src]); }
  }

  lemma AfterDayInserts(t: Table, tmp: Temp, day: int, d: Key)
    ensures var u := t + DayInserts(t, tmp, day);
            var arrives := d.time == TargetTime(day) && Listed(tmp, IdentOf(d), false) && SourceOn(day, d) in t;
            && (d in u <==> d in t || arrives)
            && (d in t ==> u[d] == t[d])
            && (d !in t && arrives ==> u[d] == t[SourceOn(day, d)])
  {
    hide Listed;
    var src := SourceOn(day, d);
    assert IdentOf(src) == IdentOf(d);
    assert d.time == TargetTime(day) ==> KeyAt(TargetTime(day), IdentOf(src)) == d;
  }

  lemma AfterDayDeletes(t: Table, tmp: Temp, day: int, d: Key)
    ensures var u := t - DayDeletes(t, tmp, day);
            && (d in u <==> d in t && !(d.time == SourceTime(day) && Listed(tmp, IdentOf(d), true)))
            && (d in u ==> u[d] == t[d])
  {
  }

  lemma AfterDayPurges(t: Table, tmp: Temp, day: int, d: Key)
    ensures var u := t - DayPurges(t, tmp, day);
            && (d in u <==> d in t && !(d.time == SourceTime(day) && Listed(tmp, IdentOf(d), false)
                                        && KeyAt(TargetTime(day), IdentOf(d)) in t))
            && (d in u ==> u[d] == t[d])
  {
  }

  lemma DayAt(t: Table, day: int, freqs: seq<string>, d: Key)
    ensures var seqd, ref := RepairedDay(t, day, freqs), Repaired(t, DayCandidates(t, day, freqs));
            (d in seqd <==> d in ref) && (d in seqd ==> seqd[d] == ref[d])
  {
    var id := IdentOf(d);
    var src, dst := SourceOn(day, d), KeyAt(TargetTime(day), id);
    assert d.time == SourceTime(day) ==> d == src;
    assert d.time == TargetTime(day) ==> d == dst;
    assert IdentOf(src) == id && IdentOf(dst) == id && SourceOn(day, src) == SourceOn(day, dst) == src;
    assert Source(d) in DayCandidates(t, day, freqs) <==> d == dst && src in DayCandidates(t, day, freqs);
    hide DayMerges, DayDeletes, DayInserts, DayPurges, Merge, NeedsFill, FillTemp, DayCandidates;
    var tmp := FillTemp(t, day, freqs);
    assert d in DayCandidates(t, day, freqs) <==> d == src && id in tmp by { MemberOfDay(t, day, freqs, d); }
    var merged := t + DayMerges(t, tmp, day);
    var deleted := merged - DayDeletes(merged, tmp, day);
    var inserted := deleted + DayInserts(deleted, tmp, day);
    AfterDayMerges(t, tmp, day, src);
    AfterDayMerges(t, tmp, day, d);
    AfterDayDeletes(merged, tmp, day, src);
    AfterDayDeletes(merged, tmp, day, d);
    AfterDayInserts(deleted, tmp, day, dst);
    AfterDayInserts(deleted, tmp, day, d);
    AfterDayPurges(inserted, tmp, day, d);
  }

  lemma MemberOfDay(t: Table, day: int, freqs: seq<string>, d: Key)
    ensures d in DayCandidates(t, day, freqs) <==> d == SourceOn(day, d) && SourceOn(day, d) in DayCandidates(t, day, freqs)
  {
  }

  /** The days first..last, one after the other. */
  function RepairDays(t: Table, first: int, last: int, freqs: seq<string>): Table
    decreases last - first + 1
  {
    if first > last then t else
      var u := RepairDays(t, first, last - 1, freqs);
      Repaired(u, DayCandidates(u, last, freqs))
  }

  lemma DaysStep(t: Table, first: int, last: int, freqs: seq<string>)
    ensures RepairDays(t, first, last, freqs)
         == if first > last then t
            else Repaired(RepairDays(t, first, last - 1, freqs), DayCandidates(RepairDays(t, first, last - 1, freqs), last, freqs))
  {
  }

  /** The candidates at exactly 16:00:00, all the day-by-day script ever looks at. */
  function ExactCandidates(t: Table, w: Window, freqs: seq<string>): (c: set<Key>)
    ensures c <= Candidates(t, w, freqs)
  {
    set k | k in t && IsCandidate(k, w, freqs) && k.time % DAY == SHIFTED_HOUR * 3600
  }

  lemma ExactSlot(k: Key, day: int)
    requires day * DAY - SHIFT <= k.time < (day + 1) * DAY - SHIFT
    ensures k.time % DAY == SHIFTED_HOUR * 3600 <==> k.time == SourceTime(day)
  {
    NextDayBack(day);
    var r := k.time - SourceTime(day);
    if 0 < r {
      if r < SHIFT {
        assert k.time == (day - 1) * DAY + (2 * SHIFT + r);
      } else {
        assert k.time == day * DAY + (r - SHIFT);
      }
    }
  }

  lemma ExactSplits(t: Table, first: int, last: int, freqs: seq<string>)
    requires first <= last
    ensures var a, b := ExactCandidates(t, Window(first, last - 1), freqs), DayCandidates(t, last, freqs);
            a !! b && a + b == ExactCandidates(t, Window(first, last), freqs)
  {
    NextDayBack(last);
    forall k: Key | last * DAY - SHIFT <= k.time < (last + 1) * DAY - SHIFT
      ensures k.time % DAY == SHIFTED_HOUR * 3600 <==> k.time == SourceTime(last)
    {
      ExactSlot(k, last);
    }
  }

  lemma DayCandidatesAfterRepair(t: Table, a: set<Key>, day: int, freqs: seq<string>)
    requires a <= t.Keys && AllShifted(a)
    ensures DayCandidates(Repaired(t, a), day, freqs) == DayCandidates(t, day, freqs) - a
  {
    RepairLeavesNone(t, a);
    NextDayBack(day);
    hide Repaired;
  }

  /** Day by day is one repair of the exact candidates of the range. */
  lemma {:induction false} DaysAreOneRepair(t: Table, first: int, last: int, freqs: seq<string>)
    ensures RepairDays(t, first, last, freqs) == Repaired(t, ExactCandidates(t, Window(first, last), freqs))
    decreases last - first + 1
  {
    hide Repaired, Candidates, ExactCandidates, DayCandidates;
    if first > last {
      EmptyWindow(t, Window(first, last), freqs);
      assert ExactCandidates(t, Window(first, last), freqs) == {};
      RepairNothing(t);
    } else {
      DaysAreOneRepair(t, first, last - 1, freqs);
      var a, b := ExactCandidates(t, Window(first, last - 1), freqs), DayCandidates(t, last, freqs);
      ExactSplits(t, first, last, freqs);
      DayCandidatesAreShifted(t, last, freqs);
      DayCandidatesAfterRepair(t, a, last, freqs);
      assert b - a == b;
      RepairTwice(t, a, b);
    }
  }

  /** The table the general script leaves, column by column. */
  lemma BatchesFillColumns(t: Table, ws: seq<Window>, startDate: int, endDate: int, freqs: seq<string>)
    requires Tiles(ws, startDate, endDate)
    ensures RepairedRowByRow(t, Candidates(t, Window(startDate, endDate), freqs), RepairBatches(t, ws, freqs))
  {
    hide *;
    BatchesAreOneRepair(t, ws, startDate, endDate, freqs);
    RepairFillsColumns(t, Candidates(t, Window(startDate, endDate), freqs));
  }

  /** The table the day-by-day script leaves, column by column. */
  lemma DaysFillColumns(t: Table, first: int, last: int, freqs: seq<string>)
    ensures ExactCandidates(t, Window(first, last), freqs) <= t.Keys
    ensures RepairedRowByRow(t, ExactCandidates(t, Window(first, last), freqs), RepairDays(t, first, last, freqs))
  {
    var c := ExactCandidates(t, Window(first, last), freqs);
    assert AllShifted(c);
    hide *;
    DaysAreOneRepair(t, first, last, freqs);
    RepairFillsColumns(t, c);
  }

  /** Second s of the day the data of date `day` is stored on, eight hours early: 16:00:00 of the day before, and on. */
  function EarlyTime(day: int, s: int): int { day * 86400 - 28800 + s }

  /** The rows the two scripts take: those in the hour from 16:00 UTC before a date of the range, or at its very start. */
  lemma CandidatesAre(t: Table, startDate: int, endDate: int, freqs: seq<string>, k: Key)
    ensures k in Candidates(t, Window(startDate, endDate), freqs) <==>
              k in t && k.freq in freqs && exists day, s :: startDate <= day <= endDate && 0 <= s < 3600 && k.time == EarlyTime(day, s)
    ensures k in ExactCandidates(t, Window(startDate, endDate), freqs) <==>
              k in t && k.freq in freqs && exists day :: startDate <= day <= endDate && k.time == EarlyTime(day, 0)
  {
    var w := Window(startDate, endDate);
    var q, r := k.time / DAY, k.time % DAY;
    assert k.time == q * DAY + r;
    assert EarlyTime(q + 1, r - 57600) == k.time;
    if IsCandidate(k, w, freqs) {
      assert startDate <= q + 1 <= endDate && 0 <= r - 57600 < 3600;
    }
    forall day, s | 0 <= s < 3600 && k.time == EarlyTime(day, s) ensures day == q + 1 && s == r - 57600 {
      SameDay(day, s, q, r);
    }
  }

  /** Where they go: eight hours later, to the same second of the date itself. */
  lemma TargetIs(k: Key, day: int, s: int)
    requires k.time == EarlyTime(day, s)
    ensures Target(k) == k.(time := day * 86400 + s)
  {
  }

  lemma SameDay(day: int, s: int, q: int, r: int)
    requires 0 <= s < 3600 && 0 <= r < DAY && EarlyTime(day, s) == q * DAY + r
    ensures day == q + 1 && s == r - 57600
  {
  }

  /** The two scripts leave the same table exactly when every candidate of the range is at 16:00:00. */
  lemma ScriptsAgreeIff(t: Table, startDate: int, endDate: int, ws: seq<Window>, freqs: seq<string>)
    requires Tiles(ws, startDate, endDate)
    ensures RepairBatches(t, ws, freqs) == RepairDays(t, startDate, endDate, freqs)
       <==> forall k :: k in t && IsCandidate(k, Window(startDate, endDate), freqs) ==> k.time % DAY == SHIFTED_HOUR * 3600
  {
    var w := Window(startDate, endDate);
    ExactIffAll(t, w, freqs);
    hide *;
    BatchesAreOneRepair(t, ws, startDate, endDate, freqs);
    DaysAreOneRepair(t, startDate, endDate, freqs);
    RepairsDiffer(t, Candidates(t, w, freqs), ExactCandidates(t, w, freqs));
  }

  lemma ExactIffAll(t: Table, w: Window, freqs: seq<string>)
    ensures ExactCandidates(t, w, freqs) == Candidates(t, w, freqs)
       <==> forall k :: k in t && IsCandidate(k, w, freqs) ==> k.time % DAY == SHIFTED_HOUR * 3600
  {
    hide IsCandidate;
    var exact := ExactCandidates(t, w, freqs);
    if exact == Candidates(t, w, freqs) {
      forall k | k in t && IsCandidate(k, w, freqs) ensures k.time % DAY == SHIFTED_HOUR * 3600 {
        assert k in exact;
      }
    }
  }

  /** Repairing fewer shifted rows leaves another table. */
  lemma RepairsDiffer(t: Table, all: set<Key>, some: set<Key>)
    requires some <= all <= t.Keys && AllShifted(all)
    ensures Repaired(t, all) == Repaired(t, some) <==> some == all
  {
    RepairLeavesNone(t, all);
    RepairLeavesNone(t, some);
    hide Repaired, HourOf;
    if k :| k in all && k !in some {
      assert k in Repaired(t, some) && k !in Repaired(t, all);
    }
  }

  // ----- the scripts at work -----

  /** What the batches report, together. */
  function BatchStats(t: Table, ws: seq<Window>, freqs: seq<string>): Stats {
    if ws == [] then NOTHING else
      var u := RepairBatches(t, ws[..|ws|-1], freqs);
      Plus(BatchStats(t, ws[..|ws|-1], freqs), RepairStats(u, Candidates(u, ws[|ws|-1], freqs)))
  }

  /** The numbers of the batches of a range add up to those of one repair over the range. */
  lemma {:induction false} BatchesReportOneRepair(t: Table, ws: seq<Window>, startDate: int, endDate: int, freqs: seq<string>)
    requires Tiles(ws, startDate, endDate)
    ensures BatchStats(t, ws, freqs) == RepairStats(t, Candidates(t, Window(startDate, endDate), freqs))
  {
    hide Repaired, Candidates, RepairStats, Plus;
    if startDate > endDate {
      EmptyWindow(t, Window(startDate, endDate), freqs);
      StatsOfNothing(t);
    } else {
      var front, last := ws[..|ws|-1], ws[|ws|-1];
      BatchesReportOneRepair(t, front, startDate, last.startDate - 1, freqs);
      BatchesAreOneRepair(t, front, startDate, last.startDate - 1, freqs);
      var a, b := Candidates(t, Window(startDate, last.startDate - 1), freqs), Candidates(t, last, freqs);
      WindowSplits(t, startDate, last.startDate, endDate, freqs);
      CandidatesAfterRepair(t, a, last, freqs);
      assert b - a == b;
      StatsAddUp(t, a, b);
    }
  }

  lemma {:induction false} DaysReportOneRepair(t: Table, first: int, last: int, freqs: seq<string>)
    requires first <= last
    ensures var days := RepairDays(t, first, last - 1, freqs);
            RepairStats(t, ExactCandidates(t, Window(first, last), freqs))
              == Plus(RepairStats(t, ExactCandidates(t, Window(first, last - 1), freqs)),
                      RepairStats(days, DayCandidates(days, last, freqs)))
  {
    DaysAreOneRepair(t, first, last - 1, freqs);
    hide Repaired, Candidates, ExactCandidates, DayCandidates, RepairStats, Plus, RepairDays;
    var a, b := ExactCandidates(t, Window(first, last - 1), freqs), DayCandidates(t, last, freqs);
    ExactSplits(t, first, last, freqs);
    DayCandidatesAreShifted(t, last, freqs);
    DayCandidatesAfterRepair(t, a, last, freqs);
    assert b - a == b;
    StatsAddUp(t, a, b);
  }

  class KlineStore {
    var rows: Table

    constructor (t: Table)
      ensures rows == t
    {
      rows := t;
    }

    /**
     * One batch of the general script. Whichever of the four branches runs, the table and the
     * reported numbers are those of the full statement.
     */
    method RepairBatch(w: Window, freqs: seq<string>) returns (stats: Stats)
      modifies this
      ensures rows == Repaired(old(rows), Candidates(old(rows), w, freqs))
      ensures stats == RepairStats(old(rows), Candidates(old(rows), w, freqs))
    {
      ghost var t := rows;
      FullIsRepair(t, w, freqs);
      StatsUnfold(t, w, freqs);
      hide *;
      ConflictsArePart(t, Candidates(t, w, freqs));
      MergeCount(t, Candidates(t, w, freqs));
      FillNeededIsFilled(t, w, freqs);
      var candidates := Candidates(rows, w, freqs);
      var conflicts := Conflicts(rows, candidates);
      if |candidates| == 0 {
        NothingIsFull(t, w, freqs);
        stats := Stats(0, 0, 0, 0, 0);
      } else if |conflicts| == 0 {
        MoveOnlyIsFull(t, w, freqs);
        stats := Stats(|candidates|, 0, 0, |MoveEdits(rows, candidates)|, 0);
        rows := ExecuteMoveOnly(rows, w, freqs);
      } else if |candidates| == |conflicts| {
        if |FillNeeded(rows, w, freqs)| == 0 {
          DeleteConflictsIsFull(t, w, freqs);
          stats := Stats(|candidates|, |conflicts|, 0, 0, |conflicts|);
          rows := ExecuteDeleteConflicts(rows, w, freqs);
        } else {
          stats := Stats(|candidates|, |conflicts|, |MergeEdits(rows, candidates)|, |MoveEdits(rows, candidates)|, |conflicts|);
          rows := ExecuteFull(rows, w, freqs);
        }
      } else {
        stats := Stats(|candidates|, |conflicts|, |MergeEdits(rows, candidates)|, |MoveEdits(rows, candidates)|, |conflicts|);
        rows := ExecuteFull(rows, w, freqs);
      }
    }

    /** The general script: one report per batch, each followed by a count of the candidates left, always 0. */
    method ExecuteRepair(batches: seq<Window>, freqs: seq<string>) returns (reports: seq<Stats>, remaining: seq<nat>)
      modifies this
      ensures rows == RepairBatches(old(rows), batches, freqs)
      ensures Total(reports) == BatchStats(old(rows), batches, freqs)
      ensures forall first, last :: Tiles(batches, first, last) ==>
                RepairedRowByRow(old(rows), Candidates(old(rows), Window(first, last), freqs), rows)
      ensures |reports| == |remaining| == |batches| && forall j :: 0 <= j < |remaining| ==> remaining[j] == 0
    {
      hide *;
      ghost var t := rows;
      BatchesUnfold(t, batches, freqs, 0);
      reports, remaining := [], [];
      for i := 0 to |batches|
        invariant rows == RepairBatches(t, batches[..i], freqs)
        invariant Total(reports) == BatchStats(t, batches[..i], freqs)
        invariant |reports| == |remaining| == i && forall j :: 0 <= j < |remaining| ==> remaining[j] == 0
      {
        BatchesUnfold(t, batches, freqs, i);
        RepairIsIdempotent(rows, batches[i], freqs);
        var stats := RepairBatch(batches[i], freqs);
        TotalUnfolds(reports, stats);
        var left := |Candidates(rows, batches[i], freqs)|;
        assert left == 0;
        reports, remaining := reports + [stats], remaining + [left];
      }
      assert batches[..|batches|] == batches;
      forall first, last | Tiles(batches, first, last)
        ensures RepairedRowByRow(t, Candidates(t, Window(first, last), freqs), rows)
      {
        BatchesFillColumns(t, batches, first, last, freqs);
      }
    }

    /** One date of the day-by-day script: the table and the reported numbers are those of one repair of its slot. */
    method RepairDay(day: int, freqs: seq<string>) returns (stats: Stats)
      modifies this
      ensures rows == Repaired(old(rows), DayCandidates(old(rows), day, freqs))
      ensures stats == RepairStats(old(rows), DayCandidates(old(rows), day, freqs))
      ensures |rows| == |old(rows)| - stats.deleted
    {
      ghost var t := rows;
      DayCandidatesAreShifted(t, day, freqs);
      RepairCount(t, DayCandidates(t, day, freqs));
      DayIsRepair(t, day, freqs);
      DayConflicts(t, day, freqs);
      DayDeletesAreConflicts(t, day, freqs);
      DayMergeCount(t, day, freqs);
      DayInsertCount(t, day, freqs);
      hide Repaired, DayMerges, DayDeletes, DayInserts, DayPurges, FillTemp, DayCandidates, Conflicts, Filled, MoveEdits;
      var candidates := DayCandidates(rows, day, freqs);
      if |candidates| == 0 {
        assert candidates == {};
        RepairNothing(t);
        StatsOfNothing(t);
        return Stats(0, 0, 0, 0, 0);
      }
      var conflicts := set k | k in candidates && KeyAt(TargetTime(day), IdentOf(k)) in rows;
      var tmp := FillTemp(rows, day, freqs);
      var merges := DayMerges(rows, tmp, day);
      rows := rows + merges;
      var deletes := DayDeletes(rows, tmp, day);
      rows := rows - deletes;
      var inserts := DayInserts(rows, tmp, day);
      rows := rows + inserts;
      rows := rows - DayPurges(rows, tmp, day);
      stats := Stats(|candidates|, |conflicts|, |merges|, |inserts|, |deletes|);
    }

    /** The day-by-day script over a range; its totals are the numbers of one repair of the exact candidates. */
    method RunDays(startDate: int, endDate: int, freqs: seq<string>) returns (totals: Result<Stats>)
      modifies this
      ensures totals.Ok? <==> startDate <= endDate
      ensures totals.ValueError? ==> rows == old(rows)
      ensures totals.Ok? ==> rows == RepairDays(old(rows), startDate, endDate, freqs)
      ensures totals.Ok? ==> totals.result == RepairStats(old(rows), ExactCandidates(old(rows), Window(startDate, endDate), freqs))
      ensures totals.Ok? ==> RepairedRowByRow(old(rows), ExactCandidates(old(rows), Window(startDate, endDate), freqs), rows)
      ensures totals.Ok? ==> |rows| == |old(rows)| - totals.result.deleted
    {
      NoDays(rows, startDate, freqs);
      hide *;
      DaysStep(rows, startDate, startDate - 1, freqs);
      if startDate > endDate {
        return ValueError("start-date");
      }
      var total := NOTHING;
      var day := startDate;
      while day <= endDate
        invariant startDate <= day <= endDate + 1
        invariant rows == RepairDays(old(rows), startDate, day - 1, freqs)
        invariant total == RepairStats(old(rows), ExactCandidates(old(rows), Window(startDate, day - 1), freqs))
        invariant |rows| == |old(rows)| - total.deleted
      {
        DaysStep(old(rows), startDate, day, freqs);
        DaysReportOneRepair(old(rows), startDate, day, freqs);
        var stats := RepairDay(day, freqs);
        PlusDeleted(total, stats);
        total := Plus(total, stats);
        day := day + 1;
      }
      DaysFillColumns(old(rows), startDate, endDate, freqs);
      return Ok(total);
    }
  }

  lemma BatchesUnfold(t: Table, ws: seq<Window>, freqs: seq<string>, i: nat)
    requires i <= |ws|
    ensures RepairBatches(t, [], freqs) == t && BatchStats(t, [], freqs) == NOTHING == Total([])
    ensures i < |ws| ==>
              var u := RepairBatches(t, ws[..i], freqs);
              var c := Candidates(u, ws[i], freqs);
              && RepairBatches(t, ws[..i+1], freqs) == Repaired(u, c)
              && BatchStats(t, ws[..i+1], freqs) == Plus(BatchStats(t, ws[..i], freqs), RepairStats(u, c))
  {
    hide Repaired, Candidates, RepairStats, Plus;
    if i < |ws| { assert ws[..i+1][..i] == ws[..i]; }
  }

  lemma TotalUnfolds(reports: seq<Stats>, stats: Stats)
    ensures Total(reports + [stats]) == Plus(Total(reports), stats)
  {
    hide Plus;
    assert (reports + [stats])[..|reports|] == reports;
  }

  lemma PlusDeleted(a: Stats, b: Stats)
    ensures Plus(a, b).deleted == a.deleted + b.deleted
  {
  }

  lemma NoDays(t: Table, startDate: int, freqs: seq<string>)
    ensures RepairStats(t, ExactCandidates(t, Window(startDate, startDate - 1), freqs)) == NOTHING
    ensures NOTHING.deleted == 0
  {
    hide RepairStats;
    EmptyWindow(t, Window(startDate, startDate - 1), freqs);
    assert ExactCandidates(t, Window(startDate, startDate - 1), freqs) == {};
    StatsOfNothing(t);
  }

  lemma StatsUnfold(t: Table, w: Window, freqs: seq<string>)
    ensures var c := Candidates(t, w, freqs);
            RepairStats(t, c) == Stats(|c|, |Conflicts(t, c)|, |Filled(t, c)|, |MoveEdits(t, c)|, |Conflicts(t, c)|)
  {
  }

  /** The sum of the reports. */
  function Total(reports: seq<Stats>): Stats {
    if reports == [] then NOTHING else Plus(Total(reports[..|reports|-1]), reports[|reports|-1])
  }

  lemma DayMergeCount(t: Table, day: int, freqs: seq<string>)
    ensures |DayMerges(t, FillTemp(t, day, freqs), day)| == |Filled(t, DayCandidates(t, day, freqs))|
  {
    var filled, m := Filled(t, DayCandidates(t, day, freqs)), DayMerges(t, FillTemp(t, day, freqs), day);
    assert m.Keys == Targets(filled) by {
      hide NeedsFill, Merge, Targets, FillTemp, HourOf;
      forall d ensures d in m <==> Source(d) in filled {
        assert Target(Source(d)) == d && IdentOf(Source(d)) == IdentOf(d);
        assert d.time == TargetTime(day) ==> Source(d) == KeyAt(SourceTime(day), IdentOf(d)) && d == KeyAt(TargetTime(day), IdentOf(d));
      }
    }
    TargetsCount(filled);
    assert |m| == |m.Keys|;
  }

  lemma DayInsertCount(t: Table, day: int, freqs: seq<string>)
    ensures var tmp := FillTemp(t, day, freqs);
            var merged := t + DayMerges(t, tmp, day);
            |DayInserts(merged - DayDeletes(merged, tmp, day), tmp, day)| == |MoveEdits(t, DayCandidates(t, day, freqs))|
  {
    var moved, tmp := MoveEdits(t, DayCandidates(t, day, freqs)), FillTemp(t, day, freqs);
    var merged := t + DayMerges(t, tmp, day);
    var deleted := merged - DayDeletes(merged, tmp, day);
    var ins := DayInserts(deleted, tmp, day);
    forall d ensures d in ins <==> Source(d) in moved {
      DayInsertAt(t, day, freqs, d);
    }
    hide DayInserts, DayDeletes, DayMerges, FillTemp, MoveEdits, DayCandidates;
    assert ins.Keys == Targets(moved);
    TargetsCount(moved);
    assert |ins| == |ins.Keys|;
  }

  lemma DayInsertAt(t: Table, day: int, freqs: seq<string>, d: Key)
    ensures var tmp := FillTemp(t, day, freqs);
            var merged := t + DayMerges(t, tmp, day);
            d in DayInserts(merged - DayDeletes(merged, tmp, day), tmp, day) <==> Source(d) in MoveEdits(t, DayCandidates(t, day, freqs))
  {
    var tmp, src := FillTemp(t, day, freqs), SourceOn(day, d);
    var merged := t + DayMerges(t, tmp, day);
    hide DayMerges, DayDeletes, FillTemp, HourOf;
    AfterDayMerges(t, tmp, day, src);
    AfterDayMerges(t, tmp, day, d);
    AfterDayDeletes(merged, tmp, day, src);
    AfterDayDeletes(merged, tmp, day, d);
    assert Target(Source(d)) == d && IdentOf(Source(d)) == IdentOf(d) == IdentOf(src);
    assert d.time == TargetTime(day) <==> Source(d) == src;
    assert d.time == TargetTime(day) ==> d == KeyAt(TargetTime(day), IdentOf(d));
  }

  lemma DayConflicts(t: Table, day: int, freqs: seq<string>)
    ensures (set k | k in DayCandidates(t, day, freqs) && KeyAt(TargetTime(day), IdentOf(k)) in t)
         == Conflicts(t, DayCandidates(t, day, freqs))
  {
    assert forall k :: k in DayCandidates(t, day, freqs) ==> Target(k) == KeyAt(TargetTime(day), IdentOf(k));
  }

  lemma DayDeletesAreConflicts(t: Table, day: int, freqs: seq<string>)
    ensures var tmp := FillTemp(t, day, freqs);
            DayDeletes(t + DayMerges(t, tmp, day), tmp, day) == Conflicts(t, DayCandidates(t, day, freqs))
  {
    hide Merge, NeedsFill;
    assert forall k: Key :: k.time == SourceTime(day) ==> KeyAt(SourceTime(day), IdentOf(k)) == k;
    assert forall k: Key :: k.time == SourceTime(day) ==> KeyAt(TargetTime(day), IdentOf(k)) == Target(k);
  }
}
