/**
 * The kline table and what it means to repair a set of its rows: a set-at-a-time reference
 * that every repair script is proved against. Times are seconds since the epoch in UTC.
 */
module KlineTable {
  import opened Basics

  datatype Key = Key(time: int, symbol: string, freq: string, adjType: int)

  datatype Row = Row(
    open: Option<real>, high: Option<real>, low: Option<real>, close: Option<real>,
    volume: Option<int>, amount: Option<real>, turnover: Option<real>, volRatio: Option<real>,
    limitUp: Option<real>, limitDown: Option<real>)

  /** The unique index on (time, symbol, freq, adj_type) makes the table a map. */
  type Table = map<Key, Row>

  const DAY := 86400
  const SHIFT := 8 * 3600
  const SHIFTED_HOUR := 16

  function HourOf(time: int): int { time % DAY / 3600 }

  function Target(k: Key): Key { k.(time := k.time + SHIFT) }
  function Source(k: Key): Key { k.(time := k.time - SHIFT) }

  /** Rows stored eight hours early lie in hour 16 and belong at hour 0. */
  ghost predicate AllShifted(c: set<Key>) {
    forall k :: k in c ==> HourOf(k.time) == SHIFTED_HOUR
  }

  lemma TargetHour(k: Key)
    requires HourOf(k.time) == SHIFTED_HOUR
    ensures HourOf(Target(k).time) == 0
  {
    var q, r := k.time / DAY, k.time % DAY;
    assert k.time == q * DAY + r && SHIFTED_HOUR * 3600 <= r < DAY;
    NextDay(q, r);
  }

  lemma NextDay(q: int, r: int)
    requires 2 * SHIFT <= r < DAY
    ensures (q * DAY + r + SHIFT) % DAY == r - 2 * SHIFT
  {
    assert q * DAY + r + SHIFT == (q + 1) * DAY + (r - 2 * SHIFT);
  }

  // ----- COALESCE, column by column -----

  function Coalesce<T>(a: Option<T>, b: Option<T>): Option<T> {
    if a.Some? then a else b
  }

  function Merge(dst: Row, src: Row): Row {
    Row(Coalesce(dst.open, src.open), Coalesce(dst.high, src.high), Coalesce(dst.low, src.low),
        Coalesce(dst.close, src.close), Coalesce(dst.volume, src.volume), Coalesce(dst.amount, src.amount),
        Coalesce(dst.turnover, src.turnover), Coalesce(dst.volRatio, src.volRatio),
        Coalesce(dst.limitUp, src.limitUp), Coalesce(dst.limitDown, src.limitDown))
  }

  predicate Lacks<T>(a: Option<T>, b: Option<T>) { a.None? && b.Some? }

  predicate NeedsFill(dst: Row, src: Row) {
    || Lacks(dst.open, src.open) || Lacks(dst.high, src.high) || Lacks(dst.low, src.low)
    || Lacks(dst.close, src.close) || Lacks(dst.volume, src.volume) || Lacks(dst.amount, src.amount)
    || Lacks(dst.turnover, src.turnover) || Lacks(dst.volRatio, src.volRatio)
    || Lacks(dst.limitUp, src.limitUp) || Lacks(dst.limitDown, src.limitDown)
  }

  /** The update's guard skips exactly the rows it would not change. */
  lemma FillIffMergeChanges(dst: Row, src: Row)
    ensures NeedsFill(dst, src) <==> Merge(dst, src) != dst
  {
  }

  // ----- the reference: repairing a set c of shifted rows -----

  function Targets(c: set<Key>): (r: set<Key>)
    ensures forall d :: d in r <==> Source(d) in c
  {
    var r := set k | k in c :: Target(k);
    assert forall d :: d in r ==> Source(d) in c;
    assert forall d :: Source(d) in c ==> Target(Source(d)) == d;
    r
  }

  function Conflicts(t: Table, c: set<Key>): set<Key> {
    set k | k in c && Target(k) in t
  }

  /** Every row of c leaves; its target keeps its own values, takes the missing ones, or is created. */
  function Repaired(t: Table, c: set<Key>): (r: Table)
    requires c <= t.Keys
    ensures r.Keys == (t.Keys - c) + Targets(c)
  {
    map d | d in (t.Keys - c) + Targets(c) ::
      if d !in t then t[Source(d)]
      else if Source(d) in c then Merge(t[d], t[Source(d)])
      else t[d]
  }

  lemma RepairNothing(t: Table)
    ensures Repaired(t, {}) == t
  {
  }

  /** After a repair no repaired row is left: targets lie at hour 0. */
  lemma RepairLeavesNone(t: Table, c: set<Key>)
    requires c <= t.Keys && AllShifted(c)
    ensures Repaired(t, c).Keys !! c
    ensures forall k: Key :: HourOf(k.time) == SHIFTED_HOUR ==> (k in Repaired(t, c) <==> k in t && k !in c)
    ensures forall k: Key :: HourOf(k.time) == SHIFTED_HOUR && k in Repaired(t, c) ==> Repaired(t, c)[k] == t[k]
  {
    forall k: Key | HourOf(k.time) == SHIFTED_HOUR ensures k !in Targets(c) {
      if Source(k) in c { TargetHour(Source(k)); }
    }
  }

  /** What became of each row: conflicting targets are filled up, other sources reappear eight hours later, the rest is untouched. */
  lemma RepairRows(t: Table, c: set<Key>)
    requires c <= t.Keys && AllShifted(c)
    ensures forall k :: k in c && Target(k) in t ==>
              Target(k) in Repaired(t, c) && Repaired(t, c)[Target(k)] == Merge(t[Target(k)], t[k])
    ensures forall k :: k in c && Target(k) !in t ==>
              Target(k) in Repaired(t, c) && Repaired(t, c)[Target(k)] == t[k]
    ensures forall d :: Source(d) !in c && d !in c ==>
              (d in Repaired(t, c) <==> d in t) && (d in t ==> Repaired(t, c)[d] == t[d])
  {
    forall k | k in c ensures Target(k) !in c && Source(Target(k)) == k {
      TargetHour(k);
    }
  }

  /** A column after a merge: its own value if it had one, else exactly the source's value of the same column. */
  predicate FilledFrom<T(==)>(now: Option<T>, own: Option<T>, source: Option<T>) {
    && (own.Some? ==> now == own)
    && (own.None? && source.Some? ==> now == source)
    && (own.None? && source.None? ==> now.None?)
  }

  /** All ten columns of a row. */
  predicate AllFilledFrom(now: Row, own: Row, source: Row) {
    && FilledFrom(now.open, own.open, source.open) && FilledFrom(now.high, own.high, source.high)
    && FilledFrom(now.low, own.low, source.low) && FilledFrom(now.close, own.close, source.close)
    && FilledFrom(now.volume, own.volume, source.volume) && FilledFrom(now.amount, own.amount, source.amount)
    && FilledFrom(now.turnover, own.turnover, source.turnover) && FilledFrom(now.volRatio, own.volRatio, source.volRatio)
    && FilledFrom(now.limitUp, own.limitUp, source.limitUp) && FilledFrom(now.limitDown, own.limitDown, source.limitDown)
  }

  lemma MergeFills(own: Row, source: Row)
    ensures AllFilledFrom(Merge(own, source), own, source)
  {
  }

  /** What the table u holds in place of t after the rows c were repaired, row by row and column by column. */
  ghost predicate RepairedRowByRow(t: Table, c: set<Key>, u: Table)
    requires c <= t.Keys
  {
    && (forall k :: k in c && Target(k) in t ==> Target(k) in u && AllFilledFrom(u[Target(k)], t[Target(k)], t[k]))
    && (forall k :: k in c && Target(k) !in t ==> Target(k) in u && u[Target(k)] == t[k])
    && (forall k :: k in c ==> k !in u)
    && (forall d :: d !in c && Source(d) !in c ==> (d in u <==> d in t) && (d in t ==> u[d] == t[d]))
  }

  /** A repair gives every column of a conflicting target its own value or else the source's value of that column. */
  lemma RepairFillsColumns(t: Table, c: set<Key>)
    requires c <= t.Keys && AllShifted(c)
    ensures RepairedRowByRow(t, c, Repaired(t, c))
  {
    RepairRows(t, c);
    RepairLeavesNone(t, c);
    hide Merge, Repaired, AllFilledFrom, HourOf;
    forall k | k in c && Target(k) in t ensures AllFilledFrom(Merge(t[Target(k)], t[k]), t[Target(k)], t[k]) {
      MergeFills(t[Target(k)], t[k]);
    }
  }

  /** Repairing two disjoint sets one after the other is repairing their union. */
  lemma RepairTwice(t: Table, a: set<Key>, b: set<Key>)
    requires a <= t.Keys && b <= t.Keys && a !! b && AllShifted(a) && AllShifted(b)
    ensures b <= Repaired(t, a).Keys
    ensures Repaired(Repaired(t, a), b) == Repaired(t, a + b)
  {
    RepairLeavesNone(t, a);
    var once := Repaired(t, a);
    var twice, both := Repaired(once, b), Repaired(t, a + b);
    forall d ensures (d in twice <==> d in both) && (d in twice ==> twice[d] == both[d]) {
      RepairTwiceAt(t, a, b, d);
    }
  }

  lemma RepairTwiceAt(t: Table, a: set<Key>, b: set<Key>, d: Key)
    requires a <= t.Keys && b <= t.Keys && a !! b && AllShifted(a) && AllShifted(b)
    requires b <= Repaired(t, a).Keys
    ensures var twice, both := Repaired(Repaired(t, a), b), Repaired(t, a + b);
            (d in twice <==> d in both) && (d in twice ==> twice[d] == both[d])
  {
    RepairLeavesNone(t, a);
    var src := Source(d);
    assert src in a || src in b ==> d !in a && d !in b by {
      if src in a || src in b { TargetHour(src); }
    }
    assert Source(src) !in a || src !in b by {
      if Source(src) in a { TargetHour(Source(src)); }
    }
    hide HourOf, Merge;
  }

  // ----- row counts -----

  lemma {:induction false} TargetsCount(c: set<Key>)
    ensures |Targets(c)| == |c|
  {
    hide Targets;
    if c == {} {
      assert forall d :: d !in Targets(c);
      assert Targets(c) == {};
    } else {
      var k :| k in c;
      TargetsCount(c - {k});
      DifferenceCount(c, {k});
      TargetsInsert(c, k);
      UnionCount(Targets(c - {k}), {Target(k)});
    }
  }

  lemma TargetsInsert(c: set<Key>, k: Key)
    requires k in c
    ensures Targets(c) == Targets(c - {k}) + {Target(k)}
    ensures Target(k) !in Targets(c - {k})
  {
    hide Targets;
    assert forall d :: Source(d) == k <==> d == Target(k);
  }

  /** A repair loses exactly one row per conflict. */
  lemma RepairCount(t: Table, c: set<Key>)
    requires c <= t.Keys && AllShifted(c)
    ensures |Repaired(t, c)| == |t| - |Conflicts(t, c)|
  {
    var conflicts := Conflicts(t, c);
    var moved := c - conflicts;
    RepairKeys(t, c);
    hide *;
    assert |Repaired(t, c)| == |Repaired(t, c).Keys|;
    UnionCount(t.Keys - c, Targets(moved));
    TargetsCount(moved);
    DifferenceCount(t.Keys, c);
    DifferenceCount(c, conflicts);
    assert |t.Keys| == |t|;
  }

  lemma RepairKeys(t: Table, c: set<Key>)
    requires c <= t.Keys && AllShifted(c)
    ensures var moved := c - Conflicts(t, c);
            && Repaired(t, c).Keys == (t.Keys - c) + Targets(moved)
            && (t.Keys - c) !! Targets(moved)
            && Conflicts(t, c) <= c
  {
    hide Targets, Merge;
    var moved := c - Conflicts(t, c);
    forall d | d in Targets(c) && d !in Targets(moved) ensures d in t.Keys - c {
      assert Source(d) in Conflicts(t, c) && Target(Source(d)) == d;
      TargetHour(Source(d));
    }
    forall d | d in Targets(moved) ensures d !in t.Keys {
      assert Target(Source(d)) == d;
    }
  }
}
