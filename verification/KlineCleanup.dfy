/**
 * The cleanup of 16:00:00 daily rows: rows with a midnight row of the same date are deleted, the
 * others are re-keyed to that midnight, both in batches of arbitrary choice.
 */
module KlineCleanup {
  import opened Basics
  import opened KlineTable

  /** Optional bounds on the stored time. */
  datatype Bounds = Bounds(from: Option<int>, before: Option<int>)

  predicate Within(time: int, b: Bounds) {
    (b.from.Some? ==> b.from.value <= time) && (b.before.Some? ==> time < b.before.value)
  }

  predicate IsStale(k: Key, b: Bounds) {
    k.freq == "1d" && k.time % DAY == 2 * SHIFT && Within(k.time, b)
  }

  function Midnight(k: Key): Key { k.(time := k.time - 2 * SHIFT) }
  function Afternoon(k: Key): Key { k.(time := k.time + 2 * SHIFT) }

  function Stale(t: Table, b: Bounds): (s: set<Key>)
    ensures s <= t.Keys
  {
    set k | k in t && IsStale(k, b)
  }

  function Doubled(t: Table, b: Bounds): (s: set<Key>)
    ensures s <= Stale(t, b)
  {
    set k | k in t && IsStale(k, b) && Midnight(k) in t
  }

  function Single(t: Table, b: Bounds): (s: set<Key>)
    ensures s <= Stale(t, b)
  {
    set k | k in t && IsStale(k, b) && Midnight(k) !in t
  }

  function Midnights(s: set<Key>): (r: set<Key>)
    ensures forall d :: d in r <==> Afternoon(d) in s
  {
    var r := set k | k in s :: Midnight(k);
    assert forall d :: Afternoon(d) in s ==> Midnight(Afternoon(d)) == d;
    assert forall k :: k in s ==> Afternoon(Midnight(k)) == k;
    r
  }

  /** UPDATE kline SET time = time - 16h for the keys of s. */
  function Rekeyed(t: Table, s: set<Key>): Table
    requires s <= t.Keys
  {
    (t - s) + map d | d in Midnights(s) :: t[Afternoon(d)]
  }

  /** The one-shot cleanup. */
  function Cleaned(t: Table, b: Bounds): Table {
    Rekeyed(t - Doubled(t, b), Single(t, b))
  }

  lemma MidnightIsNotStale(k: Key, b: Bounds)
    requires IsStale(k, b)
    ensures Midnight(k).time % DAY == 0 && !IsStale(Midnight(k), b)
  {
    var q := k.time / DAY;
    assert k.time - 2 * SHIFT == q * DAY;
  }

  /** No two re-keyed rows collide, and none lands on an existing row. */
  lemma NoKeyCollision(t: Table, b: Bounds)
    ensures forall j, k :: j in Single(t, b) && k in Single(t, b) && j != k ==> Midnight(j) != Midnight(k)
    ensures Midnights(Single(t, b)) !! t.Keys
  {
    assert forall d :: Midnight(Afternoon(d)) == d;
  }

  /** Nothing stale is left; every other row is as before; each re-keyed row carries its old values. */
  lemma CleanedRows(t: Table, b: Bounds)
    ensures Stale(Cleaned(t, b), b) == {}
    ensures forall d :: d in t && d !in Stale(t, b) ==> d in Cleaned(t, b) && Cleaned(t, b)[d] == t[d]
    ensures forall k :: k in Single(t, b) ==> Midnight(k) in Cleaned(t, b) && Cleaned(t, b)[Midnight(k)] == t[k]
    ensures forall d :: d in Cleaned(t, b) ==> d in t || Afternoon(d) in Single(t, b)
  {
    MidnightsAreNew(t, b);
    StaleSplits(t, b);
    assert forall k :: k in Single(t, b) ==> Afternoon(Midnight(k)) == k;
    hide IsStale, Doubled, Single;
    forall d | d in Cleaned(t, b) ensures !IsStale(d, b) {
      assert d in t ==> d !in Stale(t, b);
    }
  }

  lemma StaleSplits(t: Table, b: Bounds)
    ensures Stale(t, b) == Doubled(t, b) + Single(t, b)
    ensures Doubled(t, b) !! Single(t, b)
    ensures forall k :: k in t ==> (k in Stale(t, b) <==> IsStale(k, b))
  {
  }

  lemma MidnightsAreNew(t: Table, b: Bounds)
    ensures forall d :: d in Midnights(Single(t, b)) ==> !IsStale(d, b) && d !in t && Afternoon(d) in t
  {
    forall d | d in Midnights(Single(t, b)) ensures !IsStale(d, b) && d !in t && Afternoon(d) in t {
      assert Midnight(Afternoon(d)) == d;
      MidnightIsNotStale(Afternoon(d), b);
    }
  }

  /** Deleting some doubled rows leaves exactly the other doubled rows, and the same single rows. */
  lemma DeleteStep(t: Table, b: Bounds, gone: set<Key>)
    requires gone <= Doubled(t, b)
    ensures Doubled(t - gone, b) == Doubled(t, b) - gone
    ensures Single(t - gone, b) == Single(t, b)
  {
    forall k | k in t && IsStale(k, b) ensures Midnight(k) !in gone {
      MidnightIsNotStale(k, b);
    }
  }

  /** Re-keying some single rows leaves exactly the other single rows. */
  lemma RekeyStep(t: Table, b: Bounds, done: set<Key>)
    requires Doubled(t, b) == {} && done <= Single(t, b)
    ensures Single(Rekeyed(t, done), b) == Single(t, b) - done
    ensures Doubled(Rekeyed(t, done), b) == {}
  {
    hide IsStale;
    var u := Rekeyed(t, done);
    forall d | d in Midnights(done) ensures !IsStale(d, b) {
      assert Midnight(Afternoon(d)) == d;
      MidnightIsNotStale(Afternoon(d), b);
    }
    forall k | k in u && IsStale(k, b) ensures k in t && k !in done && Midnight(k) !in u && Midnight(k) !in t {
      MidnightIsNotStale(k, b);
      assert Afternoon(Midnight(k)) == k;
      assert k !in Doubled(t, b);
    }
    forall k | k in t && IsStale(k, b) && k !in done ensures k in u && Midnight(k) !in u {
      MidnightIsNotStale(k, b);
      assert Afternoon(Midnight(k)) == k;
      assert k !in Doubled(t, b);
    }
  }

  lemma RekeyTwice(t: Table, b: Bounds, done: set<Key>, more: set<Key>)
    requires done <= Single(t, b) && more <= Single(t, b) && done !! more
    ensures more <= Rekeyed(t, done).Keys
    ensures Rekeyed(Rekeyed(t, done), more) == Rekeyed(t, done + more)
  {
    var twice, once := Rekeyed(Rekeyed(t, done), more), Rekeyed(t, done + more);
    forall d ensures (d in twice <==> d in once) && (d in twice ==> twice[d] == once[d]) {
      RekeyTwiceAt(t, b, done, more, d);
    }
  }

  lemma RekeyTwiceAt(t: Table, b: Bounds, done: set<Key>, more: set<Key>, d: Key)
    requires done <= Single(t, b) && more <= Single(t, b) && done !! more
    requires more <= Rekeyed(t, done).Keys
    ensures var twice, once := Rekeyed(Rekeyed(t, done), more), Rekeyed(t, done + more);
            (d in twice <==> d in once) && (d in twice ==> twice[d] == once[d])
  {
    var src := Afternoon(d);
    assert Midnight(src) == d;
    assert src in done + more ==> d !in t && d !in done && d !in more by {
      if src in done + more { MidnightIsNotStale(src, b); }
    }
    assert src in more ==> Afternoon(src) !in done by {
      if Afternoon(src) in done { MidnightIsNotStale(Afternoon(src), b); }
    }
    hide IsStale;
  }

  class Store {
    var rows: Table

    constructor (t: Table)
      ensures rows == t
    {
      rows := t;
    }

    /** The delete loop stops at the first short batch; by then no doubled row is left. */
    method DeleteLoop(batchSize: nat, b: Bounds) returns (deletedTotal: nat)
      requires batchSize > 0
      modifies this
      ensures rows == old(rows) - Doubled(old(rows), b)
      ensures deletedTotal == |Doubled(old(rows), b)|
    {
      hide IsStale, Doubled, Single, Stale;
      ghost var t, all := rows, Doubled(rows, b);
      ghost var gone: set<Key> := {};
      deletedTotal := 0;
      while true
        invariant gone <= all && rows == t - gone && deletedTotal == |gone|
        decreases |all - gone|
      {
        DeleteStep(t, b, gone);
        var picked := PickSome(Doubled(rows, b), batchSize);
        BatchStep(all, gone, picked);
        assert (t - gone) - picked == t - (gone + picked);
        rows := rows - picked;
        deletedTotal := deletedTotal + |picked|;
        gone := gone + picked;
        if |picked| < batchSize {
          break;
        }
      }
    }

    /** The update loop, likewise. */
    method UpdateLoop(batchSize: nat, b: Bounds) returns (updatedTotal: nat)
      requires batchSize > 0 && Doubled(rows, b) == {}
      modifies this
      ensures rows == Rekeyed(old(rows), Single(old(rows), b))
      ensures updatedTotal == |Single(old(rows), b)|
    {
      RekeyNothing(rows);
      hide IsStale, Doubled, Single, Stale, Rekeyed;
      ghost var t, all := rows, Single(rows, b);
      ghost var done: set<Key> := {};
      updatedTotal := 0;
      while true
        invariant done <= all && rows == Rekeyed(t, done) && updatedTotal == |done|
        decreases |all - done|
      {
        RekeyStep(t, b, done);
        var picked := PickSome(Single(rows, b), batchSize);
        BatchStep(all, done, picked);
        RekeyTwice(t, b, done, picked);
        rows := Rekeyed(rows, picked);
        updatedTotal := updatedTotal + |picked|;
        done := done + picked;
        if |picked| < batchSize {
          break;
        }
      }
    }

    /** The whole cleanup equals the one-shot cleanup, for every positive batch size and every choice of batches. */
    method CleanupDuplicates(batchSize: nat, b: Bounds) returns (deleted: nat, updated: nat)
      requires batchSize > 0
      modifies this
      ensures rows == Cleaned(old(rows), b)
      ensures deleted == |Doubled(old(rows), b)| && updated == |Single(old(rows), b)|
    {
      ghost var t := rows;
      DeleteStep(t, b, Doubled(t, b));
      RekeyNothing(t);
      hide IsStale, Doubled, Single, Stale, Rekeyed;
      if |Stale(rows, b)| == 0 {
        assert Doubled(t, b) == {} && Single(t, b) == {};
        assert t - {} == t;
        return 0, 0;
      }
      deleted := DeleteLoop(batchSize, b);
      updated := UpdateLoop(batchSize, b);
    }
  }

  lemma RekeyNothing(t: Table)
    ensures Rekeyed(t, {}) == t
  {
    assert Midnights({}) == {};
  }

  // ----- the cleanup in plain times -----

  /** 16:00:00 UTC of a date, and the midnight that begins it. */
  function Sixteen(day: int): int { day * 86400 + 57600 }
  function Begin(day: int): int { day * 86400 }

  /** The rows concerned: daily ones stored at 16:00:00 of some date, within the bounds. */
  lemma StaleAre(t: Table, b: Bounds, k: Key)
    ensures k in Stale(t, b) <==>
              && k in t && k.freq == "1d" && (exists day :: k.time == Sixteen(day))
              && (b.from.Some? ==> b.from.value <= k.time) && (b.before.Some? ==> k.time < b.before.value)
  {
    var q, r := k.time / DAY, k.time % DAY;
    assert k.time == q * DAY + r;
    if r == 2 * SHIFT { assert k.time == Sixteen(q); }
    if day :| k.time == Sixteen(day) { SixteenIs(day); }
  }

  lemma SixteenIs(day: int)
    ensures Sixteen(day) % DAY == 2 * SHIFT
  {
    assert Sixteen(day) == day * DAY + 2 * SHIFT;
  }

  /** What becomes of a row at 16:00:00 of a date: gone, and the row at that date's midnight is the one there was, or else it. */
  lemma CleanedIs(t: Table, b: Bounds, k: Key, day: int)
    requires k in Stale(t, b) && k.time == Sixteen(day)
    ensures var at := k.(time := Begin(day));
            && k !in Cleaned(t, b) && at in Cleaned(t, b)
            && Cleaned(t, b)[at] == (if at in t then t[at] else t[k])
            && (k in Doubled(t, b) <==> at in t) && (k in Single(t, b) <==> at !in t)
  {
    var at := k.(time := Begin(day));
    assert at == Midnight(k);
    CleanedRows(t, b);
    StaleSplits(t, b);
    MidnightIsNotStale(k, b);
    assert k in Doubled(t, b) <==> at in t by { DoubledIff(t, b, k); }
    hide IsStale, Doubled, Single, Cleaned;
  }

  lemma DoubledIff(t: Table, b: Bounds, k: Key)
    requires k in Stale(t, b)
    ensures k in Doubled(t, b) <==> Midnight(k) in t
  {
  }
}
