/** The numbers a repair reports, and why those of separate repairs add up. */
module RepairCounts {
  import opened Basics
  import opened KlineTable
  import opened RepairStatements

  datatype Stats = Stats(candidates: nat, conflicts: nat, merged: nat, moved: nat, deleted: nat)

  const NOTHING := Stats(0, 0, 0, 0, 0)

  function Plus(a: Stats, b: Stats): Stats {
    Stats(a.candidates + b.candidates, a.conflicts + b.conflicts, a.merged + b.merged, a.moved + b.moved, a.deleted + b.deleted)
  }

  /** Rows of c whose target lacks a value they have. */
  function Filled(t: Table, c: set<Key>): (f: set<Key>)
    requires c <= t.Keys
    ensures f <= Conflicts(t, c)
  {
    set k | k in c && Target(k) in t && NeedsFill(t[Target(k)], t[k])
  }

  /** The numbers of a repair of the rows c: conflicts are merged where needed and deleted, the other rows are moved. */
  function RepairStats(t: Table, c: set<Key>): Stats
    requires c <= t.Keys
  {
    Stats(|c|, |Conflicts(t, c)|, |Filled(t, c)|, |MoveEdits(t, c)|, |Conflicts(t, c)|)
  }

  lemma StatsOfNothing(t: Table)
    ensures RepairStats(t, {}) == NOTHING
  {
    assert Conflicts(t, {}) == {} && Filled(t, {}) == {} && MoveEdits(t, {}) == {};
  }

  lemma ConflictsArePart(t: Table, c: set<Key>)
    requires c <= t.Keys
    ensures Filled(t, c) <= Conflicts(t, c) <= c
    ensures |Filled(t, c)| <= |Conflicts(t, c)| <= |c|
    ensures |MoveEdits(t, c)| == |c| - |Conflicts(t, c)|
  {
    hide Filled;
    assert Conflicts(t, c) <= c;
    DifferenceCount(c, Conflicts(t, c));
    DifferenceCount(Conflicts(t, c), Filled(t, c));
  }

  /** A repair of other shifted rows leaves the rows of b, and their targets, as they are. */
  lemma OthersUntouched(t: Table, a: set<Key>, b: set<Key>, k: Key)
    requires a <= t.Keys && b <= t.Keys && a !! b && AllShifted(a) && AllShifted(b) && k in b
    ensures var u := Repaired(t, a);
            && k in u && u[k] == t[k]
            && (Target(k) in u <==> Target(k) in t) && (Target(k) in t ==> u[Target(k)] == t[Target(k)])
  {
    RepairLeavesNone(t, a);
    TargetHour(k);
    assert Source(Target(k)) == k;
    hide Merge;
  }

  lemma StatsByCounts(t: Table, c: set<Key>)
    requires c <= t.Keys
    ensures RepairStats(t, c).candidates == |c|
    ensures RepairStats(t, c).conflicts == RepairStats(t, c).deleted == |Conflicts(t, c)|
    ensures RepairStats(t, c).merged == |Filled(t, c)|
    ensures RepairStats(t, c).moved == |c| - |Conflicts(t, c)|
  {
    hide Conflicts, Filled, MoveEdits;
    ConflictsArePart(t, c);
  }

  lemma CountsAddUp(t: Table, a: set<Key>, b: set<Key>)
    requires a <= t.Keys && b <= t.Keys && a !! b
    ensures |a + b| == |a| + |b|
    ensures |Conflicts(t, a + b)| == |Conflicts(t, a)| + |Conflicts(t, b)|
    ensures |Filled(t, a + b)| == |Filled(t, a)| + |Filled(t, b)|
  {
    SplitEdits(t, a, b);
    hide Conflicts, Filled;
    ConflictsArePart(t, a);
    ConflictsArePart(t, b);
    PartsCount(a, b, a, b);
    PartsCount(Conflicts(t, a), Conflicts(t, b), a, b);
    PartsCount(Filled(t, a), Filled(t, b), a, b);
  }

  /** Repairing a and then b reports together what repairing both at once does. */
  lemma StatsAddUp(t: Table, a: set<Key>, b: set<Key>)
    requires a <= t.Keys && b <= t.Keys && a !! b && AllShifted(a) && AllShifted(b)
    ensures b <= Repaired(t, a).Keys
    ensures RepairStats(t, a + b) == Plus(RepairStats(t, a), RepairStats(Repaired(t, a), b))
  {
    hide *;
    SameEdits(t, a, b);
    CountsAddUp(t, a, b);
    StatsByCounts(t, a);
    StatsByCounts(t, b);
    StatsByCounts(t, a + b);
    StatsByCounts(Repaired(t, a), b);
    SumOfStats(RepairStats(t, a + b), RepairStats(t, a), RepairStats(Repaired(t, a), b));
  }

  lemma SumOfStats(s: Stats, a: Stats, b: Stats)
    requires s.candidates == a.candidates + b.candidates && s.conflicts == a.conflicts + b.conflicts
    requires s.merged == a.merged + b.merged && s.moved == a.moved + b.moved && s.deleted == a.deleted + b.deleted
    ensures s == Plus(a, b)
  {
  }

  lemma PartsCount(x: set<Key>, y: set<Key>, a: set<Key>, b: set<Key>)
    requires x <= a && y <= b && a !! b
    ensures |x + y| == |x| + |y|
  {
    UnionCount(x, y);
  }

  lemma SameEdits(t: Table, a: set<Key>, b: set<Key>)
    requires a <= t.Keys && b <= t.Keys && a !! b && AllShifted(a) && AllShifted(b)
    ensures b <= Repaired(t, a).Keys
    ensures Conflicts(Repaired(t, a), b) == Conflicts(t, b)
    ensures Filled(Repaired(t, a), b) == Filled(t, b)
  {
    hide Repaired, NeedsFill;
    forall k | k in b
      ensures var u := Repaired(t, a);
              && k in u && u[k] == t[k]
              && (Target(k) in u <==> Target(k) in t) && (Target(k) in t ==> u[Target(k)] == t[Target(k)])
    {
      OthersUntouched(t, a, b, k);
    }
  }

  lemma SplitEdits(t: Table, a: set<Key>, b: set<Key>)
    requires a <= t.Keys && b <= t.Keys
    ensures Conflicts(t, a + b) == Conflicts(t, a) + Conflicts(t, b)
    ensures Filled(t, a + b) == Filled(t, a) + Filled(t, b)
  {
    hide NeedsFill;
  }

  /** The full statement updates one row per source that fills something. */
  lemma MergeCount(t: Table, c: set<Key>)
    requires c <= t.Keys
    ensures |MergeEdits(t, c)| == |Filled(t, c)|
  {
    var m := MergeEdits(t, c);
    assert m.Keys == Targets(Filled(t, c)) by {
      assert forall d :: Target(Source(d)) == d;
      hide NeedsFill, Merge;
    }
    TargetsCount(Filled(t, c));
    assert |m| == |m.Keys|;
  }

  lemma FillNeededIsFilled(t: Table, w: Window, freqs: seq<string>)
    ensures FillNeeded(t, w, freqs) == Filled(t, Candidates(t, w, freqs))
  {
    hide NeedsFill, IsCandidate;
  }
}
