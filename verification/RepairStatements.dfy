/** The general repair script: its SQL statements as functions of one snapshot of the table. */
module RepairStatements {
  import opened KlineTable

  /** Inclusive dates, as day numbers. */
  datatype Window = Window(startDate: int, endDate: int)

  predicate InWindow(k: Key, w: Window, freqs: seq<string>) {
    && k.freq in freqs
    && w.startDate * DAY - SHIFT <= k.time < (w.endDate + 1) * DAY - SHIFT
  }

  predicate IsCandidate(k: Key, w: Window, freqs: seq<string>) {
    InWindow(k, w, freqs) && HourOf(k.time) == SHIFTED_HOUR
  }

  function Candidates(t: Table, w: Window, freqs: seq<string>): (c: set<Key>)
    ensures c <= t.Keys && AllShifted(c)
  {
    set k | k in t && IsCandidate(k, w, freqs)
  }

  // ----- the sub-statements of the full statement: all of them read the snapshot t -----

  /** merged: the filled-up target rows, for conflicts that need filling. */
  function MergeEdits(t: Table, c: set<Key>): (m: Table)
    requires c <= t.Keys
    ensures m.Keys <= t.Keys
  {
    map d | d in t && Source(d) in Conflicts(t, c) && NeedsFill(t[d], t[Source(d)]) :: Merge(t[d], t[Source(d)])
  }

  /** moved: the sources without a target. */
  function MoveEdits(t: Table, c: set<Key>): set<Key> {
    c - Conflicts(t, c)
  }

  function ApplyMerges(t: Table, m: Table): Table { t + m }

  function ApplyDeletes(t: Table, ks: set<Key>): Table { t - ks }

  function ApplyMoves(t: Table, ks: set<Key>): Table
    requires ks <= t.Keys
  {
    (t - ks) + map d | d in Targets(ks) :: t[Source(d)]
  }

  /** No row is touched by two of merge, delete and move, and no moved row lands on an existing one. */
  lemma EditsAreDisjoint(t: Table, c: set<Key>)
    requires c <= t.Keys && AllShifted(c)
    ensures MergeEdits(t, c).Keys !! Conflicts(t, c)
    ensures MergeEdits(t, c).Keys !! MoveEdits(t, c)
    ensures Conflicts(t, c) !! MoveEdits(t, c)
    ensures Targets(MoveEdits(t, c)) !! t.Keys
    ensures Conflicts(t, c) <= t.Keys && MoveEdits(t, c) <= t.Keys
  {
    forall d | d in MergeEdits(t, c) ensures d !in c {
      assert Target(Source(d)) == d;
      TargetHour(Source(d));
    }
    forall d | d in Targets(MoveEdits(t, c)) ensures d !in t {
      assert Target(Source(d)) == d;
    }
  }

  /** The full statement, its edits computed on one snapshot. */
  function ExecuteFull(t: Table, w: Window, freqs: seq<string>): Table {
    var c := Candidates(t, w, freqs);
    var kept := ApplyDeletes(ApplyMerges(t, MergeEdits(t, c)), Conflicts(t, c));
    ApplyMoves(kept, MoveEdits(t, c))
  }

  /** The full statement repairs exactly its candidates. */
  lemma FullIsRepair(t: Table, w: Window, freqs: seq<string>)
    ensures ExecuteFull(t, w, freqs) == Repaired(t, Candidates(t, w, freqs))
  {
    hide ApplyMoves, ApplyDeletes, ApplyMerges, Repaired, MergeEdits, MoveEdits, Conflicts, IsCandidate;
    var c := Candidates(t, w, freqs);
    FullAt(t, c, Key(0, "", "", 0));
    var full, ref := ExecuteFull(t, w, freqs), Repaired(t, c);
    forall d ensures (d in full <==> d in ref) && (d in full ==> full[d] == ref[d]) {
      FullAt(t, c, d);
    }
  }

  lemma FullAt(t: Table, c: set<Key>, d: Key)
    requires c <= t.Keys && AllShifted(c)
    ensures MoveEdits(t, c) <= ApplyDeletes(ApplyMerges(t, MergeEdits(t, c)), Conflicts(t, c)).Keys
    ensures var full := ApplyMoves(ApplyDeletes(ApplyMerges(t, MergeEdits(t, c)), Conflicts(t, c)), MoveEdits(t, c));
            (d in full <==> d in Repaired(t, c)) && (d in full ==> full[d] == Repaired(t, c)[d])
  {
    EditsAreDisjoint(t, c);
    var src := Source(d);
    assert Target(src) == d;
    assert src in c ==> d !in c by {
      if src in c { TargetHour(src); }
    }
    assert d in t && src in t && !NeedsFill(t[d], t[src]) ==> Merge(t[d], t[src]) == t[d] by {
      if d in t && src in t { FillIffMergeChanges(t[d], t[src]); }
    }
    hide AllShifted, Merge, NeedsFill, HourOf;
  }

  lemma MergeCommutesWithDelete(t: Table, m: Table, del: set<Key>)
    requires m.Keys !! del
    ensures ApplyDeletes(ApplyMerges(t, m), del) == ApplyMerges(ApplyDeletes(t, del), m)
  {
  }

  lemma MergeCommutesWithMove(t: Table, m: Table, mv: set<Key>)
    requires mv <= t.Keys && m.Keys !! mv && m.Keys !! Targets(mv)
    ensures mv <= ApplyMerges(t, m).Keys
    ensures ApplyMoves(ApplyMerges(t, m), mv) == ApplyMerges(ApplyMoves(t, mv), m)
  {
    hide Targets, Source;
    assert forall d :: d in Targets(mv) ==> Source(d) !in m;
  }

  lemma DeleteCommutesWithMove(t: Table, del: set<Key>, mv: set<Key>)
    requires mv <= t.Keys && del !! mv && del !! Targets(mv)
    ensures mv <= ApplyDeletes(t, del).Keys
    ensures ApplyMoves(ApplyDeletes(t, del), mv) == ApplyDeletes(ApplyMoves(t, mv), del)
  {
    assert forall d :: d in Targets(mv) ==> Source(d) !in del;
  }

  /** Because the edits are disjoint, the order in which they are applied does not matter. */
  lemma EditOrderIsIrrelevant(t: Table, c: set<Key>)
    requires c <= t.Keys && AllShifted(c)
    ensures var m, del, mv := MergeEdits(t, c), Conflicts(t, c), MoveEdits(t, c);
            && mv <= ApplyDeletes(ApplyMerges(t, m), del).Keys && mv <= ApplyDeletes(t, del).Keys && mv <= ApplyMerges(t, m).Keys
            && var result := ApplyMoves(ApplyDeletes(ApplyMerges(t, m), del), mv);
            && ApplyMoves(ApplyMerges(ApplyDeletes(t, del), m), mv) == result
            && ApplyDeletes(ApplyMoves(ApplyMerges(t, m), mv), del) == result
            && ApplyDeletes(ApplyMerges(ApplyMoves(t, mv), m), del) == result
            && ApplyMerges(ApplyMoves(ApplyDeletes(t, del), mv), m) == result
            && ApplyMerges(ApplyDeletes(ApplyMoves(t, mv), del), m) == result
  {
    EditsAreDisjoint(t, c);
    hide MergeEdits, Conflicts, MoveEdits;
    var m, del, mv := MergeEdits(t, c), Conflicts(t, c), MoveEdits(t, c);
    MergeCommutesWithDelete(t, m, del);
    MergeCommutesWithMove(t, m, mv);
    DeleteCommutesWithMove(t, del, mv);
    MergeCommutesWithMove(ApplyDeletes(t, del), m, mv);
    DeleteCommutesWithMove(ApplyMerges(t, m), del, mv);
    MergeCommutesWithDelete(ApplyMoves(t, mv), m, del);
  }

  // ----- the cheaper statements -----

  /** UPDATE of the candidates without a target. */
  function ExecuteMoveOnly(t: Table, w: Window, freqs: seq<string>): Table {
    ApplyMoves(t, set k | k in t && IsCandidate(k, w, freqs) && Target(k) !in t)
  }

  /** Conflicts whose target lacks a value the source has. */
  function FillNeeded(t: Table, w: Window, freqs: seq<string>): set<Key> {
    set k | k in t && IsCandidate(k, w, freqs) && Target(k) in t && NeedsFill(t[Target(k)], t[k])
  }

  function ExecuteDeleteConflicts(t: Table, w: Window, freqs: seq<string>): Table {
    ApplyDeletes(t, set k | k in t && IsCandidate(k, w, freqs) && Target(k) in t)
  }

  lemma NothingIsFull(t: Table, w: Window, freqs: seq<string>)
    requires |Candidates(t, w, freqs)| == 0
    ensures t == ExecuteFull(t, w, freqs)
  {
    FullIsRepair(t, w, freqs);
    assert Candidates(t, w, freqs) == {};
    RepairNothing(t);
  }

  lemma MoveOnlyIsFull(t: Table, w: Window, freqs: seq<string>)
    requires |Conflicts(t, Candidates(t, w, freqs))| == 0
    ensures ExecuteMoveOnly(t, w, freqs) == ExecuteFull(t, w, freqs)
  {
    hide IsCandidate, HourOf, Merge, NeedsFill, ApplyMoves;
    var c := Candidates(t, w, freqs);
    assert Conflicts(t, c) == {};
    forall k | k in c ensures Target(k) !in t {
      assert k !in Conflicts(t, c);
    }
    assert (set k | k in t && IsCandidate(k, w, freqs) && Target(k) !in t) == MoveEdits(t, c);
    assert MergeEdits(t, c) == map[];
    assert ApplyDeletes(ApplyMerges(t, map[]), {}) == t;
  }

  lemma DeleteConflictsIsFull(t: Table, w: Window, freqs: seq<string>)
    requires |Candidates(t, w, freqs)| == |Conflicts(t, Candidates(t, w, freqs))|
    requires |FillNeeded(t, w, freqs)| == 0
    ensures ExecuteDeleteConflicts(t, w, freqs) == ExecuteFull(t, w, freqs)
  {
    hide IsCandidate, HourOf, Merge, NeedsFill, ApplyMoves, ApplyDeletes, ApplyMerges, AllShifted;
    var c := Candidates(t, w, freqs);
    SubsetOfSameSize(Conflicts(t, c), c);
    assert (set k | k in t && IsCandidate(k, w, freqs) && Target(k) in t) == Conflicts(t, c);
    assert MoveEdits(t, c) == {};
    assert MergeEdits(t, c) == map[] by {
      forall d | d in t && Source(d) in Conflicts(t, c) ensures !NeedsFill(t[d], t[Source(d)]) {
        assert Target(Source(d)) == d;
        assert Source(d) !in FillNeeded(t, w, freqs);
      }
    }
    MergeNothing(t);
    MoveNothing(ApplyDeletes(t, Conflicts(t, c)));
  }

  lemma MergeNothing(t: Table)
    ensures ApplyMerges(t, map[]) == t
  {
  }

  lemma MoveNothing(t: Table)
    ensures ApplyMoves(t, {}) == t
  {
    assert Targets({}) == {};
  }

  lemma SubsetOfSameSize<T>(a: set<T>, b: set<T>)
    requires a <= b && |a| == |b|
    ensures a == b
  {
    assert |b - a| == 0;
  }
}
