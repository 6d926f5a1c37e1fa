/**
 * Batched deletion of duplicate rows: whatever victims each batch happens to pick, the loop ends
 * with the lowest row of every key, as one unlimited deletion would.
 */
module DuplicateCleanup {
  import opened Basics

  /** A row's business key, and whether the WHERE clause of its table selects it. */
  datatype Row<K> = Row(key: K, selected: bool)

  /** Rows by physical position (ctid). */
  type Table<K> = map<nat, Row<K>>

  /** A selected row with a selected row of the same key at a lower position: row_number() > 1. */
  predicate IsVictim<K(==)>(t: Table<K>, id: nat) {
    && id in t && t[id].selected
    && exists lower | lower in t :: lower < id && t[lower].selected && t[lower].key == t[id].key
  }

  function Victims<K(==)>(t: Table<K>): (v: set<nat>)
    ensures v <= t.Keys
  {
    set id | id in t && IsVictim(t, id)
  }

  /** The one-shot cleanup. */
  function Cleaned<K(==)>(t: Table<K>): Table<K> { t - Victims(t) }

  // ----- what the cleaned table holds -----

  /** The lowest selected row of a key is no victim. */
  lemma {:induction false} LowestSurvives<K>(t: Table<K>, id: nat) returns (lowest: nat)
    requires id in t && t[id].selected
    ensures lowest <= id && lowest in t && t[lowest].selected && t[lowest].key == t[id].key
    ensures lowest !in Victims(t)
    decreases id
  {
    if IsVictim(t, id) {
      var lower :| lower in t && lower < id && t[lower].selected && t[lower].key == t[id].key;
      lowest := LowestSurvives(t, lower);
    } else {
      lowest := id;
    }
  }

  /** After the cleanup every key keeps one selected row, its lowest; unselected rows are untouched. */
  lemma CleanedKeepsLowest<K>(t: Table<K>, id: nat) returns (kept: nat)
    requires id in t
    ensures !t[id].selected ==> id in Cleaned(t)
    ensures t[id].selected ==> kept in Cleaned(t) && kept <= id && t[kept].selected && t[kept].key == t[id].key
    ensures t[id].selected && id in Cleaned(t) ==> kept == id
  {
    kept := id;
    if t[id].selected { kept := LowestSurvives(t, id); }
  }

  /** No two selected rows of the cleaned table share a key, so cleaning again deletes nothing. */
  lemma CleanedIsUnique<K>(t: Table<K>, a: nat, b: nat)
    requires a in Cleaned(t) && b in Cleaned(t) && t[a].selected && t[b].selected && t[a].key == t[b].key
    ensures a == b
  {
    assert a < b ==> IsVictim(t, b);
    assert b < a ==> IsVictim(t, a);
  }

  /** Deleting some victims leaves exactly the other victims. */
  lemma RemainingVictims<K>(t: Table<K>, gone: set<nat>)
    requires gone <= Victims(t)
    ensures Victims(t - gone) == Victims(t) - gone
  {
    forall id | id in Victims(t) && id !in gone ensures IsVictim(t - gone, id) {
      var lower :| lower in t && lower < id && t[lower].selected && t[lower].key == t[id].key;
      var low := LowestSurvives(t, lower);
      assert low in t - gone;
    }
  }

  // ----- the count of extra rows -----

  function RowsOf<K(==)>(t: Table<K>, key: K): set<nat> {
    set id | id in t && t[id].selected && t[id].key == key
  }

  function KeysOf<K(==)>(t: Table<K>): set<K> {
    set id | id in t && t[id].selected :: t[id].key
  }

  /** SUM(rows - 1) over the given keys; a key with one row contributes nothing. */
  ghost function ExtraRows<K>(t: Table<K>, keys: set<K>): int {
    if keys == {} then 0
    else
      var key :| key in keys;
      |RowsOf(t, key)| - 1 + ExtraRows(t, keys - {key})
  }

  ghost function VictimsOf<K>(t: Table<K>, keys: set<K>): set<nat> {
    set id | id in Victims(t) && t[id].key in keys
  }

  /** Each key has one row fewer among the victims than in the table. */
  lemma VictimsOfKey<K>(t: Table<K>, key: K)
    requires key in KeysOf(t)
    ensures |VictimsOf(t, {key})| == |RowsOf(t, key)| - 1
  {
    var id :| id in t && t[id].selected && t[id].key == key;
    var low := LowestSurvives(t, id);
    assert RowsOf(t, key) == VictimsOf(t, {key}) + {low} by {
      forall x | x in RowsOf(t, key) ensures x == low || IsVictim(t, x) {
        assert x < low ==> IsVictim(t, low);
        assert low < x ==> IsVictim(t, x);
      }
    }
    assert low !in VictimsOf(t, {key});
  }

  lemma VictimsSplit<K>(t: Table<K>, keys: set<K>, key: K)
    requires key in keys
    ensures VictimsOf(t, keys) == VictimsOf(t, {key}) + VictimsOf(t, keys - {key})
    ensures VictimsOf(t, {key}) !! VictimsOf(t, keys - {key})
  {
    hide Victims;
  }

  lemma {:induction false} ExtraIsVictims<K>(t: Table<K>, keys: set<K>)
    requires keys <= KeysOf(t)
    ensures ExtraRows(t, keys) == |VictimsOf(t, keys)|
  {
    if keys == {} {
      assert VictimsOf(t, keys) == {};
    } else {
      var key :| key in keys && ExtraRows(t, keys) == |RowsOf(t, key)| - 1 + ExtraRows(t, keys - {key});
      ExtraIsVictims(t, keys - {key});
      VictimsOfKey(t, key);
      hide ExtraRows;
      VictimsSplit(t, keys, key);
      hide *;
      UnionCount(VictimsOf(t, {key}), VictimsOf(t, keys - {key}));
    }
  }

  /** The rows the count query announces are exactly the rows a full cleanup deletes. */
  lemma CountIsVictims<K>(t: Table<K>)
    ensures ExtraRows(t, KeysOf(t)) == |Victims(t)|
  {
    ExtraIsVictims(t, KeysOf(t));
    assert VictimsOf(t, KeysOf(t)) == Victims(t);
  }

  // ----- the batched loop -----

  class Relation<K(==)> {
    var rows: Table<K>

    constructor (t: Table<K>)
      ensures rows == t
    {
      rows := t;
    }

    /** One DELETE of at most batchSize victims. */
    method DeleteDuplicateRows(batchSize: nat) returns (deleted: nat, ghost picked: set<nat>)
      modifies this
      ensures picked <= Victims(old(rows)) && rows == old(rows) - picked && deleted == |picked|
      ensures |picked| == if batchSize < |Victims(old(rows))| then batchSize else |Victims(old(rows))|
    {
      hide IsVictim;
      var victims := PickSome(Victims(rows), batchSize);
      rows := rows - victims;
      deleted := |victims|;
      picked := victims;
    }

    /** The loop of the cleanup: with any positive batch size it ends as one unlimited deletion would. */
    method RepairDuplicates(batchSize: nat) returns (deletedTotal: nat)
      modifies this
      ensures batchSize > 0 ==> rows == Cleaned(old(rows)) && deletedTotal == ExtraRows(old(rows), KeysOf(old(rows)))
      ensures batchSize == 0 ==> rows == old(rows) && deletedTotal == 0
    {
      ghost var t := rows;
      ghost var all := Victims(t);
      CountIsVictims(t);
      hide Victims, ExtraRows, KeysOf, IsVictim;
      ghost var gone: set<nat> := {};
      deletedTotal := 0;
      while true
        invariant gone <= all && rows == t - gone && deletedTotal == |gone|
        invariant batchSize == 0 ==> gone == {}
        decreases |all - gone|
      {
        RemainingVictims(t, gone);
        var deleted, picked := DeleteDuplicateRows(batchSize);
        BatchStep(all, gone, picked);
        assert (t - gone) - picked == t - (gone + picked);
        deletedTotal := deletedTotal + deleted;
        if deleted == 0 {
          assert picked == {};
          assert gone + picked == gone;
          break;
        }
        gone := gone + picked;
      }
    }
  }
}
