/**
 * `groupby(key)['harm_value'].sum()`, generic in the grouping key: rows whose
 * key is missing form no group, and a missing harm value adds nothing.
 */
module Grouping {
  import opened Wrappers
  import opened Seqs
  import opened Records

  /** The keys present among the rows. */
  function KeySet<K>(rows: seq<Row>, key: Row -> Option<K>): set<K> {
    set r | r in rows && key(r).Some? :: key(r).value
  }

  /** Sum of harm over the rows whose key is `k`. */
  function SumFor<K(==)>(rows: seq<Row>, key: Row -> Option<K>, k: K): real {
    if rows == [] then 0.0
    else (if key(rows[0]) == Some(k) then Harm(rows[0]) else 0.0) + SumFor(rows[1..], key, k)
  }

  /** Sum of harm over the rows that belong to some group. */
  function TotalKeyed<K>(rows: seq<Row>, key: Row -> Option<K>): real {
    if rows == [] then 0.0
    else (if key(rows[0]).Some? then Harm(rows[0]) else 0.0) + TotalKeyed(rows[1..], key)
  }

  /** Sum of harm over all rows. */
  function TotalHarm(rows: seq<Row>): real {
    if rows == [] then 0.0 else Harm(rows[0]) + TotalHarm(rows[1..])
  }

  /** The group sums of the keys `ks`, added up. */
  function SumOfGroups<K(==)>(rows: seq<Row>, key: Row -> Option<K>, ks: seq<K>): real {
    if ks == [] then 0.0 else SumFor(rows, key, ks[0]) + SumOfGroups(rows, key, ks[1..])
  }

  /** Distinct keys of `rows` appended to `seen` in order of first appearance. */
  function KeysFrom<K(==)>(rows: seq<Row>, key: Row -> Option<K>, seen: seq<K>): (ks: seq<K>)
    requires Distinct(seen)
    ensures Distinct(ks)
    ensures forall k :: k in ks ==> k in seen || k in KeySet(rows, key)
    ensures forall k :: k in seen ==> k in ks
    ensures forall k :: k in KeySet(rows, key) ==> k in ks
    decreases |rows|
  {
    if rows == [] then seen
    else
      var next := if key(rows[0]).Some? && key(rows[0]).value !in seen then seen + [key(rows[0]).value] else seen;
      assert KeySet(rows, key) == KeySet(rows[..1], key) + KeySet(rows[1..], key) by {
        assert rows == rows[..1] + rows[1..];
      }
      KeysFrom(rows[1..], key, next)
  }

  /** The group keys: each present key exactly once, in order of first appearance. */
  function Keys<K(==)>(rows: seq<Row>, key: Row -> Option<K>): (ks: seq<K>)
    ensures Distinct(ks)
    ensures forall k :: k in ks ==> k in KeySet(rows, key)
    ensures forall k :: k in KeySet(rows, key) ==> k in ks
    ensures |ks| == |KeySet(rows, key)|
  {
    var ks := KeysFrom(rows, key, []);
    DistinctCardinality(ks);
    assert Elements(ks) == KeySet(rows, key);
    ks
  }

  /** The contribution of one row to the groups `ks`. */
  function RowShare<K(==)>(r: Row, key: Row -> Option<K>, ks: seq<K>): real {
    if ks == [] then 0.0 else (if key(r) == Some(ks[0]) then Harm(r) else 0.0) + RowShare(r, key, ks[1..])
  }

  /** Over distinct keys a row counts once if its key is among them, else not at all. */
  lemma {:induction false} RowShareDistinct<K>(r: Row, key: Row -> Option<K>, ks: seq<K>)
    requires Distinct(ks)
    ensures RowShare(r, key, ks) == if key(r).Some? && key(r).value in ks then Harm(r) else 0.0
  {
    if ks != [] {
      RowShareDistinct(r, key, ks[1..]);
    }
  }

  /** Peeling the first row off every group sum at once. */
  lemma {:induction false} SumOfGroupsSplit<K>(rows: seq<Row>, key: Row -> Option<K>, ks: seq<K>)
    requires rows != []
    ensures SumOfGroups(rows, key, ks) == RowShare(rows[0], key, ks) + SumOfGroups(rows[1..], key, ks)
  {
    if ks != [] {
      SumOfGroupsSplit(rows, key, ks[1..]);
    }
  }

  lemma {:induction false} SumOfGroupsNoRows<K>(key: Row -> Option<K>, ks: seq<K>)
    ensures SumOfGroups([], key, ks) == 0.0
  {
    if ks != [] {
      SumOfGroupsNoRows(key, ks[1..]);
    }
  }

  /**
   * Conservation of mass: when `ks` lists every group key once, the group sums
   * add up to the harm of all grouped rows.
   */
  lemma {:induction false} Conservation<K>(rows: seq<Row>, key: Row -> Option<K>, ks: seq<K>)
    requires Distinct(ks)
    requires forall k :: k in KeySet(rows, key) ==> k in ks
    ensures SumOfGroups(rows, key, ks) == TotalKeyed(rows, key)
  {
    if rows == [] {
      SumOfGroupsNoRows(key, ks);
    } else {
      assert KeySet(rows[1..], key) <= KeySet(rows, key);
      Conservation(rows[1..], key, ks);
      SumOfGroupsSplit(rows, key, ks);
      RowShareDistinct(rows[0], key, ks);
      if key(rows[0]).Some? {
        assert key(rows[0]).value in KeySet(rows, key);
      }
    }
  }

  /** On complete rows every row is grouped, by plant and by year alike. */
  lemma {:induction false} CompleteRowsAllGrouped(rows: seq<Row>)
    requires forall r :: r in rows ==> Complete(r)
    ensures TotalKeyed(rows, PlantKey) == TotalHarm(rows)
    ensures TotalKeyed(rows, YearKey) == TotalHarm(rows)
  {
    if rows != [] {
      assert rows[0] in rows;
      assert forall r :: r in rows[1..] ==> r in rows;
      CompleteRowsAllGrouped(rows[1..]);
    }
  }
}
