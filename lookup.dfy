/**
 * The two dictionary patterns of the script, each used once for cities and
 * once for customers:
 *   - a dimension table is turned into a dictionary by a loop that assigns
 *     `d[key] = attrs` row by row (data_cleaning.py:38-40, 78-80);
 *   - every fact row, in order, has its key looked up and the attributes
 *     appended to output lists; a key missing from the dictionary raises
 *     `KeyError` (data_cleaning.py:45-49, 76, 86-89).
 */
module Lookup {
  import opened Wrappers

  /** The dictionary that assigning every row in order leaves behind. */
  function TableOf<K, V>(rows: seq<(K, V)>): map<K, V> {
    if rows == [] then map[]
    else TableOf(rows[..|rows| - 1])[rows[|rows| - 1].0 := rows[|rows| - 1].1]
  }

  /** The dictionary has an entry for exactly the keys that occur in some row. */
  lemma {:induction false} TableKeys<K, V>(rows: seq<(K, V)>, k: K)
    ensures k in TableOf(rows) <==> exists i :: 0 <= i < |rows| && rows[i].0 == k
  {
    if rows != [] {
      var init := rows[..|rows| - 1];
      TableKeys(init, k);
      if k != rows[|rows| - 1].0 && exists i :: 0 <= i < |rows| && rows[i].0 == k {
        var i :| 0 <= i < |rows| && rows[i].0 == k;
        assert init[i].0 == k;
      }
    }
  }

  /** When a key repeats, the last row with that key is the one the dictionary keeps. */
  lemma {:induction false} TableLastWins<K, V>(rows: seq<(K, V)>, i: nat)
    requires i < |rows|
    requires forall j :: i < j < |rows| ==> rows[j].0 != rows[i].0
    ensures rows[i].0 in TableOf(rows) && TableOf(rows)[rows[i].0] == rows[i].1
  {
    if i < |rows| - 1 {
      var init := rows[..|rows| - 1];
      TableLastWins(init, i);
    }
  }

  /** The `for index, row in ...iterrows(): d[index] = ...` loop. */
  method BuildTable<K, V>(rows: seq<(K, V)>) returns (table: map<K, V>)
    ensures table == TableOf(rows)
  {
    table := map[];
    var i := 0;
    while i < |rows|
      invariant 0 <= i <= |rows|
      invariant table == TableOf(rows[..i])
    {
      assert rows[..i + 1][..i] == rows[..i];
      table := table[rows[i].0 := rows[i].1];
      i := i + 1;
    }
    assert rows[..|rows|] == rows;
  }

  /**
   * The lists the broadcast loop builds, as one value: the table's entry
   * for each key, in order, or the first key the table lacks.
   */
  function LookupAll<K, V>(table: map<K, V>, keys: seq<K>): (r: Result<seq<V>, K>)
    ensures r.Success? <==> forall i :: 0 <= i < |keys| ==> keys[i] in table
    ensures r.Success? ==> (|r.value| == |keys|
      && forall i :: 0 <= i < |keys| ==> r.value[i] == table[keys[i]])
    ensures r.Failure? ==>
      exists i :: (0 <= i < |keys| && keys[i] == r.error && keys[i] !in table
        && forall j :: 0 <= j < i ==> keys[j] in table)
  {
    var found := seq(|keys|, i requires 0 <= i < |keys| => Find(table, keys[i]));
    assert forall i :: 0 <= i < |keys| ==> found[i] == Find(table, keys[i]);
    var r := Collect(found);
    assert r.Failure? ==>
      exists i :: (0 <= i < |keys| && keys[i] == r.error && keys[i] !in table
        && forall j :: 0 <= j < i ==> keys[j] in table) by {
      if r.Failure? {
        var i :| 0 <= i < |found| && found[i] == Failure(r.error)
          && forall j :: 0 <= j < i ==> found[j].Success?;
        assert keys[i] == r.error && keys[i] !in table;
        assert forall j :: 0 <= j < i ==> found[j].Success? && keys[j] in table;
      }
    }
    r
  }

  /** `d[key]`: the entry, or the missing key that `KeyError` reports. */
  function Find<K, V>(table: map<K, V>, key: K): Result<V, K> {
    if key in table then Success(table[key]) else Failure(key)
  }

  /**
   * The broadcast loop: for each key in order, append the table's entry;
   * stop at the first key the table lacks.
   */
  method Broadcast<K, V>(table: map<K, V>, keys: seq<K>) returns (r: Result<seq<V>, K>)
    ensures r == LookupAll(table, keys)
  {
    var values := [];
    var i := 0;
    while i < |keys|
      invariant 0 <= i <= |keys|
      invariant |values| == i
      invariant forall j :: 0 <= j < i ==> keys[j] in table && values[j] == table[keys[j]]
    {
      if keys[i] !in table {
        return Failure(keys[i]);
      }
      values := values + [table[keys[i]]];
      i := i + 1;
    }
    assert values == LookupAll(table, keys).value;
    return Success(values);
  }
}
