/** The value tuples `db_add` builds for a batch insert. */
module RecordDb {
  import opened Optional

  /** A Python dict with its keys in insertion order. A real dict has distinct keys
      (`DistinctKeys`); the functions below do not need that, and on such rows `Get`
      finds the one binding of a key (`GetBinding`). */
  type Row<V> = seq<(string, V)>

  predicate DistinctKeys<V>(row: Row<V>) {
    forall i, j :: 0 <= i < j < |row| ==> row[i].0 != row[j].0
  }

  /** `d.get(key)` */
  function Get<V>(row: Row<V>, key: string): (r: Option<V>)
    ensures r.None? <==> forall i :: 0 <= i < |row| ==> row[i].0 != key
    ensures r.Some? ==> exists i :: 0 <= i < |row| && row[i] == (key, r.value)
  {
    if row == [] then None
    else if row[0].0 == key then Some(row[0].1)
    else Get(row[1..], key)
  }

  /** In a dict, looking up the key stored at `i` gives the value stored there. */
  lemma {:induction false} GetBinding<V>(row: Row<V>, i: nat)
    requires DistinctKeys(row) && i < |row|
    ensures Get(row, row[i].0) == Some(row[i].1)
  {
    if i > 0 {
      assert row[0].0 != row[i].0;
      assert DistinctKeys(row[1..]) by {
        forall a, b | 0 <= a < b < |row| - 1 ensures row[1..][a].0 != row[1..][b].0 {
          assert row[1..][a] == row[a + 1] && row[1..][b] == row[b + 1];
        }
      }
      GetBinding(row[1..], i - 1);
      assert row[1..][i - 1] == row[i];
    }
  }

  /** `list(d.keys())` */
  function Keys<V>(row: Row<V>): (r: seq<string>)
    ensures |r| == |row| && forall i :: 0 <= i < |row| ==> r[i] == row[i].0
  {
    seq(|row|, i requires 0 <= i < |row| => row[i].0)
  }

  /** What reaches `execute_values`: the columns and one tuple per dict. The insert and
      its swallowed `UniqueViolation` are the database's. */
  datatype Insert<V> = Insert(columns: seq<string>, values: seq<seq<Option<V>>>)

  /** `db_add`: nothing for an empty list; else the first dict's keys are the columns and
      each dict gives its value, or NULL, for each of them. */
  function DbAdd<V>(rows: seq<Row<V>>): (r: Option<Insert<V>>)
    ensures r.None? <==> rows == []
    ensures r.Some? ==> r.value.columns == Keys(rows[0]) && |r.value.values| == |rows|
    ensures r.Some? ==> forall i :: 0 <= i < |rows| ==> |r.value.values[i]| == |r.value.columns|
  {
    if rows == [] then None
    else
      var columns := Keys(rows[0]);
      Some(Insert(columns, seq(|rows|, i requires 0 <= i < |rows| =>
        seq(|columns|, j requires 0 <= j < |columns| => Get(rows[i], columns[j])))))
  }

  /** A cell is NULL exactly when its dict lacks the column; keys the first dict lacks
      are not columns, so no row contributes them. */
  lemma DbAddCells<V>(rows: seq<Row<V>>, i: nat, j: nat)
    requires i < |rows| && j < |DbAdd(rows).value.columns|
    ensures var ins := DbAdd(rows).value;
      (ins.values[i][j].None? <==> forall k :: 0 <= k < |rows[i]| ==> rows[i][k].0 != ins.columns[j])
      && (ins.values[i][j].Some? ==> (ins.columns[j], ins.values[i][j].value) in rows[i])
      && (exists k :: 0 <= k < |rows[0]| && rows[0][k].0 == ins.columns[j])
  {
  }
}
