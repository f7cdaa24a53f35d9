/**
 * The database as the synchronizer sees it through one connection: tables by full name
 * (production tables carry the prefix "wp_", staging tables "wp_staging_"), each with the
 * column list SHOW COLUMNS reports, the PRIMARY key columns SHOW KEYS reports (in key
 * order) and its rows. A row maps column names to values; NULL is a value of its own.
 * Row identifiers are compared as strings with exact equality.
 */
module Database {
  import opened Wrappers
  import opened ChangeLists

  datatype Value = Null | Text(s: string)

  type Row = map<string, Value>

  datatype Table = Table(keys: seq<string>, columns: seq<string>, rows: seq<Row>)

  type Db = map<string, Table>

  const ProductionPrefix := "wp_"
  const StagingPrefix := "wp_staging_"

  /** get_primary_key: the first PRIMARY key column only, or nothing when the table has no
      primary key (or does not exist). */
  function GetPrimaryKey(db: Db, table: string): (r: Option<string>)
    ensures r.None? <==> table !in db || db[table].keys == []
    ensures r.Some? ==> r.value == db[table].keys[0]
  {
    if table in db && |db[table].keys| > 0 then Some(db[table].keys[0]) else None
  }

  /** get_table_columns: the Field names SHOW COLUMNS reports, empty for a missing table. */
  function GetTableColumns(db: Db, table: string): (r: seq<string>)
    ensures table !in db ==> r == []
    ensures table in db ==> r == db[table].columns
  {
    if table in db then db[table].columns else []
  }

  /** The row's `key` column holds the identifier. */
  predicate HasKey(row: Row, key: string, id: Id) {
    key in row && row[key] == Text(id)
  }

  /** The row get_row returns for `WHERE key = id`: the first matching row. */
  function SelectRow(rows: seq<Row>, key: string, id: Id): (r: Option<Row>)
    ensures r.Some? ==> r.value in rows && HasKey(r.value, key, id)
    ensures r.None? <==> forall k :: 0 <= k < |rows| ==> !HasKey(rows[k], key, id)
    decreases |rows|
  {
    if rows == [] then None
    else if HasKey(rows[0], key, id) then Some(rows[0])
    else
      var rest := SelectRow(rows[1..], key, id);
      assert forall k :: 0 < k < |rows| ==> rows[k] == rows[1..][k - 1];
      rest
  }

  /** Staging lookup of the row with the given key value in a named table. */
  function FetchRow(db: Db, table: string, key: string, id: Id): Option<Row> {
    if table in db then SelectRow(db[table].rows, key, id) else None
  }

  /** The row the INSERT of an added entry writes: the listed columns that the staging row
      sets to a non-NULL value, with the staging values. */
  function InsertedRow(columns: seq<string>, staging: Row): (r: Row)
    ensures forall c :: c in r <==> c in columns && c in staging && staging[c] != Null
    ensures forall c :: c in r ==> r[c] == staging[c]
  {
    map c | c in columns && c in staging && staging[c] != Null :: staging[c]
  }

  /** The rows after `UPDATE ... SET sets WHERE key = id`. */
  function UpdateRows(rows: seq<Row>, key: string, id: Id, sets: Row): (r: seq<Row>)
    ensures |r| == |rows|
    ensures forall k :: 0 <= k < |rows| ==> r[k] == if HasKey(rows[k], key, id) then rows[k] + sets else rows[k]
  {
    seq(|rows|, k requires 0 <= k < |rows| => if HasKey(rows[k], key, id) then rows[k] + sets else rows[k])
  }

  /** The rows after `DELETE ... WHERE key = id`, in their old order. */
  function DeleteRows(rows: seq<Row>, key: string, id: Id): (r: seq<Row>)
    ensures |r| <= |rows|
    ensures forall row :: row in r <==> row in rows && !HasKey(row, key, id)
    ensures forall row :: multiset(r)[row] == if HasKey(row, key, id) then 0 else multiset(rows)[row]
    decreases |rows|
  {
    if rows == [] then []
    else
      var rest := DeleteRows(rows[1..], key, id);
      assert forall row :: row in rows <==> row == rows[0] || row in rows[1..];
      assert rows == [rows[0]] + rows[1..];
      if HasKey(rows[0], key, id) then rest else [rows[0]] + rest
  }

  /** Deleting twice is deleting once. */
  lemma {:induction false} DeleteRowsIdempotent(rows: seq<Row>, key: string, id: Id)
    ensures DeleteRows(DeleteRows(rows, key, id), key, id) == DeleteRows(rows, key, id)
    decreases |rows|
  {
    if rows != [] {
      DeleteRowsIdempotent(rows[1..], key, id);
      var rest := DeleteRows(rows[1..], key, id);
      if !HasKey(rows[0], key, id) {
        assert ([rows[0]] + rest)[1..] == rest;
      }
    }
  }

  /** A set of columns that leaves out the key never moves a row's key. */
  lemma UpdateKeepsKeys(rows: seq<Row>, key: string, id: Id, sets: Row, k: nat)
    requires key !in sets && k < |rows|
    ensures (key in UpdateRows(rows, key, id, sets)[k]) == (key in rows[k])
    ensures key in rows[k] ==> UpdateRows(rows, key, id, sets)[k][key] == rows[k][key]
  {
  }

  /** The row-building loop of the added branch: each column of the list that the staging
      row sets (non-NULL) is a column of the INSERT. */
  method BuildInsertRow(columns: seq<string>, staging: Row) returns (row: Row)
    ensures row == InsertedRow(columns, staging)
  {
    row := map[];
    var i := 0;
    while i < |columns|
      invariant 0 <= i <= |columns|
      invariant row == InsertedRow(columns[..i], staging)
    {
      var column := columns[i];
      if column in staging && staging[column] != Null {
        row := row[column := staging[column]];
      }
      assert columns[..i + 1] == columns[..i] + [column];
      i := i + 1;
    }
    assert columns[..i] == columns;
  }

  /** The SET-building loop of the modified branch: every column of the staging row but
      the key column. */
  method BuildUpdateSets(staging: Row, key: string) returns (sets: Row)
    ensures sets == staging - {key}
  {
    sets := map[];
    var remaining := staging.Keys;
    while remaining != {}
      invariant remaining <= staging.Keys
      invariant sets == map c | c in staging.Keys - remaining && c != key :: staging[c]
      decreases remaining
    {
      var column :| column in remaining;
      if column != key {
        sets := sets[column := staging[column]];
      }
      remaining := remaining - {column};
    }
  }
}
