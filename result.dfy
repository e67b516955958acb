/**
  Result sets of the MySQL client: the column definitions and rows a query
  returned, and a cursor over the rows.

  `FetchRow` and `FetchMap` hand out the row under the cursor and advance
  it, or report the end with `None` (Go's nil) and leave the cursor where
  it is; `Reset` moves the cursor back to the first row. A row is handed
  out only while `rowCount` is positive and the cursor is inside `rows`.
 */
module Results {
  import opened Bits
  import opened Flags

  datatype Option<T> = None | Some(value: T)

  /** One column definition. The flags object is carried as its value. */
  datatype Field = Field(
    name: string, length: Uint32, fieldType: Uint8, flags: Attributes, decimals: Uint8)

  /** One row: a value per column, in column order. */
  datatype Row<V> = Row(data: seq<V>)

  /** The data of each row, in order. */
  function RowData<V>(rows: seq<Row<V>>): (ds: seq<seq<V>>)
    ensures |ds| == |rows|
    ensures forall i :: 0 <= i < |rows| ==> ds[i] == rows[i].data
  {
    if rows == [] then [] else [rows[0].data] + RowData(rows[1..])
  }

  /**
    The map `FetchMap` builds from one row: column i's value under column
    i's name, written in column order, so a later column overwrites an
    earlier one with the same name. Every value needs a column definition.
   */
  function RowMap<V>(fields: seq<Field>, data: seq<V>): (m: map<string, V>)
    requires |data| <= |fields|
  {
    if data == [] then map[]
    else RowMap(fields, data[..|data| - 1])[fields[|data| - 1].name := data[|data| - 1]]
  }

  /** The keys of a row's map are exactly the names of its first |data| columns. */
  lemma {:induction false} RowMapKeys<V>(fields: seq<Field>, data: seq<V>, name: string)
    requires |data| <= |fields|
    ensures name in RowMap(fields, data) <==> exists i :: 0 <= i < |data| && fields[i].name == name
  {
    if data != [] {
      var n := |data| - 1;
      RowMapKeys(fields, data[..n], name);
      if name in RowMap(fields, data[..n]) {
        var i :| 0 <= i < n && fields[i].name == name;
        assert data[..n][i] == data[i];
      }
    }
  }

  /** The value under column i's name is column i's value when no later column shares the name. */
  lemma {:induction false} RowMapLastWins<V>(fields: seq<Field>, data: seq<V>, i: nat)
    requires |data| <= |fields| && i < |data|
    requires forall j :: i < j < |data| ==> fields[j].name != fields[i].name
    ensures fields[i].name in RowMap(fields, data)
    ensures RowMap(fields, data)[fields[i].name] == data[i]
  {
    var n := |data| - 1;
    if i < n {
      RowMapLastWins(fields, data[..n], i);
      assert data[..n][i] == data[i];
    }
  }

  /** With distinct column names, every value of the row is found under its column's name. */
  lemma {:induction false} RowMapDistinctNames<V>(fields: seq<Field>, data: seq<V>)
    requires |data| <= |fields|
    requires forall i, j :: 0 <= i < j < |data| ==> fields[i].name != fields[j].name
    ensures forall i :: 0 <= i < |data| ==>
      fields[i].name in RowMap(fields, data) && RowMap(fields, data)[fields[i].name] == data[i]
  {
    forall i | 0 <= i < |data|
      ensures fields[i].name in RowMap(fields, data) && RowMap(fields, data)[fields[i].name] == data[i]
    {
      RowMapLastWins(fields, data, i);
    }
  }

  /** A query result: header counts, column definitions, rows, and the row cursor. */
  class ResultSet<V> {
    var affectedRows: Uint64
    var insertId: Uint64
    var warningCount: Uint16
    var message: string

    var fields: seq<Field>
    var fieldCount: Uint64
    var fieldsRead: Uint64
    var fieldsEOF: bool

    var rows: seq<Row<V>>
    var rowCount: Uint64
    var rowsEOF: bool

    /** Index of the next row to hand out. */
    var pointer: nat

    /** The cursor never points past the end of the rows. */
    ghost predicate Valid()
      reads this
    {
      pointer <= |rows|
    }

    /** There is a row under the cursor to hand out. */
    predicate HasCurrent()
      reads this
    {
      rowCount > 0 && pointer < |rows|
    }

    /** The data successive fetches will hand out, in order, before reporting the end. */
    ghost function Pending(): seq<seq<V>>
      reads this
    {
      if rowCount > 0 && pointer <= |rows| then RowData(rows[pointer..]) else []
    }

    /** An empty result, as the client allocates it before reading the server's reply. */
    constructor ()
      ensures affectedRows == 0 && insertId == 0 && warningCount == 0 && message == ""
      ensures fields == [] && fieldCount == 0 && fieldsRead == 0 && !fieldsEOF
      ensures rows == [] && rowCount == 0 && !rowsEOF && pointer == 0
      ensures Valid() && Pending() == []
    {
      affectedRows, insertId, warningCount, message := 0, 0, 0, "";
      fields, fieldCount, fieldsRead, fieldsEOF := [], 0, 0, false;
      rows, rowCount, rowsEOF := [], 0, false;
      pointer := 0;
    }

    /**
      Hands out the data of the row under the cursor and advances the
      cursor, or returns `None` and leaves the cursor alone when no row is
      left. Repeated calls therefore hand out `Pending()` in order and then
      `None` for ever.
     */
    method FetchRow() returns (row: Option<seq<V>>)
      modifies this`pointer
      ensures old(HasCurrent()) ==> row == Some(rows[old(pointer)].data) && pointer == old(pointer) + 1
      ensures !old(HasCurrent()) ==> row == None && pointer == old(pointer)
      ensures old(Valid()) ==> Valid()
      ensures old(Valid()) ==> (row.None? <==> old(Pending()) == [])
      ensures row.Some? ==> old(Pending()) == [row.value] + Pending()
      ensures row.None? ==> Pending() == old(Pending())
    {
      if rowCount > 0 {
        if |rows| > pointer {
          row := Some(rows[pointer].data);
          assert rows[pointer..] == [rows[pointer]] + rows[pointer + 1..];
          pointer := pointer + 1;
          return;
        }
      }
      row := None;
    }

    /**
      Like `FetchRow`, but hands out the row as a map from column name to
      value. Each value of the row needs a column definition: indexing the
      column list past its end is a run-time panic.
     */
    method FetchMap() returns (rowMap: Option<map<string, V>>)
      requires HasCurrent() ==> |rows[pointer].data| <= |fields|
      modifies this`pointer
      ensures old(HasCurrent()) ==>
        rowMap == Some(RowMap(fields, rows[old(pointer)].data)) && pointer == old(pointer) + 1
      ensures !old(HasCurrent()) ==> rowMap == None && pointer == old(pointer)
      ensures old(Valid()) ==> Valid()
      ensures rowMap.Some? ==> old(Pending()) == [rows[old(pointer)].data] + Pending()
    {
      if rowCount > 0 {
        if |rows| > pointer {
          var row := rows[pointer].data;
          var m: map<string, V> := map[];
          var key := 0;
          while key < |row|
            invariant 0 <= key <= |row|
            invariant m == RowMap(fields, row[..key])
          {
            assert row[..key + 1][..key] == row[..key];
            m := m[fields[key].name := row[key]];
            key := key + 1;
          }
          assert row[..|row|] == row;
          assert rows[pointer..] == [rows[pointer]] + rows[pointer + 1..];
          pointer := pointer + 1;
          rowMap := Some(m);
          return;
        }
      }
      rowMap := None;
    }

    /** Moves the cursor back to the first row; doing it twice is doing it once. */
    method Reset()
      modifies this`pointer
      ensures pointer == 0
      ensures Valid()
      ensures Pending() == (if rowCount > 0 then RowData(rows) else [])
    {
      pointer := 0;
      assert rows[0..] == rows;
    }
  }
}
