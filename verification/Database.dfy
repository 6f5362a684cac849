/** The in-memory database of emfdb.c: tables of rows with deletable slots, and their text file. */
module Database {
  import opened Basics
  import opened Handles
  import opened Numbers
  import opened Tokens

  const DB_ERR_GENERAL: int := -1
  const DB_ERR_COL_NOT_FOUND: int := -2
  const DB_ERR_ROW_NOT_FOUND: int := -4
  const DB_ERR_ROW_DELETED: int := -5
  const DB_ERR_TABLE_NOT_FOUND: int := -6
  const DB_ERR_BAD_FORMAT: int := -8

  datatype Column = Column(name: string, isString: bool)

  /** A cell is one word: a number, or the address of a string. */
  datatype Cell = Word(n: int) | Text(s: string)

  const NULL := Word(0)

  type Row = seq<Cell>

  datatype Table = Table(name: string, columns: seq<Column>, rows: seq<Option<Row>>)

  // ----- Names -----

  /** The first table of this name, or -1. */
  function TableId(tables: seq<Table>, name: string): (tid: int)
    ensures -1 <= tid < |tables| && (tid >= 0 ==> tables[tid].name == name)
    ensures forall i :: 0 <= i < |tables| && (tid < 0 || i < tid) ==> tables[i].name != name
  {
    if tables == [] then -1
    else if tables[0].name == name then 0
    else var r := TableId(tables[1..], name); if r < 0 then -1 else r + 1
  }

  /** Tables are found by name, whatever their rows. */
  lemma TableIdKept(tables: seq<Table>, i: nat, t: Table, name: string)
    requires i < |tables| && t.name == tables[i].name
    ensures TableId(tables[i := t], name) == TableId(tables, name)
  {
    var a, b := TableId(tables, name), TableId(tables[i := t], name);
    assert a >= 0 ==> tables[i := t][a].name == name;
    assert b >= 0 ==> tables[b].name == name;
  }

  function ColumnIndex(columns: seq<Column>, name: string): (c: int)
    ensures -1 <= c < |columns| && (c >= 0 ==> columns[c].name == name)
    ensures forall i :: 0 <= i < |columns| && (c < 0 || i < c) ==> columns[i].name != name
  {
    if columns == [] then -1
    else if columns[0].name == name then 0
    else var r := ColumnIndex(columns[1..], name); if r < 0 then -1 else r + 1
  }

  // ----- Well-formed tables -----

  predicate CellOk(column: Column, cell: Cell)
  {
    if column.isString then cell == NULL || cell.Text? else cell.Word? && IsInt(cell.n)
  }

  predicate CellOkAt(columns: seq<Column>, row: Row, c: nat)
    requires c < |columns| && c < |row|
  {
    CellOk(columns[c], row[c])
  }

  ghost predicate RowOk(columns: seq<Column>, row: Row)
  {
    |row| == |columns| && forall c :: 0 <= c < |columns| ==> CellOkAt(columns, row, c)
  }

  ghost predicate SlotOk(t: Table, i: nat)
    requires i < |t.rows|
  {
    t.rows[i].Some? ==> RowOk(t.columns, t.rows[i].value)
  }

  /** There are columns, cells have their column's type, and the row list ends at its last live row. */
  ghost predicate TableOk(t: Table)
  {
    && t.columns != [] && (t.rows != [] ==> t.rows[|t.rows| - 1].Some?)
    && forall i :: 0 <= i < |t.rows| ==> SlotOk(t, i)
  }

  ghost predicate TableOkAt(tables: seq<Table>, i: nat)
    requires i < |tables|
  {
    TableOk(tables[i])
  }

  ghost predicate TablesOk(tables: seq<Table>)
  {
    forall i :: 0 <= i < |tables| ==> TableOkAt(tables, i)
  }

  /** Replacing one table by a well-formed one. */
  lemma TablesKept(tables: seq<Table>, i: nat, t: Table)
    requires TablesOk(tables) && i < |tables| && TableOk(t)
    ensures TablesOk(tables[i := t])
  {
    var tables' := tables[i := t];
    forall k | 0 <= k < |tables'|
      ensures TableOkAt(tables', k)
    {
      assert TableOkAt(tables, k);
    }
  }

  function ZeroRow(n: nat): (row: Row)
    ensures |row| == n && forall c :: 0 <= c < n ==> row[c] == NULL
  {
    seq(n, _ => NULL)
  }

  function LiveAt(t: Table, row: int): bool
  {
    0 <= row < |t.rows| && t.rows[row].Some?
  }

  // ----- Changes to one table -----

  function Added(t: Table): (r: Table)
  {
    t.(rows := Stored(t.rows, ZeroRow(|t.columns|)))
  }

  function Written(t: Table, row: nat, column: nat, cell: Cell): (r: Table)
    requires LiveAt(t, row) && column < |t.rows[row].value|
  {
    t.(rows := t.rows[row := Some(t.rows[row].value[column := cell])])
  }

  /** The row in a live slot has a cell per column. */
  lemma LiveRow(t: Table, row: nat)
    requires TableOk(t) && LiveAt(t, row)
    ensures RowOk(t.columns, t.rows[row].value)
  {
    assert SlotOk(t, row);
  }

  lemma ZeroRowOk(columns: seq<Column>)
    ensures RowOk(columns, ZeroRow(|columns|))
  {
    var row := ZeroRow(|columns|);
    assert forall c :: 0 <= c < |columns| ==> CellOkAt(columns, row, c);
  }

  lemma AddedOk(t: Table)
    requires TableOk(t)
    ensures TableOk(Added(t)) && LiveAt(Added(t), FirstFree(t.rows))
    ensures Added(t).rows[FirstFree(t.rows)] == Some(ZeroRow(|t.columns|))
  {
    ZeroRowOk(t.columns);
    var t' := Added(t);
    forall i | 0 <= i < |t'.rows|
      ensures SlotOk(t', i)
    {
      assert i < |t.rows| ==> SlotOk(t, i);
    }
  }

  lemma WrittenOk(t: Table, row: nat, column: nat, cell: Cell)
    requires TableOk(t) && LiveAt(t, row) && column < |t.columns| && CellOk(t.columns[column], cell)
    ensures RowOk(t.columns, t.rows[row].value)
    ensures TableOk(Written(t, row, column, cell))
  {
    LiveRow(t, row);
    var cells := t.rows[row].value;
    var cells' := cells[column := cell];
    forall c | 0 <= c < |t.columns|
      ensures CellOkAt(t.columns, cells', c)
    {
      assert CellOkAt(t.columns, cells, c);
    }
    var t' := Written(t, row, column, cell);
    forall i | 0 <= i < |t'.rows|
      ensures SlotOk(t', i)
    {
      assert SlotOk(t, i);
    }
  }

  lemma ClearedOk(t: Table, row: nat)
    requires TableOk(t) && LiveAt(t, row)
    ensures TableOk(t.(rows := Cleared(t.rows, row)))
  {
    var t' := t.(rows := Cleared(t.rows, row));
    forall i | 0 <= i < |t'.rows|
      ensures SlotOk(t', i)
    {
      assert SlotOk(t, i);
    }
  }

  lemma StoredCount<T>(v: seq<Option<T>>, x: T)
    ensures Count(Stored(v, x)) == Count(v) + 1
  {
    var h := FirstFree(v);
    if h < |v| {
      CountUpdate(v, h, Some(x));
    } else {
      assert (v + [Some(x)])[..|v|] == v;
    }
  }

  /** Rows added, free slots first, until the row list has n of them. */
  ghost function Grown(t: Table, n: nat): (r: Table)
    ensures r.name == t.name && r.columns == t.columns
    ensures TableOk(t) ==> TableOk(r)
    decreases n + n - |t.rows| - Count(t.rows)
  {
    if |t.rows| >= n then t else
      StoredCount(t.rows, ZeroRow(|t.columns|));
      assert TableOk(t) ==> TableOk(Added(t)) by { if TableOk(t) { AddedOk(t); } }
      Grown(Added(t), n)
  }

  /** Without free slots, growing by one row appends it. */
  lemma GrownByOne(t: Table)
    requires forall i :: 0 <= i < |t.rows| ==> t.rows[i].Some?
    ensures Grown(t, |t.rows| + 1) == t.(rows := t.rows + [Some(ZeroRow(|t.columns|))])
  {
    var t' := Added(t);
    assert t' == t.(rows := t.rows + [Some(ZeroRow(|t.columns|))]);
    assert Grown(t', |t.rows| + 1) == t';
  }

  /** All tables without their rows. */
  ghost function Zeroed(tables: seq<Table>): (r: seq<Table>)
    ensures |r| == |tables| && forall i :: 0 <= i < |tables| ==> r[i] == tables[i].(rows := [])
  {
    seq(|tables|, i requires 0 <= i < |tables| => tables[i].(rows := []))
  }

  lemma ZeroedOk(tables: seq<Table>)
    requires TablesOk(tables)
    ensures TablesOk(Zeroed(tables))
  {
    var tables' := Zeroed(tables);
    forall i | 0 <= i < |tables'|
      ensures TableOkAt(tables', i)
    {
      assert TableOkAt(tables, i);
    }
  }

  // ----- The database -----

  class Database {
    var tables: seq<Table>

    ghost predicate Valid()
      reads this
    {
      TablesOk(tables)
    }

    constructor ()
      ensures Valid() && tables == []
    {
      tables := [];
    }

    /** Add a table with no rows. Without columns its rows could not be stored. */
    method RegisterDBSchema(name: string, columns: seq<Column>)
      requires Valid() && columns != []
      modifies this
      ensures Valid() && tables == old(tables) + [Table(name, columns, [])]
    {
      ghost var was := tables;
      tables := tables + [Table(name, columns, [])];
      forall i | 0 <= i < |tables|
        ensures TableOkAt(tables, i)
      {
        assert i < |was| ==> TableOkAt(was, i);
      }
    }

    method GetTableId(name: string) returns (tid: int)
      ensures tid == TableId(tables, name)
    {
      tid := 0;
      while tid < |tables|
        invariant 0 <= tid <= |tables| && forall i :: 0 <= i < tid ==> tables[i].name != name
      {
        if tables[tid].name == name {
          return;
        }
        tid := tid + 1;
      }
      tid := -1;
    }

    method GetColumnIndex(tid: nat, name: string) returns (c: int)
      requires tid < |tables|
      ensures c == ColumnIndex(tables[tid].columns, name)
    {
      c := 0;
      while c < |tables[tid].columns|
        invariant 0 <= c <= |tables[tid].columns| && forall i :: 0 <= i < c ==> tables[tid].columns[i].name != name
      {
        if tables[tid].columns[c].name == name {
          return;
        }
        c := c + 1;
      }
      c := -1;
    }

    /** The first live row from startRow on whose cell equals the value; the cells looked at hold strings or nothing. */
    method SearchStr(table: string, column: string, value: string, startRow: int) returns (row: int)
      requires Valid() && Comparable(tables, table, column, value, startRow)
      ensures row == Search(tables, table, column, value, startRow)
    {
      var tid := GetTableId(table);
      if tid < 0 {
        return DB_ERR_TABLE_NOT_FOUND;
      }
      var t := tables[tid];
      var c := GetColumnIndex(tid, column);
      if startRow < 0 || startRow > |t.rows| {
        return DB_ERR_ROW_NOT_FOUND;
      }
      if c < 0 {
        return DB_ERR_COL_NOT_FOUND;
      }
      row := startRow;
      assert TableOkAt(tables, tid);
      while row < |t.rows|
        invariant startRow <= row <= |t.rows|
        invariant FindFrom(t, c, value, startRow) == FindFrom(t, c, value, row)
      {
        assert SlotOk(t, row) && HoldsString(t, row, c);
        if t.rows[row].Some? {
          var cell := t.rows[row].value[c];
          if cell != NULL && cell == Text(value) {
            return;
          }
        }
        row := row + 1;
      }
      row := -1;
    }

    /** Add a zeroed row in the first free slot. */
    method AddRow(table: string) returns (row: int)
      requires Valid()
      modifies this
      ensures Valid()
      ensures TableId(old(tables), table) < 0 ==> row == DB_ERR_TABLE_NOT_FOUND && tables == old(tables)
      ensures var tid := TableId(old(tables), table);
              tid >= 0 ==> row == FirstFree(old(tables)[tid].rows) && tables == old(tables)[tid := Added(old(tables)[tid])]
    {
      var tid := GetTableId(table);
      if tid < 0 {
        return DB_ERR_TABLE_NOT_FOUND;
      }
      assert TableOkAt(tables, tid);
      AddedOk(tables[tid]);
      TablesKept(tables, tid, Added(tables[tid]));
      row := FirstFree(tables[tid].rows);
      tables := tables[tid := Added(tables[tid])];
    }

    method DeleteRow(table: string, row: int) returns (rc: int)
      requires Valid()
      modifies this
      ensures Valid()
      ensures var tid := TableId(old(tables), table);
              && rc == (if tid < 0 then DB_ERR_TABLE_NOT_FOUND else if 0 <= row < |old(tables)[tid].rows| then 0 else -1)
              && tables == (if tid >= 0 && LiveAt(old(tables)[tid], row)
                            then old(tables)[tid := old(tables)[tid].(rows := Cleared(old(tables)[tid].rows, row))]
                            else old(tables))
    {
      var tid := GetTableId(table);
      if tid < 0 {
        return DB_ERR_TABLE_NOT_FOUND;
      }
      var t := tables[tid];
      if 0 <= row < |t.rows| {
        if t.rows[row].Some? {
          assert TableOkAt(tables, tid);
          ClearedOk(t, row);
          TablesKept(tables, tid, t.(rows := Cleared(t.rows, row)));
          tables := tables[tid := t.(rows := Cleared(t.rows, row))];
        }
        return 0;
      }
      rc := -1;
    }

    method GetTableNrow(table: string) returns (n: int)
      ensures var tid := TableId(tables, table); n == if tid < 0 then -1 else |tables[tid].rows|
    {
      var tid := GetTableId(table);
      n := if tid < 0 then -1 else |tables[tid].rows|;
    }

    /** Add rows until the table has this many. */
    method SetTableNrow(table: string, n: int) returns (rc: int)
      requires Valid()
      modifies this
      ensures Valid()
      ensures var tid := TableId(old(tables), table);
              if tid < 0 then rc == DB_ERR_TABLE_NOT_FOUND && tables == old(tables)
              else rc == 0 && tables == old(tables)[tid := if n < 0 then old(tables)[tid] else Grown(old(tables)[tid], n)]
    {
      var tid := GetTableId(table);
      if tid < 0 {
        return DB_ERR_TABLE_NOT_FOUND;
      }
      ghost var was := tables;
      while |tables[tid].rows| < n
        invariant Valid() && |tables| == |was| && tables == was[tid := tables[tid]] && TableId(tables, table) == tid
        invariant if n < 0 then tables == was else Grown(tables[tid], n) == Grown(was[tid], n)
        decreases n + n - |tables[tid].rows| - Count(tables[tid].rows)
      {
        StoredCount(tables[tid].rows, ZeroRow(|tables[tid].columns|));
        TableIdKept(tables, tid, Added(tables[tid]), table);
        var row := AddRow(table);
        if row < 0 {
          return -1;
        }
      }
      rc := 0;
    }

    /** Release every row of every table. */
    method Zero()
      requires Valid()
      modifies this
      ensures Valid() && tables == Zeroed(old(tables))
    {
      var i := 0;
      while i < |tables|
        invariant 0 <= i <= |tables| == |old(tables)|
        invariant forall k :: 0 <= k < |tables| ==> tables[k] == if k < i then Zeroed(old(tables))[k] else old(tables)[k]
      {
        tables := tables[i := tables[i].(rows := [])];
        i := i + 1;
      }
      ZeroedOk(old(tables));
      assert tables == Zeroed(old(tables));
    }

    /** Read a cell; the errors are those of dbReadInt, in its order. */
    method Read(table: string, column: string, row: int) returns (rc: int, cell: Cell)
      requires Valid()
      ensures rc == ReadCode(tables, table, column, row)
      ensures rc == 0 ==> cell == CellAt(tables, table, column, row)
    {
      cell := NULL;
      var tid := GetTableId(table);
      if tid < 0 {
        return DB_ERR_TABLE_NOT_FOUND, cell;
      }
      var t := tables[tid];
      if 0 <= row < |t.rows| {
        var c := GetColumnIndex(tid, column);
        if c >= 0 {
          if t.rows[row].Some? {
            assert TableOkAt(tables, tid);
            LiveRow(t, row);
            return 0, t.rows[row].value[c];
          }
          return DB_ERR_ROW_DELETED, cell;
        }
        return DB_ERR_COL_NOT_FOUND, cell;
      }
      rc := DB_ERR_ROW_NOT_FOUND;
    }

    /** Write a number; the column's type is not looked at, so a string column is only safe for a null pointer. */
    method WriteInt(table: string, column: string, row: int, data: int) returns (rc: int)
      requires Valid() && IsInt(data)
      modifies this
      ensures rc != 0 || data == 0 || !IsStringColumn(tables, table, column) ==> Valid()
      ensures rc == WriteIntCode(old(tables), table, column, row)
      ensures tables == if rc == 0 then WrittenIn(old(tables), table, column, row, Word(data)) else old(tables)
    {
      var tid := GetTableId(table);
      if tid < 0 {
        return DB_ERR_TABLE_NOT_FOUND;
      }
      var t := tables[tid];
      var c := GetColumnIndex(tid, column);
      if c >= 0 {
        if 0 <= row < |t.rows| {
          if t.rows[row].Some? {
            assert TableOkAt(tables, tid);
            LiveRow(t, row);
            if data == 0 || !t.columns[c].isString {
              WrittenOk(t, row, c, Word(data));
              TablesKept(tables, tid, Written(t, row, c, Word(data)));
            }
            TableIdKept(tables, tid, Written(t, row, c, Word(data)), table);
            tables := tables[tid := Written(t, row, c, Word(data))];
            return 0;
          }
          return DB_ERR_ROW_DELETED;
        }
        return DB_ERR_ROW_NOT_FOUND;
      }
      rc := DB_ERR_COL_NOT_FOUND;
    }

    /** Write a copy of a string into a string column. */
    method WriteStr(table: string, column: string, row: int, s: string) returns (rc: int)
      requires Valid()
      modifies this
      ensures Valid()
      ensures rc == WriteStrCode(old(tables), table, column, row)
      ensures tables == if rc == 0 then WrittenIn(old(tables), table, column, row, Text(s)) else old(tables)
    {
      var tid := GetTableId(table);
      if tid < 0 {
        return DB_ERR_TABLE_NOT_FOUND;
      }
      var t := tables[tid];
      var c := GetColumnIndex(tid, column);
      if c < 0 {
        return DB_ERR_COL_NOT_FOUND;
      }
      if !t.columns[c].isString {
        return DB_ERR_BAD_FORMAT;
      }
      if !(0 <= row < |t.rows|) {
        return DB_ERR_ROW_NOT_FOUND;
      }
      if t.rows[row].None? {
        return DB_ERR_ROW_DELETED;
      }
      assert TableOkAt(tables, tid);
      WrittenOk(t, row, c, Text(s));
      TablesKept(tables, tid, Written(t, row, c, Text(s)));
      tables := tables[tid := Written(t, row, c, Text(s))];
      rc := 0;
    }
  }

  // ----- What the operations answer -----

  ghost predicate HasText(t: Table, row: nat, column: nat, value: string)
    requires TableOk(t) && column < |t.columns| && row < |t.rows|
  {
    t.rows[row].Some? && (LiveRow(t, row); t.rows[row].value[column] == Text(value))
  }

  /** The first live row at or after `row` whose cell is this text, or -1. */
  ghost function FindFrom(t: Table, column: nat, value: string, row: nat): (r: int)
    requires TableOk(t) && column < |t.columns| && row <= |t.rows|
    ensures r == -1 || (row <= r < |t.rows| && HasText(t, r, column, value))
    ensures forall i :: row <= i < |t.rows| && (r == -1 || i < r) ==> !HasText(t, i, column, value)
    decreases |t.rows| - row
  {
    if row == |t.rows| then -1 else if HasText(t, row, column, value) then row else FindFrom(t, column, value, row + 1)
  }

  /** A cell that can be compared: no row, an empty cell or a string. */
  ghost predicate HoldsString(t: Table, row: nat, column: nat)
    requires TableOk(t) && column < |t.columns| && row < |t.rows|
  {
    t.rows[row].Some? ==> (LiveRow(t, row); t.rows[row].value[column] == NULL || t.rows[row].value[column].Text?)
  }

  /** Every cell a search reads, up to the one it finds, can be compared. */
  ghost predicate Comparable(tables: seq<Table>, table: string, column: string, value: string, startRow: int)
    requires TablesOk(tables)
  {
    var tid := TableId(tables, table);
    tid >= 0 ==>
      var t, c := tables[tid], ColumnIndex(tables[tid].columns, column);
      assert TableOkAt(tables, tid);
      c >= 0 && 0 <= startRow <= |t.rows| ==>
        var r := FindFrom(t, c, value, startRow);
        forall i :: startRow <= i < |t.rows| && (r < 0 || i <= r) ==> HoldsString(t, i, c)
  }

  /** A string column always can be. */
  lemma StringsComparable(tables: seq<Table>, table: string, column: string, value: string, startRow: int)
    requires TablesOk(tables)
    requires var tid := TableId(tables, table);
             tid >= 0 ==> var c := ColumnIndex(tables[tid].columns, column); c >= 0 ==> tables[tid].columns[c].isString
    ensures Comparable(tables, table, column, value, startRow)
  {
    var tid := TableId(tables, table);
    if tid >= 0 {
      var t, c := tables[tid], ColumnIndex(tables[tid].columns, column);
      assert TableOkAt(tables, tid);
      if c >= 0 {
        forall i | 0 <= i < |t.rows|
          ensures HoldsString(t, i, c)
        {
          if t.rows[i].Some? {
            LiveRow(t, i);
            assert CellOkAt(t.columns, t.rows[i].value, c);
          }
        }
      }
    }
  }

  ghost function Search(tables: seq<Table>, table: string, column: string, value: string, startRow: int): (r: int)
    requires TablesOk(tables)
  {
    var tid := TableId(tables, table);
    if tid < 0 then DB_ERR_TABLE_NOT_FOUND
    else if startRow < 0 || startRow > |tables[tid].rows| then DB_ERR_ROW_NOT_FOUND
    else
      var c := ColumnIndex(tables[tid].columns, column);
      if c < 0 then DB_ERR_COL_NOT_FOUND else assert TableOkAt(tables, tid); FindFrom(tables[tid], c, value, startRow)
  }

  ghost predicate IsStringColumn(tables: seq<Table>, table: string, column: string)
  {
    var tid := TableId(tables, table);
    tid >= 0 && var c := ColumnIndex(tables[tid].columns, column); c >= 0 && tables[tid].columns[c].isString
  }

  ghost function ReadCode(tables: seq<Table>, table: string, column: string, row: int): (rc: int)
  {
    var tid := TableId(tables, table);
    if tid < 0 then DB_ERR_TABLE_NOT_FOUND
    else if row < 0 || row >= |tables[tid].rows| then DB_ERR_ROW_NOT_FOUND
    else if ColumnIndex(tables[tid].columns, column) < 0 then DB_ERR_COL_NOT_FOUND
    else if tables[tid].rows[row].None? then DB_ERR_ROW_DELETED
    else 0
  }

  ghost function CellAt(tables: seq<Table>, table: string, column: string, row: int): (cell: Cell)
    requires ReadCode(tables, table, column, row) == 0
    requires TablesOk(tables)
  {
    var t := tables[TableId(tables, table)];
    assert TableOkAt(tables, TableId(tables, table));
    LiveRow(t, row);
    t.rows[row].value[ColumnIndex(t.columns, column)]
  }

  ghost function WriteIntCode(tables: seq<Table>, table: string, column: string, row: int): (rc: int)
    ensures rc == 0 ==> ReadCode(tables, table, column, row) == 0
  {
    var tid := TableId(tables, table);
    if tid >= 0 && ColumnIndex(tables[tid].columns, column) < 0 then DB_ERR_COL_NOT_FOUND
    else ReadCode(tables, table, column, row)
  }

  ghost function WriteStrCode(tables: seq<Table>, table: string, column: string, row: int): (rc: int)
    ensures rc == 0 ==> ReadCode(tables, table, column, row) == 0
  {
    var tid := TableId(tables, table);
    if tid < 0 then DB_ERR_TABLE_NOT_FOUND else
      var c := ColumnIndex(tables[tid].columns, column);
      if c >= 0 && !tables[tid].columns[c].isString then DB_ERR_BAD_FORMAT
      else WriteIntCode(tables, table, column, row)
  }

  ghost function WrittenIn(tables: seq<Table>, table: string, column: string, row: int, cell: Cell): (r: seq<Table>)
    requires ReadCode(tables, table, column, row) == 0
    requires TablesOk(tables)
  {
    var tid := TableId(tables, table);
    assert TableOkAt(tables, tid);
    LiveRow(tables[tid], row);
    tables[tid := Written(tables[tid], row, ColumnIndex(tables[tid].columns, column), cell)]
  }

  // ----- Laws -----

  /** The four operations look for the table, the row, the column and the row's life; the order is each one's own. */
  lemma ErrorCodes(tables: seq<Table>, table: string, column: string, row: int, tid: nat, c: nat)
    requires TablesOk(tables)
    ensures (forall i :: 0 <= i < |tables| ==> tables[i].name != table) ==>
              ReadCode(tables, table, column, row) == WriteIntCode(tables, table, column, row) == WriteStrCode(tables, table, column, row) == -6
    ensures TableId(tables, table) == tid && !(0 <= row < |tables[tid].rows|) ==> ReadCode(tables, table, column, row) == -4
    ensures TableId(tables, table) == tid && (forall i :: 0 <= i < |tables[tid].columns| ==> tables[tid].columns[i].name != column) ==>
              && WriteIntCode(tables, table, column, row) == WriteStrCode(tables, table, column, row) == -2
              && (0 <= row < |tables[tid].rows| ==> ReadCode(tables, table, column, row) == -2)
    ensures TableId(tables, table) == tid && ColumnIndex(tables[tid].columns, column) == c && 0 <= row < |tables[tid].rows| ==>
              && ReadCode(tables, table, column, row) == WriteIntCode(tables, table, column, row) == (if tables[tid].rows[row].Some? then 0 else -5)
              && WriteStrCode(tables, table, column, row) ==
                 if !tables[tid].columns[c].isString then -8 else if tables[tid].rows[row].Some? then 0 else -5
  {
  }

  /** A cell that is written is read back, and every other cell is as before. */
  lemma ReadWritten(tables: seq<Table>, table: string, column: string, row: int, cell: Cell, table': string, column': string, row': int)
    requires TablesOk(tables) && ReadCode(tables, table, column, row) == 0 && TablesOk(WrittenIn(tables, table, column, row, cell))
    ensures var tables' := WrittenIn(tables, table, column, row, cell);
            && ReadCode(tables', table', column', row') == ReadCode(tables, table', column', row')
            && (ReadCode(tables, table', column', row') == 0 ==>
                  CellAt(tables', table', column', row') ==
                  if (table', column', row') == (table, column, row) then cell else CellAt(tables, table', column', row'))
  {
    var tid, tid' := TableId(tables, table), TableId(tables, table');
    assert TableOkAt(tables, tid);
    LiveRow(tables[tid], row);
    var t' := Written(tables[tid], row, ColumnIndex(tables[tid].columns, column), cell);
    TableIdKept(tables, tid, t', table');
    TableIdKept(tables, tid, t', table);
    if ReadCode(tables, table', column', row') == 0 && tid' == tid {
      LiveRow(tables[tid], row');
      WrittenAt(tables[tid], row, ColumnIndex(tables[tid].columns, column), cell, row', ColumnIndex(tables[tid].columns, column'));
    }
  }

  lemma WrittenAt(t: Table, row: nat, c: nat, cell: Cell, row': nat, c': nat)
    requires LiveAt(t, row) && c < |t.rows[row].value| && LiveAt(t, row') && c' < |t.rows[row'].value|
    ensures var t' := Written(t, row, c, cell);
            LiveAt(t', row') && c' < |t'.rows[row'].value|
            && t'.rows[row'].value[c'] == if row' == row && c' == c then cell else t.rows[row'].value[c']
  {
  }

  /** Deleting the row just added leaves the table as it was. */
  lemma DeleteUndoesAdd(t: Table)
    requires TableOk(t)
    ensures var row := FirstFree(t.rows); LiveAt(Added(t), row) && Added(t).(rows := Cleared(Added(t).rows, row)) == t
  {
    AddedOk(t);
    var row, v := FirstFree(t.rows), Added(t).rows;
    var cleared := v[row := None];
    if row < |t.rows| {
      assert cleared == t.rows;
    } else {
      assert cleared == t.rows + [None];
    }
    ClearedIs(v, row, t.rows);
  }

  lemma ClearedIs<T>(v: seq<Option<T>>, row: nat, w: seq<Option<T>>)
    requires row < |v| && (w != [] ==> w[|w| - 1].Some?) && (v[row := None] == w || v[row := None] == w + [None])
    ensures Cleared(v, row) == w
  {
  }
}
