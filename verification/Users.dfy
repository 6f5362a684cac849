/** Users and groups of um.c, kept in the tables of the database. */
module Users {
  import opened Basics
  import opened Handles
  import opened Numbers
  import opened Database
  import opened Encryption

  const UM_ERR_GENERAL: int := -1
  const UM_ERR_NOT_FOUND: int := -2
  const UM_ERR_PROTECTED: int := -3
  const UM_ERR_DUPLICATE: int := -4
  const UM_ERR_IN_USE: int := -5
  const UM_ERR_BAD_NAME: int := -6
  const UM_ERR_BAD_PASSWORD: int := -7

  const USERS: string := "users"
  const GROUPS: string := "groups"
  const ACCESS: string := "access"

  const USER_COLUMNS: seq<Column> :=
    [Column("name", true), Column("password", true), Column("group", true), Column("prot", false), Column("disable", false)]
  const GROUP_COLUMNS: seq<Column> :=
    [Column("name", true), Column("priv", false), Column("method", false), Column("prot", false), Column("disable", false)]
  const ACCESS_COLUMNS: seq<Column> :=
    [Column("name", true), Column("method", false), Column("secure", false), Column("group", true)]

  // ----- The tables -----

  /** The three tables of user management, in the order they are registered. */
  ghost predicate Schema(tables: seq<Table>)
  {
    && |tables| == 3 && TablesOk(tables)
    && tables[0].name == USERS && tables[0].columns == USER_COLUMNS
    && tables[1].name == GROUPS && tables[1].columns == GROUP_COLUMNS
    && tables[2].name == ACCESS && tables[2].columns == ACCESS_COLUMNS
  }

  lemma TableIds(tables: seq<Table>)
    requires Schema(tables)
    ensures TableId(tables, USERS) == 0 && TableId(tables, GROUPS) == 1 && TableId(tables, ACCESS) == 2
    ensures TableOk(tables[0]) && TableOk(tables[1]) && TableOk(tables[2])
  {
    assert |USERS| == 5 && |GROUPS| == 6 && |ACCESS| == 6 && GROUPS[0] != ACCESS[0];
    assert TableOkAt(tables, 0) && TableOkAt(tables, 1) && TableOkAt(tables, 2);
  }

  lemma SchemaKept(tables: seq<Table>, i: nat, t: Table)
    requires Schema(tables) && i < 3 && TableOk(t) && t.name == tables[i].name && t.columns == tables[i].columns
    ensures Schema(tables[i := t])
  {
    TablesKept(tables, i, t);
  }

  // ----- Keys -----

  /** The name in a row slot. */
  function KeyAt(t: Table, i: nat): (k: Option<string>)
    requires i < |t.rows|
  {
    if t.rows[i].Some? && t.rows[i].value != [] && t.rows[i].value[0].Text? then Some(t.rows[i].value[0].s) else None
  }

  ghost predicate Named(t: Table, name: string)
  {
    exists i :: 0 <= i < |t.rows| && KeyAt(t, i) == Some(name)
  }

  ghost predicate Unique(t: Table)
  {
    forall i, j :: 0 <= i < j < |t.rows| && KeyAt(t, i).Some? ==> KeyAt(t, i) != KeyAt(t, j)
  }

  /** A search by name finds the name's only slot. */
  lemma FindKey(t: Table, name: string)
    requires TableOk(t) && t.columns != []
    ensures FindFrom(t, 0, name, 0) >= 0 <==> Named(t, name)
    ensures FindFrom(t, 0, name, 0) >= 0 ==> KeyAt(t, FindFrom(t, 0, name, 0)) == Some(name)
  {
    var r := FindFrom(t, 0, name, 0);
    if i :| 0 <= i < |t.rows| && KeyAt(t, i) == Some(name) {
      assert HasText(t, i, 0, name);
    }
    if r >= 0 {
      assert HasText(t, r, 0, name);
      LiveRow(t, r);
      assert KeyAt(t, r) == Some(name);
    }
  }

  lemma FindOnly(t: Table, name: string, i: nat)
    requires TableOk(t) && t.columns != [] && Unique(t) && i < |t.rows| && KeyAt(t, i) == Some(name)
    ensures FindFrom(t, 0, name, 0) == i
  {
    FindKey(t, name);
    assert HasText(t, i, 0, name);
  }

  // ----- Valid states -----

  /** A name or password that umCheckName accepts. */
  ghost predicate NameOk(s: string)
  {
    s != "" && SpaceFree(s)
  }

  ghost predicate UserRow(row: Row)
  {
    && |row| == 5 && row[0].Text? && row[1].Text? && row[2].Text? && row[3].Word? && row[4].Word?
    && NameOk(row[0].s) && NameOk(row[1].s) && Bytes(row[1].s)
  }

  ghost predicate GroupRow(row: Row)
  {
    && |row| == 5 && row[0].Text? && row[1].Word? && row[2].Word? && row[3].Word? && row[4].Word?
    && NameOk(row[0].s)
  }

  ghost predicate UserAt(tables: seq<Table>, i: nat)
    requires |tables| == 3 && i < |tables[0].rows|
  {
    tables[0].rows[i].Some? ==> UserRow(tables[0].rows[i].value) && Named(tables[1], tables[0].rows[i].value[2].s)
  }

  ghost predicate GroupAt(t: Table, i: nat)
    requires i < |t.rows|
  {
    t.rows[i].Some? ==> GroupRow(t.rows[i].value)
  }

  /** Names are unique, every user's group exists, and rows are complete. */
  ghost predicate Inv(tables: seq<Table>)
  {
    && Schema(tables) && Unique(tables[0]) && Unique(tables[1])
    && (forall i :: 0 <= i < |tables[0].rows| ==> UserAt(tables, i))
    && (forall i :: 0 <= i < |tables[1].rows| ==> GroupAt(tables[1], i))
  }

  // ----- Storing and clearing rows -----

  lemma StoredRowOk(t: Table, row: Row)
    requires TableOk(t) && RowOk(t.columns, row)
    ensures TableOk(t.(rows := Stored(t.rows, row)))
  {
    var t' := t.(rows := Stored(t.rows, row));
    forall i | 0 <= i < |t'.rows|
      ensures SlotOk(t', i)
    {
      assert i < |t.rows| ==> SlotOk(t, i);
    }
  }

  /** A new name keeps names unique and adds itself to the names. */
  lemma StoredUnique(t: Table, row: Row, name: string)
    requires Unique(t) && !Named(t, name) && row != [] && row[0] == Text(name)
    ensures Unique(t.(rows := Stored(t.rows, row)))
    ensures forall n :: Named(t, n) ==> Named(t.(rows := Stored(t.rows, row)), n)
  {
    var h, t' := FirstFree(t.rows), t.(rows := Stored(t.rows, row));
    assert forall i :: 0 <= i < |t'.rows| ==> KeyAt(t', i) == if i == h then Some(name) else KeyAt(t, i);
    forall n | Named(t, n)
      ensures Named(t', n)
    {
      var i :| 0 <= i < |t.rows| && KeyAt(t, i) == Some(n);
      assert KeyAt(t', i) == Some(n);
    }
  }

  lemma ClearedUnique(t: Table, row: nat, name: string)
    requires Unique(t) && row < |t.rows| && KeyAt(t, row) == Some(name)
    ensures Unique(t.(rows := Cleared(t.rows, row)))
    ensures forall n :: n != name && Named(t, n) ==> Named(t.(rows := Cleared(t.rows, row)), n)
  {
    var t' := t.(rows := Cleared(t.rows, row));
    assert forall i :: 0 <= i < |t'.rows| ==> KeyAt(t', i) == if i == row then None else KeyAt(t, i);
    forall n | n != name && Named(t, n)
      ensures Named(t', n)
    {
      var i :| 0 <= i < |t.rows| && KeyAt(t, i) == Some(n);
      assert i != row && t.rows[row := None][i].Some?;
      assert KeyAt(t', i) == Some(n);
    }
  }

  // ----- What the operations do -----

  datatype Op =
    | AddUser(user: string, pass: string, group: string, prot: int, disabled: int)
    | DeleteUser(user: string)
    | AddGroup(group: string, priv: int, am: int, prot: int, disabled: int)
    | DeleteGroup(group: string)

  /** Arguments as C passes them: 8-bit strings and ints. */
  ghost predicate OpOk(op: Op)
  {
    match op
    case AddUser(user, pass, group, prot, disabled) => Bytes(pass) && IsInt(prot) && IsInt(disabled)
    case AddGroup(group, priv, am, prot, disabled) => IsInt(priv) && IsInt(am) && IsInt(prot) && IsInt(disabled)
    case _ => true
  }

  function UserCells(user: string, stored: string, group: string, prot: int, disabled: int): (row: Row)
  {
    [Text(user), Text(stored), Text(group), Word(prot), Word(disabled)]
  }

  function GroupCells(group: string, priv: int, am: int, prot: int, disabled: int): (row: Row)
  {
    [Text(group), Word(priv), Word(am), Word(prot), Word(disabled)]
  }

  /** The entry of this name is marked against deletion. */
  ghost predicate Protected(t: Table, name: string)
  {
    exists i :: 0 <= i < |t.rows| && KeyAt(t, i) == Some(name) && |t.rows[i].value| == 5 && t.rows[i].value[3] != Word(0)
  }

  ghost predicate InUse(tables: seq<Table>, group: string)
    requires Schema(tables)
  {
    TableIds(tables);
    FindFrom(tables[0], 2, group, 0) >= 0 || FindFrom(tables[2], 3, group, 0) >= 0
  }

  ghost function Code(tables: seq<Table>, op: Op): (rc: int)
    requires Schema(tables)
  {
    match op
    case AddUser(user, pass, group, prot, disabled) =>
      if Named(tables[0], user) then UM_ERR_DUPLICATE
      else if !NameOk(user) then UM_ERR_BAD_NAME
      else if !NameOk(pass) then UM_ERR_BAD_PASSWORD
      else if !Named(tables[1], group) then UM_ERR_NOT_FOUND
      else 0
    case DeleteUser(user) =>
      if Protected(tables[0], user) then UM_ERR_PROTECTED else if !Named(tables[0], user) then UM_ERR_NOT_FOUND else 0
    case AddGroup(group, priv, am, prot, disabled) =>
      if Named(tables[1], group) then UM_ERR_DUPLICATE else if !NameOk(group) then UM_ERR_BAD_NAME else 0
    case DeleteGroup(group) =>
      if InUse(tables, group) then UM_ERR_IN_USE
      else if Protected(tables[1], group) then UM_ERR_PROTECTED
      else if !Named(tables[1], group) then UM_ERR_NOT_FOUND
      else 0
  }

  ghost function WithStored(tables: seq<Table>, i: nat, row: Row): (r: seq<Table>)
    requires i < |tables|
  {
    tables[i := tables[i].(rows := Stored(tables[i].rows, row))]
  }

  /** The table without the first row of this name. */
  ghost function WithCleared(tables: seq<Table>, i: nat, name: string): (r: seq<Table>)
    requires Schema(tables) && i < 2 && Named(tables[i], name)
  {
    TableIds(tables);
    FindKey(tables[i], name);
    tables[i := tables[i].(rows := Cleared(tables[i].rows, FindFrom(tables[i], 0, name, 0)))]
  }

  ghost function Step(tables: seq<Table>, op: Op): (r: seq<Table>)
    requires Schema(tables)
  {
    if Code(tables, op) != 0 then tables else
      match op
      case AddUser(user, pass, group, prot, disabled) =>
        WithStored(tables, 0, UserCells(user, Encrypted(pass, MASK), group, prot, disabled))
      case DeleteUser(user) => WithCleared(tables, 0, user)
      case AddGroup(group, priv, am, prot, disabled) =>
        WithStored(tables, 1, GroupCells(group, priv, am, prot, disabled))
      case DeleteGroup(group) => WithCleared(tables, 1, group)
  }

  // ----- Every step keeps the invariant -----

  lemma UserCellsOk(user: string, stored: string, group: string, prot: int, disabled: int)
    requires IsInt(prot) && IsInt(disabled)
    ensures RowOk(USER_COLUMNS, UserCells(user, stored, group, prot, disabled))
  {
    var row := UserCells(user, stored, group, prot, disabled);
    assert CellOkAt(USER_COLUMNS, row, 0) && CellOkAt(USER_COLUMNS, row, 1) && CellOkAt(USER_COLUMNS, row, 2)
        && CellOkAt(USER_COLUMNS, row, 3) && CellOkAt(USER_COLUMNS, row, 4);
  }

  lemma GroupCellsOk(group: string, priv: int, am: int, prot: int, disabled: int)
    requires IsInt(priv) && IsInt(am) && IsInt(prot) && IsInt(disabled)
    ensures RowOk(GROUP_COLUMNS, GroupCells(group, priv, am, prot, disabled))
  {
    var row := GroupCells(group, priv, am, prot, disabled);
    assert CellOkAt(GROUP_COLUMNS, row, 0) && CellOkAt(GROUP_COLUMNS, row, 1) && CellOkAt(GROUP_COLUMNS, row, 2)
        && CellOkAt(GROUP_COLUMNS, row, 3) && CellOkAt(GROUP_COLUMNS, row, 4);
  }

  lemma EncryptedNameOk(pass: string)
    requires NameOk(pass) && Bytes(pass)
    ensures NameOk(Encrypted(pass, MASK)) && Bytes(Encrypted(pass, MASK))
  {
    EncryptedIsClean(pass, MASK);
  }

  lemma AddUserKeeps(tables: seq<Table>, op: Op)
    requires Inv(tables) && op.AddUser? && OpOk(op) && Code(tables, op) == 0
    ensures Inv(Step(tables, op))
  {
    var row := UserCells(op.user, Encrypted(op.pass, MASK), op.group, op.prot, op.disabled);
    var t, tables' := tables[0], Step(tables, op);
    TableIds(tables);
    UserCellsOk(op.user, Encrypted(op.pass, MASK), op.group, op.prot, op.disabled);
    EncryptedNameOk(op.pass);
    StoredRowOk(t, row);
    SchemaKept(tables, 0, tables'[0]);
    StoredUnique(t, row, op.user);
    forall i | 0 <= i < |tables'[0].rows|
      ensures UserAt(tables', i)
    {
      assert i < |t.rows| ==> UserAt(tables, i);
    }
  }

  lemma AddGroupKeeps(tables: seq<Table>, op: Op)
    requires Inv(tables) && op.AddGroup? && OpOk(op) && Code(tables, op) == 0
    ensures Inv(Step(tables, op))
  {
    var row := GroupCells(op.group, op.priv, op.am, op.prot, op.disabled);
    var t, tables' := tables[1], Step(tables, op);
    TableIds(tables);
    GroupCellsOk(op.group, op.priv, op.am, op.prot, op.disabled);
    StoredRowOk(t, row);
    SchemaKept(tables, 1, tables'[1]);
    StoredUnique(t, row, op.group);
    forall i | 0 <= i < |tables'[0].rows|
      ensures UserAt(tables', i)
    {
      assert UserAt(tables, i);
    }
    forall i | 0 <= i < |tables'[1].rows|
      ensures GroupAt(tables'[1], i)
    {
      assert i < |t.rows| ==> GroupAt(t, i);
    }
  }

  lemma DeleteUserKeeps(tables: seq<Table>, op: Op)
    requires Inv(tables) && op.DeleteUser? && Code(tables, op) == 0
    ensures Inv(Step(tables, op))
  {
    var t, tables' := tables[0], Step(tables, op);
    TableIds(tables);
    FindKey(t, op.user);
    var row := FindFrom(t, 0, op.user, 0);
    ClearedOk(t, row);
    SchemaKept(tables, 0, tables'[0]);
    ClearedUnique(t, row, op.user);
    forall i | 0 <= i < |tables'[0].rows|
      ensures UserAt(tables', i)
    {
      assert UserAt(tables, i);
    }
  }

  /** A group that no user has can go: what users refer to stays. */
  lemma DeleteGroupKeeps(tables: seq<Table>, op: Op)
    requires Inv(tables) && op.DeleteGroup? && Code(tables, op) == 0
    ensures Inv(Step(tables, op))
  {
    var t, tables' := tables[1], Step(tables, op);
    TableIds(tables);
    FindKey(t, op.group);
    var row := FindFrom(t, 0, op.group, 0);
    ClearedOk(t, row);
    SchemaKept(tables, 1, tables'[1]);
    ClearedUnique(t, row, op.group);
    forall i | 0 <= i < |tables'[0].rows|
      ensures UserAt(tables', i)
    {
      assert UserAt(tables, i);
      assert !HasText(tables[0], i, 2, op.group);
    }
    forall i | 0 <= i < |tables'[1].rows|
      ensures GroupAt(tables'[1], i)
    {
      assert GroupAt(t, i);
    }
  }

  lemma StepKeeps(tables: seq<Table>, op: Op)
    requires Inv(tables) && OpOk(op)
    ensures Inv(Step(tables, op))
  {
    if Code(tables, op) == 0 {
      match op
      case AddUser(_, _, _, _, _) => AddUserKeeps(tables, op);
      case AddGroup(_, _, _, _, _) => AddGroupKeeps(tables, op);
      case DeleteUser(_) => DeleteUserKeeps(tables, op);
      case DeleteGroup(_) => DeleteGroupKeeps(tables, op);
    }
  }

  // ----- Rows that stay -----

  /** The same row is still in the same slot. */
  ghost predicate Stays(t: Table, t': Table, i: nat)
    requires i < |t.rows|
  {
    t.rows[i].Some? && i < |t'.rows| && t'.rows[i] == t.rows[i]
  }

  lemma ClearedStays(t: Table, row: nat, i: nat)
    requires row < |t.rows| && i < |t.rows| && t.rows[i].Some? && i != row
    ensures Stays(t, t.(rows := Cleared(t.rows, row)), i)
  {
    assert t.rows[row := None][i].Some?;
  }

  /** The operation that removes the row in slot i of table k. */
  ghost predicate Removes(tables: seq<Table>, op: Op, k: nat, i: nat)
    requires Schema(tables) && k < 2 && i < |tables[k].rows|
  {
    && Code(tables, op) == 0
    && (if k == 0 then op.DeleteUser? && KeyAt(tables[0], i) == Some(op.user)
        else op.DeleteGroup? && KeyAt(tables[1], i) == Some(op.group))
  }

  /** A live user or group leaves its slot only when it is deleted by name, which no protected one is. */
  lemma StepStays(tables: seq<Table>, op: Op, k: nat, i: nat)
    requires Inv(tables) && OpOk(op) && k < 2 && i < |tables[k].rows| && tables[k].rows[i].Some?
    ensures !Removes(tables, op, k, i) ==> Stays(tables[k], Step(tables, op)[k], i)
    ensures |tables[k].rows[i].value| == 5 && tables[k].rows[i].value[3] != Word(0) ==> !Removes(tables, op, k, i)
  {
    TableIds(tables);
    if Code(tables, op) == 0 && !Removes(tables, op, k, i) {
      if op.DeleteUser? && k == 0 {
        FindKey(tables[0], op.user);
        ClearedStays(tables[0], FindFrom(tables[0], 0, op.user, 0), i);
      } else if op.DeleteGroup? && k == 1 {
        FindKey(tables[1], op.group);
        ClearedStays(tables[1], FindFrom(tables[1], 0, op.group, 0), i);
      }
    }
  }

  // ----- Runs -----

  ghost function Run(tables: seq<Table>, ops: seq<Op>): (r: seq<Table>)
    requires Inv(tables) && OpsOk(ops)
    ensures Inv(r)
    decreases |ops|
  {
    if ops == [] then tables else
      StepKeeps(tables, ops[0]);
      Run(Step(tables, ops[0]), ops[1..])
  }

  /** The tables umOpen registers, without rows: they are valid, and so is what every run makes of them. */
  function NewTables(): (r: seq<Table>)
    ensures Inv(r)
  {
    var r := [Table(USERS, USER_COLUMNS, []), Table(GROUPS, GROUP_COLUMNS, []), Table(ACCESS, ACCESS_COLUMNS, [])];
    assert TableOkAt(r, 0) && TableOkAt(r, 1) && TableOkAt(r, 2);
    r
  }

  ghost predicate OpsOk(ops: seq<Op>)
  {
    forall i :: 0 <= i < |ops| ==> OpOk(ops[i])
  }

  lemma {:induction false} RunSplit(tables: seq<Table>, before: seq<Op>, after: seq<Op>)
    requires Inv(tables) && OpsOk(before) && OpsOk(after)
    ensures Run(tables, before + after) == Run(Run(tables, before), after)
    decreases |before|
  {
    if before == [] {
      assert before + after == after;
    } else {
      StepKeeps(tables, before[0]);
      assert (before + after)[1..] == before[1..] + after;
      RunSplit(Step(tables, before[0]), before[1..], after);
    }
  }

  /** Once a protected user or group has been added, no further run from the new tables removes it. */
  lemma ProtectedForGood(before: seq<Op>, after: seq<Op>, k: nat, i: nat)
    requires OpsOk(before) && OpsOk(after) && k < 2
    requires var t := Run(NewTables(), before)[k];
             i < |t.rows| && t.rows[i].Some? && |t.rows[i].value| == 5 && t.rows[i].value[3] != Word(0)
    ensures Stays(Run(NewTables(), before)[k], Run(NewTables(), before + after)[k], i)
  {
    RunSplit(NewTables(), before, after);
    ProtectedStays(Run(NewTables(), before), after, k, i);
  }

  /** In every run a protected user or group stays where it is. */
  lemma {:induction false} ProtectedStays(tables: seq<Table>, ops: seq<Op>, k: nat, i: nat)
    requires Inv(tables) && OpsOk(ops)
    requires k < 2 && i < |tables[k].rows| && tables[k].rows[i].Some?
    requires |tables[k].rows[i].value| == 5 && tables[k].rows[i].value[3] != Word(0)
    ensures Stays(tables[k], Run(tables, ops)[k], i)
    decreases |ops|
  {
    if ops != [] {
      StepStays(tables, ops[0], k, i);
      StepKeeps(tables, ops[0]);
      ProtectedStays(Step(tables, ops[0]), ops[1..], k, i);
    }
  }

  // ----- Writing a row cell by cell -----

  /** The tables with these cells in a row of table tid. */
  ghost function WithCells(tables: seq<Table>, tid: nat, row: nat, cells: Row): (r: seq<Table>)
    requires tid < |tables| && row < |tables[tid].rows|
  {
    tables[tid := tables[tid].(rows := tables[tid].rows[row := Some(cells)])]
  }

  lemma ColumnIds()
    ensures ColumnIndex(USER_COLUMNS, "name") == 0 && ColumnIndex(USER_COLUMNS, "password") == 1
    ensures ColumnIndex(USER_COLUMNS, "group") == 2 && ColumnIndex(USER_COLUMNS, "prot") == 3
    ensures ColumnIndex(USER_COLUMNS, "disable") == 4
  {
    ColumnIs(USER_COLUMNS, 0); ColumnIs(USER_COLUMNS, 1); ColumnIs(USER_COLUMNS, 2);
    ColumnIs(USER_COLUMNS, 3); ColumnIs(USER_COLUMNS, 4);
  }

  lemma GroupColumnIds()
    ensures ColumnIndex(GROUP_COLUMNS, "name") == 0 && ColumnIndex(GROUP_COLUMNS, "priv") == 1
    ensures ColumnIndex(GROUP_COLUMNS, "method") == 2 && ColumnIndex(GROUP_COLUMNS, "prot") == 3
    ensures ColumnIndex(GROUP_COLUMNS, "disable") == 4
  {
    ColumnIs(GROUP_COLUMNS, 0); ColumnIs(GROUP_COLUMNS, 1); ColumnIs(GROUP_COLUMNS, 2);
    ColumnIs(GROUP_COLUMNS, 3); ColumnIs(GROUP_COLUMNS, 4);
  }

  lemma AccessColumnIds()
    ensures ColumnIndex(ACCESS_COLUMNS, "name") == 0 && ColumnIndex(ACCESS_COLUMNS, "group") == 3
  {
    ColumnIs(ACCESS_COLUMNS, 0); ColumnIs(ACCESS_COLUMNS, 3);
  }

  /** Column names that differ from all before them are found at their place. */
  lemma ColumnIs(columns: seq<Column>, c: nat)
    requires c < |columns| && forall i :: 0 <= i < c ==> columns[i].name != columns[c].name
    ensures ColumnIndex(columns, columns[c].name) == c
  {
  }

  /** A row of table tid that is being filled. */
  ghost predicate Filling(tables: seq<Table>, base: seq<Table>, tid: nat, row: nat, cells: Row)
  {
    && tid < |base| && row < |base[tid].rows| && tables == WithCells(base, tid, row, cells)
    && TablesOk(tables) && TableId(tables, base[tid].name) == tid && RowOk(base[tid].columns, cells)
  }

  /** Writing one cell of the row: the write succeeds and fills that cell. */
  lemma FillCell(tables: seq<Table>, base: seq<Table>, tid: nat, row: nat, cells: Row, c: nat, cell: Cell)
    requires Filling(tables, base, tid, row, cells)
    requires c < |base[tid].columns| && ColumnIndex(base[tid].columns, base[tid].columns[c].name) == c
    requires CellOk(base[tid].columns[c], cell)
    ensures var t := base[tid];
            && WriteIntCode(tables, t.name, t.columns[c].name, row) == 0
            && (t.columns[c].isString ==> WriteStrCode(tables, t.name, t.columns[c].name, row) == 0)
            && WrittenIn(tables, t.name, t.columns[c].name, row, cell) == WithCells(base, tid, row, cells[c := cell])
            && Filling(WithCells(base, tid, row, cells[c := cell]), base, tid, row, cells[c := cell])
  {
    var t := tables[tid];
    assert TableOkAt(tables, tid);
    WrittenOk(t, row, c, cell);
    var t' := Written(t, row, c, cell);
    TablesKept(tables, tid, t');
    TableIdKept(tables, tid, t', t.name);
    LiveRow(t', row);
    assert t'.rows == base[tid].rows[row := Some(cells[c := cell])];
    assert tables[tid := t'] == WithCells(base, tid, row, cells[c := cell]);
  }

  /** Adding a zeroed row and filling it stores the row. */
  lemma FilledIsStored(tables: seq<Table>, tid: nat, cells: Row)
    requires tid < |tables|
    ensures var base := tables[tid := Added(tables[tid])];
            && FirstFree(tables[tid].rows) < |base[tid].rows|
            && WithCells(base, tid, FirstFree(tables[tid].rows), cells) == WithStored(tables, tid, cells)
  {
    var t := tables[tid];
    assert Added(t).rows[FirstFree(t.rows) := Some(cells)] == Stored(t.rows, cells);
  }

  /** The state after dbAddRow is a zeroed row to fill. */
  lemma FillStart(tables: seq<Table>, tid: nat)
    requires TablesOk(tables) && tid < |tables| && TableId(tables, tables[tid].name) == tid
    ensures var base := tables[tid := Added(tables[tid])];
            Filling(base, base, tid, FirstFree(tables[tid].rows), ZeroRow(|tables[tid].columns|))
  {
    var t := tables[tid];
    assert TableOkAt(tables, tid);
    AddedOk(t);
    ZeroRowOk(t.columns);
    TablesKept(tables, tid, Added(t));
    TableIdKept(tables, tid, Added(t), t.name);
    var base, h := tables[tid := Added(t)], FirstFree(t.rows);
    assert base[tid].rows[h := Some(ZeroRow(|t.columns|))] == base[tid].rows;
    assert WithCells(base, tid, h, ZeroRow(|t.columns|)) == base;
  }

  // ----- The user manager -----

  class UserManager {
    const db: Database

    constructor (database: Database)
      ensures db == database
    {
      db := database;
    }

    /** TRUE if the name is not empty and has no white space. */
    static method CheckName(name: string) returns (ok: bool)
      ensures ok <==> NameOk(name)
    {
      if name == "" {
        return false;
      }
      var i := 0;
      while i < |name|
        invariant 0 <= i <= |name| && forall k :: 0 <= k < i ==> !IsSpace(name[k])
      {
        if IsSpace(name[i]) {
          return false;
        }
        i := i + 1;
      }
      ok := true;
    }

    method UserExists(user: string) returns (r: bool)
      requires Schema(db.tables)
      ensures r <==> Named(db.tables[0], user)
    {
      TableIds(db.tables);
      ColumnIds();
      FindKey(db.tables[0], user);
      StringsComparable(db.tables, USERS, "name", user, 0);
      var row := db.SearchStr(USERS, "name", user, 0);
      r := row >= 0;
    }

    method GroupExists(group: string) returns (r: bool)
      requires Schema(db.tables)
      ensures r <==> Named(db.tables[1], group)
    {
      TableIds(db.tables);
      GroupColumnIds();
      FindKey(db.tables[1], group);
      StringsComparable(db.tables, GROUPS, "name", group, 0);
      var row := db.SearchStr(GROUPS, "name", group, 0);
      r := row >= 0;
    }

    /** TRUE if a user or an access limit refers to the group. */
    method GetGroupInUse(group: string) returns (r: bool)
      requires Schema(db.tables)
      ensures r <==> InUse(db.tables, group)
    {
      TableIds(db.tables);
      ColumnIds();
      AccessColumnIds();
      StringsComparable(db.tables, USERS, "group", group, 0);
      var row := db.SearchStr(USERS, "group", group, 0);
      if row >= 0 {
        return true;
      }
      StringsComparable(db.tables, ACCESS, "group", group, 0);
      row := db.SearchStr(ACCESS, "group", group, 0);
      r := row >= 0;
    }

    method GetUserProtected(user: string) returns (r: bool)
      requires Inv(db.tables)
      ensures r <==> Protected(db.tables[0], user)
    {
      TableIds(db.tables);
      ColumnIds();
      FindKey(db.tables[0], user);
      var protect := 0;
      StringsComparable(db.tables, USERS, "name", user, 0);
      var row := db.SearchStr(USERS, "name", user, 0);
      if row >= 0 {
        assert UserAt(db.tables, row);
        var rc, cell := db.Read(USERS, "prot", row);
        protect := cell.n;
      }
      r := protect != 0;
    }

    method GetGroupProtected(group: string) returns (r: bool)
      requires Inv(db.tables)
      ensures r <==> Protected(db.tables[1], group)
    {
      TableIds(db.tables);
      GroupColumnIds();
      FindKey(db.tables[1], group);
      var protect := 0;
      StringsComparable(db.tables, GROUPS, "name", group, 0);
      var row := db.SearchStr(GROUPS, "name", group, 0);
      if row >= 0 {
        assert GroupAt(db.tables[1], row);
        var rc, cell := db.Read(GROUPS, "prot", row);
        protect := cell.n;
      }
      r := protect != 0;
    }

    /** A copy of the password, encrypted. */
    static method EncryptCopy(pass: string) returns (r: string)
      requires Bytes(pass)
      ensures r == Encrypted(pass, MASK)
    {
      var text := new char[|pass| + 1](i requires 0 <= i <= |pass| => if i < |pass| then pass[i] else '\0');
      assert text[..|pass|] == pass;
      var _ := EncryptString(text, MASK, pass);
      r := text[..|pass|];
    }

    method PutStr(table: string, column: string, row: nat, s: string,
                  ghost base: seq<Table>, ghost tid: nat, ghost cells: Row, ghost c: nat)
      requires Filling(db.tables, base, tid, row, cells) && base[tid].name == table
      requires c < |base[tid].columns| && base[tid].columns[c] == Column(column, true)
      requires ColumnIndex(base[tid].columns, column) == c
      modifies db
      ensures Filling(db.tables, base, tid, row, cells[c := Text(s)])
    {
      FillCell(db.tables, base, tid, row, cells, c, Text(s));
      var rc := db.WriteStr(table, column, row, s);
    }

    method PutInt(table: string, column: string, row: nat, n: int,
                  ghost base: seq<Table>, ghost tid: nat, ghost cells: Row, ghost c: nat)
      requires Filling(db.tables, base, tid, row, cells) && base[tid].name == table && IsInt(n)
      requires c < |base[tid].columns| && base[tid].columns[c] == Column(column, false)
      requires ColumnIndex(base[tid].columns, column) == c
      modifies db
      ensures Filling(db.tables, base, tid, row, cells[c := Word(n)])
    {
      FillCell(db.tables, base, tid, row, cells, c, Word(n));
      var rc := db.WriteInt(table, column, row, n);
    }

    /** Fill the texts of a new user's row. */
    method FillTexts(row: nat, user: string, password: string, group: string, ghost base: seq<Table>)
      requires |base| > 0 && base[0].name == USERS && base[0].columns == USER_COLUMNS
      requires Filling(db.tables, base, 0, row, ZeroRow(5))
      modifies db
      ensures Filling(db.tables, base, 0, row, [Text(user), Text(password), Text(group), NULL, NULL])
    {
      ColumnIds();
      ghost var cells := ZeroRow(5);
      PutStr(USERS, "name", row, user, base, 0, cells, 0);
      PutStr(USERS, "password", row, password, base, 0, cells[0 := Text(user)], 1);
      cells := cells[0 := Text(user)][1 := Text(password)];
      PutStr(USERS, "group", row, group, base, 0, cells, 2);
      assert cells[2 := Text(group)] == [Text(user), Text(password), Text(group), NULL, NULL];
    }

    /** Fill the numbers of a new user's row. */
    method FillFlags(row: nat, prot: int, disabled: int, ghost base: seq<Table>, ghost cells: Row)
      requires |base| > 0 && base[0].name == USERS && base[0].columns == USER_COLUMNS && IsInt(prot) && IsInt(disabled)
      requires |cells| == 5 && Filling(db.tables, base, 0, row, cells)
      modifies db
      ensures Filling(db.tables, base, 0, row, cells[3 := Word(prot)][4 := Word(disabled)])
    {
      ColumnIds();
      PutInt(USERS, "prot", row, prot, base, 0, cells, 3);
      PutInt(USERS, "disable", row, disabled, base, 0, cells[3 := Word(prot)], 4);
    }

    /** Create the record of a new user. */
    method StoreUser(user: string, pass: string, group: string, prot: int, disabled: int)
      requires Schema(db.tables) && Bytes(pass) && IsInt(prot) && IsInt(disabled)
      modifies db
      ensures db.tables == WithStored(old(db.tables), 0, UserCells(user, Encrypted(pass, MASK), group, prot, disabled))
    {
      TableIds(db.tables);
      FillStart(db.tables, 0);
      FilledIsStored(db.tables, 0, UserCells(user, Encrypted(pass, MASK), group, prot, disabled));
      ghost var base := db.tables[0 := Added(db.tables[0])];
      var password := EncryptCopy(pass);
      var row := db.AddRow(USERS);
      FillTexts(row, user, password, group, base);
      ghost var cells := [Text(user), Text(password), Text(group), NULL, NULL];
      FillFlags(row, prot, disabled, base, cells);
      assert cells[3 := Word(prot)][4 := Word(disabled)] == UserCells(user, password, group, prot, disabled);
    }

    /** Fill the name and the rights of a new group's row. */
    method FillGroup(row: nat, group: string, priv: int, am: int, ghost base: seq<Table>)
      requires |base| > 1 && base[1].name == GROUPS && base[1].columns == GROUP_COLUMNS && IsInt(priv) && IsInt(am)
      requires Filling(db.tables, base, 1, row, ZeroRow(5))
      modifies db
      ensures Filling(db.tables, base, 1, row, [Text(group), Word(priv), Word(am), NULL, NULL])
    {
      GroupColumnIds();
      ghost var cells := ZeroRow(5);
      PutStr(GROUPS, "name", row, group, base, 1, cells, 0);
      PutInt(GROUPS, "priv", row, priv, base, 1, cells[0 := Text(group)], 1);
      cells := cells[0 := Text(group)][1 := Word(priv)];
      PutInt(GROUPS, "method", row, am, base, 1, cells, 2);
      assert cells[2 := Word(am)] == [Text(group), Word(priv), Word(am), NULL, NULL];
    }

    method FillGroupFlags(row: nat, prot: int, disabled: int, ghost base: seq<Table>, ghost cells: Row)
      requires |base| > 1 && base[1].name == GROUPS && base[1].columns == GROUP_COLUMNS && IsInt(prot) && IsInt(disabled)
      requires |cells| == 5 && Filling(db.tables, base, 1, row, cells)
      modifies db
      ensures Filling(db.tables, base, 1, row, cells[3 := Word(prot)][4 := Word(disabled)])
    {
      GroupColumnIds();
      PutInt(GROUPS, "prot", row, prot, base, 1, cells, 3);
      PutInt(GROUPS, "disable", row, disabled, base, 1, cells[3 := Word(prot)], 4);
    }

    method StoreGroup(group: string, priv: int, am: int, prot: int, disabled: int)
      requires Schema(db.tables) && IsInt(priv) && IsInt(am) && IsInt(prot) && IsInt(disabled)
      modifies db
      ensures db.tables == WithStored(old(db.tables), 1, GroupCells(group, priv, am, prot, disabled))
    {
      TableIds(db.tables);
      FillStart(db.tables, 1);
      FilledIsStored(db.tables, 1, GroupCells(group, priv, am, prot, disabled));
      ghost var base := db.tables[1 := Added(db.tables[1])];
      var row := db.AddRow(GROUPS);
      FillGroup(row, group, priv, am, base);
      ghost var cells := [Text(group), Word(priv), Word(am), NULL, NULL];
      FillGroupFlags(row, prot, disabled, base, cells);
      assert cells[3 := Word(prot)][4 := Word(disabled)] == GroupCells(group, priv, am, prot, disabled);
    }

    method AddUser(user: string, pass: string, group: string, prot: int, disabled: int) returns (rc: int)
      requires Inv(db.tables) && OpOk(Op.AddUser(user, pass, group, prot, disabled))
      modifies db
      ensures Inv(db.tables) && rc == Code(old(db.tables), Op.AddUser(user, pass, group, prot, disabled))
      ensures db.tables == Step(old(db.tables), Op.AddUser(user, pass, group, prot, disabled))
    {
      StepKeeps(db.tables, Op.AddUser(user, pass, group, prot, disabled));
      var exists' := UserExists(user);
      if exists' {
        return UM_ERR_DUPLICATE;
      }
      var ok := CheckName(user);
      if !ok {
        return UM_ERR_BAD_NAME;
      }
      ok := CheckName(pass);
      if !ok {
        return UM_ERR_BAD_PASSWORD;
      }
      ok := GroupExists(group);
      if !ok {
        return UM_ERR_NOT_FOUND;
      }
      StoreUser(user, pass, group, prot, disabled);
      rc := 0;
    }

    method AddGroup(group: string, priv: int, am: int, prot: int, disabled: int) returns (rc: int)
      requires Inv(db.tables) && OpOk(Op.AddGroup(group, priv, am, prot, disabled))
      modifies db
      ensures Inv(db.tables) && rc == Code(old(db.tables), Op.AddGroup(group, priv, am, prot, disabled))
      ensures db.tables == Step(old(db.tables), Op.AddGroup(group, priv, am, prot, disabled))
    {
      StepKeeps(db.tables, Op.AddGroup(group, priv, am, prot, disabled));
      var exists' := GroupExists(group);
      if exists' {
        return UM_ERR_DUPLICATE;
      }
      var ok := CheckName(group);
      if !ok {
        return UM_ERR_BAD_NAME;
      }
      StoreGroup(group, priv, am, prot, disabled);
      rc := 0;
    }

    method DeleteUser(user: string) returns (rc: int)
      requires Inv(db.tables)
      modifies db
      ensures Inv(db.tables) && rc == Code(old(db.tables), Op.DeleteUser(user))
      ensures db.tables == Step(old(db.tables), Op.DeleteUser(user))
    {
      StepKeeps(db.tables, Op.DeleteUser(user));
      var protect := GetUserProtected(user);
      if protect {
        return UM_ERR_PROTECTED;
      }
      TableIds(db.tables);
      ColumnIds();
      FindKey(db.tables[0], user);
      StringsComparable(db.tables, USERS, "name", user, 0);
      var row := db.SearchStr(USERS, "name", user, 0);
      if row >= 0 {
        rc := db.DeleteRow(USERS, row);
        return;
      }
      rc := UM_ERR_NOT_FOUND;
    }

    method DeleteGroup(group: string) returns (rc: int)
      requires Inv(db.tables)
      modifies db
      ensures Inv(db.tables) && rc == Code(old(db.tables), Op.DeleteGroup(group))
      ensures db.tables == Step(old(db.tables), Op.DeleteGroup(group))
    {
      StepKeeps(db.tables, Op.DeleteGroup(group));
      var inUse := GetGroupInUse(group);
      if inUse {
        return UM_ERR_IN_USE;
      }
      var protect := GetGroupProtected(group);
      if protect {
        return UM_ERR_PROTECTED;
      }
      TableIds(db.tables);
      GroupColumnIds();
      FindKey(db.tables[1], group);
      StringsComparable(db.tables, GROUPS, "name", group, 0);
      var row := db.SearchStr(GROUPS, "name", group, 0);
      if row < 0 {
        return UM_ERR_NOT_FOUND;
      }
      rc := db.DeleteRow(GROUPS, row);
    }

    /** One operation, whatever its answer. */
    method Perform(op: Op) returns (rc: int)
      requires Inv(db.tables) && OpOk(op)
      modifies db
      ensures Inv(db.tables) && rc == Code(old(db.tables), op) && db.tables == Step(old(db.tables), op)
    {
      match op
      case AddUser(user, pass, group, prot, disabled) => rc := AddUser(user, pass, group, prot, disabled);
      case AddGroup(group, priv, am, prot, disabled) => rc := AddGroup(group, priv, am, prot, disabled);
      case DeleteUser(user) => rc := DeleteUser(user);
      case DeleteGroup(group) => rc := DeleteGroup(group);
    }
  }

  /** umOpen: register the three tables in a new database. */
  method Open() returns (um: UserManager)
    ensures fresh(um) && fresh(um.db) && um.db.tables == NewTables() && Inv(um.db.tables)
  {
    var db := new Database();
    db.RegisterDBSchema(USERS, USER_COLUMNS);
    db.RegisterDBSchema(GROUPS, GROUP_COLUMNS);
    db.RegisterDBSchema(ACCESS, ACCESS_COLUMNS);
    assert db.tables == NewTables();
    um := new UserManager(db);
  }

  /** After opening, any operations in any order leave valid tables: those of the run. */
  method OpenAndRun(ops: seq<Op>) returns (tables: seq<Table>)
    requires OpsOk(ops)
    ensures Inv(tables) && tables == Run(NewTables(), ops)
  {
    var um := Open();
    var i := 0;
    assert ops[..0] == [];
    while i < |ops|
      invariant 0 <= i <= |ops| && Inv(um.db.tables) && um.db.tables == Run(NewTables(), ops[..i])
    {
      RunSplit(NewTables(), ops[..i], [ops[i]]);
      assert ops[..i] + [ops[i]] == ops[..i + 1];
      assert [ops[i]][1..] == [];
      var rc := um.Perform(ops[i]);
      i := i + 1;
    }
    assert ops[..|ops|] == ops;
    tables := um.db.tables;
  }
}
