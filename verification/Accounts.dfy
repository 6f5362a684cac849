/** What user management promises over its tables: passwords come back, also after a save and a reload. */
module Accounts {
  import opened Basics
  import opened Handles
  import opened Numbers
  import Tokens
  import opened Database
  import opened DatabaseFile
  import opened Encryption
  import opened Users

  // ----- Passwords -----

  /** The decrypted password of a user. */
  ghost function Password(tables: seq<Table>, user: string): (r: Option<string>)
    requires Inv(tables)
  {
    if !Named(tables[0], user) then None else
      TableIds(tables);
      FindKey(tables[0], user);
      var row := FindFrom(tables[0], 0, user, 0);
      assert UserAt(tables, row);
      Some(Encrypted(tables[0].rows[row].value[1].s, MASK))
  }

  lemma PasswordAt(tables: seq<Table>, user: string, i: nat)
    requires Inv(tables) && i < |tables[0].rows| && KeyAt(tables[0], i) == Some(user)
    ensures UserAt(tables, i) && Password(tables, user) == Some(Encrypted(tables[0].rows[i].value[1].s, MASK))
  {
    TableIds(tables);
    FindOnly(tables[0], user, i);
    assert UserAt(tables, i);
  }

  /** The password of a new user is the one umAddUser accepted. */
  lemma PasswordAdded(tables: seq<Table>, op: Op)
    requires Inv(tables) && OpOk(op) && op.AddUser? && Code(tables, op) == 0
    ensures Inv(Step(tables, op)) && Password(Step(tables, op), op.user) == Some(op.pass)
  {
    StepKeeps(tables, op);
    var h := FirstFree(tables[0].rows);
    PasswordAt(Step(tables, op), op.user, h);
    MaskIsBytes();
    EncryptedTwice(op.pass, MASK);
  }

  /** It stays the same until the user is deleted. */
  lemma PasswordKept(tables: seq<Table>, op: Op, user: string)
    requires Inv(tables) && OpOk(op) && Named(tables[0], user) && op != Op.DeleteUser(user)
    ensures Inv(Step(tables, op)) && Named(Step(tables, op)[0], user)
    ensures Password(Step(tables, op), user) == Password(tables, user)
  {
    StepKeeps(tables, op);
    var i :| 0 <= i < |tables[0].rows| && KeyAt(tables[0], i) == Some(user);
    PasswordAt(tables, user, i);
    StepStays(tables, op, 0, i);
    assert KeyAt(Step(tables, op)[0], i) == Some(user);
    PasswordAt(Step(tables, op), user, i);
  }

  /** So in every run that does not delete the user. */
  lemma {:induction false} PasswordInRun(tables: seq<Table>, ops: seq<Op>, user: string)
    requires Inv(tables) && Named(tables[0], user)
    requires forall j :: 0 <= j < |ops| ==> OpOk(ops[j]) && ops[j] != Op.DeleteUser(user)
    ensures Password(Run(tables, ops), user) == Password(tables, user)
    decreases |ops|
  {
    if ops != [] {
      PasswordKept(tables, ops[0], user);
      PasswordInRun(Step(tables, ops[0]), ops[1..], user);
    }
  }

  method GetUserPassword(um: UserManager, user: string) returns (r: Option<string>)
    requires Inv(um.db.tables)
    ensures r == Password(um.db.tables, user)
  {
    TableIds(um.db.tables);
    ColumnIds();
    FindKey(um.db.tables[0], user);
    StringsComparable(um.db.tables, USERS, "name", user, 0);
    var row := um.db.SearchStr(USERS, "name", user, 0);
    if row < 0 {
      return None;
    }
    assert UserAt(um.db.tables, row);
    var rc, cell := um.db.Read(USERS, "password", row);
    var password := UserManager.EncryptCopy(cell.s);
    r := Some(password);
  }

  // ----- Across a save and a reload -----

  lemma {:induction false} CompactOrigin(rows: seq<Option<Row>>, j: nat) returns (i: nat)
    requires j < |Compact(rows)|
    ensures i < |rows| && rows[i] == Compact(rows)[j] && |Compact(rows[..i])| == j
    decreases |rows|
  {
    var init := rows[..|rows| - 1];
    if j < |Compact(init)| {
      i := CompactOrigin(init, j);
      assert init[..i] == rows[..i];
    } else {
      i := |rows| - 1;
    }
  }

  lemma {:induction false} CompactImage(rows: seq<Option<Row>>, i: nat)
    requires i < |rows| && rows[i].Some? && Keyed(rows[i].value)
    ensures |Compact(rows[..i])| < |Compact(rows)| && Compact(rows)[|Compact(rows[..i])|] == rows[i]
    decreases |rows|
  {
    var init := rows[..|rows| - 1];
    if i < |rows| - 1 {
      CompactImage(init, i);
      assert init[..i] == rows[..i];
    }
  }

  /** Compacting keeps names unique. */
  lemma CompactUnique(t: Table)
    requires Unique(t)
    ensures Unique(Compacted(t))
  {
    var t' := Compacted(t);
    forall j, k | 0 <= j < k < |t'.rows| && KeyAt(t', j).Some?
      ensures KeyAt(t', j) != KeyAt(t', k)
    {
      var p := CompactOrigin(t.rows, j);
      var q := CompactOrigin(t.rows, k);
      assert KeyAt(t, p) == KeyAt(t', j) && KeyAt(t, q) == KeyAt(t', k);
    }
  }

  /** Compacting keeps every non-empty name, with its row. */
  lemma CompactKeeps(t: Table, i: nat) returns (j: nat)
    requires i < |t.rows| && KeyAt(t, i).Some? && KeyAt(t, i).value != ""
    ensures j < |Compacted(t).rows| && Compacted(t).rows[j] == t.rows[i] && KeyAt(Compacted(t), j) == KeyAt(t, i)
  {
    CompactImage(t.rows, i);
    j := |Compact(t.rows[..i])|;
  }

  lemma CompactNames(t: Table, name: string)
    ensures Named(Compacted(t), name) ==> Named(t, name)
  {
    var t' := Compacted(t);
    if j :| 0 <= j < |t'.rows| && KeyAt(t', j) == Some(name) {
      var i := CompactOrigin(t.rows, j);
      assert KeyAt(t, i) == KeyAt(t', j);
    }
  }

  lemma CompactOk(t: Table)
    requires TableOk(t)
    ensures TableOk(Compacted(t))
  {
    var t' := Compacted(t);
    forall j | 0 <= j < |t'.rows|
      ensures SlotOk(t', j)
    {
      var i := CompactOrigin(t.rows, j);
      assert SlotOk(t, i);
    }
  }

  lemma RestoredTables(tables: seq<Table>)
    requires Schema(tables)
    ensures Schema(Restored(tables, 3))
    ensures forall k :: 0 <= k < 3 ==> Restored(tables, 3)[k] == Compacted(tables[k])
  {
    TableIds(tables);
    CompactOk(tables[0]);
    CompactOk(tables[1]);
    CompactOk(tables[2]);
    var r := Restored(tables, 3);
    assert TableOkAt(r, 0) && TableOkAt(r, 1) && TableOkAt(r, 2);
  }

  /** A restored database is valid again. */
  lemma RestoredInv(tables: seq<Table>)
    requires Inv(tables)
    ensures Inv(Restored(tables, 3))
  {
    RestoredTables(tables);
    var r := Restored(tables, 3);
    CompactUnique(tables[0]);
    CompactUnique(tables[1]);
    forall j | 0 <= j < |r[0].rows|
      ensures UserAt(r, j)
    {
      var i := CompactOrigin(tables[0].rows, j);
      assert UserAt(tables, i);
      var group := tables[0].rows[i].value[2].s;
      var g :| 0 <= g < |tables[1].rows| && KeyAt(tables[1], g) == Some(group);
      assert GroupAt(tables[1], g);
      var _ := CompactKeeps(tables[1], g);
    }
    forall j | 0 <= j < |r[1].rows|
      ensures GroupAt(r[1], j)
    {
      var i := CompactOrigin(tables[1].rows, j);
      assert GroupAt(tables[1], i);
    }
  }

  /** And every user's password is what it was. */
  lemma PasswordRestored(tables: seq<Table>, user: string)
    requires Inv(tables)
    ensures Inv(Restored(tables, 3)) && Password(Restored(tables, 3), user) == Password(tables, user)
  {
    RestoredInv(tables);
    RestoredTables(tables);
    var r := Restored(tables, 3);
    if Named(tables[0], user) {
      var i :| 0 <= i < |tables[0].rows| && KeyAt(tables[0], i) == Some(user);
      PasswordAt(tables, user, i);
      var j := CompactKeeps(tables[0], i);
      PasswordAt(r, user, j);
    } else {
      CompactNames(tables[0], user);
    }
  }

  // ----- User tables can be saved -----

  /** Longest text that certainly fits on a line. */
  const SHORT: nat := 4000

  ghost predicate ShortRow(row: Row)
  {
    forall c :: 0 <= c < |row| ==> row[c].Text? ==> |row[c].s| <= SHORT
  }

  ghost predicate ShortAt(t: Table, i: nat)
    requires i < |t.rows|
  {
    t.rows[i].Some? ==> ShortRow(t.rows[i].value)
  }

  ghost predicate ShortTable(t: Table)
  {
    IsInt(|t.rows|) && forall i :: 0 <= i < |t.rows| ==> ShortAt(t, i)
  }

  lemma SpaceFreeIsPlain(s: string)
    requires SpaceFree(s)
    ensures Plain(s)
  {
    assert IsSpace('\n') && IsSpace('\r');
  }

  ghost predicate ShortName(column: Column)
  {
    ColumnName(column.name) && |column.name| <= 10
  }

  /** A row of plain, short texts and numbers is clean. */
  lemma PlainRowClean(columns: seq<Column>, row: Row)
    requires RowOk(columns, row) && ShortRow(row)
    requires forall c :: 0 <= c < |columns| ==> ShortName(columns[c])
    requires forall c :: 0 <= c < |columns| ==> columns[c].isString ==> row[c].Text? && Plain(row[c].s)
    ensures CleanRow(columns, row)
  {
    forall c | 0 <= c < |columns|
      ensures CleanCell(columns, row, c)
    {
      assert CellOkAt(columns, row, c);
      assert ShortName(columns[c]);
      if !columns[c].isString {
        DecimalIsClean(row[c].n);
      }
    }
  }

  ghost predicate Lower(s: string)
  {
    0 < |s| <= 10 && forall i :: 0 <= i < |s| ==> 'a' <= s[i] <= 'z'
  }

  lemma LowerIsName(s: string)
    requires Lower(s)
    ensures ColumnName(s)
  {
    assert KEYWORD_TABLE[0] == 'T' && KEYWORD_ROW[0] == 'R';
  }

  lemma LowerNames()
    ensures Lower("name") && Lower("password") && Lower("group") && Lower("prot") && Lower("disable")
    ensures Lower("priv") && Lower("method")
  {
  }

  /** Columns with names in lower case, each found at its place. */
  lemma LowerColumnsClean(columns: seq<Column>)
    requires forall c :: 0 <= c < |columns| ==> Lower(columns[c].name)
    requires forall c :: 0 <= c < |columns| ==> ColumnIndex(columns, columns[c].name) == c
    ensures CleanColumns(columns) && forall c :: 0 <= c < |columns| ==> ShortName(columns[c])
  {
    forall c | 0 <= c < |columns|
      ensures CleanColumn(columns, c) && ShortName(columns[c])
    {
      LowerIsName(columns[c].name);
    }
  }

  lemma UserColumnsClean()
    ensures CleanColumns(USER_COLUMNS) && forall c :: 0 <= c < |USER_COLUMNS| ==> ShortName(USER_COLUMNS[c])
  {
    ColumnIds();
    LowerNames();
    LowerColumnsClean(USER_COLUMNS);
  }

  lemma GroupColumnsClean()
    ensures CleanColumns(GROUP_COLUMNS) && forall c :: 0 <= c < |GROUP_COLUMNS| ==> ShortName(GROUP_COLUMNS[c])
  {
    GroupColumnIds();
    LowerNames();
    LowerColumnsClean(GROUP_COLUMNS);
  }

  lemma UsersClean(tables: seq<Table>)
    requires Inv(tables) && ShortTable(tables[0])
    ensures CleanTable(tables[0])
  {
    var t := tables[0];
    TableIds(tables);
    UserColumnsClean();
    forall i | 0 <= i < |t.rows|
      ensures CleanSlot(t, i)
    {
      assert UserAt(tables, i) && ShortAt(t, i) && SlotOk(t, i);
      if t.rows[i].Some? {
        var row := t.rows[i].value;
        SpaceFreeIsPlain(row[0].s);
        SpaceFreeIsPlain(row[1].s);
        var g :| 0 <= g < |tables[1].rows| && KeyAt(tables[1], g) == Some(row[2].s);
        assert GroupAt(tables[1], g);
        SpaceFreeIsPlain(row[2].s);
        PlainRowClean(t.columns, row);
      }
    }
  }

  lemma GroupsClean(tables: seq<Table>)
    requires Inv(tables) && ShortTable(tables[1])
    ensures CleanTable(tables[1])
  {
    var t := tables[1];
    TableIds(tables);
    GroupColumnsClean();
    forall i | 0 <= i < |t.rows|
      ensures CleanSlot(t, i)
    {
      assert GroupAt(t, i) && ShortAt(t, i) && SlotOk(t, i);
      if t.rows[i].Some? {
        SpaceFreeIsPlain(t.rows[i].value[0].s);
        PlainRowClean(t.columns, t.rows[i].value);
      }
    }
  }

  /** Valid users and groups with short texts can always be saved and loaded again. */
  lemma InvIsClean(tables: seq<Table>)
    requires Inv(tables) && ShortTable(tables[0]) && ShortTable(tables[1]) && CleanTable(tables[2])
    ensures CleanTables(tables)
  {
    TableIds(tables);
    UsersClean(tables);
    GroupsClean(tables);
    assert CleanTableAt(tables, 0) && CleanTableAt(tables, 1) && CleanTableAt(tables, 2);
  }

  /** umCommit and then umRestore: the users are valid and keep their passwords. */
  method CommitAndRestore(um: UserManager)
    requires Inv(um.db.tables) && ShortTable(um.db.tables[0]) && ShortTable(um.db.tables[1]) && CleanTable(um.db.tables[2])
    requires Tokens.NulFree(FileText(TablesPairs(um.db.tables, |um.db.tables|)))
    modifies um.db
    ensures Inv(um.db.tables) && um.db.tables == Restored(old(um.db.tables), 3)
    ensures forall user :: Password(um.db.tables, user) == Password(old(um.db.tables), user)
  {
    ghost var was := um.db.tables;
    InvIsClean(was);
    var text := SaveZeroLoad(um.db);
    RestoredInv(was);
    forall user
      ensures Password(um.db.tables, user) == Password(was, user)
    {
      PasswordRestored(was, user);
    }
  }
}
