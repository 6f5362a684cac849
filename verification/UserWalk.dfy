/** The first/next walk of um.c over the keys of a table. */
module UserWalk {
  import opened Basics
  import opened Database
  import opened Users

  // ----- The keys of a column -----

  /** The text of a cell; a missing string has none. */
  function CellString(cell: Cell): (s: Option<string>)
  {
    if cell.Text? then Some(cell.s) else None
  }

  ghost predicate Filled(t: Table, i: nat, c: nat)
    requires TableOk(t) && i < |t.rows| && c < |t.columns|
  {
    t.rows[i].Some? && (LiveRow(t, i); t.rows[i].value[c].Text? && t.rows[i].value[c].s != "")
  }

  ghost function KeyText(t: Table, i: nat, c: nat): (s: string)
    requires TableOk(t) && i < |t.rows| && c < |t.columns| && Filled(t, i, c)
  {
    LiveRow(t, i);
    t.rows[i].value[c].s
  }

  /** The non-blank texts of a column from a row slot on, in order. */
  ghost function Names(t: Table, c: nat, from: nat): (names: seq<string>)
    requires TableOk(t) && c < |t.columns| && from <= |t.rows|
    decreases |t.rows| - from
  {
    if from == |t.rows| then []
    else (if Filled(t, from, c) then [KeyText(t, from, c)] else []) + Names(t, c, from + 1)
  }

  /** The first of these names that is not the given one. */
  ghost function FirstOther(names: seq<string>, last: string): (r: Option<string>)
  {
    if names == [] then None else if names[0] != last then Some(names[0]) else FirstOther(names[1..], last)
  }

  lemma NamesStep(t: Table, c: nat, i: nat, last: string)
    requires TableOk(t) && c < |t.columns| && i < |t.rows|
    ensures Filled(t, i, c) ==> Names(t, c, i) == [KeyText(t, i, c)] + Names(t, c, i + 1)
    ensures !Filled(t, i, c) ==> Names(t, c, i) == Names(t, c, i + 1)
    ensures Filled(t, i, c) && KeyText(t, i, c) == last ==>
              FirstOther(Names(t, c, i), last) == FirstOther(Names(t, c, i + 1), last)
  {
    if Filled(t, i, c) {
      assert ([KeyText(t, i, c)] + Names(t, c, i + 1))[1..] == Names(t, c, i + 1);
    }
  }

  // ----- First and next -----

  /** A string column of a table, for the loops below. */
  ghost predicate KeyColumn(tables: seq<Table>, table: string, column: string, tid: nat, c: nat)
  {
    && TablesOk(tables) && tid < |tables| && TableId(tables, table) == tid
    && c < |tables[tid].columns| && ColumnIndex(tables[tid].columns, column) == c && tables[tid].columns[c].isString
  }

  /** One dbReadStr of a walk: the key keeps its old value when the row is deleted. */
  method ReadKey(db: Database, table: string, column: string, row: nat, key: Option<string>, ghost tid: nat, ghost c: nat)
    returns (more: bool, key': Option<string>)
    requires KeyColumn(db.tables, table, column, tid, c) && TableOk(db.tables[tid])
    ensures more <==> row < |db.tables[tid].rows|
    ensures more && db.tables[tid].rows[row].None? ==> key' == key
    ensures more && db.tables[tid].rows[row].Some? ==>
              |db.tables[tid].rows[row].value| > c && key' == CellString(db.tables[tid].rows[row].value[c])
    ensures !more ==> key' == key
  {
    key' := key;
    assert TableOkAt(db.tables, tid);
    assert LiveAt(db.tables[tid], row) ==> SlotOk(db.tables[tid], row);
    var check, cell := db.Read(table, column, row);
    more := check == 0 || check == DB_ERR_ROW_DELETED;
    if check == 0 {
      key' := CellString(cell);
    }
  }

  /** The first non-blank key of a column. */
  method GetFirstRowData(db: Database, table: string, column: string, ghost tid: nat, ghost c: nat)
    returns (r: Option<string>)
    requires KeyColumn(db.tables, table, column, tid, c) && TableOk(db.tables[tid])
    ensures r == var names := Names(db.tables[tid], c, 0); if names == [] then None else Some(names[0])
  {
    ghost var t := db.tables[tid];
    var row, data := 0, None;
    while true
      invariant 0 <= row <= |t.rows| && (data.None? || data == Some(""))
      invariant Names(t, c, 0) == Names(t, c, row)
      decreases |t.rows| - row
    {
      var more;
      more, data := ReadKey(db, table, column, row, data, tid, c);
      if !more {
        return None;
      }
      NamesStep(t, c, row, "");
      if data.Some? && data.value != "" {
        return data;
      }
      row := row + 1;
    }
  }

  /** The first row whose key is the given one, and whether there is one. */
  method SeekKey(db: Database, table: string, column: string, last: string, ghost tid: nat, ghost c: nat)
    returns (found: bool, row: nat)
    requires KeyColumn(db.tables, table, column, tid, c) && TableOk(db.tables[tid])
    ensures found <==> FindFrom(db.tables[tid], c, last, 0) >= 0
    ensures found ==> row == FindFrom(db.tables[tid], c, last, 0) + 1
  {
    ghost var t := db.tables[tid];
    var key: Option<string> := None;
    row := 0;
    while true
      invariant 0 <= row <= |t.rows| && key != Some(last)
      invariant FindFrom(t, c, last, 0) == FindFrom(t, c, last, row)
      decreases |t.rows| - row
    {
      var more;
      more, key := ReadKey(db, table, column, row, key, tid, c);
      row := row + 1;
      if !more {
        return false, row;
      }
      assert HasText(t, row - 1, c, last) <==> key == Some(last);
      if key == Some(last) {
        return true, row;
      }
    }
  }

  /** The first non-blank key after the row of the given key that differs from it. */
  method GetNextRowData(db: Database, table: string, column: string, last: string, ghost tid: nat, ghost c: nat)
    returns (r: Option<string>)
    requires KeyColumn(db.tables, table, column, tid, c) && TableOk(db.tables[tid])
    ensures var p := FindFrom(db.tables[tid], c, last, 0);
            r == if p < 0 then None else FirstOther(Names(db.tables[tid], c, p + 1), last)
  {
    ghost var t := db.tables[tid];
    var found, row := SeekKey(db, table, column, last, tid, c);
    if !found {
      return None;
    }
    ghost var p := row - 1;
    var key := Some(last);
    while true
      invariant p < row <= |t.rows| && (key.None? || key == Some("") || key == Some(last))
      invariant FirstOther(Names(t, c, p + 1), last) == FirstOther(Names(t, c, row), last)
      decreases |t.rows| - row
    {
      var more;
      more, key := ReadKey(db, table, column, row, key, tid, c);
      if !more {
        return None;
      }
      NamesStep(t, c, row, last);
      row := row + 1;
      if key.Some? && key.value != "" && key.value != last {
        return key;
      }
    }
  }

  // ----- Walking the users -----

  lemma UserColumn(tables: seq<Table>)
    requires Schema(tables)
    ensures KeyColumn(tables, USERS, "name", 0, 0) && TableOk(tables[0])
  {
    TableIds(tables);
    ColumnIds();
  }

  /** A live user's slot is filled with its name. */
  lemma UserFilled(tables: seq<Table>, i: nat)
    requires Inv(tables) && i < |tables[0].rows| && TableOk(tables[0])
    ensures Filled(tables[0], i, 0) <==> tables[0].rows[i].Some?
    ensures Filled(tables[0], i, 0) ==> KeyAt(tables[0], i) == Some(KeyText(tables[0], i, 0))
  {
    assert UserAt(tables, i);
  }

  /** The names from a slot on: each is in some later slot, and the first ends at the next filled one. */
  lemma {:induction false} NamesFirst(tables: seq<Table>, from: nat) returns (p: nat)
    requires Inv(tables) && TableOk(tables[0]) && from <= |tables[0].rows| && Names(tables[0], 0, from) != []
    ensures from <= p < |tables[0].rows| && Filled(tables[0], p, 0)
    ensures Names(tables[0], 0, from) == [KeyText(tables[0], p, 0)] + Names(tables[0], 0, p + 1)
    decreases |tables[0].rows| - from
  {
    NamesStep(tables[0], 0, from, "");
    if Filled(tables[0], from, 0) {
      p := from;
    } else {
      p := NamesFirst(tables, from + 1);
    }
  }

  lemma {:induction false} NamesMember(tables: seq<Table>, from: nat, name: string)
    requires Inv(tables) && TableOk(tables[0]) && from <= |tables[0].rows|
    ensures name in Names(tables[0], 0, from) <==>
              exists i :: from <= i < |tables[0].rows| && KeyAt(tables[0], i) == Some(name)
    decreases |tables[0].rows| - from
  {
    if from < |tables[0].rows| {
      NamesMember(tables, from + 1, name);
      NamesStep(tables[0], 0, from, "");
      UserFilled(tables, from);
      assert tables[0].rows[from].None? ==> KeyAt(tables[0], from) == None;
    }
  }

  /** After a user's slot, the next name is another user's. */
  lemma NextName(tables: seq<Table>, p: nat)
    requires Inv(tables) && TableOk(tables[0]) && p < |tables[0].rows| && Filled(tables[0], p, 0)
    ensures var last := KeyText(tables[0], p, 0);
            && FindFrom(tables[0], 0, last, 0) == p
            && FirstOther(Names(tables[0], 0, p + 1), last)
               == var names := Names(tables[0], 0, p + 1); if names == [] then None else Some(names[0])
  {
    var last, names := KeyText(tables[0], p, 0), Names(tables[0], 0, p + 1);
    UserFilled(tables, p);
    FindOnly(tables[0], last, p);
    NamesMember(tables, p + 1, last);
    assert forall i :: p < i < |tables[0].rows| ==> KeyAt(tables[0], i) != KeyAt(tables[0], p);
    if names != [] {
      assert names[0] in names;
    }
  }

  /** Starting at the first user and asking for the next lists the names in order. */
  method ListUsers(db: Database) returns (out: seq<string>)
    requires Inv(db.tables) && TableOk(db.tables[0])
    ensures out == Names(db.tables[0], 0, 0)
  {
    ghost var t := db.tables[0];
    UserColumn(db.tables);
    var user := GetFirstRowData(db, USERS, "name", 0, 0);
    out := [];
    ghost var rest := Names(t, 0, 0);
    ghost var p := -1;
    if user.Some? {
      p := NamesFirst(db.tables, 0);
    }
    while user.Some?
      invariant -1 <= p < |t.rows| && (user.None? ==> rest == [])
      invariant user.Some? ==> 0 <= p && Filled(t, p, 0) && user == Some(KeyText(t, p, 0))
                               && rest == [user.value] + Names(t, 0, p + 1)
      invariant out + rest == Names(t, 0, 0)
      decreases |rest|
    {
      NextName(db.tables, p);
      assert out + rest == (out + [user.value]) + Names(t, 0, p + 1);
      out, rest := out + [user.value], Names(t, 0, p + 1);
      user := GetNextRowData(db, USERS, "name", user.value, 0, 0);
      if user.Some? {
        p := NamesFirst(db.tables, p + 1);
      }
    }
  }

  /** No name is listed twice. */
  lemma {:induction false} NamesDistinct(tables: seq<Table>, from: nat)
    requires Inv(tables) && TableOk(tables[0]) && from <= |tables[0].rows|
    ensures var names := Names(tables[0], 0, from); forall i, j :: 0 <= i < j < |names| ==> names[i] != names[j]
    decreases |tables[0].rows| - from
  {
    if from < |tables[0].rows| {
      NamesDistinct(tables, from + 1);
      NamesStep(tables[0], 0, from, "");
      UserFilled(tables, from);
      if Filled(tables[0], from, 0) {
        NamesMember(tables, from + 1, KeyText(tables[0], from, 0));
        assert forall i :: from < i < |tables[0].rows| ==> KeyAt(tables[0], i) != KeyAt(tables[0], from);
      }
    }
  }

  /** The list has each user once and nobody else. */
  lemma ListsEveryUserOnce(tables: seq<Table>, name: string)
    requires Inv(tables) && TableOk(tables[0])
    ensures name in Names(tables[0], 0, 0) <==> Named(tables[0], name)
    ensures multiset(Names(tables[0], 0, 0))[name] <= 1
  {
    NamesMember(tables, 0, name);
    NamesDistinct(tables, 0);
    OnceInMultiset(Names(tables[0], 0, 0), name);
  }

  lemma {:induction false} OnceInMultiset(names: seq<string>, name: string)
    requires forall i, j :: 0 <= i < j < |names| ==> names[i] != names[j]
    ensures multiset(names)[name] <= 1
  {
    if names != [] {
      var init, last := names[..|names| - 1], names[|names| - 1];
      assert names == init + [last];
      OnceInMultiset(init, name);
      assert multiset(names) == multiset(init) + multiset{last};
      assert last !in init;
    }
  }
}
