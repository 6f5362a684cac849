/** The user tables of um.c as what they stand for: a record for each user and group. */
module Records {
  import opened Basics
  import opened Handles
  import opened Numbers
  import opened Database
  import opened Encryption
  import opened Users

  datatype User = User(pass: string, group: string, prot: int, disabled: int)

  datatype Group = Group(priv: int, am: int, prot: int, disabled: int)

  const AM_INVALID: int := 4

  // ----- The record of a name -----

  /** The row of a name; the name is in the table. */
  ghost function RowOf(tables: seq<Table>, k: nat, name: string): (i: nat)
    requires Inv(tables) && k < 2 && Named(tables[k], name)
    ensures i < |tables[k].rows| && KeyAt(tables[k], i) == Some(name)
  {
    TableIds(tables);
    FindKey(tables[k], name);
    FindFrom(tables[k], 0, name, 0)
  }

  /** A column of the row of a user or a group, as dbReadStr and dbReadInt give it. */
  ghost function Column(tables: seq<Table>, k: nat, name: string, column: string): (cell: Cell)
    requires Inv(tables) && k < 2 && Named(tables[k], name)
    requires ColumnIndex(tables[k].columns, column) >= 0
  {
    TableIds(tables);
    CellAt(tables, if k == 0 then USERS else GROUPS, column, RowOf(tables, k, name))
  }

  /** The user of this name, with the password decrypted. */
  ghost function UserOf(tables: seq<Table>, name: string): (r: Option<User>)
    requires Inv(tables)
  {
    if !Named(tables[0], name) then None else
      ColumnIds();
      UserCell(tables, name);
      Some(User(Encrypted(Column(tables, 0, name, "password").s, MASK), Column(tables, 0, name, "group").s,
                Column(tables, 0, name, "prot").n, Column(tables, 0, name, "disable").n))
  }

  ghost function GroupOf(tables: seq<Table>, name: string): (r: Option<Group>)
    requires Inv(tables)
  {
    if !Named(tables[1], name) then None else
      GroupColumnIds();
      GroupCell(tables, name);
      Some(Group(Column(tables, 1, name, "priv").n, Column(tables, 1, name, "method").n,
                 Column(tables, 1, name, "prot").n, Column(tables, 1, name, "disable").n))
  }

  lemma UserCell(tables: seq<Table>, name: string)
    requires Inv(tables) && Named(tables[0], name)
    ensures ColumnIndex(USER_COLUMNS, "password") == 1 && Column(tables, 0, name, "password").Text?
    ensures ColumnIndex(USER_COLUMNS, "group") == 2 && Column(tables, 0, name, "group").Text?
    ensures ColumnIndex(USER_COLUMNS, "prot") == 3 && Column(tables, 0, name, "prot").Word?
    ensures ColumnIndex(USER_COLUMNS, "disable") == 4 && Column(tables, 0, name, "disable").Word?
  {
    ColumnIds();
    TableIds(tables);
    assert UserAt(tables, RowOf(tables, 0, name));
  }

  lemma GroupCell(tables: seq<Table>, name: string)
    requires Inv(tables) && Named(tables[1], name)
    ensures ColumnIndex(GROUP_COLUMNS, "priv") == 1 && Column(tables, 1, name, "priv").Word?
    ensures ColumnIndex(GROUP_COLUMNS, "method") == 2 && Column(tables, 1, name, "method").Word?
    ensures ColumnIndex(GROUP_COLUMNS, "prot") == 3 && Column(tables, 1, name, "prot").Word?
    ensures ColumnIndex(GROUP_COLUMNS, "disable") == 4 && Column(tables, 1, name, "disable").Word?
  {
    GroupColumnIds();
    TableIds(tables);
    assert GroupAt(tables[1], RowOf(tables, 1, name));
  }

  /** The record in a slot. */
  lemma UserIn(tables: seq<Table>, i: nat, name: string)
    requires Inv(tables) && i < |tables[0].rows| && KeyAt(tables[0], i) == Some(name)
    ensures UserAt(tables, i)
    ensures var row := tables[0].rows[i].value;
            UserOf(tables, name) == Some(User(Encrypted(row[1].s, MASK), row[2].s, row[3].n, row[4].n))
  {
    ColumnIds();
    TableIds(tables);
    FindOnly(tables[0], name, i);
    assert UserAt(tables, i);
  }

  lemma GroupIn(tables: seq<Table>, i: nat, name: string)
    requires Inv(tables) && i < |tables[1].rows| && KeyAt(tables[1], i) == Some(name)
    ensures GroupAt(tables[1], i)
    ensures var row := tables[1].rows[i].value; GroupOf(tables, name) == Some(Group(row[1].n, row[2].n, row[3].n, row[4].n))
  {
    GroupColumnIds();
    TableIds(tables);
    FindOnly(tables[1], name, i);
    assert GroupAt(tables[1], i);
  }

  // ----- What an operation does to the records -----

  /** A name other than that of an accepted deletion keeps its slot. */
  lemma NameStays(tables: seq<Table>, op: Op, k: nat, name: string)
    requires Inv(tables) && OpOk(op) && k < 2 && Named(tables[k], name)
    requires !(Code(tables, op) == 0 && op == if k == 0 then DeleteUser(name) else DeleteGroup(name))
    ensures var i := RowOf(tables, k, name);
            && Inv(Step(tables, op)) && i < |Step(tables, op)[k].rows|
            && Step(tables, op)[k].rows[i] == tables[k].rows[i] && KeyAt(Step(tables, op)[k], i) == Some(name)
  {
    var i := RowOf(tables, k, name);
    StepKeeps(tables, op);
    StepStays(tables, op, k, i);
  }

  /** A name that is not there appears only when it is added. */
  lemma NameAppears(tables: seq<Table>, op: Op, k: nat, name: string)
    requires Inv(tables) && OpOk(op) && k < 2 && !Named(tables[k], name)
    requires !(Code(tables, op) == 0 && if k == 0 then op.AddUser? && op.user == name else op.AddGroup? && op.group == name)
    ensures !Named(Step(tables, op)[k], name)
  {
    TableIds(tables);
    var t, t' := tables[k], Step(tables, op)[k];
    if op.DeleteUser? && Code(tables, op) == 0 { FindKey(tables[0], op.user); }
    if op.DeleteGroup? && Code(tables, op) == 0 { FindKey(tables[1], op.group); }
    forall i | 0 <= i < |t'.rows|
      ensures KeyAt(t', i) != Some(name)
    {
      if i < |t.rows| { assert KeyAt(t, i) != Some(name); }
    }
  }

  /** A deleted name is gone. */
  lemma NameGoes(tables: seq<Table>, op: Op, k: nat, name: string)
    requires Inv(tables) && k < 2 && Code(tables, op) == 0 && op == if k == 0 then DeleteUser(name) else DeleteGroup(name)
    ensures !Named(Step(tables, op)[k], name)
  {
    TableIds(tables);
    FindKey(tables[k], name);
    var t, t', row := tables[k], Step(tables, op)[k], FindFrom(tables[k], 0, name, 0);
    forall i | 0 <= i < |t'.rows|
      ensures KeyAt(t', i) != Some(name)
    {
      assert i == row || KeyAt(t', i) == KeyAt(t, i);
    }
  }

  /** The record of a user just added is that of the arguments. */
  lemma UserAdded(tables: seq<Table>, op: Op)
    requires Inv(tables) && OpOk(op) && op.AddUser? && Code(tables, op) == 0
    ensures Inv(Step(tables, op)) && UserOf(Step(tables, op), op.user) == Some(User(op.pass, op.group, op.prot, op.disabled))
  {
    StepKeeps(tables, op);
    UserIn(Step(tables, op), FirstFree(tables[0].rows), op.user);
    MaskIsBytes();
    EncryptedTwice(op.pass, MASK);
  }

  lemma UserUnchanged(tables: seq<Table>, op: Op, name: string)
    requires Inv(tables) && OpOk(op) && Named(tables[0], name) && !(Code(tables, op) == 0 && op == DeleteUser(name))
    ensures Inv(Step(tables, op)) && UserOf(Step(tables, op), name) == UserOf(tables, name)
  {
    NameStays(tables, op, 0, name);
    UserIn(tables, RowOf(tables, 0, name), name);
    UserIn(Step(tables, op), RowOf(tables, 0, name), name);
  }

  /** An accepted add gives the name the record of its arguments, an accepted deletion takes it away, and nothing else changes a user. */
  lemma UserAfter(tables: seq<Table>, op: Op, name: string)
    requires Inv(tables) && OpOk(op)
    ensures Inv(Step(tables, op))
    ensures UserOf(Step(tables, op), name) ==
            if Code(tables, op) == 0 && op.AddUser? && op.user == name then Some(User(op.pass, op.group, op.prot, op.disabled))
            else if Code(tables, op) == 0 && op == DeleteUser(name) then None
            else UserOf(tables, name)
  {
    StepKeeps(tables, op);
    if Code(tables, op) == 0 && op.AddUser? && op.user == name {
      UserAdded(tables, op);
    } else if Code(tables, op) == 0 && op == DeleteUser(name) {
      NameGoes(tables, op, 0, name);
    } else if Named(tables[0], name) {
      UserUnchanged(tables, op, name);
    } else {
      NameAppears(tables, op, 0, name);
    }
  }

  lemma GroupAdded(tables: seq<Table>, op: Op)
    requires Inv(tables) && OpOk(op) && op.AddGroup? && Code(tables, op) == 0
    ensures Inv(Step(tables, op)) && GroupOf(Step(tables, op), op.group) == Some(Group(op.priv, op.am, op.prot, op.disabled))
  {
    StepKeeps(tables, op);
    GroupIn(Step(tables, op), FirstFree(tables[1].rows), op.group);
  }

  lemma GroupUnchanged(tables: seq<Table>, op: Op, name: string)
    requires Inv(tables) && OpOk(op) && Named(tables[1], name) && !(Code(tables, op) == 0 && op == DeleteGroup(name))
    ensures Inv(Step(tables, op)) && GroupOf(Step(tables, op), name) == GroupOf(tables, name)
  {
    NameStays(tables, op, 1, name);
    GroupIn(tables, RowOf(tables, 1, name), name);
    GroupIn(Step(tables, op), RowOf(tables, 1, name), name);
  }

  lemma GroupAfter(tables: seq<Table>, op: Op, name: string)
    requires Inv(tables) && OpOk(op)
    ensures Inv(Step(tables, op))
    ensures GroupOf(Step(tables, op), name) ==
            if Code(tables, op) == 0 && op.AddGroup? && op.group == name then Some(Group(op.priv, op.am, op.prot, op.disabled))
            else if Code(tables, op) == 0 && op == DeleteGroup(name) then None
            else GroupOf(tables, name)
  {
    StepKeeps(tables, op);
    if Code(tables, op) == 0 && op.AddGroup? && op.group == name {
      GroupAdded(tables, op);
    } else if Code(tables, op) == 0 && op == DeleteGroup(name) {
      NameGoes(tables, op, 1, name);
    } else if Named(tables[1], name) {
      GroupUnchanged(tables, op, name);
    } else {
      NameAppears(tables, op, 1, name);
    }
  }

  // ----- When an operation is refused -----

  /** A user has this group, */
  ghost predicate UserHas(tables: seq<Table>, group: string)
    requires Inv(tables)
  {
    exists name :: UserOf(tables, name).Some? && UserOf(tables, name).value.group == group
  }

  /** or an access limit names it. */
  ghost predicate LimitHas(tables: seq<Table>, group: string)
    requires Inv(tables)
  {
    exists i :: 0 <= i < |tables[2].rows| && LimitGroup(tables[2], i) == Some(group)
  }

  ghost function LimitGroup(t: Table, i: nat): (g: Option<string>)
    requires i < |t.rows|
  {
    if t.rows[i].Some? && |t.rows[i].value| == 4 && t.rows[i].value[3].Text? then Some(t.rows[i].value[3].s) else None
  }

  lemma InUseMeans(tables: seq<Table>, group: string)
    requires Inv(tables)
    ensures InUse(tables, group) <==> UserHas(tables, group) || LimitHas(tables, group)
  {
    TableIds(tables);
    var u, a := FindFrom(tables[0], 2, group, 0), FindFrom(tables[2], 3, group, 0);
    if u >= 0 {
      assert HasText(tables[0], u, 2, group) && UserAt(tables, u);
      UserIn(tables, u, tables[0].rows[u].value[0].s);
    }
    if a >= 0 {
      assert HasText(tables[2], a, 3, group);
      LiveRow(tables[2], a);
      assert LimitGroup(tables[2], a) == Some(group);
    }
    if name :| UserOf(tables, name).Some? && UserOf(tables, name).value.group == group {
      var i := RowOf(tables, 0, name);
      UserIn(tables, i, name);
      assert HasText(tables[0], i, 2, group);
    }
    if i :| 0 <= i < |tables[2].rows| && LimitGroup(tables[2], i) == Some(group) {
      assert HasText(tables[2], i, 3, group);
    }
  }

  lemma ProtectedMeans(tables: seq<Table>, name: string)
    requires Inv(tables)
    ensures Protected(tables[0], name) <==> UserOf(tables, name).Some? && UserOf(tables, name).value.prot != 0
    ensures Protected(tables[1], name) <==> GroupOf(tables, name).Some? && GroupOf(tables, name).value.prot != 0
  {
    TableIds(tables);
    if Named(tables[0], name) {
      var i := RowOf(tables, 0, name);
      UserIn(tables, i, name);
      assert forall j :: 0 <= j < |tables[0].rows| && KeyAt(tables[0], j) == Some(name) ==> j == i;
    }
    if Named(tables[1], name) {
      var i := RowOf(tables, 1, name);
      GroupIn(tables, i, name);
      assert forall j :: 0 <= j < |tables[1].rows| && KeyAt(tables[1], j) == Some(name) ==> j == i;
    }
  }

  /** A name or password is accepted exactly if it is not empty and has no blank, tab or line end. */
  lemma NameOkIs(s: string)
    ensures NameOk(s) <==> s != "" && forall i :: 0 <= i < |s| ==> s[i] != ' ' && !(9 <= s[i] as int <= 13)
  {
    if NameOk(s) { assert forall i :: 0 <= i < |s| ==> !IsSpace(s[i]); }
  }

  /** umAddUser refuses a name that is there, then a bad name, then a bad password, then a group that is not there. */
  lemma AddUserCode(tables: seq<Table>, op: Op)
    requires Inv(tables) && op.AddUser?
    ensures Code(tables, op) == UM_ERR_DUPLICATE <==> UserOf(tables, op.user).Some?
    ensures Code(tables, op) == UM_ERR_BAD_NAME <==> UserOf(tables, op.user).None? && !NameOk(op.user)
    ensures Code(tables, op) == UM_ERR_BAD_PASSWORD <==> UserOf(tables, op.user).None? && NameOk(op.user) && !NameOk(op.pass)
    ensures Code(tables, op) == UM_ERR_NOT_FOUND <==>
            UserOf(tables, op.user).None? && NameOk(op.user) && NameOk(op.pass) && GroupOf(tables, op.group).None?
    ensures Code(tables, op) == 0 <==>
            UserOf(tables, op.user).None? && NameOk(op.user) && NameOk(op.pass) && GroupOf(tables, op.group).Some?
  {
  }

  lemma AddGroupCode(tables: seq<Table>, op: Op)
    requires Inv(tables) && op.AddGroup?
    ensures Code(tables, op) == UM_ERR_DUPLICATE <==> GroupOf(tables, op.group).Some?
    ensures Code(tables, op) == UM_ERR_BAD_NAME <==> GroupOf(tables, op.group).None? && !NameOk(op.group)
    ensures Code(tables, op) == 0 <==> GroupOf(tables, op.group).None? && NameOk(op.group)
  {
  }

  /** A user can be deleted exactly if it is there and not protected. */
  lemma DeleteUserCode(tables: seq<Table>, name: string)
    requires Inv(tables)
    ensures Code(tables, DeleteUser(name)) ==
            match UserOf(tables, name)
            case None => UM_ERR_NOT_FOUND
            case Some(u) => if u.prot != 0 then UM_ERR_PROTECTED else 0
  {
    ProtectedMeans(tables, name);
  }

  /** A group can be deleted exactly if it is there, no user and no access limit has it, and it is not protected. */
  lemma DeleteGroupCode(tables: seq<Table>, name: string)
    requires Inv(tables)
    ensures Code(tables, DeleteGroup(name)) ==
            if UserHas(tables, name) || LimitHas(tables, name) then UM_ERR_IN_USE else
              match GroupOf(tables, name)
              case None => UM_ERR_NOT_FOUND
              case Some(g) => if g.prot != 0 then UM_ERR_PROTECTED else 0
  {
    ProtectedMeans(tables, name);
    InUseMeans(tables, name);
  }

  // ----- Over whole runs -----

  /** A protected user keeps its whole record in every run, */
  lemma {:induction false} ProtectedUserKept(tables: seq<Table>, ops: seq<Op>, name: string)
    requires Inv(tables) && OpsOk(ops) && UserOf(tables, name).Some? && UserOf(tables, name).value.prot != 0
    ensures UserOf(Run(tables, ops), name) == UserOf(tables, name)
    decreases |ops|
  {
    if ops != [] {
      UserAfter(tables, ops[0], name);
      if ops[0] == DeleteUser(name) { DeleteUserCode(tables, name); }
      if ops[0].AddUser? { AddUserCode(tables, ops[0]); }
      ProtectedUserKept(Step(tables, ops[0]), ops[1..], name);
    }
  }

  /** and so does a protected group. */
  lemma {:induction false} ProtectedGroupKept(tables: seq<Table>, ops: seq<Op>, name: string)
    requires Inv(tables) && OpsOk(ops) && GroupOf(tables, name).Some? && GroupOf(tables, name).value.prot != 0
    ensures GroupOf(Run(tables, ops), name) == GroupOf(tables, name)
    decreases |ops|
  {
    if ops != [] {
      GroupAfter(tables, ops[0], name);
      if ops[0] == DeleteGroup(name) { DeleteGroupCode(tables, name); }
      if ops[0].AddGroup? { AddGroupCode(tables, ops[0]); }
      ProtectedGroupKept(Step(tables, ops[0]), ops[1..], name);
    }
  }

  /** Any user keeps its record in a run that does not try to delete it. */
  lemma {:induction false} UserKept(tables: seq<Table>, ops: seq<Op>, name: string)
    requires Inv(tables) && OpsOk(ops) && UserOf(tables, name).Some? && DeleteUser(name) !in ops
    ensures UserOf(Run(tables, ops), name) == UserOf(tables, name)
    decreases |ops|
  {
    if ops != [] {
      UserAfter(tables, ops[0], name);
      if ops[0].AddUser? { AddUserCode(tables, ops[0]); }
      UserKept(Step(tables, ops[0]), ops[1..], name);
    }
  }

  // ----- The getters -----

  /** The group of a user; none for an unknown user. */
  method GetUserGroup(um: UserManager, user: string) returns (group: Option<string>)
    requires Inv(um.db.tables)
    ensures group == match UserOf(um.db.tables, user) case None => None case Some(u) => Some(u.group)
  {
    var row := FindUser(um, user);
    if row < 0 {
      return None;
    }
    UserIn(um.db.tables, row, user);
    ColumnIds();
    TableIds(um.db.tables);
    var rc, cell := um.db.Read(USERS, "group", row);
    group := Some(cell.s);
  }

  method FindUser(um: UserManager, user: string) returns (row: int)
    requires Inv(um.db.tables)
    ensures row >= 0 <==> Named(um.db.tables[0], user)
    ensures row >= 0 ==> row < |um.db.tables[0].rows| && KeyAt(um.db.tables[0], row) == Some(user)
  {
    TableIds(um.db.tables);
    ColumnIds();
    FindKey(um.db.tables[0], user);
    StringsComparable(um.db.tables, USERS, "name", user, 0);
    row := um.db.SearchStr(USERS, "name", user, 0);
  }

  method FindGroup(um: UserManager, group: string) returns (row: int)
    requires Inv(um.db.tables)
    ensures row >= 0 <==> Named(um.db.tables[1], group)
    ensures row >= 0 ==> row < |um.db.tables[1].rows| && KeyAt(um.db.tables[1], row) == Some(group)
  {
    TableIds(um.db.tables);
    GroupColumnIds();
    FindKey(um.db.tables[1], group);
    StringsComparable(um.db.tables, GROUPS, "name", group, 0);
    row := um.db.SearchStr(GROUPS, "name", group, 0);
  }

  /** An unknown user is not enabled. */
  method GetUserEnabled(um: UserManager, user: string) returns (enabled: bool)
    requires Inv(um.db.tables)
    ensures enabled <==> UserOf(um.db.tables, user).Some? && UserOf(um.db.tables, user).value.disabled == 0
  {
    var disabled := 1;
    var row := FindUser(um, user);
    if row >= 0 {
      UserIn(um.db.tables, row, user);
      ColumnIds();
      TableIds(um.db.tables);
      var rc, cell := um.db.Read(USERS, "disable", row);
      disabled := cell.n;
    }
    enabled := disabled == 0;
  }

  method GetGroupAccessMethod(um: UserManager, group: string) returns (am: int)
    requires Inv(um.db.tables)
    ensures am == match GroupOf(um.db.tables, group) case None => AM_INVALID case Some(g) => g.am
  {
    am := AM_INVALID;
    var row := FindGroup(um, group);
    if row >= 0 {
      GroupIn(um.db.tables, row, group);
      GroupColumnIds();
      TableIds(um.db.tables);
      var rc, cell := um.db.Read(GROUPS, "method", row);
      am := cell.n;
    }
  }

  /** An int cut to a short. */
  function Short(v: int): (r: int)
    ensures -0x8000 <= r < 0x8000 && (v - r) % 0x1_0000 == 0
    ensures -0x8000 <= v < 0x8000 ==> r == v
  {
    var u := v % 0x1_0000;
    if u < 0x8000 then u else u - 0x1_0000
  }

  method GetGroupPrivilege(um: UserManager, group: string) returns (priv: int)
    requires Inv(um.db.tables)
    ensures priv == match GroupOf(um.db.tables, group) case None => -1 case Some(g) => Short(g.priv)
  {
    priv := -1;
    var row := FindGroup(um, group);
    if row >= 0 {
      GroupIn(um.db.tables, row, group);
      GroupColumnIds();
      TableIds(um.db.tables);
      var rc, cell := um.db.Read(GROUPS, "priv", row);
      priv := cell.n;
    }
    priv := Short(priv);
  }

  method GetGroupEnabled(um: UserManager, group: string) returns (enabled: bool)
    requires Inv(um.db.tables)
    ensures enabled <==> GroupOf(um.db.tables, group).Some? && GroupOf(um.db.tables, group).value.disabled == 0
  {
    var disabled := 1;
    var row := FindGroup(um, group);
    if row >= 0 {
      GroupIn(um.db.tables, row, group);
      GroupColumnIds();
      TableIds(um.db.tables);
      var rc, cell := um.db.Read(GROUPS, "disable", row);
      disabled := cell.n;
    }
    enabled := disabled == 0;
  }

  // ----- From opening on -----

  method PerformAll(um: UserManager, ops: seq<Op>)
    requires Inv(um.db.tables) && OpsOk(ops)
    modifies um.db
    ensures Inv(um.db.tables) && um.db.tables == Run(old(um.db.tables), ops)
  {
    ghost var start := um.db.tables;
    var i := 0;
    assert ops[..0] == [];
    while i < |ops|
      invariant 0 <= i <= |ops| && Inv(um.db.tables) && um.db.tables == Run(start, ops[..i])
    {
      RunSplit(start, ops[..i], [ops[i]]);
      assert ops[..i] + [ops[i]] == ops[..i + 1];
      assert [ops[i]][1..] == [];
      var rc := um.Perform(ops[i]);
      i := i + 1;
    }
    assert ops[..|ops|] == ops;
  }

  /**
   * Open, do anything, add a user, do anything, and delete the user. If the add was accepted with
   * protection the deletion is refused, and the user still has the group and the state it was given;
   * without protection it is refused only because something in between deleted the user already.
   */
  method AddedUserStays(before: seq<Op>, op: Op, after: seq<Op>) returns (code: int, group: Option<string>, enabled: bool, rc: int)
    requires OpsOk(before) && OpOk(op) && op.AddUser? && OpsOk(after)
    ensures code == 0 && op.prot != 0 ==> group == Some(op.group) && enabled == (op.disabled == 0) && rc == UM_ERR_PROTECTED
    ensures code == 0 && op.prot == 0 && DeleteUser(op.user) !in after ==>
              group == Some(op.group) && enabled == (op.disabled == 0) && rc == 0
  {
    var um := Open();
    PerformAll(um, before);
    ghost var start := um.db.tables;
    code := um.Perform(op);
    UserAfter(start, op, op.user);
    ghost var added := um.db.tables;
    PerformAll(um, after);
    if code == 0 {
      if op.prot != 0 { ProtectedUserKept(added, after, op.user); } else if DeleteUser(op.user) !in after { UserKept(added, after, op.user); }
    }
    group := GetUserGroup(um, op.user);
    enabled := GetUserEnabled(um, op.user);
    DeleteUserCode(um.db.tables, op.user);
    rc := um.DeleteUser(op.user);
  }

  /** The same for a group, which a user or an access limit can keep too. */
  method AddedGroupStays(before: seq<Op>, op: Op, after: seq<Op>) returns (code: int, priv: int, am: int, enabled: bool, rc: int)
    requires OpsOk(before) && OpOk(op) && op.AddGroup? && OpsOk(after)
    ensures code == 0 && op.prot != 0 ==>
              && am == op.am && enabled == (op.disabled == 0) && (-0x8000 <= op.priv < 0x8000 ==> priv == op.priv)
              && (rc == UM_ERR_PROTECTED || rc == UM_ERR_IN_USE)
  {
    var um := Open();
    PerformAll(um, before);
    ghost var start := um.db.tables;
    code := um.Perform(op);
    GroupAfter(start, op, op.group);
    ghost var added := um.db.tables;
    PerformAll(um, after);
    if code == 0 && op.prot != 0 { ProtectedGroupKept(added, after, op.group); }
    priv := GetGroupPrivilege(um, op.group);
    am := GetGroupAccessMethod(um, op.group);
    enabled := GetGroupEnabled(um, op.group);
    DeleteGroupCode(um.db.tables, op.group);
    rc := um.DeleteGroup(op.group);
  }
}
