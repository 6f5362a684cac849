/** The text file of emfdb.c: TABLE, ROW and column lines, written by dbSave and read by dbLoad. */
module DatabaseFile {
  import opened Basics
  import opened Handles
  import opened Numbers
  import opened Tokens
  import opened Database

  const KEYWORD_TABLE: string := "TABLE"
  const KEYWORD_ROW: string := "ROW"

  type Pair = (string, string)

  // ----- Lines -----

  /** A line of the file, cut to what its buffer holds. */
  function Line(p: Pair): (s: string)
  {
    Clip(p.0 + "=" + p.1 + "\n", BUF_MAX - 1)
  }

  ghost function FileText(pairs: seq<Pair>): (s: string)
  {
    FlatMap(Line, pairs)
  }

  /** Text appended twice is text appended once. */
  lemma Extend(text: string, a: seq<Pair>, b: seq<Pair>)
    ensures text + FileText(a) + FileText(b) == text + FileText(a + b)
  {
    FlatMapConcat(Line, a, b);
  }

  /** Nothing in the string upsets a line's value: no line end, no leading space. */
  predicate Plain(s: string)
  {
    '\n' !in s && '\r' !in s && (s == "" || !IsSpace(s[0]))
  }

  predicate Fits(p: Pair)
  {
    |p.0| + |p.1| + 2 <= BUF_MAX - 1
  }

  // ----- Cracking a line -----

  /** The position of a character counted from the end, or -1. */
  function LastIndex(s: string, c: char): (i: int)
    ensures -1 <= i < |s| && (i >= 0 ==> s[i] == c)
    ensures forall k :: i < k < |s| ==> s[k] != c
  {
    if s == "" then -1 else if s[|s| - 1] == c then |s| - 1 else LastIndex(s[..|s| - 1], c)
  }

  function FirstIndex(s: string, c: char): (i: int)
    ensures -1 <= i < |s| && (i >= 0 ==> s[i] == c)
    ensures forall k :: 0 <= k < |s| && (i < 0 || k < i) ==> s[k] != c
  {
    if s == "" then -1 else if s[0] == c then 0 else
      var r := FirstIndex(s[1..], c); if r < 0 then -1 else r + 1
  }

  /** The line up to its last line feed, or else to its last carriage return. */
  function Uncut(line: string): (s: string)
  {
    var lf, cr := LastIndex(line, '\n'), LastIndex(line, '\r');
    if lf >= 0 then line[..lf] else if cr >= 0 then line[..cr] else line
  }

  /** The keyword and the value on both sides of the first =, leading space trimmed. */
  function Crack(line: string): (r: Option<Pair>)
  {
    var s := Uncut(line);
    var eq := FirstIndex(s, '=');
    if eq < 0 then None else Some((Trim(s[..eq]), Trim(s[eq + 1..])))
  }

  lemma FirstIndexIs(s: string, c: char, i: nat)
    requires i < |s| && s[i] == c && forall k :: 0 <= k < i ==> s[k] != c
    ensures FirstIndex(s, c) == i
  {
  }

  lemma TrimKeeps(s: string)
    ensures Trim(s) == s <==> s == "" || !IsSpace(s[0])
  {
  }

  /** Without line ends, only the value's leading space is lost. */
  lemma CrackTrims(key: string, value: string, line: string)
    requires line == key + "=" + value && Plain(key) && '=' !in key && '\n' !in line && '\r' !in line
    ensures Crack(line) == Some((key, Trim(value)))
  {
    assert Uncut(line) == line;
    assert line[|key|] == '=';
    FirstIndexIs(line, '=', |key|);
    assert line[..|key|] == key && line[|key| + 1..] == value;
    TrimKeeps(key);
  }

  /** A carriage return cuts the line short. */
  lemma CrackCuts(line: string)
    requires '\r' in line && '\n' !in line
    ensures Crack(line).Some? ==> |Crack(line).value.0| + |Crack(line).value.1| + 1 < |line|
  {
  }

  /** A value without a line feed survives on its line exactly when it is plain. */
  lemma CrackReturns(key: string, value: string)
    requires Plain(key) && '=' !in key && '\n' !in value
    ensures Crack(key + "=" + value) == Some((key, value)) <==> Plain(value)
  {
    var line := key + "=" + value;
    if '\r' in value {
      assert '\r' in line;
      CrackCuts(line);
    } else {
      CrackTrims(key, value, line);
      TrimKeeps(value);
    }
  }

  // ----- Saving -----

  /** How a cell is printed; a missing string prints as (null). */
  ghost function CellText(column: Column, cell: Cell): (s: string)
    requires CellOk(column, cell)
  {
    if column.isString then (if cell.Text? then cell.s else "(null)") else Decimal(cell.n)
  }

  /** A row is saved if its first column holds a non-empty string. */
  predicate Keyed(row: Row)
  {
    row != [] && row[0].Text? && row[0].s != ""
  }

  ghost function ColumnPair(columns: seq<Column>, row: Row, c: nat): (p: Pair)
    requires RowOk(columns, row) && c < |columns|
  {
    assert CellOkAt(columns, row, c);
    (columns[c].name, CellText(columns[c], row[c]))
  }

  ghost function ColumnPairs(columns: seq<Column>, row: Row, k: nat): (pairs: seq<Pair>)
    requires RowOk(columns, row) && k <= |columns|
    decreases k
  {
    if k == 0 then [] else ColumnPairs(columns, row, k - 1) + [ColumnPair(columns, row, k - 1)]
  }

  ghost function RowPairs(columns: seq<Column>, row: Row, n: nat): (pairs: seq<Pair>)
    requires RowOk(columns, row)
  {
    [(KEYWORD_ROW, Decimal(n))] + ColumnPairs(columns, row, |columns|)
  }

  /** The lines of one row slot: none if it is free or its row has no key. */
  ghost function SlotPairs(t: Table, n: nat): (pairs: seq<Pair>)
    requires TableOk(t) && n < |t.rows|
  {
    if t.rows[n].Some? && Keyed(t.rows[n].value) then LiveRow(t, n); RowPairs(t.columns, t.rows[n].value, n) else []
  }

  /** The lines of a table's first k row slots. */
  ghost function RowsPairs(t: Table, k: nat): (pairs: seq<Pair>)
    requires TableOk(t) && k <= |t.rows|
    decreases k
  {
    if k == 0 then [] else RowsPairs(t, k - 1) + SlotPairs(t, k - 1)
  }

  ghost function TablePairs(t: Table): (pairs: seq<Pair>)
    requires TableOk(t)
  {
    [(KEYWORD_TABLE, t.name)] + RowsPairs(t, |t.rows|)
  }

  ghost function TablesPairs(tables: seq<Table>, k: nat): (pairs: seq<Pair>)
    requires TablesOk(tables) && k <= |tables|
    decreases k
  {
    if k == 0 then [] else
      assert TableOkAt(tables, k - 1);
      TablesPairs(tables, k - 1) + TablePairs(tables[k - 1])
  }

  /** What dbSave demands of a table: a string in the first column, and row numbers that are ints. */
  predicate CanSave(t: Table)
  {
    t.columns != [] && t.columns[0].isString && IsInt(|t.rows|)
  }

  /** A row is its ROW line and then a line for each column, in the order of the columns. */
  lemma RowLines(columns: seq<Column>, row: Row, n: nat, c: nat)
    requires RowOk(columns, row) && c < |columns|
    ensures var pairs := RowPairs(columns, row, n);
            && |pairs| == |columns| + 1 && pairs[0] == ("ROW", Decimal(n)) && pairs[c + 1].0 == columns[c].name
            && (columns[c].isString ==> pairs[c + 1].1 == if row[c].Text? then row[c].s else "(null)")
            && (!columns[c].isString ==> row[c].Word? && pairs[c + 1].1 == Decimal(row[c].n))
  {
    ColumnLines(columns, row, |columns|);
    assert CellOkAt(columns, row, c);
    assert RowPairs(columns, row, n)[c + 1] == ColumnPair(columns, row, c);
  }

  lemma {:induction false} ColumnLines(columns: seq<Column>, row: Row, k: nat)
    requires RowOk(columns, row) && k <= |columns|
    ensures |ColumnPairs(columns, row, k)| == k
    ensures forall c :: 0 <= c < k ==> ColumnPairs(columns, row, k)[c] == ColumnPair(columns, row, c)
    decreases k
  {
    if k > 0 { ColumnLines(columns, row, k - 1); }
  }

  /** The values on the lines with this keyword. */
  ghost function ValuesOf(pairs: seq<Pair>, key: string): (vs: seq<string>)
  {
    if pairs == [] then [] else (if pairs[0].0 == key then [pairs[0].1] else []) + ValuesOf(pairs[1..], key)
  }

  lemma {:induction false} ValuesConcat(a: seq<Pair>, b: seq<Pair>, key: string)
    ensures ValuesOf(a + b, key) == ValuesOf(a, key) + ValuesOf(b, key)
  {
    if a == [] {
      assert a + b == b;
    } else {
      var first := if a[0].0 == key then [a[0].1] else [];
      assert (a + b)[0] == a[0] && (a + b)[1..] == a[1..] + b;
      ValuesConcat(a[1..], b, key);
      Regroup(first, ValuesOf(a[1..], key), ValuesOf(b, key));
    }
  }

  /** The numbers of the first k slots whose row is there and has a key, in order. */
  ghost function KeyedSlots(t: Table, k: nat): (ns: seq<nat>)
    requires k <= |t.rows|
    decreases k
  {
    if k == 0 then [] else KeyedSlots(t, k - 1) + if t.rows[k - 1].Some? && Keyed(t.rows[k - 1].value) then [k - 1] else []
  }

  lemma {:induction false} KeyedSlotsAre(t: Table, k: nat)
    requires k <= |t.rows|
    ensures forall n: nat :: n in KeyedSlots(t, k) <==>
              n < k && t.rows[n].Some? && t.rows[n].value != [] && t.rows[n].value[0].Text? && t.rows[n].value[0].s != ""
    decreases k
  {
    if k > 0 { KeyedSlotsAre(t, k - 1); }
  }

  lemma {:induction false} KeyedSlotsIncrease(t: Table, k: nat)
    requires k <= |t.rows|
    ensures Increasing(KeyedSlots(t, k), k)
    decreases k
  {
    if k > 0 {
      KeyedSlotsIncrease(t, k - 1);
      var before := KeyedSlots(t, k - 1);
      assert Increasing(before, k) && Increasing(before + [k - 1], k);
      assert before + [] == before;
    }
  }

  /** Numbers below k, each greater than the one before. */
  ghost predicate Increasing(ns: seq<nat>, k: nat)
  {
    (forall i :: 0 <= i < |ns| ==> ns[i] < k) && forall i, j :: 0 <= i < j < |ns| ==> ns[i] < ns[j]
  }

  lemma {:induction false} NoSuchColumn(columns: seq<Column>, row: Row, k: nat, key: string)
    requires RowOk(columns, row) && k <= |columns| && forall c :: 0 <= c < |columns| ==> columns[c].name != key
    ensures ValuesOf(ColumnPairs(columns, row, k), key) == []
    decreases k
  {
    if k > 0 {
      NoSuchColumn(columns, row, k - 1, key);
      ValuesConcat(ColumnPairs(columns, row, k - 1), [ColumnPair(columns, row, k - 1)], key);
      assert [ColumnPair(columns, row, k - 1)][1..] == [];
    }
  }

  /** The ROW lines of a table carry the numbers of its keyed rows' slots, in increasing order. */
  lemma {:induction false} RowNumbers(t: Table, k: nat)
    requires TableOk(t) && k <= |t.rows| && forall c :: 0 <= c < |t.columns| ==> t.columns[c].name != "ROW"
    ensures var vs, ns := ValuesOf(RowsPairs(t, k), "ROW"), KeyedSlots(t, k);
            |vs| == |ns| && forall i :: 0 <= i < |ns| ==> vs[i] == Decimal(ns[i])
    decreases k
  {
    if k > 0 {
      RowNumbers(t, k - 1);
      ValuesConcat(RowsPairs(t, k - 1), SlotPairs(t, k - 1), "ROW");
      SlotNumber(t, k - 1);
    }
  }

  lemma SlotNumber(t: Table, n: nat)
    requires TableOk(t) && n < |t.rows| && forall c :: 0 <= c < |t.columns| ==> t.columns[c].name != "ROW"
    ensures ValuesOf(SlotPairs(t, n), "ROW") == if t.rows[n].Some? && Keyed(t.rows[n].value) then [Decimal(n)] else []
  {
    if t.rows[n].Some? && Keyed(t.rows[n].value) {
      LiveRow(t, n);
      var cols := ColumnPairs(t.columns, t.rows[n].value, |t.columns|);
      NoSuchColumn(t.columns, t.rows[n].value, |t.columns|, "ROW");
      assert SlotPairs(t, n)[0] == ("ROW", Decimal(n)) && SlotPairs(t, n)[1..] == cols;
    }
  }

  // ----- Writes that fail -----

  /**
   * A file being written: its text, what write answers to the next calls (-1, or how many bytes it
   * took; afterwards it takes everything), and whether dbSave still goes on.
   */
  datatype Sent = Sent(text: string, answers: seq<int>, ok: bool)

  /** A line to write, and whether it is a TABLE line. */
  datatype Entry = Entry(pair: Pair, table: bool)

  function Rest<T>(s: seq<T>): (r: seq<T>)
  {
    if s == [] then [] else s[1..]
  }

  /** What write answers to a line. */
  function Answer(answers: seq<int>, line: string): (n: int)
    ensures n <= |line|
  {
    if answers == [] then |line| else Min(answers[0], |line|)
  }

  /** One line written, as far as it went. Only a TABLE line may fail. */
  function Send(st: Sent, e: Entry): (r: Sent)
  {
    if !st.ok then st else
      var line := Line(e.pair);
      var n := Answer(st.answers, line);
      Sent(st.text + if n < 0 then "" else line[..n], Rest(st.answers), e.table || n >= 0)
  }

  ghost function SendAll(st: Sent, es: seq<Entry>): (r: Sent)
    decreases |es|
  {
    if es == [] then st else SendAll(Send(st, es[0]), es[1..])
  }

  lemma {:induction false} SendConcat(st: Sent, a: seq<Entry>, b: seq<Entry>)
    ensures SendAll(st, a + b) == SendAll(SendAll(st, a), b)
    decreases |a|
  {
    if a == [] {
      assert a + b == b;
    } else {
      assert (a + b)[1..] == a[1..] + b;
      SendConcat(Send(st, a[0]), a[1..], b);
    }
  }

  lemma {:induction false} SendStopped(st: Sent, es: seq<Entry>)
    requires !st.ok
    ensures SendAll(st, es) == st
  {
    if es != [] { SendStopped(st, es[1..]); }
  }

  lemma SendOne(st: Sent, e: Entry)
    ensures SendAll(st, [e]) == Send(st, e)
  {
    assert [e][1..] == [];
  }

  ghost function Entries(pairs: seq<Pair>): (es: seq<Entry>)
    ensures |es| == |pairs|
  {
    seq(|pairs|, i requires 0 <= i < |pairs| => Entry(pairs[i], false))
  }

  ghost function Pairs(es: seq<Entry>): (pairs: seq<Pair>)
    ensures |pairs| == |es|
  {
    seq(|es|, i requires 0 <= i < |es| => es[i].pair)
  }

  ghost function TableEntries(t: Table): (es: seq<Entry>)
    requires TableOk(t)
  {
    [Entry((KEYWORD_TABLE, t.name), true)] + Entries(RowsPairs(t, |t.rows|))
  }

  ghost function TablesEntries(tables: seq<Table>, k: nat): (es: seq<Entry>)
    requires TablesOk(tables) && k <= |tables|
    decreases k
  {
    if k == 0 then [] else
      assert TableOkAt(tables, k - 1);
      TablesEntries(tables, k - 1) + TableEntries(tables[k - 1])
  }

  lemma {:induction false} EntriesSpell(tables: seq<Table>, k: nat)
    requires TablesOk(tables) && k <= |tables|
    ensures Pairs(TablesEntries(tables, k)) == TablesPairs(tables, k)
    decreases k
  {
    if k > 0 {
      EntriesSpell(tables, k - 1);
      assert TableOkAt(tables, k - 1);
      TableSpelt(tables[k - 1]);
      PairsConcat(TablesEntries(tables, k - 1), TableEntries(tables[k - 1]));
    }
  }

  lemma TableSpelt(t: Table)
    requires TableOk(t)
    ensures Pairs(TableEntries(t)) == TablePairs(t)
  {
    PairsConcat([Entry((KEYWORD_TABLE, t.name), true)], Entries(RowsPairs(t, |t.rows|)));
    assert Pairs([Entry((KEYWORD_TABLE, t.name), true)]) == [(KEYWORD_TABLE, t.name)];
    PairsOf(RowsPairs(t, |t.rows|));
  }

  lemma PairsConcat(a: seq<Entry>, b: seq<Entry>)
    ensures Pairs(a + b) == Pairs(a) + Pairs(b)
  {
  }

  lemma PairsOf(pairs: seq<Pair>)
    ensures Pairs(Entries(pairs)) == pairs
  {
  }

  lemma EntriesConcat(a: seq<Pair>, b: seq<Pair>)
    ensures Entries(a + b) == Entries(a) + Entries(b)
  {
  }

  /** Write i is answered by -1 on a line that matters, */
  ghost predicate Fails(es: seq<Entry>, answers: seq<int>, i: nat)
    requires i < |es|
  {
    i < |answers| && answers[i] < 0 && !es[i].table
  }

  /** or takes less than its line. */
  ghost predicate Loses(es: seq<Entry>, answers: seq<int>, i: nat)
    requires i < |es|
  {
    i < |answers| && answers[i] < |Line(es[i].pair)|
  }

  ghost predicate NoneFails(es: seq<Entry>, answers: seq<int>)
  {
    forall i :: 0 <= i < |es| ==> !Fails(es, answers, i)
  }

  ghost predicate NoneLoses(es: seq<Entry>, answers: seq<int>)
  {
    forall i :: 0 <= i < |es| ==> !Loses(es, answers, i)
  }

  lemma FirstWrite(es: seq<Entry>, answers: seq<int>)
    requires es != []
    ensures NoneFails(es, answers) <==> !Fails(es, answers, 0) && NoneFails(es[1..], Rest(answers))
    ensures NoneLoses(es, answers) <==> !Loses(es, answers, 0) && NoneLoses(es[1..], Rest(answers))
  {
    var es', answers' := es[1..], Rest(answers);
    if NoneFails(es, answers) {
      forall i | 0 <= i < |es'| ensures !Fails(es', answers', i) { assert !Fails(es, answers, i + 1); }
    } else if !Fails(es, answers, 0) {
      var i :| 0 <= i < |es| && Fails(es, answers, i);
      assert Fails(es', answers', i - 1);
    }
    if NoneLoses(es, answers) {
      forall i | 0 <= i < |es'| ensures !Loses(es', answers', i) { assert !Loses(es, answers, i + 1); }
    } else if !Loses(es, answers, 0) {
      var i :| 0 <= i < |es| && Loses(es, answers, i);
      assert Loses(es', answers', i - 1);
    }
  }

  /** dbSave's loops end well exactly if no row or column line failed. */
  lemma {:induction false} SendReports(text: string, answers: seq<int>, es: seq<Entry>)
    ensures SendAll(Sent(text, answers, true), es).ok <==> NoneFails(es, answers)
    decreases |es|
  {
    if es != [] {
      FirstWrite(es, answers);
      var r := Send(Sent(text, answers, true), es[0]);
      if r.ok { SendReports(r.text, r.answers, es[1..]); } else { SendStopped(r, es[1..]); }
    }
  }

  /** What is written is all of the text exactly if no line lost anything; otherwise it is shorter. */
  lemma {:induction false} SendWrites(text: string, answers: seq<int>, es: seq<Entry>)
    ensures var r := SendAll(Sent(text, answers, true), es);
            if NoneLoses(es, answers) then r.text == text + FileText(Pairs(es)) else |r.text| < |text + FileText(Pairs(es))|
    decreases |es|
  {
    if es == [] {
      assert Pairs(es) == [] && text + "" == text;
    } else {
      FirstWrite(es, answers);
      var line, rest, r := Line(es[0].pair), FileText(Pairs(es[1..])), Send(Sent(text, answers, true), es[0]);
      assert Pairs(es)[1..] == Pairs(es[1..]);
      assert FileText(Pairs(es)) == line + rest;
      Regroup(text, line, rest);
      if r.ok { SendWrites(r.text, r.answers, es[1..]); } else { SendStopped(r, es[1..]); }
      if !Loses(es, answers, 0) { assert line[..|line|] == line && r.text == text + line; }
    }
  }

  // ----- The save -----

  /** Print a line into a buffer and write it. */
  method WriteKeyValue(st: Sent, key: string, value: string, ghost table: bool) returns (st': Sent)
    requires st.ok
    ensures st' == Send(st, Entry((key, value), false)) && (table ==> st'.(ok := true) == Send(st, Entry((key, value), true)))
  {
    var line := FormatKeyValue(key, value);
    var rc := Answer(st.answers, line);
    st' := Sent(st.text + if rc < 0 then "" else line[..rc], Rest(st.answers), rc >= 0);
  }

  method SaveColumn(st: Sent, column: Column, cell: Cell) returns (st': Sent)
    requires st.ok && CellOk(column, cell)
    ensures st' == Send(st, Entry((column.name, CellText(column, cell)), false))
  {
    var value := "(null)";
    if column.isString {
      if cell.Text? { value := cell.s; }
    } else {
      value := FormatInt(cell.n);
    }
    st' := WriteKeyValue(st, column.name, value, false);
  }

  method SaveRow(st: Sent, columns: seq<Column>, row: Row, n: nat) returns (st': Sent)
    requires st.ok && RowOk(columns, row) && IsInt(n)
    ensures st' == SendAll(st, Entries(RowPairs(columns, row, n)))
  {
    var num := FormatInt(n);
    var head := WriteKeyValue(st, KEYWORD_ROW, num, false);
    st' := SaveColumns(head, columns, row);
    EntriesConcat([(KEYWORD_ROW, num)], ColumnPairs(columns, row, |columns|));
    assert Entries([(KEYWORD_ROW, num)]) == [Entry((KEYWORD_ROW, num), false)];
    SendConcat(st, Entries([(KEYWORD_ROW, num)]), Entries(ColumnPairs(columns, row, |columns|)));
    SendOne(st, Entry((KEYWORD_ROW, num), false));
  }

  lemma ColumnSent(st: Sent, columns: seq<Column>, row: Row, c: nat)
    requires RowOk(columns, row) && c < |columns|
    ensures SendAll(st, Entries(ColumnPairs(columns, row, c + 1)))
         == Send(SendAll(st, Entries(ColumnPairs(columns, row, c))), Entry(ColumnPair(columns, row, c), false))
  {
    var p := ColumnPair(columns, row, c);
    EntriesConcat(ColumnPairs(columns, row, c), [p]);
    assert Entries([p]) == [Entry(p, false)];
    SendConcat(st, Entries(ColumnPairs(columns, row, c)), [Entry(p, false)]);
    SendOne(SendAll(st, Entries(ColumnPairs(columns, row, c))), Entry(p, false));
  }

  /** Once a line has failed, those that would follow change nothing. */
  lemma {:induction false} ColumnsStopped(st: Sent, columns: seq<Column>, row: Row, c: nat)
    requires RowOk(columns, row) && c <= |columns| && !SendAll(st, Entries(ColumnPairs(columns, row, c))).ok
    ensures SendAll(st, Entries(ColumnPairs(columns, row, |columns|))) == SendAll(st, Entries(ColumnPairs(columns, row, c)))
    decreases |columns| - c
  {
    if c < |columns| {
      ColumnSent(st, columns, row, c);
      ColumnsStopped(st, columns, row, c + 1);
    }
  }

  method SaveColumns(head: Sent, columns: seq<Column>, row: Row) returns (st: Sent)
    requires RowOk(columns, row)
    ensures st == SendAll(head, Entries(ColumnPairs(columns, row, |columns|)))
  {
    st := head;
    var c := 0;
    while c < |columns| && st.ok
      invariant 0 <= c <= |columns| && st == SendAll(head, Entries(ColumnPairs(columns, row, c)))
      decreases |columns| - c
    {
      assert CellOkAt(columns, row, c);
      ColumnSent(head, columns, row, c);
      st := SaveColumn(st, columns[c], row[c]);
      c := c + 1;
    }
    if !st.ok { ColumnsStopped(head, columns, row, c); }
  }

  method SaveSlot(st: Sent, t: Table, n: nat) returns (st': Sent)
    requires st.ok && TableOk(t) && CanSave(t) && n < |t.rows|
    ensures st' == SendAll(st, Entries(SlotPairs(t, n)))
  {
    st' := st;
    if t.rows[n].Some? && Keyed(t.rows[n].value) {
      LiveRow(t, n);
      st' := SaveRow(st, t.columns, t.rows[n].value, n);
    }
  }

  lemma SlotSent(st: Sent, t: Table, n: nat)
    requires TableOk(t) && n < |t.rows|
    ensures SendAll(st, Entries(RowsPairs(t, n + 1))) == SendAll(SendAll(st, Entries(RowsPairs(t, n))), Entries(SlotPairs(t, n)))
  {
    EntriesConcat(RowsPairs(t, n), SlotPairs(t, n));
    SendConcat(st, Entries(RowsPairs(t, n)), Entries(SlotPairs(t, n)));
  }

  lemma {:induction false} SlotsStopped(st: Sent, t: Table, n: nat)
    requires TableOk(t) && n <= |t.rows| && !SendAll(st, Entries(RowsPairs(t, n))).ok
    ensures SendAll(st, Entries(RowsPairs(t, |t.rows|))) == SendAll(st, Entries(RowsPairs(t, n)))
    decreases |t.rows| - n
  {
    if n < |t.rows| {
      SlotSent(st, t, n);
      SendStopped(SendAll(st, Entries(RowsPairs(t, n))), Entries(SlotPairs(t, n)));
      SlotsStopped(st, t, n + 1);
    }
  }

  /** A table's name and rows. Whether the name was written is not looked at. */
  method SaveTable(st: Sent, t: Table) returns (st': Sent)
    requires st.ok && TableOk(t) && CanSave(t)
    ensures st' == SendAll(st, TableEntries(t))
  {
    var head := WriteKeyValue(st, KEYWORD_TABLE, t.name, true);
    head := head.(ok := true);
    ghost var name := Entry((KEYWORD_TABLE, t.name), true);
    SendConcat(st, [name], Entries(RowsPairs(t, |t.rows|)));
    SendOne(st, name);
    st' := SaveRows(head, t);
  }

  method SaveRows(head: Sent, t: Table) returns (st: Sent)
    requires head.ok && TableOk(t) && CanSave(t)
    ensures st == SendAll(head, Entries(RowsPairs(t, |t.rows|)))
  {
    st := head;
    var row := 0;
    while row < |t.rows| && st.ok
      invariant 0 <= row <= |t.rows| && st == SendAll(head, Entries(RowsPairs(t, row)))
      decreases |t.rows| - row
    {
      SlotSent(head, t, row);
      st := SaveSlot(st, t, row);
      row := row + 1;
    }
    if !st.ok { SlotsStopped(head, t, row); }
  }

  method SaveTables(db: Database, answers: seq<int>) returns (st: Sent)
    requires db.Valid() && forall i :: 0 <= i < |db.tables| ==> CanSave(db.tables[i])
    ensures st == SendAll(Sent("", answers, true), TablesEntries(db.tables, |db.tables|))
  {
    st := SendTables(db.tables, Sent("", answers, true));
  }

  method SendTables(tables: seq<Table>, start: Sent) returns (st: Sent)
    requires TablesOk(tables) && forall i :: 0 <= i < |tables| ==> CanSave(tables[i])
    ensures st == SendAll(start, TablesEntries(tables, |tables|))
  {
    st := start;
    var tid := 0;
    while tid < |tables| && st.ok
      invariant 0 <= tid <= |tables| && st == SendAll(start, TablesEntries(tables, tid))
      decreases |tables| - tid
    {
      TableSent(start, tables, tid);
      st := SaveTable(st, tables[tid]);
      tid := tid + 1;
    }
    if !st.ok { TablesStopped(start, tables, tid); }
  }

  lemma TableSent(st: Sent, tables: seq<Table>, k: nat)
    requires TablesOk(tables) && k < |tables|
    ensures TableOk(tables[k])
    ensures SendAll(st, TablesEntries(tables, k + 1)) == SendAll(SendAll(st, TablesEntries(tables, k)), TableEntries(tables[k]))
  {
    assert TableOkAt(tables, k);
    SendConcat(st, TablesEntries(tables, k), TableEntries(tables[k]));
  }

  lemma {:induction false} TablesStopped(st: Sent, tables: seq<Table>, k: nat)
    requires TablesOk(tables) && k <= |tables| && !SendAll(st, TablesEntries(tables, k)).ok
    ensures SendAll(st, TablesEntries(tables, |tables|)) == SendAll(st, TablesEntries(tables, k))
    decreases |tables| - k
  {
    if k < |tables| {
      TableSent(st, tables, k);
      SendStopped(SendAll(st, TablesEntries(tables, k)), TableEntries(tables[k]));
      TablesStopped(st, tables, k + 1);
    }
  }

  /** The data file and the temporary file, where they exist. */
  datatype Disk = Disk(data: Option<string>, temp: Option<string>)

  /**
   * Write every table and its keyed rows to a temporary file, and put it in the place of the data
   * file. The data file is removed before the other is renamed.
   */
  method Save(db: Database, disk: Disk, opens: bool, answers: seq<int>, renames: bool) returns (rc: int, disk': Disk)
    requires db.Valid() && forall i :: 0 <= i < |db.tables| ==> CanSave(db.tables[i])
    ensures var es := TablesEntries(db.tables, |db.tables|);
            && (rc == 0 <==> opens && renames && NoneFails(es, answers))
            && (rc == 0 ==>
                  && disk'.data.Some? && disk'.temp.None?
                  && if NoneLoses(es, answers) then disk'.data.value == FileText(TablesPairs(db.tables, |db.tables|))
                     else |disk'.data.value| < |FileText(TablesPairs(db.tables, |db.tables|))|)
            && (rc != 0 ==> rc == -1 && disk'.data == if opens && NoneFails(es, answers) then None else disk.data)
  {
    if !opens {
      return -1, disk;
    }
    ghost var es := TablesEntries(db.tables, |db.tables|);
    var st := SaveTables(db, answers);
    SendReports("", answers, es);
    SendWrites("", answers, es);
    EntriesSpell(db.tables, |db.tables|);
    assert "" + FileText(TablesPairs(db.tables, |db.tables|)) == FileText(TablesPairs(db.tables, |db.tables|));
    disk' := disk.(temp := Some(st.text));
    rc := if st.ok then 0 else -1;
    if rc == 0 {
      disk' := disk'.(data := None);
      if renames {
        disk' := Disk(disk'.temp, None);
      } else {
        rc := -1;
      }
    }
  }

  /** A TABLE line that is not written goes unnoticed: the save reports success, and the text is not all there. */
  lemma LostTableLine(t: Table)
    requires TableOk(t)
    ensures var es, r := TableEntries(t), SendAll(Sent("", [-1], true), TableEntries(t));
            r.ok && |r.text| < |FileText(Pairs(es))|
  {
    var es := TableEntries(t);
    SendReports("", [-1], es);
    SendWrites("", [-1], es);
    assert Loses(es, [-1], 0);
  }

  // ----- Loading -----

  /** The state of a load: the tables, the current table and the current row. */
  datatype Loader = Loader(tables: seq<Table>, tablename: Option<string>, tid: int, row: int)

  ghost predicate LoaderOk(st: Loader)
  {
    && TablesOk(st.tables) && -1 <= st.tid < |st.tables| && -1 <= st.row
    && (st.tid >= 0 ==> st.tablename.Some? && TableId(st.tables, st.tablename.value) == st.tid)
  }

  ghost function WithTable(st: Loader, t: Table): (r: Loader)
    requires LoaderOk(st) && st.tid >= 0 && TableOk(t) && t.name == st.tables[st.tid].name
    ensures LoaderOk(r)
  {
    TableIdKept(st.tables, st.tid, t, st.tablename.value);
    TablesKept(st.tables, st.tid, t);
    st.(tables := st.tables[st.tid := t])
  }

  /** The cell a value is read into. */
  ghost function ReadCell(column: Column, value: string): (cell: Cell)
    ensures CellOk(column, cell)
  {
    if column.isString then Text(value) else Word(ReadInt(value))
  }

  ghost function LoadColumn(st: Loader, key: string, value: string): (r: Loader)
    requires LoaderOk(st)
    ensures LoaderOk(r)
  {
    if st.row == -1 || st.tid < 0 then st else
      var t := st.tables[st.tid];
      var c := ColumnIndex(t.columns, key);
      if c < 0 || !LiveAt(t, st.row) then st else
        assert TableOkAt(st.tables, st.tid);
        WrittenOk(t, st.row, c, ReadCell(t.columns[c], value));
        WithTable(st, Written(t, st.row, c, ReadCell(t.columns[c], value)))
  }

  /** One key=value line. */
  ghost function LoadPair(st: Loader, p: Pair): (r: Loader)
    requires LoaderOk(st)
    ensures LoaderOk(r)
  {
    if p.0 == KEYWORD_TABLE then st.(tablename := Some(p.1), tid := TableId(st.tables, p.1))
    else if p.0 == KEYWORD_ROW then
      if st.tid < 0 then st else
        var t := st.tables[st.tid];
        assert TableOkAt(st.tables, st.tid);
        WithTable(st, Grown(t, |t.rows| + 1)).(row := |t.rows|)
    else LoadColumn(st, p.0, p.1)
  }

  ghost function LoadLine(st: Loader, line: string): (r: Loader)
    requires LoaderOk(st)
    ensures LoaderOk(r)
  {
    match Crack(line)
    case None => st
    case Some(p) => LoadPair(st, p)
  }

  ghost function LoadLines(st: Loader, lines: seq<string>): (r: Loader)
    requires LoaderOk(st)
    ensures LoaderOk(r)
    decreases |lines|
  {
    if lines == [] then st else LoadLines(LoadLine(st, lines[0]), lines[1..])
  }

  ghost function Start(tables: seq<Table>): (st: Loader)
  {
    Loader(tables, None, -1, -1)
  }

  /** A column line: write the value if the column and the row are there. */
  method LoadColumnLine(db: Database, tablename: string, tid: nat, row: int, key: string, value: string)
    requires db.Valid() && row != -1 && LoaderOk(Loader(db.tables, Some(tablename), tid, row))
    modifies db
    ensures Loader(db.tables, Some(tablename), tid, row)
         == LoadColumn(Loader(old(db.tables), Some(tablename), tid, row), key, value)
  {
    var c := db.GetColumnIndex(tid, key);
    if c >= 0 {
      if db.tables[tid].columns[c].isString {
        var _ := db.WriteStr(tablename, key, row, value);
      } else {
        var n := Gstrtoi(value);
        var _ := db.WriteInt(tablename, key, row, n);
      }
    }
  }

  /** A ROW line: one more row in the current table. */
  method LoadRowLine(db: Database, tablename: string, tid: nat, row: int) returns (row': int)
    requires db.Valid() && LoaderOk(Loader(db.tables, Some(tablename), tid, row))
    modifies db
    ensures db.Valid() && row' == |old(db.tables)[tid].rows|
    ensures db.tables == old(db.tables)[tid := Grown(old(db.tables)[tid], row' + 1)]
  {
    row' := row;
    var nRows := db.GetTableNrow(tablename);
    var rc := db.SetTableNrow(tablename, nRows + 1);
    if rc == 0 {
      row' := nRows;
    }
  }

  /** One line of the file. */
  method LoadOne(db: Database, tablename: Option<string>, tid: int, row: int, line: string)
    returns (tablename': Option<string>, tid': int, row': int)
    requires db.Valid() && LoaderOk(Loader(db.tables, tablename, tid, row))
    modifies db
    ensures Loader(db.tables, tablename', tid', row') == LoadLine(Loader(old(db.tables), tablename, tid, row), line)
  {
    tablename', tid', row' := tablename, tid, row;
    var cracked := Crack(line);
    if cracked.None? {
      return;
    }
    var (key, value) := cracked.value;
    if key == KEYWORD_TABLE {
      tablename' := Some(value);
      tid' := db.GetTableId(value);
    } else if key == KEYWORD_ROW {
      if tid >= 0 {
        row' := LoadRowLine(db, tablename.value, tid, row);
      }
    } else if row != -1 && tid >= 0 {
      LoadColumnLine(db, tablename.value, tid, row, key, value);
    }
  }

  /** A load ends with a code, or at a line that is not there. */
  datatype LoadResult = Answered(rc: int) | NullLine

  /**
   * Read a file's text, cutting its lines apart in place. Of a text that has only line feeds there is
   * no first line, and the code reads it through a null pointer.
   */
  method Load(db: Database, text: string) returns (r: LoadResult)
    requires db.Valid() && NulFree(text)
    modifies db
    ensures db.Valid() && r == if text == "" then Answered(-1) else if Pieces(text, '\n') == [] then NullLine else Answered(0)
    ensures db.tables == LoadLines(Start(old(db.tables)), Pieces(text, '\n')).tables
  {
    if |text| <= 0 {
      return Answered(-1);
    }
    var buf := new char[|text| + 1](i requires 0 <= i <= |text| => if i < |text| then text[i] else '\0');
    assert Cut(buf[..], text, '\n', 0);
    var tablename, tid, row := None, -1, -1;
    ghost var all := LoadLines(Start(db.tables), Pieces(text, '\n'));
    var token, save := Strtok(buf, 0, '\n', text);
    assert text[0..] == text;
    if token.None? {
      return NullLine;
    }
    while token.Some?
      invariant fresh(buf) && Cut(buf[..], text, '\n', save)
      invariant LoaderOk(Loader(db.tables, tablename, tid, row))
      invariant all == LoadLines(Loader(db.tables, tablename, tid, row),
                                 if token.None? then [] else [token.value] + Pieces(text[save..], '\n'))
      decreases if token.None? then 0 else 1 + |Pieces(text[save..], '\n')|
    {
      assert ([token.value] + Pieces(text[save..], '\n'))[1..] == Pieces(text[save..], '\n');
      tablename, tid, row := LoadOne(db, tablename, tid, row, token.value);
      token, save := Strtok(buf, save, '\n', text);
    }
    r := Answered(0);
  }

  // ----- What can be saved and loaded again -----

  /** A pair whose line gives the pair back. */
  predicate CleanPair(p: Pair)
  {
    Plain(p.0) && '=' !in p.0 && Plain(p.1) && Fits(p)
  }

  predicate CleanAt(pairs: seq<Pair>, i: nat)
    requires i < |pairs|
  {
    CleanPair(pairs[i])
  }

  ghost predicate CleanPairs(pairs: seq<Pair>)
  {
    forall i :: 0 <= i < |pairs| ==> CleanAt(pairs, i)
  }

  lemma CleanConcat(a: seq<Pair>, b: seq<Pair>)
    requires CleanPairs(a) && CleanPairs(b)
    ensures CleanPairs(a + b)
  {
    var ab := a + b;
    forall i | 0 <= i < |ab|
      ensures CleanAt(ab, i)
    {
      assert if i < |a| then CleanAt(a, i) else CleanAt(b, i - |a|);
    }
  }

  lemma CleanOne(p: Pair)
    requires CleanPair(p)
    ensures CleanPairs([p])
  {
    var one := [p];
    assert forall i :: 0 <= i < |one| ==> CleanAt(one, i);
  }

  /** A name that can stand before the =, and is no keyword. */
  predicate ColumnName(s: string)
  {
    Plain(s) && '=' !in s && s != KEYWORD_TABLE && s != KEYWORD_ROW
  }

  /** A column with a usable name, which no column before it has. */
  predicate CleanColumn(columns: seq<Column>, c: nat)
    requires c < |columns|
  {
    ColumnName(columns[c].name) && ColumnIndex(columns, columns[c].name) == c
  }

  ghost predicate CleanColumns(columns: seq<Column>)
  {
    forall c :: 0 <= c < |columns| ==> CleanColumn(columns, c)
  }

  /** A cell that its printed text stands for: no missing string, no line end or leading space, not too long. */
  ghost predicate CleanCell(columns: seq<Column>, row: Row, c: nat)
    requires RowOk(columns, row) && c < |columns|
  {
    && (columns[c].isString ==> row[c].Text? && Plain(row[c].s))
    && Fits(ColumnPair(columns, row, c))
  }

  ghost predicate CleanRow(columns: seq<Column>, row: Row)
  {
    RowOk(columns, row) && forall c :: 0 <= c < |columns| ==> CleanCell(columns, row, c)
  }

  ghost predicate CleanSlot(t: Table, i: nat)
    requires i < |t.rows|
  {
    t.rows[i].Some? && Keyed(t.rows[i].value) ==> CleanRow(t.columns, t.rows[i].value)
  }

  ghost predicate CleanTable(t: Table)
  {
    && TableOk(t) && CanSave(t) && Plain(t.name) && Fits((KEYWORD_TABLE, t.name)) && CleanColumns(t.columns)
    && forall i :: 0 <= i < |t.rows| ==> CleanSlot(t, i)
  }

  /** A clean table that is found by its name. */
  ghost predicate CleanTableAt(tables: seq<Table>, i: nat)
    requires i < |tables|
  {
    CleanTable(tables[i]) && TableId(tables, tables[i].name) == i
  }

  ghost predicate CleanTables(tables: seq<Table>)
  {
    TablesOk(tables) && forall i :: 0 <= i < |tables| ==> CleanTableAt(tables, i)
  }

  // ----- From text back to pairs -----

  lemma WholeLine(p: Pair, line: string)
    requires line == p.0 + "=" + p.1 && '\n' !in p.0 && '\n' !in p.1 && Fits(p)
    ensures Line(p) == line + "\n" && line != "" && '\n' !in line
  {
    assert line[|p.0|] == '=';
  }

  lemma CleanLine(p: Pair) returns (line: string)
    requires CleanPair(p)
    ensures Line(p) == line + "\n" && line != "" && '\n' !in line && Crack(line) == Some(p)
  {
    line := p.0 + "=" + p.1;
    WholeLine(p, line);
    CrackReturns(p.0, p.1);
  }

  ghost function LoadPairs(st: Loader, pairs: seq<Pair>): (r: Loader)
    requires LoaderOk(st)
    ensures LoaderOk(r)
    decreases |pairs|
  {
    if pairs == [] then st else LoadPairs(LoadPair(st, pairs[0]), pairs[1..])
  }

  lemma {:induction false} LoadPairsConcat(st: Loader, a: seq<Pair>, b: seq<Pair>)
    requires LoaderOk(st)
    ensures LoadPairs(st, a + b) == LoadPairs(LoadPairs(st, a), b)
    decreases |a|
  {
    if a == [] {
      assert a + b == b;
    } else {
      assert (a + b)[1..] == a[1..] + b;
      LoadPairsConcat(LoadPair(st, a[0]), a[1..], b);
    }
  }

  datatype Reading = Reading(st: Loader, pairs: seq<Pair>)

  ghost function LoadAll(r: Reading): (st: Loader)
  {
    if LoaderOk(r.st) then LoadPairs(r.st, r.pairs) else r.st
  }

  /** LoadPairs, sealed. */
  ghost function Loaded(depth: nat, st: Loader, pairs: seq<Pair>): (r: Loader)
    requires LoaderOk(st)
    ensures LoaderOk(r)
  {
    LoadedIs(depth, st, pairs);
    Sealed(depth, LoadAll, Reading(st, pairs))
  }

  lemma LoadedIs(depth: nat, st: Loader, pairs: seq<Pair>)
    requires LoaderOk(st)
    ensures Sealed(depth, LoadAll, Reading(st, pairs)) == LoadPairs(st, pairs)
  {
    SealedIs(depth, LoadAll, Reading(st, pairs));
  }

  lemma LoadedConcat(depth: nat, st: Loader, a: seq<Pair>, b: seq<Pair>)
    requires LoaderOk(st)
    ensures Loaded(depth, st, a + b) == Loaded(depth, Loaded(depth, st, a), b)
  {
    LoadPairsConcat(st, a, b);
    LoadedIs(depth, st, a);
    LoadedIs(depth, st, a + b);
    LoadedIs(depth, LoadPairs(st, a), b);
  }

  lemma LoadedOne(depth: nat, st: Loader, p: Pair)
    requires LoaderOk(st)
    ensures Loaded(depth, st, [p]) == LoadPair(st, p)
  {
    assert [p][1..] == [];
    assert LoadPairs(LoadPair(st, p), []) == LoadPair(st, p);
    LoadedIs(depth, st, [p]);
  }

  lemma LoadedNone(depth: nat, st: Loader)
    requires LoaderOk(st)
    ensures Loaded(depth, st, []) == st
  {
    LoadedIs(depth, st, []);
  }

  /** Clean pairs are read from their text as they were written. */
  lemma {:induction false} TextLoads(st: Loader, pairs: seq<Pair>)
    requires LoaderOk(st) && CleanPairs(pairs)
    ensures LoadLines(st, Pieces(FileText(pairs), '\n')) == LoadPairs(st, pairs)
    decreases |pairs|
  {
    if pairs != [] {
      var p, rest := pairs[0], pairs[1..];
      assert CleanAt(pairs, 0) && forall i :: 0 <= i < |rest| && CleanAt(pairs, i + 1) ==> CleanAt(rest, i);
      var line := CleanLine(p);
      var text := FileText(rest);
      assert FileText(pairs) == line + "\n" + text;
      PiecesLine(line, text, '\n');
      assert ([line] + Pieces(text, '\n'))[1..] == Pieces(text, '\n');
      TextLoads(LoadPair(st, p), rest);
    }
  }

  // ----- Loading a row -----

  /** A loader whose current table is t. */
  ghost predicate At(st: Loader, tid: nat, t: Table)
  {
    LoaderOk(st) && st.tid == tid && tid < |st.tables| && st.tables[tid] == t
  }

  lemma DecimalIsClean(v: int)
    requires IsInt(v)
    ensures Plain(Decimal(v)) && |Decimal(v)| <= 11
  {
    Pow10Grows(9, 10);
    DigitsLength(if v >= 0 then v else 0 - v, 10);
    AtoiReads(v);
  }

  /** Printing a clean cell and reading it gives the cell, by way of a clean line. */
  lemma CellRoundTrip(columns: seq<Column>, row: Row, c: nat)
    requires RowOk(columns, row) && c < |columns| && CleanCell(columns, row, c)
    ensures ReadCell(columns[c], ColumnPair(columns, row, c).1) == row[c]
    ensures Plain(ColumnPair(columns, row, c).1)
  {
    assert CellOkAt(columns, row, c);
    if !columns[c].isString {
      IntRoundTrip(row[c].n);
      DecimalIsClean(row[c].n);
    }
  }

  /** A missing string is not restored: it comes back as the text (null). */
  lemma MissingStringChanges(column: Column)
    requires column.isString
    ensures ReadCell(column, CellText(column, NULL)) == Text("(null)") != NULL
  {
  }

  ghost function Partial(row: Row, k: nat): (r: Row)
    requires k <= |row|
    ensures |r| == |row|
  {
    row[..k] + ZeroRow(|row| - k)
  }

  lemma PartialStep(row: Row, k: nat)
    requires k < |row|
    ensures Partial(row, k)[k := row[k]] == Partial(row, k + 1)
  {
  }

  /** One column line fills one more cell of the last row. */
  lemma ColumnLoads(st: Loader, tid: nat, t: Table, row: Row, k: nat, rows: seq<Option<Row>>)
    requires CleanColumns(t.columns) && CleanRow(t.columns, row) && k < |t.columns|
    requires At(st, tid, t.(rows := rows + [Some(Partial(row, k))])) && st.row == |rows|
    ensures LoadPair(st, ColumnPair(t.columns, row, k))
         == st.(tables := st.tables[tid := t.(rows := rows + [Some(Partial(row, k + 1))])])
  {
    var t' := st.tables[tid];
    assert CleanColumn(t.columns, k) && CleanCell(t.columns, row, k);
    CellRoundTrip(t.columns, row, k);
    PartialStep(row, k);
    assert Written(t', |rows|, k, row[k]).rows == rows + [Some(Partial(row, k + 1))];
  }

  lemma ColumnsStep(depth: nat, st: Loader, before: seq<Pair>, tid: nat, t: Table, row: Row, k: nat, rows: seq<Option<Row>>)
    requires CleanColumns(t.columns) && CleanRow(t.columns, row) && k < |t.columns|
    requires LoaderOk(st) && tid < |st.tables| && st.tid == tid && st.row == |rows|
    requires Loaded(depth, st, before) == st.(tables := st.tables[tid := t.(rows := rows + [Some(Partial(row, k))])])
    ensures Loaded(depth, st, before + [ColumnPair(t.columns, row, k)])
         == st.(tables := st.tables[tid := t.(rows := rows + [Some(Partial(row, k + 1))])])
  {
    var st1, p := Loaded(depth, st, before), ColumnPair(t.columns, row, k);
    LoadedConcat(depth, st, before, [p]);
    LoadedOne(depth, st1, p);
    ColumnLoads(st1, tid, t, row, k, rows);
  }

  lemma {:induction false} ColumnsLoad(depth: nat, st: Loader, tid: nat, t: Table, row: Row, k: nat, rows: seq<Option<Row>>)
    requires CleanColumns(t.columns) && CleanRow(t.columns, row) && k <= |t.columns|
    requires At(st, tid, t.(rows := rows + [Some(Partial(row, 0))])) && st.row == |rows|
    ensures Loaded(depth, st, ColumnPairs(t.columns, row, k))
         == st.(tables := st.tables[tid := t.(rows := rows + [Some(Partial(row, k))])])
    decreases k
  {
    if k == 0 {
      LoadedNone(depth, st);
    } else {
      ColumnsLoad(depth, st, tid, t, row, k - 1, rows);
      ColumnsStep(depth, st, ColumnPairs(t.columns, row, k - 1), tid, t, row, k - 1, rows);
    }
  }

  ghost predicate AllLive(rows: seq<Option<Row>>)
  {
    forall i :: 0 <= i < |rows| ==> rows[i].Some?
  }

  /** The lines of a clean row append the row to its table. */
  lemma RowLoads(depth: nat, st: Loader, tid: nat, t: Table, row: Row, n: nat, rows: seq<Option<Row>>)
    requires CleanColumns(t.columns) && CleanRow(t.columns, row) && AllLive(rows)
    requires At(st, tid, t.(rows := rows))
    ensures Loaded(depth, st, RowPairs(t.columns, row, n))
         == st.(tables := st.tables[tid := t.(rows := rows + [Some(row)])], row := |rows|)
  {
    var p, cols := (KEYWORD_ROW, Decimal(n)), ColumnPairs(t.columns, row, |t.columns|);
    var st1 := LoadPair(st, p);
    GrownByOne(t.(rows := rows));
    assert Partial(row, 0) == ZeroRow(|t.columns|);
    assert st1 == st.(tables := st.tables[tid := t.(rows := rows + [Some(Partial(row, 0))])], row := |rows|);
    LoadedConcat(depth, st, [p], cols);
    LoadedOne(depth, st, p);
    ColumnsLoad(depth, st1, tid, t, row, |t.columns|, rows);
    assert Partial(row, |row|) == row;
  }

  // ----- Loading the tables -----

  /** The keyed live rows, in order, without gaps. */
  ghost function Compact(rows: seq<Option<Row>>): (r: seq<Option<Row>>)
    ensures AllLive(r)
  {
    if rows == [] then [] else
      var init, last := rows[..|rows| - 1], rows[|rows| - 1];
      Compact(init) + if last.Some? && Keyed(last.value) then [last] else []
  }

  ghost function Compacted(t: Table): (r: Table)
  {
    t.(rows := Compact(t.rows))
  }

  lemma CompactStep(rows: seq<Option<Row>>, k: nat)
    requires k < |rows|
    ensures Compact(rows[..k + 1]) == Compact(rows[..k]) + if rows[k].Some? && Keyed(rows[k].value) then [rows[k]] else []
  {
    assert rows[..k + 1][..k] == rows[..k];
  }

  /** The lines of one row slot append its row, if it has a key. */
  lemma SlotLoads(depth: nat, st: Loader, tid: nat, t: Table, n: nat, rows: seq<Option<Row>>, rows': seq<Option<Row>>)
    requires CleanTable(t) && n < |t.rows| && AllLive(rows) && At(st, tid, t.(rows := rows))
    requires rows' == rows + if t.rows[n].Some? && Keyed(t.rows[n].value) then [t.rows[n]] else []
    ensures Loaded(depth, st, SlotPairs(t, n)).tables == st.tables[tid := t.(rows := rows')]
    ensures At(Loaded(depth, st, SlotPairs(t, n)), tid, t.(rows := rows'))
  {
    if t.rows[n].Some? && Keyed(t.rows[n].value) {
      assert CleanSlot(t, n);
      RowLoads(depth, st, tid, t, t.rows[n].value, n, rows);
    } else {
      LoadedNone(depth, st);
      assert rows' == rows;
      assert st.tables[tid := t.(rows := rows)] == st.tables;
    }
  }

  lemma RowsStep(depth: nat, st: Loader, before: seq<Pair>, tid: nat, t: Table, n: nat,
                 rows: seq<Option<Row>>, rows': seq<Option<Row>>)
    requires CleanTable(t) && n < |t.rows| && AllLive(rows) && LoaderOk(st) && tid < |st.tables|
    requires rows' == rows + if t.rows[n].Some? && Keyed(t.rows[n].value) then [t.rows[n]] else []
    requires Loaded(depth, st, before).tables == st.tables[tid := t.(rows := rows)]
    requires At(Loaded(depth, st, before), tid, t.(rows := rows))
    ensures Loaded(depth, st, before + SlotPairs(t, n)).tables == st.tables[tid := t.(rows := rows')]
    ensures At(Loaded(depth, st, before + SlotPairs(t, n)), tid, t.(rows := rows'))
  {
    LoadedConcat(depth, st, before, SlotPairs(t, n));
    SlotLoads(depth, Loaded(depth, st, before), tid, t, n, rows, rows');
  }

  lemma NoRowsLoad(depth: nat, st: Loader, tid: nat, t: Table)
    requires At(st, tid, t.(rows := []))
    ensures Loaded(depth, st, []).tables == st.tables[tid := t.(rows := [])] && At(Loaded(depth, st, []), tid, t.(rows := []))
  {
    LoadedNone(depth, st);
    assert st.tables[tid := t.(rows := [])] == st.tables;
  }

  lemma {:induction false} RowsLoad(depth: nat, st: Loader, tid: nat, t: Table, k: nat)
    requires CleanTable(t) && k <= |t.rows| && At(st, tid, t.(rows := []))
    ensures Loaded(depth, st, RowsPairs(t, k)).tables == st.tables[tid := t.(rows := Compact(t.rows[..k]))]
    ensures At(Loaded(depth, st, RowsPairs(t, k)), tid, t.(rows := Compact(t.rows[..k])))
    decreases k
  {
    if k == 0 {
      NoRowsLoad(depth, st, tid, t);
      assert t.rows[..0] == [];
    } else {
      var before, after := Compact(t.rows[..k - 1]), Compact(t.rows[..k]);
      RowsLoad(depth, st, tid, t, k - 1);
      CompactStep(t.rows, k - 1);
      RowsStep(depth, st, RowsPairs(t, k - 1), tid, t, k - 1, before, after);
    }
  }

  /** The first k tables compacted, the others empty. */
  ghost function Restored(tables: seq<Table>, k: nat): (r: seq<Table>)
  {
    seq(|tables|, i requires 0 <= i < |tables| => if i < k then Compacted(tables[i]) else tables[i].(rows := []))
  }

  lemma RestoredNext(tables: seq<Table>, k: nat)
    requires k < |tables|
    ensures |Restored(tables, k)| == |tables| && Restored(tables, k)[k] == tables[k].(rows := [])
    ensures Restored(tables, k)[k := Compacted(tables[k])] == Restored(tables, k + 1)
    ensures forall i :: 0 <= i < |tables| ==> Restored(tables, k)[i].name == tables[i].name
  {
  }

  lemma TableLoads(depth: nat, st: Loader, tables: seq<Table>, k: nat, t: Table)
    requires k < |tables| && t == tables[k] && CleanTable(t) && CleanTableAt(tables, k)
    requires LoaderOk(st) && st.tables == Restored(tables, k)
    ensures Loaded(depth, st, TablePairs(t)).tables == Restored(tables, k + 1)
  {
    var p := (KEYWORD_TABLE, t.name);
    var st1 := LoadPair(st, p);
    RestoredNext(tables, k);
    assert TableId(st.tables, t.name) == k by {
      assert st.tables[k].name == t.name;
      assert forall i :: 0 <= i < k ==> tables[i].name != t.name && st.tables[i].name == tables[i].name;
    }
    LoadedConcat(depth, st, [p], RowsPairs(t, |t.rows|));
    LoadedOne(depth, st, p);
    RowsLoad(depth, st1, k, t, |t.rows|);
    assert t.rows[..|t.rows|] == t.rows;
  }

  lemma TablesStep(depth: nat, st: Loader, pairs: seq<Pair>, tables: seq<Table>, k: nat, t: Table)
    requires k < |tables| && t == tables[k] && CleanTable(t) && CleanTableAt(tables, k)
    requires LoaderOk(st) && Loaded(depth, st, pairs).tables == Restored(tables, k)
    ensures Loaded(depth, st, pairs + TablePairs(t)).tables == Restored(tables, k + 1)
  {
    LoadedConcat(depth, st, pairs, TablePairs(t));
    TableLoads(depth, Loaded(depth, st, pairs), tables, k, t);
  }

  lemma {:induction false} TablesLoad(depth: nat, st: Loader, tables: seq<Table>, k: nat)
    requires CleanTables(tables) && k <= |tables|
    requires LoaderOk(st) && st.tables == Restored(tables, 0)
    ensures Loaded(depth, st, TablesPairs(tables, k)).tables == Restored(tables, k)
    decreases k
  {
    if k == 0 {
      LoadedNone(depth, st);
    } else {
      TablesLoad(depth, st, tables, k - 1);
      assert TableOkAt(tables, k - 1) && CleanTableAt(tables, k - 1);
      TablesStep(depth, st, TablesPairs(tables, k - 1), tables, k - 1, tables[k - 1]);
    }
  }

  // ----- All lines are clean -----

  lemma ColumnPairClean(columns: seq<Column>, row: Row, c: nat)
    requires CleanColumns(columns) && CleanRow(columns, row) && c < |columns|
    ensures CleanPairs([ColumnPair(columns, row, c)])
  {
    assert CleanColumn(columns, c) && CleanCell(columns, row, c);
    CellRoundTrip(columns, row, c);
    CleanOne(ColumnPair(columns, row, c));
  }

  lemma {:induction false} ColumnPairsClean(columns: seq<Column>, row: Row, k: nat)
    requires CleanColumns(columns) && CleanRow(columns, row) && k <= |columns|
    ensures CleanPairs(ColumnPairs(columns, row, k))
    decreases k
  {
    if k > 0 {
      ColumnPairsClean(columns, row, k - 1);
      ColumnPairClean(columns, row, k - 1);
      CleanConcat(ColumnPairs(columns, row, k - 1), [ColumnPair(columns, row, k - 1)]);
    }
  }

  lemma {:induction false} RowsPairsClean(t: Table, k: nat)
    requires CleanTable(t) && k <= |t.rows|
    ensures CleanPairs(RowsPairs(t, k))
    decreases k
  {
    if k > 0 {
      RowsPairsClean(t, k - 1);
      if t.rows[k - 1].Some? && Keyed(t.rows[k - 1].value) {
        assert CleanSlot(t, k - 1);
        ColumnPairsClean(t.columns, t.rows[k - 1].value, |t.columns|);
        DecimalIsClean(k - 1);
        CleanOne((KEYWORD_ROW, Decimal(k - 1)));
        CleanConcat([(KEYWORD_ROW, Decimal(k - 1))], ColumnPairs(t.columns, t.rows[k - 1].value, |t.columns|));
      }
      CleanConcat(RowsPairs(t, k - 1), SlotPairs(t, k - 1));
    }
  }

  lemma {:induction false} TablesPairsClean(tables: seq<Table>, k: nat)
    requires CleanTables(tables) && k <= |tables|
    ensures CleanPairs(TablesPairs(tables, k))
    decreases k
  {
    if k > 0 {
      TablesPairsClean(tables, k - 1);
      assert CleanTableAt(tables, k - 1);
      var t := tables[k - 1];
      CleanOne((KEYWORD_TABLE, t.name));
      RowsPairsClean(t, |t.rows|);
      CleanConcat([(KEYWORD_TABLE, t.name)], RowsPairs(t, |t.rows|));
      CleanConcat(TablesPairs(tables, k - 1), TablePairs(t));
    }
  }

  /**
   * Saving clean tables, clearing the database and loading the text restores every keyed row, in
   * order and without gaps.
   */
  lemma SaveLoad(tables: seq<Table>)
    requires CleanTables(tables) && TablesOk(Zeroed(tables))
    ensures LoadLines(Start(Zeroed(tables)), Pieces(FileText(TablesPairs(tables, |tables|)), '\n')).tables
         == Restored(tables, |tables|)
  {
    TablesPairsClean(tables, |tables|);
    TextLoads(Start(Zeroed(tables)), TablesPairs(tables, |tables|));
    assert Zeroed(tables) == Restored(tables, 0);
    TablesLoad(0, Start(Zeroed(tables)), tables, |tables|);
    LoadedIs(0, Start(Zeroed(tables)), TablesPairs(tables, |tables|));
  }

  /** The same for the operations: dbSave, dbZero and dbLoad in turn. */
  method SaveZeroLoad(db: Database) returns (text: string)
    requires db.Valid() && CleanTables(db.tables) && db.tables != [] && NulFree(FileText(TablesPairs(db.tables, |db.tables|)))
    modifies db
    ensures db.Valid() && db.tables == Restored(old(db.tables), |old(db.tables)|)
  {
    ghost var was := db.tables;
    assert forall i :: 0 <= i < |was| && CleanTableAt(was, i) ==> CanSave(was[i]);
    var rc, disk := Save(db, Disk(None, None), true, [], true);
    text := disk.data.value;
    db.Zero();
    SaveLoad(was);
    SavedLines(was);
    var result := Load(db, text);
  }

  lemma SavedLines(tables: seq<Table>)
    requires CleanTables(tables) && tables != []
    ensures FileText(TablesPairs(tables, |tables|)) != "" ==> Pieces(FileText(TablesPairs(tables, |tables|)), '\n') != []
  {
    var pairs := TablesPairs(tables, |tables|);
    TablesPairsClean(tables, |tables|);
    if pairs != [] {
      assert CleanAt(pairs, 0);
      var line := CleanLine(pairs[0]);
      assert FileText(pairs) == line + "\n" + FileText(pairs[1..]);
      PiecesLine(line, FileText(pairs[1..]), '\n');
    }
  }
}
