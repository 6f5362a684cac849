/** What some scripts do, from their tokens to the calls they make. */
module EjScripts {
  import opened Basics
  import opened Numbers
  import opened EjExpressions
  import opened EjPrograms
  import opened Ejscript

  type Functions = (Env, string, seq<string>) -> (int, Env)

  // ----- Parts of scripts -----

  /** A text or a variable. */
  predicate Simple(t: Term)
  {
    t.Lit? || t.Ref?
  }

  ghost function TextIn(t: Term, exe: bool, env: Env): (s: string)
    requires Simple(t)
  {
    if t.Lit? then t.text else VarText(env, exe, t.name)
  }

  lemma SimpleValue(t: Term, ops: Operators, exe: bool, env: Env, noted: bool)
    requires Simple(t)
    ensures EvalChain(Chain(t, End), ops, exe, env, noted) == Value(TextIn(t, exe, env), noted, env)
  {
    assert EvalTerm(t, ops, exe, env, "", noted) == Value(TextIn(t, exe, env), noted, env);
  }

  lemma SimpleSpelt(t: Term)
    requires Simple(t)
    ensures var c := Chain(t, End);
            ChainOk(c) && ChainSize(c) == 5 && ChainTokens(c) == TermTokens(t) && |TermTokens(t)| == 1 && TailTokens(End) == []
  {
    assert TailTokens(End) == [] && TailSize(End) == 1 && TailOk(End);
  }

  /** f(t); */
  ghost function CallWith(f: string, t: Term): (s: Stmt)
  {
    Do(Invoke(f, Last(Chain(t, End))))
  }

  lemma CallSpelt(f: string, t: Term)
    requires Simple(t)
    ensures var s := CallWith(f, t);
            StmtOk(s) && StmtSize(s) <= 24 && !Dangles(s) && StmtTokens(s) == [Function(f), LParen] + TermTokens(t) + [RParen, Semi]
  {
    var c := Chain(t, End);
    SimpleSpelt(t);
    assert ArgsTokens(Last(c)) == TermTokens(t) && ArgsSize(Last(c)) == 7 && ArgsOk(Last(c));
    assert TermTokens(Call(f, Last(c))) == [Function(f), LParen] + TermTokens(t) + [RParen];
  }

  /** The variables and calls after a call. */
  ghost function After(call: Functions, env: Env, f: string, text: string): (e: Env)
    ensures e.calls == env.calls + [(f, [text])]
  {
    call(env, f, [text]).1.(calls := env.calls + [(f, [text])])
  }

  /** It calls with the text, and fails if the function does; without executing it does nothing. */
  lemma CallMeans(f: string, t: Term, call: Functions, exe: bool, env: Env, noted: bool, budget: nat)
    requires Simple(t)
    ensures var r, text := Exec(CallWith(f, t), Language(call), exe, env, noted, budget), TextIn(t, exe, env);
            if !exe then r == Did(noted, env)
            else if call(env, f, [text]).0 >= 0 then r == Did(noted, After(call, env, f, text))
            else r.Broke? && r.env == After(call, env, f, text)
  {
    var ops := Language(call);
    SimpleValue(t, ops, exe, env, noted);
    assert EvalArgs(Last(Chain(t, End)), ops, exe, env, noted) == Values([TextIn(t, exe, env)], noted, env);
  }

  /** The value of a call that is not made is the last return text. */
  lemma IdleCall(f: string, t: Term, call: Functions, env: Env, noted: bool)
    requires Simple(t)
    ensures EvalChain(Chain(Call(f, Last(Chain(t, End))), End), Language(call), false, env, noted) == Value(env.ret, noted, env)
  {
    var ops, c := Language(call), Call(f, Last(Chain(t, End)));
    SimpleValue(t, ops, false, env, noted);
    assert EvalArgs(Last(Chain(t, End)), ops, false, env, noted) == Values([TextIn(t, false, env)], noted, env);
    assert EvalTerm(c, ops, false, env, "", noted) == Value(env.ret, noted, env);
    assert EvalTail(End, ops, false, env, env.ret, noted) == Value(env.ret, noted, env);
  }

  // ----- One call of two -----

  /** if (a < b) f(a); else g(a); */
  ghost function CallChoice(a: Term, b: Term, f: string, g: string): (s: Stmt)
  {
    Choice(Chain(a, More(EXPR_LESS, b, End)), CallWith(f, a), Then(CallWith(g, a), Empty))
  }

  lemma LessValue(a: Term, b: Term, ops: Operators, env: Env, noted: bool, v: string)
    requires Simple(a) && Simple(b) && ops.op(TextIn(a, true, env), EXPR_LESS, TextIn(b, true, env)) == Some(v)
    ensures EvalChain(Chain(a, More(EXPR_LESS, b, End)), ops, true, env, noted) == Value(v, noted, env)
  {
    var l := TextIn(a, true, env);
    assert EvalTerm(a, ops, true, env, "", noted) == Value(l, noted, env);
    assert EvalTerm(b, ops, true, env, l, noted) == Value(TextIn(b, true, env), noted, env);
    assert EvalTail(End, ops, true, env, v, noted) == Value(v, noted, env);
    assert EvalTail(More(EXPR_LESS, b, End), ops, true, env, l, noted) == Value(v, noted, env);
  }

  /** The first function is called exactly when the first number is less, and otherwise the second. */
  lemma ChoiceCalls(a: Term, b: Term, f: string, g: string, l: nat, r: nat, call: Functions, env: Env, noted: bool, budget: nat)
    requires Simple(a) && Simple(b) && Spells(TextIn(a, true, env), l) && Spells(TextIn(b, true, env), r)
    ensures var o, text := Exec(CallChoice(a, b, f, g), Language(call), true, env, noted, budget), TextIn(a, true, env);
            var h := if l < r then f else g;
            if call(env, h, [text]).0 >= 0 then o == Did(noted, After(call, env, h, text))
            else o.Broke? && o.env == After(call, env, h, text)
  {
    var ops, text, v := Language(call), TextIn(a, true, env), if l < r then "1" else "0";
    Tests(text, l, TextIn(b, true, env), r);
    LessValue(a, b, ops, env, noted, v);
    Branches(Chain(a, More(EXPR_LESS, b, End)), CallWith(f, a), CallWith(g, a), ops, env, noted, budget, v);
    CallMeans(f, a, call, l < r, env, noted, budget);
    if l < r { CallMeans(g, a, call, false, After(call, env, f, text), noted, budget); } else { CallMeans(g, a, call, true, env, noted, budget); }
  }

  /** A condition of value 1 executes the first branch, one of value 0 the second; both are gone through in turn. */
  lemma Branches(c: Chain, yes: Stmt, no: Stmt, ops: Operators, env: Env, noted: bool, budget: nat, v: string)
    requires EvalChain(c, ops, true, env, noted) == Value(v, noted, env) && (v == "1" || v == "0")
    ensures var r, y := Exec(Choice(c, yes, Then(no, Empty)), ops, true, env, noted, budget), Exec(yes, ops, v == "1", env, noted, budget);
            if y.Did? then r == Exec(no, ops, v == "0", y.env, y.noted, budget)
            else r == y || (y.Broke? && r.Broke? && r.env == y.env)
  {
    assert "1"[0] == '1' && "0"[0] == '0';
  }

  function TermToken(t: Term): (tok: Token)
    requires Simple(t)
  {
    if t.Lit? then Literal(t.text) else Id(t.name)
  }

  function ChoiceTokens(a: Term, b: Term, f: string, g: string): (r: seq<Token>)
    requires Simple(a) && Simple(b)
  {
    [If, LParen, TermToken(a), ExprOp(EXPR_LESS), TermToken(b), RParen] + [Function(f), LParen, TermToken(a), RParen, Semi]
    + [Else, Function(g), LParen, TermToken(a), RParen, Semi] + [Eof]
  }

  lemma LessSpelt(a: Term, b: Term)
    requires Simple(a) && Simple(b)
    ensures var c := Chain(a, More(EXPR_LESS, b, End));
            ChainOk(c) && ChainSize(c) <= 10 && ChainTokens(c) == [TermToken(a), ExprOp(EXPR_LESS), TermToken(b)]
  {
    var tail := More(EXPR_LESS, b, End);
    assert TailTokens(End) == [] && TailSize(End) == 1 && TailOk(End);
    assert TermTokens(a) == [TermToken(a)] && TermTokens(b) == [TermToken(b)];
    assert TailTokens(tail) == [ExprOp(EXPR_LESS), TermToken(b)];
    assert TailSize(tail) == 4 && TailOk(tail);
  }

  lemma ChoiceSpelt(a: Term, b: Term, f: string, g: string)
    requires Simple(a) && Simple(b)
    ensures var program := Then(CallChoice(a, b, f, g), Empty);
            BodyOk(program) && BodySize(program) <= 100 && BodyTokens(program) + [Eof] == ChoiceTokens(a, b, f, g)
  {
    var s := CallChoice(a, b, f, g);
    LessSpelt(a, b);
    CallSpelt(f, a);
    CallSpelt(g, a);
    assert TermTokens(a) == [TermToken(a)];
    assert BodyTokens(Empty) == [] && BodySize(Empty) <= 4 && BodyOk(Empty);
    assert BodyOk(s.no) && BodySize(s.no) <= 30 && StmtOk(s) && StmtSize(s) <= 90;
    ChoiceSpelling(s, [TermToken(a), ExprOp(EXPR_LESS), TermToken(b)], [Function(f), LParen, TermToken(a), RParen, Semi],
                   [Function(g), LParen, TermToken(a), RParen, Semi]);
  }

  lemma ChoiceSpelling(s: Stmt, c: seq<Token>, yes: seq<Token>, no: seq<Token>)
    requires s.Choice? && s.no.Then? && ChainTokens(s.c) == c && StmtTokens(s.yes) == yes && StmtTokens(s.no.s) == no
    ensures BodyTokens(Then(s, Empty)) == [If, LParen] + c + [RParen] + yes + [Else] + no
  {
    assert BodyTokens(Empty) == [];
    assert ElseTokens(s.no) == [Else] + no;
    assert CondTail(s) == [RParen] + (yes + ([Else] + no));
    assert StmtTokens(s) == [If] + ([LParen] + (c + CondTail(s)));
  }

  /**
   * The script if (a < b) f(a); else g(a); makes the one call f(a) exactly when a is less than b, and
   * the one call g(a) otherwise; it has no value exactly when that call fails.
   */
  method RunChoice(a: Term, b: Term, f: string, g: string, ghost l: nat, ghost r: nat, env: Env, fuel: nat, call: Functions)
    returns (v: Option<string>, noted: bool, env': Env)
    requires Simple(a) && Simple(b) && Spells(TextIn(a, true, env), l) && Spells(TextIn(b, true, env), r) && fuel >= 100
    ensures env'.calls == env.calls + [(if l < r then f else g, [TextIn(a, true, env)])]
    ensures noted == v.None? && (v.Some? <==> call(env, if l < r then f else g, [TextIn(a, true, env)]).0 >= 0)
  {
    ghost var s := CallChoice(a, b, f, g);
    ChoiceSpelt(a, b, f, g);
    ChoiceCalls(a, b, f, g, l, r, call, env, false, 0);
    SingleStatement(s, Language(call), env, 0);
    v, noted, env' := RunScript(ChoiceTokens(a, b, f, g), env, fuel, call, Then(s, Empty), 0);
  }

  /** A script of one statement comes to what the statement does. */
  lemma SingleStatement(s: Stmt, ops: Operators, env: Env, budget: nat)
    ensures var r := Exec(s, ops, true, env, false, budget);
            ExecBody(Then(s, Empty), ops, true, env, false, budget) == r
  {
    var r := Exec(s, ops, true, env, false, budget);
    if r.Did? { assert ExecBody(Empty, ops, true, r.env, r.noted, budget) == r; }
    assert BodyTokens(Empty) == [];
    if r.Broke? { assert r.left + [] == r.left; }
  }

  // ----- Calls in turn -----

  /** f(a); g(b); and so on. */
  ghost function CallList(calls: seq<(string, string)>): (program: Stmts)
  {
    if calls == [] then Empty else Then(CallWith(calls[0].0, Lit(calls[0].1)), CallList(calls[1..]))
  }

  function CallTokens(calls: seq<(string, string)>): (r: seq<Token>)
  {
    if calls == [] then [] else
      [Function(calls[0].0), LParen, Literal(calls[0].1), RParen, Semi] + CallTokens(calls[1..])
  }

  ghost function Logged(calls: seq<(string, string)>): (log: seq<(string, seq<string>)>)
    ensures |log| == |calls|
  {
    seq(|calls|, i requires 0 <= i < |calls| => (calls[i].0, [calls[i].1]))
  }

  lemma {:induction false} CallListSpelt(calls: seq<(string, string)>)
    ensures var program := CallList(calls);
            BodyOk(program) && BodySize(program) <= 26 * |calls| + 4 && BodyTokens(program) == CallTokens(calls)
  {
    if calls != [] {
      CallSpelt(calls[0].0, Lit(calls[0].1));
      assert TermTokens(Lit(calls[0].1)) == [Literal(calls[0].1)];
      CallListSpelt(calls[1..]);
    }
  }

  /** A function succeeds or fails whatever it is called with. */
  ghost predicate Decided(call: Functions, ok: string -> bool)
  {
    forall e, f, args :: call(e, f, args).0 >= 0 <==> ok(f)
  }

  /** The first k functions succeed, and the next one, if there is one, fails. */
  ghost predicate FailsAt(calls: seq<(string, string)>, ok: string -> bool, k: nat)
  {
    k <= |calls| && (forall i :: 0 <= i < k ==> ok(calls[i].0)) && (k < |calls| ==> !ok(calls[k].0))
  }

  /** Calls are made in the order written, up to the first that fails. */
  lemma {:induction false} InTurn(calls: seq<(string, string)>, call: Functions, ok: string -> bool, k: nat, env: Env, budget: nat)
    requires Decided(call, ok) && FailsAt(calls, ok, k)
    ensures var r := ExecBody(CallList(calls), Language(call), true, env, false, budget);
            && (if k == |calls| then r.Did? && !r.noted else r.Broke?)
            && r.env.calls == env.calls + Logged(calls[..Min(k + 1, |calls|)])
  {
    if calls == [] {
      assert Logged(calls[..0]) == [];
    } else {
      var f, text, n := calls[0].0, calls[0].1, Min(k + 1, |calls|);
      CallMeans(f, Lit(text), call, true, env, false, budget);
      assert Logged(calls[..n]) == [(f, [text])] + Logged(calls[1..][..n - 1]);
      if k > 0 {
        assert forall i :: 0 <= i < k - 1 ==> calls[1..][i] == calls[i + 1];
        InTurn(calls[1..], call, ok, k - 1, After(call, env, f, text), budget);
        Regroup(env.calls, [(f, [text])], Logged(calls[1..][..n - 1]));
      } else {
        assert Logged(calls[1..][..0]) == [];
      }
    }
  }

  /** A script of calls makes them in the order written; the first that fails is the last, and leaves no value. */
  method RunCalls(calls: seq<(string, string)>, env: Env, fuel: nat, call: Functions, ghost ok: string -> bool, ghost k: nat)
    returns (r: Option<string>, noted: bool, env': Env)
    requires Decided(call, ok) && FailsAt(calls, ok, k) && fuel >= 26 * |calls| + 4
    ensures r.Some? <==> k == |calls|
    ensures noted == r.None? && env'.calls == env.calls + Logged(calls[..Min(k + 1, |calls|)])
  {
    CallListSpelt(calls);
    InTurn(calls, call, ok, k, env, 0);
    r, noted, env' := RunScript(CallTokens(calls) + [Eof], env, fuel, call, CallList(calls), 0);
  }

  // ----- Returning -----

  /** f(a); return b; g(c); */
  ghost function ReturnBetween(f: string, a: string, b: Term, g: string, c: string): (program: Stmts)
  {
    Then(CallWith(f, Lit(a)), Then(Stmt.Return(Chain(b, End)), Then(CallWith(g, Lit(c)), Empty)))
  }

  function ReturnTokens(f: string, a: string, b: Term, g: string, c: string): (r: seq<Token>)
    requires Simple(b)
  {
    [Function(f), LParen, Literal(a), RParen, Semi] + [Token.Return, TermToken(b), Semi] + [Function(g), LParen, Literal(c), RParen, Semi] + [Eof]
  }

  lemma ReturnSpelt(f: string, a: string, b: Term, g: string, c: string)
    requires Simple(b)
    ensures var program := ReturnBetween(f, a, b, g, c);
            BodyOk(program) && BodySize(program) <= 100 && BodyTokens(program) + [Eof] == ReturnTokens(f, a, b, g, c)
  {
    CallSpelt(f, Lit(a));
    CallSpelt(g, Lit(c));
    SimpleSpelt(b);
    var last := Then(CallWith(g, Lit(c)), Empty);
    var rest := Then(Stmt.Return(Chain(b, End)), last);
    assert BodyTokens(Empty) == [] && BodySize(Empty) == 4 && BodyOk(Empty);
    assert BodyTokens(last) == [Function(g), LParen, Literal(c), RParen, Semi] && BodySize(last) <= 30 && BodyOk(last);
    assert StmtTokens(Stmt.Return(Chain(b, End))) == [Token.Return, TermToken(b), Semi];
    assert BodyTokens(rest) == [Token.Return, TermToken(b), Semi] + BodyTokens(last) && BodySize(rest) <= 60 && BodyOk(rest);
  }

  /** A return ends the script with its value, taken after what comes before it; what comes after it is not done. */
  method RunReturn(f: string, a: string, b: Term, g: string, c: string, env: Env, fuel: nat, call: Functions)
    returns (r: Option<string>, noted: bool, env': Env)
    requires Simple(b) && call(env, f, [a]).0 >= 0 && fuel >= 100
    ensures env'.calls == env.calls + [(f, [a])] && !noted
    ensures r == Some(if b.Lit? then b.text else VarText(After(call, env, f, a), true, b.name))
  {
    ghost var program := ReturnBetween(f, a, b, g, c);
    ghost var e := After(call, env, f, a);
    ReturnSpelt(f, a, b, g, c);
    CallMeans(f, Lit(a), call, true, env, false, 0);
    SimpleValue(b, Language(call), true, e, false);
    ghost var rest := program.rest;
    assert ExecBody(rest, Language(call), true, e, false, 0) == Ret(TextIn(b, true, e), false, e);
    r, noted, env' := RunScript(ReturnTokens(f, a, b, g, c), env, fuel, call, program, 0);
  }

  /** return f(a); gives what the function left as its return text. */
  method RunReturnCall(f: string, a: string, env: Env, fuel: nat, call: Functions) returns (r: Option<string>, noted: bool, env': Env)
    requires fuel >= 60
    ensures env'.calls == env.calls + [(f, [a])]
    ensures noted == r.None? && r == if call(env, f, [a]).0 >= 0 then Some(call(env, f, [a]).1.ret) else None
  {
    ghost var t, ops := Call(f, Last(Chain(Lit(a), End))), Language(call);
    ghost var c, e := Chain(t, End), After(call, env, f, a);
    SimpleSpelt(Lit(a));
    assert ArgsTokens(Last(Chain(Lit(a), End))) == [Literal(a)] && ArgsSize(Last(Chain(Lit(a), End))) == 7;
    assert TermTokens(t) == [Function(f), LParen, Literal(a), RParen] && TermSize(t) == 11 && TermOk(t, End);
    assert TailTokens(End) == [] && TailSize(End) == 1 && TailOk(End);
    assert ChainTokens(c) == TermTokens(t) && ChainSize(c) == 14 && ChainOk(c);
    ghost var s := Stmt.Return(c);
    assert StmtTokens(s) == [Token.Return, Function(f), LParen, Literal(a), RParen, Semi] && StmtSize(s) == 22 && StmtOk(s);
    OnlySize(s);
    ReturnedCall(f, a, call, env);
    SingleStatement(s, ops, env, 0);
    r, noted, env' := RunScript([Token.Return, Function(f), LParen, Literal(a), RParen, Semi, Eof], env, fuel, call, Then(s, Empty), 0);
  }

  lemma OnlySize(s: Stmt)
    requires StmtOk(s)
    ensures BodyOk(Then(s, Empty)) && BodySize(Then(s, Empty)) == StmtSize(s) + 6 && BodyTokens(Then(s, Empty)) == StmtTokens(s)
  {
    assert BodyOk(Empty) && BodySize(Empty) == 4 && BodyTokens(Empty) == [];
  }

  lemma ReturnedCall(f: string, a: string, call: Functions, env: Env)
    ensures var c, e := Chain(Call(f, Last(Chain(Lit(a), End))), End), After(call, env, f, a);
            var r := Exec(Stmt.Return(c), Language(call), true, env, false, 0);
            if call(env, f, [a]).0 >= 0 then r == Ret(call(env, f, [a]).1.ret, false, e) else r.Broke? && r.env == e
  {
    var ops, t := Language(call), Call(f, Last(Chain(Lit(a), End)));
    SimpleValue(Lit(a), ops, true, env, false);
    assert EvalArgs(Last(Chain(Lit(a), End)), ops, true, env, false) == Values([a], false, env);
    assert EvalTerm(t, ops, true, env, "", false) == Called(ops, true, env, f, [a], false);
    assert EvalTail(End, ops, true, After(call, env, f, a), call(env, f, [a]).1.ret, false).Value?;
  }

  // ----- Several arguments -----

  ghost function ArgList(texts: seq<string>): (args: Args)
    requires texts != []
  {
    if |texts| == 1 then Last(Chain(Lit(texts[0]), End)) else Next(Chain(Lit(texts[0]), End), ArgList(texts[1..]))
  }

  function ArgListTokens(texts: seq<string>): (r: seq<Token>)
    requires texts != []
  {
    if |texts| == 1 then [Literal(texts[0])] else [Literal(texts[0]), Comma] + ArgListTokens(texts[1..])
  }

  lemma {:induction false} ArgListMeans(texts: seq<string>, ops: Operators, env: Env)
    requires texts != []
    ensures var args := ArgList(texts);
            && EvalArgs(args, ops, true, env, false) == Values(texts, false, env)
            && ArgsOk(args) && ArgsSize(args) == 7 * |texts| && ArgsTokens(args) == ArgListTokens(texts)
  {
    var t := Lit(texts[0]);
    SimpleValue(t, ops, true, env, false);
    SimpleSpelt(t);
    assert TermTokens(t) == [Literal(texts[0])] && !Open(Chain(t, End));
    if |texts| > 1 {
      ArgListMeans(texts[1..], ops, env);
      assert texts == [texts[0]] + texts[1..];
    } else {
      assert texts == [texts[0]];
    }
  }

  /** The arguments of a call are handed over in the order written. */
  method RunArguments(f: string, texts: seq<string>, env: Env, fuel: nat, call: Functions) returns (r: Option<string>, noted: bool, env': Env)
    requires texts != [] && fuel >= 7 * |texts| + 20
    ensures env'.calls == env.calls + [(f, texts)] && noted == r.None? && (r.Some? <==> call(env, f, texts).0 >= 0)
  {
    ghost var ops, args := Language(call), ArgList(texts);
    ghost var s := Do(Invoke(f, args));
    ArgListMeans(texts, ops, env);
    assert TermTokens(Call(f, args)) == [Function(f), LParen] + ArgListTokens(texts) + [RParen];
    assert StmtTokens(s) == [Function(f), LParen] + ArgListTokens(texts) + [RParen, Semi] && StmtOk(s) && StmtSize(s) == 7 * |texts| + 10;
    OnlySize(s);
    InvokeMeans(f, args, texts, call, env);
    SingleStatement(s, ops, env, 0);
    r, noted, env' := RunScript([Function(f), LParen] + ArgListTokens(texts) + [RParen, Semi] + [Eof], env, fuel, call, Then(s, Empty), 0);
  }

  lemma InvokeMeans(f: string, args: Args, texts: seq<string>, call: Functions, env: Env)
    requires EvalArgs(args, Language(call), true, env, false) == Values(texts, false, env)
    ensures var r, (rc, e) := Exec(Do(Invoke(f, args)), Language(call), true, env, false, 0), call(env, f, texts);
            var e' := e.(calls := env.calls + [(f, texts)]);
            if rc >= 0 then r == Did(false, e') else r.Broke? && r.env == e'
  {
    assert EvalTerm(Call(f, args), Language(call), true, env, "", false) == Called(Language(call), true, env, f, texts, false);
  }

  // ----- Setting a variable and using it -----

  /** x = a; f(x); or var x = a; f(x); */
  ghost function SetAndCall(declared: bool, x: string, a: string, f: string): (program: Stmts)
  {
    var c := Chain(Lit(a), End);
    Then(if declared then Declare(One(Init(x, c))) else Do(Set(x, c)), Then(CallWith(f, Ref(x)), Empty))
  }

  function SetTokens(declared: bool, x: string, a: string, f: string): (r: seq<Token>)
  {
    (if declared then [Token.Var] else []) + [Id(x), Assignment, Literal(a), Semi] + [Function(f), LParen, Id(x), RParen, Semi] + [Eof]
  }

  lemma SetSpelt(declared: bool, x: string, a: string, f: string)
    ensures var program := SetAndCall(declared, x, a, f);
            BodyOk(program) && BodySize(program) <= 100 && BodyTokens(program) + [Eof] == SetTokens(declared, x, a, f)
  {
    var c, program := Chain(Lit(a), End), SetAndCall(declared, x, a, f);
    SimpleSpelt(Lit(a));
    CallSpelt(f, Ref(x));
    assert BodyTokens(Empty) == [] && BodySize(Empty) == 4 && BodyOk(Empty);
    assert BodyTokens(program.rest) == [Function(f), LParen, Id(x), RParen, Semi] && BodySize(program.rest) <= 30 && BodyOk(program.rest);
    assert [Id(x)] + ([Assignment] + ChainTokens(c)) == [Id(x), Assignment, Literal(a)];
    if declared {
      assert DeclsTokens(One(Init(x, c))) == [Id(x), Assignment, Literal(a), Semi] && DeclsSize(One(Init(x, c))) <= 30;
    }
    assert StmtTokens(program.s) == (if declared then [Token.Var] else []) + [Id(x), Assignment, Literal(a), Semi];
    assert StmtSize(program.s) <= 40 && StmtOk(program.s);
  }

  /**
   * A declared variable is read back as it was set, always. An assigned name is, unless it is both a
   * device parameter and a global variable: then the parameter is set and the variable is read.
   */
  method RunSet(declared: bool, x: string, a: string, f: string, env: Env, fuel: nat, call: Functions)
    returns (r: Option<string>, noted: bool, env': Env)
    requires fuel >= 100
    ensures declared || !(GetVar(env, x).0 == 0 && x in env.params) ==> env'.calls == env.calls + [(f, [a])]
    ensures !declared && GetVar(env, x).0 == 0 && x in env.params ==> env'.calls == env.calls + [(f, [TextOf(env.globals[x])])]
  {
    ghost var program, ops := SetAndCall(declared, x, a, f), Language(call);
    ghost var e := if declared then SetLocal(env, x, Some(a)) else Assign(env, x, a);
    SetSpelt(declared, x, a, f);
    SimpleValue(Lit(a), ops, true, env, false);
    assert Exec(program.s, ops, true, env, false, 0) == Did(false, e);
    CallMeans(f, Ref(x), call, true, e, false, 0);
    SingleStatement(program.rest.s, ops, e, 0);
    AssignedReads(env, x, a);
    r, noted, env' := RunScript(SetTokens(declared, x, a, f), env, fuel, call, program, 0);
  }

  // ----- Declaring twice -----

  /**
   * A second declaration of a local name is an error. At the end of a block the error goes no further:
   * the declaration's own semicolon is lost, and the block's brace ends the block.
   */
  method RunRedeclared(x: string, block: bool, env: Env, fuel: nat, call: Functions) returns (r: Option<string>, noted: bool, env': Env)
    requires GetVar(env, x).0 > 0 && fuel >= 60
    ensures noted && env' == env && (r.Some? <==> block)
  {
    ghost var s, ops := Declare(One(Bare(x))), Language(call);
    ghost var one := Then(s, Empty);
    assert DeclsTokens(One(Bare(x))) == [Id(x), Semi] && StmtTokens(s) == [Token.Var, Id(x), Semi];
    assert BodyTokens(Empty) == [] && BodyTokens(one) == [Token.Var, Id(x), Semi] && BodyOk(Empty) && BodyOk(one);
    BareSize(x);
    assert Exec(s, ops, true, env, false, 0) == Broke(env, []);
    SingleStatement(s, ops, env, 0);
    if block {
      ghost var b := Block(one);
      assert BodyTokens(Then(b, Empty)) == [LBrace, Token.Var, Id(x), Semi, RBrace];
      assert [] + [RBrace] == [RBrace];
      SingleStatement(b, ops, env, 0);
      r, noted, env' := RunScript([LBrace, Token.Var, Id(x), Semi, RBrace, Eof], env, fuel, call, Then(b, Empty), 0);
    } else {
      r, noted, env' := RunScript([Token.Var, Id(x), Semi, Eof], env, fuel, call, one, 0);
    }
  }

  lemma BareSize(x: string)
    ensures BodySize(Then(Declare(One(Bare(x))), Empty)) <= 40
  {
    assert BodySize(Empty) == 4 && DeclsSize(One(Bare(x))) <= 20;
  }

  // ----- Three operands -----

  lemma TextFirst(a: string, tail: Tail, ops: Operators, exe: bool, env: Env)
    ensures EvalChain(Chain(Lit(a), tail), ops, exe, env, false) == EvalTail(tail, ops, exe, env, a, false)
  {
    assert EvalTerm(Lit(a), ops, exe, env, "", false) == Value(a, false, env);
  }

  lemma TextNext(lhs: string, op: int, b: string, tail: Tail, ops: Operators, exe: bool, env: Env)
    ensures EvalTail(More(op, Lit(b), tail), ops, exe, env, lhs, false) ==
            match ops.op(lhs, op, b) case None => Broke(env, TailTokens(tail)) case Some(v) => EvalTail(tail, ops, exe, env, v, false)
  {
    assert EvalTerm(Lit(b), ops, exe, env, lhs, false) == Value(b, false, env);
  }

  /** a op b op' c */
  ghost function InARow(a: string, op: int, b: string, op': int, c: string): (e: Chain)
  {
    Chain(Lit(a), More(op, Lit(b), More(op', Lit(c), End)))
  }

  /** Operators are applied from the left, whatever they are. */
  method EvaluateRow(a: string, op: int, b: string, op': int, c: string, env: Env, exe: bool, fuel: nat, call: Functions)
    returns (v: Option<string>, noted: bool, env': Env)
    requires op > 0 && op' > 0 && fuel >= 20
    ensures v == match OpValue(a, op, b) case None => None case Some(x) => OpValue(x, op', c)
    ensures env' == env && noted == v.None?
  {
    ghost var e, ops := InARow(a, op, b, op', c), Language(call);
    RowSpelt(a, op, b, op', c);
    RowValue(a, op, b, op', c, ops, exe, env);
    v, noted, env' := Evaluate([Literal(a), ExprOp(op), Literal(b), ExprOp(op'), Literal(c), Semi], env, exe, fuel, call, e, [Semi]);
  }

  /** One more operator and text. */
  lemma TextSpelt(op: int, b: string, tail: Tail)
    requires op > 0 && TailOk(tail)
    ensures var t := More(op, Lit(b), tail);
            TailTokens(t) == [ExprOp(op), Literal(b)] + TailTokens(tail) && TailSize(t) == TailSize(tail) + 3 && TailOk(t)
  {
    assert TermTokens(Lit(b)) == [Literal(b)] && TermSize(Lit(b)) == 2 && TermOk(Lit(b), tail);
  }

  lemma RowSpelt(a: string, op: int, b: string, op': int, c: string)
    requires op > 0 && op' > 0
    ensures var e := InARow(a, op, b, op', c);
            && ChainOk(e) && ChainSize(e) <= 12 && Closes(e, Semi)
            && ChainTokens(e) == [Literal(a), ExprOp(op), Literal(b), ExprOp(op'), Literal(c)]
  {
    var last := More(op', Lit(c), End);
    assert TailTokens(End) == [] && TailSize(End) == 1 && TailOk(End);
    TextSpelt(op', c, End);
    TextSpelt(op, b, last);
    assert TailOpen(Lit(a), More(op, Lit(b), last)) == TailOpen(Lit(b), last) == TailOpen(Lit(c), End) == false;
    assert TermTokens(Lit(a)) == [Literal(a)] && TermSize(Lit(a)) == 2;
  }

  lemma RowValue(a: string, op: int, b: string, op': int, c: string, ops: Operators, exe: bool, env: Env)
    ensures var r := EvalChain(InARow(a, op, b, op', c), ops, exe, env, false);
            match ops.op(a, op, b)
            case None => r.Broke? && r.env == env
            case Some(x) =>
              match ops.op(x, op', c)
              case None => r.Broke? && r.env == env
              case Some(y) => r == Value(y, false, env)
  {
    TextFirst(a, More(op, Lit(b), More(op', Lit(c), End)), ops, exe, env);
    TextNext(a, op, b, More(op', Lit(c), End), ops, exe, env);
    if ops.op(a, op, b).Some? { TextNext(ops.op(a, op, b).value, op', c, End, ops, exe, env); }
  }

  /** a op (b op' c) */
  ghost function Grouped(a: string, op: int, b: string, op': int, c: string): (e: Chain)
  {
    Chain(Lit(a), More(op, Paren(Chain(Lit(b), More(op', Lit(c), End))), End))
  }

  /** Parentheses are evaluated first. */
  lemma GroupedValue(a: string, op: int, b: string, op': int, c: string, ops: Operators, exe: bool, env: Env, y: string, v: string)
    requires ops.op(b, op', c) == Some(y) && ops.op(a, op, y) == Some(v)
    ensures EvalChain(Grouped(a, op, b, op', c), ops, exe, env, false) == Value(v, false, env)
  {
    var inner := Chain(Lit(b), More(op', Lit(c), End));
    TextFirst(b, inner.tail, ops, exe, env);
    TextNext(b, op', c, End, ops, exe, env);
    assert EvalTail(End, ops, exe, env, y, false) == Value(y, false, env);
    assert EvalTerm(Paren(inner), ops, exe, env, a, false) == Value(y, false, env);
    TextFirst(a, More(op, Paren(inner), End), ops, exe, env);
    assert EvalTail(End, ops, exe, env, v, false) == Value(v, false, env);
  }

  /** a && b || c and the like: a logical operator takes everything to its right as its second operand. */
  lemma LogicFromTheRight(a: string, op: int, b: string, op': int, c: string, ops: Operators, exe: bool, env: Env, y: string, v: string)
    requires ops.cond(b, op', c) == Some(y) && ops.cond(a, op, y) == Some(v)
    ensures var r := EvalChain(Chain(Lit(a), Logic(op, Chain(Lit(b), Logic(op', Chain(Lit(c), End))))), ops, exe, env, false);
            r.Value? && r.v == v && r.env == env
  {
    var inner := Chain(Lit(b), Logic(op', Chain(Lit(c), End)));
    SimpleValue(Lit(c), ops, exe, env, false);
    TextFirst(b, inner.tail, ops, exe, env);
    assert EvalTail(inner.tail, ops, exe, env, b, false) == Joined(ops, b, op', c, false, env);
    TextFirst(a, Logic(op, inner), ops, exe, env);
  }

  // ----- A loop that calls -----

  /** for (name = 0; name < n; name++) f(name); */
  ghost function CallLoop(name: string, f: string, n: nat): (s: Stmt)
  {
    Loop(Set(name, Chain(Lit("0"), End)), Chain(Ref(name), More(EXPR_LESS, Lit(Decimal(n)), End)), Bump(name, EXPR_INC),
         CallWith(f, Ref(name)))
  }

  /** The function succeeds and leaves the variable alone; otherwise it may do what it likes. */
  ghost predicate Spares(call: Functions, f: string, name: string)
  {
    forall e, args :: call(e, f, args).0 >= 0 && GetVar(call(e, f, args).1, name) == GetVar(e, name)
  }

  ghost function CallsFrom(f: string, i: nat, n: nat): (calls: seq<(string, seq<string>)>)
    requires i <= n
    decreases n - i
  {
    if i == n then [] else [(f, [Decimal(i)])] + CallsFrom(f, i + 1, n)
  }

  /** The body calls with the variable's number. */
  lemma BodyCalls(name: string, f: string, n: nat, i: nat, call: Functions, env: Env, noted: bool, budget: nat)
    requires Spares(call, f, name) && GetVar(env, name).0 >= 0 && GetVar(env, name).1 == Some(Decimal(i))
    ensures var r := Exec(CallLoop(name, f, n).body, Language(call), true, env, noted, budget);
            && r.Did? && r.noted == noted && GetVar(r.env, name) == GetVar(env, name)
            && r.env.calls == env.calls + [(f, [Decimal(i)])]
  {
    CallMeans(f, Ref(name), call, true, env, noted, budget);
    var e := call(env, f, [Decimal(i)]).1;
    assert GetVar(After(call, env, f, Decimal(i)), name) == GetVar(e, name);
  }

  /** The increment and the test after it. */
  lemma CountsOn(name: string, n: nat, i: nat, call: Functions, env: Env, noted: bool)
    requires i < n && IsInt(n) && GetVar(env, name).0 >= 0 && GetVar(env, name).1 == Some(Decimal(i))
    ensures var b := Act(Bump(name, EXPR_INC), Language(call), true, env, noted, true);
            && b.Did? && b.noted == noted && b.env.calls == env.calls
            && GetVar(b.env, name) == (GetVar(env, name).0, Some(Decimal(i + 1)))
  {
    NumeralOf(i);
    NumeralOf(1);
    Sums(Decimal(i), i, Decimal(1), 1, i + 1);
    assert Decimal(1) == "1";
  }

  lemma TestsLess(name: string, n: nat, i: nat, call: Functions, env: Env, noted: bool)
    requires i <= n && IsInt(n) && GetVar(env, name).0 >= 0 && GetVar(env, name).1 == Some(Decimal(i))
    ensures EvalChain(Chain(Ref(name), More(EXPR_LESS, Lit(Decimal(n)), End)), Language(call), true, env, noted) ==
            Value(if i < n then "1" else "0", noted, env)
  {
    NumeralOf(i);
    NumeralOf(n);
    Tests(Decimal(i), i, Decimal(n), n);
    LessValue(Ref(name), Lit(Decimal(n)), Language(call), env, noted, if i < n then "1" else "0");
  }

  datatype Repeat = Repeat(s: Stmt, ops: Operators, env: Env, noted: bool, budget: nat)

  ghost function Repeated(q: Repeat): (r: Outcome)
  {
    if q.s.Loop? then Rounds(q.s, q.ops, q.env, q.noted, q.budget) else Stuck
  }

  /** The rounds of the loop, sealed. */
  ghost function LoopRuns(depth: nat, name: string, f: string, n: nat, call: Functions, env: Env, noted: bool,
                          budget: nat): (r: Outcome)
  {
    Sealed(depth, Repeated, Repeat(CallLoop(name, f, n), Language(call), env, noted, budget))
  }

  /** From this state on the variable has counted to n, with a call for every number passed. */
  ghost predicate Counted(r: Outcome, env: Env, noted: bool, name: string, f: string, i: nat, n: nat)
    requires i <= n
  {
    && r.Did? && r.noted == noted && GetVar(r.env, name) == (GetVar(env, name).0, Some(Decimal(n)))
    && r.env.calls == env.calls + CallsFrom(f, i, n)
  }

  lemma CountedOne(r: Outcome, env: Env, e: Env, noted: bool, name: string, f: string, i: nat, n: nat)
    requires i < n && GetVar(e, name) == (GetVar(env, name).0, Some(Decimal(i + 1))) && e.calls == env.calls + [(f, [Decimal(i)])]
    requires if i + 1 < n then Counted(r, e, noted, name, f, i + 1, n) else r == Did(noted, e)
    ensures Counted(r, env, noted, name, f, i, n)
  {
    Regroup(env.calls, [(f, [Decimal(i)])], CallsFrom(f, i + 1, n));
    if i + 1 == n { assert CallsFrom(f, i, n) == [(f, [Decimal(i)])]; }
  }

  lemma {:induction false} RoundsCall(depth: nat, name: string, f: string, n: nat, i: nat, call: Functions,
                                      env: Env, noted: bool, budget: nat)
    requires Spares(call, f, name) && i < n && IsInt(n) && budget >= n - i
    requires GetVar(env, name).0 >= 0 && GetVar(env, name).1 == Some(Decimal(i))
    ensures Counted(LoopRuns(depth, name, f, n, call, env, noted, budget), env, noted, name, f, i, n)
    decreases n - i
  {
    var e := OneRound(depth, name, f, n, i, call, env, noted, budget);
    if i + 1 < n { RoundsCall(depth, name, f, n, i + 1, call, e, noted, budget - 1); }
    CountedOne(LoopRuns(depth, name, f, n, call, env, noted, budget), env, e, noted, name, f, i, n);
  }

  lemma OneRound(depth: nat, name: string, f: string, n: nat, i: nat, call: Functions, env: Env, noted: bool,
                 budget: nat)
    returns (e: Env)
    requires Spares(call, f, name) && i < n && IsInt(n) && budget > 0
    requires GetVar(env, name).0 >= 0 && GetVar(env, name).1 == Some(Decimal(i))
    ensures GetVar(e, name) == (GetVar(env, name).0, Some(Decimal(i + 1))) && e.calls == env.calls + [(f, [Decimal(i)])]
    ensures LoopRuns(depth, name, f, n, call, env, noted, budget) ==
            if i + 1 < n then LoopRuns(depth, name, f, n, call, e, noted, budget - 1) else Did(noted, e)
  {
    var s, ops := CallLoop(name, f, n), Language(call);
    BodyCalls(name, f, n, i, call, env, noted, budget - 1);
    var b := Exec(s.body, ops, true, env, noted, budget - 1);
    CountsOn(name, n, i, call, b.env, noted);
    e := Act(s.incr, ops, true, b.env, noted, true).env;
    TestsLess(name, n, i + 1, call, e, noted);
    RoundRuns(depth, s, ops, env, noted, budget, b.env, e);
  }

  lemma RoundRuns(depth: nat, s: Stmt, ops: Operators, env: Env, noted: bool, budget: nat, b: Env, e: Env)
    requires s.Loop? && budget > 0
    requires Exec(s.body, ops, true, env, noted, budget - 1) == Did(noted, b)
    requires Act(s.incr, ops, true, b, noted, true) == Did(noted, e)
    requires var v := EvalChain(s.c, ops, true, e, noted); v.Value? && v.noted == noted && v.env == e
    ensures Sealed(depth, Repeated, Repeat(s, ops, env, noted, budget)) ==
            if GoesOn(EvalChain(s.c, ops, true, e, noted).v) then Sealed(depth, Repeated, Repeat(s, ops, e, noted, budget - 1)) else Did(noted, e)
  {
    SealedIs(depth, Repeated, Repeat(s, ops, env, noted, budget));
    SealedIs(depth, Repeated, Repeat(s, ops, e, noted, budget - 1));
  }

  /**
   * A counting loop calls its function with 0, 1, ... up to below its bound, in that order and nothing
   * else, if the variable is one that an assignment reaches and the function spares it.
   */
  lemma LoopCalls(name: string, f: string, n: nat, call: Functions, env: Env, noted: bool, budget: nat)
    requires Spares(call, f, name) && IsInt(n) && budget >= n
    requires GetVar(env, name).0 > 0 || name !in env.params
    ensures var r := Exec(CallLoop(name, f, n), Language(call), true, env, noted, budget);
            && r.Did? && r.noted == noted && GetVar(r.env, name).1 == Some(Decimal(n))
            && r.env.calls == env.calls + CallsFrom(f, 0, n)
  {
    var s, ops := CallLoop(name, f, n), Language(call);
    ExecLoop(s, ops, true, env, noted, budget);
    assert Decimal(0) == "0";
    assert EvalChain(Chain(Lit("0"), End), ops, true, env, noted) == Value("0", noted, env);
    var start := Assign(env, name, "0");
    TestsLess(name, n, 0, call, start, noted);
    NotExecuted(s.body, ops, start, noted, budget);
    CallMeans(f, Ref(name), call, false, start, noted, budget);
    if n > 0 {
      RoundsCall(0, name, f, n, 0, call, start, noted, budget);
      SealedIs(0, Repeated, Repeat(s, ops, start, noted, budget));
    } else {
      assert start.calls + [] == start.calls;
    }
  }

  /** The loop's tokens, as a script. */
  function CallLoopTokens(name: string, f: string, n: nat): (r: seq<Token>)
  {
    [For, LParen, Id(name), Assignment, Literal("0"), Semi] + [Id(name), ExprOp(EXPR_LESS), Literal(Decimal(n)), Semi]
    + [Id(name), IncDec(EXPR_INC), RParen] + [Function(f), LParen, Id(name), RParen, Semi] + [Eof]
  }

  lemma CallLoopSpelt(name: string, f: string, n: nat)
    ensures var program := Then(CallLoop(name, f, n), Empty);
            BodyOk(program) && BodySize(program) <= 100 && BodyTokens(program) + [Eof] == CallLoopTokens(name, f, n)
  {
    var s := CallLoop(name, f, n);
    LessSpelt(Ref(name), Lit(Decimal(n)));
    CallSpelt(f, Ref(name));
    assert TailTokens(End) == [] && TailSize(End) == 1;
    assert ActionTokens(s.init) == [Id(name), Assignment, Literal("0")];
    assert ActionTokens(s.incr) == [Id(name), IncDec(EXPR_INC)];
    assert ActionSize(s.init) <= 20 && ActionSize(s.incr) <= 20;
    assert BodyTokens(Empty) == [] && BodySize(Empty) <= 4 && BodyOk(Empty);
    assert TailOk(End) && ActionOk(s.init) && ActionOk(s.incr);
    assert StmtOk(s) && StmtSize(s) <= 90;
    assert IncrTail(s) == [RParen] + [Function(f), LParen, Id(name), RParen, Semi];
    assert TestTail(s) == [Semi] + ([Id(name), IncDec(EXPR_INC)] + IncrTail(s));
    assert InitTail(s) == [Semi] + ([Id(name), ExprOp(EXPR_LESS), Literal(Decimal(n))] + TestTail(s));
    assert StmtTokens(s) == [For] + ([LParen] + ([Id(name), Assignment, Literal("0")] + InitTail(s)));
    assert StmtTokens(s) ==
           [For, LParen, Id(name), Assignment, Literal("0"), Semi] + [Id(name), ExprOp(EXPR_LESS), Literal(Decimal(n)), Semi]
           + [Id(name), IncDec(EXPR_INC), RParen] + [Function(f), LParen, Id(name), RParen, Semi];
  }

  /** The script for (name = 0; name < n; name++) f(name); calls f with 0 to n - 1. */
  method RunCallLoop(name: string, f: string, n: nat, env: Env, fuel: nat, call: Functions)
    returns (r: Option<string>, noted: bool, env': Env)
    requires Spares(call, f, name) && IsInt(n) && fuel >= n + 100
    requires GetVar(env, name).0 > 0 || name !in env.params
    ensures r.Some? && !noted && env'.calls == env.calls + CallsFrom(f, 0, n) && GetVar(env', name).1 == Some(Decimal(n))
  {
    ghost var program := Then(CallLoop(name, f, n), Empty);
    CallLoopSpelt(name, f, n);
    LoopCalls(name, f, n, call, env, false, n);
    SingleStatement(CallLoop(name, f, n), Language(call), env, n);
    r, noted, env' := RunScript(CallLoopTokens(name, f, n), env, fuel, call, program, n);
  }
}
