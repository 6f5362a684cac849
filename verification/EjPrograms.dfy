/** The statement trees the Ejscript parser of ejparse.c stands for, and what executing them does. */
module EjPrograms {
  import opened Basics
  import opened EjExpressions
  import opened Numbers

  // ----- Statements -----

  /** An assignment, an increment or decrement, or a call. */
  datatype Action = Set(name: string, c: Chain) | Bump(name: string, op: int) | Invoke(name: string, args: Args)

  /** A declared name, without a value or with one. */
  datatype Decl = Bare(name: string) | Init(name: string, c: Chain)

  datatype Decls = One(d: Decl) | Several(d: Decl, rest: Decls)

  datatype Stmt =
    | Skip
    | Do(a: Action)
    | Declare(ds: Decls)
    | Return(c: Chain)
    | Block(list: Stmts)
    | Choice(c: Chain, yes: Stmt, no: Stmts)        // no holds the else branch, if there is one
    | Loop(init: Action, c: Chain, incr: Action, body: Stmt)

  datatype Stmts = Empty | Then(s: Stmt, rest: Stmts)

  // ----- Their tokens -----

  ghost function ActionTokens(a: Action): (r: seq<Token>)
  {
    match a
    case Set(name, c) => [Id(name)] + ([Assignment] + ChainTokens(c))
    case Bump(name, op) => [Id(name)] + [IncDec(op)]
    case Invoke(name, args) => TermTokens(Call(name, args))
  }

  ghost function DeclTokens(d: Decl): (r: seq<Token>)
  {
    match d
    case Bare(name) => [Id(name)]
    case Init(name, c) => [Id(name)] + ([Assignment] + ChainTokens(c))
  }

  ghost function DeclsTokens(ds: Decls): (r: seq<Token>)
  {
    match ds
    case One(d) => DeclTokens(d) + [Semi]
    case Several(d, rest) => DeclTokens(d) + ([Comma] + DeclsTokens(rest))
  }

  ghost function StmtTokens(s: Stmt): (r: seq<Token>)
    decreases s, 1
  {
    match s
    case Skip => [Semi]
    case Do(a) => ActionTokens(a) + [Semi]
    case Declare(ds) => [Token.Var] + DeclsTokens(ds)
    case Return(c) => [Token.Return] + (ChainTokens(c) + [Semi])
    case Block(list) => [LBrace] + (BodyTokens(list) + [RBrace])
    case Choice(c, yes, no) => [If] + ([LParen] + (ChainTokens(c) + CondTail(s)))
    case Loop(init, c, incr, body) => [For] + ([LParen] + (ActionTokens(init) + InitTail(s)))
  }

  ghost function BodyTokens(body: Stmts): (r: seq<Token>)
    decreases body, 1
  {
    match body
    case Empty => []
    case Then(s, rest) => StmtTokens(s) + BodyTokens(rest)
  }

  ghost function ElseTokens(no: Stmts): (r: seq<Token>)
    decreases no, 1
  {
    match no
    case Empty => []
    case Then(s, rest) => [Else] + StmtTokens(s)
  }

  /** The tokens of an if after its condition, */
  ghost function CondTail(s: Stmt): (r: seq<Token>)
    requires s.Choice?
    decreases s, 0
  {
    [RParen] + (StmtTokens(s.yes) + ElseTokens(s.no))
  }

  /** and of a for after its first assignment, its condition and its increment. */
  ghost function InitTail(s: Stmt): (r: seq<Token>)
    requires s.Loop?
    decreases s, 0, 2
  {
    [Semi] + (ChainTokens(s.c) + TestTail(s))
  }

  ghost function TestTail(s: Stmt): (r: seq<Token>)
    requires s.Loop?
    decreases s, 0, 1
  {
    [Semi] + (ActionTokens(s.incr) + IncrTail(s))
  }

  ghost function IncrTail(s: Stmt): (r: seq<Token>)
    requires s.Loop?
    decreases s, 0, 0
  {
    [RParen] + StmtTokens(s.body)
  }

  // ----- Well-formed statements -----

  ghost predicate ActionOk(a: Action)
  {
    match a
    case Set(name, c) => ChainOk(c)
    case Bump(name, op) => true
    case Invoke(name, args) => ArgsOk(args)
  }

  ghost predicate DeclOk(d: Decl)
  {
    d.Init? ==> ChainOk(d.c)
  }

  ghost predicate DeclsOk(ds: Decls)
  {
    DeclOk(ds.d) && (ds.Several? ==> (ds.d.Init? ==> !Open(ds.d.c)) && DeclsOk(ds.rest))
  }

  /** An if without else at the end would take an else that follows. */
  ghost predicate Dangles(s: Stmt)
  {
    match s
    case Choice(c, yes, no) => no.Empty? || Dangles(no.s)
    case Loop(init, c, incr, body) => Dangles(body)
    case _ => false
  }

  ghost predicate StmtOk(s: Stmt)
  {
    match s
    case Skip => true
    case Do(a) => ActionOk(a)
    case Declare(ds) => DeclsOk(ds)
    case Return(c) => ChainOk(c)
    case Block(list) => BodyOk(list)
    case Choice(c, yes, no) =>
      && ChainOk(c) && StmtOk(yes)
      && (no.Then? ==> no.rest.Empty? && StmtOk(no.s) && !Dangles(yes))
    case Loop(init, c, incr, body) => ActionOk(init) && ChainOk(c) && ActionOk(incr) && StmtOk(body)
  }

  ghost predicate BodyOk(body: Stmts)
  {
    body.Then? ==> StmtOk(body.s) && BodyOk(body.rest)
  }

  // ----- Fuel -----

  ghost function ActionSize(a: Action): (n: nat)
  {
    match a
    case Set(name, c) => ChainSize(c) + 6
    case Bump(name, op) => 6
    case Invoke(name, args) => ArgsSize(args) + 6
  }

  ghost function DeclSize(d: Decl): (n: nat)
  {
    if d.Init? then ChainSize(d.c) + 6 else 6
  }

  ghost function DeclsSize(ds: Decls): (n: nat)
  {
    match ds
    case One(d) => DeclSize(d) + 4
    case Several(d, rest) => DeclSize(d) + DeclsSize(rest) + 4
  }

  ghost function StmtSize(s: Stmt): (n: nat)
  {
    match s
    case Skip => 4
    case Do(a) => ActionSize(a) + 4
    case Declare(ds) => DeclsSize(ds) + 6
    case Return(c) => ChainSize(c) + 8
    case Block(list) => BodySize(list) + 6
    case Choice(c, yes, no) => ChainSize(c) + StmtSize(yes) + BodySize(no) + 8
    case Loop(init, c, incr, body) => ActionSize(init) + ChainSize(c) + ActionSize(incr) + StmtSize(body) + 10
  }

  ghost function BodySize(body: Stmts): (n: nat)
  {
    match body
    case Empty => 4
    case Then(s, rest) => StmtSize(s) + BodySize(rest) + 2
  }

  // ----- Execution -----

  /** A failure in a part of a tree leaves the other tokens of the tree unread. */
  ghost function Extend(r: Outcome, more: seq<Token>): (r': Outcome)
  {
    if r.Broke? then Broke(r.env, r.left + more) else r
  }

  /**
   * Add or take one where the variable is. An unknown variable is an error. Of a variable that is
   * declared but has no value nothing is said: its text is a null pointer. An operand that cannot
   * be counted is an error too, but before a right parenthesis the parser goes on with a note.
   */
  ghost function Bumped(ops: Operators, env: Env, name: string, op: int, noted: bool, head: bool): (r: Outcome)
  {
    var (scope, value) := GetVar(env, name);
    if scope < 0 then Broke(env, [])
    else if value.None? then Stuck
    else
      match ops.op(value.value, op, "1")
      case None => if head then Did(true, env) else Broke(env, [])
      case Some(v) =>
        Did(noted, if scope > 0 then SetLocal(env, name, Some(v)) else env.(globals := env.globals[name := Some(v)]))
  }

  /**
   * An increment changes just its variable, in the frame that has it, and nothing is said of it
   * exactly when the variable is declared without a value.
   */
  lemma BumpedMeans(ops: Operators, env: Env, name: string, op: int, noted: bool, head: bool, other: string)
    ensures var r := Bumped(ops, env, name, op, noted, head);
            && (r.Stuck? <==> GetVar(env, name).0 >= 0 && GetVar(env, name).1.None?)
            && (r.Broke? ==> r.env == env)
            && (r.Did? ==>
                  var v := ops.op(TextOf(GetVar(env, name).1), op, "1");
                  && r.env.calls == env.calls && r.env.params == env.params
                  && (other != name ==> GetVar(r.env, other) == GetVar(env, other))
                  && if v.Some? then r.noted == noted && GetVar(r.env, name) == (GetVar(env, name).0, v)
                     else r.noted && r.env == env && head)
  {
  }

  /** What an action does; `head` is for the increment of a for. */
  ghost function Act(a: Action, ops: Operators, exe: bool, env: Env, noted: bool, head: bool): (r: Outcome)
    ensures r.Did? || r.Broke? || r.Stuck?
  {
    match a
    case Set(name, c) =>
      var r := EvalChain(c, ops, exe, env, noted);
      if r.Broke? then r else Did(r.noted, if exe then Assign(r.env, name, r.v) else r.env)
    case Bump(name, op) => if exe then Bumped(ops, env, name, op, noted, head) else Did(noted, env)
    case Invoke(name, args) =>
      var r := EvalTerm(Call(name, args), ops, exe, env, "", noted);
      if r.Broke? then r else Did(r.noted, r.env)
  }

  /** A name of a declaration, with the separator after it. A name without a value is declared even when not executing. */
  ghost function ExecDecl(d: Decl, sep: Token, ops: Operators, exe: bool, env: Env, noted: bool): (r: Outcome)
    ensures r.Did? || r.Broke?
  {
    match d
    case Bare(name) => if GetVar(env, name).0 > 0 then Broke(env, []) else Did(noted, SetLocal(env, name, None))
    case Init(name, c) =>
      var r := EvalChain(c, ops, exe, env, noted);
      if r.Broke? then Broke(r.env, r.left + [sep]) else Did(r.noted, if exe then SetLocal(r.env, name, Some(r.v)) else r.env)
  }

  ghost function ExecDecls(ds: Decls, ops: Operators, exe: bool, env: Env, noted: bool): (r: Outcome)
    ensures r.Did? || r.Broke?
  {
    match ds
    case One(d) => ExecDecl(d, Semi, ops, exe, env, noted)
    case Several(d, rest) =>
      var r := ExecDecl(d, Comma, ops, exe, env, noted);
      if r.Broke? then Extend(r, DeclsTokens(rest)) else ExecDecls(rest, ops, exe, r.env, r.noted)
  }

  /** A branch is taken when the condition's text starts with 1. */
  predicate Yes(text: string)
  {
    |text| > 0 && text[0] == '1'
  }

  /** A loop goes on unless the condition's text starts with 0. */
  predicate GoesOn(text: string)
  {
    !(|text| > 0 && text[0] == '0')
  }

  /**
   * What a block makes of a failed statement: it takes the next token for its brace. If that is its
   * own brace the block ends with an error noted; if it is another's, nothing is said of the rest.
   */
  ghost function ClosedBy(env: Env, unread: seq<Token>): (r: Outcome)
    requires unread != []
  {
    if !unread[0].RBrace? then Broke(env, unread[1..])
    else if |unread| == 1 then Did(true, env)
    else Stuck
  }

  /** Run a statement, with at most `budget` rounds of each loop. Statements not executed are evaluated all the same. */
  ghost function Exec(s: Stmt, ops: Operators, exe: bool, env: Env, noted: bool, budget: nat): (r: Outcome)
    ensures r.Did? || r.Ret? || r.Broke? || r.Stuck?
    decreases budget, s, 1
  {
    match s
    case Skip => Did(noted, env)
    case Do(a) => Extend(Act(a, ops, exe, env, noted, false), [Semi])
    case Declare(ds) => ExecDecls(ds, ops, exe, env, noted)
    case Return(c) =>
      var v := EvalChain(c, ops, exe, env, noted);
      if v.Broke? then Extend(v, [Semi]) else if exe then Ret(v.v, v.noted, v.env) else Did(v.noted, v.env)
    case Block(list) =>
      var r := ExecBody(list, ops, exe, env, noted, budget);
      if r.Broke? then ClosedBy(r.env, r.left + [RBrace]) else r
    case Choice(c, yes, no) =>
      var v := EvalChain(c, ops, exe, env, noted);
      if v.Broke? then Extend(v, CondTail(s)) else
        var y := Exec(yes, ops, exe && Yes(v.v), v.env, v.noted, budget);
        if !y.Did? then Extend(y, ElseTokens(no))
        else if no.Empty? then y
        else Exec(no.s, ops, exe && !Yes(v.v), y.env, y.noted, budget)
    case Loop(init, c, incr, body) =>
      var a := Act(init, ops, exe, env, noted, false);
      if !a.Did? then Extend(a, InitTail(s)) else
        var v := EvalChain(c, ops, exe, a.env, a.noted);
        if v.Broke? then Extend(v, TestTail(s)) else
          var i := Act(incr, ops, false, v.env, v.noted, true);
          if !i.Did? then Extend(i, IncrTail(s)) else
            var b := Exec(body, ops, false, i.env, i.noted, budget);
            if b.Did? && exe && GoesOn(v.v) then Rounds(s, ops, b.env, b.noted, budget) else b
  }

  ghost function ExecBody(body: Stmts, ops: Operators, exe: bool, env: Env, noted: bool, budget: nat): (r: Outcome)
    ensures r.Did? || r.Ret? || r.Broke? || r.Stuck?
    decreases budget, body, 0
  {
    match body
    case Empty => Did(noted, env)
    case Then(s, rest) =>
      var r := Exec(s, ops, exe, env, noted, budget);
      if r.Did? then ExecBody(rest, ops, exe, r.env, r.noted, budget) else Extend(r, BodyTokens(rest))
  }

  /** Body, increment and condition, until the condition fails. */
  ghost function Rounds(s: Stmt, ops: Operators, env: Env, noted: bool, budget: nat): (r: Outcome)
    requires s.Loop?
    ensures r.Did? || r.Ret? || r.Broke? || r.Stuck?
    decreases budget, s, 0
  {
    if budget == 0 then Stuck else
      var b := Exec(s.body, ops, true, env, noted, budget - 1);
      if !b.Did? then b else
        var i := Act(s.incr, ops, true, b.env, b.noted, true);
        if !i.Did? then Extend(i, IncrTail(s)) else
          var v := EvalChain(s.c, ops, true, i.env, i.noted);
          if v.Broke? then Extend(v, TestTail(s))
          else if GoesOn(v.v) then Rounds(s, ops, v.env, v.noted, budget - 1)
          else Did(v.noted, v.env)
  }

  // The same from the parts of a for on.

  /** After the first test: the pass that is not executed, and the rounds. */
  ghost function LoopPass(s: Stmt, ops: Operators, exe: bool, goes: bool, env: Env, noted: bool, budget: nat): (r: Outcome)
    requires s.Loop?
  {
    var i := Act(s.incr, ops, false, env, noted, true);
    if !i.Did? then Extend(i, IncrTail(s)) else
      var b := Exec(s.body, ops, false, i.env, i.noted, budget);
      if b.Did? && exe && goes then Rounds(s, ops, b.env, b.noted, budget) else b
  }

  /** After the first assignment. */
  ghost function LoopTest(s: Stmt, ops: Operators, exe: bool, env: Env, noted: bool, budget: nat): (r: Outcome)
    requires s.Loop?
  {
    var v := EvalChain(s.c, ops, exe, env, noted);
    if v.Broke? then Extend(v, TestTail(s)) else LoopPass(s, ops, exe, GoesOn(v.v), v.env, v.noted, budget)
  }

  lemma ExecLoop(s: Stmt, ops: Operators, exe: bool, env: Env, noted: bool, budget: nat)
    requires s.Loop?
    ensures var a := Act(s.init, ops, exe, env, noted, false);
            Exec(s, ops, exe, env, noted, budget) ==
            if a.Did? then LoopTest(s, ops, exe, a.env, a.noted, budget) else Extend(a, InitTail(s))
  {
  }

  /** After the body of a round. */
  ghost function RoundEnd(s: Stmt, ops: Operators, env: Env, noted: bool, budget: nat): (r: Outcome)
    requires s.Loop?
  {
    var i := Act(s.incr, ops, true, env, noted, true);
    if !i.Did? then Extend(i, IncrTail(s)) else
      var v := EvalChain(s.c, ops, true, i.env, i.noted);
      if v.Broke? then Extend(v, TestTail(s))
      else if GoesOn(v.v) then Rounds(s, ops, v.env, v.noted, budget)
      else Did(v.noted, v.env)
  }

  lemma ExecRound(s: Stmt, ops: Operators, env: Env, noted: bool, budget: nat)
    requires s.Loop? && budget > 0
    ensures var b := Exec(s.body, ops, true, env, noted, budget - 1);
            Rounds(s, ops, env, noted, budget) == if b.Did? then RoundEnd(s, ops, b.env, b.noted, budget - 1) else b
  {
  }

  // ----- What is not executed -----

  /** No name is declared without a value. */
  ghost predicate NoBareDecl(ds: Decls)
  {
    ds.d.Init? && (ds.Several? ==> NoBareDecl(ds.rest))
  }

  ghost predicate NoBare(s: Stmt)
  {
    match s
    case Declare(ds) => NoBareDecl(ds)
    case Block(list) => NoBareBody(list)
    case Choice(c, yes, no) => NoBare(yes) && NoBareBody(no)
    case Loop(init, c, incr, body) => NoBare(body)
    case _ => true
  }

  ghost predicate NoBareBody(body: Stmts)
  {
    body.Then? ==> NoBare(body.s) && NoBareBody(body.rest)
  }

  /** Nothing is called, no parameter is set, and without bare declarations no variable changes. */
  ghost predicate Idle(env: Env, r: Outcome, noBare: bool)
  {
    r.Stuck? || (r.env.calls == env.calls && r.env.params == env.params && r.env.ret == env.ret && (noBare ==> r.env == env))
  }

  lemma ActIdle(a: Action, ops: Operators, env: Env, noted: bool, head: bool)
    ensures Idle(env, Act(a, ops, false, env, noted, head), true)
  {
    match a
    case Set(name, c) => ChainIdle(c, ops, env, noted);
    case Bump(name, op) =>
    case Invoke(name, args) => TermIdle(Call(name, args), ops, env, "", noted);
  }

  lemma DeclIdle(d: Decl, sep: Token, ops: Operators, env: Env, noted: bool)
    ensures Idle(env, ExecDecl(d, sep, ops, false, env, noted), d.Init?)
  {
    if d.Init? { ChainIdle(d.c, ops, env, noted); }
  }

  lemma {:induction false} DeclsIdle(ds: Decls, ops: Operators, env: Env, noted: bool)
    ensures Idle(env, ExecDecls(ds, ops, false, env, noted), NoBareDecl(ds))
    decreases ds
  {
    match ds
    case One(d) => DeclIdle(d, Semi, ops, env, noted);
    case Several(d, rest) =>
      DeclIdle(d, Comma, ops, env, noted);
      var r := ExecDecl(d, Comma, ops, false, env, noted);
      if r.Did? { DeclsIdle(rest, ops, r.env, r.noted); }
  }

  /** A statement that is not executed calls nothing and sets no parameter; only its bare declarations change variables. */
  lemma {:induction false} NotExecuted(s: Stmt, ops: Operators, env: Env, noted: bool, budget: nat)
    ensures Idle(env, Exec(s, ops, false, env, noted, budget), NoBare(s)) && !Exec(s, ops, false, env, noted, budget).Ret?
    decreases s, 1
  {
    match s
    case Skip =>
    case Do(a) => ActIdle(a, ops, env, noted, false);
    case Declare(ds) => DeclsIdle(ds, ops, env, noted);
    case Return(c) => ChainIdle(c, ops, env, noted);
    case Block(list) => BodyNotExecuted(list, ops, env, noted, budget);
    case Choice(c, yes, no) =>
      ChainIdle(c, ops, env, noted);
      var v := EvalChain(c, ops, false, env, noted);
      if v.Value? {
        NotExecuted(yes, ops, env, v.noted, budget);
        var y := Exec(yes, ops, false, env, v.noted, budget);
        if y.Did? && no.Then? { NotExecuted(no.s, ops, y.env, y.noted, budget); }
      }
    case Loop(init, c, incr, body) => LoopNotExecuted(s, ops, env, noted, budget);
  }

  lemma {:induction false} LoopNotExecuted(s: Stmt, ops: Operators, env: Env, noted: bool, budget: nat)
    requires s.Loop?
    ensures Idle(env, Exec(s, ops, false, env, noted, budget), NoBare(s)) && !Exec(s, ops, false, env, noted, budget).Ret?
    decreases s, 0
  {
    ActIdle(s.init, ops, env, noted, false);
    var a := Act(s.init, ops, false, env, noted, false);
    if a.Did? {
      ChainIdle(s.c, ops, env, a.noted);
      var v := EvalChain(s.c, ops, false, env, a.noted);
      if v.Value? {
        ActIdle(s.incr, ops, env, v.noted, true);
        var i := Act(s.incr, ops, false, env, v.noted, true);
        if i.Did? { NotExecuted(s.body, ops, env, i.noted, budget); }
      }
    }
  }

  lemma {:induction false} BodyNotExecuted(body: Stmts, ops: Operators, env: Env, noted: bool, budget: nat)
    ensures Idle(env, ExecBody(body, ops, false, env, noted, budget), NoBareBody(body))
    ensures !ExecBody(body, ops, false, env, noted, budget).Ret?
    decreases body, 0
  {
    if body.Then? {
      NotExecuted(body.s, ops, env, noted, budget);
      var r := Exec(body.s, ops, false, env, noted, budget);
      if r.Did? { BodyNotExecuted(body.rest, ops, r.env, r.noted, budget); }
    }
  }

  /**
   * An if does the calls and settings of its condition and of one branch only, and changes the
   * variables only there, unless the other branch declares names without a value. It is the first
   * branch exactly when the condition's text starts with 1.
   */
  lemma OneBranch(s: Stmt, ops: Operators, env: Env, noted: bool, budget: nat)
    requires s.Choice?
    requires EvalChain(s.c, ops, true, env, noted).Value?
    ensures var v := EvalChain(s.c, ops, true, env, noted);
            var r := Exec(s, ops, true, env, noted, budget);
            if v.v != "" && v.v[0] == '1' then
              var y := Exec(s.yes, ops, true, v.env, v.noted, budget);
              if y.Did? then Idle(y.env, r, NoBareBody(s.no)) else r == Extend(y, ElseTokens(s.no))
            else
              var y := Exec(s.yes, ops, false, v.env, v.noted, budget);
              && Idle(v.env, y, NoBare(s.yes))
              && r == if !y.Did? then Extend(y, ElseTokens(s.no))
                      else if s.no.Empty? then y
                      else Exec(s.no.s, ops, true, y.env, y.noted, budget)
  {
    var v := EvalChain(s.c, ops, true, env, noted);
    if Yes(v.v) {
      var y := Exec(s.yes, ops, true, v.env, v.noted, budget);
      if y.Did? && s.no.Then? { NotExecuted(s.no.s, ops, y.env, y.noted, budget); }
    } else {
      NotExecuted(s.yes, ops, v.env, v.noted, budget);
    }
  }

  // ----- Budgets -----

  /** A statement that comes to something within some rounds does the same with any larger allowance. */
  lemma {:induction false} LargerBudget(s: Stmt, ops: Operators, exe: bool, env: Env, noted: bool, budget: nat, more: nat)
    requires budget <= more && !Exec(s, ops, exe, env, noted, budget).Stuck?
    ensures Exec(s, ops, exe, env, noted, more) == Exec(s, ops, exe, env, noted, budget)
    decreases budget, s, 2
  {
    match s
    case Block(list) => BodyLargerBudget(list, ops, exe, env, noted, budget, more);
    case Choice(c, yes, no) =>
      var v := EvalChain(c, ops, exe, env, noted);
      if v.Value? {
        LargerBudget(yes, ops, exe && Yes(v.v), v.env, v.noted, budget, more);
        var y := Exec(yes, ops, exe && Yes(v.v), v.env, v.noted, budget);
        if y.Did? && no.Then? { LargerBudget(no.s, ops, exe && !Yes(v.v), y.env, y.noted, budget, more); }
      }
    case Loop(init, c, incr, body) => LoopLargerBudget(s, ops, exe, env, noted, budget, more);
    case _ =>
  }

  lemma {:induction false} LoopLargerBudget(s: Stmt, ops: Operators, exe: bool, env: Env, noted: bool, budget: nat, more: nat)
    requires s.Loop? && budget <= more && !Exec(s, ops, exe, env, noted, budget).Stuck?
    ensures Exec(s, ops, exe, env, noted, more) == Exec(s, ops, exe, env, noted, budget)
    decreases budget, s, 1
  {
    var a := Act(s.init, ops, exe, env, noted, false);
    if a.Did? {
      var v := EvalChain(s.c, ops, exe, a.env, a.noted);
      if v.Value? {
        var i := Act(s.incr, ops, false, v.env, v.noted, true);
        if i.Did? {
          LargerBudget(s.body, ops, false, i.env, i.noted, budget, more);
          var b := Exec(s.body, ops, false, i.env, i.noted, budget);
          if b.Did? && exe && GoesOn(v.v) { MoreRounds(s, ops, b.env, b.noted, budget, more); }
        }
      }
    }
  }

  lemma {:induction false} BodyLargerBudget(body: Stmts, ops: Operators, exe: bool, env: Env, noted: bool, budget: nat, more: nat)
    requires budget <= more && !ExecBody(body, ops, exe, env, noted, budget).Stuck?
    ensures ExecBody(body, ops, exe, env, noted, more) == ExecBody(body, ops, exe, env, noted, budget)
    decreases budget, body, 0
  {
    if body.Then? {
      LargerBudget(body.s, ops, exe, env, noted, budget, more);
      var r := Exec(body.s, ops, exe, env, noted, budget);
      if r.Did? { BodyLargerBudget(body.rest, ops, exe, r.env, r.noted, budget, more); }
    }
  }

  lemma {:induction false} MoreRounds(s: Stmt, ops: Operators, env: Env, noted: bool, budget: nat, more: nat)
    requires s.Loop? && budget <= more && !Rounds(s, ops, env, noted, budget).Stuck?
    ensures Rounds(s, ops, env, noted, more) == Rounds(s, ops, env, noted, budget)
    decreases budget, s, 0
  {
    LargerBudget(s.body, ops, true, env, noted, budget - 1, more - 1);
    var b := Exec(s.body, ops, true, env, noted, budget - 1);
    if b.Did? {
      var i := Act(s.incr, ops, true, b.env, b.noted, true);
      if i.Did? {
        var v := EvalChain(s.c, ops, true, i.env, i.noted);
        if v.Value? && GoesOn(v.v) { MoreRounds(s, ops, v.env, v.noted, budget - 1, more - 1); }
      }
    }
  }

  // ----- Taking tokens apart -----

  lemma Unpack<T>(x: T, a: seq<T>, b: seq<T>)
    ensures ([x] + a) + b == [x] + (a + b)
    ensures ([x] + (a + b))[0] == x && ([x] + (a + b))[1..] == a + b
  {
  }

  lemma TermFirst(t: Term, after: seq<Token>)
    requires after != []
    ensures var rest := TermTokens(t) + after;
            rest != [] && match t
                          case Lit(text) => rest[0] == Literal(text) && rest[1..] == after
                          case Ref(name) => rest[0] == Id(name) && rest[1..] == after
                          case Paren(e) => rest[0] == LParen && rest[1..] == ChainTokens(e) + ([RParen] + after)
                          case Call(name, args) => rest[0] == Function(name) && rest[1..] == [LParen] + (ArgsTokens(args) + ([RParen] + after))
                          case Missing => rest == after
  {
    match t
    case Lit(text) => Unpack(Literal(text), [], after);
    case Ref(name) => Unpack(Id(name), [], after);
    case Paren(e) =>
      Enclosed([LParen], ChainTokens(e), [RParen], after);
      Unpack(LParen, ChainTokens(e), [RParen] + after);
    case Call(name, args) =>
      CallTokens(name, args, after);
      Unpack(Function(name), [LParen], ArgsTokens(args) + ([RParen] + after));
    case Missing =>
  }

  lemma ActionFirst(a: Action, after: seq<Token>)
    requires after != []
    ensures var rest := ActionTokens(a) + after;
            rest != [] && match a
                          case Set(name, c) => rest[0] == Id(name) && rest[1..] == [Assignment] + (ChainTokens(c) + after)
                          case Bump(name, op) => rest[0] == Id(name) && rest[1..] == [IncDec(op)] + after
                          case Invoke(name, args) => rest[0] == Function(name) && rest[1..] == [LParen] + (ArgsTokens(args) + ([RParen] + after))
  {
    match a
    case Set(name, c) =>
      Unpack(Id(name), [Assignment] + ChainTokens(c), after);
      Unpack(Assignment, ChainTokens(c), after);
    case Bump(name, op) => Unpack(Id(name), [IncDec(op)], after);
    case Invoke(name, args) => TermFirst(Call(name, args), after);
  }

  lemma DeclFirst(d: Decl, sep: Token, after: seq<Token>)
    ensures var rest := (DeclTokens(d) + [sep]) + after;
            && rest != [] && rest[0] == Id(d.name)
            && rest[1..] == if d.Bare? then [sep] + after else [Assignment] + (ChainTokens(d.c) + ([sep] + after))
  {
    Regroup(DeclTokens(d), [sep], after);
    if d.Bare? {
      Unpack(Id(d.name), [], [sep] + after);
    } else {
      Unpack(Id(d.name), [Assignment] + ChainTokens(d.c), [sep] + after);
      Unpack(Assignment, ChainTokens(d.c), [sep] + after);
    }
  }

  /** The first token of a statement, and what follows it. */
  lemma StmtFirst(s: Stmt, after: seq<Token>)
    requires after != []
    ensures var rest := StmtTokens(s) + after;
            rest != [] && match s
                          case Skip => rest[0] == Semi && rest[1..] == after
                          case Do(a) => rest == ActionTokens(a) + ([Semi] + after)
                          case Declare(ds) => rest[0] == Token.Var && rest[1..] == DeclsTokens(ds) + after
                          case Return(c) => rest[0] == Token.Return && rest[1..] == ChainTokens(c) + ([Semi] + after)
                          case Block(list) => rest[0] == LBrace && rest[1..] == BodyTokens(list) + ([RBrace] + after)
                          case Choice(c, yes, no) => rest[0] == If && rest[1..] == [LParen] + (ChainTokens(c) + (CondTail(s) + after))
                          case Loop(init, c, incr, body) => rest[0] == For && rest[1..] == [LParen] + (ActionTokens(init) + (InitTail(s) + after))
  {
    match s
    case Skip =>
    case Do(a) => Regroup(ActionTokens(a), [Semi], after);
    case Declare(ds) => Unpack(Token.Var, DeclsTokens(ds), after);
    case Return(c) =>
      Unpack(Token.Return, ChainTokens(c) + [Semi], after);
      Regroup(ChainTokens(c), [Semi], after);
    case Block(list) =>
      Unpack(LBrace, BodyTokens(list) + [RBrace], after);
      Regroup(BodyTokens(list), [RBrace], after);
    case Choice(c, yes, no) =>
      Unpack(If, [LParen] + (ChainTokens(c) + CondTail(s)), after);
      Enclosed([LParen], ChainTokens(c), CondTail(s), after);
    case Loop(init, c, incr, body) =>
      Unpack(For, [LParen] + (ActionTokens(init) + InitTail(s)), after);
      Enclosed([LParen], ActionTokens(init), InitTail(s), after);
  }

  /** The first token of a statement. */
  predicate Opens(tok: Token)
  {
    tok.Semi? || tok.Id? || tok.Function? || tok.Var? || tok.Return? || tok.LBrace? || tok.If? || tok.For?
  }

  lemma StmtOpens(s: Stmt, after: seq<Token>)
    requires after != []
    ensures StmtTokens(s) + after != [] && Opens((StmtTokens(s) + after)[0])
  {
    StmtFirst(s, after);
    if s.Do? { ActionFirst(s.a, [Semi] + after); }
  }

  lemma BodyOpens(body: Stmts, after: seq<Token>)
    requires after != []
    ensures var rest := BodyTokens(body) + after; rest != [] && (Opens(rest[0]) || rest[0] == after[0])
  {
    if body.Then? {
      Regroup(StmtTokens(body.s), BodyTokens(body.rest), after);
      StmtOpens(body.s, BodyTokens(body.rest) + after);
    }
  }
}
