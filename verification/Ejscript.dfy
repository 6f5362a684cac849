/** The Ejscript parser of ejparse.c, which evaluates while it parses, with one token of putback. */
module Ejscript {
  import opened Basics
  import opened EjExpressions
  import opened EjPrograms
  import opened EjGoals
  import opened Numbers

  class Ej {
    const script: seq<Token>
    const call: (Env, string, seq<string>) -> (int, Env)
    ghost const ops: Operators := Language(call)
    ghost const depth: nat
    var input: Input
    var result: string
    var env: Env
    var error: bool
    var func: Option<Func>
    ghost var bare: seq<string>      // declarations without a value met so far

    ghost predicate Valid()
      reads this
    {
      InputOk(script, input)
    }

    ghost function Ahead(): (r: seq<Token>)
      reads this
      requires Valid()
    {
      Rest(script, input)
    }

    ghost function Now(): (s: State)
      reads this
      requires Valid()
    {
      State(env, result, error, func, Ahead())
    }

    ghost function Fx(): (e: Effects)
      reads this
    {
      Effects(env, bare)
    }

    /** What a goal comes to from here. */
    ghost function Tells(goal: Goal, exe: bool): (r: Outcome)
      reads this
    {
      Told(depth, ops, goal, exe, env, result, error)
    }

    /** No declaration can be met. */
    ghost predicate Calm(mode: Mode)
    {
      Token.Var !in script && mode != Dec && mode != DecList
    }

    constructor (tokens: seq<Token>, functions: (Env, string, seq<string>) -> (int, Env), env0: Env)
      ensures Valid() && Ahead() == tokens && env == env0 && bare == [] && !error && script == tokens && call == functions
      ensures func == None && result == "" && input == Input(0, None)
    {
      script, call, input, result := tokens, functions, Input(0, None), "";
      env, error, func, bare := env0, false, None, [];
    }

    // ----- Tokens -----

    method GetToken() returns (tok: Token)
      requires Valid()
      modifies this`input
      ensures Valid() && input.putback.None? && (Token.Var !in script ==> tok != Token.Var)
      ensures old(Ahead()) == [] ==> tok == Eof && Ahead() == []
      ensures old(Ahead()) != [] ==> tok == old(Ahead())[0] && Ahead() == old(Ahead())[1..]
    {
      if input.putback.Some? {
        tok := input.putback.value;
        input := input.(putback := None);
      } else if input.pos == |script| {
        tok := Eof;
      } else {
        tok := script[input.pos];
        input := input.(pos := input.pos + 1);
      }
    }

    /** Put a token back; an error token is lost. */
    method PutBack(tok: Token)
      requires Valid() && (Token.Var !in script ==> tok != Token.Var)
      modifies this`input
      ensures Valid()
      ensures old(input.putback).None? && !tok.LexError? ==> Ahead() == [tok] + old(Ahead())
    {
      input := input.(putback := if tok.LexError? then None else Some(tok));
    }

    method RemoveNewlines()
      requires Valid()
      modifies this`input
      ensures Valid()
      ensures old(Ahead()) != [] && !old(Ahead())[0].Newline? && !old(Ahead())[0].LexError? ==> Ahead() == old(Ahead())
    {
      ghost var rest := Ahead();
      var tok := GetToken();
      assert rest != [] ==> rest == [tok] + rest[1..];
      while tok.Newline?
        invariant Valid() && input.putback.None? && (Token.Var !in script ==> tok != Token.Var)
        invariant rest != [] && !rest[0].Newline? ==> tok == rest[0] && Ahead() == rest[1..]
        decreases |Ahead()|, tok.Newline?
      {
        tok := GetToken();
      }
      PutBack(tok);
    }

    // ----- Dispatch -----

    /** Parse in a mode; a failed parse always leaves an error note. */
    method Parse(mode: Mode, exe: bool, fuel: nat, ghost goal: Goal) returns (code: Code)
      requires Valid() && Ready(depth, goal, Ahead(), fuel) && Parsed(goal, mode)
      modifies this
      ensures Valid() && (code == ErrState ==> error)
      ensures Lawful(depth, exe, Calm(mode), old(Fx()), Fx())
      ensures Met(depth, goal, old(Tells(goal, exe)), old(func), code, Now())
      decreases fuel, 10
    {
      ghost var o, f := Tells(goal, exe), func;
      ToldKind(depth, ops, goal, exe, env, result, error);
      if mode == Stmt || mode == Dec || mode == Expr {
        code := ParseStmt(mode, exe, fuel, goal);
      } else {
        code := ParseOther(mode, exe, fuel, goal);
      }
      ghost var code0, b := code, Now();
      if mode == Stmt || mode == Dec || mode == Expr {
        if !Accepts(mode, code) {
          code := Failure(code);
        }
      }
      if code == ErrState && !error {
        error := true;
      }
      MetStays(depth, goal, o, f, mode, code0, b, code, Now());
    }

    method ParseOther(mode: Mode, exe: bool, fuel: nat, ghost goal: Goal) returns (code: Code)
      requires Valid() && Ready(depth, goal, Ahead(), fuel) && Parsed(goal, mode) && mode != Stmt && mode != Dec && mode != Expr
      modifies this
      ensures Valid() && Lawful(depth, exe, Calm(mode), old(Fx()), Fx())
      ensures Met(depth, goal, old(Tells(goal, exe)), old(func), code, Now())
      decreases fuel, 9
    {
      if mode == DecList {
        code := ParseDeclaration(exe, fuel, goal);
      } else if mode == ArgList {
        code := ParseArgs(exe, fuel, goal);
      } else if mode == Cond {
        code := ParseCond(exe, fuel, goal);
      } else if mode == RelExp {
        code := ParseExpr(exe, fuel, goal);
      } else {
        code := ErrState;
        LawfulSame(depth, exe, Calm(mode), Fx());
        MetIs(depth, goal, Tells(goal, exe), func, code, Now());
      }
    }

    // ----- Statements -----

    /** A statement, a declaration or an operand. */
    method ParseStmt(mode: Mode, exe: bool, fuel: nat, ghost goal: Goal) returns (code: Code)
      requires Valid() && Ready(depth, goal, Ahead(), fuel) && Single(goal) && (goal.Free? || mode == ModeOf(goal))
      modifies this
      ensures Valid() && Lawful(depth, exe, Calm(mode), old(Fx()), Fx())
      ensures Met(depth, goal, old(Tells(goal, exe)), old(func), code, Now())
      decreases fuel, 9
    {
      ghost var o, f := Tells(goal, exe), func;
      LawfulSame(depth, exe, Calm(mode), Fx());
      ghost var t := if o.Stuck? then Free else goal;
      FreeIsReady(depth, Ahead(), fuel);
      if !t.Free? { HasToken(depth, t, Ahead(), fuel); }
      if fuel == 0 {
        MetIs(depth, goal, o, f, CutOff, Now());
        return CutOff;
      }
      var flow := FirstTokens(mode, exe, fuel, t);
      ghost var b := Now();
      if flow.Leave? {
        code := flow.code;
      } else {
        code := EndOfStmt(flow.mode, flow.expectSemi, if t.Doing? then t.after else []);
      }
      if t.Free? {
        MetIs(depth, goal, o, f, code, Now());
      } else {
        if t.Doing? { DoingEnds(depth, t, old(Ahead()), fuel); }
        LandsMet(depth, t, o, f, flow, b, code, Now());
      }
    }

    /** Tokens until the statement is decided. */
    method FirstTokens(mode: Mode, exe: bool, fuel: nat, ghost goal: Goal) returns (flow: Flow)
      requires Valid() && fuel > 0 && Ready(depth, goal, Ahead(), fuel) && Single(goal) && (goal.Free? || mode == ModeOf(goal))
      requires !goal.Free? ==> !Tells(goal, exe).Stuck?
      modifies this
      ensures Valid() && !flow.Again? && Lawful(depth, exe, Calm(mode), old(Fx()), Fx())
      ensures Landed(goal, old(Tells(goal, exe)), old(func), flow, Now())
      decreases fuel, 8
    {
      ghost var fx, o, f := Fx(), Tells(goal, exe), func;
      if !goal.Free? { HasToken(depth, goal, Ahead(), fuel); }
      flow := OneToken(mode, exe, fuel - 1, goal);
      LandsIs(depth, goal, o, f, flow, Now());
      if flow.Again? {
        ghost var b, mid, first := Now(), Fx(), flow;
        FreeIsReady(depth, b.rest, fuel - 1);
        if !goal.Free? { LeftReady(depth, ops, goal, o, f, flow, b, fuel - 1, exe); }
        flow := MoreTokens(flow.mode, exe, fuel - 1, LeftGoal(goal, flow, b.rest));
        LawfulToo(depth, exe, Calm(first.mode), exe, Calm(mode), mid, Fx(), Fx());
        LawfulTrans(depth, exe, Calm(mode), fx, mid, Fx());
        if !goal.Free? { LeftLands(goal, o, f, first, b, flow, Now()); }
      }
    }

    /** The tokens after one that did not end the statement. */
    method MoreTokens(mode: Mode, exe: bool, fuel: nat, ghost goal: Goal) returns (flow: Flow)
      requires Valid() && Ready(depth, goal, Ahead(), fuel) && (goal.Free? || mode == ModeOf(goal))
      requires goal.Free? || goal.Recovering? || (goal.Doing? && goal.s.Skip?)
      requires !goal.Free? ==> !Tells(goal, exe).Stuck?
      modifies this
      ensures Valid() && !flow.Again? && Lawful(depth, exe, Calm(mode), old(Fx()), Fx())
      ensures Landed(goal, old(Tells(goal, exe)), old(func), flow, Now())
      decreases fuel, 8
    {
      ghost var fx, o, f := Fx(), Tells(goal, exe), func;
      LawfulSame(depth, exe, Calm(mode), fx);
      if !goal.Free? { HasToken(depth, goal, Ahead(), fuel); }
      if fuel == 0 {
        return Leave(CutOff);
      }
      var n: nat := fuel - 1;
      flow := OneToken(mode, exe, n, goal);
      LandsIs(depth, goal, o, f, flow, Now());
      while flow.Again?
        invariant Valid() && n < fuel && Lawful(depth, exe, Calm(mode), fx, Fx())
        invariant flow.Again? ==> goal.Free? && (flow.mode == mode || flow.mode == Bad)
        invariant !flow.Again? ==> Landed(goal, o, f, flow, Now())
        decreases n, flow.Again?
      {
        if n == 0 {
          return Leave(CutOff);
        }
        n := n - 1;
        ghost var mid, next := Fx(), flow.mode;
        FreeIsReady(depth, Ahead(), n + 1);
        flow := OneToken(flow.mode, exe, n, Free);
        LawfulToo(depth, exe, Calm(next), exe, Calm(mode), mid, Fx(), Fx());
        LawfulTrans(depth, exe, Calm(mode), fx, mid, Fx());
      }
    }

    /** The semicolon, where one is due, and the code of the mode. */
    method EndOfStmt(mode: Mode, expectSemi: bool, ghost after: seq<Token>) returns (code: Code)
      requires Valid()
      modifies this`input
      ensures Valid()
      ensures !expectSemi ==> input == old(input)
      ensures expectSemi && after != [] && !after[0].Newline? && !after[0].LexError? && old(Ahead()) == [Semi] + after ==>
                Ahead() == after && (mode == Stmt ==> code == StmtDone)
      ensures !expectSemi ==> code == match mode case Stmt => StmtDone case Dec => DecDone case Expr => ExprDone case _ => ErrState
    {
      if expectSemi {
        ghost var rest := Ahead();
        var tok := GetToken();
        assert ([Semi] + after)[1..] == after;
        if !tok.Semi? && !tok.Newline? {
          return ErrState;
        }
        RemoveNewlines();
      }
      match mode {
        case Stmt => code := StmtDone;
        case Dec => code := DecDone;
        case Expr => code := ExprDone;
        case _ => code := ErrState;
      }
    }

    /** The case of one token of a statement. */
    method OneToken(mode: Mode, exe: bool, fuel: nat, ghost goal: Goal) returns (flow: Flow)
      requires Valid() && Ready(depth, goal, Ahead(), fuel + 1) && Single(goal) && (goal.Free? || mode == ModeOf(goal))
      requires !goal.Free? ==> !Tells(goal, exe).Stuck?
      modifies this
      ensures Valid() && Lawful(depth, exe, Calm(mode), old(Fx()), Fx()) && (flow.Again? ==> flow.mode == mode || flow.mode == Bad)
      ensures Lands(depth, goal, old(Tells(goal, exe)), old(func), flow, Now())
      decreases fuel, 7
    {
      if !goal.Free? { HasToken(depth, goal, Ahead(), fuel + 1); }
      var tok := GetToken();
      if goal.Free? { FreeIsReady(depth, [tok] + Ahead(), fuel + 1); }
      if tok.Id? {
        flow := OnId(mode, exe, tok.name, fuel, goal);
      } else if tok.Function? {
        flow := OnFunction(mode, exe, tok.name, fuel, goal);
      } else if tok.LParen? {
        flow := OnLParen(mode, exe, fuel, goal);
      } else if Keyword(tok) {
        flow := OnKeyword(tok, mode, exe, fuel, goal);
      } else {
        flow := PlainToken(tok, mode, exe, fuel, goal);
      }
    }

    /** A token that is a case of its own. */
    method PlainToken(tok: Token, mode: Mode, exe: bool, ghost fuel: nat, ghost goal: Goal) returns (flow: Flow)
      requires Valid() && input.putback.None? && Ready(depth, goal, [tok] + Ahead(), fuel + 1) && Plain(tok)
      requires Single(goal) && (goal.Free? || mode == ModeOf(goal))
      modifies this`input, this`result
      ensures Valid() && Lawful(depth, exe, Calm(mode), old(Fx()), Fx()) && (flow.Again? ==> flow.mode == mode)
      ensures Lands(depth, goal, old(Tells(goal, exe)), old(func), flow, Now())
    {
      ghost var o, a := Tells(goal, exe), Now();
      if !goal.Free? { PlainGoal(depth, ops, goal, tok, Ahead(), fuel + 1, exe, env, result, error); }
      flow := PlainCase(tok, mode);
      LawfulSame(depth, exe, Calm(mode), Fx());
      if goal.Free? {
        LandsIs(depth, goal, o, func, flow, Now());
      } else {
        PlainLands(depth, goal, tok, o, a, flow, Now());
      }
    }

    method PlainCase(tok: Token, mode: Mode) returns (flow: Flow)
      requires Valid() && input.putback.None? && Plain(tok)
      modifies this`input, this`result
      ensures Valid() && PlainDone(tok, mode, old(Now()), flow, Now())
      ensures flow.Again? ==> flow.mode == mode
    {
      if tok.Newline? {
        flow := Again(mode);
      } else if tok.LexError? {
        flow := Finish(Bad, false);
      } else if tok.Eof? {
        flow := Leave(EofState);
      } else if tok.Semi? {
        if mode != Stmt { PutBack(Semi); }
        flow := Finish(mode, false);
      } else if tok.Literal? {
        result := tok.text;
        flow := Finish(mode, mode == Stmt);
      } else if tok.RParen? {
        PutBack(RParen);
        flow := Leave(ExprDone);
      } else if tok.RBrace? {
        flow := OnRBrace(mode);
      } else {
        PutBack(ExprOp(TokenCode(tok)));
        flow := Finish(mode, false);
      }
    }

    /** A closing brace ends the statements of a block. */
    method OnRBrace(mode: Mode) returns (flow: Flow)
      requires Valid() && input.putback.None?
      modifies this`input
      ensures Valid() && !flow.Again?
      ensures mode == Stmt ==> flow == Leave(BlockDone) && Ahead() == [RBrace] + old(Ahead())
    {
      if mode != Stmt {
        return Leave(ErrState);
      }
      PutBack(RBrace);
      flow := Leave(BlockDone);
    }

    // ----- Names -----

    /** A name: an assignment, an increment, a declaration or a reference. */
    method OnId(mode: Mode, exe: bool, name: string, fuel: nat, ghost goal: Goal) returns (flow: Flow)
      requires Valid() && input.putback.None? && Ready(depth, goal, [Id(name)] + Ahead(), fuel + 1)
      requires Single(goal) && (goal.Free? || mode == ModeOf(goal)) && (!goal.Free? ==> !Tells(goal, exe).Stuck?)
      modifies this
      ensures Valid() && Lawful(depth, exe, Calm(mode), old(Fx()), Fx()) && (flow.Again? ==> flow.mode == Bad)
      ensures Lands(depth, goal, old(Tells(goal, exe)), old(func), flow, Now())
      decreases fuel, 4
    {
      ghost var o, f := Tells(goal, exe), func;
      if !goal.Free? { IdGoal(depth, goal, name, Ahead(), fuel + 1); }
      var tok := GetToken();
      if tok.Assignment? {
        flow := OnAssignment(mode, exe, name, fuel, goal);
      } else if tok.IncDec? {
        flow := OnIncDec(mode, exe, name, tok.op, goal);
      } else {
        flow := OnName(mode, exe, name, tok, goal);
      }
      LandsIs(depth, goal, o, f, flow, Now());
    }

    /** Evaluate the right-hand side and set the variable. */
    method OnAssignment(mode: Mode, exe: bool, name: string, fuel: nat, ghost goal: Goal) returns (flow: Flow)
      requires Valid() && Single(goal) && (goal.Free? || mode == ModeOf(goal))
      requires !goal.Free? ==>
                 && AssignOf(goal).Some? && NameOf(goal) == name && fuel > 4
                 && Ready(depth, Chained(AssignOf(goal).value, Past(goal)), Ahead(), fuel - 4)
      modifies this
      ensures Valid() && Lawful(depth, exe, Calm(mode), old(Fx()), Fx()) && !flow.Again?
      ensures Landed(goal, old(Tells(goal, exe)), old(func), flow, Now())
      decreases fuel, 3
    {
      ghost var fx, a, sub := Fx(), Now(), Free;
      LawfulSame(depth, exe, Calm(mode), Fx());
      if fuel == 0 {
        return Leave(CutOff);
      }
      FreeIsReady(depth, Ahead(), fuel - 1);
      if !goal.Free? {
        sub := Chained(AssignOf(goal).value, Past(goal));
        MoreFuel(depth, sub, Ahead(), fuel - 4, fuel - 1);
      }
      var code := Parse(RelExp, exe, fuel - 1, sub);
      ghost var b, mid := Now(), Fx();
      if code != RelExpDone {
        flow := Leave(Failure(code));
      } else {
        if exe {
          env := if mode == Dec then SetLocal(env, name, Some(result)) else Assign(env, name, result);
        }
        flow := Finish(mode, mode == Stmt);
      }
      LawfulToo(depth, exe, Calm(RelExp), exe, Calm(mode), fx, mid, Fx());
      if !goal.Free? { AssignLands(depth, ops, goal, exe, a, code, b, flow, Now()); }
    }

    /** Add one to a variable, or take one away, in the frame that has it. */
    method OnIncDec(mode: Mode, exe: bool, name: string, op: int, ghost goal: Goal) returns (flow: Flow)
      requires Valid() && Single(goal) && (goal.Free? || mode == ModeOf(goal)) && (!goal.Free? ==> !Tells(goal, exe).Stuck?)
      requires !goal.Free? ==> BumpOf(goal) == Some(op) && NameOf(goal) == name && Ahead() == Past(goal) && EndsAction(Past(goal))
      modifies this`result, this`env, this`error
      ensures Lawful(depth, exe, Calm(mode), old(Fx()), Fx()) && (flow.Again? ==> flow.mode == Bad)
      ensures Landed(goal, old(Tells(goal, exe)), old(func), flow, Now()) || GoesAgain(goal, old(Tells(goal, exe)), old(func), flow, Now())
    {
      ghost var a, fx, o := Now(), Fx(), Tells(goal, exe);
      LawfulSame(depth, exe, Calm(mode), fx);
      flow := Bump(mode, exe, name, op);
      LawfulToo(depth, exe, Calm(mode), exe, Calm(mode), fx, fx, Fx());
      if !goal.Free? {
        BumpMeans(depth, ops, goal, exe, a.env, a.result, a.error);
        BumpLands(ops, goal, exe, o, a, flow, Now());
      }
    }

    method Bump(mode: Mode, exe: bool, name: string, op: int) returns (flow: Flow)
      requires Valid()
      modifies this`result, this`env, this`error
      ensures !exe ==> env == old(env)
      ensures flow.Again? ==> flow.mode == Bad
      ensures BumpDone(ops, mode, exe, name, op, old(Now()), flow, Now())
    {
      if exe {
        var (scope, value) := GetVar(env, name);
        if scope < 0 {
          error := true;
          return Leave(ErrState);
        }
        result := TextOf(value);
        if value.None? {
          return Leave(CutOff);
        }
        var v := EvalExpr(result, op, "1");
        if v.None? {
          error := true;
          return Again(Bad);
        }
        result := v.value;
        env := if scope > 0 then SetLocal(env, name, Some(result)) else env.(globals := env.globals[name := Some(result)]);
      }
      flow := Finish(mode, mode == Stmt);
    }

    /** A name alone: a declaration, or a reference to a variable. A second declaration does not put the token back. */
    method OnName(mode: Mode, exe: bool, name: string, tok: Token, ghost goal: Goal) returns (flow: Flow)
      requires Valid() && input.putback.None? && (Token.Var !in script ==> tok != Token.Var)
      requires Single(goal) && (goal.Free? || mode == ModeOf(goal))
      requires !goal.Free? ==> NameForm(goal, name, tok, Ahead())
      modifies this
      ensures Valid() && Lawful(depth, exe, Calm(mode), old(Fx()), Fx()) && !flow.Again?
      ensures Landed(goal, old(Tells(goal, exe)), old(func), flow, Now())
    {
      ghost var fx, a := Fx(), Now();
      LawfulSame(depth, exe, Calm(mode), fx);
      flow := Finish(mode, mode == Stmt);
      if mode == Dec {
        var (scope, value) := GetVar(env, name);
        if scope > 0 {
          error := true;
          flow := Leave(ErrState);
        } else {
          Declare(exe, name);
          result := TextOf(value);
        }
      } else {
        result := VarText(env, exe, name);
      }
      if !flow.Leave? {
        PutBack(tok);
      }
      if !goal.Free? { NameLands(depth, ops, goal, name, tok, exe, a, flow, Now()); }
    }

    /** Declare a name without a value, whether executing or not. */
    method Declare(ghost exe: bool, name: string)
      modifies this`env, this`bare
      ensures env == SetLocal(old(env), name, None) && Lawful(depth, exe, false, old(Fx()), Fx())
    {
      ghost var fx := Fx();
      env := SetLocal(env, name, None);
      bare := bare + [name];
      QuietDeclare(fx, name, Fx());
      LawfulIs(depth, exe, false, fx, Fx());
    }

    /** A function call. It is made only when executing, but the result is always the last return text. */
    method OnFunction(mode: Mode, exe: bool, name: string, fuel: nat, ghost goal: Goal) returns (flow: Flow)
      requires Valid() && input.putback.None? && Ready(depth, goal, [Function(name)] + Ahead(), fuel + 1)
      requires Single(goal) && (goal.Free? || mode == ModeOf(goal))
      modifies this
      ensures Valid() && Lawful(depth, exe, Calm(mode), old(Fx()), Fx()) && !flow.Again?
      ensures Lands(depth, goal, old(Tells(goal, exe)), old(func), flow, Now())
      decreases fuel, 4
    {
      ghost var o, f := Tells(goal, exe), func;
      LawfulSame(depth, exe, Calm(mode), Fx());
      if !goal.Free? {
        FunctionGoal(depth, goal, name, Ahead(), fuel + 1);
        CallMeans(depth, ops, goal, exe, env, result, error);
      }
      if fuel == 0 {
        flow := Leave(CutOff);
      } else {
        flow := CallFunction(mode, exe, name, fuel, goal, o);
      }
      LandsIs(depth, goal, o, f, flow, Now());
    }

    method CallFunction(mode: Mode, exe: bool, name: string, fuel: nat, ghost goal: Goal, ghost o: Outcome) returns (flow: Flow)
      requires Valid() && fuel > 0 && Single(goal) && (goal.Free? || mode == ModeOf(goal))
      requires !goal.Free? ==>
                 && CallOf(goal).Some? && NameOf(goal) == name && fuel > 2
                 && Ahead() == [LParen] + (ArgsTokens(ArgsGoal(goal).args) + ArgsGoal(goal).after)
                 && Ready(depth, ArgsGoal(goal), ArgsTokens(ArgsGoal(goal).args) + ArgsGoal(goal).after, fuel - 2)
                 && o == CallOutcomes(ops, goal, exe, Told(depth, ops, ArgsGoal(goal), exe, env, "", error))
      modifies this
      ensures Valid() && Lawful(depth, exe, Calm(mode), old(Fx()), Fx()) && !flow.Again?
      ensures Landed(goal, o, old(func), flow, Now())
      decreases fuel, 3
    {
      ghost var fx := Fx();
      var saved := func;
      var found, code := Gather(exe, name, fuel, goal, o);
      LawfulToo(depth, exe, Calm(ArgList), exe, Calm(mode), fx, Fx(), Fx());
      if !found {
        return Leave(ErrState);
      }
      if code != ArgListDone {
        func := saved;
        return Leave(Failure(code));
      }
      ghost var mid := Fx();
      flow := CallNow(mode, exe, name, saved, goal);
      LawfulTrans(depth, exe, Calm(mode), fx, mid, Fx());
    }

    /** A new function with no arguments, and those that follow. */
    method Gather(exe: bool, name: string, fuel: nat, ghost goal: Goal, ghost o: Outcome) returns (found: bool, code: Code)
      requires Valid() && fuel > 0 && Single(goal)
      requires !goal.Free? ==>
                 && CallOf(goal).Some? && NameOf(goal) == name && fuel > 2
                 && Ahead() == [LParen] + (ArgsTokens(ArgsGoal(goal).args) + ArgsGoal(goal).after)
                 && Ready(depth, ArgsGoal(goal), ArgsTokens(ArgsGoal(goal).args) + ArgsGoal(goal).after, fuel - 2)
                 && o == CallOutcomes(ops, goal, exe, Told(depth, ops, ArgsGoal(goal), exe, env, "", error))
      modifies this
      ensures Valid() && Lawful(depth, exe, Calm(ArgList), old(Fx()), Fx())
      ensures !goal.Free? ==> found && Gathered(ops, goal, exe, old(func), o, code, Now())
      decreases fuel, 2
    {
      ghost var saved, args := func, if goal.Free? then Free else ArgsGoal(goal);
      func := Some(Func(name, []));
      result := "";
      ghost var a := Now();
      found, code := Collect(exe, fuel, args);
      if !goal.Free? { ArgsLand(depth, ops, goal, exe, saved, a, code, Now()); }
    }

    /** The opening parenthesis and the arguments of a call. */
    method Collect(exe: bool, fuel: nat, ghost args: Goal) returns (found: bool, code: Code)
      requires Valid() && fuel > 0 && (args.Free? || args.Arguments?)
      requires args.Arguments? ==>
                 && Ahead() == [LParen] + (ArgsTokens(args.args) + args.after) && fuel > 2
                 && Ready(depth, args, ArgsTokens(args.args) + args.after, fuel - 2)
      modifies this
      ensures Valid() && Lawful(depth, exe, Calm(ArgList), old(Fx()), Fx())
      ensures Met(depth, args, old(Tells(args, exe)), old(func), code, Now()) && (!args.Free? ==> found)
      decreases fuel, 1
    {
      ghost var rest := Ahead();
      LawfulSame(depth, exe, Calm(ArgList), Fx());
      found, code := false, ErrState;
      if args.Free? {
        MetIs(depth, args, Tells(args, exe), func, code, Now());
      } else {
        Headed(LParen, ArgsTokens(args.args) + args.after, rest);
        MoreFuel(depth, args, ArgsTokens(args.args) + args.after, fuel - 2, fuel - 1);
      }
      var tok := GetToken();
      if args.Free? {
        FreeIsReady(depth, Ahead(), fuel - 1);
        MetIs(depth, args, Tells(args, exe), func, code, Now());
      }
      if tok.LParen? {
        found := true;
        code := Parse(ArgList, exe, fuel - 1, args);
      }
    }

    /** When executing, call the function with the arguments collected; then the one before it is current again. */
    method MakeCall(exe: bool, name: string, saved: Option<Func>) returns (ok: bool)
      modifies this`env, this`func
      ensures func == saved && (!exe ==> env == old(env))
      ensures var args := if old(func).Some? then old(func).value.args else [];
              var c := Called(ops, exe, old(env), name, args, error);
              ok == c.Value? && env == c.env && (ok ==> c.v == env.ret)
    {
      ok := true;
      if exe {
        var args := if func.Some? then func.value.args else [];
        var (rc, env') := call(env, name, args);
        env := env'.(calls := env.calls + [(name, args)]);
        ok := rc >= 0;
      }
      func := saved;
    }

    /** Call the function, and take the closing parenthesis. */
    method CallNow(mode: Mode, exe: bool, name: string, saved: Option<Func>, ghost goal: Goal) returns (flow: Flow)
      requires Valid() && Single(goal) && (goal.Free? || mode == ModeOf(goal))
      requires !goal.Free? ==> CallOf(goal).Some? && func.Some? && Ahead() == [RParen] + Past(goal)
      modifies this
      ensures Valid() && Lawful(depth, exe, Calm(mode), old(Fx()), Fx()) && !flow.Again?
      ensures !goal.Free? ==>
                Landed(goal, CallOutcome(goal, Called(ops, exe, old(env), name, old(func).value.args, old(error))), saved, flow, Now())
    {
      ghost var a, fx := Now(), Fx();
      LawfulSame(depth, exe, Calm(mode), fx);
      ghost var args := if func.Some? then func.value.args else [];
      var ok := MakeCall(exe, name, saved);
      flow := Leave(ErrState);
      if ok {
        result := env.ret;
        if !goal.Free? { Headed(RParen, Past(goal), Ahead()); }
        var tok := GetToken();
        if tok.RParen? {
          flow := Finish(mode, mode == Stmt);
        }
      }
      LawfulToo(depth, exe, Calm(mode), exe, Calm(mode), fx, fx, Fx());
      if !goal.Free? { CallLands(ops, goal, exe, name, args, a, saved, ok, flow, Now()); }
    }

    /** A parenthesis: in an expression it encloses an operand. */
    method OnLParen(mode: Mode, exe: bool, fuel: nat, ghost goal: Goal) returns (flow: Flow)
      requires Valid() && input.putback.None? && Ready(depth, goal, [LParen] + Ahead(), fuel + 1)
      requires Single(goal) && (goal.Free? || mode == ModeOf(goal))
      modifies this
      ensures Valid() && Lawful(depth, exe, Calm(mode), old(Fx()), Fx()) && !flow.Again?
      ensures Lands(depth, goal, old(Tells(goal, exe)), old(func), flow, Now())
      decreases fuel, 3
    {
      ghost var o, f, sub := Tells(goal, exe), func, Free;
      LawfulSame(depth, exe, Calm(mode), Fx());
      if !goal.Free? {
        ParenGoal(depth, ops, goal, Ahead(), fuel + 1, exe, env, result, error);
        sub := Chained(goal.t.e, [RParen] + goal.after);
      }
      if mode != Expr {
        flow := Finish(mode, false);
      } else if fuel == 0 {
        flow := Leave(CutOff);
      } else {
        FreeIsReady(depth, Ahead(), fuel - 1);
        flow := Parenthesis(exe, fuel, sub);
      }
      LandsIs(depth, goal, o, f, flow, Now());
    }

    method Parenthesis(exe: bool, fuel: nat, ghost sub: Goal) returns (flow: Flow)
      requires Valid() && fuel > 0 && (sub.Free? || (sub.Chained? && sub.after != [] && sub.after[0].RParen?))
      requires Ready(depth, sub, Ahead(), fuel - 1)
      modifies this
      ensures Valid() && Lawful(depth, exe, Calm(Expr), old(Fx()), Fx()) && !flow.Again?
      ensures !sub.Free? ==>
                var r := old(Tells(sub, exe));
                && Holds(r, old(func), Now()) && (r.Value? || r.Broke?)
                && if r.Broke? then flow == Leave(ErrState) && Ahead() == r.left + sub.after
                   else flow == Leave(ExprDone) && Ahead() == sub.after[1..]
      decreases fuel, 2
    {
      ghost var r, f := Tells(sub, exe), func;
      ToldKind(depth, ops, sub, exe, env, result, error);
      var code := Parse(RelExp, exe, fuel - 1, sub);
      MetIs(depth, sub, r, f, code, Now());
      if code != RelExpDone {
        return Leave(Failure(code));
      }
      var tok := GetToken();
      flow := Leave(if tok.RParen? then ExprDone else ErrState);
    }

    // ----- Keywords -----

    /** The tokens that begin a statement of several parts. */
    method OnKeyword(tok: Token, mode: Mode, exe: bool, fuel: nat, ghost goal: Goal) returns (flow: Flow)
      requires Valid() && Ready(depth, goal, [tok] + Ahead(), fuel + 1) && Keyword(tok)
      requires Single(goal) && (goal.Free? || mode == ModeOf(goal)) && (!goal.Free? ==> !Tells(goal, exe).Stuck?)
      requires tok == Token.Var ==> Token.Var in script
      modifies this
      ensures Valid() && Lawful(depth, exe, Calm(mode), old(Fx()), Fx()) && (flow.Again? ==> flow.mode == mode)
      ensures Lands(depth, goal, old(Tells(goal, exe)), old(func), flow, Now())
      decreases fuel, 6
    {
      ghost var o, f := Tells(goal, exe), func;
      if !goal.Free? { KeywordGoal(depth, goal, tok, Ahead(), fuel + 1); }
      if tok.If? {
        flow := OnIf(mode, exe, fuel, goal);
      } else if tok.For? {
        flow := OnFor(mode, exe, fuel, goal);
      } else if tok.LBrace? {
        flow := OnLBrace(mode, exe, fuel, goal);
      } else if tok.Var? {
        flow := OnVar(mode, exe, fuel, goal);
      } else {
        flow := OnReturn(mode, exe, fuel, goal);
      }
      LandsIs(depth, goal, o, f, flow, Now());
    }

    /** A declaration. */
    method OnVar(mode: Mode, exe: bool, fuel: nat, ghost goal: Goal) returns (flow: Flow)
      requires Valid() && Token.Var in script && (goal.Free? || (Begun(goal, Token.Var, Ahead(), fuel) && mode == Stmt && goal.s.Declare?))
      modifies this
      ensures Valid() && Lawful(depth, exe, Calm(mode), old(Fx()), Fx()) && !flow.Again?
      ensures Landed(goal, old(Tells(goal, exe)), old(func), flow, Now())
      decreases fuel, 3
    {
      ghost var f, sub := func, Free;
      LawfulSame(depth, exe, Calm(mode), Fx());
      if !goal.Free? {
        DeclareMeans(depth, ops, goal, Ahead(), fuel + 1, exe, env, result, error);
        sub := Listing(goal.s.ds, goal.after);
      }
      if fuel == 0 {
        return Leave(CutOff);
      }
      if goal.Free? { FreeIsReady(depth, Ahead(), fuel - 1); }
      ghost var r := Tells(sub, exe);
      ToldKind(depth, ops, sub, exe, env, result, error);
      var code := Parse(DecList, exe, fuel - 1, sub);
      MetIs(depth, sub, r, f, code, Now());
      flow := if code == DecListDone then Finish(mode, false) else Leave(Failure(code));
    }

    /** A return: evaluate, and when executing skip the rest of the script. */
    method OnReturn(mode: Mode, exe: bool, fuel: nat, ghost goal: Goal) returns (flow: Flow)
      requires Valid() && (goal.Free? || (Begun(goal, Token.Return, Ahead(), fuel) && mode == Stmt && goal.s.Return?))
      modifies this
      ensures Valid() && Lawful(depth, exe, Calm(mode), old(Fx()), Fx()) && (flow.Again? ==> flow.mode == mode)
      ensures Landed(goal, old(Tells(goal, exe)), old(func), flow, Now()) || GoesAgain(goal, old(Tells(goal, exe)), old(func), flow, Now())
      decreases fuel, 3
    {
      ghost var f, sub := func, Free;
      LawfulSame(depth, exe, Calm(mode), Fx());
      if !goal.Free? {
        ReturnMeans(depth, ops, goal, Ahead(), fuel + 1, exe, env, result, error);
        sub := ReturnedGoal(goal);
      }
      if fuel == 0 {
        return Leave(CutOff);
      }
      if goal.Free? { FreeIsReady(depth, Ahead(), fuel - 1); }
      ghost var fx, r := Fx(), Tells(sub, exe);
      var code := Parse(RelExp, exe, fuel - 1, sub);
      MetIs(depth, sub, r, f, code, Now());
      LawfulToo(depth, exe, Calm(RelExp), exe, Calm(mode), fx, Fx(), Fx());
      if code != RelExpDone {
        if !goal.Free? && r.Broke? { Regroup(r.left, [Semi], goal.after); }
        return Leave(Failure(code));
      }
      if !exe {
        return Again(mode);
      }
      SkipScript();
      flow := Leave(RetState);
    }

    method SkipScript()
      requires Valid()
      modifies this`input
      ensures Valid()
    {
      var tok := GetToken();
      while !tok.Eof?
        invariant Valid()
        decreases |Ahead()|, !tok.Eof?
      {
        tok := GetToken();
      }
    }

    /** Statements up to the closing brace. After a failed statement the next token is taken for the brace. */
    method OnLBrace(mode: Mode, exe: bool, fuel: nat, ghost goal: Goal) returns (flow: Flow)
      requires Valid() && (goal.Free? || (Begun(goal, LBrace, Ahead(), fuel) && mode == Stmt && goal.s.Block? && !Tells(goal, exe).Stuck?))
      modifies this
      ensures Valid() && Lawful(depth, exe, Calm(mode), old(Fx()), Fx()) && !flow.Again?
      ensures Landed(goal, old(Tells(goal, exe)), old(func), flow, Now())
      decreases fuel, 4
    {
      ghost var a, list := Now(), Free;
      LawfulSame(depth, exe, Calm(mode), Fx());
      if mode != Stmt {
        return Leave(ErrState);
      }
      FreeIsReady(depth, Ahead(), fuel);
      if !goal.Free? {
        BlockMeans(depth, ops, goal, Ahead(), fuel + 1, exe, env, result, error);
        list := ListGoal(goal);
      }
      var code := Statements(exe, fuel, list);
      ghost var b := Now();
      if code == RetState || code == CutOff {
        flow := Leave(code);
      } else {
        var tok := GetToken();
        flow := Leave(if tok.RBrace? then StmtDone else ErrState);
      }
      if !goal.Free? { BlockLands(depth, ops, goal, exe, a, fuel, code, b, flow, Now()); }
    }

    /** Parse statements until one is not done. */
    method Statements(exe: bool, fuel: nat, ghost list: Goal) returns (code: Code)
      requires Valid() && (list.Free? || list.Body?) && Ready(depth, list, Ahead(), fuel)
      requires list.Body? ==> list.after != [] && list.after[0].RBrace? && !Tells(list, exe).Stuck?
      modifies this
      ensures Valid() && Lawful(depth, exe, Calm(Stmt), old(Fx()), Fx())
      ensures list.Body? ==> Ended(old(Tells(list, exe)), old(func), list.after, code, Now())
      decreases fuel, 3
    {
      ghost var fx, o, f, todo := Fx(), Tells(list, exe), func, list;
      LawfulSame(depth, exe, Calm(Stmt), fx);
      var n: nat := fuel;
      code := StmtDone;
      while code == StmtDone
        invariant Valid() && n <= fuel && Lawful(depth, exe, Calm(Stmt), fx, Fx())
        invariant if list.Free? then todo.Free? else todo.Body? && todo.after == list.after
        invariant list.Body? && code == StmtDone ==> Ready(depth, todo, Ahead(), n) && Tells(todo, exe) == o && func == f
        invariant list.Body? && code != StmtDone ==> Ended(o, f, list.after, code, Now())
        decreases n, code == StmtDone
      {
        if todo.Body? { BodyStep(depth, todo, Ahead(), n); }
        if n == 0 {
          return CutOff;
        }
        n := n - 1;
        ghost var mid := Fx();
        code := OneStatement(exe, n, todo, o);
        LawfulTrans(depth, exe, Calm(Stmt), fx, mid, Fx());
        if todo.Body? && todo.list.Then? { todo := RestGoal(todo); }
      }
    }

    /** The next statement of a list. */
    method OneStatement(exe: bool, fuel: nat, ghost todo: Goal, ghost o: Outcome) returns (code: Code)
      requires Valid() && (todo.Free? || todo.Body?)
      requires todo.Body? ==> Ready(depth, todo, Ahead(), fuel + 1) && Tells(todo, exe) == o && !o.Stuck?
      modifies this
      ensures Valid() && Lawful(depth, exe, Calm(Stmt), old(Fx()), Fx())
      ensures todo.Body? && code == StmtDone ==>
                && todo.list.Then? && Ready(depth, RestGoal(todo), Ahead(), fuel) && Tells(RestGoal(todo), exe) == o && func == old(func)
                && |Ahead()| < |old(Ahead())|
      ensures todo.Body? && code != StmtDone ==> todo.after != [] && Closed(o, old(func), todo.after, code, Now())
      decreases fuel, 11
    {
      ghost var next, a := Free, Now();
      if todo.Body? {
        BodyStep(depth, todo, a.rest, fuel + 1);
        next := NextGoal(todo);
      } else {
        FreeIsReady(depth, a.rest, fuel);
      }
      code := Parse(Stmt, exe, fuel, next);
      if todo.Body? { StatementLands(depth, ops, todo, exe, a, fuel, code, Now()); }
    }

    // ----- Branches -----

    /** An if statement: both branches are parsed, one of them without executing. */
    method OnIf(mode: Mode, exe: bool, fuel: nat, ghost goal: Goal) returns (flow: Flow)
      requires Valid() && (goal.Free? || (Begun(goal, If, Ahead(), fuel) && mode == Stmt && goal.s.Choice? && !Tells(goal, exe).Stuck?))
      modifies this
      ensures Valid() && Lawful(depth, exe, Calm(mode), old(Fx()), Fx()) && !flow.Again?
      ensures Landed(goal, old(Tells(goal, exe)), old(func), flow, Now())
      decreases fuel, 5
    {
      LawfulSame(depth, exe, Calm(mode), Fx());
      if mode != Stmt {
        return Leave(ErrState);
      }
      if !goal.Free? {
        IfReady(depth, goal, Ahead(), fuel);
        IfMeans(depth, ops, goal, exe, env, result, error);
      }
      if fuel == 0 {
        return Leave(CutOff);
      }
      flow := IfParts(exe, fuel, goal);
    }

    /** Condition and branches of an if. */
    method IfParts(exe: bool, fuel: nat, ghost goal: Goal) returns (flow: Flow)
      requires Valid() && fuel > 0 && (goal.Free? || (goal.Doing? && goal.s.Choice?))
      requires !goal.Free? ==>
                 && Ahead() == [LParen] + (ChainTokens(goal.s.c) + IfGoal(goal).after) && IfGoal(goal).after == [RParen] + BranchTokens(goal)
                 && Ready(depth, IfGoal(goal), ChainTokens(goal.s.c) + IfGoal(goal).after, fuel - 1)
                 && BranchesReady(depth, goal, fuel) && !IfOutcome(depth, ops, goal, exe, env, result, error).Stuck?
      modifies this
      ensures Valid() && Lawful(depth, exe, Calm(Stmt), old(Fx()), Fx()) && !flow.Again?
      ensures !goal.Free? ==> Landed(goal, IfOutcome(depth, ops, goal, exe, old(env), old(result), old(error)), old(func), flow, Now())
      decreases fuel, 4
    {
      ghost var fx, test := Fx(), if goal.Free? then Free else IfGoal(goal);
      ghost var v := Tells(test, exe);
      ToldKind(depth, ops, test, exe, env, result, error);
      var ok, code := IfCondition(exe, fuel, test, if goal.Free? then [] else BranchTokens(goal));
      if !ok {
        if !goal.Free? && v.Broke? { Regroup(v.left, CondTail(goal.s), goal.after); }
        return Leave(code);
      }
      ghost var mid := Fx();
      flow := IfElse(exe, |result| > 0 && result[0] == '1', fuel, goal);
      LawfulTrans(depth, exe, Calm(Stmt), fx, mid, Fx());
    }

    /** The condition of an if in its parentheses; ok if it parsed. */
    method IfCondition(exe: bool, fuel: nat, ghost test: Goal, ghost rest: seq<Token>) returns (ok: bool, code: Code)
      requires Valid() && fuel > 0 && (test.Free? || test.Condition?)
      requires !test.Free? ==>
                 && Ahead() == [LParen] + (ChainTokens(test.c) + test.after) && test.after == [RParen] + rest
                 && Ready(depth, test, ChainTokens(test.c) + test.after, fuel - 1)
      modifies this
      ensures Valid() && Lawful(depth, exe, Calm(Cond), old(Fx()), Fx())
      ensures !test.Free? ==> Step(old(Tells(test, exe)), old(func), ok, code, Now(), rest, test.after)
      decreases fuel, 1
    {
      ghost var r, f := Tells(test, exe), func;
      LawfulSame(depth, exe, Calm(Cond), Fx());
      ToldKind(depth, ops, test, exe, env, result, error);
      if !test.Free? {
        Headed(LParen, ChainTokens(test.c) + test.after, Ahead());
        Headed(RParen, rest, test.after);
      }
      var tok := GetToken();
      if !tok.LParen? {
        return false, ErrState;
      }
      if test.Free? { FreeIsReady(depth, Ahead(), fuel - 1); }
      code := Parse(Cond, exe, fuel - 1, test);
      MetIs(depth, test, r, f, code, Now());
      if code != CondDone {
        return false, Failure(code);
      }
      tok := GetToken();
      ok := tok.RParen?;
      code := ErrState;
    }

    /** The two branches of an if. */
    method IfElse(exe: bool, yes: bool, fuel: nat, ghost goal: Goal) returns (flow: Flow)
      requires Valid() && fuel > 0 && (goal.Free? || (goal.Doing? && goal.s.Choice?))
      requires !goal.Free? ==>
                 && Ahead() == BranchTokens(goal) && BranchesReady(depth, goal, fuel)
                 && !BranchOutcome(depth, ops, goal, exe, yes, env, error).Stuck?
      modifies this
      ensures Valid() && Lawful(depth, exe, Calm(Stmt), old(Fx()), Fx()) && !flow.Again?
      ensures !goal.Free? ==> Landed(goal, BranchOutcome(depth, ops, goal, exe, yes, old(env), old(error)), old(func), flow, Now())
      decreases fuel, 3
    {
      ghost var fx, f, t := Fx(), func, YesGoal(goal);
      if goal.Free? { FreeIsReady(depth, Ahead(), fuel - 1); }
      ghost var y := Tells(t, exe && yes);
      ToldKind(depth, ops, t, exe && yes, env, result, error);
      var code := Branch(exe && yes, fuel, t);
      LawfulToo(depth, exe && yes, Calm(Stmt), exe, Calm(Stmt), fx, Fx(), Fx());
      if code != StmtDone {
        if !goal.Free? && y.Broke? { Regroup(y.left, ElseTokens(goal.s.no), goal.after); }
        return Leave(code);
      }
      ghost var mid := Fx();
      flow := ElsePart(exe && !yes, fuel, goal);
      LawfulToo(depth, exe && !yes, Calm(Stmt), exe, Calm(Stmt), mid, Fx(), Fx());
      LawfulTrans(depth, exe, Calm(Stmt), fx, mid, Fx());
    }

    /** Parse one branch of an if. */
    method Branch(exe: bool, fuel: nat, ghost goal: Goal) returns (code: Code)
      requires Valid() && fuel > 0 && Ready(depth, goal, Ahead(), fuel - 1) && (goal.Free? || goal.Doing?)
      modifies this
      ensures Valid() && Lawful(depth, exe, Calm(Stmt), old(Fx()), Fx())
      ensures MetBy(Report(goal, old(Tells(goal, exe)), old(func), code, Now()))
      decreases fuel, 1
    {
      ghost var r, f := Tells(goal, exe), func;
      ToldKind(depth, ops, goal, exe, env, result, error);
      code := Parse(Stmt, exe, fuel - 1, goal);
      MetIs(depth, goal, r, f, code, Now());
      if code != RetState && code != StmtDone {
        code := Failure(code);
      }
    }

    /** What follows the first branch of an if: an else and its statement, or something put back. */
    method ElsePart(exe: bool, fuel: nat, ghost goal: Goal) returns (flow: Flow)
      requires Valid() && fuel > 0 && (goal.Free? || (goal.Doing? && goal.s.Choice?))
      requires !goal.Free? ==> ElseReady(depth, goal, Ahead(), fuel) && !ElseOutcome(depth, ops, goal, exe, env, error).Stuck?
      modifies this
      ensures Valid() && Lawful(depth, exe, Calm(Stmt), old(Fx()), Fx()) && !flow.Again?
      ensures !goal.Free? ==> Landed(goal, ElseOutcome(depth, ops, goal, exe, old(env), old(error)), old(func), flow, Now())
      decreases fuel, 2
    {
      LawfulSame(depth, exe, Calm(Stmt), Fx());
      var found := ElseNext(fuel, goal);
      if !found {
        return Finish(Stmt, false);
      }
      if goal.Free? { FreeIsReady(depth, Ahead(), fuel - 1); }
      ToldKind(depth, ops, NoGoal(goal), exe, env, result, error);
      var code := Branch(exe, fuel, NoGoal(goal));
      flow := if code != StmtDone then Leave(code) else Finish(Stmt, false);
    }

    /** An else may come next, after newlines. */
    method ElseNext(ghost fuel: nat, ghost goal: Goal) returns (found: bool)
      requires Valid() && fuel > 0 && (goal.Free? || (goal.Doing? && goal.s.Choice? && ElseReady(depth, goal, Ahead(), fuel)))
      modifies this`input
      ensures Valid()
      ensures !goal.Free? ==>
                && found == goal.s.no.Then?
                && if found then Ready(depth, NoGoal(goal), Ahead(), fuel - 1) else Ahead() == goal.after
    {
      RemoveNewlines();
      var tok := GetToken();
      found := tok.Else?;
      if !found {
        PutBack(tok);
      }
    }

    // ----- Loops -----

    /** A for statement: its parts are found first, and then replayed from their places. */
    method OnFor(mode: Mode, exe: bool, fuel: nat, ghost goal: Goal) returns (flow: Flow)
      requires Valid() && (goal.Free? || (Begun(goal, For, Ahead(), fuel) && mode == Stmt && goal.s.Loop? && !Tells(goal, exe).Stuck?))
      modifies this
      ensures Valid() && Lawful(depth, exe, Calm(mode), old(Fx()), Fx()) && !flow.Again?
      ensures Landed(goal, old(Tells(goal, exe)), old(func), flow, Now())
      decreases fuel, 5
    {
      LawfulSame(depth, exe, Calm(mode), Fx());
      if mode != Stmt {
        return Leave(ErrState);
      }
      if !goal.Free? {
        ForReady(depth, goal, Ahead(), fuel);
        ForMeans(depth, ops, goal, exe, env, result, error);
      }
      if fuel == 0 {
        return Leave(CutOff);
      }
      flow := ForParts(exe, fuel, goal);
    }

    method ForParts(exe: bool, fuel: nat, ghost goal: Goal) returns (flow: Flow)
      requires Valid() && fuel > 0 && (goal.Free? || (goal.Doing? && goal.s.Loop?))
      requires !goal.Free? ==>
                 && Ahead() == [LParen] + (ActionTokens(goal.s.init) + (InitTail(goal.s) + goal.after))
                 && Ready(depth, InitGoal(goal), ActionTokens(goal.s.init) + (InitTail(goal.s) + goal.after), fuel - 1)
                 && PartsReady(depth, goal, goal.budget, fuel) && Ready(depth, LoopGoal(goal, goal.budget), goal.after, fuel + 1)
                 && !ForOutcome(depth, ops, goal, exe, env, result, error).Stuck?
      modifies this
      ensures Valid() && Lawful(depth, exe, Calm(Stmt), old(Fx()), Fx()) && !flow.Again?
      ensures !goal.Free? ==> Landed(goal, ForOutcome(depth, ops, goal, exe, old(env), old(result), old(error)), old(func), flow, Now())
      decreases fuel, 4
    {
      ghost var fx, init := Fx(), if goal.Free? then Free else InitGoal(goal);
      ghost var i := Tells(init, exe);
      ToldKind(depth, ops, init, exe, env, result, error);
      var ok, code := ForInit(exe, fuel, goal);
      if !ok {
        if !goal.Free? && i.Broke? { Regroup(i.left, InitTail(goal.s), goal.after); }
        return Leave(code);
      }
      ghost var mid := Fx();
      flow := ForTest(exe, fuel, goal);
      LawfulTrans(depth, exe, Calm(Stmt), fx, mid, Fx());
    }

    /** The opening parenthesis, the first assignment and its semicolon. */
    method ForInit(exe: bool, fuel: nat, ghost goal: Goal) returns (ok: bool, code: Code)
      requires Valid() && fuel > 0 && (goal.Free? || (goal.Doing? && goal.s.Loop?))
      requires !goal.Free? ==>
                 && Ahead() == [LParen] + (ActionTokens(goal.s.init) + InitGoal(goal).after)
                 && Ready(depth, InitGoal(goal), ActionTokens(goal.s.init) + InitGoal(goal).after, fuel - 1)
      modifies this
      ensures Valid() && Lawful(depth, exe, Calm(Expr), old(Fx()), Fx())
      ensures !goal.Free? ==>
                Step(old(Tells(InitGoal(goal), exe)), old(func), ok, code, Now(),
                     ChainTokens(goal.s.c) + TestGoal(goal).after, InitGoal(goal).after)
      decreases fuel, 2
    {
      LawfulSame(depth, exe, Calm(Expr), Fx());
      ghost var init := Free;
      if !goal.Free? {
        init := InitGoal(goal);
        LoopTails(goal.s, goal.after);
        Headed(LParen, ActionTokens(goal.s.init) + init.after, Ahead());
      }
      var tok := GetToken();
      if !tok.LParen? {
        return false, ErrState;
      }
      if goal.Free? { FreeIsReady(depth, Ahead(), fuel - 1); }
      ok, code := ActThen(exe, fuel, Semi, init, if goal.Free? then [] else ChainTokens(goal.s.c) + TestGoal(goal).after);
    }

    /** An action and the token after it. */
    method ActThen(exe: bool, fuel: nat, tok: Token, ghost act: Goal, ghost rest: seq<Token>) returns (ok: bool, code: Code)
      requires Valid() && fuel > 0 && (act.Free? || act.Acting?) && Ready(depth, act, Ahead(), fuel - 1)
      requires !act.Free? ==> act.after == [tok] + rest
      modifies this
      ensures Valid() && Lawful(depth, exe, Calm(Expr), old(Fx()), Fx())
      ensures !act.Free? ==> Step(old(Tells(act, exe)), old(func), ok, code, Now(), rest, act.after)
      decreases fuel, 1
    {
      ghost var r, f := Tells(act, exe), func;
      ToldKind(depth, ops, act, exe, env, result, error);
      code := Parse(Expr, exe, fuel - 1, act);
      MetIs(depth, act, r, f, code, Now());
      if code != ExprDone {
        return false, Failure(code);
      }
      if !act.Free? { Headed(tok, rest, act.after); }
      var next := GetToken();
      ok, code := next == tok, ErrState;
    }

    /** A test of the condition, and the semicolon after it. */
    method TestThen(exe: bool, fuel: nat, ghost test: Goal, ghost rest: seq<Token>) returns (ok: bool, code: Code)
      requires Valid() && fuel > 0 && (test.Free? || test.Condition?) && Ready(depth, test, Ahead(), fuel - 1)
      requires !test.Free? ==> test.after == [Semi] + rest
      modifies this
      ensures Valid() && Lawful(depth, exe, Calm(Cond), old(Fx()), Fx())
      ensures !test.Free? ==> Step(old(Tells(test, exe)), old(func), ok, code, Now(), rest, test.after)
      decreases fuel, 1
    {
      ghost var r, f := Tells(test, exe), func;
      ToldKind(depth, ops, test, exe, env, result, error);
      code := Parse(Cond, exe, fuel - 1, test);
      MetIs(depth, test, r, f, code, Now());
      if code != CondDone {
        return false, Failure(code);
      }
      if !test.Free? { Headed(Semi, rest, test.after); }
      var tok := GetToken();
      ok, code := tok.Semi?, ErrState;
    }

    /** From the first test on. */
    method ForTest(exe: bool, fuel: nat, ghost goal: Goal) returns (flow: Flow)
      requires Valid() && fuel > 0 && (goal.Free? || (goal.Doing? && goal.s.Loop?))
      requires !goal.Free? ==>
                 && Ahead() == ChainTokens(goal.s.c) + TestGoal(goal).after && PartsReady(depth, goal, goal.budget, fuel)
                 && Ready(depth, LoopGoal(goal, goal.budget), goal.after, fuel + 1)
                 && !TestOutcome(depth, ops, goal, exe, env, error).Stuck?
      modifies this
      ensures Valid() && Lawful(depth, exe, Calm(Stmt), old(Fx()), Fx()) && !flow.Again?
      ensures !goal.Free? ==> Landed(goal, TestOutcome(depth, ops, goal, exe, old(env), old(error)), old(func), flow, Now())
      decreases fuel, 3
    {
      ghost var fx, test, rest := Fx(), Free, [];
      if goal.Free? {
        FreeIsReady(depth, Ahead(), fuel - 1);
      } else {
        test, rest := TestGoal(goal), ActionTokens(goal.s.incr) + IncrGoal(goal).after;
        LoopTails(goal.s, goal.after);
      }
      ghost var v := Tells(test, exe);
      ToldKind(depth, ops, test, exe, env, result, error);
      var condScript := input;
      var ok, code := TestThen(exe, fuel, test, rest);
      if !ok {
        if !goal.Free? && v.Broke? { Regroup(v.left, TestTail(goal.s), goal.after); }
        return Leave(code);
      }
      ghost var mid := Fx();
      flow := ForPass(exe, !(|result| > 0 && result[0] == '0'), fuel, condScript, goal);
      LawfulTrans(depth, exe, Calm(Stmt), fx, mid, Fx());
    }

    /** The pass over increment and body that executes nothing, and the rounds. */
    method ForPass(exe: bool, goes: bool, fuel: nat, condScript: Input, ghost goal: Goal) returns (flow: Flow)
      requires Valid() && InputOk(script, condScript) && fuel > 0 && (goal.Free? || (goal.Doing? && goal.s.Loop?))
      requires !goal.Free? ==>
                 && Rest(script, condScript) == ChainTokens(goal.s.c) + TestGoal(goal).after
                 && Ahead() == ActionTokens(goal.s.incr) + IncrGoal(goal).after && PartsReady(depth, goal, goal.budget, fuel)
                 && Ready(depth, LoopGoal(goal, goal.budget), goal.after, fuel + 1)
                 && !PassOutcome(depth, ops, goal, exe, goes, env, error).Stuck?
      modifies this
      ensures Valid() && Lawful(depth, exe, Calm(Stmt), old(Fx()), Fx()) && !flow.Again?
      ensures !goal.Free? ==> Landed(goal, PassOutcome(depth, ops, goal, exe, goes, old(env), old(error)), old(func), flow, Now())
      decreases fuel, 3, 3
    {
      ghost var fx, incr, rest := Fx(), Free, [];
      if goal.Free? {
        FreeIsReady(depth, Ahead(), fuel - 1);
      } else {
        incr, rest := IncrGoal(goal), StmtTokens(goal.s.body) + goal.after;
        LoopTails(goal.s, goal.after);
      }
      ghost var i := Tells(incr, false);
      ToldKind(depth, ops, incr, false, env, result, error);
      var incrScript := input;
      var ok, code := ActThen(false, fuel, RParen, incr, rest);
      LawfulToo(depth, false, Calm(Expr), exe, Calm(Stmt), fx, Fx(), Fx());
      if !ok {
        if !goal.Free? && i.Broke? { Regroup(i.left, IncrTail(goal.s), goal.after); }
        return Leave(code);
      }
      ghost var mid := Fx();
      flow := ForBody(exe, goes, fuel, Scripts(condScript, incrScript, input), goal);
      LawfulTrans(depth, exe, Calm(Stmt), fx, mid, Fx());
    }

    /** The body without executing it, which finds where the statement ends, and then the rounds. */
    method ForBody(exe: bool, goes: bool, fuel: nat, at: Scripts, ghost goal: Goal) returns (flow: Flow)
      requires Valid() && fuel > 0 && PlacesOk(script, at) && at.body == input && (goal.Free? || (goal.Doing? && goal.s.Loop?))
      requires !goal.Free? ==>
                 && Placed(script, at, goal) && Ready(depth, BodyGoal(goal, goal.budget), Ahead(), fuel - 1)
                 && Ready(depth, LoopGoal(goal, goal.budget), goal.after, fuel + 1)
                 && !BodyOutcome(depth, ops, goal, exe, goes, env, error).Stuck?
      modifies this
      ensures Valid() && Lawful(depth, exe, Calm(Stmt), old(Fx()), Fx()) && !flow.Again?
      ensures !goal.Free? ==> Landed(goal, BodyOutcome(depth, ops, goal, exe, goes, old(env), old(error)), old(func), flow, Now())
      decreases fuel, 3, 2
    {
      ghost var fx, body := Fx(), if goal.Free? then Free else BodyGoal(goal, goal.budget);
      if goal.Free? { FreeIsReady(depth, Ahead(), fuel - 1); }
      ToldKind(depth, ops, body, false, env, result, error);
      NeverReturns(depth, ops, body, env, result, error);
      var code := Branch(false, fuel, body);
      LawfulToo(depth, false, Calm(Stmt), exe, Calm(Stmt), fx, Fx(), Fx());
      if code != StmtDone {
        return Leave(Failure(code));
      }
      ghost var mid := Fx();
      flow := ForRounds(exe && goes, fuel, at, goal);
      LawfulToo(depth, exe && goes, Calm(Stmt), exe, Calm(Stmt), mid, Fx(), Fx());
      LawfulTrans(depth, exe, Calm(Stmt), fx, mid, Fx());
    }

    /** The rounds, and then the end of the statement. */
    method ForRounds(goes: bool, fuel: nat, at: Scripts, ghost goal: Goal) returns (flow: Flow)
      requires Valid() && PlacesOk(script, at) && (goal.Free? || (goal.Doing? && goal.s.Loop?))
      requires !goal.Free? ==>
                 && Placed(script, at, goal) && Ahead() == goal.after && Ready(depth, LoopGoal(goal, goal.budget), goal.after, fuel + 1)
                 && (goes ==> !Tells(LoopGoal(goal, goal.budget), true).Stuck?)
      modifies this
      ensures Valid() && Lawful(depth, goes, Calm(Stmt), old(Fx()), Fx()) && !flow.Again?
      ensures !goal.Free? ==>
                var o := if goes then old(Tells(LoopGoal(goal, goal.budget), true)) else Did(old(error), old(env));
                Landed(goal, o, old(func), flow, Now())
      decreases fuel, 3, 1
    {
      ghost var loop := if goal.Free? then Free else LoopGoal(goal, goal.budget);
      LawfulSame(depth, goes, Calm(Stmt), Fx());
      var endScript := input;
      if goes {
        if goal.Free? { FreeIsReady(depth, Ahead(), fuel + 1); }
        ToldKind(depth, ops, loop, true, env, result, error);
        var ok, code := ForLoop(fuel, at, loop);
        if !ok {
          return Leave(code);
        }
      }
      input := endScript;
      flow := Finish(Stmt, false);
    }

    /** The rounds of a loop; ok if the condition ended them. */
    method ForLoop(fuel: nat, at: Scripts, ghost goal: Goal) returns (ok: bool, code: Code)
      requires Valid() && PlacesOk(script, at) && (goal.Free? || goal.Looping?) && Ready(depth, goal, Ahead(), fuel + 1)
      requires !goal.Free? ==> goal.s.Loop? && Placed(script, at, goal) && !Tells(goal, true).Stuck?
      modifies this
      ensures Valid() && Lawful(depth, true, Calm(Stmt), old(Fx()), Fx())
      ensures !goal.Free? ==> LoopEnded(goal, old(Tells(goal, true)), old(func), ok, code, Now())
      decreases fuel, 3, 0
    {
      ghost var fx, o, f, t, rest := Fx(), Tells(goal, true), func, goal, Ahead();
      LawfulSame(depth, true, Calm(Stmt), fx);
      var n: nat := fuel;
      ok, code := true, StmtDone;
      var goes := true;
      while goes
        invariant Valid() && n <= fuel && ok && Lawful(depth, true, Calm(Stmt), fx, Fx())
        invariant if goal.Free? then t.Free? else t.Looping? && t == LoopGoal(goal, t.budget)
        invariant goes && !goal.Free? ==> Ready(depth, t, rest, n + 1) && Tells(t, true) == o && func == f
        invariant !goes && !goal.Free? ==> o == Did(error, env) && func == f
        decreases n, goes
      {
        if !goal.Free? {
          RoundMeans(depth, ops, t, env, error);
          RoundReady(depth, t, rest, n);
        }
        if n == 0 {
          return false, CutOff;
        }
        ghost var mid := Fx();
        code, goes := ForRound(n, at, t);
        LawfulTrans(depth, true, Calm(Stmt), fx, mid, Fx());
        if code != CondDone {
          return false, code;
        }
        n := n - 1;
        if !goal.Free? { t := LoopGoal(goal, t.budget - 1); }
      }
    }

    /** One round of the loop: body, increment, condition. */
    method ForRound(fuel: nat, at: Scripts, ghost goal: Goal) returns (code: Code, goes: bool)
      requires Valid() && fuel > 0 && PlacesOk(script, at) && (goal.Free? || (goal.Looping? && goal.s.Loop?))
      requires !goal.Free? ==>
                 && Placed(script, at, goal) && goal.budget > 0 && PartsReady(depth, goal, goal.budget - 1, fuel)
                 && !RoundOutcome(depth, ops, goal, env, error).Stuck?
      modifies this
      ensures Valid() && Lawful(depth, true, Calm(Stmt), old(Fx()), Fx()) && (code != CondDone ==> !goes)
      ensures !goal.Free? ==>
                RoundEnded(depth, ops, goal, RoundOutcome(depth, ops, goal, old(env), old(error)), old(func), code, goes, Now())
      decreases fuel, 2
    {
      ghost var fx, body := Fx(), if goal.Free? then Free else BodyGoal(goal, goal.budget - 1);
      goes := false;
      input := at.body;
      if goal.Free? { FreeIsReady(depth, Ahead(), fuel - 1); }
      ToldKind(depth, ops, body, true, env, result, error);
      code := Branch(true, fuel, body);
      if code != StmtDone {
        return;
      }
      ghost var mid := Fx();
      input := at.incr;
      code, goes := RoundTail(fuel, at, goal);
      LawfulTrans(depth, true, Calm(Stmt), fx, mid, Fx());
    }

    /** Increment and condition of a round. */
    method RoundTail(fuel: nat, at: Scripts, ghost goal: Goal) returns (code: Code, goes: bool)
      requires Valid() && fuel > 0 && PlacesOk(script, at) && at.incr == input && (goal.Free? || (goal.Looping? && goal.s.Loop?))
      requires !goal.Free? ==>
                 && Placed(script, at, goal) && goal.budget > 0 && PartsReady(depth, goal, goal.budget - 1, fuel)
                 && !EndOutcome(depth, ops, goal, env, error).Stuck?
      modifies this
      ensures Valid() && Lawful(depth, true, Calm(Stmt), old(Fx()), Fx()) && (code != CondDone ==> !goes)
      ensures !goal.Free? ==>
                RoundEnded(depth, ops, goal, EndOutcome(depth, ops, goal, old(env), old(error)), old(func), code, goes, Now())
      decreases fuel, 1
    {
      ghost var fx, a, incr := Fx(), Now(), if goal.Free? then Free else IncrGoal(goal);
      if goal.Free? { FreeIsReady(depth, a.rest, fuel - 1); }
      goes := false;
      code := Parse(Expr, true, fuel - 1, incr);
      if !goal.Free? { IncrLands(depth, ops, goal, a, code, Now()); }
      if code != ExprDone {
        return Failure(code), goes;
      }
      ghost var mid := Fx();
      input := at.cond;
      code, goes := RoundTest(fuel, goal);
      LawfulTrans(depth, true, Calm(Stmt), fx, mid, Fx());
    }

    /** The condition of a round. */
    method RoundTest(fuel: nat, ghost goal: Goal) returns (code: Code, goes: bool)
      requires Valid() && fuel > 0 && (goal.Free? || (goal.Looping? && goal.s.Loop? && goal.budget > 0))
      requires !goal.Free? ==>
                 && Ready(depth, TestGoal(goal), Ahead(), fuel - 1) && !AgainOutcome(depth, ops, goal, env, error).Stuck?
      modifies this
      ensures Valid() && Lawful(depth, true, Calm(Stmt), old(Fx()), Fx()) && (code != CondDone ==> !goes)
      ensures !goal.Free? ==>
                RoundEnded(depth, ops, goal, AgainOutcome(depth, ops, goal, old(env), old(error)), old(func), code, goes, Now())
      decreases fuel, 0
    {
      ghost var a, test := Now(), if goal.Free? then Free else TestGoal(goal);
      if goal.Free? { FreeIsReady(depth, a.rest, fuel - 1); }
      code := Parse(Cond, true, fuel - 1, test);
      goes := code == CondDone && !(|result| > 0 && result[0] == '0');
      if !goal.Free? { TestLands(depth, ops, goal, a, code, Now()); }
      if code != CondDone {
        code := Failure(code);
      }
    }

    // ----- Lists -----

    /** A list of declarations. */
    method ParseDeclaration(exe: bool, fuel: nat, ghost goal: Goal) returns (code: Code)
      requires Valid() && (goal.Free? || goal.Listing?) && Ready(depth, goal, Ahead(), fuel)
      modifies this
      ensures Valid() && Lawful(depth, exe, Calm(DecList), old(Fx()), Fx())
      ensures Met(depth, goal, old(Tells(goal, exe)), old(func), code, Now())
      decreases fuel, 8
    {
      ghost var fx, o, f, todo := Fx(), Tells(goal, exe), func, goal;
      LawfulSame(depth, exe, Calm(DecList), fx);
      var n: nat := fuel;
      var more := true;
      code := CutOff;
      if goal.Free? { MetIs(depth, goal, o, f, code, Now()); }
      while more
        invariant Valid() && n <= fuel && Lawful(depth, exe, Calm(DecList), fx, Fx())
        invariant if goal.Free? then todo.Free? else todo.Listing? && todo.after == goal.after
        invariant more && todo.Listing? ==> Ready(depth, todo, Ahead(), n) && Tells(todo, exe) == o && func == f
        invariant !more ==> MetBy(Report(goal, o, f, code, Now()))
        decreases n, more
      {
        if todo.Listing? { DeclsStep(depth, todo, Ahead(), n); }
        if n == 0 {
          MetIs(depth, goal, o, f, CutOff, Now());
          return CutOff;
        }
        n := n - 1;
        ghost var mid := Fx();
        more, code := OneDeclaration(exe, n, todo, o);
        LawfulTrans(depth, exe, Calm(DecList), fx, mid, Fx());
        if todo.Listing? && more { todo := Listing(todo.ds.rest, todo.after); }
      }
      MetIs(depth, goal, o, f, code, Now());
    }

    /** One name of a declaration, and the separator after it. */
    method OneDeclaration(exe: bool, fuel: nat, ghost goal: Goal, ghost o: Outcome) returns (more: bool, code: Code)
      requires Valid() && (goal.Free? || (goal.Listing? && Ready(depth, goal, Ahead(), fuel + 1) && Tells(goal, exe) == o))
      modifies this
      ensures Valid() && Lawful(depth, exe, Calm(DecList), old(Fx()), Fx())
      ensures !more ==> MetBy(Report(goal, o, old(func), code, Now()))
      ensures more && goal.Listing? ==>
                && goal.ds.Several? && func == old(func) && Tells(Listing(goal.ds.rest, goal.after), exe) == o
                && Ready(depth, Listing(goal.ds.rest, goal.after), Ahead(), fuel)
      decreases fuel, 12
    {
      LawfulSame(depth, exe, Calm(DecList), Fx());
      var found := NameNext(fuel, goal);
      if !found {
        return false, ErrState;
      }
      code := DeclaredName(exe, fuel, goal, o);
      more := false;
      if code == DecDone {
        more, code := Separator(goal);
      }
    }

    /** A name must come next. */
    method NameNext(ghost fuel: nat, ghost goal: Goal) returns (found: bool)
      requires Valid() && (goal.Free? || (goal.Listing? && Ready(depth, goal, Ahead(), fuel + 1)))
      modifies this`input
      ensures Valid() && (goal.Listing? ==> found && Ahead() == old(Ahead()))
    {
      if goal.Listing? { DeclsStep(depth, goal, Ahead(), fuel + 1); }
      var tok := GetToken();
      found := tok.Id?;
      if found {
        PutBack(tok);
      }
    }

    /** A comma leads to another name, a semicolon ends the list. */
    method Separator(ghost goal: Goal) returns (more: bool, code: Code)
      requires Valid() && (goal.Listing? ==> Ahead() == DeclsRest(goal))
      modifies this`input
      ensures Valid() && (!more ==> code == DecListDone || code == ErrState)
      ensures goal.Listing? ==>
                if goal.ds.One? then !more && code == DecListDone && Ahead() == goal.after
                else more && Ahead() == DeclsTokens(goal.ds.rest) + goal.after
    {
      if goal.Listing? { Headed(FirstDecl(goal.ds, goal.after).sep, FirstDecl(goal.ds, goal.after).after, Ahead()); }
      var tok := GetToken();
      more, code := tok.Comma?, if tok.Semi? then DecListDone else ErrState;
    }

    method DeclaredName(exe: bool, fuel: nat, ghost goal: Goal, ghost o: Outcome) returns (code: Code)
      requires Valid() && (goal.Free? || (goal.Listing? && Ready(depth, goal, Ahead(), fuel + 1) && Tells(goal, exe) == o))
      modifies this
      ensures Valid() && Lawful(depth, exe, Calm(DecList), old(Fx()), Fx())
      ensures if code != DecDone then MetBy(Report(goal, o, old(func), code, Now()))
              else goal.Free? || NameDeclared(depth, ops, goal, exe, o, old(func), fuel, Now())
      decreases fuel, 11
    {
      ghost var a, sub := Now(), Free;
      if goal.Free? {
        FreeIsReady(depth, a.rest, fuel);
      } else {
        DeclsStep(depth, goal, a.rest, fuel + 1);
        sub := FirstDecl(goal.ds, goal.after);
      }
      code := Parse(Dec, exe, fuel, sub);
      if !goal.Free? { NameLanded(depth, ops, goal, exe, a, fuel, code, Now()); }
      if code != DecDone {
        code := Failure(code);
      }
    }

    /** The arguments of a function. */
    method ParseArgs(exe: bool, fuel: nat, ghost goal: Goal) returns (code: Code)
      requires Valid() && (goal.Free? || goal.Arguments?) && Ready(depth, goal, Ahead(), fuel)
      modifies this
      ensures Valid() && Lawful(depth, exe, Calm(ArgList), old(Fx()), Fx())
      ensures Met(depth, goal, old(Tells(goal, exe)), old(func), code, Now())
      decreases fuel, 8
    {
      ghost var fx, o, f, todo, done := Fx(), Tells(goal, exe), func, goal, [];
      LawfulSame(depth, exe, Calm(ArgList), fx);
      WithNoArgs(f);
      PrependNone(o);
      var n: nat := fuel;
      var more := true;
      code := CutOff;
      while more
        invariant Valid() && n <= fuel && Lawful(depth, exe, Calm(ArgList), fx, Fx())
        invariant if goal.Free? then todo.Free? else todo.Arguments? && todo.after == goal.after
        invariant more && todo.Arguments? ==>
                    Ready(depth, todo, Ahead(), n) && Prepend(done, Tells(todo, exe)) == o && func == WithArgs(f, done)
        invariant !more ==> Met(depth, goal, o, f, code, Now())
        decreases n, more
      {
        if todo.Arguments? { ArgsStep(depth, todo, Ahead(), n); }
        if n == 0 {
          MetIs(depth, goal, o, f, CutOff, Now());
          return CutOff;
        }
        n := n - 1;
        ghost var mid, r := Fx(), Tells(todo, exe);
        ToldKind(depth, ops, todo, exe, env, result, error);
        more, code := OneArgument(exe, n, todo);
        LawfulTrans(depth, exe, Calm(ArgList), fx, mid, Fx());
        if todo.Free? {
          MetIs(depth, goal, o, f, code, Now());
        } else if more {
          PrependTwice(done, result, Tells(Arguments(todo.args.rest, todo.after), exe));
          WithMoreArgs(f, done, [result]);
          done, todo := done + [result], Arguments(todo.args.rest, todo.after);
        } else {
          ArgsMet(depth, todo, goal, r, o, f, done, code, Now());
        }
      }
    }

    /** One argument, and the comma after it if there is one. */
    method OneArgument(exe: bool, fuel: nat, ghost goal: Goal) returns (more: bool, code: Code)
      requires Valid() && (goal.Free? || (goal.Arguments? && Ready(depth, goal, Ahead(), fuel + 1)))
      modifies this
      ensures Valid() && Lawful(depth, exe, Calm(ArgList), old(Fx()), Fx())
      ensures !more ==> Met(depth, goal, old(Tells(goal, exe)), old(func), code, Now())
      ensures more && goal.Arguments? ==>
                && goal.args.Next? && func == WithArgs(old(func), [result])
                && old(Tells(goal, exe)) == Prepend([result], Tells(Arguments(goal.args.rest, goal.after), exe))
                && Ready(depth, Arguments(goal.args.rest, goal.after), Ahead(), fuel)
      decreases fuel, 12
    {
      ghost var o, f := Tells(goal, exe), func;
      code := ArgumentValue(exe, fuel, goal);
      if code == EofState || code == ErrState || code == CutOff {
        return false, code;
      }
      more, code := AfterArgument(code, goal);
      MetIs(depth, goal, o, f, code, Now());
    }

    /** The value of an argument, which joins those of the call. */
    method ArgumentValue(exe: bool, fuel: nat, ghost goal: Goal) returns (code: Code)
      requires Valid() && (goal.Free? || (goal.Arguments? && Ready(depth, goal, Ahead(), fuel + 1)))
      modifies this
      ensures Valid() && Lawful(depth, exe, Calm(ArgList), old(Fx()), Fx())
      ensures if code == EofState || code == ErrState || code == CutOff then Met(depth, goal, old(Tells(goal, exe)), old(func), code, Now())
              else goal.Free? || (code == RelExpDone && ArgTaken(depth, ops, goal, exe, old(Tells(goal, exe)), old(func), fuel, Now()))
      decreases fuel, 11
    {
      ghost var a, sub := Now(), Free;
      if goal.Free? {
        FreeIsReady(depth, a.rest, fuel);
      } else {
        ArgsStep(depth, goal, a.rest, fuel + 1);
        sub := FirstArg(goal.args, goal.after);
      }
      code := Parse(RelExp, exe, fuel, sub);
      ghost var b := Now();
      if code == RelExpDone {
        func := WithArgs(func, [result]);
      }
      if goal.Free? {
        MetIs(depth, goal, Told(depth, ops, goal, exe, a.env, a.result, a.error), a.func, code, Now());
      } else {
        FirstTaken(depth, ops, goal, exe, a, fuel, code, b, Now());
      }
    }

    /** A comma leads to another argument; anything else is put back. */
    method AfterArgument(code: Code, ghost goal: Goal) returns (more: bool, code': Code)
      requires Valid()
      requires goal.Arguments? ==>
                 code == RelExpDone && goal.after != [] && goal.after[0].RParen? && Ahead() == ArgsRest(goal)
      modifies this`input
      ensures Valid()
      ensures goal.Arguments? ==>
                if goal.args.Last? then !more && code' == ArgListDone && Ahead() == goal.after
                else more && Ahead() == ArgsTokens(goal.args.rest) + goal.after
    {
      ghost var rest := Ahead();
      if goal.Arguments? && goal.args.Next? { Headed(Comma, ArgsTokens(goal.args.rest) + goal.after, rest); }
      var tok := GetToken();
      code' := code;
      more := tok.Comma?;
      if !more {
        PutBack(tok);
        assert rest != [] ==> rest == [rest[0]] + rest[1..];
        code' := if !tok.RParen? && code != RelExpDone then ErrState else ArgListDone;
      }
    }

    // ----- Conditions -----

    /** A condition: expressions joined by && and ||, until a right parenthesis or a semicolon. */
    method ParseCond(exe: bool, fuel: nat, ghost goal: Goal) returns (code: Code)
      requires Valid() && (goal.Free? || goal.Condition?) && Ready(depth, goal, Ahead(), fuel)
      modifies this
      ensures Valid() && Lawful(depth, exe, Calm(Cond), old(Fx()), Fx())
      ensures Met(depth, goal, old(Tells(goal, exe)), old(func), code, Now())
      decreases fuel, 8
    {
      ghost var fx, o, f, sub := Fx(), Tells(goal, exe), func, Free;
      LawfulSame(depth, exe, Calm(Cond), fx);
      if goal.Condition? {
        CondStep(depth, ops, goal, Ahead(), fuel, exe, env, result, error);
        sub := Chained(goal.c, goal.after);
      }
      result := "";
      if fuel == 0 {
        MetIs(depth, goal, o, f, CutOff, Now());
        return CutOff;
      }
      if goal.Free? { FreeIsReady(depth, Ahead(), fuel - 1); }
      var lhs, operator, n: nat := "", 0, fuel - 1;
      var more;
      more, code, operator := CondRound(exe, lhs, operator, n, sub);
      while more
        invariant Valid() && n < fuel && Lawful(depth, exe, Calm(Cond), fx, Fx())
        invariant if more then goal.Free? else goal.Free? || MetBy(Report(goal, o, f, code, Now()))
        decreases n, more
      {
        if n == 0 {
          MetIs(depth, goal, o, f, CutOff, Now());
          return CutOff;
        }
        n := n - 1;
        lhs := result;
        ghost var mid := Fx();
        FreeIsReady(depth, Ahead(), n);
        more, code, operator := CondRound(exe, lhs, operator, n, Free);
        LawfulTrans(depth, exe, Calm(Cond), fx, mid, Fx());
      }
      MetIs(depth, goal, o, f, code, Now());
    }

    /** One round of a condition's loop: an expression, its operation, and the token after it. */
    method CondRound(exe: bool, lhs: string, operator: int, fuel: nat, ghost sub: Goal)
      returns (more: bool, code: Code, operator': int)
      requires Valid() && (sub.Free? || sub.Chained?) && Ready(depth, sub, Ahead(), fuel)
      requires sub.Chained? ==> operator == 0 && EndsAction(sub.after)
      modifies this
      ensures Valid() && Lawful(depth, exe, Calm(Cond), old(Fx()), Fx())
      ensures sub.Chained? ==> !more && MetBy(Report(Condition(sub.c, sub.after), old(Tells(sub, exe)), old(func), code, Now()))
      decreases fuel, 11
    {
      ghost var r, f := Tells(sub, exe), func;
      ToldKind(depth, ops, sub, exe, env, result, error);
      operator' := operator;
      code := Parse(RelExp, exe, fuel, sub);
      MetIs(depth, sub, r, f, code, Now());
      if code != RelExpDone {
        return false, Failure(code), operator;
      }
      if operator > 0 {
        var ok := Combine(lhs, operator, true);
        if !ok {
          return false, ErrState, operator;
        }
      }
      more, operator' := CondNext(operator);
      code := CondDone;
    }

    /** The logical operator after an expression, or the token put back. */
    method CondNext(operator: int) returns (more: bool, operator': int)
      requires Valid()
      modifies this`input
      ensures Valid()
      ensures old(Ahead()) != [] && (old(Ahead())[0].RParen? || old(Ahead())[0].Semi?) ==> !more && Ahead() == old(Ahead())
    {
      ghost var rest := Ahead();
      var tok := GetToken();
      if tok.Logical? {
        return true, tok.op;
      }
      PutBack(tok);
      assert rest != [] ==> rest == [rest[0]] + rest[1..];
      more, operator' := !(tok.RParen? || tok.Semi?), operator;
    }

    // ----- Expressions -----

    /** Put two operands together; false for a bad operator. */
    method Combine(lhs: string, rel: int, logical: bool) returns (ok: bool)
      modifies this`result, this`error
      ensures logical ==>
                match ops.cond(lhs, rel, old(result))
                case None => !ok
                case Some(v) => ok && result == v && error == (old(error) || !(StartsWithDigit(lhs) && StartsWithDigit(old(result))))
      ensures !logical ==>
                match ops.op(lhs, rel, old(result))
                case None => !ok
                case Some(v) => ok && result == v && error == old(error)
    {
      var v;
      if logical {
        var bad;
        v, bad := EvalCond(lhs, rel, result);
        error := error || bad;
      } else {
        v := EvalExpr(lhs, rel, result);
      }
      ok := v.Some?;
      if ok {
        result := v.value;
      } else {
        error := true;
      }
    }

    /** An expression: operands and operators from the left, until a token that is no operator. */
    method ParseExpr(exe: bool, fuel: nat, ghost goal: Goal) returns (code: Code)
      requires Valid() && (goal.Free? || goal.Chained?) && Ready(depth, goal, Ahead(), fuel)
      modifies this
      ensures Valid() && Lawful(depth, exe, Calm(RelExp), old(Fx()), Fx())
      ensures Met(depth, goal, old(Tells(goal, exe)), old(func), code, Now())
      decreases fuel, 8
    {
      ghost var fx, o, f, t := Fx(), Tells(goal, exe), func, goal;
      LawfulSame(depth, exe, Calm(RelExp), fx);
      result := "";
      code := RelExpDone;
      var lhs, rel, logical, more, n: nat := "", 0, false, true, fuel;
      while more
        invariant Valid() && n <= fuel && Lawful(depth, exe, Calm(RelExp), fx, Fx())
        invariant if goal.Free? then t.Free? else !t.Free? && t.after == goal.after
        invariant more && !t.Free? ==>
                    AtOperand(depth, t, lhs, rel, logical, result, Ahead(), n) && Told(depth, ops, t, exe, env, lhs, error) == o && func == f
        invariant !more && !goal.Free? ==> ExprEnded(o, f, goal.after, code, Now())
        decreases n, more
      {
        if !t.Free? { OperandFuel(depth, t, lhs, rel, logical, result, Ahead(), n); }
        if n == 0 {
          MetIs(depth, goal, o, f, CutOff, Now());
          return CutOff;
        }
        n := n - 1;
        ghost var mid := Fx();
        more, code, rel, logical := ExprRound(exe, lhs, rel, logical, n, t, o);
        LawfulTrans(depth, exe, Calm(RelExp), fx, mid, Fx());
        lhs := result;
        if !t.Free? && more { t := Tailing(RestOf(t), t.after); }
      }
      MetIs(depth, goal, o, f, code, Now());
    }

    /** One round of an expression's loop: an operand, its operation, and the next operator. */
    method ExprRound(exe: bool, lhs: string, rel: int, logical: bool, fuel: nat, ghost t: Goal, ghost o: Outcome)
      returns (more: bool, code: Code, rel': int, logical': bool)
      requires Valid()
      requires t.Free? || (AtOperand(depth, t, lhs, rel, logical, result, Ahead(), fuel + 1) && Told(depth, ops, t, exe, env, lhs, error) == o)
      modifies this
      ensures Valid() && Lawful(depth, exe, Calm(RelExp), old(Fx()), Fx())
      ensures !t.Free? && !more ==> ExprEnded(o, old(func), t.after, code, Now())
      ensures !t.Free? && more ==>
                && AtOperand(depth, Tailing(RestOf(t), t.after), result, rel', logical', result, Ahead(), fuel)
                && Told(depth, ops, Tailing(RestOf(t), t.after), exe, env, result, error) == o && func == old(func)
      decreases fuel, 13
    {
      code := ExprValue(exe, lhs, rel, logical, fuel, t, o);
      if code != ExprDone {
        return false, code, rel, logical;
      }
      code := RelExpDone;
      more, rel', logical' := AfterOperand(exe, logical, fuel, t, o);
    }

    /** An operand and its operation on the value so far; the code is ExprDone unless it failed. */
    method ExprValue(exe: bool, lhs: string, rel: int, logical: bool, fuel: nat, ghost t: Goal, ghost o: Outcome) returns (code: Code)
      requires Valid()
      requires t.Free? || (AtOperand(depth, t, lhs, rel, logical, result, Ahead(), fuel + 1) && Told(depth, ops, t, exe, env, lhs, error) == o)
      modifies this
      ensures Valid() && Lawful(depth, exe, Calm(RelExp), old(Fx()), Fx())
      ensures code == ExprDone || code == ErrState || code == CutOff
      ensures !t.Free? && code != ExprDone ==> ExprEnded(o, old(func), t.after, code, Now())
      ensures !t.Free? && code == ExprDone ==> func == old(func) && HasValue(depth, ops, t, logical, exe, o, Now(), fuel)
      decreases fuel, 12
    {
      code := ExprOperand(exe, lhs, rel, logical, fuel, t, o);
      if code == ExprDone && rel > 0 {
        ghost var b := Now();
        var ok := Combine(lhs, rel, logical);
        code := if ok then ExprDone else ErrState;
        if !t.Free? { ValueLands(depth, ops, t, lhs, rel, logical, exe, o, b, ok, Now(), fuel); }
      }
    }

    /** The operand of a round; after && and || it is all the rest. */
    method ExprOperand(exe: bool, lhs: string, rel: int, logical: bool, fuel: nat, ghost t: Goal, ghost o: Outcome) returns (code: Code)
      requires Valid()
      requires t.Free? || (AtOperand(depth, t, lhs, rel, logical, result, Ahead(), fuel + 1) && Told(depth, ops, t, exe, env, lhs, error) == o)
      modifies this
      ensures Valid() && Lawful(depth, exe, Calm(RelExp), old(Fx()), Fx())
      ensures code == ExprDone || code == ErrState || code == CutOff
      ensures !t.Free? && code != ExprDone ==> ExprEnded(o, old(func), t.after, code, Now())
      ensures !t.Free? && code == ExprDone ==> func == old(func) && OperandDone(depth, ops, t, lhs, rel, logical, exe, o, Now(), fuel)
      decreases fuel, 11
    {
      ghost var a, sub := Now(), Free;
      if t.Free? {
        FreeIsReady(depth, a.rest, fuel);
      } else {
        sub := OperandOf(t);
        OperandAt(depth, ops, t, lhs, rel, logical, a, fuel, exe);
      }
      var done := Parse(if logical then RelExp else Expr, exe, fuel, sub);
      code := if done == if logical then RelExpDone else ExprDone then ExprDone else Failure(done);
      if !t.Free? { OperandLands(depth, ops, t, lhs, rel, logical, exe, a, done, Now(), fuel); }
    }

    /** The operator after an operand, if the expression goes on; after a logical one it does not. */
    method AfterOperand(ghost exe: bool, wasLogical: bool, ghost fuel: nat, ghost t: Goal, ghost o: Outcome)
      returns (more: bool, rel: int, logical: bool)
      requires Valid() && (!t.Free? ==> HasValue(depth, ops, t, wasLogical, exe, o, Now(), fuel))
      modifies this`input
      ensures Valid()
      ensures !t.Free? && !more ==> o == Value(result, error, env) && Ahead() == t.after
      ensures !t.Free? && more ==>
                && AtOperand(depth, Tailing(RestOf(t), t.after), result, rel, logical, result, Ahead(), fuel)
                && Told(depth, ops, Tailing(RestOf(t), t.after), exe, env, result, error) == o
    {
      if !t.Free? { OperatorNext(depth, ops, t, wasLogical, exe, o, Now(), fuel); }
      more, rel, logical := NextOperator();
      if wasLogical {
        more := false;
      }
    }

    /** The operator after an operand, or none with the token put back. */
    method NextOperator() returns (more: bool, rel: int, logical: bool)
      requires Valid()
      modifies this`input
      ensures Valid()
      ensures old(Ahead()) != [] ==>
                var tok := old(Ahead())[0];
                && (tok.ExprOp? || tok.Logical? ==> more && rel == tok.op && logical == tok.Logical? && Ahead() == old(Ahead())[1..])
                && (Stops(tok) ==> !more && Ahead() == old(Ahead()))
    {
      ghost var rest := Ahead();
      var tok := GetToken();
      if tok.ExprOp? || tok.IncDec? || tok.Logical? {
        return true, tok.op, tok.Logical?;
      }
      PutBack(tok);
      assert rest != [] ==> rest == [rest[0]] + rest[1..];
      more, rel, logical := false, 0, false;
    }

    // ----- Scripts -----

    /** Statements until the end of the script, a return or an error; gives up on a place it does not leave. */
    method Eval(fuel: nat, ghost program: Goal) returns (r: Option<string>)
      requires Valid() && (program.Free? || program.Body?)
      requires program.Body? ==> Ready(depth, program, Ahead(), fuel) && program.after == [Eof] && !Tells(program, true).Stuck?
      modifies this
      ensures Valid()
      ensures program.Body? ==> Finished(old(Tells(program, true)), r, Now())
    {
      ghost var o, todo := Tells(program, true), program;
      result := "";
      var code, seen, repeats := StmtDone, None, 0;
      var n: nat := fuel;
      while code != EofState && code != ErrState
        invariant Valid()
        invariant if program.Free? then todo.Free? else todo.Body? && todo.after == [Eof]
        invariant program.Body? && code != EofState && code != ErrState ==>
                    && code == StmtDone && Ready(depth, todo, Ahead(), n) && Tells(todo, true) == o
                    && repeats <= (if input.putback.Some? then 0 else 1)
                    && (seen.Some? ==> seen.value == input.pos)
        invariant program.Body? && (code == EofState || code == ErrState) ==>
                    Finished(o, if code == EofState then Some(result) else None, Now())
        decreases n, code != EofState && code != ErrState
      {
        if todo.Body? {
          BodyStep(depth, todo, Ahead(), n);
          RestLength(script, input);
        }
        if n == 0 {
          return None;
        }
        n := n - 1;
        code := OneStatement(true, n, todo, o);
        if code == RetState {
          code := EofState;
        }
        RestLength(script, input);
        if seen == Some(input.pos) {
          if repeats > 10 {
            code, error := ErrState, true;
          }
          repeats := repeats + 1;
        } else {
          seen, repeats := Some(input.pos), 0;
        }
        if todo.Body? && todo.list.Then? { todo := RestGoal(todo); }
      }
      r := if code == EofState then Some(result) else None;
    }
  }

  // ----- Whole expressions and scripts -----

  /** A new parser does with the tokens of a goal what its tree says. */
  method ParseAlone(tokens: seq<Token>, env: Env, call: (Env, string, seq<string>) -> (int, Env), mode: Mode, exe: bool, fuel: nat,
                    ghost goal: Goal)
    returns (code: Code, result: string, noted: bool, env': Env, ghost end: State)
    requires Planned(Place(goal, tokens, fuel)) && Parsed(goal, mode)
    ensures code == ErrState ==> noted
    ensures end.env == env' && end.result == result && end.error == noted
    ensures MetBy(Report(goal, Meaning(Asked(goal, Language(call), exe, env, "", false)), None, code, end))
  {
    var ej := new Ej(tokens, call, env);
    SealedIs(ej.depth, Planned, Place(goal, tokens, fuel));
    ghost var o := ej.Tells(goal, exe);
    ToldIs(ej.depth, ej.ops, goal, exe, env, "", false);
    code := ej.Parse(mode, exe, fuel, goal);
    MetIs(ej.depth, goal, o, None, code, ej.Now());
    result, noted, env', end := ej.result, ej.error, ej.env, ej.Now();
  }

  /** The parser's answer for an expression is the value of its tree. */
  method Evaluate(tokens: seq<Token>, env: Env, exe: bool, fuel: nat, call: (Env, string, seq<string>) -> (int, Env),
                  ghost c: Chain, ghost after: seq<Token>)
    returns (v: Option<string>, noted: bool, env': Env)
    requires ChainOk(c) && tokens == ChainTokens(c) + after && after != [] && Closes(c, after[0]) && fuel >= ChainSize(c)
    ensures var o := EvalChain(c, Language(call), exe, env, false);
            if o.Value? then v == Some(o.v) && noted == o.noted && env' == o.env else v.None? && noted && env' == o.env
  {
    var code, result;
    ghost var end;
    code, result, noted, env', end := ParseAlone(tokens, env, call, RelExp, exe, fuel, Chained(c, after));
    v := if code == RelExpDone then Some(result) else None;
  }

  /**
   * A script leaves the variables, makes the calls and has the value its tree says. If the tree
   * fails, there is no value and an error is noted, with the effects up to the failure.
   */
  method RunScript(tokens: seq<Token>, env: Env, fuel: nat, call: (Env, string, seq<string>) -> (int, Env),
                   ghost program: Stmts, ghost budget: nat)
    returns (r: Option<string>, noted: bool, env': Env)
    requires BodyOk(program) && tokens == BodyTokens(program) + [Eof] && fuel >= BodySize(program) + budget
    ensures match ExecBody(program, Language(call), true, env, false, budget)
            case Did(n, e) => r.Some? && noted == n && env' == e
            case Ret(v, n, e) => r == Some(v) && noted == n && env' == e
            case Broke(e, left) => r.None? && noted && env' == e
            case _ => true
  {
    var ej := new Ej(tokens, call, env);
    ghost var goal, o := Body(program, [Eof], budget), ExecBody(program, Language(call), true, env, false, budget);
    BodyReady(ej.depth, program, [Eof], budget, fuel);
    ToldIs(ej.depth, ej.ops, goal, true, env, "", false);
    r := ej.Eval(fuel, if o.Stuck? then Free else goal);
    noted, env' := ej.error, ej.env;
  }

  /** Where the script has no var, parsing without executing changes nothing at all. */
  method DryRun(ej: Ej, mode: Mode, fuel: nat) returns (code: Code)
    requires ej.Valid() && Token.Var !in ej.script && mode != Dec && mode != DecList
    modifies ej
    ensures ej.env == old(ej.env)
  {
    FreeIsReady(ej.depth, ej.Ahead(), fuel);
    ghost var fx := ej.Fx();
    code := ej.Parse(mode, false, fuel, Free);
    LawfulIs(ej.depth, false, ej.Calm(mode), fx, ej.Fx());
    assert ej.bare[|ej.bare|..] == [];
  }

  /** With a var, what changes is that the names met without a value are declared; nothing is called or set. */
  method DryDeclaration(ej: Ej, mode: Mode, fuel: nat) returns (code: Code, ghost names: seq<string>)
    requires ej.Valid()
    modifies ej
    ensures ej.env == DeclareAll(old(ej.env), names)
    ensures ej.env.calls == old(ej.env.calls) && ej.env.params == old(ej.env.params) && ej.env.ret == old(ej.env.ret)
  {
    FreeIsReady(ej.depth, ej.Ahead(), fuel);
    ghost var fx := ej.Fx();
    code := ej.Parse(mode, false, fuel, Free);
    LawfulIs(ej.depth, false, ej.Calm(mode), fx, ej.Fx());
    names := ej.bare[|fx.bare|..];
    DeclareCallsNothing(fx.env, names);
  }

  /** The tokens of `var x;`, parsed without executing, declare x. */
  method DeclaredAnyway(name: string, env: Env, call: (Env, string, seq<string>) -> (int, Env)) returns (code: Code, env': Env)
    requires GetVar(env, name).0 < 0
    ensures code == StmtDone && env' == SetLocal(env, name, None) && env' != env
  {
    var result, noted;
    ghost var end;
    BarePlanned(Language(call), name, env);
    code, result, noted, env', end := ParseAlone([Token.Var, Id(name), Semi, Eof], env, call, Stmt, false, 20, BareGoal(name));
  }
}
