/** What the Ejscript parser is asked to do with the tokens of a tree, and when it has done it. */
module EjGoals {
  import opened Basics
  import opened EjExpressions
  import opened EjPrograms

  // ----- Input -----

  datatype Input = Input(pos: nat, putback: Option<Token>)

  /** A place in the script; in a script without var, none is put back. */
  ghost predicate InputOk(script: seq<Token>, input: Input)
  {
    input.pos <= |script| && (Token.Var !in script ==> input.putback != Some(Token.Var))
  }

  /** The tokens to come. */
  ghost function Rest(script: seq<Token>, input: Input): (r: seq<Token>)
    requires input.pos <= |script|
  {
    (if input.putback.Some? then [input.putback.value] else []) + script[input.pos..]
  }

  /** The first character of a token's text, as a number. */
  function TokenCode(tok: Token): (code: int)
  {
    match tok
    case Logical(op) => op
    case ExprOp(op) => op
    case IncDec(op) => op
    case Comma => 44
    case Else => 101
    case _ => 0
  }

  // ----- Parser states -----

  datatype Mode = Stmt | Dec | Expr | DecList | ArgList | Cond | RelExp | Bad

  /** CutOff is no answer: the parse ran out of fuel, or reads through a null pointer. */
  datatype Code =
    | ErrState | EofState | CondDone | RelExpDone | ExprDone | StmtDone | BlockDone | ArgListDone | DecListDone
    | DecDone | RetState | CutOff

  /** An error, unless the parse was cut off. */
  function Failure(code: Code): (r: Code)
  {
    if code == CutOff then CutOff else ErrState
  }

  /** How a token's case ends: look at the next token, finish the statement, or return. */
  datatype Flow = Again(mode: Mode) | Finish(mode: Mode, expectSemi: bool) | Leave(code: Code)

  datatype Func = Func(name: string, args: seq<string>)

  /** What a parse leaves: variables, value, error note, the function being called, and the tokens to come. */
  datatype State = State(env: Env, result: string, error: bool, func: Option<Func>, rest: seq<Token>)

  // ----- Parsing without executing -----

  ghost function DeclareAll(env: Env, names: seq<string>): (r: Env)
    decreases |names|
  {
    if names == [] then env else DeclareAll(SetLocal(env, names[0], None), names[1..])
  }

  lemma {:induction false} DeclareConcat(env: Env, a: seq<string>, b: seq<string>)
    ensures DeclareAll(env, a + b) == DeclareAll(DeclareAll(env, a), b)
    decreases |a|
  {
    if a == [] {
      assert a + b == b;
    } else {
      assert (a + b)[1..] == a[1..] + b;
      DeclareConcat(SetLocal(env, a[0], None), a[1..], b);
    }
  }

  /** Declaring variables calls no function and sets no parameter. */
  lemma {:induction false} DeclareCallsNothing(env: Env, names: seq<string>)
    ensures var r := DeclareAll(env, names); r.calls == env.calls && r.params == env.params && r.ret == env.ret
    decreases |names|
  {
    if names != [] {
      DeclareCallsNothing(SetLocal(env, names[0], None), names[1..]);
    }
  }

  /** What a parse can do to the world, with the names met in declarations without a value. */
  datatype Effects = Effects(env: Env, bare: seq<string>)

  /** Nothing happened but the declarations met in between. */
  ghost predicate Quiet(a: Effects, b: Effects)
  {
    a.bare <= b.bare && b.env == DeclareAll(a.env, b.bare[|a.bare|..])
  }

  datatype Law = Law(exe: bool, calm: bool, a: Effects, b: Effects)

  /** Without executing a parse is quiet, and where no declaration can be met none is. */
  ghost predicate Kept(l: Law)
  {
    (!l.exe ==> Quiet(l.a, l.b)) && (l.calm ==> l.b.bare == l.a.bare)
  }

  ghost predicate Lawful(depth: nat, exe: bool, calm: bool, a: Effects, b: Effects)
  {
    Sealed(depth, Kept, Law(exe, calm, a, b))
  }

  lemma LawfulIs(depth: nat, exe: bool, calm: bool, a: Effects, b: Effects)
    ensures Lawful(depth, exe, calm, a, b) <==> Kept(Law(exe, calm, a, b))
  {
    SealedIs(depth, Kept, Law(exe, calm, a, b));
  }

  lemma LawfulSame(depth: nat, exe: bool, calm: bool, a: Effects)
    ensures Lawful(depth, exe, calm, a, a)
  {
    LawfulIs(depth, exe, calm, a, a);
    assert a.bare[|a.bare|..] == [];
  }

  lemma LawfulTrans(depth: nat, exe: bool, calm: bool, a: Effects, b: Effects, c: Effects)
    requires Lawful(depth, exe, calm, a, b) && Lawful(depth, exe, calm, b, c)
    ensures Lawful(depth, exe, calm, a, c)
  {
    LawfulIs(depth, exe, calm, a, b);
    LawfulIs(depth, exe, calm, b, c);
    LawfulIs(depth, exe, calm, a, c);
    if !exe {
      assert c.bare[|a.bare|..] == b.bare[|a.bare|..] + c.bare[|b.bare|..];
      DeclareConcat(a.env, b.bare[|a.bare|..], c.bare[|b.bare|..]);
    }
  }

  /** What is lawful without executing, or where no declaration can be met, is lawful in general. */
  lemma LawfulToo(depth: nat, exe: bool, calm: bool, exe': bool, calm': bool, a: Effects, b: Effects, c: Effects)
    requires Lawful(depth, exe, calm, a, b) && (exe ==> exe') && (calm' ==> calm)
    requires c.bare == b.bare && (!exe' ==> c.env == b.env)
    ensures Lawful(depth, exe', calm', a, c)
  {
    LawfulIs(depth, exe, calm, a, b);
    LawfulIs(depth, exe', calm', a, c);
  }

  lemma QuietDeclare(a: Effects, id: string, b: Effects)
    requires b.env == SetLocal(a.env, id, None) && b.bare == a.bare + [id]
    ensures Quiet(a, b)
  {
    assert b.bare[|a.bare|..] == [id];
    assert [id][1..] == [];
    assert DeclareAll(SetLocal(a.env, id, None), []) == SetLocal(a.env, id, None);
  }

  // ----- What tokens should do -----

  /** What a parse is asked to do: the tokens of a tree, and what follows them. */
  datatype Goal =
    | Free                                                              // nothing is known of the tokens
    | Chained(c: Chain, after: seq<Token>)
    | Tailing(tail: Tail, after: seq<Token>)                            // the rest of an expression
    | Operand(t: Term, after: seq<Token>)
    | Condition(c: Chain, after: seq<Token>)
    | Arguments(args: Args, after: seq<Token>)
    | Acting(a: Action, after: seq<Token>)
    | Declaring(d: Decl, sep: Token, after: seq<Token>)
    | Listing(ds: Decls, after: seq<Token>)
    | Doing(s: EjPrograms.Stmt, after: seq<Token>, budget: nat)
    | Looping(s: EjPrograms.Stmt, after: seq<Token>, budget: nat)       // the rounds of a loop
    | Body(list: Stmts, after: seq<Token>, budget: nat)                 // statements up to a brace or the end
    | Closing(after: seq<Token>)
    | AtEnd(after: seq<Token>)
    | Recovering(after: seq<Token>)                                     // after a bad operand

  ghost function ModeOf(goal: Goal): (m: Mode)
  {
    match goal
    case Chained(_, _) => RelExp
    case Tailing(_, _) => RelExp
    case Operand(_, _) => Expr
    case Condition(_, _) => Cond
    case Arguments(_, _) => ArgList
    case Acting(_, _) => Expr
    case Declaring(_, _, _) => Dec
    case Listing(_, _) => DecList
    case Recovering(_) => Bad
    case _ => Stmt
  }

  ghost function Tokens(goal: Goal): (r: seq<Token>)
  {
    match goal
    case Free => []
    case Chained(c, _) => ChainTokens(c)
    case Tailing(tail, _) => TailTokens(tail)
    case Operand(t, _) => TermTokens(t)
    case Condition(c, _) => ChainTokens(c)
    case Arguments(args, _) => ArgsTokens(args)
    case Acting(a, _) => ActionTokens(a)
    case Declaring(d, sep, _) => DeclTokens(d) + [sep]
    case Listing(ds, _) => DeclsTokens(ds)
    case Doing(s, _, _) => StmtTokens(s)
    case Looping(s, _, _) => []
    case Body(list, _, _) => BodyTokens(list)
    case Closing(_) => [RBrace]
    case AtEnd(_) => [Eof]
    case Recovering(_) => []
  }

  /** A token that can follow an operand. */
  ghost predicate Follows(t: Term, tok: Token)
  {
    match t
    case Ref(_) => !tok.Assignment? && !tok.IncDec? && !tok.LexError?
    case Missing => tok.ExprOp? || tok.RParen? || tok.Semi?
    case _ => true
  }

  /** What follows a statement is not taken for a part of it. */
  ghost predicate Ends(s: EjPrograms.Stmt, after: seq<Token>)
  {
    after != [] && !after[0].Newline? && !after[0].LexError? && (Dangles(s) ==> !after[0].Else?)
  }

  ghost predicate EndsAction(after: seq<Token>)
  {
    after != [] && (after[0].RParen? || after[0].Semi?)
  }

  /** The tree is well-formed and what follows does not continue it. */
  ghost predicate Suits(goal: Goal)
  {
    match goal
    case Free => true
    case Chained(c, after) => ChainOk(c) && after != [] && Closes(c, after[0])
    case Tailing(tail, after) => TailOk(tail) && after != [] && TailCloses(Lit(""), tail, after[0])
    case Operand(t, after) => TermOk(t, End) && after != [] && Follows(t, after[0])
    case Condition(c, after) => ChainOk(c) && EndsAction(after)
    case Arguments(args, after) => ArgsOk(args) && after != [] && after[0].RParen?
    case Acting(a, after) => ActionOk(a) && EndsAction(after)
    case Declaring(d, sep, after) => DeclOk(d) && (sep == Comma || sep == Semi) && (d.Init? ==> Closes(d.c, sep))
    case Listing(ds, after) => DeclsOk(ds)
    case Doing(s, after, budget) => StmtOk(s) && Ends(s, after)
    case Looping(s, after, budget) => StmtOk(s) && s.Loop? && Ends(s, after)
    case Body(list, after, budget) => BodyOk(list) && after != [] && (after[0].RBrace? || after[0].Eof?)
    case Closing(after) => true
    case AtEnd(after) => true
    case Recovering(after) => EndsAction(after)
  }

  /** The fuel that is enough for it. */
  ghost function Cost(goal: Goal): (n: nat)
  {
    match goal
    case Free => 0
    case Chained(c, _) => ChainSize(c)
    case Tailing(tail, _) => TailSize(tail)
    case Operand(t, _) => TermSize(t)
    case Condition(c, _) => ChainSize(c) + 1
    case Arguments(args, _) => ArgsSize(args)
    case Acting(a, _) => ActionSize(a)
    case Declaring(d, _, _) => DeclSize(d)
    case Listing(ds, _) => DeclsSize(ds)
    case Doing(s, _, budget) => StmtSize(s) + budget
    case Looping(s, _, budget) => StmtSize(s) + budget
    case Body(list, _, budget) => BodySize(list) + budget
    case _ => 2
  }

  datatype Place = Place(goal: Goal, rest: seq<Token>, fuel: nat)

  /** The tokens to come are those of the goal, and there is fuel for it. */
  ghost predicate Planned(p: Place)
  {
    p.goal.Free? || (Suits(p.goal) && p.rest == Tokens(p.goal) + p.goal.after && p.fuel >= Cost(p.goal))
  }

  ghost predicate Ready(depth: nat, goal: Goal, rest: seq<Token>, fuel: nat)
  {
    Sealed(depth, Planned, Place(goal, rest, fuel))
  }

  /** Whatever the tokens, nothing can be asked of them. */
  lemma FreeIsReady(depth: nat, rest: seq<Token>, fuel: nat)
    ensures Ready(depth, Free, rest, fuel)
  {
    SealedIs(depth, Planned, Place(Free, rest, fuel));
  }

  datatype Question = Question(goal: Goal, ops: Operators, exe: bool, env: Env, sofar: string, noted: bool)

  /** What the goal's tree comes to. */
  ghost function Meaning(q: Question): (r: Outcome)
  {
    match q.goal
    case Free => Stuck
    case Chained(c, _) => EvalChain(c, q.ops, q.exe, q.env, q.noted)
    case Tailing(tail, _) => EvalTail(tail, q.ops, q.exe, q.env, q.sofar, q.noted)
    case Operand(t, _) => EvalTerm(t, q.ops, q.exe, q.env, q.sofar, q.noted)
    case Condition(c, _) => EvalChain(c, q.ops, q.exe, q.env, q.noted)
    case Arguments(args, _) => EvalArgs(args, q.ops, q.exe, q.env, q.noted)
    case Acting(a, after) => Act(a, q.ops, q.exe, q.env, q.noted, after != [] && after[0].RParen?)
    case Declaring(d, sep, _) => ExecDecl(d, sep, q.ops, q.exe, q.env, q.noted)
    case Listing(ds, _) => ExecDecls(ds, q.ops, q.exe, q.env, q.noted)
    case Doing(s, _, budget) => Exec(s, q.ops, q.exe, q.env, q.noted, budget)
    case Looping(s, _, budget) => if s.Loop? then Rounds(s, q.ops, q.env, q.noted, budget) else Stuck
    case Body(list, _, budget) => ExecBody(list, q.ops, q.exe, q.env, q.noted, budget)
    case Closing(_) => Did(q.noted, q.env)
    case AtEnd(_) => Did(q.noted, q.env)
    case Recovering(after) => if after != [] && after[0].RParen? then Did(q.noted, q.env) else Broke(q.env, [])
  }

  /** The value so far matters to operands only. */
  ghost function Asked(goal: Goal, ops: Operators, exe: bool, env: Env, sofar: string, noted: bool): (q: Question)
  {
    Question(goal, ops, exe, env, if goal.Operand? || goal.Tailing? then sofar else "", noted)
  }

  /** The kinds of outcome a goal can have. */
  ghost predicate Kind(goal: Goal, o: Outcome)
  {
    match goal
    case Free => true
    case Chained(_, _) => o.Value? || o.Broke?
    case Tailing(_, _) => o.Value? || o.Broke?
    case Operand(_, _) => o.Value? || o.Broke?
    case Condition(_, _) => o.Value? || o.Broke?
    case Arguments(_, _) => o.Values? || o.Broke?
    case Acting(_, _) => o.Did? || o.Broke? || o.Stuck?
    case Declaring(_, _, _) => o.Did? || o.Broke?
    case Listing(_, _) => o.Did? || o.Broke?
    case Doing(_, _, _) => o.Did? || o.Ret? || o.Broke? || o.Stuck?
    case Looping(_, _, _) => o.Did? || o.Ret? || o.Broke? || o.Stuck?
    case Body(_, _, _) => o.Did? || o.Ret? || o.Broke? || o.Stuck?
    case Closing(_) => o.Did?
    case AtEnd(_) => o.Did?
    case Recovering(_) => o.Did? || o.Broke?
  }

  ghost function Told(depth: nat, ops: Operators, goal: Goal, exe: bool, env: Env, sofar: string, noted: bool): (r: Outcome)
  {
    Sealed(depth, Meaning, Asked(goal, ops, exe, env, sofar, noted))
  }

  lemma ToldIs(depth: nat, ops: Operators, goal: Goal, exe: bool, env: Env, sofar: string, noted: bool)
    ensures Told(depth, ops, goal, exe, env, sofar, noted) == Meaning(Asked(goal, ops, exe, env, sofar, noted))
  {
    SealedIs(depth, Meaning, Asked(goal, ops, exe, env, sofar, noted));
  }

  lemma ToldKind(depth: nat, ops: Operators, goal: Goal, exe: bool, env: Env, sofar: string, noted: bool)
    ensures Kind(goal, Told(depth, ops, goal, exe, env, sofar, noted))
  {
    ToldIs(depth, ops, goal, exe, env, sofar, noted);
  }

  // ----- When a goal is met -----

  ghost function DoneCode(goal: Goal): (c: Code)
  {
    match goal
    case Chained(_, _) => RelExpDone
    case Condition(_, _) => CondDone
    case Arguments(_, _) => ArgListDone
    case Declaring(_, _, _) => DecDone
    case Listing(_, _) => DecListDone
    case Doing(_, _, _) => StmtDone
    case Closing(_) => BlockDone
    case AtEnd(_) => EofState
    case _ => ExprDone
  }

  /** What is left when the goal is done: the separator of a declaration and a brace are not taken. */
  ghost function DoneRest(goal: Goal): (r: seq<Token>)
    requires !goal.Free?
  {
    if goal.Declaring? then [goal.sep] + goal.after
    else if goal.Closing? then [RBrace] + goal.after
    else goal.after
  }

  function WithArgs(func: Option<Func>, args: seq<string>): (r: Option<Func>)
  {
    if func.Some? then Some(Func(func.value.name, func.value.args + args)) else None
  }

  /** State b is what the outcome says: variables, error note, value, and the function being called. */
  ghost predicate Holds(o: Outcome, f: Option<Func>, b: State)
  {
    match o
    case Stuck => true
    case Broke(env, left) => b.env == env && b.func == f
    case Ret(v, noted, env) => b.result == v && b.error == noted && b.env == env
    case Value(v, noted, env) => b.result == v && b.error == noted && b.env == env && b.func == f
    case Values(vs, noted, env) => b.error == noted && b.env == env && b.func == WithArgs(f, vs)
    case Did(noted, env) => b.error == noted && b.env == env && b.func == f
  }

  datatype Report = Report(goal: Goal, o: Outcome, f: Option<Func>, code: Code, b: State)

  /** The parse of a goal ended as its tree does: done with the tokens taken, or failed at the same token. */
  ghost predicate MetBy(r: Report)
  {
    r.goal.Free? || r.o.Stuck? ||
    (&& (Holds(r.o, r.f, r.b) || (r.goal.Arguments? && r.o.Broke? && r.b.env == r.o.env))
     && if r.o.Broke? then r.code == ErrState && r.b.rest == r.o.left + r.goal.after
        else if r.o.Ret? then r.code == RetState
        else r.code == DoneCode(r.goal) && r.b.rest == DoneRest(r.goal))
  }

  ghost predicate Met(depth: nat, goal: Goal, o: Outcome, f: Option<Func>, code: Code, b: State)
  {
    Sealed(depth, MetBy, Report(goal, o, f, code, b))
  }

  lemma MetIs(depth: nat, goal: Goal, o: Outcome, f: Option<Func>, code: Code, b: State)
    ensures Met(depth, goal, o, f, code, b) <==> MetBy(Report(goal, o, f, code, b))
  {
    SealedIs(depth, MetBy, Report(goal, o, f, code, b));
  }

  /** The same for the case of the goal's first token. */
  ghost predicate Landed(goal: Goal, o: Outcome, f: Option<Func>, flow: Flow, b: State)
  {
    goal.Free? || o.Stuck? ||
    (&& !flow.Again? && Holds(o, f, b)
     && if o.Broke? then (flow == Leave(ErrState) || flow == Finish(Bad, false)) && b.rest == o.left + goal.after
        else if o.Ret? then flow == Leave(RetState)
        else if flow == Finish(Stmt, true) then goal.Doing? && b.rest == [Semi] + goal.after
        else (flow == Leave(DoneCode(goal)) || (flow == Finish(ModeOf(goal), false) && Finishes(goal))) && b.rest == DoneRest(goal))
  }

  ghost predicate Finishes(goal: Goal)
  {
    goal.Operand? || goal.Acting? || goal.Declaring? || goal.Doing?
  }

  /** A step of a larger goal: done with these tokens left, or not. */
  ghost predicate Step(o: Outcome, f: Option<Func>, ok: bool, code: Code, b: State, rest: seq<Token>, after: seq<Token>)
  {
    o.Stuck? ||
    (&& Holds(o, f, b)
     && if o.Broke? then !ok && code == ErrState && b.rest == o.left + after
        else if o.Ret? then !ok && code == RetState
        else ok && b.rest == rest)
  }

  lemma Headed(x: Token, xs: seq<Token>, rest: seq<Token>)
    requires rest == [x] + xs
    ensures rest[0] == x && rest[1..] == xs
  {
  }

  // ----- The first token of a goal -----

  /** A goal that the case of one token deals with. */
  ghost predicate Single(goal: Goal)
  {
    || goal.Free? || goal.Operand? || goal.Acting? || goal.Declaring? || goal.Doing?
    || goal.Closing? || goal.AtEnd? || goal.Recovering?
  }

  lemma HasToken(depth: nat, goal: Goal, rest: seq<Token>, fuel: nat)
    requires Single(goal) && !goal.Free? && Ready(depth, goal, rest, fuel)
    ensures rest != [] && rest == [rest[0]] + rest[1..] && fuel >= 2
    ensures BumpOf(goal).Some? || (goal.Doing? && goal.s.Return?) ==> fuel >= 6
  {
    SealedIs(depth, Planned, Place(goal, rest, fuel));
    match goal
    case Operand(t, after) => TermFirst(t, after);
    case Acting(a, after) => ActionFirst(a, after);
    case Declaring(d, sep, after) => DeclFirst(d, sep, after);
    case Doing(s, after, budget) => StmtFirst(s, after);
    case _ =>
  }

  /** The goal's own tokens after its action, call or value. */
  ghost function Gap(goal: Goal): (r: seq<Token>)
  {
    if goal.Doing? then [Semi] else if goal.Declaring? then [goal.sep] else []
  }

  ghost function Past(goal: Goal): (r: seq<Token>)
    requires !goal.Free?
  {
    Gap(goal) + goal.after
  }

  /** The expression a goal assigns, */
  ghost function AssignOf(goal: Goal): (r: Option<Chain>)
  {
    match goal
    case Acting(Set(name, c), _) => Some(c)
    case Doing(Do(Set(name, c)), _, _) => Some(c)
    case Declaring(Init(name, c), _, _) => Some(c)
    case _ => None
  }

  /** the operator it counts with, */
  ghost function BumpOf(goal: Goal): (r: Option<int>)
  {
    match goal
    case Acting(Bump(name, op), _) => Some(op)
    case Doing(Do(Bump(name, op)), _, _) => Some(op)
    case _ => None
  }

  /** the arguments it calls with, */
  ghost function CallOf(goal: Goal): (r: Option<Args>)
  {
    match goal
    case Operand(Call(name, args), _) => Some(args)
    case Acting(Invoke(name, args), _) => Some(args)
    case Doing(Do(Invoke(name, args)), _, _) => Some(args)
    case _ => None
  }

  /** and the name it does this to. */
  ghost function NameOf(goal: Goal): (r: string)
  {
    match goal
    case Operand(Ref(name), _) => name
    case Operand(Call(name, args), _) => name
    case Acting(a, _) => a.name
    case Doing(Do(a), _, _) => a.name
    case Declaring(d, _, _) => d.name
    case _ => ""
  }

  /** A goal that a parse in this mode is asked to do. */
  ghost predicate Parsed(goal: Goal, mode: Mode)
  {
    goal.Free? || (mode == ModeOf(goal) && !goal.Looping? && !goal.Body? && !goal.Tailing? && !goal.Recovering?)
  }

  /** The codes a statement, a declaration or an operand may end with. */
  predicate Accepts(mode: Mode, code: Code)
  {
    || code.EofState? || (mode == Stmt && (code.StmtDone? || code.BlockDone? || code.RetState?))
    || (mode == Dec && code.DecDone?) || (mode == Expr && code.ExprDone?)
  }

  /** Tokens that are a case of their own: no name, call, parenthesis, brace or keyword of a statement. */
  predicate Plain(tok: Token)
  {
    !tok.Id? && !tok.Function? && !tok.LParen? && !tok.If? && !tok.For? && !tok.LBrace? && !tok.Var? && !tok.Return?
  }

  /** A plain token is the whole goal, or shows that an operand is missing. */
  ghost predicate PlainForm(goal: Goal, tok: Token, rest: seq<Token>, o: Outcome, sofar: string, noted: bool, env: Env)
  {
    match goal
    case Operand(Lit(text), after) => tok == Literal(text) && rest == after && o == Value(text, noted, env)
    case Operand(Missing, after) =>
      [tok] + rest == after && (tok.ExprOp? || tok.RParen? || tok.Semi?) && o == Value(sofar, noted, env)
    case Doing(Skip, after, _) => tok == Semi && rest == after && o == Did(noted, env)
    case Closing(after) => tok == RBrace && rest == after && o == Did(noted, env)
    case AtEnd(after) => tok == Eof && rest == after && o == Did(noted, env)
    case Recovering(after) =>
      [tok] + rest == after && (tok.RParen? || tok.Semi?) && o == if tok.RParen? then Did(noted, env) else Broke(env, [])
    case _ => false
  }

  lemma PlainGoal(depth: nat, ops: Operators, goal: Goal, tok: Token, rest: seq<Token>, fuel: nat,
                  exe: bool, env: Env, sofar: string, noted: bool)
    requires Single(goal) && !goal.Free? && Ready(depth, goal, [tok] + rest, fuel) && Plain(tok)
    ensures PlainForm(goal, tok, rest, Told(depth, ops, goal, exe, env, sofar, noted), sofar, noted, env)
  {
    SealedIs(depth, Planned, Place(goal, [tok] + rest, fuel));
    ToldIs(depth, ops, goal, exe, env, sofar, noted);
    assert ([tok] + rest)[0] == tok && ([tok] + rest)[1..] == rest;
    match goal
    case Operand(t, after) => TermFirst(t, after);
    case Acting(a, after) => ActionFirst(a, after);
    case Declaring(d, sep, after) => DeclFirst(d, sep, after);
    case Doing(s, after, budget) =>
      StmtFirst(s, after);
      if s.Do? { ActionFirst(s.a, [Semi] + after); }
    case _ =>
  }

  /** A name begins an assignment, a count, a reference or a declaration. */
  ghost predicate IdForm(depth: nat, goal: Goal, name: string, rest: seq<Token>, fuel: nat)
    requires !goal.Free?
  {
    && NameOf(goal) == name && rest != [] && rest == [rest[0]] + rest[1..]
    && (AssignOf(goal).Some? ==>
          && rest[0] == Assignment && rest[1..] == ChainTokens(AssignOf(goal).value) + Past(goal) && fuel > 5
          && Ready(depth, Chained(AssignOf(goal).value, Past(goal)), rest[1..], fuel - 5))
    && (BumpOf(goal).Some? ==> rest[0] == IncDec(BumpOf(goal).value) && rest[1..] == Past(goal) && EndsAction(Past(goal)))
    && (AssignOf(goal).None? && BumpOf(goal).None? ==>
          || (goal.Operand? && goal.t == Ref(name) && rest == goal.after && Follows(Ref(name), rest[0]))
          || (goal.Declaring? && goal.d == Bare(name) && rest[0] == goal.sep && rest[1..] == goal.after
              && (goal.sep == Comma || goal.sep == Semi)))
  }

  lemma IdAction(depth: nat, goal: Goal, a: Action, name: string, rest: seq<Token>, fuel: nat)
    requires (goal.Acting? && goal.a == a) || (goal.Doing? && goal.s == Do(a))
    requires ActionOk(a) && EndsAction(Past(goal)) && fuel >= ActionSize(a) && [Id(name)] + rest == ActionTokens(a) + Past(goal)
    ensures IdForm(depth, goal, name, rest, fuel)
  {
    assert ([Id(name)] + rest)[0] == Id(name) && ([Id(name)] + rest)[1..] == rest;
    ActionFirst(a, Past(goal));
    if a.Set? { ChainedReady(depth, a.c, Past(goal), fuel - 5); }
  }

  lemma IdDecl(depth: nat, goal: Goal, name: string, rest: seq<Token>, fuel: nat)
    requires goal.Declaring? && Suits(goal) && fuel >= DeclSize(goal.d)
    requires [Id(name)] + rest == (DeclTokens(goal.d) + [goal.sep]) + goal.after
    ensures IdForm(depth, goal, name, rest, fuel)
  {
    assert ([Id(name)] + rest)[0] == Id(name) && ([Id(name)] + rest)[1..] == rest;
    DeclFirst(goal.d, goal.sep, goal.after);
    if goal.d.Init? { ChainedReady(depth, goal.d.c, Past(goal), fuel - 5); }
  }

  lemma IdGoal(depth: nat, goal: Goal, name: string, rest: seq<Token>, fuel: nat)
    requires Single(goal) && !goal.Free? && Ready(depth, goal, [Id(name)] + rest, fuel)
    ensures IdForm(depth, goal, name, rest, fuel)
  {
    SealedIs(depth, Planned, Place(goal, [Id(name)] + rest, fuel));
    assert ([Id(name)] + rest)[0] == Id(name) && ([Id(name)] + rest)[1..] == rest;
    match goal
    case Operand(t, after) => TermFirst(t, after);
    case Acting(a, after) =>
      assert [] + after == after;
      IdAction(depth, goal, a, name, rest, fuel);
    case Declaring(d, sep, after) => IdDecl(depth, goal, name, rest, fuel);
    case Doing(s, after, budget) =>
      StmtFirst(s, after);
      if s.Do? { IdAction(depth, goal, s.a, name, rest, fuel); }
    case _ =>
  }

  lemma ChainedReady(depth: nat, c: Chain, after: seq<Token>, fuel: nat)
    requires ChainOk(c) && after != [] && Closes(c, after[0]) && fuel >= ChainSize(c)
    ensures Ready(depth, Chained(c, after), ChainTokens(c) + after, fuel)
  {
    SealedIs(depth, Planned, Place(Chained(c, after), ChainTokens(c) + after, fuel));
  }

  lemma MoreFuel(depth: nat, goal: Goal, rest: seq<Token>, fuel: nat, more: nat)
    requires Ready(depth, goal, rest, fuel) && fuel <= more
    ensures Ready(depth, goal, rest, more)
  {
    SealedIs(depth, Planned, Place(goal, rest, fuel));
    SealedIs(depth, Planned, Place(goal, rest, more));
  }

  /** An assignment comes to the expression's value, set in the variable when executing. */
  lemma AssignMeans(depth: nat, ops: Operators, goal: Goal, exe: bool, env: Env, sofar: string, noted: bool)
    requires Single(goal) && AssignOf(goal).Some?
    ensures var r := Told(depth, ops, Chained(AssignOf(goal).value, Past(goal)), exe, env, sofar, noted);
            && (r.Value? || r.Broke?)
            && Told(depth, ops, goal, exe, env, sofar, noted) ==
               if r.Broke? then Broke(r.env, r.left + Gap(goal))
               else Did(r.noted, if !exe then r.env
                                 else if goal.Declaring? then SetLocal(r.env, NameOf(goal), Some(r.v)) else Assign(r.env, NameOf(goal), r.v))
  {
    var sub := Chained(AssignOf(goal).value, Past(goal));
    ToldIs(depth, ops, goal, exe, env, sofar, noted);
    ToldIs(depth, ops, sub, exe, env, sofar, noted);
    var r := Told(depth, ops, sub, exe, env, sofar, noted);
    if r.Broke? { assert r.left + [] == r.left; }
  }

  lemma BumpMeans(depth: nat, ops: Operators, goal: Goal, exe: bool, env: Env, sofar: string, noted: bool)
    requires Single(goal) && BumpOf(goal).Some?
    ensures Told(depth, ops, goal, exe, env, sofar, noted) ==
            Extend(if exe then Bumped(ops, env, NameOf(goal), BumpOf(goal).value, noted, Past(goal) != [] && Past(goal)[0].RParen?)
                   else Did(noted, env), Gap(goal))
  {
    ToldIs(depth, ops, goal, exe, env, sofar, noted);
    if goal.Acting? {
      assert [] + goal.after == goal.after;
      assert forall e: Env :: Extend(Broke(e, []), []) == Broke(e, []);
    }
  }

  /** A call comes to its arguments' values and then the function. */
  lemma CallMeans(depth: nat, ops: Operators, goal: Goal, exe: bool, env: Env, sofar: string, noted: bool)
    requires Single(goal) && CallOf(goal).Some?
    ensures var r := Told(depth, ops, Arguments(CallOf(goal).value, [RParen] + Past(goal)), exe, env, "", noted);
            && (r.Values? || r.Broke?)
            && Told(depth, ops, goal, exe, env, sofar, noted) ==
               if r.Broke? then Broke(r.env, r.left + ([RParen] + Gap(goal)))
               else CallOutcome(goal, Called(ops, exe, r.env, NameOf(goal), r.vs, r.noted))
  {
    var sub := Arguments(CallOf(goal).value, [RParen] + Past(goal));
    ToldIs(depth, ops, goal, exe, env, sofar, noted);
    ToldIs(depth, ops, sub, exe, env, "", noted);
    var r := Told(depth, ops, sub, exe, env, "", noted);
    if r.Broke? {
      assert (r.left + [RParen]) + Gap(goal) == r.left + ([RParen] + Gap(goal));
      assert [RParen] + [] == [RParen];
    } else {
      assert [RParen] + [] == [RParen];
    }
  }

  ghost function CallOutcome(goal: Goal, c: Outcome): (r: Outcome)
    requires c.Value? || c.Broke?
  {
    if c.Broke? then Broke(c.env, [RParen] + Gap(goal)) else if goal.Operand? then c else Did(c.noted, c.env)
  }

  lemma ParenGap(left: seq<Token>, goal: Goal)
    requires !goal.Free?
    ensures (left + ([RParen] + Gap(goal))) + goal.after == left + ([RParen] + Past(goal))
  {
  }

  lemma FunctionGoal(depth: nat, goal: Goal, name: string, rest: seq<Token>, fuel: nat)
    requires Single(goal) && !goal.Free? && Ready(depth, goal, [Function(name)] + rest, fuel)
    ensures NameOf(goal) == name && CallOf(goal).Some? && fuel > 3
    ensures var args, after := CallOf(goal).value, [RParen] + Past(goal);
            rest == [LParen] + (ArgsTokens(args) + after) && Ready(depth, Arguments(args, after), ArgsTokens(args) + after, fuel - 3)
  {
    SealedIs(depth, Planned, Place(goal, [Function(name)] + rest, fuel));
    assert ([Function(name)] + rest)[0] == Function(name) && ([Function(name)] + rest)[1..] == rest;
    match goal
    case Operand(t, after) =>
      TermFirst(t, after);
      if t.Call? { ArgumentsReady(depth, t.args, after, fuel - 3); }
    case Acting(a, after) =>
      ActionFirst(a, after);
      if a.Invoke? { ArgumentsReady(depth, a.args, after, fuel - 3); }
    case Declaring(d, sep, after) => DeclFirst(d, sep, after);
    case Doing(s, after, budget) =>
      StmtFirst(s, after);
      if s.Do? {
        ActionFirst(s.a, [Semi] + after);
        if s.a.Invoke? { ArgumentsReady(depth, s.a.args, [Semi] + after, fuel - 3); }
      }
    case _ =>
  }

  lemma ArgumentsReady(depth: nat, args: Args, after: seq<Token>, fuel: nat)
    requires ArgsOk(args) && fuel >= ArgsSize(args)
    ensures Ready(depth, Arguments(args, [RParen] + after), ArgsTokens(args) + ([RParen] + after), fuel)
    ensures [] + after == after
  {
    SealedIs(depth, Planned, Place(Arguments(args, [RParen] + after), ArgsTokens(args) + ([RParen] + after), fuel));
  }

  lemma ParenGoal(depth: nat, ops: Operators, goal: Goal, rest: seq<Token>, fuel: nat, exe: bool, env: Env, sofar: string, noted: bool)
    requires Single(goal) && !goal.Free? && Ready(depth, goal, [LParen] + rest, fuel)
    ensures goal.Operand? && goal.t.Paren? && fuel > 2 && rest == ChainTokens(goal.t.e) + ([RParen] + goal.after)
    ensures Ready(depth, Chained(goal.t.e, [RParen] + goal.after), rest, fuel - 2)
    ensures var r := Told(depth, ops, Chained(goal.t.e, [RParen] + goal.after), exe, env, sofar, noted);
            && (r.Value? || r.Broke?) && Told(depth, ops, goal, exe, env, sofar, noted) == Extend(r, [RParen])
  {
    SealedIs(depth, Planned, Place(goal, [LParen] + rest, fuel));
    assert ([LParen] + rest)[0] == LParen && ([LParen] + rest)[1..] == rest;
    match goal
    case Operand(t, after) =>
      TermFirst(t, after);
      if t.Paren? {
        ChainedReady(depth, t.e, [RParen] + after, fuel - 2);
        ToldIs(depth, ops, goal, exe, env, sofar, noted);
        ToldIs(depth, ops, Chained(t.e, [RParen] + after), exe, env, sofar, noted);
      }
    case Acting(a, after) => ActionFirst(a, after);
    case Declaring(d, sep, after) => DeclFirst(d, sep, after);
    case Doing(s, after, budget) =>
      StmtFirst(s, after);
      if s.Do? { ActionFirst(s.a, [Semi] + after); }
    case _ =>
  }

  // ----- Expressions, operand by operand -----

  /** What a goal's operand is, and what comes after it. */
  ghost function FirstOperand(c: Chain, after: seq<Token>): (r: Goal)
  {
    Operand(c.first, TailTokens(c.tail) + after)
  }

  lemma OperandReady(depth: nat, t: Term, tail: Tail, after: seq<Token>, fuel: nat)
    requires TermOk(t, tail) && TailOk(tail) && after != [] && TailCloses(t, tail, after[0]) && fuel >= TermSize(t)
    ensures Ready(depth, Operand(t, TailTokens(tail) + after), TermTokens(t) + (TailTokens(tail) + after), fuel)
  {
    TailContinues(t, tail, after);
    SealedIs(depth, Planned, Place(Operand(t, TailTokens(tail) + after), TermTokens(t) + (TailTokens(tail) + after), fuel));
  }

  lemma TailReady(depth: nat, t: Term, tail: Tail, after: seq<Token>, fuel: nat)
    requires TailOk(tail) && after != [] && TailCloses(t, tail, after[0]) && fuel >= TailSize(tail)
    ensures Ready(depth, Tailing(tail, after), TailTokens(tail) + after, fuel)
  {
    SealedIs(depth, Planned, Place(Tailing(tail, after), TailTokens(tail) + after, fuel));
  }

  /** An expression is its first operand and then the rest. */
  lemma ChainStep(depth: nat, ops: Operators, goal: Goal, rest: seq<Token>, fuel: nat, exe: bool, env: Env, sofar: string, noted: bool)
    requires goal.Chained? && Ready(depth, goal, rest, fuel)
    ensures fuel > 2 && Ready(depth, FirstOperand(goal.c, goal.after), rest, fuel - 1)
    ensures Ready(depth, Tailing(goal.c.tail, goal.after), TailTokens(goal.c.tail) + goal.after, fuel - 2)
    ensures var r := Told(depth, ops, FirstOperand(goal.c, goal.after), exe, env, "", noted);
            && (r.Value? || r.Broke?)
            && Told(depth, ops, goal, exe, env, sofar, noted) ==
               if r.Broke? then Extend(r, TailTokens(goal.c.tail))
               else Told(depth, ops, Tailing(goal.c.tail, goal.after), exe, r.env, r.v, r.noted)
  {
    var c, after := goal.c, goal.after;
    SealedIs(depth, Planned, Place(goal, rest, fuel));
    Regroup(TermTokens(c.first), TailTokens(c.tail), after);
    OperandReady(depth, c.first, c.tail, after, fuel - 1);
    TailReady(depth, c.first, c.tail, after, fuel - 2);
    ToldIs(depth, ops, goal, exe, env, sofar, noted);
    ToldIs(depth, ops, FirstOperand(c, after), exe, env, "", noted);
    var r := Told(depth, ops, FirstOperand(c, after), exe, env, "", noted);
    if r.Value? { ToldIs(depth, ops, Tailing(c.tail, after), exe, r.env, r.v, r.noted); }
  }

  /** The operand after the operator a tail begins with. */
  ghost function NextOperand(tail: Tail, after: seq<Token>): (r: Goal)
  {
    match tail
    case End => Free
    case More(op, term, more) => Operand(term, TailTokens(more) + after)
    case Logic(op, right) => Chained(right, after)
  }

  ghost function OpToken(tail: Tail): (tok: Token)
    requires !tail.End?
  {
    if tail.More? then ExprOp(tail.op) else Logical(tail.op)
  }

  lemma EndStep(depth: nat, ops: Operators, goal: Goal, rest: seq<Token>, fuel: nat, exe: bool, env: Env, lhs: string, noted: bool)
    requires goal.Tailing? && Ready(depth, goal, rest, fuel)
    ensures rest != [] && fuel > 0
    ensures goal.tail.End? ==> rest == goal.after && Stops(rest[0]) && Told(depth, ops, goal, exe, env, lhs, noted) == Value(lhs, noted, env)
    ensures !goal.tail.End? ==>
              && rest[0] == OpToken(goal.tail) && goal.tail.op > 0 && fuel > 2
              && Ready(depth, NextOperand(goal.tail, goal.after), rest[1..], fuel - 1)
              && (goal.tail.More? ==> Ready(depth, Tailing(goal.tail.tail, goal.after), TailTokens(goal.tail.tail) + goal.after, fuel - 2))
  {
    var after := goal.after;
    SealedIs(depth, Planned, Place(goal, rest, fuel));
    FirstOperator(goal.tail, after);
    match goal.tail
    case End => ToldIs(depth, ops, goal, exe, env, lhs, noted);
    case More(op, term, more) =>
      Enclosed([ExprOp(op)], TermTokens(term), TailTokens(more), after);
      Unpack(ExprOp(op), TermTokens(term), TailTokens(more) + after);
      OperandReady(depth, term, more, after, fuel - 1);
      TailReady(depth, term, more, after, fuel - 2);
    case Logic(op, right) =>
      Unpack(Logical(op), ChainTokens(right), after);
      ChainedReady(depth, right, after, fuel - 1);
  }

  /** With the next operand's value, the rest decides the value of the whole. */
  lemma TailMeans(depth: nat, ops: Operators, goal: Goal, exe: bool, env: Env, lhs: string, noted: bool)
    requires goal.Tailing? && !goal.tail.End?
    ensures var r := Told(depth, ops, NextOperand(goal.tail, goal.after), exe, env, lhs, noted);
            && (r.Value? || r.Broke?)
            && Told(depth, ops, goal, exe, env, lhs, noted) ==
               if goal.tail.Logic? then (if r.Broke? then r else Joined(ops, lhs, goal.tail.op, r.v, r.noted, r.env))
               else if r.Broke? then Extend(r, TailTokens(goal.tail.tail))
               else match ops.op(lhs, goal.tail.op, r.v)
                    case None => Broke(r.env, TailTokens(goal.tail.tail))
                    case Some(v) => Told(depth, ops, Tailing(goal.tail.tail, goal.after), exe, r.env, v, r.noted)
  {
    var sub := NextOperand(goal.tail, goal.after);
    ToldIs(depth, ops, goal, exe, env, lhs, noted);
    ToldIs(depth, ops, sub, exe, env, lhs, noted);
    var r := Told(depth, ops, sub, exe, env, lhs, noted);
    if goal.tail.More? && r.Value? && ops.op(lhs, goal.tail.op, r.v).Some? {
      ToldIs(depth, ops, Tailing(goal.tail.tail, goal.after), exe, r.env, ops.op(lhs, goal.tail.op, r.v).value, r.noted);
    }
  }

  /** The operand an expression's loop parses next, and the operators after it. */
  ghost function OperandOf(t: Goal): (r: Goal)
  {
    if t.Chained? then FirstOperand(t.c, t.after) else if t.Tailing? then NextOperand(t.tail, t.after) else Free
  }

  ghost function RestOf(t: Goal): (r: Tail)
  {
    if t.Chained? then t.c.tail else if t.Tailing? && t.tail.More? then t.tail.tail else End
  }

  /** Where the loop stands: at the first operand, or after an operator with the value so far. */
  ghost predicate AtOperand(depth: nat, t: Goal, lhs: string, rel: int, logical: bool, result: string, rest: seq<Token>, fuel: nat)
  {
    if t.Chained? then rel == 0 && !logical && result == "" && Ready(depth, t, rest, fuel)
    else
      && t.Tailing? && !t.tail.End? && rel == t.tail.op && rel > 0 && logical == t.tail.Logic? && result == lhs && fuel >= 2
      && Ready(depth, NextOperand(t.tail, t.after), rest, fuel - 1)
      && (t.tail.More? ==> Ready(depth, Tailing(t.tail.tail, t.after), TailTokens(t.tail.tail) + t.after, fuel - 2))
  }

  lemma OperandFuel(depth: nat, t: Goal, lhs: string, rel: int, logical: bool, result: string, rest: seq<Token>, fuel: nat)
    requires AtOperand(depth, t, lhs, rel, logical, result, rest, fuel)
    ensures fuel > 0
  {
    if t.Chained? { SealedIs(depth, Planned, Place(t, rest, fuel)); }
  }

  /** The operand's value, and what it makes of the whole. */
  ghost function AfterValue(depth: nat, ops: Operators, t: Goal, lhs: string, rel: int, logical: bool, exe: bool, r: Outcome): (o: Outcome)
    requires r.Value? && !t.Free?
  {
    if logical then Joined(ops, lhs, rel, r.v, r.noted, r.env)
    else if rel > 0 then
      match ops.op(lhs, rel, r.v)
      case None => Broke(r.env, TailTokens(RestOf(t)))
      case Some(v) => Told(depth, ops, Tailing(RestOf(t), t.after), exe, r.env, v, r.noted)
    else Told(depth, ops, Tailing(RestOf(t), t.after), exe, r.env, r.v, r.noted)
  }

  lemma OperandMeans(depth: nat, ops: Operators, t: Goal, lhs: string, rel: int, logical: bool, result: string, rest: seq<Token>,
                     fuel: nat, exe: bool, env: Env, noted: bool)
    requires !t.Free? && AtOperand(depth, t, lhs, rel, logical, result, rest, fuel + 1)
    ensures Ready(depth, OperandOf(t), rest, fuel) && (if logical then OperandOf(t).Chained? else OperandOf(t).Operand?)
    ensures logical ==> RestOf(t).End? && OperandOf(t).after == t.after && t.after != [] && Stops(t.after[0]) && [] + t.after == t.after
    ensures !logical ==>
              && OperandOf(t).after == TailTokens(RestOf(t)) + t.after && fuel > 0
              && Ready(depth, Tailing(RestOf(t), t.after), TailTokens(RestOf(t)) + t.after, fuel - 1)
    ensures var r := Told(depth, ops, OperandOf(t), exe, env, result, noted);
            && (r.Value? || r.Broke?)
            && Told(depth, ops, t, exe, env, lhs, noted) ==
               if r.Broke? then (if logical then r else Extend(r, TailTokens(RestOf(t))))
               else AfterValue(depth, ops, t, lhs, rel, logical, exe, r)
  {
    if t.Chained? {
      ChainStep(depth, ops, t, rest, fuel + 1, exe, env, lhs, noted);
    } else {
      TailMeans(depth, ops, t, exe, env, lhs, noted);
      if logical {
        SealedIs(depth, Planned, Place(NextOperand(t.tail, t.after), rest, fuel));
        assert [] + t.after == t.after;
      }
    }
  }

  /** The operand has its value: the rest of the expression decides, or there is none. */
  ghost predicate HasValue(depth: nat, ops: Operators, t: Goal, logical: bool, exe: bool, o: Outcome, b: State, fuel: nat)
    requires !t.Free?
  {
    if logical then o == Value(b.result, b.error, b.env) && b.rest == t.after && t.after != [] && Stops(t.after[0])
    else
      && Told(depth, ops, Tailing(RestOf(t), t.after), exe, b.env, b.result, b.error) == o && fuel > 0
      && Ready(depth, Tailing(RestOf(t), t.after), b.rest, fuel - 1)
  }

  lemma OperatorNext(depth: nat, ops: Operators, t: Goal, logical: bool, exe: bool, o: Outcome, b: State, fuel: nat)
    requires !t.Free? && HasValue(depth, ops, t, logical, exe, o, b, fuel)
    ensures b.rest != []
    ensures logical || RestOf(t).End? ==> Stops(b.rest[0]) && o == Value(b.result, b.error, b.env) && b.rest == t.after
    ensures !logical && !RestOf(t).End? ==>
              && b.rest[0] == OpToken(RestOf(t))
              && AtOperand(depth, Tailing(RestOf(t), t.after), b.result, RestOf(t).op, RestOf(t).Logic?, b.result, b.rest[1..], fuel)
  {
    if !logical {
      var tail := RestOf(t);
      EndStep(depth, ops, Tailing(tail, t.after), b.rest, fuel - 1, exe, b.env, b.result, b.error);
      if !tail.End? {
        MoreFuel(depth, NextOperand(tail, t.after), b.rest[1..], fuel - 2, fuel - 1);
        if tail.More? { MoreFuel(depth, Tailing(tail.tail, t.after), TailTokens(tail.tail) + t.after, fuel - 3, fuel - 2); }
      }
    }
  }

  lemma CondStep(depth: nat, ops: Operators, goal: Goal, rest: seq<Token>, fuel: nat, exe: bool, env: Env, sofar: string, noted: bool)
    requires goal.Condition? && Ready(depth, goal, rest, fuel)
    ensures fuel > 0 && Ready(depth, Chained(goal.c, goal.after), rest, fuel - 1) && EndsAction(goal.after)
    ensures var o := Told(depth, ops, goal, exe, env, sofar, noted);
            o == Told(depth, ops, Chained(goal.c, goal.after), exe, env, sofar, noted) && (o.Value? || o.Broke?)
  {
    SealedIs(depth, Planned, Place(goal, rest, fuel));
    ChainedReady(depth, goal.c, goal.after, fuel - 1);
    ToldIs(depth, ops, goal, exe, env, sofar, noted);
    ToldIs(depth, ops, Chained(goal.c, goal.after), exe, env, sofar, noted);
  }

  // ----- Arguments and declarations, one by one -----

  ghost function FirstArg(args: Args, after: seq<Token>): (r: Goal)
  {
    Chained(args.c, if args.Last? then after else [Comma] + (ArgsTokens(args.rest) + after))
  }

  ghost function Prepend(vs: seq<string>, r: Outcome): (r': Outcome)
  {
    if r.Values? then Values(vs + r.vs, r.noted, r.env) else r
  }

  lemma PrependNone(r: Outcome)
    ensures Prepend([], r) == r
  {
    if r.Values? { assert [] + r.vs == r.vs; }
  }

  lemma PrependTwice(vs: seq<string>, v: string, r: Outcome)
    ensures Prepend(vs, Prepend([v], r)) == Prepend(vs + [v], r)
  {
    if r.Values? { Regroup(vs, [v], r.vs); }
  }

  lemma WithNoArgs(func: Option<Func>)
    ensures WithArgs(func, []) == func
  {
    if func.Some? { assert func.value.args + [] == func.value.args; }
  }

  lemma WithMoreArgs(func: Option<Func>, vs: seq<string>, more: seq<string>)
    ensures WithArgs(WithArgs(func, vs), more) == WithArgs(func, vs + more)
  {
    if func.Some? { Regroup(func.value.args, vs, more); }
  }

  /** What is met for the arguments left is met for all of them. */
  lemma ArgsMet(depth: nat, todo: Goal, goal: Goal, r: Outcome, o: Outcome, f: Option<Func>, done: seq<string>, code: Code, b: State)
    requires todo.Arguments? && goal.Arguments? && todo.after == goal.after && Met(depth, todo, r, WithArgs(f, done), code, b)
    requires Prepend(done, r) == o && (r.Values? || r.Broke?)
    ensures Met(depth, goal, o, f, code, b)
  {
    MetIs(depth, todo, r, WithArgs(f, done), code, b);
    MetIs(depth, goal, o, f, code, b);
    if r.Values? { WithMoreArgs(f, done, r.vs); }
  }

  /** The first argument has its value, and the others decide. */
  ghost predicate ArgTaken(depth: nat, ops: Operators, goal: Goal, exe: bool, o: Outcome, f: Option<Func>, fuel: nat, b: State)
    requires goal.Arguments?
  {
    && b.func == WithArgs(f, [b.result]) && b.rest == ArgsRest(goal) && goal.after != [] && goal.after[0].RParen?
    && if goal.args.Last? then o == Values([b.result], b.error, b.env)
       else
         && o == Prepend([b.result], Told(depth, ops, Arguments(goal.args.rest, goal.after), exe, b.env, b.result, b.error))
         && Ready(depth, Arguments(goal.args.rest, goal.after), ArgsTokens(goal.args.rest) + goal.after, fuel)
  }

  ghost function ArgsRest(goal: Goal): (r: seq<Token>)
    requires goal.Arguments?
  {
    FirstArg(goal.args, goal.after).after
  }

  lemma FirstTaken(depth: nat, ops: Operators, goal: Goal, exe: bool, a: State, fuel: nat, code: Code, b: State, c: State)
    requires goal.Arguments? && Ready(depth, goal, a.rest, fuel + 1)
    requires var sub := FirstArg(goal.args, goal.after);
             Met(depth, sub, Told(depth, ops, sub, exe, a.env, a.result, a.error), a.func, code, b)
    requires c == if code == RelExpDone then b.(func := WithArgs(b.func, [b.result])) else b
    ensures var o := Told(depth, ops, goal, exe, a.env, a.result, a.error);
            if code == ErrState then Met(depth, goal, o, a.func, code, c)
            else code == RelExpDone && ArgTaken(depth, ops, goal, exe, o, a.func, fuel, c)
  {
    var sub := FirstArg(goal.args, goal.after);
    var v, o := Told(depth, ops, sub, exe, a.env, a.result, a.error), Told(depth, ops, goal, exe, a.env, a.result, a.error);
    ArgsStep(depth, goal, a.rest, fuel + 1);
    ArgsMeans(depth, ops, goal, exe, a.env, a.result, a.error);
    MetIs(depth, sub, v, a.func, code, b);
    if v.Broke? {
      if goal.args.Next? { Enclosed(v.left, [Comma], ArgsTokens(goal.args.rest), goal.after); }
      MetIs(depth, goal, o, a.func, code, c);
    }
  }

  lemma ArgsStep(depth: nat, goal: Goal, rest: seq<Token>, fuel: nat)
    requires goal.Arguments? && Ready(depth, goal, rest, fuel)
    ensures fuel > 2 && Ready(depth, FirstArg(goal.args, goal.after), rest, fuel - 1) && goal.after != [] && goal.after[0].RParen?
    ensures goal.args.Next? ==> Ready(depth, Arguments(goal.args.rest, goal.after), ArgsTokens(goal.args.rest) + goal.after, fuel - 1)
  {
    SealedIs(depth, Planned, Place(goal, rest, fuel));
    var args, after := goal.args, goal.after;
    if args.Next? {
      Enclosed(ChainTokens(args.c), [Comma], ArgsTokens(args.rest), after);
      SealedIs(depth, Planned, Place(Arguments(args.rest, after), ArgsTokens(args.rest) + after, fuel - 1));
    }
    ChainedReady(depth, args.c, FirstArg(args, after).after, fuel - 1);
  }

  lemma ArgsMeans(depth: nat, ops: Operators, goal: Goal, exe: bool, env: Env, sofar: string, noted: bool)
    requires goal.Arguments?
    ensures var v := Told(depth, ops, FirstArg(goal.args, goal.after), exe, env, sofar, noted);
            && (v.Value? || v.Broke?)
            && Told(depth, ops, goal, exe, env, sofar, noted) ==
               if v.Broke? then (if goal.args.Last? then v else Extend(v, [Comma] + ArgsTokens(goal.args.rest)))
               else if goal.args.Last? then Values([v.v], v.noted, v.env)
               else Prepend([v.v], Told(depth, ops, Arguments(goal.args.rest, goal.after), exe, v.env, "", v.noted))
  {
    var sub := FirstArg(goal.args, goal.after);
    ToldIs(depth, ops, goal, exe, env, sofar, noted);
    ToldIs(depth, ops, sub, exe, env, sofar, noted);
    var v := Told(depth, ops, sub, exe, env, sofar, noted);
    if v.Value? && goal.args.Next? { ToldIs(depth, ops, Arguments(goal.args.rest, goal.after), exe, v.env, "", v.noted); }
  }

  ghost function FirstDecl(ds: Decls, after: seq<Token>): (r: Goal)
  {
    if ds.One? then Declaring(ds.d, Semi, after) else Declaring(ds.d, Comma, DeclsTokens(ds.rest) + after)
  }

  lemma DeclaringReady(depth: nat, d: Decl, sep: Token, after: seq<Token>, fuel: nat)
    requires DeclOk(d) && (sep == Comma || sep == Semi) && (d.Init? ==> Closes(d.c, sep)) && fuel >= DeclSize(d)
    ensures Ready(depth, Declaring(d, sep, after), (DeclTokens(d) + [sep]) + after, fuel)
  {
    SealedIs(depth, Planned, Place(Declaring(d, sep, after), (DeclTokens(d) + [sep]) + after, fuel));
  }

  lemma ListingReady(depth: nat, ds: Decls, after: seq<Token>, fuel: nat)
    requires DeclsOk(ds) && fuel >= DeclsSize(ds)
    ensures Ready(depth, Listing(ds, after), DeclsTokens(ds) + after, fuel)
  {
    SealedIs(depth, Planned, Place(Listing(ds, after), DeclsTokens(ds) + after, fuel));
  }

  lemma DeclsStep(depth: nat, goal: Goal, rest: seq<Token>, fuel: nat)
    requires goal.Listing? && Ready(depth, goal, rest, fuel)
    ensures fuel > 2 && Ready(depth, FirstDecl(goal.ds, goal.after), rest, fuel - 1)
    ensures rest != [] && rest[0] == Id(goal.ds.d.name) && rest == [rest[0]] + rest[1..]
    ensures goal.ds.Several? ==> Ready(depth, Listing(goal.ds.rest, goal.after), DeclsTokens(goal.ds.rest) + goal.after, fuel - 1)
  {
    SealedIs(depth, Planned, Place(goal, rest, fuel));
    var ds, after := goal.ds, goal.after;
    var sub := FirstDecl(ds, after);
    if ds.Several? {
      DeclsPlaced(ds, after);
      ListingReady(depth, ds.rest, after, fuel - 1);
    }
    DeclaringReady(depth, ds.d, sub.sep, sub.after, fuel - 1);
    DeclFirst(ds.d, sub.sep, sub.after);
  }

  lemma DeclsPlaced(ds: Decls, after: seq<Token>)
    requires ds.Several?
    ensures DeclsTokens(ds) + after == (DeclTokens(ds.d) + [Comma]) + (DeclsTokens(ds.rest) + after)
  {
    Enclosed(DeclTokens(ds.d), [Comma], DeclsTokens(ds.rest), after);
    Regroup(DeclTokens(ds.d), [Comma], DeclsTokens(ds.rest) + after);
  }

  /** The separator after the first name, and what follows it. */
  ghost function DeclsRest(goal: Goal): (r: seq<Token>)
    requires goal.Listing?
  {
    [FirstDecl(goal.ds, goal.after).sep] + FirstDecl(goal.ds, goal.after).after
  }

  /** With the first name declared the others decide. */
  ghost predicate NameDeclared(depth: nat, ops: Operators, goal: Goal, exe: bool, o: Outcome, f: Option<Func>, fuel: nat, b: State)
    requires goal.Listing?
  {
    && b.func == f && b.rest == DeclsRest(goal)
    && if goal.ds.One? then o == Did(b.error, b.env)
       else
         && o == Told(depth, ops, Listing(goal.ds.rest, goal.after), exe, b.env, b.result, b.error)
         && Ready(depth, Listing(goal.ds.rest, goal.after), DeclsTokens(goal.ds.rest) + goal.after, fuel)
  }

  lemma NameLanded(depth: nat, ops: Operators, goal: Goal, exe: bool, a: State, fuel: nat, code: Code, b: State)
    requires goal.Listing? && Ready(depth, goal, a.rest, fuel + 1)
    requires var sub := FirstDecl(goal.ds, goal.after);
             Met(depth, sub, Told(depth, ops, sub, exe, a.env, a.result, a.error), a.func, code, b)
    ensures var o := Told(depth, ops, goal, exe, a.env, a.result, a.error);
            if code == DecDone then NameDeclared(depth, ops, goal, exe, o, a.func, fuel, b)
            else code == ErrState && MetBy(Report(goal, o, a.func, code, b))
  {
    var sub := FirstDecl(goal.ds, goal.after);
    var r := Told(depth, ops, sub, exe, a.env, a.result, a.error);
    DeclsStep(depth, goal, a.rest, fuel + 1);
    DeclsMeans(depth, ops, goal, exe, a.env, a.result, a.error);
    MetIs(depth, sub, r, a.func, code, b);
    if r.Broke? && goal.ds.Several? { Regroup(r.left, DeclsTokens(goal.ds.rest), goal.after); }
  }

  lemma DeclsMeans(depth: nat, ops: Operators, goal: Goal, exe: bool, env: Env, sofar: string, noted: bool)
    requires goal.Listing?
    ensures var r := Told(depth, ops, FirstDecl(goal.ds, goal.after), exe, env, sofar, noted);
            && (r.Did? || r.Broke?)
            && Told(depth, ops, goal, exe, env, sofar, noted) ==
               if goal.ds.One? then r
               else if r.Broke? then Extend(r, DeclsTokens(goal.ds.rest))
               else Told(depth, ops, Listing(goal.ds.rest, goal.after), exe, r.env, "", r.noted)
  {
    var sub := FirstDecl(goal.ds, goal.after);
    ToldIs(depth, ops, goal, exe, env, sofar, noted);
    ToldIs(depth, ops, sub, exe, env, sofar, noted);
    var r := Told(depth, ops, sub, exe, env, sofar, noted);
    if r.Did? && goal.ds.Several? { ToldIs(depth, ops, Listing(goal.ds.rest, goal.after), exe, r.env, "", r.noted); }
  }

  /** A name alone: a reference, or a declaration without a value. */
  lemma NameMeans(depth: nat, ops: Operators, goal: Goal, name: string, exe: bool, env: Env, sofar: string, noted: bool)
    requires (goal.Operand? && goal.t == Ref(name)) || (goal.Declaring? && goal.d == Bare(name))
    ensures Told(depth, ops, goal, exe, env, sofar, noted) ==
            if goal.Operand? then Value(VarText(env, exe, name), noted, env)
            else if GetVar(env, name).0 > 0 then Broke(env, []) else Did(noted, SetLocal(env, name, None))
  {
    ToldIs(depth, ops, goal, exe, env, sofar, noted);
  }

  // ----- Statements, part by part -----

  predicate Keyword(tok: Token)
  {
    tok.If? || tok.For? || tok.LBrace? || tok.Var? || tok.Return?
  }

  /** A keyword begins the statement it stands for. */
  lemma KeywordGoal(depth: nat, goal: Goal, tok: Token, rest: seq<Token>, fuel: nat)
    requires Single(goal) && !goal.Free? && Ready(depth, goal, [tok] + rest, fuel) && Keyword(tok)
    ensures goal.Doing? && StmtOk(goal.s) && Ends(goal.s, goal.after) && fuel >= StmtSize(goal.s) + goal.budget
    ensures goal.s.Choice? <==> tok.If?
    ensures goal.s.Loop? <==> tok.For?
    ensures goal.s.Block? <==> tok.LBrace?
    ensures goal.s.Declare? <==> tok.Var?
    ensures goal.s.Return? <==> tok.Return?
    ensures StmtTokens(goal.s) + goal.after == [tok] + rest
  {
    SealedIs(depth, Planned, Place(goal, [tok] + rest, fuel));
    assert ([tok] + rest)[0] == tok;
    match goal
    case Operand(t, after) => TermFirst(t, after);
    case Acting(a, after) => ActionFirst(a, after);
    case Declaring(d, sep, after) => DeclFirst(d, sep, after);
    case Doing(s, after, budget) =>
      StmtFirst(s, after);
      if s.Do? { ActionFirst(s.a, [Semi] + after); }
    case _ =>
  }

  /** A statement's first token has been taken. */
  ghost predicate Begun(goal: Goal, tok: Token, rest: seq<Token>, fuel: nat)
  {
    && goal.Doing? && StmtOk(goal.s) && Ends(goal.s, goal.after) && fuel + 1 >= StmtSize(goal.s) + goal.budget
    && StmtTokens(goal.s) + goal.after == [tok] + rest
  }

  /** What is left of the tokens after a keyword. */
  lemma AfterKeyword(tok: Token, rest: seq<Token>, all: seq<Token>)
    requires all == [tok] + rest
    ensures all[1..] == rest
  {
  }

  lemma DoingReady(depth: nat, s: EjPrograms.Stmt, after: seq<Token>, budget: nat, fuel: nat)
    requires StmtOk(s) && Ends(s, after) && fuel >= StmtSize(s) + budget
    ensures Ready(depth, Doing(s, after, budget), StmtTokens(s) + after, fuel)
  {
    SealedIs(depth, Planned, Place(Doing(s, after, budget), StmtTokens(s) + after, fuel));
  }

  lemma ActingReady(depth: nat, a: Action, after: seq<Token>, fuel: nat)
    requires ActionOk(a) && EndsAction(after) && fuel >= ActionSize(a)
    ensures Ready(depth, Acting(a, after), ActionTokens(a) + after, fuel)
  {
    SealedIs(depth, Planned, Place(Acting(a, after), ActionTokens(a) + after, fuel));
  }

  lemma ConditionReady(depth: nat, c: Chain, after: seq<Token>, fuel: nat)
    requires ChainOk(c) && EndsAction(after) && fuel > ChainSize(c)
    ensures Ready(depth, Condition(c, after), ChainTokens(c) + after, fuel)
  {
    SealedIs(depth, Planned, Place(Condition(c, after), ChainTokens(c) + after, fuel));
  }

  // An if.

  ghost function IfGoal(goal: Goal): (r: Goal)
    requires goal.Doing? && goal.s.Choice?
  {
    Condition(goal.s.c, CondTail(goal.s) + goal.after)
  }

  ghost function YesGoal(goal: Goal): (r: Goal)
    requires goal.Free? || (goal.Doing? && goal.s.Choice?)
  {
    if goal.Free? then Free else Doing(goal.s.yes, ElseTokens(goal.s.no) + goal.after, goal.budget)
  }

  ghost function NoGoal(goal: Goal): (r: Goal)
    requires goal.Free? || (goal.Doing? && goal.s.Choice?)
  {
    if goal.Free? || goal.s.no.Empty? then Free else Doing(goal.s.no.s, goal.after, goal.budget)
  }

  /** The branches of an if can be parsed. */
  ghost predicate BranchesReady(depth: nat, goal: Goal, fuel: nat)
    requires goal.Doing? && goal.s.Choice? && fuel > 0
  {
    && Ready(depth, YesGoal(goal), StmtTokens(goal.s.yes) + (ElseTokens(goal.s.no) + goal.after), fuel - 1)
    && ElseReady(depth, goal, ElseTokens(goal.s.no) + goal.after, fuel)
  }

  /** What follows the first branch: an else and its statement, or something that is no else. */
  ghost predicate ElseReady(depth: nat, goal: Goal, rest: seq<Token>, fuel: nat)
    requires goal.Doing? && goal.s.Choice? && fuel > 0
  {
    && rest != [] && rest == [rest[0]] + rest[1..] && !rest[0].Newline? && !rest[0].LexError?
    && if goal.s.no.Empty? then rest == goal.after && !rest[0].Else?
       else rest[0].Else? && Ready(depth, NoGoal(goal), rest[1..], fuel - 1)
  }

  lemma IfReady(depth: nat, goal: Goal, rest: seq<Token>, fuel: nat)
    requires goal.Doing? && goal.s.Choice? && StmtOk(goal.s) && Ends(goal.s, goal.after) && fuel + 1 >= StmtSize(goal.s) + goal.budget
    requires StmtTokens(goal.s) + goal.after == [If] + rest
    ensures fuel > 0 && BranchesReady(depth, goal, fuel)
    ensures rest == [LParen] + (ChainTokens(goal.s.c) + (CondTail(goal.s) + goal.after))
    ensures Ready(depth, IfGoal(goal), ChainTokens(goal.s.c) + (CondTail(goal.s) + goal.after), fuel - 1)
    ensures CondTail(goal.s) + goal.after == [RParen] + (StmtTokens(goal.s.yes) + (ElseTokens(goal.s.no) + goal.after))
  {
    var s, after := goal.s, goal.after;
    StmtFirst(s, after);
    AfterKeyword(If, rest, StmtTokens(s) + after);
    Enclosed([RParen], StmtTokens(s.yes), ElseTokens(s.no), after);
    ConditionReady(depth, s.c, CondTail(s) + after, fuel - 1);
    NoReady(depth, goal, fuel);
    DoingReady(depth, s.yes, ElseTokens(s.no) + after, goal.budget, fuel - 1);
  }

  lemma NoReady(depth: nat, goal: Goal, fuel: nat)
    requires goal.Doing? && goal.s.Choice? && StmtOk(goal.s) && Ends(goal.s, goal.after) && fuel + 1 >= StmtSize(goal.s) + goal.budget
    ensures fuel > 0 && ElseReady(depth, goal, ElseTokens(goal.s.no) + goal.after, fuel)
  {
    var no, after := goal.s.no, goal.after;
    if no.Then? {
      Unpack(Else, StmtTokens(no.s), after);
      assert BodySize(no) == StmtSize(no.s) + BodySize(no.rest) + 2;
      DoingReady(depth, no.s, after, goal.budget, fuel - 1);
    } else {
      assert [] + after == after;
    }
  }

  ghost function BranchTokens(goal: Goal): (r: seq<Token>)
    requires goal.Doing? && goal.s.Choice?
  {
    StmtTokens(goal.s.yes) + (ElseTokens(goal.s.no) + goal.after)
  }

  ghost function ElseOutcome(depth: nat, ops: Operators, goal: Goal, exe: bool, env: Env, noted: bool): (r: Outcome)
    requires goal.Doing? && goal.s.Choice?
  {
    if goal.s.no.Empty? then Did(noted, env) else Told(depth, ops, NoGoal(goal), exe, env, "", noted)
  }

  ghost function BranchOutcome(depth: nat, ops: Operators, goal: Goal, exe: bool, yes: bool, env: Env, noted: bool): (r: Outcome)
    requires goal.Doing? && goal.s.Choice?
  {
    var y := Told(depth, ops, YesGoal(goal), exe && yes, env, "", noted);
    if y.Did? then ElseOutcome(depth, ops, goal, exe && !yes, y.env, y.noted) else Extend(y, ElseTokens(goal.s.no))
  }

  ghost function IfOutcome(depth: nat, ops: Operators, goal: Goal, exe: bool, env: Env, sofar: string, noted: bool): (r: Outcome)
    requires goal.Doing? && goal.s.Choice?
  {
    var v := Told(depth, ops, IfGoal(goal), exe, env, sofar, noted);
    if v.Value? then BranchOutcome(depth, ops, goal, exe, Yes(v.v), v.env, v.noted) else Extend(v, CondTail(goal.s))
  }

  lemma IfMeans(depth: nat, ops: Operators, goal: Goal, exe: bool, env: Env, sofar: string, noted: bool)
    requires goal.Doing? && goal.s.Choice?
    ensures var v := Told(depth, ops, IfGoal(goal), exe, env, sofar, noted);
            && (v.Value? || v.Broke?)
            && Told(depth, ops, goal, exe, env, sofar, noted) == IfOutcome(depth, ops, goal, exe, env, sofar, noted)
  {
    ToldIs(depth, ops, goal, exe, env, sofar, noted);
    ToldIs(depth, ops, IfGoal(goal), exe, env, sofar, noted);
    var v := Told(depth, ops, IfGoal(goal), exe, env, sofar, noted);
    if v.Value? {
      ToldIs(depth, ops, YesGoal(goal), exe && Yes(v.v), v.env, "", v.noted);
      var y := Told(depth, ops, YesGoal(goal), exe && Yes(v.v), v.env, "", v.noted);
      if y.Did? { ToldIs(depth, ops, NoGoal(goal), exe && !Yes(v.v), y.env, "", y.noted); }
    }
  }

  // A for.

  ghost predicate OfLoop(goal: Goal)
  {
    (goal.Doing? || goal.Looping?) && goal.s.Loop?
  }

  ghost function InitGoal(goal: Goal): (r: Goal)
    requires OfLoop(goal)
  {
    Acting(goal.s.init, InitTail(goal.s) + goal.after)
  }

  ghost function TestGoal(goal: Goal): (r: Goal)
    requires OfLoop(goal)
  {
    Condition(goal.s.c, TestTail(goal.s) + goal.after)
  }

  ghost function IncrGoal(goal: Goal): (r: Goal)
    requires OfLoop(goal)
  {
    Acting(goal.s.incr, IncrTail(goal.s) + goal.after)
  }

  ghost function BodyGoal(goal: Goal, budget: nat): (r: Goal)
    requires OfLoop(goal)
  {
    Doing(goal.s.body, goal.after, budget)
  }

  ghost function LoopGoal(goal: Goal, budget: nat): (r: Goal)
    requires OfLoop(goal)
  {
    Looping(goal.s, goal.after, budget)
  }

  /** The tokens between the parts of a for. */
  lemma LoopTails(s: EjPrograms.Stmt, after: seq<Token>)
    requires s.Loop?
    ensures InitTail(s) + after == [Semi] + (ChainTokens(s.c) + (TestTail(s) + after))
    ensures TestTail(s) + after == [Semi] + (ActionTokens(s.incr) + (IncrTail(s) + after))
    ensures IncrTail(s) + after == [RParen] + (StmtTokens(s.body) + after)
  {
    Enclosed([Semi], ChainTokens(s.c), TestTail(s), after);
    Enclosed([Semi], ActionTokens(s.incr), IncrTail(s), after);
    Unpack(RParen, StmtTokens(s.body), after);
  }

  /** The parts of a for can be parsed, each where it stands. */
  ghost predicate PartsReady(depth: nat, goal: Goal, budget: nat, fuel: nat)
    requires OfLoop(goal) && fuel > 0
  {
    && Ready(depth, TestGoal(goal), ChainTokens(goal.s.c) + (TestTail(goal.s) + goal.after), fuel - 1)
    && Ready(depth, IncrGoal(goal), ActionTokens(goal.s.incr) + (IncrTail(goal.s) + goal.after), fuel - 1)
    && Ready(depth, BodyGoal(goal, budget), StmtTokens(goal.s.body) + goal.after, fuel - 1)
  }

  lemma LoopParts(depth: nat, goal: Goal, budget: nat, fuel: nat)
    requires OfLoop(goal) && StmtOk(goal.s) && Ends(goal.s, goal.after) && fuel + 1 >= StmtSize(goal.s) + budget
    ensures fuel > 0 && PartsReady(depth, goal, budget, fuel)
  {
    LoopTails(goal.s, goal.after);
    ConditionReady(depth, goal.s.c, TestTail(goal.s) + goal.after, fuel - 1);
    ActingReady(depth, goal.s.incr, IncrTail(goal.s) + goal.after, fuel - 1);
    DoingReady(depth, goal.s.body, goal.after, budget, fuel - 1);
  }

  lemma ForReady(depth: nat, goal: Goal, rest: seq<Token>, fuel: nat)
    requires goal.Doing? && goal.s.Loop? && StmtOk(goal.s) && Ends(goal.s, goal.after) && fuel + 1 >= StmtSize(goal.s) + goal.budget
    requires StmtTokens(goal.s) + goal.after == [For] + rest
    ensures fuel > 0 && PartsReady(depth, goal, goal.budget, fuel)
    ensures rest == [LParen] + (ActionTokens(goal.s.init) + (InitTail(goal.s) + goal.after))
    ensures Ready(depth, InitGoal(goal), ActionTokens(goal.s.init) + (InitTail(goal.s) + goal.after), fuel - 1)
    ensures Ready(depth, LoopGoal(goal, goal.budget), goal.after, fuel + 1)
  {
    var s, after := goal.s, goal.after;
    StmtFirst(s, after);
    AfterKeyword(For, rest, StmtTokens(s) + after);
    LoopTails(s, after);
    LoopParts(depth, goal, goal.budget, fuel);
    ActingReady(depth, s.init, InitTail(s) + after, fuel - 1);
    assert [] + after == after;
    SealedIs(depth, Planned, Place(LoopGoal(goal, goal.budget), after, fuel + 1));
  }

  /** The places a loop returns to. */
  datatype Scripts = Scripts(cond: Input, incr: Input, body: Input)

  ghost predicate PlacesOk(script: seq<Token>, at: Scripts)
  {
    InputOk(script, at.cond) && InputOk(script, at.incr) && InputOk(script, at.body)
  }

  ghost predicate Placed(script: seq<Token>, at: Scripts, goal: Goal)
    requires PlacesOk(script, at) && OfLoop(goal)
  {
    && Rest(script, at.cond) == ChainTokens(goal.s.c) + (TestTail(goal.s) + goal.after)
    && Rest(script, at.incr) == ActionTokens(goal.s.incr) + (IncrTail(goal.s) + goal.after)
    && Rest(script, at.body) == StmtTokens(goal.s.body) + goal.after
  }

  /** What is not executed does not return. */
  lemma NeverReturns(depth: nat, ops: Operators, goal: Goal, env: Env, sofar: string, noted: bool)
    requires goal.Free? || goal.Doing?
    ensures goal.Doing? ==> !Told(depth, ops, goal, false, env, sofar, noted).Ret?
  {
    if goal.Doing? {
      ToldIs(depth, ops, goal, false, env, sofar, noted);
      NotExecuted(goal.s, ops, env, noted, goal.budget);
    }
  }

  /** What a for does from the pass over its body on. */
  ghost function BodyOutcome(depth: nat, ops: Operators, goal: Goal, exe: bool, goes: bool, env: Env, noted: bool): (r: Outcome)
    requires goal.Doing? && goal.s.Loop?
  {
    var b := Told(depth, ops, BodyGoal(goal, goal.budget), false, env, "", noted);
    if b.Did? && exe && goes then Told(depth, ops, LoopGoal(goal, goal.budget), true, b.env, "", b.noted) else b
  }

  /** A round ended: the loop goes on, or has ended as its tree does. */
  ghost predicate RoundEnded(depth: nat, ops: Operators, goal: Goal, o: Outcome, f: Option<Func>, code: Code, goes: bool, b: State)
    requires OfLoop(goal) && goal.budget > 0
  {
    if code == CondDone then
      && b.func == f
      && if goes then Told(depth, ops, LoopGoal(goal, goal.budget - 1), true, b.env, "", b.error) == o else o == Did(b.error, b.env)
    else
      Holds(o, f, b) && ((o.Broke? && code == ErrState && b.rest == o.left + goal.after) || (o.Ret? && code == RetState))
  }

  /** What a for does after its first test. */
  ghost function PassOutcome(depth: nat, ops: Operators, goal: Goal, exe: bool, goes: bool, env: Env, noted: bool): (r: Outcome)
    requires goal.Doing? && goal.s.Loop?
  {
    var i := Told(depth, ops, IncrGoal(goal), false, env, "", noted);
    if i.Did? then BodyOutcome(depth, ops, goal, exe, goes, i.env, i.noted) else Extend(i, IncrTail(goal.s))
  }

  ghost function TestOutcome(depth: nat, ops: Operators, goal: Goal, exe: bool, env: Env, noted: bool): (r: Outcome)
    requires goal.Doing? && goal.s.Loop?
  {
    var v := Told(depth, ops, TestGoal(goal), exe, env, "", noted);
    if v.Value? then PassOutcome(depth, ops, goal, exe, GoesOn(v.v), v.env, v.noted) else Extend(v, TestTail(goal.s))
  }

  lemma PassMeans(depth: nat, ops: Operators, goal: Goal, exe: bool, goes: bool, env: Env, noted: bool)
    requires goal.Doing? && goal.s.Loop?
    ensures PassOutcome(depth, ops, goal, exe, goes, env, noted) == LoopPass(goal.s, ops, exe, goes, env, noted, goal.budget)
  {
    LoopTails(goal.s, goal.after);
    ToldIs(depth, ops, IncrGoal(goal), false, env, "", noted);
    var i := Told(depth, ops, IncrGoal(goal), false, env, "", noted);
    if i.Did? {
      ToldIs(depth, ops, BodyGoal(goal, goal.budget), false, i.env, "", i.noted);
      var b := Told(depth, ops, BodyGoal(goal, goal.budget), false, i.env, "", i.noted);
      if b.Did? { ToldIs(depth, ops, LoopGoal(goal, goal.budget), true, b.env, "", b.noted); }
    }
  }

  lemma TestMeans(depth: nat, ops: Operators, goal: Goal, exe: bool, env: Env, noted: bool)
    requires goal.Doing? && goal.s.Loop?
    ensures TestOutcome(depth, ops, goal, exe, env, noted) == LoopTest(goal.s, ops, exe, env, noted, goal.budget)
  {
    ToldIs(depth, ops, TestGoal(goal), exe, env, "", noted);
    var v := Told(depth, ops, TestGoal(goal), exe, env, "", noted);
    if v.Value? { PassMeans(depth, ops, goal, exe, GoesOn(v.v), v.env, v.noted); }
  }

  ghost function ForOutcome(depth: nat, ops: Operators, goal: Goal, exe: bool, env: Env, sofar: string, noted: bool): (r: Outcome)
    requires goal.Doing? && goal.s.Loop?
  {
    var a := Told(depth, ops, InitGoal(goal), exe, env, sofar, noted);
    if a.Did? then TestOutcome(depth, ops, goal, exe, a.env, a.noted) else Extend(a, InitTail(goal.s))
  }

  lemma ForMeans(depth: nat, ops: Operators, goal: Goal, exe: bool, env: Env, sofar: string, noted: bool)
    requires goal.Doing? && goal.s.Loop?
    ensures var a := Told(depth, ops, InitGoal(goal), exe, env, sofar, noted);
            && (a.Did? || a.Broke? || a.Stuck?)
            && Told(depth, ops, goal, exe, env, sofar, noted) == ForOutcome(depth, ops, goal, exe, env, sofar, noted)
  {
    LoopTails(goal.s, goal.after);
    ExecLoop(goal.s, ops, exe, env, noted, goal.budget);
    ToldIs(depth, ops, goal, exe, env, sofar, noted);
    ToldIs(depth, ops, InitGoal(goal), exe, env, sofar, noted);
    var a := Told(depth, ops, InitGoal(goal), exe, env, sofar, noted);
    if a.Did? { TestMeans(depth, ops, goal, exe, a.env, a.noted); }
  }

  /** After the increment of a round: test, and the other rounds. */
  ghost function AgainOutcome(depth: nat, ops: Operators, goal: Goal, env: Env, noted: bool): (r: Outcome)
    requires OfLoop(goal) && goal.budget > 0
  {
    var v := Told(depth, ops, TestGoal(goal), true, env, "", noted);
    if !v.Value? then Extend(v, TestTail(goal.s))
    else if GoesOn(v.v) then Told(depth, ops, LoopGoal(goal, goal.budget - 1), true, v.env, "", v.noted)
    else Did(v.noted, v.env)
  }

  /** After the body of a round: increment, test, and the other rounds. */
  ghost function EndOutcome(depth: nat, ops: Operators, goal: Goal, env: Env, noted: bool): (r: Outcome)
    requires OfLoop(goal) && goal.budget > 0
  {
    var i := Told(depth, ops, IncrGoal(goal), true, env, "", noted);
    if i.Did? then AgainOutcome(depth, ops, goal, i.env, i.noted) else Extend(i, IncrTail(goal.s))
  }

  lemma EndMeans(depth: nat, ops: Operators, goal: Goal, env: Env, noted: bool)
    requires goal.Looping? && goal.s.Loop? && goal.budget > 0
    ensures EndOutcome(depth, ops, goal, env, noted) == RoundEnd(goal.s, ops, env, noted, goal.budget - 1)
  {
    LoopTails(goal.s, goal.after);
    ToldIs(depth, ops, IncrGoal(goal), true, env, "", noted);
    var i := Told(depth, ops, IncrGoal(goal), true, env, "", noted);
    if i.Did? {
      ToldIs(depth, ops, TestGoal(goal), true, i.env, "", i.noted);
      var v := Told(depth, ops, TestGoal(goal), true, i.env, "", i.noted);
      if v.Value? { ToldIs(depth, ops, LoopGoal(goal, goal.budget - 1), true, v.env, "", v.noted); }
    }
  }

  /** A round of a loop, and then the others. */
  ghost function RoundOutcome(depth: nat, ops: Operators, goal: Goal, env: Env, noted: bool): (r: Outcome)
    requires OfLoop(goal) && goal.budget > 0
  {
    var b := Told(depth, ops, BodyGoal(goal, goal.budget - 1), true, env, "", noted);
    if b.Did? then EndOutcome(depth, ops, goal, b.env, b.noted) else b
  }

  lemma RoundsTold(depth: nat, ops: Operators, goal: Goal, env: Env, noted: bool, b: Outcome)
    requires goal.Looping? && goal.s.Loop? && !Told(depth, ops, goal, true, env, "", noted).Stuck?
    requires goal.budget > 0 ==> b == Exec(goal.s.body, ops, true, env, noted, goal.budget - 1)
    ensures goal.budget > 0
    ensures Told(depth, ops, goal, true, env, "", noted) == if b.Did? then RoundEnd(goal.s, ops, b.env, b.noted, goal.budget - 1) else b
  {
    ToldIs(depth, ops, goal, true, env, "", noted);
    if goal.budget > 0 { ExecRound(goal.s, ops, env, noted, goal.budget); }
  }

  lemma RoundMeans(depth: nat, ops: Operators, goal: Goal, env: Env, noted: bool)
    requires goal.Looping? && goal.s.Loop? && !Told(depth, ops, goal, true, env, "", noted).Stuck?
    ensures goal.budget > 0 && Told(depth, ops, goal, true, env, "", noted) == RoundOutcome(depth, ops, goal, env, noted)
  {
    var budget := if goal.budget > 0 then goal.budget - 1 else 0;
    ToldIs(depth, ops, BodyGoal(goal, budget), true, env, "", noted);
    var b := Told(depth, ops, BodyGoal(goal, budget), true, env, "", noted);
    RoundsTold(depth, ops, goal, env, noted, b);
    if b.Did? { EndMeans(depth, ops, goal, b.env, b.noted); }
  }

  lemma RoundReady(depth: nat, goal: Goal, rest: seq<Token>, fuel: nat)
    requires goal.Looping? && Ready(depth, goal, rest, fuel + 1) && goal.budget > 0
    ensures goal.s.Loop? && fuel > 0 && PartsReady(depth, goal, goal.budget - 1, fuel)
    ensures Ready(depth, LoopGoal(goal, goal.budget - 1), rest, fuel)
  {
    SealedIs(depth, Planned, Place(goal, rest, fuel + 1));
    LoopParts(depth, goal, goal.budget - 1, fuel);
    SealedIs(depth, Planned, Place(LoopGoal(goal, goal.budget - 1), rest, fuel));
  }

  // Blocks, declarations and returns.

  ghost function ListGoal(goal: Goal): (r: Goal)
    requires goal.Doing? && goal.s.Block?
  {
    Body(goal.s.list, [RBrace] + goal.after, goal.budget)
  }

  lemma BlockMeans(depth: nat, ops: Operators, goal: Goal, rest: seq<Token>, fuel: nat, exe: bool, env: Env, sofar: string, noted: bool)
    requires goal.Doing? && goal.s.Block? && StmtOk(goal.s) && Ends(goal.s, goal.after) && fuel >= StmtSize(goal.s) + goal.budget
    requires StmtTokens(goal.s) + goal.after == [LBrace] + rest
    ensures fuel > 1 && Ready(depth, ListGoal(goal), rest, fuel - 1)
    ensures var r := Told(depth, ops, ListGoal(goal), exe, env, sofar, noted);
            Told(depth, ops, goal, exe, env, sofar, noted) == if r.Broke? then ClosedBy(r.env, r.left + [RBrace]) else r
  {
    StmtFirst(goal.s, goal.after);
    AfterKeyword(LBrace, rest, StmtTokens(goal.s) + goal.after);
    SealedIs(depth, Planned, Place(ListGoal(goal), rest, fuel - 1));
    ToldIs(depth, ops, goal, exe, env, sofar, noted);
    ToldIs(depth, ops, ListGoal(goal), exe, env, sofar, noted);
  }

  /** The statements of a list ended as the tree says: at what follows them, at a failure, or with a return. */
  ghost predicate Closed(o: Outcome, f: Option<Func>, after: seq<Token>, code: Code, b: State)
    requires after != []
  {
    && Holds(o, f, b)
    && if o.Broke? then code == ErrState && b.error && b.rest == o.left + after
       else if o.Ret? then code == RetState
       else if after[0].RBrace? then o.Did? && code == BlockDone && b.rest == [RBrace] + after[1..]
       else o.Did? && code == EofState && b.rest == after[1..]
  }

  ghost predicate Ended(o: Outcome, f: Option<Func>, after: seq<Token>, code: Code, b: State)
  {
    && Holds(o, f, b)
    && if o.Broke? then code == ErrState && b.error && b.rest == o.left + after
       else if o.Ret? then code == RetState
       else o.Did? && code == BlockDone && b.rest == after
  }

  /** The token a block takes for its brace. */
  lemma BraceNext(goal: Goal, r: Outcome, rest: seq<Token>)
    requires goal.Doing? && (r.Did? ==> rest == [RBrace] + goal.after) && (r.Broke? ==> rest == r.left + ([RBrace] + goal.after))
    ensures r.Did? ==> rest[0] == RBrace && rest[1..] == goal.after
    ensures r.Broke? ==>
              var unread := r.left + [RBrace];
              rest != [] && rest[0] == unread[0] && rest[1..] == unread[1..] + goal.after && (|unread| == 1 ==> unread[1..] == [])
  {
    if r.Broke? {
      var unread := r.left + [RBrace];
      assert rest == unread + goal.after;
      assert rest[1..] == unread[1..] + goal.after;
    }
  }

  /** The next statement of a list, or what ends it. */
  ghost function NextGoal(goal: Goal): (r: Goal)
    requires goal.Body? && goal.after != []
  {
    if goal.list.Then? then Doing(goal.list.s, BodyTokens(goal.list.rest) + goal.after, goal.budget)
    else if goal.after[0].RBrace? then Closing(goal.after[1..]) else AtEnd(goal.after[1..])
  }

  ghost function RestGoal(goal: Goal): (r: Goal)
    requires goal.Body? && goal.list.Then?
  {
    Body(goal.list.rest, goal.after, goal.budget)
  }

  lemma BodyStep(depth: nat, goal: Goal, rest: seq<Token>, fuel: nat)
    requires goal.Body? && Ready(depth, goal, rest, fuel)
    ensures goal.after != [] && (goal.after[0].RBrace? || goal.after[0].Eof?) && fuel > 2 && goal.after == [goal.after[0]] + goal.after[1..]
    ensures Ready(depth, NextGoal(goal), rest, fuel - 1)
    ensures goal.list.Then? ==>
              && Ready(depth, RestGoal(goal), BodyTokens(goal.list.rest) + goal.after, fuel - 1)
              && |BodyTokens(goal.list.rest) + goal.after| < |rest|
    ensures goal.list.Empty? ==> rest == goal.after
  {
    SealedIs(depth, Planned, Place(goal, rest, fuel));
    var list, after := goal.list, goal.after;
    if list.Then? {
      ThenReady(depth, list, after, goal.budget, fuel - 1);
      BodyReady(depth, list.rest, after, goal.budget, fuel - 1);
    } else {
      assert [] + after == after;
      LastReady(depth, after, fuel - 1);
    }
  }

  lemma ThenReady(depth: nat, list: Stmts, after: seq<Token>, budget: nat, fuel: nat)
    requires BodyOk(list) && list.Then? && after != [] && (after[0].RBrace? || after[0].Eof?)
    requires fuel >= StmtSize(list.s) + budget
    ensures Ready(depth, Doing(list.s, BodyTokens(list.rest) + after, budget), BodyTokens(list) + after, fuel)
    ensures |BodyTokens(list.rest) + after| < |BodyTokens(list) + after|
  {
    Regroup(StmtTokens(list.s), BodyTokens(list.rest), after);
    BodyOpens(list.rest, after);
    StmtOpens(list.s, [Semi]);
    DoingReady(depth, list.s, BodyTokens(list.rest) + after, budget, fuel);
  }

  lemma LastReady(depth: nat, after: seq<Token>, fuel: nat)
    requires after != [] && (after[0].RBrace? || after[0].Eof?) && fuel >= 2
    ensures Ready(depth, if after[0].RBrace? then Closing(after[1..]) else AtEnd(after[1..]), after, fuel)
  {
    assert after == [after[0]] + after[1..];
    SealedIs(depth, Planned, Place(if after[0].RBrace? then Closing(after[1..]) else AtEnd(after[1..]), after, fuel));
  }

  /** After a statement of a list the others decide, or the list has ended. */
  lemma StatementLands(depth: nat, ops: Operators, todo: Goal, exe: bool, a: State, fuel: nat, code: Code, b: State)
    requires todo.Body? && Ready(depth, todo, a.rest, fuel + 1) && todo.after != []
    requires var o := Told(depth, ops, todo, exe, a.env, a.result, a.error);
             !o.Stuck? && (code == ErrState ==> b.error)
    requires Met(depth, NextGoal(todo), Told(depth, ops, NextGoal(todo), exe, a.env, a.result, a.error), a.func, code, b)
    ensures var o := Told(depth, ops, todo, exe, a.env, a.result, a.error);
            if code == StmtDone then
              && todo.list.Then? && Ready(depth, RestGoal(todo), b.rest, fuel)
              && Told(depth, ops, RestGoal(todo), exe, b.env, b.result, b.error) == o && b.func == a.func && |b.rest| < |a.rest|
            else Closed(o, a.func, todo.after, code, b)
  {
    var next := NextGoal(todo);
    var r := Told(depth, ops, next, exe, a.env, a.result, a.error);
    BodyStep(depth, todo, a.rest, fuel + 1);
    BodyMeans(depth, ops, todo, exe, a.env, a.result, a.error);
    ToldKind(depth, ops, next, exe, a.env, a.result, a.error);
    MetIs(depth, next, r, a.func, code, b);
    if todo.list.Then? && r.Broke? { Regroup(r.left, BodyTokens(todo.list.rest), todo.after); }
  }

  lemma BodyReady(depth: nat, list: Stmts, after: seq<Token>, budget: nat, fuel: nat)
    requires BodyOk(list) && after != [] && (after[0].RBrace? || after[0].Eof?) && fuel >= BodySize(list) + budget
    ensures Ready(depth, Body(list, after, budget), BodyTokens(list) + after, fuel)
  {
    SealedIs(depth, Planned, Place(Body(list, after, budget), BodyTokens(list) + after, fuel));
  }

  lemma BodyMeans(depth: nat, ops: Operators, goal: Goal, exe: bool, env: Env, sofar: string, noted: bool)
    requires goal.Body? && goal.after != []
    ensures var r := Told(depth, ops, NextGoal(goal), exe, env, sofar, noted);
            && (goal.list.Empty? ==> r == Did(noted, env))
            && Told(depth, ops, goal, exe, env, sofar, noted) ==
               if goal.list.Empty? then r
               else if r.Did? then Told(depth, ops, RestGoal(goal), exe, r.env, "", r.noted)
               else Extend(r, BodyTokens(goal.list.rest))
  {
    ToldIs(depth, ops, goal, exe, env, sofar, noted);
    ToldIs(depth, ops, NextGoal(goal), exe, env, sofar, noted);
    var r := Told(depth, ops, NextGoal(goal), exe, env, sofar, noted);
    if r.Did? && goal.list.Then? { ToldIs(depth, ops, RestGoal(goal), exe, r.env, "", r.noted); }
  }

  lemma DeclareMeans(depth: nat, ops: Operators, goal: Goal, rest: seq<Token>, fuel: nat, exe: bool, env: Env, sofar: string, noted: bool)
    requires goal.Doing? && goal.s.Declare? && StmtOk(goal.s) && Ends(goal.s, goal.after) && fuel >= StmtSize(goal.s) + goal.budget
    requires StmtTokens(goal.s) + goal.after == [Token.Var] + rest
    ensures fuel > 2 && Ready(depth, Listing(goal.s.ds, goal.after), rest, fuel - 2)
    ensures Told(depth, ops, goal, exe, env, sofar, noted) == Told(depth, ops, Listing(goal.s.ds, goal.after), exe, env, sofar, noted)
  {
    StmtFirst(goal.s, goal.after);
    AfterKeyword(Token.Var, rest, StmtTokens(goal.s) + goal.after);
    SealedIs(depth, Planned, Place(Listing(goal.s.ds, goal.after), rest, fuel - 2));
    ToldIs(depth, ops, goal, exe, env, sofar, noted);
    ToldIs(depth, ops, Listing(goal.s.ds, goal.after), exe, env, sofar, noted);
  }

  ghost function ReturnedGoal(goal: Goal): (r: Goal)
    requires goal.Doing? && goal.s.Return?
  {
    Chained(goal.s.c, [Semi] + goal.after)
  }

  lemma ReturnMeans(depth: nat, ops: Operators, goal: Goal, rest: seq<Token>, fuel: nat, exe: bool, env: Env, sofar: string, noted: bool)
    requires goal.Doing? && goal.s.Return? && StmtOk(goal.s) && Ends(goal.s, goal.after) && fuel >= StmtSize(goal.s) + goal.budget
    requires StmtTokens(goal.s) + goal.after == [Token.Return] + rest
    ensures fuel > 4 && Ready(depth, ReturnedGoal(goal), rest, fuel - 2)
    ensures var v := Told(depth, ops, ReturnedGoal(goal), exe, env, sofar, noted);
            && (v.Value? || v.Broke?)
            && Told(depth, ops, goal, exe, env, sofar, noted) ==
               if v.Broke? then Extend(v, [Semi]) else if exe then Ret(v.v, v.noted, v.env) else Did(v.noted, v.env)
  {
    StmtFirst(goal.s, goal.after);
    AfterKeyword(Token.Return, rest, StmtTokens(goal.s) + goal.after);
    ChainedReady(depth, goal.s.c, [Semi] + goal.after, fuel - 2);
    ToldIs(depth, ops, goal, exe, env, sofar, noted);
    ToldIs(depth, ops, ReturnedGoal(goal), exe, env, sofar, noted);
  }

  // ----- Scripts -----

  /** A script ended as its tree does. */
  ghost predicate Finished(o: Outcome, r: Option<string>, b: State)
  {
    match o
    case Did(noted, env) => r.Some? && b.error == noted && b.env == env
    case Ret(v, noted, env) => r == Some(v) && b.error == noted && b.env == env
    case Broke(env, left) => r.None? && b.error && b.env == env
    case _ => false
  }

  lemma RestLength(script: seq<Token>, input: Input)
    requires input.pos <= |script|
    ensures |Rest(script, input)| == |script| - input.pos + if input.putback.Some? then 1 else 0
  {
  }

  // ----- Statements that take more tokens -----

  /**
   * The case of the first token looks at the next one: after a return that is not executed, where a
   * semicolon is left, and after a bad operand, in the error state.
   */
  ghost predicate GoesAgain(goal: Goal, o: Outcome, f: Option<Func>, flow: Flow, b: State)
  {
    && !goal.Free? && !o.Stuck? && flow.Again? && b.func == f
    && if flow.mode == Stmt then
         goal.Doing? && goal.s.Return? && Ends(Skip, goal.after) && b.rest == [Semi] + goal.after && o == Did(b.error, b.env)
       else
         && flow.mode == Bad && BumpOf(goal).Some? && b.rest == Past(goal) && EndsAction(b.rest)
         && o == Extend(Recovered(b), Gap(goal))
  }

  ghost function Recovered(b: State): (r: Outcome)
  {
    if b.rest != [] && b.rest[0].RParen? then Did(b.error, b.env) else Broke(b.env, [])
  }

  datatype Landing = Landing(goal: Goal, o: Outcome, f: Option<Func>, flow: Flow, b: State)

  ghost predicate LandsBy(l: Landing)
  {
    Landed(l.goal, l.o, l.f, l.flow, l.b) || GoesAgain(l.goal, l.o, l.f, l.flow, l.b)
  }

  ghost predicate Lands(depth: nat, goal: Goal, o: Outcome, f: Option<Func>, flow: Flow, b: State)
  {
    Sealed(depth, LandsBy, Landing(goal, o, f, flow, b))
  }

  lemma LandsIs(depth: nat, goal: Goal, o: Outcome, f: Option<Func>, flow: Flow, b: State)
    ensures Lands(depth, goal, o, f, flow, b) <==> LandsBy(Landing(goal, o, f, flow, b))
  {
    SealedIs(depth, LandsBy, Landing(goal, o, f, flow, b));
  }

  /** What is then left to do. */
  ghost function LeftGoal(goal: Goal, flow: Flow, rest: seq<Token>): (r: Goal)
    requires flow.Again?
  {
    if goal.Free? then Free else if flow.mode == Stmt then Doing(Skip, goal.after, 0) else Recovering(rest)
  }

  lemma LeftReady(depth: nat, ops: Operators, goal: Goal, o: Outcome, f: Option<Func>, flow: Flow, b: State, fuel: nat, exe: bool)
    requires GoesAgain(goal, o, f, flow, b) && fuel >= 4
    ensures Ready(depth, LeftGoal(goal, flow, b.rest), b.rest, fuel)
    ensures Told(depth, ops, LeftGoal(goal, flow, b.rest), exe, b.env, b.result, b.error) ==
            if flow.mode == Stmt then Did(b.error, b.env) else Recovered(b)
  {
    var left := LeftGoal(goal, flow, b.rest);
    if flow.mode == Stmt { SkipReady(depth, goal.after, b.rest, fuel); } else { RecoveringReady(depth, b.rest, fuel); }
    ToldIs(depth, ops, left, exe, b.env, b.result, b.error);
  }

  lemma SkipReady(depth: nat, after: seq<Token>, rest: seq<Token>, fuel: nat)
    requires Ends(Skip, after) && rest == [Semi] + after && fuel >= 4
    ensures Ready(depth, Doing(Skip, after, 0), rest, fuel)
  {
    SealedIs(depth, Planned, Place(Doing(Skip, after, 0), rest, fuel));
  }

  lemma RecoveringReady(depth: nat, rest: seq<Token>, fuel: nat)
    requires EndsAction(rest) && fuel >= 2
    ensures Ready(depth, Recovering(rest), rest, fuel)
  {
    assert [] + rest == rest;
    SealedIs(depth, Planned, Place(Recovering(rest), rest, fuel));
  }

  lemma LeftLands(goal: Goal, o: Outcome, f: Option<Func>, flow: Flow, b: State, flow': Flow, c: State)
    requires GoesAgain(goal, o, f, flow, b)
    requires Landed(LeftGoal(goal, flow, b.rest), if flow.mode == Stmt then Did(b.error, b.env) else Recovered(b), f, flow', c)
    ensures Landed(goal, o, f, flow', c)
  {
    if flow.mode == Bad {
      var r := Recovered(b);
      if r.Broke? { BadBroke(goal, r, f, b.rest, flow', c); } else { BadDone(goal, r, f, b.rest, flow', c); }
    }
  }

  lemma BadBroke(goal: Goal, r: Outcome, f: Option<Func>, rest: seq<Token>, flow: Flow, c: State)
    requires !goal.Free? && rest == Past(goal) && r.Broke? && r.left == []
    requires Landed(Recovering(rest), r, f, flow, c)
    ensures Landed(goal, Extend(r, Gap(goal)), f, flow, c)
  {
    assert [] + rest == rest && [] + Gap(goal) == Gap(goal);
  }

  lemma BadDone(goal: Goal, r: Outcome, f: Option<Func>, rest: seq<Token>, flow: Flow, c: State)
    requires BumpOf(goal).Some? && rest == Past(goal) && r.Did? && rest != [] && rest[0].RParen?
    requires Landed(Recovering(rest), r, f, flow, c)
    ensures Landed(goal, r, f, flow, c)
  {
    assert [] + goal.after == goal.after;
  }

  /** The end of a statement gives the goal's code. */
  lemma LandsMet(depth: nat, goal: Goal, o: Outcome, f: Option<Func>, flow: Flow, b: State, code: Code, c: State)
    requires Single(goal) && Landed(goal, o, f, flow, b) && !flow.Again?
    requires flow.Leave? ==> c == b && code == flow.code
    requires flow == Finish(Stmt, true) && goal.Doing? && b.rest == [Semi] + goal.after ==>
               code == StmtDone && c == b.(rest := goal.after)
    requires flow.Finish? && !flow.expectSemi ==>
               c == b && code == match flow.mode case Stmt => StmtDone case Dec => DecDone case Expr => ExprDone case _ => ErrState
    ensures Met(depth, goal, o, f, code, c)
  {
    MetIs(depth, goal, o, f, code, c);
  }

  // ----- How the cases of a token end -----

  /** Turning every other code into an error loses nothing. */
  lemma MetStays(depth: nat, goal: Goal, o: Outcome, f: Option<Func>, mode: Mode, code: Code, b: State, code': Code, b': State)
    requires Parsed(goal, mode) && Kind(goal, o) && Met(depth, goal, o, f, code, b) && (b' == b || b' == b.(error := true))
    requires mode != Stmt && mode != Dec && mode != Expr ==> code' == code
    requires mode == Stmt || mode == Dec || mode == Expr ==> code' == if Accepts(mode, code) then code else Failure(code)
    requires code' != ErrState ==> b' == b
    ensures Met(depth, goal, o, f, code', b')
  {
    MetIs(depth, goal, o, f, code, b);
    MetIs(depth, goal, o, f, code', b');
  }

  /** What follows a statement. */
  lemma DoingEnds(depth: nat, goal: Goal, rest: seq<Token>, fuel: nat)
    requires goal.Doing? && Ready(depth, goal, rest, fuel)
    ensures Ends(goal.s, goal.after)
  {
    SealedIs(depth, Planned, Place(goal, rest, fuel));
  }

  /** What the case of a plain token does, for the tokens a goal can begin with. */
  ghost predicate PlainDone(tok: Token, mode: Mode, a: State, flow: Flow, b: State)
  {
    && b.env == a.env && b.error == a.error && b.func == a.func
    && b.result == (if tok.Literal? then tok.text else a.result)
    && (tok.Literal? ==> flow == Finish(mode, mode == Stmt) && b.rest == a.rest)
    && (tok.ExprOp? ==> flow == Finish(mode, false) && b.rest == [tok] + a.rest)
    && (tok.Semi? ==> flow == Finish(mode, false) && b.rest == if mode == Stmt then a.rest else [Semi] + a.rest)
    && (tok.RParen? ==> flow == Leave(ExprDone) && b.rest == [RParen] + a.rest)
    && (tok.RBrace? && mode == Stmt ==> flow == Leave(BlockDone) && b.rest == [RBrace] + a.rest)
    && (tok.Eof? ==> flow == Leave(EofState) && b.rest == a.rest)
  }

  lemma PlainLands(depth: nat, goal: Goal, tok: Token, o: Outcome, a: State, flow: Flow, b: State)
    requires Single(goal) && !goal.Free?
    requires PlainForm(goal, tok, a.rest, o, a.result, a.error, a.env) && PlainDone(tok, ModeOf(goal), a, flow, b)
    ensures Lands(depth, goal, o, a.func, flow, b)
  {
    LandsIs(depth, goal, o, a.func, flow, b);
    if goal.Recovering? { assert [] + goal.after == goal.after; }
  }

  /** An assignment lands where its tree says. */
  lemma AssignLands(depth: nat, ops: Operators, goal: Goal, exe: bool, a: State, code: Code, b: State, flow: Flow, c: State)
    requires Single(goal) && AssignOf(goal).Some?
    requires var sub := Chained(AssignOf(goal).value, Past(goal));
             Met(depth, sub, Told(depth, ops, sub, exe, a.env, a.result, a.error), a.func, code, b)
    requires if code != RelExpDone then flow == Leave(Failure(code)) && c == b
             else
               && flow == Finish(ModeOf(goal), ModeOf(goal) == Stmt)
               && c == b.(env := if !exe then b.env
                                 else if ModeOf(goal) == Dec then SetLocal(b.env, NameOf(goal), Some(b.result))
                                 else Assign(b.env, NameOf(goal), b.result))
    ensures Landed(goal, Told(depth, ops, goal, exe, a.env, a.result, a.error), a.func, flow, c)
  {
    var sub := Chained(AssignOf(goal).value, Past(goal));
    var r := Told(depth, ops, sub, exe, a.env, a.result, a.error);
    AssignMeans(depth, ops, goal, exe, a.env, a.result, a.error);
    MetIs(depth, sub, r, a.func, code, b);
    if r.Broke? { Regroup(r.left, Gap(goal), goal.after); }
    if goal.Acting? { assert [] + goal.after == goal.after; }
  }

  /** What counting a variable does. */
  ghost predicate BumpDone(ops: Operators, mode: Mode, exe: bool, name: string, op: int, a: State, flow: Flow, b: State)
  {
    && b.func == a.func && b.rest == a.rest
    && if !exe then flow == Finish(mode, mode == Stmt) && b.env == a.env && b.error == a.error else
         var (scope, value) := GetVar(a.env, name);
         if scope < 0 then flow == Leave(ErrState) && b.env == a.env
         else if value.None? then flow == Leave(CutOff)
         else match ops.op(value.value, op, "1")
              case None => flow == Again(Bad) && b.env == a.env && b.error
              case Some(v) =>
                && flow == Finish(mode, mode == Stmt) && b.error == a.error
                && b.env == if scope > 0 then SetLocal(a.env, name, Some(v)) else a.env.(globals := a.env.globals[name := Some(v)])
  }

  lemma BumpLands(ops: Operators, goal: Goal, exe: bool, o: Outcome, a: State, flow: Flow, b: State)
    requires Single(goal) && BumpOf(goal).Some? && a.rest == Past(goal) && EndsAction(Past(goal))
    requires o == Extend(if exe then Bumped(ops, a.env, NameOf(goal), BumpOf(goal).value, a.error, Past(goal)[0].RParen?)
                         else Did(a.error, a.env), Gap(goal))
    requires BumpDone(ops, ModeOf(goal), exe, NameOf(goal), BumpOf(goal).value, a, flow, b)
    ensures Landed(goal, o, a.func, flow, b) || GoesAgain(goal, o, a.func, flow, b)
  {
    if goal.Acting? {
      assert [] + goal.after == goal.after;
    } else {
      assert ([] + [Semi]) + goal.after == [Semi] + goal.after;
    }
  }

  /** The tokens at a name that stands alone. */
  ghost predicate NameForm(goal: Goal, name: string, tok: Token, rest: seq<Token>)
  {
    || (goal.Operand? && goal.t == Ref(name) && [tok] + rest == goal.after && !tok.LexError?)
    || (goal.Declaring? && goal.d == Bare(name) && tok == goal.sep && rest == goal.after && (tok.Comma? || tok.Semi?))
  }

  /** A name lands where its tree says. */
  lemma NameLands(depth: nat, ops: Operators, goal: Goal, name: string, tok: Token, exe: bool, a: State, flow: Flow, b: State)
    requires NameForm(goal, name, tok, a.rest)
    requires if goal.Declaring? && GetVar(a.env, name).0 > 0 then flow == Leave(ErrState) && b == a.(error := true)
             else
               && flow == Finish(ModeOf(goal), false)
               && b == a.(env := if goal.Declaring? then SetLocal(a.env, name, None) else a.env, result := b.result, rest := [tok] + a.rest)
               && (goal.Operand? ==> b.result == VarText(a.env, exe, name))
    ensures Landed(goal, Told(depth, ops, goal, exe, a.env, a.result, a.error), a.func, flow, b)
  {
    NameMeans(depth, ops, goal, name, exe, a.env, a.result, a.error);
    assert [] + goal.after == goal.after;
  }

  ghost function ArgsGoal(goal: Goal): (r: Goal)
    requires CallOf(goal).Some?
  {
    Arguments(CallOf(goal).value, [RParen] + Past(goal))
  }

  ghost function CallOutcomes(ops: Operators, goal: Goal, exe: bool, r: Outcome): (o: Outcome)
    requires CallOf(goal).Some?
  {
    if r.Broke? then Broke(r.env, r.left + ([RParen] + Gap(goal)))
    else if r.Values? then CallOutcome(goal, Called(ops, exe, r.env, NameOf(goal), r.vs, r.noted)) else Stuck
  }

  /** The arguments of a call failed, and so did the call, or it has their values. */
  ghost predicate Gathered(ops: Operators, goal: Goal, exe: bool, saved: Option<Func>, o: Outcome, code: Code, b: State)
    requires CallOf(goal).Some?
  {
    if code == ArgListDone then
      && b.rest == [RParen] + Past(goal) && b.func.Some?
      && o == CallOutcome(goal, Called(ops, exe, b.env, NameOf(goal), b.func.value.args, b.error))
    else code == ErrState && Landed(goal, o, saved, Leave(ErrState), b.(func := saved))
  }

  lemma ArgsLand(depth: nat, ops: Operators, goal: Goal, exe: bool, saved: Option<Func>, a: State, code: Code, b: State)
    requires Single(goal) && CallOf(goal).Some? && a.func == Some(Func(NameOf(goal), []))
    requires Met(depth, ArgsGoal(goal), Told(depth, ops, ArgsGoal(goal), exe, a.env, a.result, a.error), a.func, code, b)
    ensures var o := CallOutcomes(ops, goal, exe, Told(depth, ops, ArgsGoal(goal), exe, a.env, a.result, a.error));
            Gathered(ops, goal, exe, saved, o, code, b)
  {
    var r := Told(depth, ops, ArgsGoal(goal), exe, a.env, a.result, a.error);
    ToldKind(depth, ops, ArgsGoal(goal), exe, a.env, a.result, a.error);
    MetIs(depth, ArgsGoal(goal), r, a.func, code, b);
    if r.Broke? { ParenGap(r.left, goal); } else { assert [] + r.vs == r.vs; }
  }

  /** A call lands where its tree says. */
  lemma CallLands(ops: Operators, goal: Goal, exe: bool, name: string, args: seq<string>, a: State, saved: Option<Func>,
                  ok: bool, flow: Flow, b: State)
    requires Single(goal) && CallOf(goal).Some? && a.rest == [RParen] + Past(goal) && b.func == saved
    requires var c := Called(ops, exe, a.env, name, args, a.error);
             && ok == c.Value? && b.env == c.env && b.error == a.error
             && if ok then flow == Finish(ModeOf(goal), ModeOf(goal) == Stmt) && b.result == c.v && b.rest == Past(goal)
                else flow == Leave(ErrState) && b.rest == a.rest
    ensures Landed(goal, CallOutcome(goal, Called(ops, exe, a.env, name, args, a.error)), saved, flow, b)
  {
    Regroup([RParen], Gap(goal), goal.after);
    assert [] + goal.after == goal.after;
  }

  /** A block lands where its tree says. */
  lemma BlockLands(depth: nat, ops: Operators, goal: Goal, exe: bool, a: State, fuel: nat, code: Code, b: State, flow: Flow, c: State)
    requires Begun(goal, LBrace, a.rest, fuel) && goal.s.Block?
    requires Ended(Told(depth, ops, ListGoal(goal), exe, a.env, a.result, a.error), a.func, [RBrace] + goal.after, code, b)
    requires if code == RetState || code == CutOff then flow == Leave(code) && c == b
             else
               && c == b.(rest := if b.rest == [] then [] else b.rest[1..])
               && flow == Leave(if b.rest != [] && b.rest[0].RBrace? then StmtDone else ErrState)
    ensures Landed(goal, Told(depth, ops, goal, exe, a.env, a.result, a.error), a.func, flow, c)
  {
    BlockMeans(depth, ops, goal, a.rest, fuel + 1, exe, a.env, a.result, a.error);
    BraceNext(goal, Told(depth, ops, ListGoal(goal), exe, a.env, a.result, a.error), b.rest);
  }

  /** After the increment of a round the test decides; if it failed, so did the loop. */
  lemma IncrLands(depth: nat, ops: Operators, goal: Goal, a: State, code: Code, b: State)
    requires OfLoop(goal) && goal.budget > 0 && !EndOutcome(depth, ops, goal, a.env, a.error).Stuck?
    requires Met(depth, IncrGoal(goal), Told(depth, ops, IncrGoal(goal), true, a.env, a.result, a.error), a.func, code, b)
    ensures var o := EndOutcome(depth, ops, goal, a.env, a.error);
            if code == ExprDone then o == AgainOutcome(depth, ops, goal, b.env, b.error) && b.func == a.func
            else code == ErrState && RoundEnded(depth, ops, goal, o, a.func, code, false, b)
  {
    var i := Told(depth, ops, IncrGoal(goal), true, a.env, a.result, a.error);
    ToldKind(depth, ops, IncrGoal(goal), true, a.env, a.result, a.error);
    MetIs(depth, IncrGoal(goal), i, a.func, code, b);
    if i.Broke? { Regroup(i.left, IncrTail(goal.s), goal.after); }
  }

  lemma TestLands(depth: nat, ops: Operators, goal: Goal, a: State, code: Code, b: State)
    requires OfLoop(goal) && goal.budget > 0 && !AgainOutcome(depth, ops, goal, a.env, a.error).Stuck?
    requires Met(depth, TestGoal(goal), Told(depth, ops, TestGoal(goal), true, a.env, a.result, a.error), a.func, code, b)
    ensures var o, goes := AgainOutcome(depth, ops, goal, a.env, a.error), code == CondDone && GoesOn(b.result);
            (code == CondDone || code == ErrState) && RoundEnded(depth, ops, goal, o, a.func, code, goes, b)
  {
    var v := Told(depth, ops, TestGoal(goal), true, a.env, a.result, a.error);
    ToldKind(depth, ops, TestGoal(goal), true, a.env, a.result, a.error);
    MetIs(depth, TestGoal(goal), v, a.func, code, b);
    if v.Broke? { Regroup(v.left, TestTail(goal.s), goal.after); }
  }

  /** The rounds of a loop ended as the tree says. */
  ghost predicate LoopEnded(goal: Goal, o: Outcome, f: Option<Func>, ok: bool, code: Code, b: State)
    requires !goal.Free?
  {
    && Holds(o, f, b)
    && if o.Broke? then !ok && code == ErrState && b.rest == o.left + goal.after
       else if o.Ret? then !ok && code == RetState
       else ok && o.Did?
  }

  /** An expression ended as its tree says. */
  ghost predicate ExprEnded(o: Outcome, f: Option<Func>, after: seq<Token>, code: Code, b: State)
  {
    Holds(o, f, b) && if o.Broke? then code == ErrState && b.rest == o.left + after else o.Value? && code == RelExpDone && b.rest == after
  }

  /** The operand has its value, and its operation is still to be done. */
  ghost predicate OperandDone(depth: nat, ops: Operators, t: Goal, lhs: string, rel: int, logical: bool, exe: bool, o: Outcome, b: State,
                              fuel: nat)
    requires !t.Free?
  {
    && (logical ==> rel > 0) && o == AfterValue(depth, ops, t, lhs, rel, logical, exe, Value(b.result, b.error, b.env))
    && if logical then b.rest == t.after && t.after != [] && Stops(t.after[0])
       else fuel > 0 && b.rest == TailTokens(RestOf(t)) + t.after && Ready(depth, Tailing(RestOf(t), t.after), b.rest, fuel - 1)
  }

  lemma OperandAt(depth: nat, ops: Operators, t: Goal, lhs: string, rel: int, logical: bool, a: State, fuel: nat, exe: bool)
    requires !t.Free? && AtOperand(depth, t, lhs, rel, logical, a.result, a.rest, fuel + 1)
    ensures Ready(depth, OperandOf(t), a.rest, fuel) && Parsed(OperandOf(t), if logical then RelExp else Expr)
  {
    OperandMeans(depth, ops, t, lhs, rel, logical, a.result, a.rest, fuel, exe, a.env, a.error);
  }

  lemma OperandLands(depth: nat, ops: Operators, t: Goal, lhs: string, rel: int, logical: bool, exe: bool, a: State, code: Code, b: State,
                     fuel: nat)
    requires !t.Free? && AtOperand(depth, t, lhs, rel, logical, a.result, a.rest, fuel + 1)
    requires Met(depth, OperandOf(t), Told(depth, ops, OperandOf(t), exe, a.env, a.result, a.error), a.func, code, b)
    ensures var o := Told(depth, ops, t, exe, a.env, lhs, a.error);
            if code == if logical then RelExpDone else ExprDone
            then b.func == a.func && OperandDone(depth, ops, t, lhs, rel, logical, exe, o, b, fuel)
            else code == ErrState && ExprEnded(o, a.func, t.after, code, b)
  {
    OperandMeans(depth, ops, t, lhs, rel, logical, a.result, a.rest, fuel, exe, a.env, a.error);
    var r := Told(depth, ops, OperandOf(t), exe, a.env, a.result, a.error);
    MetIs(depth, OperandOf(t), r, a.func, code, b);
    if r.Broke? {
      OperandBroke(t, logical, r, a.func, b);
    } else {
      assert r == Value(b.result, b.error, b.env);
    }
  }

  lemma OperandBroke(t: Goal, logical: bool, r: Outcome, f: Option<Func>, b: State)
    requires !t.Free? && r.Broke? && Holds(r, f, b)
    requires b.rest == r.left + if logical then t.after else TailTokens(RestOf(t)) + t.after
    ensures ExprEnded(if logical then r else Extend(r, TailTokens(RestOf(t))), f, t.after, ErrState, b)
  {
    Regroup(r.left, TailTokens(RestOf(t)), t.after);
  }

  /** With the operand's value and the operation done, the rest decides. */
  lemma ValueLands(depth: nat, ops: Operators, t: Goal, lhs: string, rel: int, logical: bool, exe: bool, o: Outcome, b: State, ok: bool,
                   c: State, fuel: nat)
    requires !t.Free? && rel > 0 && OperandDone(depth, ops, t, lhs, rel, logical, exe, o, b, fuel)
    requires c == b.(result := c.result, error := c.error)
    requires if logical then
               match ops.cond(lhs, rel, b.result)
               case None => !ok
               case Some(v) => ok && c.result == v && c.error == (b.error || !(StartsWithDigit(lhs) && StartsWithDigit(b.result)))
             else
               match ops.op(lhs, rel, b.result)
               case None => !ok
               case Some(v) => ok && c.result == v && c.error == b.error
    ensures if ok then HasValue(depth, ops, t, logical, exe, o, c, fuel) else ExprEnded(o, b.func, t.after, ErrState, c)
  {
    assert [] + t.after == t.after;
  }

  // ----- A declaration that is not executed -----

  ghost function BareGoal(name: string): (r: Goal)
  {
    Doing(Declare(One(Bare(name))), [Eof], 0)
  }

  lemma BarePlanned(ops: Operators, name: string, env: Env)
    requires GetVar(env, name).0 < 0
    ensures Planned(Place(BareGoal(name), [Token.Var, Id(name), Semi, Eof], 20))
    ensures Meaning(Asked(BareGoal(name), ops, false, env, "", false)) == Did(false, SetLocal(env, name, None))
    ensures SetLocal(env, name, None) != env
  {
    assert DeclsTokens(One(Bare(name))) == [Id(name)] + [Semi];
    assert ([Token.Var] + ([Id(name)] + [Semi])) + [Eof] == [Token.Var, Id(name), Semi, Eof];
    assert GetVar(SetLocal(env, name, None), name).0 >= 0;
  }
}
