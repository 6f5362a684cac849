/** Ejscript tokens, operators and variables of ejparse.c, and the expression trees the parser stands for. */
module EjExpressions {
  import opened Basics
  import opened Numbers

  // ----- Tokens -----

  /** A token with its text; an operator's text is its code. */
  datatype Token =
    | LParen | RParen | LBrace | RBrace | Semi | Newline | Comma | Assignment | Eof | LexError
    | If | Else | For | Var | Return
    | Logical(op: int) | ExprOp(op: int) | IncDec(op: int)
    | Literal(text: string) | Id(name: string) | Function(name: string)

  const EXPR_LESS := 1
  const EXPR_LESSEQ := 2
  const EXPR_GREATER := 3
  const EXPR_GREATEREQ := 4
  const EXPR_EQ := 5
  const EXPR_NOTEQ := 6
  const EXPR_PLUS := 7
  const EXPR_MINUS := 8
  const EXPR_DIV := 9
  const EXPR_MOD := 10
  const EXPR_LSHIFT := 11
  const EXPR_RSHIFT := 12
  const EXPR_MUL := 13
  const EXPR_INC := 15
  const EXPR_DEC := 16
  const EXPR_BOOL_COMP := 17
  const COND_AND := 1
  const COND_OR := 2

  // ----- Operators -----

  predicate IsDigit(c: char)
  {
    '0' <= c <= '9'
  }

  predicate AllDigits(s: string)
  {
    forall i :: 0 <= i < |s| ==> IsDigit(s[i])
  }

  /** A number kept in a signed word. */
  function Wrap(v: int): (r: int)
    ensures IsInt(r) && (IsInt(v) ==> r == v)
  {
    var r := Signed(v % WORD);
    assert IsInt(v) ==> r == v by { if IsInt(v) { SignedWord(v); } }
    r
  }

  function FromBool(b: bool): (r: int)
  {
    if b then 1 else 0
  }

  /** What the operators make of two numbers; none for an unknown operator. */
  function Arithmetic(l: int, rel: int, r: int): (v: Option<int>)
  {
    if rel == EXPR_PLUS then Some(l + r)
    else if rel == EXPR_INC then Some(l + 1)
    else if rel == EXPR_MINUS then Some(l - r)
    else if rel == EXPR_DEC then Some(l - 1)
    else if rel == EXPR_MUL then Some(l * r)
    else if rel == EXPR_DIV then Some(if r != 0 then TruncDiv(l, r) else 0)
    else if rel == EXPR_MOD then Some(if r != 0 then l - r * TruncDiv(l, r) else 0)
    else if rel == EXPR_LSHIFT then Some(if 0 <= r < 32 then l * Pow2(r) else 0)
    else if rel == EXPR_RSHIFT then Some(if 0 <= r < 32 then l / Pow2(r) else 0)
    else if rel == EXPR_BOOL_COMP then Some(FromBool(r == 0))
    else if rel == EXPR_EQ then Some(FromBool(l == r))
    else if rel == EXPR_NOTEQ then Some(FromBool(l != r))
    else if rel == EXPR_LESS then Some(FromBool(l < r))
    else if rel == EXPR_LESSEQ then Some(FromBool(l <= r))
    else if rel == EXPR_GREATER then Some(FromBool(l > r))
    else if rel == EXPR_GREATEREQ then Some(FromBool(l >= r))
    else None
  }

  /** How the comparison operators rank two strings. */
  function Comparison(lhs: string, rel: int, rhs: string): (v: Option<int>)
  {
    var c := StrCmp(lhs, rhs);
    if rel == EXPR_LESS then Some(FromBool(c < 0))
    else if rel == EXPR_LESSEQ then Some(FromBool(c <= 0))
    else if rel == EXPR_GREATER then Some(FromBool(c > 0))
    else if rel == EXPR_GREATEREQ then Some(FromBool(c >= 0))
    else if rel == EXPR_EQ then Some(FromBool(c == 0))
    else if rel == EXPR_NOTEQ then Some(FromBool(c != 0))
    else None
  }

  /** stritoa's text; the least int, which has no negative, comes out as -0. */
  function IntText(v: int): (s: string)
  {
    if v == -0x8000_0000 then "-0" else Decimal(v)
  }

  /** The value of an operation, or none for a bad operator. */
  function OpValue(lhs: string, rel: int, rhs: string): (v: Option<string>)
  {
    if AllDigits(lhs) && AllDigits(rhs) then
      match Arithmetic(Wrap(ReadDigits(lhs, 0)), rel, Wrap(ReadDigits(rhs, 0)))
      case Some(n) => Some(IntText(Wrap(n)))
      case None => None
    else if rel == EXPR_PLUS then Some(lhs + rhs)
    else
      match Comparison(lhs, rel, rhs)
      case Some(n) => Some(IntText(n))
      case None => None
  }

  predicate StartsWithDigit(s: string)
  {
    s != "" && IsDigit(s[0])
  }

  /** The value of && and ||: an error is noted for operands that are no numbers, which count as 0. */
  function CondValue(lhs: string, rel: int, rhs: string): (v: Option<string>)
  {
    if StartsWithDigit(lhs) && StartsWithDigit(rhs) then
      var l, r := Wrap(Atoi(lhs)), Wrap(Atoi(rhs));
      if rel == COND_AND then Some(IntText(FromBool(l != 0 && r != 0)))
      else if rel == COND_OR then Some(IntText(FromBool(l != 0 || r != 0)))
      else None
    else Some(IntText(0))
  }

  // ----- What the operators mean -----

  predicate IsComparison(rel: int)
  {
    EXPR_LESS <= rel <= EXPR_NOTEQ
  }

  /** A number as a script writes it, or as a result comes out: the text of an operand is a numeral if it is no negative. */
  lemma NumeralOf(n: nat)
    requires IsInt(n)
    ensures Spells(Decimal(n), n) && Wrap(ReadDigits(Decimal(n), 0)) == n && IntText(n) == Decimal(n)
  {
    ReadsDigits(n);
  }

  /** The text is a numeral of this number. */
  ghost predicate Spells(s: string, n: nat)
  {
    AllDigits(s) && ReadDigits(s, 0) == n && IsInt(n)
  }

  /** A word holds the one int that differs from the value by a multiple of 2^32. */
  lemma WrapIs(v: int, w: int)
    requires IsInt(w) && (v - w) % WORD == 0
    ensures Wrap(v) == w
  {
    var k := (v - w) / WORD;
    if w >= 0 { QuotientIs(v, WORD, k, w); } else { QuotientIs(v, WORD, k - 1, w + WORD); }
  }

  lemma Computed(lhs: string, l: nat, rel: int, rhs: string, r: nat, v: int, w: int)
    requires Spells(lhs, l) && Spells(rhs, r) && Arithmetic(l, rel, r) == Some(v)
    requires IsInt(w) && w != -0x8000_0000 && (v - w) % WORD == 0
    ensures OpValue(lhs, rel, rhs) == Some(Decimal(w))
  {
    WrapIs(v, w);
  }

  /** Adding and counting are those of the integers modulo 2^32: w is the int that differs from the sum by a multiple of 2^32. */
  lemma Sums(lhs: string, l: nat, rhs: string, r: nat, w: int)
    requires Spells(lhs, l) && Spells(rhs, r) && IsInt(w) && w != -0x8000_0000
    ensures (l + r - w) % WORD == 0 ==> OpValue(lhs, EXPR_PLUS, rhs) == Some(Decimal(w))
    ensures (l + 1 - w) % WORD == 0 ==> OpValue(lhs, EXPR_INC, rhs) == Some(Decimal(w))
  {
    if (l + r - w) % WORD == 0 { Computed(lhs, l, EXPR_PLUS, rhs, r, l + r, w); }
    if (l + 1 - w) % WORD == 0 { Computed(lhs, l, EXPR_INC, rhs, r, l + 1, w); }
  }

  /** A difference is always an int, and what was added can be taken away again. */
  lemma Differences(lhs: string, l: nat, rhs: string, r: nat)
    requires Spells(lhs, l) && Spells(rhs, r)
    ensures OpValue(lhs, EXPR_MINUS, rhs) == Some(Decimal(l - r)) && OpValue(lhs, EXPR_DEC, rhs) == Some(Decimal(l - 1))
    ensures IsInt(l + r) ==>
              var sum := OpValue(lhs, EXPR_PLUS, rhs);
              sum.Some? && OpValue(sum.value, EXPR_MINUS, rhs) == Some(Decimal(l))
  {
    Computed(lhs, l, EXPR_MINUS, rhs, r, l - r, l - r);
    Computed(lhs, l, EXPR_DEC, rhs, r, l - 1, l - 1);
    if IsInt(l + r) {
      Sums(lhs, l, rhs, r, l + r);
      NumeralOf(l + r);
      Computed(Decimal(l + r), l + r, EXPR_MINUS, rhs, r, l, l);
    }
  }

  /** Multiplying and shifting left, modulo 2^32. */
  lemma Products(lhs: string, l: nat, rhs: string, r: nat, w: int)
    requires Spells(lhs, l) && Spells(rhs, r) && IsInt(w) && w != -0x8000_0000
    ensures (l * r - w) % WORD == 0 ==> OpValue(lhs, EXPR_MUL, rhs) == Some(Decimal(w))
    ensures r < 32 && (l * Pow2(r) - w) % WORD == 0 ==> OpValue(lhs, EXPR_LSHIFT, rhs) == Some(Decimal(w))
  {
    if (l * r - w) % WORD == 0 { Computed(lhs, l, EXPR_MUL, rhs, r, l * r, w); }
    if r < 32 && (l * Pow2(r) - w) % WORD == 0 { Computed(lhs, l, EXPR_LSHIFT, rhs, r, l * Pow2(r), w); }
  }

  /** Shifting right drops low bits: q is what the others make. */
  lemma ShiftRight(lhs: string, l: nat, rhs: string, r: nat, q: nat, low: nat)
    requires Spells(lhs, l) && Spells(rhs, r) && r < 32 && l == Pow2(r) * q + low && low < Pow2(r)
    ensures OpValue(lhs, EXPR_RSHIFT, rhs) == Some(Decimal(q))
  {
    QuotientIs(l, Pow2(r), q, low);
    QuotientSmall(l, Pow2(r));
    Computed(lhs, l, EXPR_RSHIFT, rhs, r, q, q);
  }

  /** The six comparisons are those of the numbers, and ! asks whether its operand is 0. */
  lemma Tests(lhs: string, l: nat, rhs: string, r: nat)
    requires Spells(lhs, l) && Spells(rhs, r)
    ensures OpValue(lhs, EXPR_LESS, rhs) == Some(if l < r then "1" else "0")
    ensures OpValue(lhs, EXPR_LESSEQ, rhs) == Some(if l <= r then "1" else "0")
    ensures OpValue(lhs, EXPR_GREATER, rhs) == Some(if l > r then "1" else "0")
    ensures OpValue(lhs, EXPR_GREATEREQ, rhs) == Some(if l >= r then "1" else "0")
    ensures OpValue(lhs, EXPR_EQ, rhs) == Some(if l == r then "1" else "0")
    ensures OpValue(lhs, EXPR_NOTEQ, rhs) == Some(if l != r then "1" else "0")
    ensures OpValue(lhs, EXPR_BOOL_COMP, rhs) == Some(if r == 0 then "1" else "0")
  {
    TestText();
  }

  /** The least int prints as -0, which is what the greatest one and 1 make. */
  lemma LeastInt()
    ensures OpValue(Decimal(0x7fff_ffff), EXPR_PLUS, Decimal(1)) == Some("-0")
  {
    NumeralOf(0x7fff_ffff);
    NumeralOf(1);
    WrapIs(0x8000_0000, -0x8000_0000);
  }

  lemma {:induction false} DigitsGrow(m: nat, n: nat)
    requires m <= n
    ensures |Digits(m)| <= |Digits(n)|
  {
    if m >= 10 { DigitsGrow(m / 10, n / 10); }
  }

  /** Two numerals joined end to end are longer than their sum, if one of them is negative. */
  lemma JoinedIsLonger(a: int, b: int)
    requires a < 0 || b < 0
    ensures |Decimal(a) + Decimal(b)| > |Decimal(a + b)|
  {
    var x, y := if a < 0 then -a else a, if b < 0 then -b else b;
    var m, z := if x < y then y else x, if a + b < 0 then -(a + b) else a + b;
    if a < 0 && b < 0 {
      DigitsGrow(z, 10 * m);
      assert (10 * m) / 10 == m;
    } else {
      DigitsGrow(z, m);
    }
  }

  /** Texts are joined unless both are numerals. */
  lemma TextsJoin(lhs: string, rhs: string)
    requires exists i :: 0 <= i < |lhs + rhs| && !IsDigit((lhs + rhs)[i])
    ensures OpValue(lhs, EXPR_PLUS, rhs) == Some(lhs + rhs)
  {
    var i :| 0 <= i < |lhs + rhs| && !IsDigit((lhs + rhs)[i]);
    if i < |lhs| { assert !IsDigit(lhs[i]); } else { assert !IsDigit(rhs[i - |lhs|]); }
  }

  /** A negative number is text to the operators: adding to it joins the two. */
  lemma NegativeIsText(a: int, b: int)
    requires a < 0 || b < 0
    ensures OpValue(Decimal(a), EXPR_PLUS, Decimal(b)) == Some(Decimal(a) + Decimal(b))
  {
    var both := Decimal(a) + Decimal(b);
    if a < 0 { assert !IsDigit(both[0]); } else { assert !IsDigit(both[|Decimal(a)|]); }
    TextsJoin(Decimal(a), Decimal(b));
  }

  /** Adding two integers as a script holds them gives their sum exactly when neither is negative and the sum is in range. */
  lemma SumOfInts(a: int, b: int)
    requires IsInt(a) && IsInt(b)
    ensures OpValue(Decimal(a), EXPR_PLUS, Decimal(b)) == Some(Decimal(a + b)) <==> a >= 0 && b >= 0 && IsInt(a + b)
  {
    if a < 0 || b < 0 {
      NegativeIsText(a, b);
      JoinedIsLonger(a, b);
    } else if IsInt(a + b) {
      NumeralOf(a);
      NumeralOf(b);
      Sums(Decimal(a), a, Decimal(b), b, a + b);
    } else {
      SumWraps(a, b);
    }
  }

  lemma SumWraps(a: nat, b: nat)
    requires IsInt(a) && IsInt(b) && !IsInt(a + b)
    ensures OpValue(Decimal(a), EXPR_PLUS, Decimal(b)) != Some(Decimal(a + b))
  {
    NumeralOf(a);
    NumeralOf(b);
    TooLarge(a + b);
    assert IsDigit(Decimal(a + b)[0]);
  }

  lemma TooLarge(v: nat)
    requires 0x8000_0000 <= v < WORD
    ensures IntText(Wrap(v))[0] == '-'
  {
    QuotientIs(v, WORD, 0, v);
  }

  lemma QuotientSmall(l: nat, r: nat)
    requires r > 0
    ensures l / r <= l
  {
    var q := l / r;
    if q > l { Multiple(q, r); }
  }

  lemma TruncIs(l: nat, r: nat)
    requires r > 0
    ensures TruncDiv(l, r) == l / r
  {
  }

  /** Division rounds down, the remainder is what is left, and dividing by 0 gives 0. */
  lemma Division(lhs: string, l: nat, rhs: string, r: nat, q: nat, m: nat)
    requires Spells(lhs, l) && Spells(rhs, r) && if r == 0 then q == m == 0 else l == r * q + m && m < r
    ensures OpValue(lhs, EXPR_DIV, rhs) == Some(Decimal(q))
    ensures OpValue(lhs, EXPR_MOD, rhs) == Some(Decimal(m))
  {
    if r > 0 {
      QuotientIs(l, r, q, m);
      QuotientSmall(l, r);
      TruncIs(l, r);
    }
    Computed(lhs, l, EXPR_DIV, rhs, r, q, q);
    Computed(lhs, l, EXPR_MOD, rhs, r, m, m);
  }

  /** How two operands compare: as numbers if both are numerals, else as texts. */
  function Rank(lhs: string, rhs: string): (c: int)
    ensures -1 <= c <= 1
  {
    if AllDigits(lhs) && AllDigits(rhs) then
      var l, r := Wrap(ReadDigits(lhs, 0)), Wrap(ReadDigits(rhs, 0));
      if l < r then -1 else if l == r then 0 else 1
    else StrCmp(lhs, rhs)
  }

  predicate Passes(rel: int, rank: int)
  {
    || (rank < 0 && rel in {EXPR_LESS, EXPR_LESSEQ, EXPR_NOTEQ})
    || (rank == 0 && rel in {EXPR_LESSEQ, EXPR_GREATEREQ, EXPR_EQ})
    || (rank > 0 && rel in {EXPR_GREATER, EXPR_GREATEREQ, EXPR_NOTEQ})
  }

  /** A comparison's answer is "1" or "0", as the operands' rank says. */
  lemma Compared(lhs: string, rel: int, rhs: string)
    requires IsComparison(rel)
    ensures OpValue(lhs, rel, rhs) == Some(if Passes(rel, Rank(lhs, rhs)) then "1" else "0")
  {
    TestText();
  }

  /** Of any two operands one is less, or they are equal, or one is greater; turned round, less is greater. */
  lemma OneOfThree(lhs: string, rhs: string)
    ensures var less, same, more := OpValue(lhs, EXPR_LESS, rhs), OpValue(lhs, EXPR_EQ, rhs), OpValue(lhs, EXPR_GREATER, rhs);
            && multiset{less, same, more} == multiset{Some("1"), Some("0"), Some("0")}
            && less == OpValue(rhs, EXPR_GREATER, lhs) && same == OpValue(rhs, EXPR_EQ, lhs)
  {
    RankReverse(lhs, rhs);
    Compared(lhs, EXPR_LESS, rhs);
    Compared(lhs, EXPR_EQ, rhs);
    Compared(lhs, EXPR_GREATER, rhs);
    Compared(rhs, EXPR_GREATER, lhs);
    Compared(rhs, EXPR_EQ, lhs);
    if Rank(lhs, rhs) == 0 {
      assert multiset{Some("0"), Some("1"), Some("0")} == multiset{Some("1"), Some("0"), Some("0")};
    }
  }

  lemma RankReverse(lhs: string, rhs: string)
    ensures Rank(lhs, rhs) == -Rank(rhs, lhs)
  {
    StrCmpReverse(lhs, rhs);
  }

  lemma TestText()
    ensures IntText(Wrap(0)) == IntText(0) == "0" && IntText(Wrap(1)) == IntText(1) == "1"
  {
  }

  /** No value is the answer exactly for an operator that numbers, or texts, do not have. */
  lemma BadOperator(lhs: string, rel: int, rhs: string)
    ensures OpValue(lhs, rel, rhs).None? <==>
            !(IsComparison(rel) || rel == EXPR_PLUS || (AllDigits(lhs) && AllDigits(rhs) && EXPR_PLUS < rel <= EXPR_BOOL_COMP && rel != 14))
  {
  }

  /** A number other than 0, as && and || see it. */
  predicate Truthy(s: string)
  {
    StartsWithDigit(s) && Wrap(ReadDigits(s, 0)) != 0
  }

  /** && and || are those of the operands' truth, as long as both start with a digit; otherwise they are false. */
  lemma LogicMeans(lhs: string, rel: int, rhs: string)
    ensures CondValue(lhs, COND_AND, rhs) == Some(if Truthy(lhs) && Truthy(rhs) then "1" else "0")
    ensures CondValue(lhs, COND_OR, rhs) ==
            Some(if StartsWithDigit(lhs) && StartsWithDigit(rhs) && (Truthy(lhs) || Truthy(rhs)) then "1" else "0")
    ensures CondValue(lhs, rel, rhs).None? <==>
            StartsWithDigit(lhs) && StartsWithDigit(rhs) && rel != COND_AND && rel != COND_OR
  {
    if StartsWithDigit(lhs) && StartsWithDigit(rhs) {
      AtoiOf(lhs);
      AtoiOf(rhs);
    }
    TestText();
  }

  /** On numbers, && and || ask whether both, or one, is other than 0. */
  lemma LogicOnNumbers(lhs: string, l: nat, rhs: string, r: nat)
    requires lhs != "" && Spells(lhs, l) && rhs != "" && Spells(rhs, r)
    ensures CondValue(lhs, COND_AND, rhs) == Some(if l != 0 && r != 0 then "1" else "0")
    ensures CondValue(lhs, COND_OR, rhs) == Some(if l != 0 || r != 0 then "1" else "0")
  {
    LogicMeans(lhs, COND_AND, rhs);
  }

  /** Comparisons can be joined: the truth of what && and || make of two tests is that of the tests. */
  lemma TestsJoin(a: string, rel: int, b: string, c: string, rel': int, d: string)
    requires IsComparison(rel) && IsComparison(rel')
    ensures var p, q := OpValue(a, rel, b), OpValue(c, rel', d);
            && p.Some? && q.Some?
            && (CondValue(p.value, COND_AND, q.value) == Some("1") <==> p == Some("1") && q == Some("1"))
            && (CondValue(p.value, COND_OR, q.value) == Some("1") <==> p == Some("1") || q == Some("1"))
  {
    Compared(a, rel, b);
    Compared(c, rel', d);
    LogicMeans(OpValue(a, rel, b).value, COND_AND, OpValue(c, rel', d).value);
    TestTruth();
  }

  lemma TestTruth()
    ensures Truthy("1") && StartsWithDigit("0") && !Truthy("0")
  {
    assert "1"[1..] == "" && "0"[1..] == "";
  }

  // ----- The evaluators -----

  /** The decimal text of an int, last digit first into a buffer and then turned round. */
  method Stritoa(v: int) returns (s: string)
    requires IsInt(v)
    ensures s == IntText(v)
  {
    if v == -0x8000_0000 {
      return "-0";
    }
    var n := if v < 0 then -v else v;
    ghost var all := n;
    s := "";
    assert Digits(n) + s == Digits(all);
    while n > 9
      invariant n >= 0 && Digits(n) + s == Digits(all)
    {
      assert Digits(n) + s == Digits(n / 10) + ([Digit(n % 10)] + s);
      s := [Digit(n % 10)] + s;
      n := n / 10;
    }
    s := [Digit(n)] + s;
    if v < 0 {
      s := "-" + s;
    }
  }

  method Numeric(s: string) returns (numeric: bool)
    ensures numeric <==> AllDigits(s)
  {
    var i := 0;
    while i < |s|
      invariant 0 <= i <= |s| && forall k :: 0 <= k < i ==> IsDigit(s[k])
    {
      if !IsDigit(s[i]) {
        return false;
      }
      i := i + 1;
    }
    numeric := true;
  }

  /** Evaluate an operation. */
  method EvalExpr(lhs: string, rel: int, rhs: string) returns (v: Option<string>)
    ensures v == OpValue(lhs, rel, rhs)
  {
    var numeric := Numeric(lhs);
    if numeric {
      numeric := Numeric(rhs);
    }
    var lval: Option<int>;
    if numeric {
      lval := Arithmetic(Wrap(ReadDigits(lhs, 0)), rel, Wrap(ReadDigits(rhs, 0)));
    } else if rel == EXPR_PLUS {
      return Some(lhs + rhs);
    } else {
      lval := Comparison(lhs, rel, rhs);
    }
    if lval.None? {
      return None;
    }
    var text := Stritoa(Wrap(lval.value));
    v := Some(text);
  }

  /** Evaluate && or ||; `bad` says that an operand was no number. */
  method EvalCond(lhs: string, rel: int, rhs: string) returns (v: Option<string>, bad: bool)
    ensures v == CondValue(lhs, rel, rhs)
    ensures bad <==> !(StartsWithDigit(lhs) && StartsWithDigit(rhs))
  {
    var lval := 0;
    bad := false;
    if StartsWithDigit(lhs) && StartsWithDigit(rhs) {
      var l, r := Wrap(Atoi(lhs)), Wrap(Atoi(rhs));
      if rel == COND_AND {
        lval := FromBool(l != 0 && r != 0);
      } else if rel == COND_OR {
        lval := FromBool(l != 0 || r != 0);
      } else {
        return None, bad;
      }
    } else {
      bad := true;
    }
    var text := Stritoa(lval);
    v := Some(text);
  }

  // ----- Variables -----

  /**
   * Everything a script can change: variables (None is declared but undefined), named device
   * parameters, the last function's return text, and the calls made.
   */
  datatype Env = Env(globals: map<string, Option<string>>, locals: map<string, Option<string>>, nested: bool,
                     params: map<string, string>, ret: string, calls: seq<(string, seq<string>)>)

  /** Scope 1 is the local frame, 0 the global one, -1 neither. */
  function GetVar(env: Env, id: string): (r: (int, Option<string>))
  {
    if env.nested && id in env.locals then (1, env.locals[id])
    else if id in env.globals then (0, env.globals[id])
    else (-1, None)
  }

  function SetLocal(env: Env, id: string, value: Option<string>): (r: Env)
  {
    if env.nested then env.(locals := env.locals[id := value]) else env.(globals := env.globals[id := value])
  }

  /** Assignment: to the local variable, or a device parameter of that name, or a global variable. */
  function Assign(env: Env, id: string, value: string): (r: Env)
  {
    if GetVar(env, id).0 > 0 then SetLocal(env, id, Some(value))
    else if id in env.params then env.(params := env.params[id := value])
    else env.(globals := env.globals[id := Some(value)])
  }

  function TextOf(v: Option<string>): (s: string)
  {
    if v.Some? then v.value else ""
  }

  /** The text of a variable or device parameter; nothing is looked up when not executing. */
  function VarText(env: Env, exe: bool, id: string): (s: string)
  {
    if !exe then ""
    else if GetVar(env, id).0 >= 0 then TextOf(GetVar(env, id).1)
    else if id in env.params then env.params[id] else ""
  }

  /** What a name reads after it is declared with a value, and after an assignment; other names read as before. */
  lemma AssignedReads(env: Env, id: string, value: string)
    ensures VarText(SetLocal(env, id, Some(value)), true, id) == value
    ensures GetVar(env, id).0 == 0 && id in env.params ==> VarText(Assign(env, id, value), true, id) == TextOf(env.globals[id])
    ensures !(GetVar(env, id).0 == 0 && id in env.params) ==> VarText(Assign(env, id, value), true, id) == value
  {
  }

  /** A name without a value reads as nothing, whether it is declared or not known at all; so does any name when not executing. */
  lemma NothingReads(env: Env, id: string)
    ensures VarText(SetLocal(env, id, None), true, id) == "" && VarText(env, false, id) == ""
    ensures id !in env.globals && id !in env.locals && id !in env.params ==> VarText(env, true, id) == ""
    ensures id !in env.globals && id !in env.locals && id in env.params ==> VarText(env, true, id) == env.params[id]
  {
  }

  /** In a function's own frame a declaration hides the name outside, and leaves it as it was. */
  lemma FrameHides(env: Env, id: string, value: string)
    requires env.nested
    ensures VarText(SetLocal(env, id, Some(value)), true, id) == value
    ensures VarText(SetLocal(env, id, Some(value)).(nested := false), true, id) == VarText(env.(nested := false), true, id)
    ensures GetVar(SetLocal(env, id, Some(value)), id).0 == 1
  {
  }

  lemma OthersRead(env: Env, id: string, value: string, other: string)
    requires other != id
    ensures VarText(SetLocal(env, id, Some(value)), true, other) == VarText(Assign(env, id, value), true, other) == VarText(env, true, other)
  {
  }

  // ----- Trees -----

  /** An operand. A missing one, before a prefix operator or at the end, stands for the value so far. */
  datatype Term = Lit(text: string) | Ref(name: string) | Paren(e: Chain) | Call(name: string, args: Args) | Missing

  /** The arguments of a call; without any, the call has one empty argument. */
  datatype Args = Last(c: Chain) | Next(c: Chain, rest: Args)

  /** Operands joined by operators of one level, read from the left. */
  datatype Chain = Chain(first: Term, tail: Tail)

  /** && and || take everything to their right as their second operand. */
  datatype Tail = End | More(op: int, term: Term, tail: Tail) | Logic(op: int, right: Chain)

  /** The last operand is missing. */
  ghost predicate Open(c: Chain)
    decreases c
  {
    TailOpen(c.first, c.tail)
  }

  ghost predicate TailOpen(t: Term, tail: Tail)
    decreases tail
  {
    match tail
    case End => t.Missing?
    case More(op, term, more) => TailOpen(term, more)
    case Logic(op, right) => Open(right)
  }

  /** Operators have positive codes, and no missing operand stands before && or ||. */
  ghost predicate TermOk(t: Term, tail: Tail)
  {
    match t
    case Paren(e) => ChainOk(e)
    case Call(name, args) => ArgsOk(args)
    case Missing => !tail.Logic?
    case _ => true
  }

  ghost predicate ArgsOk(args: Args)
  {
    match args
    case Last(c) => ChainOk(c)
    case Next(c, rest) => ChainOk(c) && !Open(c) && ArgsOk(rest)
  }

  ghost predicate ChainOk(c: Chain)
  {
    TermOk(c.first, c.tail) && TailOk(c.tail)
  }

  ghost predicate TailOk(t: Tail)
  {
    match t
    case End => true
    case More(op, term, tail) => op > 0 && TermOk(term, tail) && TailOk(tail)
    case Logic(op, right) => op > 0 && ChainOk(right)
  }

  ghost function TermTokens(t: Term): (r: seq<Token>)
  {
    match t
    case Lit(text) => [Literal(text)]
    case Ref(name) => [Id(name)]
    case Paren(e) => [LParen] + (ChainTokens(e) + [RParen])
    case Call(name, args) => [Function(name)] + ([LParen] + (ArgsTokens(args) + [RParen]))
    case Missing => []
  }

  ghost function ArgsTokens(args: Args): (r: seq<Token>)
  {
    match args
    case Last(c) => ChainTokens(c)
    case Next(c, rest) => ChainTokens(c) + ([Comma] + ArgsTokens(rest))
  }

  ghost function ChainTokens(c: Chain): (r: seq<Token>)
  {
    TermTokens(c.first) + TailTokens(c.tail)
  }

  ghost function TailTokens(t: Tail): (r: seq<Token>)
  {
    match t
    case End => []
    case More(op, term, tail) => [ExprOp(op)] + (TermTokens(term) + TailTokens(tail))
    case Logic(op, right) => [Logical(op)] + ChainTokens(right)
  }

  ghost function TermSize(t: Term): (n: nat)
  {
    match t
    case Paren(e) => ChainSize(e) + 2
    case Call(name, args) => ArgsSize(args) + 4
    case _ => 2
  }

  ghost function ArgsSize(args: Args): (n: nat)
  {
    match args
    case Last(c) => ChainSize(c) + 2
    case Next(c, rest) => ChainSize(c) + ArgsSize(rest) + 2
  }

  ghost function ChainSize(c: Chain): (n: nat)
  {
    TermSize(c.first) + TailSize(c.tail) + 2
  }

  ghost function TailSize(t: Tail): (n: nat)
    ensures n > 0
  {
    match t
    case End => 1
    case More(op, term, tail) => TermSize(term) + TailSize(tail) + 1
    case Logic(op, right) => ChainSize(right) + 2
  }

  // ----- Evaluation -----

  /** The operators' meaning, and what functions do: they answer a code and may change everything a script can. */
  datatype Operators = Operators(op: (string, int, string) -> Option<string>, cond: (string, int, string) -> Option<string>,
                                 call: (Env, string, seq<string>) -> (int, Env))

  /** The operators of the language. */
  function Language(call: (Env, string, seq<string>) -> (int, Env)): (ops: Operators)
  {
    Operators(OpValue, CondValue, call)
  }

  /**
   * What a tree comes to: the value of an expression or the values of arguments; a statement done or
   * a return, with the error note set or not; a failure, with the tokens of the tree that are left
   * unread; or nothing is said.
   */
  datatype Outcome =
    | Value(v: string, noted: bool, env: Env)
    | Values(vs: seq<string>, noted: bool, env: Env)
    | Did(noted: bool, env: Env)
    | Ret(v: string, noted: bool, env: Env)
    | Broke(env: Env, left: seq<Token>)
    | Stuck

  /** The value of an operand, given the value so far. */
  ghost function EvalTerm(t: Term, ops: Operators, exe: bool, env: Env, sofar: string, noted: bool): (r: Outcome)
    ensures r.Value? || r.Broke?
  {
    match t
    case Lit(text) => Value(text, noted, env)
    case Ref(name) => Value(VarText(env, exe, name), noted, env)
    case Paren(e) =>
      var r := EvalChain(e, ops, exe, env, noted);
      if r.Broke? then Broke(r.env, r.left + [RParen]) else r
    case Call(name, args) =>
      var r := EvalArgs(args, ops, exe, env, noted);
      if r.Broke? then Broke(r.env, r.left + [RParen]) else Called(ops, exe, r.env, name, r.vs, r.noted)
    case Missing => Value(sofar, noted, env)
  }

  /** A function is called only when executing, but the value is always the last return text. */
  ghost function Called(ops: Operators, exe: bool, env: Env, name: string, args: seq<string>, noted: bool): (r: Outcome)
    ensures r.Value? || r.Broke?
  {
    if !exe then Value(env.ret, noted, env) else
      var (rc, env') := ops.call(env, name, args);
      var env'' := env'.(calls := env.calls + [(name, args)]);
      if rc < 0 then Broke(env'', [RParen]) else Value(env''.ret, noted, env'')
  }

  ghost function EvalArgs(args: Args, ops: Operators, exe: bool, env: Env, noted: bool): (r: Outcome)
    ensures r.Values? || r.Broke?
  {
    var r := EvalChain(args.c, ops, exe, env, noted);
    match args
    case Last(c) => if r.Broke? then r else Values([r.v], r.noted, r.env)
    case Next(c, rest) =>
      if r.Broke? then Broke(r.env, r.left + ([Comma] + ArgsTokens(rest))) else
        var more := EvalArgs(rest, ops, exe, r.env, r.noted);
        if more.Broke? then more else Values([r.v] + more.vs, more.noted, more.env)
  }

  ghost function EvalChain(c: Chain, ops: Operators, exe: bool, env: Env, noted: bool): (r: Outcome)
    ensures r.Value? || r.Broke?
  {
    var r := EvalTerm(c.first, ops, exe, env, "", noted);
    if r.Broke? then Broke(r.env, r.left + TailTokens(c.tail)) else EvalTail(c.tail, ops, exe, r.env, r.v, r.noted)
  }

  ghost function EvalTail(t: Tail, ops: Operators, exe: bool, env: Env, lhs: string, noted: bool): (r: Outcome)
    ensures r.Value? || r.Broke?
  {
    match t
    case End => Value(lhs, noted, env)
    case More(op, term, tail) =>
      var r := EvalTerm(term, ops, exe, env, lhs, noted);
      if r.Broke? then Broke(r.env, r.left + TailTokens(tail)) else
        (match ops.op(lhs, op, r.v)
         case None => Broke(r.env, TailTokens(tail))
         case Some(v) => EvalTail(tail, ops, exe, r.env, v, r.noted))
    case Logic(op, right) =>
      var r := EvalChain(right, ops, exe, env, noted);
      if r.Broke? then r else Joined(ops, lhs, op, r.v, r.noted, r.env)
  }

  ghost function Joined(ops: Operators, lhs: string, op: int, rhs: string, noted: bool, env: Env): (r: Outcome)
    ensures r.Value? || r.Broke?
  {
    match ops.cond(lhs, op, rhs)
    case None => Broke(env, [])
    case Some(v) => Value(v, noted || !(StartsWithDigit(lhs) && StartsWithDigit(rhs)), env)
  }

  /** Without executing, an expression calls nothing and changes nothing. */
  lemma {:induction false} TermIdle(t: Term, ops: Operators, env: Env, sofar: string, noted: bool)
    ensures EvalTerm(t, ops, false, env, sofar, noted).env == env
    decreases t
  {
    match t
    case Paren(e) => ChainIdle(e, ops, env, noted);
    case Call(name, args) => ArgsIdle(args, ops, env, noted);
    case _ =>
  }

  lemma {:induction false} ArgsIdle(args: Args, ops: Operators, env: Env, noted: bool)
    ensures EvalArgs(args, ops, false, env, noted).env == env
    decreases args
  {
    ChainIdle(args.c, ops, env, noted);
    var r := EvalChain(args.c, ops, false, env, noted);
    if args.Next? && r.Value? { ArgsIdle(args.rest, ops, env, r.noted); }
  }

  lemma {:induction false} ChainIdle(c: Chain, ops: Operators, env: Env, noted: bool)
    ensures EvalChain(c, ops, false, env, noted).env == env
    decreases c
  {
    TermIdle(c.first, ops, env, "", noted);
    var r := EvalTerm(c.first, ops, false, env, "", noted);
    if r.Value? { TailIdle(c.tail, ops, env, r.v, r.noted); }
  }

  lemma {:induction false} TailIdle(t: Tail, ops: Operators, env: Env, lhs: string, noted: bool)
    ensures EvalTail(t, ops, false, env, lhs, noted).env == env
    decreases t
  {
    match t
    case End =>
    case More(op, term, tail) =>
      TermIdle(term, ops, env, lhs, noted);
      var r := EvalTerm(term, ops, false, env, lhs, noted);
      if r.Value? && ops.op(lhs, op, r.v).Some? { TailIdle(tail, ops, env, ops.op(lhs, op, r.v).value, r.noted); }
    case Logic(op, right) => ChainIdle(right, ops, env, noted);
  }

  // ----- One tree for one expression -----

  /** A token that ends an expression. */
  ghost predicate Stops(tok: Token)
  {
    !tok.ExprOp? && !tok.IncDec? && !tok.Logical? && !tok.Assignment? && !tok.LexError?
  }

  /** A token that can stand after the expression. */
  ghost predicate Closes(c: Chain, tok: Token)
  {
    Stops(tok) && (Open(c) ==> tok.RParen? || tok.Semi?)
  }

  ghost predicate TailCloses(t: Term, tail: Tail, tok: Token)
  {
    Stops(tok) && (TailOpen(t, tail) ==> tok.RParen? || tok.Semi?)
  }

  lemma Cons<T>(x: T, a: seq<T>, y: T, b: seq<T>)
    requires [x] + a == [y] + b
    ensures x == y && a == b
  {
    assert ([x] + a)[0] == x && ([y] + b)[0] == y;
    assert ([x] + a)[1..] == a && ([y] + b)[1..] == b;
  }

  /** What follows an operand starts with an operator or ends the expression. */
  ghost predicate Continues(t: Term, rest: seq<Token>)
  {
    && rest != [] && (Stops(rest[0]) || rest[0].ExprOp? || rest[0].Logical?)
    && (t.Missing? ==> rest[0].ExprOp? || rest[0].RParen? || rest[0].Semi?)
  }

  lemma TailContinues(t: Term, tail: Tail, after: seq<Token>)
    requires TermOk(t, tail) && after != [] && TailCloses(t, tail, after[0])
    ensures Continues(t, TailTokens(tail) + after)
  {
  }

  lemma {:induction false} TermUnique(t: Term, u: Term, a: seq<Token>, b: seq<Token>)
    requires TermTokens(t) + a == TermTokens(u) + b && Continues(t, a) && Continues(u, b)
    requires TermOk(t, End) && TermOk(u, End)
    ensures t == u && a == b
    decreases t
  {
    FirstToken(t, a);
    FirstToken(u, b);
    match t
    case Paren(e) =>
      Enclosed([LParen], ChainTokens(e), [RParen], a);
      Enclosed([LParen], ChainTokens(u.e), [RParen], b);
      Cons(LParen, ChainTokens(e) + ([RParen] + a), LParen, ChainTokens(u.e) + ([RParen] + b));
      ChainUnique(e, u.e, [RParen] + a, [RParen] + b);
      Cons(RParen, a, RParen, b);
    case Call(name, args) =>
      CallTokens(name, args, a);
      CallTokens(u.name, u.args, b);
      Cons(Function(name), [LParen] + (ArgsTokens(args) + ([RParen] + a)), Function(u.name), [LParen] + (ArgsTokens(u.args) + ([RParen] + b)));
      Cons(LParen, ArgsTokens(args) + ([RParen] + a), LParen, ArgsTokens(u.args) + ([RParen] + b));
      ArgsUnique(args, u.args, [RParen] + a, [RParen] + b);
      Cons(RParen, a, RParen, b);
    case Missing =>
      assert TermTokens(t) + a == a && TermTokens(u) + b == b;
    case _ =>
      Cons(TermTokens(t)[0], a, TermTokens(u)[0], b);
  }

  /** Something enclosed by two tokens, before what follows. */
  lemma Enclosed(open: seq<Token>, inner: seq<Token>, close: seq<Token>, a: seq<Token>)
    ensures (open + (inner + close)) + a == open + (inner + (close + a))
  {
  }

  lemma CallTokens(name: string, args: Args, a: seq<Token>)
    ensures TermTokens(Call(name, args)) + a == [Function(name)] + ([LParen] + (ArgsTokens(args) + ([RParen] + a)))
  {
    var inner := [LParen] + (ArgsTokens(args) + [RParen]);
    Enclosed([LParen], ArgsTokens(args), [RParen], a);
    Regroup([Function(name)], inner, a);
  }

  lemma {:induction false} ArgsUnique(args: Args, brgs: Args, a: seq<Token>, b: seq<Token>)
    requires ArgsTokens(args) + a == ArgsTokens(brgs) + b && ArgsOk(args) && ArgsOk(brgs)
    requires a != [] && b != [] && a[0].RParen? && b[0].RParen?
    ensures args == brgs && a == b
    decreases args
  {
    var x := if args.Last? then a else [Comma] + (ArgsTokens(args.rest) + a);
    var y := if brgs.Last? then b else [Comma] + (ArgsTokens(brgs.rest) + b);
    if args.Next? { Enclosed(ChainTokens(args.c), [Comma], ArgsTokens(args.rest), a); }
    if brgs.Next? { Enclosed(ChainTokens(brgs.c), [Comma], ArgsTokens(brgs.rest), b); }
    ChainUnique(args.c, brgs.c, x, y);
    if args.Next? && brgs.Next? {
      Cons(Comma, ArgsTokens(args.rest) + a, Comma, ArgsTokens(brgs.rest) + b);
      ArgsUnique(args.rest, brgs.rest, a, b);
    }
  }

  /** The first token tells the kind of operand. */
  lemma FirstToken(t: Term, a: seq<Token>)
    requires Continues(t, a)
    ensures var rest := TermTokens(t) + a;
            rest != [] && match t
                          case Lit(text) => rest[0] == Literal(text)
                          case Ref(name) => rest[0] == Id(name)
                          case Paren(e) => rest[0] == LParen
                          case Call(name, args) => rest[0] == Function(name)
                          case Missing => rest[0].ExprOp? || rest[0].RParen? || rest[0].Semi?
  {
  }

  lemma FirstOperator(t: Tail, a: seq<Token>)
    requires a != [] && Stops(a[0])
    ensures var rest := TailTokens(t) + a;
            rest != [] && match t
                          case End => Stops(rest[0]) && rest == a
                          case More(op, term, tail) => rest[0] == ExprOp(op)
                          case Logic(op, right) => rest[0] == Logical(op)
  {
  }

  lemma {:induction false} TailUnique(s: Term, t: Tail, u: Tail, a: seq<Token>, b: seq<Token>)
    requires TailTokens(t) + a == TailTokens(u) + b && TailOk(t) && TailOk(u)
    requires a != [] && b != [] && TailCloses(s, t, a[0]) && TailCloses(s, u, b[0])
    ensures t == u && a == b
    decreases t
  {
    FirstOperator(t, a);
    FirstOperator(u, b);
    match t
    case End =>
    case More(op, term, tail) =>
      Enclosed([ExprOp(op)], TermTokens(term), TailTokens(tail), a);
      Enclosed([ExprOp(u.op)], TermTokens(u.term), TailTokens(u.tail), b);
      Cons(ExprOp(op), TermTokens(term) + (TailTokens(tail) + a), ExprOp(u.op), TermTokens(u.term) + (TailTokens(u.tail) + b));
      TailContinues(term, tail, a);
      TailContinues(u.term, u.tail, b);
      TermUnique(term, u.term, TailTokens(tail) + a, TailTokens(u.tail) + b);
      TailUnique(term, tail, u.tail, a, b);
    case Logic(op, right) =>
      Regroup([Logical(op)], ChainTokens(right), a);
      Regroup([Logical(u.op)], ChainTokens(u.right), b);
      Cons(Logical(op), ChainTokens(right) + a, Logical(u.op), ChainTokens(u.right) + b);
      ChainUnique(right, u.right, a, b);
  }

  /** Tokens spell at most one tree, and show where it ends. */
  lemma {:induction false} ChainUnique(c: Chain, d: Chain, a: seq<Token>, b: seq<Token>)
    requires ChainTokens(c) + a == ChainTokens(d) + b && ChainOk(c) && ChainOk(d)
    requires a != [] && b != [] && Closes(c, a[0]) && Closes(d, b[0])
    ensures c == d && a == b
    decreases c
  {
    Regroup(TermTokens(c.first), TailTokens(c.tail), a);
    Regroup(TermTokens(d.first), TailTokens(d.tail), b);
    TailContinues(c.first, c.tail, a);
    TailContinues(d.first, d.tail, b);
    TermUnique(c.first, d.first, TailTokens(c.tail) + a, TailTokens(d.tail) + b);
    TailUnique(c.first, c.tail, d.tail, a, b);
  }
}
