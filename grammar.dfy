/**
 * The recursive-descent grammar both parser generations implement, as
 * functions from a token sequence and a cursor position to a node and the
 * position after it. The two generations differ only in whether two
 * adjacent number tokens start an array literal (`arrays`).
 *
 *   expr  = app | op | unit     app = fn expr{arity}     op = unit opname expr
 *   unit  = ")" (nothing) | group | arr | num | id       group = "(" expr ")"
 */
module Grammar {
  import opened Wrappers
  import opened Lexer
  import opened Syntax

  /** What the parser asks about a word: is it an operator, and is it a function of which arity. */
  datatype Table = Table(ops: set<string>, arity: map<string, int>, arrays: bool)

  /** big.ParseFloat, which is not part of this model. */
  type ParseFloat = string -> Result<real, string>

  /** The library routines a parser calls: unicode.IsNumber and big.ParseFloat. */
  datatype Lib = Lib(isNumber: char -> bool, parseFloat: ParseFloat)

  /** A node and the cursor position after it. */
  datatype Parsed<T> = Parsed(node: T, next: int)

  /** lookahead(n): the token n places ahead, or the end-of-input token past the end. */
  function Lookahead(toks: seq<Token>, pos: int, n: nat): Token
    requires 0 <= pos
  {
    if pos + n < |toks| then toks[pos + n] else TokenEOF
  }

  lemma LookaheadPastEnd(toks: seq<Token>, pos: int, n: nat)
    requires 0 <= pos && pos + n >= |toks|
    ensures Lookahead(toks, pos, n) == TokenEOF && Lookahead(toks, pos, n).Is(TokEOF)
  {
  }

  /** The node of a parse, dropping the cursor position. */
  function Top<T>(r: Result<Parsed<T>, string>): Result<T, string>
  {
    match r
    case Ok(p) => Ok(p.node)
    case Fail(e) => Fail(e)
  }

  /** An imperative parse returned `r` and left the cursor at `pos`, as the spec `s` says. */
  predicate Agrees<T(==)>(r: Result<T, string>, s: Result<Parsed<T>, string>, pos: int)
  {
    match s
    case Ok(p) => r == Ok(p.node) && pos == p.next
    case Fail(e) => r == Fail(e)
  }

  /** Puts `xs` in front of the sequence a parse produced. */
  function Prepend<T>(xs: seq<T>, r: Result<Parsed<seq<T>>, string>): Result<Parsed<seq<T>>, string>
  {
    match r
    case Ok(p) => Ok(Parsed(xs + p.node, p.next))
    case Fail(e) => Fail(e)
  }

  lemma PrependNil<T>(r: Result<Parsed<seq<T>>, string>)
    ensures Prepend([], r) == r
  {
    if r.Ok? {
      assert [] + r.value.node == r.value.node;
    }
  }

  lemma PrependAssoc<T>(xs: seq<T>, ys: seq<T>, r: Result<Parsed<seq<T>>, string>)
    ensures Prepend(xs, Prepend(ys, r)) == Prepend(xs + ys, r)
  {
    if r.Ok? {
      assert xs + (ys + r.value.node) == (xs + ys) + r.value.node;
    }
  }

  function Max0(n: int): nat
  {
    if n > 0 then n else 0
  }

  /** expr: end of input fails; a function name takes exactly its arity of exprs; else a unit, optionally followed by an operator and the rest. */
  function ParseExpr(g: Table, pf: ParseFloat, toks: seq<Token>, pos: int): (r: Result<Parsed<Expr>, string>)
    requires 0 <= pos
    ensures r.Ok? ==> pos <= r.value.next <= |toks|
    decreases |toks| - pos, 2
  {
    if pos >= |toks| then Fail("unexpected eof")
    else
      var name := toks[pos].lexeme;
      if name in g.arity then
        match ParseArgs(g, pf, toks, pos + 1, g.arity[name])
        case Fail(e) => Fail(e)
        case Ok(p) => Ok(Parsed(App(name, p.node), p.next))
      else
        match ParseUnit(g, pf, toks, pos)
        case Fail(e) => Fail(e)
        case Ok(u) =>
          var op := Lookahead(toks, u.next, 0);
          if op.lexeme in g.ops then
            match ParseExpr(g, pf, toks, u.next + 1)
            case Fail(e) => Fail(e)
            case Ok(rhs) => Ok(Parsed(Op(op.lexeme, u.node, rhs.node), rhs.next))
          else Ok(u)
  }

  /** The argument loop of expr: `argc` exprs in a row (none when argc is not positive). */
  function ParseArgs(g: Table, pf: ParseFloat, toks: seq<Token>, pos: int, argc: int): (r: Result<Parsed<seq<Expr>>, string>)
    requires 0 <= pos <= |toks|
    ensures r.Ok? ==> pos <= r.value.next <= |toks| && |r.value.node| == Max0(argc)
    decreases |toks| - pos, 3, argc
  {
    if argc <= 0 then Ok(Parsed([], pos))
    else
      match ParseExpr(g, pf, toks, pos)
      case Fail(e) => Fail(e)
      case Ok(a) =>
        match ParseArgs(g, pf, toks, a.next, argc - 1)
        case Fail(e) => Fail(e)
        case Ok(rest) => Ok(Parsed([a.node] + rest.node, rest.next))
  }

  /** One argument parsed: it joins those collected so far, and the remaining ones follow it. */
  lemma ArgsStep(g: Table, pf: ParseFloat, toks: seq<Token>, pos: int, argc: int, args: seq<Expr>, r: Result<Parsed<Expr>, string>)
    requires 0 <= pos <= |toks| && argc > 0
    requires r == ParseExpr(g, pf, toks, pos) && r.Ok?
    ensures Prepend(args, ParseArgs(g, pf, toks, pos, argc))
            == Prepend(args + [r.value.node], ParseArgs(g, pf, toks, r.value.next, argc - 1))
  {
    PrependAssoc(args, [r.value.node], ParseArgs(g, pf, toks, r.value.next, argc - 1));
  }

  /** An argument that fails to parse fails the whole argument list with its message. */
  lemma ArgsFail(g: Table, pf: ParseFloat, toks: seq<Token>, pos: int, argc: int, args: seq<Expr>, r: Result<Parsed<Expr>, string>)
    requires 0 <= pos <= |toks| && argc > 0
    requires r == ParseExpr(g, pf, toks, pos) && r.Fail?
    ensures Prepend(args, ParseArgs(g, pf, toks, pos, argc)) == Fail(r.error)
  {
  }

  /** unit: ')' yields nothing and consumes nothing; '(' a group; two numbers an array; one number a number; anything else an identifier. */
  function ParseUnit(g: Table, pf: ParseFloat, toks: seq<Token>, pos: int): (r: Result<Parsed<Expr>, string>)
    requires 0 <= pos
    ensures r.Ok? ==> pos <= r.value.next && (pos < |toks| ==> r.value.next <= |toks|)
    decreases |toks| - pos, 1
  {
    var next := Lookahead(toks, pos, 0);
    if next.Eqv(TokenCloseParen) then Ok(Parsed(Nil, pos))
    else if next.Eqv(TokenOpenParen) then ParseGroup(g, pf, toks, pos)
    else if g.arrays && next.Is(TokNum) && Lookahead(toks, pos, 1).Is(TokNum) then
      match ParseArr(pf, toks, pos)
      case Fail(e) => Fail(e)
      case Ok(a) => Ok(Parsed(Arr(a.node), a.next))
    else if next.Is(TokNum) then
      match ParseNum(pf, toks, pos)
      case Fail(e) => Fail(e)
      case Ok(n) => Ok(Parsed(Num(n.node), n.next))
    else Ok(Parsed(Id(next.lexeme), pos + 1))
  }

  /** group: "(" expr ")", failing on the token found where ")" belongs. */
  function ParseGroup(g: Table, pf: ParseFloat, toks: seq<Token>, pos: int): (r: Result<Parsed<Expr>, string>)
    requires 0 <= pos
    ensures r.Ok? ==> pos < r.value.next <= |toks|
    decreases |toks| - pos, 0
  {
    var next := Lookahead(toks, pos, 0);
    if !next.Eqv(TokenOpenParen) then
      Fail("expecting an open paren but got " + next.ToString() + " instead")
    else
      match ParseExpr(g, pf, toks, pos + 1)
      case Fail(e) => Fail(e)
      case Ok(sub) =>
        var close := Lookahead(toks, sub.next, 0);
        if !close.Eqv(TokenCloseParen) then
          Fail("expecting a closing paren but got " + close.ToString() + " instead")
        else Ok(Parsed(Group(sub.node), sub.next + 1))
  }

  /**
   * arr: number tokens, as many as follow. On success it has consumed one
   * token per value, each a number token whose literal parses to that value,
   * and the next token is not a number.
   */
  function ParseArr(pf: ParseFloat, toks: seq<Token>, pos: int): (r: Result<Parsed<seq<real>>, string>)
    requires 0 <= pos
    ensures r.Ok? ==>
      && r.value.next == pos + |r.value.node|
      && (|r.value.node| > 0 ==> r.value.next <= |toks|)
      && !Lookahead(toks, r.value.next, 0).Is(TokNum)
      && Literals(pf, toks, pos, r.value.node)
    decreases |toks| - pos
  {
    if Lookahead(toks, pos, 0).Is(TokNum) then
      match ParseNum(pf, toks, pos)
      case Fail(e) => Fail(e)
      case Ok(n) =>
        match ParseArr(pf, toks, n.next)
        case Fail(e) => Fail(e)
        case Ok(rest) =>
          LiteralsCons(pf, toks, pos, n.node, rest.node);
          Ok(Parsed([n.node] + rest.node, rest.next))
    else Ok(Parsed([], pos))
  }

  /** The token at `p` is a number token whose literal parses to `v`. */
  predicate LiteralAt(pf: ParseFloat, toks: seq<Token>, p: int, v: real)
  {
    0 <= p < |toks| && toks[p].Is(TokNum) && pf(toks[p].lexeme) == Ok(v)
  }

  /** The tokens from `pos` on are number tokens whose literals parse to `vs`, in order. */
  predicate Literals(pf: ParseFloat, toks: seq<Token>, pos: int, vs: seq<real>)
  {
    forall i :: 0 <= i < |vs| ==> LiteralAt(pf, toks, pos + i, vs[i])
  }

  lemma LiteralsCons(pf: ParseFloat, toks: seq<Token>, pos: int, v: real, vs: seq<real>)
    requires LiteralAt(pf, toks, pos, v)
    requires Literals(pf, toks, pos + 1, vs)
    ensures Literals(pf, toks, pos, [v] + vs)
  {
    var ws := [v] + vs;
    forall i | 0 <= i < |ws|
      ensures LiteralAt(pf, toks, pos + i, ws[i])
    {
      if i > 0 {
        assert ws[i] == vs[i - 1];
        assert LiteralAt(pf, toks, (pos + 1) + (i - 1), vs[i - 1]);
      }
    }
  }

  /** num: a number token whose literal big.ParseFloat accepts. */
  function ParseNum(pf: ParseFloat, toks: seq<Token>, pos: int): (r: Result<Parsed<real>, string>)
    requires 0 <= pos
    ensures r.Ok? ==> r.value.next == pos + 1 <= |toks| && toks[pos].Is(TokNum)
                      && pf(toks[pos].lexeme) == Ok(r.value.node)
  {
    var next := Lookahead(toks, pos, 0);
    if !next.Is(TokNum) then Fail("expecting a number but got " + next.ToString() + " instead")
    else
      match pf(next.lexeme)
      case Fail(e) => Fail("unable to parse number: " + e)
      case Ok(v) => Ok(Parsed(v, pos + 1))
  }

  /**
   * group's two failures name the offending token: something other than "("
   * where the group starts, or something other than ")" after its expr; it
   * succeeds exactly when both parens are there around an expr.
   */
  lemma GroupErrors(g: Table, pf: ParseFloat, toks: seq<Token>, pos: int)
    requires 0 <= pos
    ensures var open := Lookahead(toks, pos, 0);
      !open.Eqv(TokenOpenParen) ==>
        ParseGroup(g, pf, toks, pos) == Fail("expecting an open paren but got " + open.ToString() + " instead")
    ensures var sub := ParseExpr(g, pf, toks, pos + 1);
      Lookahead(toks, pos, 0).Eqv(TokenOpenParen) && sub.Ok? && !Lookahead(toks, sub.value.next, 0).Eqv(TokenCloseParen) ==>
        ParseGroup(g, pf, toks, pos)
        == Fail("expecting a closing paren but got " + Lookahead(toks, sub.value.next, 0).ToString() + " instead")
    ensures var sub := ParseExpr(g, pf, toks, pos + 1);
      ParseGroup(g, pf, toks, pos).Ok? <==>
        Lookahead(toks, pos, 0) == TokenOpenParen && sub.Ok? && Lookahead(toks, sub.value.next, 0) == TokenCloseParen
  {
  }

  /** num fails on a token that is not a number, and with big.ParseFloat's reason on a literal it rejects. */
  lemma NumErrors(pf: ParseFloat, toks: seq<Token>, pos: int)
    requires 0 <= pos
    ensures !Lookahead(toks, pos, 0).Is(TokNum) ==>
              ParseNum(pf, toks, pos) == Fail("expecting a number but got " + Lookahead(toks, pos, 0).ToString() + " instead")
    ensures Lookahead(toks, pos, 0).Is(TokNum) && pf(Lookahead(toks, pos, 0).lexeme).Fail? ==>
              ParseNum(pf, toks, pos) == Fail("unable to parse number: " + pf(Lookahead(toks, pos, 0).lexeme).error)
    ensures ParseNum(pf, toks, pos).Ok? <==> Lookahead(toks, pos, 0).Is(TokNum) && pf(Lookahead(toks, pos, 0).lexeme).Ok?
  {
  }

  /** The result of parsing a whole input against a table. */
  function ParseInput(g: Table, lib: Lib, input: string): Result<Expr, string>
  {
    Top(ParseExpr(g, lib.parseFloat, Tokens(input, lib.isNumber), 0))
  }

  /** A function name with arguments still owed, as the last token, runs into the end of input. */
  lemma DanglingFunction(g: Table, pf: ParseFloat, toks: seq<Token>)
    requires |toks| > 0 && toks[|toks| - 1].lexeme in g.arity && g.arity[toks[|toks| - 1].lexeme] > 0
    ensures ParseExpr(g, pf, toks, |toks| - 1) == Fail("unexpected eof")
  {
    var f := toks[|toks| - 1].lexeme;
    assert ParseArgs(g, pf, toks, |toks|, g.arity[f]) == Fail("unexpected eof");
  }

  /** An operator as the last token, after a complete unit, runs into the end of input. */
  lemma DanglingOperator(g: Table, pf: ParseFloat, toks: seq<Token>, pos: int)
    requires 0 <= pos < |toks| && toks[pos].lexeme !in g.arity
    requires ParseUnit(g, pf, toks, pos).Ok? && ParseUnit(g, pf, toks, pos).value.next == |toks| - 1
    requires toks[|toks| - 1].lexeme in g.ops
    ensures ParseExpr(g, pf, toks, pos) == Fail("unexpected eof")
  {
  }

  // ---------------------------------------------------------------------
  // Shape of what the grammar produces

  /** A node `unit` can return: never an operator expression or an application. */
  predicate IsUnit(e: Expr)
  {
    !e.Op? && !e.App?
  }

  /**
   * The shape every parsed tree has: operator names are operators and their
   * left operand is a unit, so a chain of operators nests to the right;
   * applications carry exactly their function's arity of arguments;
   * identifiers are never function names; array literals hold at least two
   * numbers and occur only when arrays are enabled.
   */
  predicate Shaped(g: Table, e: Expr)
  {
    match e
    case Nil => true
    case Num(_) => true
    case Id(name) => name !in g.arity
    case Group(sub) => Shaped(g, sub)
    case Op(op, lhs, rhs) => op in g.ops && IsUnit(lhs) && Shaped(g, lhs) && Shaped(g, rhs)
    case App(f, args) =>
      f in g.arity && |args| == Max0(g.arity[f]) && forall a :: a in args ==> Shaped(g, a)
    case Arr(vs) => g.arrays && |vs| >= 2
  }

  lemma {:induction false} ExprShaped(g: Table, pf: ParseFloat, toks: seq<Token>, pos: int)
    requires 0 <= pos
    ensures ParseExpr(g, pf, toks, pos).Ok? ==> Shaped(g, ParseExpr(g, pf, toks, pos).value.node)
    decreases |toks| - pos, 2
  {
    if pos < |toks| {
      var name := toks[pos].lexeme;
      if name in g.arity {
        ArgsShaped(g, pf, toks, pos + 1, g.arity[name]);
      } else {
        UnitShaped(g, pf, toks, pos);
        var u := ParseUnit(g, pf, toks, pos);
        if u.Ok? && Lookahead(toks, u.value.next, 0).lexeme in g.ops {
          ExprShaped(g, pf, toks, u.value.next + 1);
        }
      }
    }
  }

  lemma {:induction false} ArgsShaped(g: Table, pf: ParseFloat, toks: seq<Token>, pos: int, argc: int)
    requires 0 <= pos <= |toks|
    ensures ParseArgs(g, pf, toks, pos, argc).Ok? ==>
              forall a :: a in ParseArgs(g, pf, toks, pos, argc).value.node ==> Shaped(g, a)
    decreases |toks| - pos, 3, argc
  {
    if argc > 0 {
      ExprShaped(g, pf, toks, pos);
      var a := ParseExpr(g, pf, toks, pos);
      if a.Ok? {
        ArgsShaped(g, pf, toks, a.value.next, argc - 1);
      }
    }
  }

  lemma {:induction false} UnitShaped(g: Table, pf: ParseFloat, toks: seq<Token>, pos: int)
    requires 0 <= pos < |toks| && toks[pos].lexeme !in g.arity
    ensures ParseUnit(g, pf, toks, pos).Ok? ==>
              IsUnit(ParseUnit(g, pf, toks, pos).value.node) && Shaped(g, ParseUnit(g, pf, toks, pos).value.node)
    decreases |toks| - pos, 1
  {
    if toks[pos].Eqv(TokenOpenParen) {
      GroupShaped(g, pf, toks, pos);
    }
  }

  lemma {:induction false} GroupShaped(g: Table, pf: ParseFloat, toks: seq<Token>, pos: int)
    requires 0 <= pos < |toks|
    ensures ParseGroup(g, pf, toks, pos).Ok? ==>
              ParseGroup(g, pf, toks, pos).value.node.Group? && Shaped(g, ParseGroup(g, pf, toks, pos).value.node)
    decreases |toks| - pos, 0
  {
    if toks[pos].Eqv(TokenOpenParen) {
      ExprShaped(g, pf, toks, pos + 1);
    }
  }

  /**
   * The empty node arises exactly from a ')' that is neither a function nor an
   * operator name, and it is the only parse that consumes no token: every
   * other alternative eats at least one token before any recursive call.
   */
  lemma NilIsCloseParen(g: Table, pf: ParseFloat, toks: seq<Token>, pos: int)
    requires 0 <= pos
    ensures var r := ParseExpr(g, pf, toks, pos);
      && (r.Ok? && r.value.node == Nil <==>
          pos < |toks| && toks[pos] == TokenCloseParen && ")" !in g.arity && ")" !in g.ops)
      && (r.Ok? ==> (r.value.next == pos <==> r.value.node == Nil))
  {
    if pos < |toks| && toks[pos].lexeme !in g.arity {
      UnitConsumes(g, pf, toks, pos);
      if toks[pos] == TokenCloseParen {
        assert ParseUnit(g, pf, toks, pos) == Ok(Parsed(Nil, pos));
        assert Lookahead(toks, pos, 0).lexeme == ")";
      }
    }
  }

  /** unit yields the empty node exactly on ')', and consumes a token otherwise. */
  lemma UnitConsumes(g: Table, pf: ParseFloat, toks: seq<Token>, pos: int)
    requires 0 <= pos < |toks|
    ensures var u := ParseUnit(g, pf, toks, pos);
      u.Ok? ==> (u.value.node == Nil <==> toks[pos] == TokenCloseParen) && (u.value.next == pos <==> u.value.node == Nil)
  {
  }

  /** Both parser generations fail on input with no tokens, blank input included. */
  lemma BlankInputFails(g: Table, pf: ParseFloat, s: string, isNumber: char -> bool)
    requires forall i :: 0 <= i < |s| ==> IsSpace(s[i])
    ensures ParseExpr(g, pf, Tokens(s, isNumber), 0) == Fail("unexpected eof")
  {
    BlankHasNoTokens(s, isNumber);
  }

  // ---------------------------------------------------------------------
  // Tokens after the parsed expression are never looked at

  lemma {:induction false} ExprIgnoresRest(g: Table, pf: ParseFloat, toks: seq<Token>, more: seq<Token>, pos: int)
    requires 0 <= pos
    requires ParseExpr(g, pf, toks, pos).Ok? && ParseExpr(g, pf, toks, pos).value.next < |toks|
    ensures ParseExpr(g, pf, toks + more, pos) == ParseExpr(g, pf, toks, pos)
    decreases |toks| - pos, 2
  {
    var name := toks[pos].lexeme;
    assert (toks + more)[pos] == toks[pos];
    if name in g.arity {
      ArgsIgnoresRest(g, pf, toks, more, pos + 1, g.arity[name]);
    } else {
      var u := ParseUnit(g, pf, toks, pos);
      UnitIgnoresRest(g, pf, toks, more, pos);
      var q := u.value.next;
      assert Lookahead(toks + more, q, 0) == Lookahead(toks, q, 0);
      if Lookahead(toks, q, 0).lexeme in g.ops {
        ExprIgnoresRest(g, pf, toks, more, q + 1);
      }
    }
  }

  lemma {:induction false} ArgsIgnoresRest(g: Table, pf: ParseFloat, toks: seq<Token>, more: seq<Token>, pos: int, argc: int)
    requires 0 <= pos <= |toks|
    requires ParseArgs(g, pf, toks, pos, argc).Ok? && ParseArgs(g, pf, toks, pos, argc).value.next < |toks|
    ensures ParseArgs(g, pf, toks + more, pos, argc) == ParseArgs(g, pf, toks, pos, argc)
    decreases |toks| - pos, 3, argc
  {
    if argc > 0 {
      var a := ParseExpr(g, pf, toks, pos);
      ArgsMonotone(g, pf, toks, a.value.next, argc - 1);
      ExprIgnoresRest(g, pf, toks, more, pos);
      ArgsIgnoresRest(g, pf, toks, more, a.value.next, argc - 1);
    }
  }

  lemma ArgsMonotone(g: Table, pf: ParseFloat, toks: seq<Token>, pos: int, argc: int)
    requires 0 <= pos <= |toks|
    ensures ParseArgs(g, pf, toks, pos, argc).Ok? ==> pos <= ParseArgs(g, pf, toks, pos, argc).value.next
  {
  }

  lemma {:induction false} UnitIgnoresRest(g: Table, pf: ParseFloat, toks: seq<Token>, more: seq<Token>, pos: int)
    requires 0 <= pos < |toks|
    requires ParseUnit(g, pf, toks, pos).Ok?
    requires ParseUnit(g, pf, toks, pos).value.next < |toks| || toks[pos].Eqv(TokenOpenParen)
    ensures ParseUnit(g, pf, toks + more, pos) == ParseUnit(g, pf, toks, pos)
    decreases |toks| - pos, 1
  {
    var next := toks[pos];
    assert (toks + more)[pos] == next;
    if next.Eqv(TokenCloseParen) {
    } else if next.Eqv(TokenOpenParen) {
      GroupIgnoresRest(g, pf, toks, more, pos);
    } else if next.Is(TokNum) {
      assert pos + 1 < |toks|;
      assert Lookahead(toks + more, pos, 1) == Lookahead(toks, pos, 1);
      if g.arrays && Lookahead(toks, pos, 1).Is(TokNum) {
        ArrIgnoresRest(pf, toks, more, pos);
      }
    }
  }

  lemma {:induction false} GroupIgnoresRest(g: Table, pf: ParseFloat, toks: seq<Token>, more: seq<Token>, pos: int)
    requires 0 <= pos < |toks|
    requires ParseGroup(g, pf, toks, pos).Ok?
    ensures ParseGroup(g, pf, toks + more, pos) == ParseGroup(g, pf, toks, pos)
    decreases |toks| - pos, 0
  {
    assert (toks + more)[pos] == toks[pos];
    var sub := ParseExpr(g, pf, toks, pos + 1);
    ExprIgnoresRest(g, pf, toks, more, pos + 1);
    assert Lookahead(toks + more, sub.value.next, 0) == Lookahead(toks, sub.value.next, 0);
  }

  lemma {:induction false} ArrIgnoresRest(pf: ParseFloat, toks: seq<Token>, more: seq<Token>, pos: int)
    requires 0 <= pos <= |toks|
    requires ParseArr(pf, toks, pos).Ok? && ParseArr(pf, toks, pos).value.next < |toks|
    ensures ParseArr(pf, toks + more, pos) == ParseArr(pf, toks, pos)
    decreases |toks| - pos
  {
    assert Lookahead(toks + more, pos, 0) == Lookahead(toks, pos, 0);
    if Lookahead(toks, pos, 0).Is(TokNum) {
      assert ParseNum(pf, toks + more, pos) == ParseNum(pf, toks, pos);
      ArrIgnoresRest(pf, toks, more, pos + 1);
    }
  }
}
