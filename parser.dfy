/**
 * The packaged parser: a cursor over the token sequence of one input,
 * asking an environment which words are operators and which are functions.
 * Each method is proved to follow the grammar functions of module Grammar.
 */
module Parser {
  import opened Wrappers
  import opened Lexer
  import opened Syntax
  import opened Grammar
  import Values
  import opened Environments

  /** The function names of a table with their arities. */
  function Arities(fns: map<string, Values.Fn>): (m: map<string, int>)
    ensures m.Keys == fns.Keys && forall f :: f in fns ==> m[f] == fns[f].argc
  {
    map f | f in fns :: fns[f].argc
  }

  /** What the parser sees of an environment: its operator names, its function arities, and array literals. */
  function GrammarOf(env: Environment): Table
    reads env
  {
    Table(env.ops.Keys, Arities(env.fns), true)
  }

  /** The table of a fresh environment. */
  function SeedTable(): Table
  {
    Table(SeedOps().Keys, Arities(SeedFns()), true)
  }

  /** In a fresh environment every function name has at least three characters; "*", "+" and "@" are the one-character operators. */
  lemma SeedTableNames(c: char)
    ensures [c] !in SeedTable().arity && "" !in SeedTable().arity && "" !in SeedTable().ops
    ensures [c] in SeedTable().ops <==> c == '*' || c == '+' || c == '@'
    ensures SeedTable().arrays
    ensures "abs" in SeedTable().arity && SeedTable().arity["abs"] == 1
  {
    SeedKeys();
    assert forall f :: f in SeedFns() ==> |f| >= 3;
  }

  class Parser {
    const env: Environment
    const lib: Lib
    var tokens: seq<Token>
    var pos: nat

    /** NewParser. */
    constructor (env: Environment, lib: Lib)
      ensures this.env == env && this.lib == lib && tokens == [] && pos == 0
    {
      this.env := env;
      this.lib := lib;
      tokens := [];
      pos := 0;
    }

    /** Parse: tokenizes the input anew, resets the cursor and parses one expression; tokens after it are left unread. */
    method Parse(input: string) returns (r: Result<Expr, string>)
      modifies this
      ensures tokens == Tokens(input, lib.isNumber)
      ensures Agrees(r, ParseExpr(GrammarOf(env), lib.parseFloat, tokens, 0), pos)
      ensures r == ParseInput(GrammarOf(env), lib, input)
    {
      tokens := Tokenize(input, lib.isNumber);
      pos := 0;
      r := Expr();
    }

    predicate IsOp(op: string)
      reads env
    {
      env.HasOp(op)
    }

    /** isFn: the arity of a function name. */
    function IsFn(fn: string): (r: Option<int>)
      reads env
      ensures r.Some? <==> fn in GrammarOf(env).arity
      ensures r.Some? ==> r.value == GrammarOf(env).arity[fn]
    {
      if env.HasFn(fn) then Some(env.fns[fn].argc) else None
    }

    /** peek: the token at the cursor, or the end-of-input token once the input is used up. */
    function Peek(): (t: Token)
      reads this
      ensures Done() ==> t == TokenEOF
      ensures !Done() ==> t == tokens[pos]
    {
      Lookahead(tokens, pos, 0)
    }

    predicate Done()
      reads this
    {
      pos >= |tokens|
    }

    /** eat: the current token; the cursor moves one place, even past the end. */
    method Eat() returns (t: Token)
      modifies this
      ensures t == Lookahead(tokens, old(pos), 0)
      ensures pos == old(pos) + 1 && tokens == old(tokens)
    {
      t := Peek();
      pos := pos + 1;
    }

    method Expr() returns (r: Result<Expr, string>)
      modifies this
      ensures tokens == old(tokens)
      ensures Agrees(r, ParseExpr(GrammarOf(env), lib.parseFloat, tokens, old(pos)), pos)
      decreases |tokens| - pos, 2
    {
      if Done() {
        return Fail("unexpected eof");
      }
      var next := Peek();
      var fn := IsFn(next.lexeme);
      if fn.Some? {
        var op := Eat();
        var args := Args(fn.value);
        if args.Fail? {
          return Fail(args.error);
        }
        return Ok(Syntax.App(op.lexeme, args.value));
      }
      var e := Unit();
      if e.Fail? {
        return e;
      }
      if IsOp(Peek().lexeme) {
        var op := Eat();
        var rhs := Expr();
        if rhs.Fail? {
          return Fail(rhs.error);
        }
        return Ok(Syntax.Op(op.lexeme, e.value, rhs.value));
      }
      return e;
    }

    /** The argument loop of expr: `argc` exprs in a row, collected in order; the first failure ends it. */
    method Args(argc: int) returns (r: Result<seq<Expr>, string>)
      requires pos <= |tokens|
      modifies this
      ensures tokens == old(tokens)
      ensures Agrees(r, ParseArgs(GrammarOf(env), lib.parseFloat, tokens, old(pos), argc), pos)
      decreases |tokens| - pos, 3, argc
    {
      ghost var g := GrammarOf(env);
      ghost var start := pos;
      var n := argc;
      var args: seq<Expr> := [];
      PrependNil(ParseArgs(g, lib.parseFloat, tokens, pos, n));
      while n > 0
        invariant tokens == old(tokens) && start <= pos <= |tokens|
        invariant ParseArgs(g, lib.parseFloat, tokens, start, argc)
                  == Prepend(args, ParseArgs(g, lib.parseFloat, tokens, pos, n))
        decreases n
      {
        ghost var here := pos;
        var arg := Expr();
        if arg.Fail? {
          ArgsFail(g, lib.parseFloat, tokens, here, n, args, ParseExpr(g, lib.parseFloat, tokens, here));
          return Fail(arg.error);
        }
        ArgsStep(g, lib.parseFloat, tokens, here, n, args, ParseExpr(g, lib.parseFloat, tokens, here));
        args := args + [arg.value];
        n := n - 1;
      }
      assert args + [] == args;
      return Ok(args);
    }

    method Unit() returns (r: Result<Expr, string>)
      modifies this
      ensures tokens == old(tokens)
      ensures Agrees(r, ParseUnit(GrammarOf(env), lib.parseFloat, tokens, old(pos)), pos)
      decreases |tokens| - pos, 1
    {
      var next := Peek();
      if next.Eqv(TokenCloseParen) {
        return Ok(Syntax.Nil);
      } else if next.Eqv(TokenOpenParen) {
        r := Group();
      } else if next.Is(TokNum) && Lookahead(tokens, pos, 1).Is(TokNum) {
        var a := Arr();
        if a.Fail? {
          return Fail(a.error);
        }
        return Ok(Syntax.Arr(a.value));
      } else if next.Is(TokNum) {
        var n := Num();
        if n.Fail? {
          return Fail(n.error);
        }
        return Ok(Syntax.Num(n.value));
      } else {
        r := Id();
      }
    }

    method Group() returns (r: Result<Expr, string>)
      modifies this
      ensures tokens == old(tokens)
      ensures Agrees(r, ParseGroup(GrammarOf(env), lib.parseFloat, tokens, old(pos)), pos)
      decreases |tokens| - pos, 0
    {
      var next := Eat();
      if !next.Eqv(TokenOpenParen) {
        return Fail("expecting an open paren but got " + next.ToString() + " instead");
      }
      var sub := Expr();
      if sub.Fail? {
        return sub;
      }
      next := Eat();
      if !next.Eqv(TokenCloseParen) {
        return Fail("expecting a closing paren but got " + next.ToString() + " instead");
      }
      return Ok(Syntax.Group(sub.value));
    }

    /** id: the current word as an identifier. */
    method Id() returns (r: Result<Expr, string>)
      modifies this
      ensures tokens == old(tokens) && pos == old(pos) + 1
      ensures r == Ok(Syntax.Id(Lookahead(tokens, old(pos), 0).lexeme))
    {
      var id := Eat();
      return Ok(Syntax.Id(id.lexeme));
    }

    /** arr: as many number tokens as follow, each parsed to its value. */
    method Arr() returns (r: Result<seq<real>, string>)
      modifies this
      ensures tokens == old(tokens)
      ensures Agrees(r, ParseArr(lib.parseFloat, tokens, old(pos)), pos)
    {
      var vs: seq<real> := [];
      PrependNil(ParseArr(lib.parseFloat, tokens, pos));
      while Peek().Is(TokNum)
        invariant tokens == old(tokens) && pos == old(pos) + |vs|
        invariant ParseArr(lib.parseFloat, tokens, old(pos)) == Prepend(vs, ParseArr(lib.parseFloat, tokens, pos))
        decreases |tokens| - pos
      {
        var v := Num();
        if v.Fail? {
          return Fail(v.error);
        }
        PrependAssoc(vs, [v.value], ParseArr(lib.parseFloat, tokens, pos));
        vs := vs + [v.value];
      }
      assert vs + [] == vs;
      return Ok(vs);
    }

    method Num() returns (r: Result<real, string>)
      modifies this
      ensures tokens == old(tokens)
      ensures Agrees(r, ParseNum(lib.parseFloat, tokens, old(pos)), pos)
    {
      var next := Eat();
      if !next.Is(TokNum) {
        return Fail("expecting a number but got " + next.ToString() + " instead");
      }
      var value := lib.parseFloat(next.lexeme);
      if value.Fail? {
        return Fail("unable to parse number: " + value.error);
      }
      return Ok(value.value);
    }
  }
}
