/**
 * The older parser of the main package: the same lexer and grammar, with a
 * fixed table of one operator and three functions and no array literal.
 */
module Legacy {
  import opened Wrappers
  import opened Lexer
  import opened Syntax
  import opened Grammar

  /** The elements of a list of names, as a set. */
  function Elements(xs: seq<string>): (r: set<string>)
    ensures forall x :: x in r <==> x in xs
  {
    set i | 0 <= i < |xs| :: xs[i]
  }

  /** The table newParser fixes: "+" is the only operator; abs, select and from the only functions. */
  function LegacyTable(): Table
  {
    Table({"+"}, map["abs" := 1, "select" := 2, "from" := 1], false)
  }

  class Parser {
    const lib: Lib
    const ops: seq<string>
    const fns: map<string, int>
    var tokens: seq<Token>
    var pos: nat

    /** newParser: the tokens of the input, the cursor at 0, and the fixed table. */
    constructor (input: string, lib: Lib)
      ensures tokens == Tokens(input, lib.isNumber) && pos == 0 && this.lib == lib
      ensures ops == ["+"] && fns == map["abs" := 1, "select" := 2, "from" := 1]
      ensures TableOf() == LegacyTable()
    {
      this.lib := lib;
      var toks := Tokenize(input, lib.isNumber);
      tokens := toks;
      pos := 0;
      ops := ["+"];
      fns := map["abs" := 1, "select" := 2, "from" := 1];
      new;
      assert Elements(ops) == {"+"};
    }

    /** What the grammar sees of this parser's table. */
    function TableOf(): Table
      reads this
    {
      Table(Elements(ops), fns, false)
    }

    /** isOp: a linear search of the operator list. */
    method IsOp(op: string) returns (b: bool)
      ensures b <==> op in TableOf().ops
    {
      for i := 0 to |ops|
        invariant op !in ops[..i]
      {
        if ops[i] == op {
          return true;
        }
      }
      assert ops[..|ops|] == ops;
      return false;
    }

    function IsFn(fn: string): (r: Option<int>)
      reads this
      ensures r.Some? <==> fn in TableOf().arity
      ensures r.Some? ==> r.value == TableOf().arity[fn]
    {
      if fn in fns then Some(fns[fn]) else None
    }

    /** peek: the token at the cursor, or the end-of-input token once the input is used up. */
    function Peek(): (t: Token)
      reads this
      ensures Done() ==> t == TokenEOF
      ensures !Done() ==> t == tokens[pos]
    {
      Lookahead(tokens, pos, 0)
    }

    predicate Done()
      reads this
    {
      pos >= |tokens|
    }

    method Eat() returns (t: Token)
      modifies this
      ensures t == Lookahead(tokens, old(pos), 0)
      ensures pos == old(pos) + 1 && tokens == old(tokens)
    {
      t := Peek();
      pos := pos + 1;
    }

    /** parse: the end-of-input check in front of every expression. */
    method Parse() returns (r: Result<Expr, string>)
      modifies this
      ensures tokens == old(tokens)
      ensures Agrees(r, ParseExpr(TableOf(), lib.parseFloat, tokens, old(pos)), pos)
      decreases |tokens| - pos, 3
    {
      if Done() {
        return Fail("unexpected eof");
      }
      r := Expr();
    }

    /** expr, which is entered only from parse, so never at the end of input. */
    method Expr() returns (r: Result<Expr, string>)
      requires !Done()
      modifies this
      ensures tokens == old(tokens)
      ensures Agrees(r, ParseExpr(TableOf(), lib.parseFloat, tokens, old(pos)), pos)
      decreases |tokens| - pos, 2
    {
      ghost var g := TableOf();
      ghost var start := pos;
      var next := Peek();
      var fn := IsFn(next.lexeme);
      if fn.Some? {
        var argc := fn.value;
        var op := Eat();
        var args: seq<Expr> := [];
        PrependNil(ParseArgs(g, lib.parseFloat, tokens, pos, argc));
        while argc > 0
          invariant tokens == old(tokens) && start + 1 <= pos <= |tokens|
          invariant ParseArgs(g, lib.parseFloat, tokens, start + 1, fn.value)
                    == Prepend(args, ParseArgs(g, lib.parseFloat, tokens, pos, argc))
          decreases argc
        {
          ghost var here := pos;
          var arg := Parse();
          if arg.Fail? {
            ArgsFail(g, lib.parseFloat, tokens, here, argc, args, ParseExpr(g, lib.parseFloat, tokens, here));
            return Fail(arg.error);
          }
          ArgsStep(g, lib.parseFloat, tokens, here, argc, args, ParseExpr(g, lib.parseFloat, tokens, here));
          args := args + [arg.value];
          argc := argc - 1;
        }
        assert args + [] == args;
        return Ok(Syntax.App(op.lexeme, args));
      }
      var e := Unit();
      if e.Fail? {
        return e;
      }
      var isOp := IsOp(Peek().lexeme);
      if isOp {
        var op := Eat();
        var rhs := Parse();
        if rhs.Fail? {
          return Fail(rhs.error);
        }
        return Ok(Syntax.Op(op.lexeme, e.value, rhs.value));
      }
      return e;
    }

    /** unit: ')' yields the empty node, '(' a group, a number token a number, anything else an identifier. */
    method Unit() returns (r: Result<Expr, string>)
      modifies this
      ensures tokens == old(tokens)
      ensures Agrees(r, ParseUnit(TableOf(), lib.parseFloat, tokens, old(pos)), pos)
      decreases |tokens| - pos, 1
    {
      var next := Peek();
      if next.Eqv(TokenCloseParen) {
        return Ok(Syntax.Nil);
      } else if next.Eqv(TokenOpenParen) {
        r := Group();
      } else if next.Is(TokNum) {
        var n := Num();
        if n.Fail? {
          return Fail(n.error);
        }
        return Ok(Syntax.Num(n.value));
      } else {
        r := Id();
      }
    }

    method Group() returns (r: Result<Expr, string>)
      modifies this
      ensures tokens == old(tokens)
      ensures Agrees(r, ParseGroup(TableOf(), lib.parseFloat, tokens, old(pos)), pos)
      decreases |tokens| - pos, 0
    {
      var next := Eat();
      if !next.Eqv(TokenOpenParen) {
        return Fail("expecting an open paren but got " + next.ToString() + " instead");
      }
      var sub := Parse();
      if sub.Fail? {
        return sub;
      }
      next := Eat();
      if !next.Eqv(TokenCloseParen) {
        return Fail("expecting a closing paren but got " + next.ToString() + " instead");
      }
      return Ok(Syntax.Group(sub.value));
    }

    method Id() returns (r: Result<Expr, string>)
      modifies this
      ensures tokens == old(tokens) && pos == old(pos) + 1
      ensures r == Ok(Syntax.Id(Lookahead(tokens, old(pos), 0).lexeme))
    {
      var id := Eat();
      return Ok(Syntax.Id(id.lexeme));
    }

    method Num() returns (r: Result<real, string>)
      modifies this
      ensures tokens == old(tokens)
      ensures Agrees(r, ParseNum(lib.parseFloat, tokens, old(pos)), pos)
    {
      var next := Eat();
      if !next.Is(TokNum) {
        return Fail("expecting a number but got " + next.ToString() + " instead");
      }
      var value := lib.parseFloat(next.lexeme);
      if value.Fail? {
        return Fail("unable to parse number: " + value.error);
      }
      return Ok(value.value);
    }
  }

  /** parse(input): a fresh parser over the input, asked for one expression. */
  method Parse(input: string, lib: Lib) returns (r: Result<Expr, string>)
    ensures r == ParseInput(LegacyTable(), lib, input)
  {
    var p := new Parser(input, lib);
    r := p.Parse();
  }
}
