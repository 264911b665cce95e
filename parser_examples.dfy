/** The packaged parser's expected outputs, against the table of a fresh environment. */
module ParserExamples {
  import opened Wrappers
  import opened Lexer
  import opened Syntax
  import opened Grammar
  import opened Parser
  import opened Text
  import Legacy

  /** A library whose number test accepts exactly the decimal digits and whose parser reads the literals used below. */
  predicate DigitLib(lib: Lib)
  {
    && (forall c :: lib.isNumber(c) <==> '0' <= c <= '9')
    && lib.parseFloat("1") == Ok(1.0) && lib.parseFloat("2") == Ok(2.0) && lib.parseFloat("3") == Ok(3.0)
    && lib.parseFloat("4") == Ok(4.0) && lib.parseFloat("5") == Ok(5.0)
  }

  /** Characters with single spaces between them. */
  function Spaced(cs: seq<char>): (r: seq<char>)
    ensures |cs| <= 1 ==> r == cs
  {
    var n := if |cs| == 0 then 0 else 2 * |cs| - 1;
    seq(n, i requires 0 <= i < n => if i % 2 == 0 then cs[i / 2] else ' ')
  }

  lemma SpacedCons(cs: seq<char>)
    requires |cs| >= 2
    ensures Spaced(cs) == [cs[0], ' '] + Spaced(cs[1..])
  {
    var r := Spaced(cs);
    var t := [cs[0], ' '] + Spaced(cs[1..]);
    assert |r| == |t|;
    forall i | 2 <= i < |r|
      ensures r[i] == t[i]
    {
      assert t[i] == Spaced(cs[1..])[i - 2];
      if i % 2 == 0 {
        assert (i - 2) / 2 == i / 2 - 1;
      }
    }
  }

  /** One token per character. */
  function CharTokens(cs: seq<char>, isNumber: char -> bool): (r: seq<Token>)
    ensures |r| == |cs| && forall i :: 0 <= i < |cs| ==> r[i] == Token(Kind(cs[i], isNumber), [cs[i]])
  {
    seq(|cs|, i requires 0 <= i < |cs| => Token(Kind(cs[i], isNumber), [cs[i]]))
  }

  /** Spaced single characters that are neither parens nor spaces lex to one token each. */
  lemma {:induction false} TokensOfSpaced(cs: seq<char>, isNumber: char -> bool)
    requires forall i :: 0 <= i < |cs| ==> ValidChar(cs[i]) && cs[i] != '('
    ensures Tokens(Spaced(cs), isNumber) == CharTokens(cs, isNumber)
  {
    if |cs| == 1 {
      RunUnique(cs, 1);
      assert cs[..1] == [cs[0]] && cs[1..] == [];
    } else if |cs| > 1 {
      var s := Spaced(cs);
      SpacedCons(cs);
      RunUnique(s, 1);
      assert s[..1] == [cs[0]];
      assert s[1..] == [' '] + Spaced(cs[1..]);
      TokensOfSpaced(cs[1..], isNumber);
      assert CharTokens(cs, isNumber) == [Token(Kind(cs[0], isNumber), [cs[0]])] + CharTokens(cs[1..], isNumber);
    }
  }

  /** The tokens of a line of single characters separated by blanks, such as "1 + 2". */
  lemma SpacedLine(line: string, cs: seq<char>, isNumber: char -> bool)
    requires line == Spaced(cs)
    requires forall i :: 0 <= i < |cs| ==> ValidChar(cs[i]) && cs[i] != '('
    ensures Tokens(line, isNumber) == CharTokens(cs, isNumber)
  {
    TokensOfSpaced(cs, isNumber);
  }

  lemma InfixLineIsSpaced()
    ensures Spaced("1+2+3+4+5") == "1 + 2 + 3 + 4 + 5"
  {
  }

  lemma InfixCharsAreValid()
    ensures forall i :: 0 <= i < |"1+2+3+4+5"| ==> ValidChar("1+2+3+4+5"[i]) && "1+2+3+4+5"[i] != '('
  {
  }

  /** The tokens of "1 + 2 + 3 + 4 + 5": digits at even positions, "+" at odd ones. */
  lemma InfixTokens(lib: Lib)
    requires DigitLib(lib)
    ensures var t := Tokens("1 + 2 + 3 + 4 + 5", lib.isNumber);
      && |t| == 9
      && t[0] == Token(TokNum, "1") && t[2] == Token(TokNum, "2") && t[4] == Token(TokNum, "3")
      && t[6] == Token(TokNum, "4") && t[8] == Token(TokNum, "5")
      && t[1] == t[3] == t[5] == t[7] == Token(TokWord, "+")
  {
    InfixLine(lib.isNumber);
    var cs := "1+2+3+4+5";
    assert cs[0] == '1' && cs[2] == '2' && cs[4] == '3' && cs[6] == '4' && cs[8] == '5';
    assert cs[1] == cs[3] == cs[5] == cs[7] == '+';
    assert Kind('1', lib.isNumber) == Kind('2', lib.isNumber) == Kind('3', lib.isNumber) == TokNum;
    assert Kind('4', lib.isNumber) == Kind('5', lib.isNumber) == TokNum && Kind('+', lib.isNumber) == TokWord;
  }

  lemma InfixLine(isNumber: char -> bool)
    ensures Tokens("1 + 2 + 3 + 4 + 5", isNumber) == CharTokens("1+2+3+4+5", isNumber)
  {
    InfixLineIsSpaced();
    InfixCharsAreValid();
    SpacedLine("1 + 2 + 3 + 4 + 5", "1+2+3+4+5", isNumber);
  }

  /** A number token with no number after it (or with arrays off) is a number unit. */
  lemma NumberUnit(g: Table, pf: ParseFloat, t: seq<Token>, k: nat, v: real)
    requires k < |t| && t[k].Is(TokNum) && pf(t[k].lexeme) == Ok(v)
    requires !(g.arrays && Lookahead(t, k, 1).Is(TokNum))
    ensures ParseUnit(g, pf, t, k) == Ok(Parsed(Num(v), k + 1))
  {
  }

  /** A number followed by an operator takes everything after the operator as its right operand. */
  lemma NumberThenOperator(g: Table, pf: ParseFloat, t: seq<Token>, k: nat, v: real, rhs: Expr, n: int)
    requires k < |t| && t[k].Is(TokNum) && pf(t[k].lexeme) == Ok(v) && t[k].lexeme !in g.arity
    requires !(g.arrays && Lookahead(t, k, 1).Is(TokNum))
    requires Lookahead(t, k + 1, 0).lexeme in g.ops
    requires ParseExpr(g, pf, t, k + 2) == Ok(Parsed(rhs, n))
    ensures ParseExpr(g, pf, t, k) == Ok(Parsed(Op(Lookahead(t, k + 1, 0).lexeme, Num(v), rhs), n))
  {
    NumberUnit(g, pf, t, k, v);
  }

  /** A number with no operator after it is the whole expression. */
  lemma NumberAlone(g: Table, pf: ParseFloat, t: seq<Token>, k: nat, v: real)
    requires k < |t| && t[k].Is(TokNum) && pf(t[k].lexeme) == Ok(v) && t[k].lexeme !in g.arity
    requires !(g.arrays && Lookahead(t, k, 1).Is(TokNum))
    requires Lookahead(t, k + 1, 0).lexeme !in g.ops
    ensures ParseExpr(g, pf, t, k) == Ok(Parsed(Num(v), k + 1))
  {
    NumberUnit(g, pf, t, k, v);
  }

  /** Five numbers joined by four "+" tokens nest to the right. */
  lemma InfixTree(g: Table, pf: ParseFloat, t: seq<Token>)
    requires |t| == 9 && "+" in g.ops && "" !in g.ops
    requires t[0] == Token(TokNum, "1") && t[2] == Token(TokNum, "2") && t[4] == Token(TokNum, "3")
    requires t[6] == Token(TokNum, "4") && t[8] == Token(TokNum, "5")
    requires t[1] == t[3] == t[5] == t[7] == Token(TokWord, "+")
    requires pf("1") == Ok(1.0) && pf("2") == Ok(2.0) && pf("3") == Ok(3.0) && pf("4") == Ok(4.0) && pf("5") == Ok(5.0)
    requires "1" !in g.arity && "2" !in g.arity && "3" !in g.arity && "4" !in g.arity && "5" !in g.arity
    ensures ParseExpr(g, pf, t, 0)
            == Ok(Parsed(Op("+", Num(1.0), Op("+", Num(2.0), Op("+", Num(3.0), Op("+", Num(4.0), Num(5.0))))), 9))
  {
    NumberAlone(g, pf, t, 8, 5.0);
    var e4 := Op("+", Num(4.0), Num(5.0));
    NumberThenOperator(g, pf, t, 6, 4.0, Num(5.0), 9);
    var e3 := Op("+", Num(3.0), e4);
    NumberThenOperator(g, pf, t, 4, 3.0, e4, 9);
    var e2 := Op("+", Num(2.0), e3);
    NumberThenOperator(g, pf, t, 2, 2.0, e3, 9);
    NumberThenOperator(g, pf, t, 0, 1.0, e2, 9);
  }

  lemma InfixIsRightAssociative(lib: Lib)
    requires DigitLib(lib)
    ensures ParseInput(SeedTable(), lib, "1 + 2 + 3 + 4 + 5")
            == Ok(Op("+", Num(1.0), Op("+", Num(2.0), Op("+", Num(3.0), Op("+", Num(4.0), Num(5.0))))))
  {
    InfixTokens(lib);
    var t := Tokens("1 + 2 + 3 + 4 + 5", lib.isNumber);
    SeedTableNames('1');
    SeedTableNames('2');
    SeedTableNames('3');
    SeedTableNames('4');
    SeedTableNames('5');
    SeedTableNames('+');
    InfixTree(SeedTable(), lib.parseFloat, t);
  }

  lemma NumPrints(v: real, indent: nat, style: Style, text: real -> string)
    ensures Stringify(Num(v), indent, style, text) == "(" + style.num + " " + text(v) + ")"
  {
  }

  lemma OpPrints(o: string, l: Expr, r: Expr, indent: nat, style: Style, text: real -> string)
    requires Printable(l) && Printable(r) && !l.Nil? && !r.Nil?
    ensures Stringify(Op(o, l, r), indent, style, text)
            == "(op " + o + "\n" + Spaces(indent + 2) + Stringify(l, indent + 2, style, text)
               + "\n" + Spaces(indent + 2) + Stringify(r, indent + 2, style, text) + ")"
  {
  }

  /** The printed form of "1 + 2": the operator, then each operand on its own line, indented by two. */
  lemma InfixPrints(text: real -> string, style: Style)
    requires text(1.0) == "1" && text(2.0) == "2"
    requires style == PackagedStyle
    ensures Stringify(Op("+", Num(1.0), Num(2.0)), 0, style, text) == "(op +\n  (num 1)\n  (num 2))"
  {
    NumPrints(1.0, 2, style, text);
    NumPrints(2.0, 2, style, text);
    OpPrints("+", Num(1.0), Num(2.0), 0, style, text);
    SmallIndents();
    NumLayout("num", "1");
    NumLayout("num", "2");
    OpLayout("+", Spaces(2), Stringify(Num(1.0), 2, style, text), Stringify(Num(2.0), 2, style, text));
  }

  lemma NumLayout(name: string, digits: string)
    requires (name == "num" || name == "number") && (digits == "1" || digits == "2")
    ensures name == "num" && digits == "1" ==> "(" + name + " " + digits + ")" == "(num 1)"
    ensures name == "num" && digits == "2" ==> "(" + name + " " + digits + ")" == "(num 2)"
    ensures name == "number" && digits == "1" ==> "(" + name + " " + digits + ")" == "(number 1)"
  {
  }

  lemma OpLayout(o: string, sp: string, a: string, b: string)
    requires o == "+" && sp == "  " && a == "(num 1)" && b == "(num 2)"
    ensures "(op " + o + "\n" + sp + a + "\n" + sp + b + ")" == "(op +\n  (num 1)\n  (num 2))"
  {
  }

  lemma NestedGroupTokens(isNumber: char -> bool)
    ensures Tokens("((()))", isNumber)
            == [TokenOpenParen, TokenOpenParen, TokenOpenParen, TokenCloseParen, TokenCloseParen, TokenCloseParen]
  {
  }

  /** Three open parens and three close parens nest three groups around the empty node. */
  lemma GroupsTree(g: Table, pf: ParseFloat, t: seq<Token>)
    requires t == [TokenOpenParen, TokenOpenParen, TokenOpenParen, TokenCloseParen, TokenCloseParen, TokenCloseParen]
    requires ")" !in g.arity && ")" !in g.ops && "(" !in g.arity && "" !in g.ops
    ensures ParseExpr(g, pf, t, 0) == Ok(Parsed(Group(Group(Group(Nil))), 6))
  {
    assert ParseExpr(g, pf, t, 3) == Ok(Parsed(Nil, 3));
    assert ParseGroup(g, pf, t, 2) == Ok(Parsed(Group(Nil), 4));
    assert ParseExpr(g, pf, t, 2) == Ok(Parsed(Group(Nil), 4));
    assert ParseGroup(g, pf, t, 1) == Ok(Parsed(Group(Group(Nil)), 5));
    assert ParseExpr(g, pf, t, 1) == Ok(Parsed(Group(Group(Nil)), 5));
    assert ParseGroup(g, pf, t, 0) == Ok(Parsed(Group(Group(Group(Nil))), 6));
  }

  /** "((()))" is three groups around the empty node. */
  lemma NestedEmptyGroups(lib: Lib)
    ensures ParseInput(SeedTable(), lib, "((()))") == Ok(Group(Group(Group(Nil))))
  {
    NestedGroupTokens(lib.isNumber);
    SeedTableNames(')');
    SeedTableNames('(');
    GroupsTree(SeedTable(), lib.parseFloat, Tokens("((()))", lib.isNumber));
  }

  lemma GroupPrints(sub: Expr, indent: nat, style: Style, text: real -> string)
    requires Printable(sub) && !sub.Nil?
    ensures Stringify(Group(sub), indent, style, text) == "(group\n" + Spaces(indent + 2) + Stringify(sub, indent + 2, style, text) + ")"
  {
  }

  lemma SmallIndents()
    ensures Spaces(2) == "  " && Spaces(4) == "    "
  {
  }

  lemma InnerGroupLayout(sp: string)
    requires sp == "    "
    ensures "(group\n" + sp + "(group empty)" + ")" == "(group\n    (group empty))"
  {
  }

  lemma OuterGroupLayout(sp: string, a: string)
    requires sp == "  " && a == "(group\n    (group empty))"
    ensures "(group\n" + sp + a + ")" == "(group\n  (group\n    (group empty)))"
  {
  }

  /** An empty group prints as "(group empty)", and each enclosing group adds a line indented two more. */
  lemma EmptyGroupsPrint(style: Style, text: real -> string)
    ensures Stringify(Group(Nil), 0, style, text) == "(group empty)"
    ensures Stringify(Group(Group(Group(Nil))), 0, style, text) == "(group\n  (group\n    (group empty)))"
  {
    SmallIndents();
    GroupPrints(Group(Nil), 2, style, text);
    InnerGroupLayout(Spaces(4));
    GroupPrints(Group(Group(Nil)), 0, style, text);
    OuterGroupLayout(Spaces(2), Stringify(Group(Group(Nil)), 2, style, text));
  }

  lemma AbsTokens(isNumber: char -> bool)
    requires isNumber('1') && !isNumber('a')
    ensures Tokens("abs 1", isNumber) == [Token(TokWord, "abs"), Token(TokNum, "1")]
  {
    var s := "abs 1";
    RunUnique(s, 3);
    assert s[..3] == "abs" && s[3..] == " 1";
    assert " 1"[1..] == "1";
    RunUnique("1", 1);
    assert "1"[..1] == "1" && "1"[1..] == [];
  }

  /** A one-argument function name followed by a number applies the function to it. */
  lemma PrefixTree(g: Table, pf: ParseFloat, t: seq<Token>)
    requires t == [Token(TokWord, "abs"), Token(TokNum, "1")]
    requires "abs" in g.arity && g.arity["abs"] == 1 && "1" !in g.arity && "" !in g.ops
    requires pf("1") == Ok(1.0)
    ensures ParseExpr(g, pf, t, 0) == Ok(Parsed(App("abs", [Num(1.0)]), 2))
  {
    NumberAlone(g, pf, t, 1, 1.0);
    assert ParseArgs(g, pf, t, 2, 0) == Ok(Parsed([], 2));
    assert [Num(1.0)] + [] == [Num(1.0)];
    assert ParseArgs(g, pf, t, 1, 1) == Ok(Parsed([Num(1.0)], 2));
  }

  /** "abs 1" applies the one-argument function abs to the number 1. */
  lemma PrefixApplication(lib: Lib)
    requires DigitLib(lib)
    ensures ParseInput(SeedTable(), lib, "abs 1") == Ok(App("abs", [Num(1.0)]))
  {
    assert lib.isNumber('1') && !lib.isNumber('a');
    AbsTokens(lib.isNumber);
    SeedTableNames('1');
    PrefixTree(SeedTable(), lib.parseFloat, Tokens("abs 1", lib.isNumber));
  }

  lemma AppLayout(sp: string, a: string)
    requires sp == "  " && a == "(num 1)"
    ensures "(app " + "abs" + "\n" + sp + a + ")" == "(app abs\n  (num 1))"
  {
  }

  lemma PrefixApplicationPrints(text: real -> string)
    requires text(1.0) == "1"
    ensures Stringify(App("abs", [Num(1.0)]), 0, PackagedStyle, text) == "(app abs\n  (num 1))"
  {
    NumPrints(1.0, 2, PackagedStyle, text);
    NumLayout("num", "1");
    SmallIndents();
    var cell := Stringify(Num(1.0), 2, PackagedStyle, text);
    assert StringifyAll([Num(1.0)], 2, PackagedStyle, text) == [cell];
    assert Join([cell], "\n" + Spaces(2)) == cell;
    AppLayout(Spaces(2), cell);
  }

  lemma TwoNumberTokens(isNumber: char -> bool)
    requires isNumber('1') && isNumber('2')
    ensures Tokens("1 2", isNumber) == [Token(TokNum, "1"), Token(TokNum, "2")]
  {
    assert Spaced("12") == "1 2";
    SpacedLine("1 2", "12", isNumber);
  }

  /** With arrays on, two number tokens in a row are one array of both values. */
  lemma ArrayTree(g: Table, pf: ParseFloat, t: seq<Token>)
    requires t == [Token(TokNum, "1"), Token(TokNum, "2")] && pf("1") == Ok(1.0) && pf("2") == Ok(2.0)
    requires g.arrays && "1" !in g.arity && "" !in g.ops
    ensures ParseExpr(g, pf, t, 0) == Ok(Parsed(Arr([1.0, 2.0]), 2))
  {
    assert ParseArr(pf, t, 2) == Ok(Parsed([], 2));
    assert ParseNum(pf, t, 1) == Ok(Parsed(2.0, 2));
    assert [2.0] + [] == [2.0];
    assert ParseArr(pf, t, 1) == Ok(Parsed([2.0], 2));
    assert ParseNum(pf, t, 0) == Ok(Parsed(1.0, 1));
    assert [1.0] + [2.0] == [1.0, 2.0];
    assert ParseArr(pf, t, 0) == Ok(Parsed([1.0, 2.0], 2));
    assert ParseUnit(g, pf, t, 0) == Ok(Parsed(Arr([1.0, 2.0]), 2));
  }

  /** "1 2" is an array literal for the packaged parser, and just the number 1 for the older one, which ignores the rest. */
  lemma AdjacentNumbers(lib: Lib)
    requires DigitLib(lib)
    ensures ParseInput(SeedTable(), lib, "1 2") == Ok(Arr([1.0, 2.0]))
    ensures ParseInput(Legacy.LegacyTable(), lib, "1 2") == Ok(Num(1.0))
  {
    assert lib.isNumber('1') && lib.isNumber('2');
    TwoNumberTokens(lib.isNumber);
    var t := Tokens("1 2", lib.isNumber);
    SeedTableNames('1');
    ArrayTree(SeedTable(), lib.parseFloat, t);
    var h := Legacy.LegacyTable();
    assert "1" !in h.arity && "2" !in h.ops && !h.arrays;
    NumberAlone(h, lib.parseFloat, t, 0, 1.0);
  }

  lemma WordTokens(isNumber: char -> bool)
    requires !isNumber('a')
    ensures Tokens("abs", isNumber) == [Token(TokWord, "abs")]
  {
    RunUnique("abs", 3);
    assert "abs"[..3] == "abs" && "abs"[3..] == [];
  }

  lemma DanglingPlusTokens(isNumber: char -> bool)
    requires isNumber('1') && !isNumber('+')
    ensures Tokens("1 +", isNumber) == [Token(TokNum, "1"), Token(TokWord, "+")]
  {
    assert Spaced("1+") == "1 +";
    SpacedLine("1 +", "1+", isNumber);
  }

  /** The older parser runs into the end of input after a function name or an operator with nothing after it. */
  lemma LegacyDangling(lib: Lib)
    requires DigitLib(lib)
    ensures ParseInput(Legacy.LegacyTable(), lib, "abs") == Fail("unexpected eof")
    ensures ParseInput(Legacy.LegacyTable(), lib, "1 +") == Fail("unexpected eof")
  {
    var h := Legacy.LegacyTable();
    assert lib.isNumber('1') && !lib.isNumber('a') && !lib.isNumber('+');
    WordTokens(lib.isNumber);
    DanglingFunction(h, lib.parseFloat, Tokens("abs", lib.isNumber));
    DanglingPlusTokens(lib.isNumber);
    var t := Tokens("1 +", lib.isNumber);
    assert "1" !in h.arity && "+" in h.ops;
    NumberUnit(h, lib.parseFloat, t, 0, 1.0);
    DanglingOperator(h, lib.parseFloat, t, 0);
  }

  lemma LeafLayout(name: string, x: string)
    requires name == "identifier" || name == "id"
    requires x == "a" || x == "jfkdlsa$%%@$@#"
    ensures name == "identifier" && x == "a" ==> "(" + name + " " + x + ")" == "(identifier a)"
    ensures name == "id" && x == "jfkdlsa$%%@$@#" ==> "(" + name + " " + x + ")" == "(id jfkdlsa$%%@$@#)"
  {
  }

  /** The older printer's names: "(number 1)" and "(identifier a)". */
  lemma LegacyLeavesPrint(text: real -> string)
    requires text(1.0) == "1"
    ensures Stringify(Num(1.0), 0, LegacyStyle, text) == "(number 1)"
    ensures Stringify(Id("a"), 0, LegacyStyle, text) == "(identifier a)"
    ensures Stringify(Id("jfkdlsa$%%@$@#"), 0, PackagedStyle, text) == "(id jfkdlsa$%%@$@#)"
  {
    NumLayout("number", "1");
    LeafLayout("identifier", "a");
    LeafLayout("id", "jfkdlsa$%%@$@#");
  }

  // ---------------------------------------------------------------------
  // The printed form of "1 + 2 + 3 + 4 + 5"

  /** The right-nested tree both parsers build for "1 + 2 + 3 + 4 + 5". */
  function InfixChain(): Expr
  {
    Op("+", Num(1.0), Op("+", Num(2.0), Op("+", Num(3.0), Op("+", Num(4.0), Num(5.0)))))
  }

  /** "1 + 2 + 3 + 4 + 5" parses to the right-nested chain under the older parser's table too. */
  lemma LegacyInfixIsRightAssociative(lib: Lib)
    requires DigitLib(lib)
    ensures ParseInput(Legacy.LegacyTable(), lib, "1 + 2 + 3 + 4 + 5") == Ok(InfixChain())
  {
    InfixTokens(lib);
    var t := Tokens("1 + 2 + 3 + 4 + 5", lib.isNumber);
    InfixTree(Legacy.LegacyTable(), lib.parseFloat, t);
  }

  /** The lines an operator node prints before its right operand, when its left operand is the number `d`. */
  function OpHead(indent: nat, style: Style, d: string): string
  {
    "(op +\n" + Spaces(indent + 2) + "(" + style.num + " " + d + ")" + "\n" + Spaces(indent + 2)
  }

  /** An operator node whose left operand is a number prints its head, then its right operand, then ")". */
  lemma OpOverNumPrints(v: real, r: Expr, indent: nat, style: Style, text: real -> string)
    requires Printable(r) && !r.Nil?
    ensures Stringify(Op("+", Num(v), r), indent, style, text)
            == OpHead(indent, style, text(v)) + Stringify(r, indent + 2, style, text) + ")"
  {
    OpPrints("+", Num(v), r, indent, style, text);
    NumPrints(v, indent + 2, style, text);
    OpOverNumShape(Stringify(Op("+", Num(v), r), indent, style, text), Spaces(indent + 2),
                   Stringify(Num(v), indent + 2, style, text), Stringify(r, indent + 2, style, text),
                   style.num, text(v));
  }

  lemma OpOverNumShape(s: string, pad: string, l: string, r: string, num: string, d: string)
    requires s == "(op " + "+" + "\n" + pad + l + "\n" + pad + r + ")"
    requires l == "(" + num + " " + d + ")"
    ensures s == ("(op +\n" + pad + "(" + num + " " + d + ")" + "\n" + pad) + r + ")"
  {
    assert "(op " + "+" + "\n" == "(op +\n";
  }

  /** The innermost operator of the chain, "4 + 5", as it prints eight columns deep. */
  function Innermost(style: Style): string
  {
    "(op +\n" + Spaces(8) + "(" + style.num + " " + "4" + ")" + "\n" + Spaces(8) + "(" + style.num + " " + "5" + ")" + ")"
  }

  lemma FourthLevelPrints(style: Style, text: real -> string)
    requires text(4.0) == "4" && text(5.0) == "5"
    ensures Stringify(Op("+", Num(4.0), Num(5.0)), 6, style, text) == Innermost(style)
  {
    OpPrints("+", Num(4.0), Num(5.0), 6, style, text);
    NumPrints(4.0, 8, style, text);
    NumPrints(5.0, 8, style, text);
    InnermostShape(Stringify(Op("+", Num(4.0), Num(5.0)), 6, style, text), Spaces(8),
                   Stringify(Num(4.0), 8, style, text), Stringify(Num(5.0), 8, style, text), style.num);
  }

  lemma InnermostShape(s: string, pad: string, l: string, r: string, num: string)
    requires s == "(op " + "+" + "\n" + pad + l + "\n" + pad + r + ")"
    requires l == "(" + num + " " + "4" + ")" && r == "(" + num + " " + "5" + ")"
    ensures s == "(op +\n" + pad + "(" + num + " " + "4" + ")" + "\n" + pad + "(" + num + " " + "5" + ")" + ")"
  {
    assert "(op " + "+" + "\n" == "(op +\n";
  }

  lemma ThirdLevelPrints(style: Style, text: real -> string)
    requires text(3.0) == "3" && text(4.0) == "4" && text(5.0) == "5"
    ensures Stringify(Op("+", Num(3.0), Op("+", Num(4.0), Num(5.0))), 4, style, text)
            == OpHead(4, style, "3") + Innermost(style) + ")"
  {
    FourthLevelPrints(style, text);
    OpOverNumPrints(3.0, Op("+", Num(4.0), Num(5.0)), 4, style, text);
  }

  lemma SecondLevelPrints(style: Style, text: real -> string)
    requires text(2.0) == "2" && text(3.0) == "3" && text(4.0) == "4" && text(5.0) == "5"
    ensures Stringify(Op("+", Num(2.0), Op("+", Num(3.0), Op("+", Num(4.0), Num(5.0)))), 2, style, text)
            == OpHead(2, style, "2") + OpHead(4, style, "3") + Innermost(style) + "))"
  {
    ThirdLevelPrints(style, text);
    OpOverNumPrints(2.0, Op("+", Num(3.0), Op("+", Num(4.0), Num(5.0))), 2, style, text);
    NestAssoc(OpHead(2, style, "2"), OpHead(4, style, "3"), Innermost(style));
  }

  lemma NestAssoc(h: string, k: string, m: string)
    ensures h + (k + m + ")") + ")" == h + k + m + "))"
  {
  }

  lemma ChainShape(s: string, s2: string, h1: string, h2: string, h3: string, m: string)
    requires s == h1 + s2 + ")" && s2 == h2 + h3 + m + "))"
    ensures s == h1 + h2 + h3 + m + ")))"
  {
  }

  /** The right-nested chain prints each operator's left operand on its own line, two columns deeper per level. */
  lemma InfixChainPrintsAs(style: Style, text: real -> string)
    requires text(1.0) == "1" && text(2.0) == "2" && text(3.0) == "3" && text(4.0) == "4" && text(5.0) == "5"
    ensures Stringify(InfixChain(), 0, style, text)
            == OpHead(0, style, "1") + OpHead(2, style, "2") + OpHead(4, style, "3") + Innermost(style) + ")))"
  {
    SecondLevelPrints(style, text);
    OpOverNumPrints(1.0, Op("+", Num(2.0), Op("+", Num(3.0), Op("+", Num(4.0), Num(5.0)))), 0, style, text);
    ChainShape(Stringify(InfixChain(), 0, style, text),
               Stringify(Op("+", Num(2.0), Op("+", Num(3.0), Op("+", Num(4.0), Num(5.0)))), 2, style, text),
               OpHead(0, style, "1"), OpHead(2, style, "2"), OpHead(4, style, "3"), Innermost(style));
  }

  lemma WideIndents()
    ensures Spaces(6) == "      " && Spaces(8) == "        "
  {
    SmallIndents();
    assert Spaces(6) == " " + " " + Spaces(4);
    assert Spaces(8) == " " + " " + Spaces(6);
  }

  /** A head line spelled out, once its indent and its style's word are known. */
  lemma HeadSpelled(indent: nat, style: Style, d: string, sp: string, num: string)
    requires Spaces(indent + 2) == sp && style.num == num
    ensures OpHead(indent, style, d) == "(op +\n" + sp + "(" + num + " " + d + ")" + "\n" + sp
  {
  }

  lemma InnermostSpelled(style: Style, sp: string, num: string)
    requires Spaces(8) == sp && style.num == num
    ensures Innermost(style) == ("(op +\n" + sp + "(" + num + " 4)" + "\n") + (sp + "(" + num + " 5)" + ")")
  {
    assert " " + "4" + ")" == " 4)" && " " + "5" + ")" == " 5)";
  }

  /** The packaged printer's lines for the chain, one operator level each. */
  lemma PackagedHead1()
    ensures OpHead(0, PackagedStyle, "1") == "(op +\n  (num 1)\n  "
  {
    SmallIndents();
    HeadSpelled(0, PackagedStyle, "1", "  ", "num");
  }

  lemma PackagedHead2()
    ensures OpHead(2, PackagedStyle, "2") == "(op +\n    (num 2)\n    "
  {
    SmallIndents();
    HeadSpelled(2, PackagedStyle, "2", "    ", "num");
  }

  lemma PackagedHead3()
    ensures OpHead(4, PackagedStyle, "3") == "(op +\n      (num 3)\n      "
  {
    WideIndents();
    HeadSpelled(4, PackagedStyle, "3", "      ", "num");
  }

  lemma PackagedInnermost()
    ensures Innermost(PackagedStyle) == "(op +\n        (num 4)\n" + "        (num 5))"
  {
    WideIndents();
    InnermostSpelled(PackagedStyle, "        ", "num");
  }

  /** The older printer's lines for the chain, one operator level each. */
  lemma LegacyHead1()
    ensures OpHead(0, LegacyStyle, "1") == "(op +\n  (number 1)\n  "
  {
    SmallIndents();
    HeadSpelled(0, LegacyStyle, "1", "  ", "number");
  }

  lemma LegacyHead2()
    ensures OpHead(2, LegacyStyle, "2") == "(op +\n    (number 2)\n    "
  {
    SmallIndents();
    HeadSpelled(2, LegacyStyle, "2", "    ", "number");
  }

  lemma LegacyHead3()
    ensures OpHead(4, LegacyStyle, "3") == "(op +\n      (number 3)\n      "
  {
    WideIndents();
    HeadSpelled(4, LegacyStyle, "3", "      ", "number");
  }

  lemma LegacyInnermost()
    ensures Innermost(LegacyStyle) == "(op +\n        (number 4)\n" + "        (number 5))"
  {
    WideIndents();
    InnermostSpelled(LegacyStyle, "        ", "number");
  }

  /** Replacing each level of a printed chain by its spelled-out lines. */
  lemma Spelled(s: string, h1: string, h2: string, h3: string, last: string, l1: string, l2: string, l3: string, l4: string)
    requires s == h1 + h2 + h3 + last + ")))"
    requires h1 == l1 && h2 == l2 && h3 == l3 && last == l4
    ensures s == l1 + l2 + l3 + l4 + ")))"
  {
  }

  /**
   * "1 + 2 + 3 + 4 + 5", parsed as InfixIsRightAssociative shows, prints as
   * the packaged parser's test expects. The expected text is written as
   * the concatenation of its four operator levels.
   */
  lemma InfixChainTestOutput(text: real -> string)
    requires text(1.0) == "1" && text(2.0) == "2" && text(3.0) == "3" && text(4.0) == "4" && text(5.0) == "5"
    ensures Stringify(InfixChain(), 0, PackagedStyle, text)
            == "(op +\n  (num 1)\n  " + "(op +\n    (num 2)\n    " + "(op +\n      (num 3)\n      "
               + "(op +\n        (num 4)\n" + "        (num 5))" + ")))"
  {
    InfixChainPrintsAs(PackagedStyle, text);
    PackagedHead1(); PackagedHead2(); PackagedHead3(); PackagedInnermost();
    Spelled(Stringify(InfixChain(), 0, PackagedStyle, text),
            OpHead(0, PackagedStyle, "1"), OpHead(2, PackagedStyle, "2"), OpHead(4, PackagedStyle, "3"),
            Innermost(PackagedStyle),
            "(op +\n  (num 1)\n  ", "(op +\n    (num 2)\n    ", "(op +\n      (num 3)\n      ",
            "(op +\n        (num 4)\n" + "        (num 5))");
  }

  /** The same tree, which the older parser builds too (LegacyInfixIsRightAssociative), under the older printer. */
  lemma LegacyInfixChainTestOutput(text: real -> string)
    requires text(1.0) == "1" && text(2.0) == "2" && text(3.0) == "3" && text(4.0) == "4" && text(5.0) == "5"
    ensures Stringify(InfixChain(), 0, LegacyStyle, text)
            == "(op +\n  (number 1)\n  " + "(op +\n    (number 2)\n    " + "(op +\n      (number 3)\n      "
               + "(op +\n        (number 4)\n" + "        (number 5))" + ")))"
  {
    InfixChainPrintsAs(LegacyStyle, text);
    LegacyHead1(); LegacyHead2(); LegacyHead3(); LegacyInnermost();
    Spelled(Stringify(InfixChain(), 0, LegacyStyle, text),
            OpHead(0, LegacyStyle, "1"), OpHead(2, LegacyStyle, "2"), OpHead(4, LegacyStyle, "3"),
            Innermost(LegacyStyle),
            "(op +\n  (number 1)\n  ", "(op +\n    (number 2)\n    ", "(op +\n      (number 3)\n      ",
            "(op +\n        (number 4)\n" + "        (number 5))");
  }
}
