/**
 * The tokenizer shared by both parser generations (parser/parser.go and the
 * older parser.go carry identical copies). A left-to-right scan over the
 * input's characters: whitespace is skipped, each paren is a word token of its
 * own, and anything else starts a token that runs until whitespace or ')'.
 */
module Lexer {

  /** Token kinds. */
  datatype Tok = TokEOF | TokNum | TokWord

  datatype Token = Token(tok: Tok, lexeme: string)
  {
    predicate Is(a: Tok)
    {
      tok == a
    }

    /** eqv: same kind and same text. */
    predicate Eqv(other: Token)
      ensures Eqv(other) <==> this == other
    {
      tok == other.tok && lexeme == other.lexeme
    }

    /** The textual form used in syntax error messages. */
    function ToString(): (s: string)
      ensures |s| > 0 && s[0] == '(' && s[|s| - 1] == ')'
    {
      match tok
      case TokEOF => "(token-eof)"
      case TokNum => "(token-num `" + lexeme + "`)"
      case TokWord => "(token-word `" + lexeme + "`)"
    }
  }

  const TokenEOF := Token(TokEOF, "")
  const TokenCloseParen := Token(TokWord, ")")
  const TokenOpenParen := Token(TokWord, "(")

  /**
   * unicode.IsSpace: the Latin-1 spaces '\t', '\n', '\v', '\f', '\r', ' ',
   * U+0085 and U+00A0, and above Latin-1 the characters with Unicode's
   * White_Space property.
   */
  predicate IsSpace(c: char)
  {
    var n := c as int;
    if n < 0x100 then n in Latin1Spaces else n in WideSpaces
  }

  const Latin1Spaces: set<int> := {9, 10, 11, 12, 13, 0x20, 0x85, 0xA0}
  const WideSpaces: set<int> := {0x1680, 0x2000, 0x2001, 0x2002, 0x2003, 0x2004, 0x2005, 0x2006, 0x2007, 0x2008, 0x2009, 0x200A, 0x2028, 0x2029, 0x202F, 0x205F, 0x3000}

  /** validchar: the characters that may continue a number or word token. */
  predicate ValidChar(c: char)
  {
    !IsSpace(c) && c != ')'
  }

  /** The kind of token a non-paren, non-space first character starts. */
  function Kind(c: char, isNumber: char -> bool): Tok
  {
    if isNumber(c) then TokNum else TokWord
  }

  /** Length of the longest prefix of `s` made of valid characters. */
  function Run(s: seq<char>): (n: nat)
    ensures n <= |s|
    ensures |s| > 0 && ValidChar(s[0]) ==> n >= 1
  {
    if s == [] || !ValidChar(s[0]) then 0 else 1 + Run(s[1..])
  }

  /** Run is the maximal run: every character before it is valid, the one at it is not. */
  lemma {:induction false} RunIsMaximal(s: seq<char>)
    ensures forall i :: 0 <= i < Run(s) ==> ValidChar(s[i])
    ensures Run(s) < |s| ==> !ValidChar(s[Run(s)])
  {
    if s != [] && ValidChar(s[0]) {
      RunIsMaximal(s[1..]);
      assert forall i :: 1 <= i < Run(s) ==> s[i] == s[1..][i - 1];
    }
  }

  /** A prefix length with the maximal-run property is Run's. */
  lemma {:induction false} RunUnique(s: seq<char>, n: nat)
    requires n <= |s|
    requires forall i :: 0 <= i < n ==> ValidChar(s[i])
    requires n < |s| ==> !ValidChar(s[n])
    ensures n == Run(s)
  {
    if n > 0 {
      RunUnique(s[1..], n - 1);
    }
  }

  /**
   * The token sequence of `s`, by the rules of tokenize in priority order:
   * whitespace, '(', ')', then a maximal run of valid characters whose kind
   * is chosen by its first character.
   */
  function Tokens(s: seq<char>, isNumber: char -> bool): seq<Token>
    decreases |s|
  {
    if s == [] then []
    else if IsSpace(s[0]) then Tokens(s[1..], isNumber)
    else if s[0] == '(' then [TokenOpenParen] + Tokens(s[1..], isNumber)
    else if s[0] == ')' then [TokenCloseParen] + Tokens(s[1..], isNumber)
    else
      var n := Run(s);
      [Token(Kind(s[0], isNumber), s[..n])] + Tokens(s[n..], isNumber)
  }

  /**
   * What eat returns: the characters from `pos` on that satisfy `pred`, up to
   * the first that does not or to `max`, and their count.
   */
  predicate Eaten(runes: seq<char>, pos: int, max: int, pred: char -> bool, buff: seq<char>, size: int)
    requires 0 <= pos <= max <= |runes|
  {
    && size == |buff| && pos + size <= max
    && buff == runes[pos..pos + size]
    && (forall i :: 0 <= i < size ==> pred(buff[i]))
    && (pos + size == max || !pred(runes[pos + size]))
  }

  /** eat: collects the characters from `pos` on while `pred` holds. */
  method Eat(runes: seq<char>, pos: int, max: int, pred: char -> bool) returns (buff: seq<char>, size: int)
    requires 0 <= pos <= max <= |runes|
    ensures Eaten(runes, pos, max, pred, buff, size)
    ensures pos < max && pred(runes[pos]) ==> size >= 1
  {
    buff := [];
    var p := pos;
    while p < max
      invariant pos <= p <= max
      invariant buff == runes[pos..p]
      invariant forall i :: 0 <= i < |buff| ==> pred(buff[i])
    {
      if !pred(runes[p]) {
        break;
      }
      buff := buff + [runes[p]];
      p := p + 1;
    }
    size := |buff|;
  }

  /** What eat returns from `pos` with the valid-character predicate is the run Tokens cuts there. */
  lemma RunOfEat(runes: seq<char>, pos: int, lexeme: seq<char>, size: int)
    requires 0 <= pos < |runes|
    requires Eaten(runes, pos, |runes|, ValidChar, lexeme, size)
    ensures size == Run(runes[pos..])
    ensures runes[pos..][..size] == lexeme && runes[pos..][size..] == runes[pos + size..]
  {
    var rest := runes[pos..];
    assert rest[..size] == lexeme && rest[size..] == runes[pos + size..];
    forall i | 0 <= i < size
      ensures ValidChar(rest[i])
    {
      assert rest[i] == lexeme[i];
    }
    assert size < |rest| ==> rest[size] == runes[pos + size];
    RunUnique(rest, size);
  }

  /** The loop invariant of tokenize: the tokens so far, then those of the rest, are the tokens of the input. */
  predicate Scanned(runes: seq<char>, pos: int, tokens: seq<Token>, all: seq<Token>, isNumber: char -> bool)
    requires 0 <= pos <= |runes|
  {
    tokens + Tokens(runes[pos..], isNumber) == all
  }

  /** Skipping whitespace keeps the invariant. */
  lemma SkipStep(runes: seq<char>, pos: int, tokens: seq<Token>, all: seq<Token>, isNumber: char -> bool)
    requires 0 <= pos < |runes| && IsSpace(runes[pos])
    requires Scanned(runes, pos, tokens, all, isNumber)
    ensures Scanned(runes, pos + 1, tokens, all, isNumber)
  {
    var rest := runes[pos..];
    assert rest[0] == runes[pos] && rest[1..] == runes[pos + 1..];
  }

  /** Emitting a paren token keeps the invariant. */
  lemma ParenStep(runes: seq<char>, pos: int, tokens: seq<Token>, t: Token, all: seq<Token>, isNumber: char -> bool)
    requires 0 <= pos < |runes| && !IsSpace(runes[pos])
    requires (runes[pos] == '(' && t == TokenOpenParen) || (runes[pos] == ')' && t == TokenCloseParen)
    requires Scanned(runes, pos, tokens, all, isNumber)
    ensures Scanned(runes, pos + 1, tokens + [t], all, isNumber)
  {
    var rest := runes[pos..];
    assert rest[0] == runes[pos] && rest[1..] == runes[pos + 1..];
    assert Tokens(rest, isNumber) == [t] + Tokens(rest[1..], isNumber);
    assert tokens + [t] + Tokens(rest[1..], isNumber) == tokens + ([t] + Tokens(rest[1..], isNumber));
  }

  /** Emitting the run eat collected keeps the invariant. */
  lemma RunStep(runes: seq<char>, pos: int, tokens: seq<Token>, kind: Tok, lexeme: seq<char>, size: int, all: seq<Token>, isNumber: char -> bool)
    requires 0 <= pos < |runes| && ValidChar(runes[pos]) && runes[pos] != '('
    requires Eaten(runes, pos, |runes|, ValidChar, lexeme, size)
    requires Scanned(runes, pos, tokens, all, isNumber)
    requires kind == Kind(runes[pos], isNumber)
    ensures size >= 1
    ensures Scanned(runes, pos + size, tokens + [Token(kind, lexeme)], all, isNumber)
  {
    var rest := runes[pos..];
    RunOfEat(runes, pos, lexeme, size);
    var t := Token(kind, lexeme);
    assert rest[0] == runes[pos];
    assert Tokens(rest, isNumber) == [t] + Tokens(rest[size..], isNumber);
    assert tokens + [t] + Tokens(rest[size..], isNumber) == tokens + ([t] + Tokens(rest[size..], isNumber));
  }

  /** One pass of tokenize's loop body: the `switch` on the character at `pos`. */
  method Scan(runes: seq<char>, pos: int, tokens: seq<Token>, ghost all: seq<Token>, isNumber: char -> bool)
    returns (next: int, out: seq<Token>)
    requires 0 <= pos < |runes|
    requires Scanned(runes, pos, tokens, all, isNumber)
    ensures pos < next <= |runes|
    ensures Scanned(runes, next, out, all, isNumber)
  {
    var curr := runes[pos];
    if IsSpace(curr) {
      SkipStep(runes, pos, tokens, all, isNumber);
      next, out := pos + 1, tokens;
    } else if curr == '(' {
      ParenStep(runes, pos, tokens, TokenOpenParen, all, isNumber);
      next, out := pos + 1, tokens + [TokenOpenParen];
    } else if curr == ')' {
      ParenStep(runes, pos, tokens, TokenCloseParen, all, isNumber);
      next, out := pos + 1, tokens + [TokenCloseParen];
    } else if isNumber(curr) {
      var num, size := Eat(runes, pos, |runes|, ValidChar);
      RunStep(runes, pos, tokens, TokNum, num, size, all, isNumber);
      next, out := pos + size, tokens + [Token(TokNum, num)];
    } else {
      var word, size := Eat(runes, pos, |runes|, ValidChar);
      RunStep(runes, pos, tokens, TokWord, word, size, all, isNumber);
      next, out := pos + size, tokens + [Token(TokWord, word)];
    }
  }

  /** tokenize: the `for pos` loop appending to the token list. */
  method Tokenize(input: string, isNumber: char -> bool) returns (tokens: seq<Token>)
    ensures tokens == Tokens(input, isNumber)
  {
    var runes := input;
    var max := |runes|;
    tokens := [];
    var pos := 0;
    ghost var all := Tokens(runes, isNumber);
    assert runes[0..] == runes;
    while pos < max
      invariant 0 <= pos <= max
      invariant Scanned(runes, pos, tokens, all, isNumber)
      decreases max - pos
    {
      pos, tokens := Scan(runes, pos, tokens, all, isNumber);
    }
    assert runes[max..] == [];
    assert tokens + [] == tokens;
  }

  // ---------------------------------------------------------------------
  // Properties of the token sequence

  /** Every token is a paren token or a run of valid characters, classified by its first one. */
  predicate WellFormed(t: Token, isNumber: char -> bool)
  {
    t == TokenOpenParen || t == TokenCloseParen ||
    (&& |t.lexeme| > 0
     && t.lexeme[0] != '('
     && (forall i :: 0 <= i < |t.lexeme| ==> ValidChar(t.lexeme[i]))
     && t.tok == Kind(t.lexeme[0], isNumber))
  }

  lemma {:induction false} TokensWellFormed(s: seq<char>, isNumber: char -> bool)
    ensures forall t | t in Tokens(s, isNumber) :: WellFormed(t, isNumber) && t.tok != TokEOF
    decreases |s|
  {
    if s == [] {
    } else if IsSpace(s[0]) || s[0] == '(' || s[0] == ')' {
      TokensWellFormed(s[1..], isNumber);
    } else {
      RunIsMaximal(s);
      TokensWellFormed(s[Run(s)..], isNumber);
    }
  }

  /** The input with its whitespace removed. */
  function NonSpace(s: seq<char>): seq<char>
  {
    if s == [] then [] else (if IsSpace(s[0]) then [] else [s[0]]) + NonSpace(s[1..])
  }

  /** The lexemes of `ts`, concatenated. */
  function Concat(ts: seq<Token>): string
  {
    if ts == [] then "" else ts[0].lexeme + Concat(ts[1..])
  }

  lemma {:induction false} NonSpaceConcat(a: seq<char>, b: seq<char>)
    ensures NonSpace(a + b) == NonSpace(a) + NonSpace(b)
  {
    if a != [] {
      assert (a + b)[1..] == a[1..] + b;
      NonSpaceConcat(a[1..], b);
    } else {
      assert a + b == b;
    }
  }

  lemma {:induction false} NonSpaceOfRun(a: seq<char>)
    requires forall i :: 0 <= i < |a| ==> ValidChar(a[i])
    ensures NonSpace(a) == a
  {
    if a != [] {
      NonSpaceOfRun(a[1..]);
    }
  }

  /**
   * No character is lost or duplicated: the lexemes, read in order, spell
   * the input minus its whitespace.
   */
  lemma {:induction false} LexemesSpellInput(s: seq<char>, isNumber: char -> bool)
    ensures Concat(Tokens(s, isNumber)) == NonSpace(s)
    decreases |s|
  {
    if s == [] {
    } else if IsSpace(s[0]) {
      LexemesSpellInput(s[1..], isNumber);
    } else if s[0] == '(' || s[0] == ')' {
      LexemesSpellInput(s[1..], isNumber);
      var t := if s[0] == '(' then TokenOpenParen else TokenCloseParen;
      assert Tokens(s, isNumber) == [t] + Tokens(s[1..], isNumber);
      assert ([t] + Tokens(s[1..], isNumber))[1..] == Tokens(s[1..], isNumber);
    } else {
      var n := Run(s);
      var t := Token(Kind(s[0], isNumber), s[..n]);
      LexemesSpellInput(s[n..], isNumber);
      RunIsMaximal(s);
      assert ([t] + Tokens(s[n..], isNumber))[1..] == Tokens(s[n..], isNumber);
      assert s == s[..n] + s[n..];
      NonSpaceConcat(s[..n], s[n..]);
      NonSpaceOfRun(s[..n]);
    }
  }

  /**
   * A character that cannot continue a token (whitespace or ')') splits the
   * input: what lies before it is tokenized on its own.
   */
  lemma {:induction false} SplitAtDelimiter(a: seq<char>, d: seq<char>, isNumber: char -> bool)
    requires |d| > 0 && !ValidChar(d[0])
    ensures Tokens(a + d, isNumber) == Tokens(a, isNumber) + Tokens(d, isNumber)
    decreases |a|
  {
    var s := a + d;
    if a == [] {
      assert s == d;
    } else if IsSpace(a[0]) {
      assert s[0] == a[0] && s[1..] == a[1..] + d;
      SplitAtDelimiter(a[1..], d, isNumber);
      assert Tokens(s, isNumber) == Tokens(a[1..] + d, isNumber);
    } else if a[0] == '(' || a[0] == ')' {
      var t := if a[0] == '(' then TokenOpenParen else TokenCloseParen;
      assert s[0] == a[0] && s[1..] == a[1..] + d;
      SplitAtDelimiter(a[1..], d, isNumber);
      TokensConsAssoc(t, Tokens(a[1..], isNumber), Tokens(d, isNumber));
    } else {
      var n := Run(a);
      var t := Token(Kind(a[0], isNumber), a[..n]);
      RunStopsAtDelimiter(a, d);
      assert Tokens(s, isNumber) == [t] + Tokens(a[n..] + d, isNumber);
      SplitAtDelimiter(a[n..], d, isNumber);
      TokensConsAssoc(t, Tokens(a[n..], isNumber), Tokens(d, isNumber));
    }
  }

  lemma TokensConsAssoc(t: Token, x: seq<Token>, y: seq<Token>)
    ensures [t] + (x + y) == ([t] + x) + y
  {
  }

  /** A run inside `a` cannot cross a delimiter that follows `a`. */
  lemma {:induction false} RunStopsAtDelimiter(a: seq<char>, d: seq<char>)
    requires |d| > 0 && !ValidChar(d[0])
    ensures Run(a + d) == Run(a)
    ensures (a + d)[..Run(a)] == a[..Run(a)] && (a + d)[Run(a)..] == a[Run(a)..] + d
    decreases |a|
  {
    var s := a + d;
    if a == [] {
      assert s == d;
    } else {
      assert s[0] == a[0] && s[1..] == a[1..] + d;
      if ValidChar(a[0]) {
        RunStopsAtDelimiter(a[1..], d);
      }
    }
  }

  /** Whitespace produces no token, whatever surrounds it. */
  lemma SpaceProducesNothing(a: seq<char>, c: char, b: seq<char>, isNumber: char -> bool)
    requires IsSpace(c)
    ensures Tokens(a + [c] + b, isNumber) == Tokens(a, isNumber) + Tokens(b, isNumber)
  {
    assert a + [c] + b == a + ([c] + b);
    SplitAtDelimiter(a, [c] + b, isNumber);
    assert ([c] + b)[1..] == b;
  }

  /** Input made only of whitespace has no tokens at all. */
  lemma {:induction false} BlankHasNoTokens(s: seq<char>, isNumber: char -> bool)
    requires forall i :: 0 <= i < |s| ==> IsSpace(s[i])
    ensures Tokens(s, isNumber) == []
  {
    if s != [] {
      BlankHasNoTokens(s[1..], isNumber);
    }
  }

  /** ')' is always a token of its own, whatever surrounds it. */
  lemma CloseParenIsOwnToken(a: seq<char>, b: seq<char>, isNumber: char -> bool)
    ensures Tokens(a + [')'] + b, isNumber) == Tokens(a, isNumber) + [TokenCloseParen] + Tokens(b, isNumber)
  {
    var d := [')'] + b;
    assert a + [')'] + b == a + d;
    assert d[0] == ')' && d[1..] == b;
    SplitAtDelimiter(a, d, isNumber);
    assert Tokens(d, isNumber) == [TokenCloseParen] + Tokens(b, isNumber);
    assert Tokens(a, isNumber) + ([TokenCloseParen] + Tokens(b, isNumber))
        == Tokens(a, isNumber) + [TokenCloseParen] + Tokens(b, isNumber);
  }

  /**
   * Maximal munch: a run of valid characters not starting with '(' is one
   * token, even when it mixes digits, letters and '('.
   */
  lemma MaximalMunch(s: seq<char>, isNumber: char -> bool)
    requires |s| > 0 && s[0] != '('
    requires forall i :: 0 <= i < |s| ==> ValidChar(s[i])
    ensures Tokens(s, isNumber) == [Token(Kind(s[0], isNumber), s)]
  {
    RunUnique(s, |s|);
    assert s[..|s|] == s && s[|s|..] == [];
  }

  /** "1a" is a single number token. */
  lemma NumberTokenTakesLetters(isNumber: char -> bool)
    requires isNumber('1')
    ensures Tokens("1a", isNumber) == [Token(TokNum, "1a")]
  {
    MaximalMunch("1a", isNumber);
  }

  /** "a(b" is a single word token: '(' only stands alone where a token starts. */
  lemma WordTokenTakesOpenParen(isNumber: char -> bool)
    requires !isNumber('a')
    ensures Tokens("a(b", isNumber) == [Token(TokWord, "a(b")]
  {
    MaximalMunch("a(b", isNumber);
  }
}
