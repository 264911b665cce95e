# aplcalc engine in Dafny

This project models the engine of aplcalc, a small calculator language. The
repository has two generations of the engine. The older one lives in the
`main` package: `parser.go` and `evaluator.go`. The newer one is split into
packages: `parser/parser.go` and the `value` package.

The model covers these parts:

- **Lexer** (`Lexer`). `tokenize` scans runes from left to right and emits
  number and word tokens.
  - `Lexer.Tokens` is the specification of the scan.
  - `Lexer.Tokenize` is the imperative loop and is proved equal to `Tokens`.
  - `Lexer.Scan` is one pass of the loop body.
  - `Lexer.Eat` is the `eat` loop that fills its buffer.
  - Both generations have the same lexer, so one model serves both.
- **Grammar** (`Grammar`). The recursive-descent grammar written as functions.
  Each function maps a token sequence and a cursor to a node and the cursor
  position after it. The two generations share it and differ in one thing:
  whether two adjacent number tokens start an array literal (`Table.arrays`).
- **Parsers** (`Parser.Parser`, `Legacy.Parser`). These are classes with
  the source's own mutable state, `tokens` and `pos`.
  - Each method proves that its result and its new cursor `Agrees` with the
    grammar function it implements.
  - `Parser.Parser.Args` is the argument loop of `expr`. The older parser's
    loop stays inline in `Legacy.Parser.Expr`.
- **AST printer** (`Syntax.Stringify`). One printer covers both generations.
  A `Style` parameter supplies the labels each one prints for numbers and
  identifiers.
- **Values, type tags, signatures and dispatch** (`Values`).
  - bit-flag tags, `ty.String`, `Ty` and `sig`;
  - `Op.Dispatch`, keyed on the union of the two argument tags;
  - the `Fn`/`Op` printers;
  - the line-wrapping loop of `Arr.Stringify`;
  - the handlers `neg`, `abs`, `add` and `mul`.
- **Environment** (`Environments.Environment`). A class with three maps
  (`ops`, `fns`, `val`) that `SetOp`, `SetFn` and `SetVal` update in place.
  `NewEnvironment` is its constructor.
- **Evaluators.** `value/eval.go` and `value/evaluator/eval.go` share one
  specification, `Evaluation.Evaluate`. It is parameterised by the name that
  means assignment (`=` or `:=`) and returns the result together with the
  value table afterwards.
  - `ValueEval.Eval` implements it for `value/eval.go`.
  - `Evaluator.Eval` and `Evaluator.Define` implement it for
    `value/evaluator/eval.go`.
  - Both are methods that modify an `Environment`. Each is proved equal to
    the specification function.
- **Walk results** (`Outcomes`). All three evaluators return an `Outcome`:
  the result together with the bindings the walk leaves behind.
- **Older evaluator** (`MainEvaluator`). It has its own environment with a
  single values map, the `number`/`function` types and `validTypes`, the
  builtin function values, and `eval`.

Numbers are `real`. Three things are parameters:

- big.Float's text formatting;
- `big.ParseFloat`;
- `unicode.IsNumber`.

`unicode.IsSpace` is modelled exactly: the Latin-1 list as well as the
Unicode White_Space characters beyond it.

Where the code and the design description differ, the model follows the code:

- The description asks for dispatch keyed by ordered signature strings. The
  code keys `Op.Impl` by the union `Ty(a1)|Ty(a2)`, which ignores argument
  order. `Values.Dispatch` does what the code does.
- The description gives functions signature-based dispatch. In the code a
  `Fn` is just an arity and an `Apply` closure.
- The description speaks of exact decimal arithmetic. The code uses
  `big.NewFloat(0)` results, whose precision is 53 bits.

## Model

| member | source | states |
|---|---|---|
| Lexer.Token.Eqv | parser/parser.go:31-33 | two tokens are eqv exactly when kind and lexeme agree, that is when they are equal |
| Lexer.Token.ToString | parser/parser.go:35-46 | the printed form of a token is parenthesised |
| Lexer.IsSpace | parser/parser.go:66 | unicode.IsSpace: the Latin-1 spaces tab, newline, vertical tab, form feed, carriage return, space, U+0085 and U+00A0, and above Latin-1 exactly the White_Space characters |
| Lexer.ValidChar | parser/parser.go:61 | validchar, the conjunction of "not a space" and "not ')'" |
| Lexer.Kind | parser/parser.go:74-81 | a run is a number token when its first character is a number, and a word token otherwise |
| Lexer.Tokens | parser/parser.go:54-86 | the token sequence of an input, as a recursive definition: white space is skipped, "(" and ")" are word tokens of their own, anything else starts a maximal run of valid characters; Tokenize is proved equal to it and the lemmas below state its properties |
| Lexer.Run | parser/parser.go:61 | the length of the leading run of valid characters is within the input, and at least 1 when the first character is valid |
| Lexer.RunIsMaximal | parser/parser.go:61 | every character of the run is neither space nor ')', and the character after the run is one of those |
| Lexer.RunUnique | parser/parser.go:61 | any prefix length that is all-valid and stops at an invalid character or at the end equals the run length |
| Lexer.Eat | parser/parser.go:113-122 | the buffer is the maximal slice from pos on whose characters satisfy the predicate, bounded by max; its size is its length; it is non-empty when the first character qualifies |
| Lexer.RunOfEat | parser/parser.go:113-122 | eat with validchar up to the end returns exactly the run of valid characters from pos, and what follows it |
| Lexer.Scan | parser/parser.go:64-82 | one pass of the loop advances pos by at least one and keeps "tokens so far, then the tokens of the rest, are all the tokens of the input" |
| Lexer.Tokenize | parser/parser.go:54-86 | the loop terminates and returns exactly the specified token sequence of the input |
| Lexer.TokensWellFormed | parser/parser.go:61-82 | every token is '(' or ')' as a word, or a non-empty run of valid characters whose kind is fixed by its first character; none is EOF |
| Lexer.LexemesSpellInput | parser/parser.go:63-83 | concatenating the lexemes gives the input with its white space removed |
| Lexer.SplitAtDelimiter | parser/parser.go:61-82 | input split before a space or ')' lexes as the two halves lexed separately |
| Lexer.SpaceProducesNothing | parser/parser.go:66-67 | a white-space character separates tokens and produces none |
| Lexer.BlankHasNoTokens | parser/parser.go:66-67 | all-space input has no tokens |
| Lexer.CloseParenIsOwnToken | parser/parser.go:71-73 | a ')' is one token of its own whatever its neighbours are |
| Lexer.MaximalMunch | parser/parser.go:74-81 | a run of valid characters not starting with '(' is one token, of the kind its first character gives |
| Lexer.NumberTokenTakesLetters | parser/parser.go:74-77 | "1a" is one number token |
| Lexer.WordTokenTakesOpenParen | parser/parser.go:78-81 | "a(b" is one word token |
| Grammar.LookaheadPastEnd | parser/parser.go:234-239 | at or past the end, lookahead is the EOF token |
| Grammar.Lookahead | parser/parser.go:234-239 | lookahead(n) is the token n places past the cursor while that is inside the tokens, and the end-of-input token past the end |
| Grammar.ParseExpr | parser/parser.go:259-294 | a successful expr leaves the cursor between pos and the end |
| Grammar.ParseArgs | parser/parser.go:265-276 | a successful argument loop yields exactly argc arguments (none for argc not positive) and a cursor in range |
| Grammar.ParseUnit | parser/parser.go:301-313 | a successful unit never moves the cursor back, nor past the end when it starts inside |
| Grammar.ParseGroup | parser/parser.go:317-334 | a successful group consumes at least its opening paren and stays within the tokens |
| Grammar.ParseArr | parser/parser.go:341-351 | an array literal takes one token per value, each a number token whose literal parses to that value, and stops before a token that is not a number |
| Grammar.ParseNum | parser/parser.go:353-364 | a successful num consumes one number token whose literal parses to the value |
| Grammar.GroupErrors | parser.go:331-348 | a group fails naming the token found where "(" or ")" belongs, and succeeds exactly when both parens surround an expr |
| Grammar.NumErrors | parser.go:355-366 | num fails on a non-number token, and with "unable to parse number: " and the parser's reason on a rejected literal; otherwise it succeeds |
| Grammar.ParseInput | parser/parser.go:215-221 | the whole input is tokenised and parsed as one expr from position 0, keeping the node and dropping the cursor |
| Grammar.DanglingFunction | parser.go:282-291 | a function name that is last and still owes arguments fails with "unexpected eof" |
| Grammar.DanglingOperator | parser.go:300-307 | an operator that is the last token fails with "unexpected eof" for its missing right side |
| Grammar.ExprShaped | parser/parser.go:259-294 | every parsed tree has operators with a unit as left operand, so chains nest to the right; applications have exactly their arity of arguments; identifiers are not function names; arrays have at least two numbers and only when enabled |
| Grammar.ArgsShaped | parser/parser.go:265-276 | every parsed argument has that shape |
| Grammar.UnitShaped | parser/parser.go:301-313 | a unit is never an operator or an application, and has that shape |
| Grammar.GroupShaped | parser/parser.go:317-334 | a group is a Group node around a shaped tree |
| Grammar.NilIsCloseParen | parser/parser.go:301-305 | expr yields the empty node exactly when it starts at a ')' that is no name, and then exactly when it consumes nothing |
| Grammar.UnitConsumes | parser/parser.go:301-312 | unit yields the empty node exactly at ')', and that is the only case in which it consumes nothing |
| Grammar.BlankInputFails | parser/parser.go:259-262 | an empty or all-space input fails with "unexpected eof" |
| Grammar.ExprIgnoresRest | parser/parser.go:215-221 | tokens after a complete expr do not change the result, so trailing input is ignored |
| Grammar.ArgsIgnoresRest | parser/parser.go:265-276 | the same for an argument list |
| Grammar.ArgsMonotone | parser/parser.go:265-276 | the argument loop never moves the cursor back |
| Grammar.UnitIgnoresRest | parser/parser.go:301-313 | the same for a unit |
| Grammar.GroupIgnoresRest | parser/parser.go:317-334 | the same for a group |
| Grammar.ArrIgnoresRest | parser/parser.go:341-351 | the same for an array literal |
| Parser.Arities | parser/parser.go:227-232 | the parser's arity table has the environment's function names, each with its Argc |
| Parser.SeedTableNames | value/environment.go:48-70 | in a fresh environment "+", "*" and "@" are the one-character operators, no one-character name is a function, abs has arity 1, and arrays are on |
| Parser.Parser.constructor | parser/parser.go:211-213 | a new parser holds the environment, no tokens and cursor 0 |
| Parser.Parser.Parse | parser/parser.go:215-221 | Parse re-tokenises the input, resets the cursor, and returns what the grammar gives for the whole input |
| Parser.Parser.IsOp | parser/parser.go:223-225 | isOp asks the environment whether the name is an operator |
| Parser.Parser.Peek | parser/parser.go:241-243 | peek is the token at the cursor, or the end-of-input token once the input is used up |
| Parser.Parser.Done | parser/parser.go:251-253 | done holds exactly when the cursor is at or past the end of the tokens |
| Parser.Parser.IsFn | parser/parser.go:227-232 | a word is a function exactly when the environment has it, with that function's Argc |
| Parser.Parser.Eat | parser/parser.go:245-249 | eat returns the lookahead token and advances the cursor by exactly one |
| Parser.Parser.Expr | parser/parser.go:259-294 | expr follows the grammar's expr: same node or error, cursor left where the grammar says |
| Parser.Parser.Args | parser/parser.go:265-276 | the argc loop collects the grammar's argument list, stopping at the first failing argument |
| Parser.Parser.Unit | parser/parser.go:301-313 | unit follows the grammar's unit |
| Parser.Parser.Group | parser/parser.go:317-334 | group follows the grammar's group, errors included |
| Parser.Parser.Id | parser/parser.go:336-339 | id consumes one token and names it |
| Parser.Parser.Arr | parser/parser.go:341-351 | the loop over number tokens gives the grammar's array literal |
| Parser.Parser.Num | parser/parser.go:353-364 | num follows the grammar's num, errors included |
| Legacy.Elements | parser.go:234-241 | the operator list as a set holds exactly the listed names |
| Legacy.Parser.constructor | parser.go:221-232 | a new parser holds the input's tokens, cursor 0, the operator list ["+"] and functions abs:1, select:2, from:1 |
| Legacy.Parser.IsOp | parser.go:234-241 | the loop finds a name exactly when it is in the operator list |
| Legacy.Parser.IsFn | parser.go:243-246 | a word is a function exactly when the table has it, with its arity |
| Legacy.Parser.Eat | parser.go:259-263 | eat returns the lookahead token and advances the cursor by exactly one |
| Legacy.Parser.Peek | parser.go:255-257 | peek is the token at the cursor, or the end-of-input token once the input is used up |
| Legacy.Parser.Done | parser.go:265-267 | done holds exactly when the cursor is at or past the end of the tokens |
| Legacy.Parser.Parse | parser.go:269-274 | parse fails with "unexpected eof" past the end, and otherwise follows the grammar's expr |
| Legacy.Parser.Expr | parser.go:280-311 | expr follows the grammar's expr without array literals |
| Legacy.Parser.Unit | parser.go:317-327 | unit follows the grammar's unit: a number token is always a single number |
| Legacy.Parser.Group | parser.go:331-348 | group follows the grammar's group, errors included |
| Legacy.Parser.Id | parser.go:350-353 | id consumes one token and names it |
| Legacy.Parser.Num | parser.go:355-366 | num follows the grammar's num, errors included |
| Legacy.Parse | parser.go:217-219 | parse(input) is the grammar's result for the whole input under the fixed table |
| Legacy.LegacyTable | parser.go:221-232 | the table newParser hard-codes: "+" the only operator, abs:1, select:2 and from:1 the only functions, and no array literals |
| Syntax.Stringify | parser/parser.go:132-201 | every printed node is parenthesised |
| Syntax.StringifyAll | parser/parser.go:161-170 | one printed argument per argument |
| Syntax.NumCells | parser/parser.go:176-185 | one printed cell per array value |
| ParserExamples.InfixIsRightAssociative | parser/parser_test.go:24 | "1 + 2 + 3 + 4 + 5" against a fresh environment's table nests to the right |
| ParserExamples.InfixTree | parser/parser.go:283-291 | five numbers joined by four "+" tokens parse to the right-nested tree |
| ParserExamples.LegacyInfixIsRightAssociative | parser_test.go:20 | "1 + 2 + 3 + 4 + 5" under the older parser's table nests to the right as well |
| ParserExamples.OpOverNumPrints | parser/parser.go:147-154 | an operator whose left operand is a number prints "(op +", the number on the next line two columns deeper, and then its right operand |
| ParserExamples.InfixChainPrintsAs | parser/parser.go:147-154 | the right-nested chain prints one operator level per pair of lines, each two columns deeper than the one before |
| ParserExamples.InfixChainTestOutput | parser/parser_test.go:24 | that chain prints exactly as the packaged test expects, the expected text written as the concatenation of its four levels |
| ParserExamples.LegacyInfixChainTestOutput | parser_test.go:20 | the same chain prints exactly as the older test expects |
| ParserExamples.NumberThenOperator | parser/parser.go:283-291 | a number followed by an operator takes the rest as its right operand |
| ParserExamples.NumberAlone | parser/parser.go:293 | a number with no operator after it is the whole expression |
| ParserExamples.NumberUnit | parser/parser.go:309-310 | a lone number token is a number unit |
| ParserExamples.InfixPrints | parser/parser_test.go:23 | "1 + 2" prints as "(op +\n  (num 1)\n  (num 2))" |
| ParserExamples.NestedEmptyGroups | parser/parser_test.go:20 | "((()))" is three groups around the empty node |
| ParserExamples.GroupsTree | parser/parser.go:317-334 | three open and three close parens nest three groups around nothing |
| ParserExamples.EmptyGroupsPrint | parser/parser_test.go:19-20 | "()" prints "(group empty)" and each enclosing group adds a line indented by two |
| ParserExamples.PrefixApplication | parser/parser_test.go:21 | "abs 1" applies abs to the number 1 |
| ParserExamples.PrefixTree | parser/parser.go:264-276 | a one-argument function name followed by a number applies the function to it |
| ParserExamples.PrefixApplicationPrints | parser/parser_test.go:21 | that application prints "(app abs\n  (num 1))" |
| ParserExamples.AdjacentNumbers | parser.go:317-327 | "1 2" is an array literal for the packaged parser and just the number 1 for the older one |
| ParserExamples.ArrayTree | parser/parser.go:307-308 | two number tokens in a row are one array of both values |
| ParserExamples.LegacyDangling | parser.go:269-274 | "abs" and "1 +" fail with "unexpected eof" in the older parser |
| ParserExamples.LegacyLeavesPrint | parser_test.go:11-14 | the older printer prints "(number 1)" and "(identifier a)"; an odd identifier prints verbatim |
| ParserExamples.TokensOfSpaced | parser/parser.go:63-83 | single valid characters separated by blanks lex to one token each |
| ParserExamples.InfixTokens | parser/parser_test.go:24 | the tokens of "1 + 2 + 3 + 4 + 5" are digits at even positions and "+" at odd ones |
| ParserExamples.NestedGroupTokens | parser/parser.go:68-73 | "((()))" lexes to six paren tokens |
| ParserExamples.AbsTokens | parser/parser.go:74-81 | "abs 1" lexes to a word and a number |
| ParserExamples.TwoNumberTokens | parser/parser.go:74-77 | "1 2" lexes to two number tokens |
| ParserExamples.DanglingPlusTokens | parser.go:96-103 | "1 +" lexes to a number and a word |
| Values.Op.ToString | value/value.go:66-68 | an operator prints "op" |
| Values.Fn.ToString | value/value.go:75-77 | a function prints "fn/" followed by its arity in decimal |
| Values.TagsArePowersOfTwo | value/type.go:17-22 | the tags are 1, 2, 4 and 8, each a single bit |
| Values.TyName | value/type.go:24-35 | a tag name is in angle brackets and contains no "/" |
| Values.TyNameDistinct | value/type.go:24-35 | single tags have distinct names, and a union of two different tags prints "<unknown>" |
| Values.TyOf | value/type.go:37-48 | arrays, numbers and generators get their own tags; every other value gets TUnknown |
| Values.Sig | value/type.go:7-13 | sig joins the tag names with "/" in argument order; SigComponents and SigDeterminesTypes state its properties |
| Values.Names | value/type.go:8-11 | one name per tag, in argument order |
| Values.SigComponents | value/type.go:7-13 | a signature has one separator fewer than arguments |
| Values.JoinInjective | value/type.go:12 | joins of separator-free parts are equal only when the parts are |
| Values.SigDeterminesTypes | value/type.go:7-13 | signatures of single tags are equal exactly when the tag lists are, so order matters |
| Values.NegOf | value/definitions.go:23-30 | neg gives a fresh number that added to its argument is zero |
| Values.AbsOf | value/definitions.go:32-39 | abs gives a fresh non-negative number equal to the argument or its negation |
| Values.AddOf | value/definitions.go:5-12 | add gives the sum of its two arguments |
| Values.MulOf | value/definitions.go:14-21 | mul gives the product: zero exactly when a factor is zero, and dividing by one factor gives the other |
| Values.HandlerLaws | value/definitions.go:5-39 | neg is an involution, abs ignores sign and is idempotent, add and mul commute |
| Values.Apply | value/definitions.go:7-35 | a known handler returns a number when its arguments are numbers, and otherwise panics on the type assertion or missing argument, the first argument's assertion coming before the second is looked up; the nil placeholder panics |
| Values.Dispatch | value/value.go:51-64 | a count other than 2 fails first with "expecting 2 arguments but got N"; a missing key fails with "operator does not implement" and the two tag names; otherwise the handler gets the arguments in their order |
| Values.Lookup | value/value.go:56-58 | the handler the table holds for the union of the two tags, or none |
| Values.KeyIdentifiesPair | value/value.go:58 | the union key of two single tags identifies the unordered pair |
| Values.LookupSymmetric | value/value.go:56-58 | swapping the arguments selects the same handler, and two numbers use key TNum |
| Values.Wrap | value/value.go:38-43 | the cells with a line-break entry after every tenth one |
| Values.ArrString | value/value.go:38-44 | Arr.Stringify joins that layout with single spaces |
| Values.WrapPositions | value/value.go:38-44 | the layout has floor(n/10) extra entries; cell i is at i + i/10; the k-th "\n " follows the 10k-th cell |
| Values.WrapSnoc | value/value.go:38-43 | appending a cell appends it, then a break when it is a tenth one |
| Values.Layout | value/value.go:38-43 | the wrapping loop produces exactly that layout |
| Environments.SeedOps | value/environment.go:51-61 | the operator table NewEnvironment starts with, ":=" a placeholder without a handler |
| Environments.SeedFns | value/environment.go:62-68 | the function table NewEnvironment starts with |
| Environments.SeedKeys | value/environment.go:48-70 | a fresh environment has exactly the listed operator and function names, ":=" with no handler, and no "=" |
| Environments.Environment.constructor | value/environment.go:48-70 | NewEnvironment holds the seed tables and no values |
| Environments.Environment.HasOp | value/environment.go:9-12 | HasOp holds exactly when the name is a key of the operator table |
| Environments.Environment.HasFn | value/environment.go:14-17 | the same for the function table |
| Environments.Environment.HasVal | value/environment.go:19-22 | the same for the value table |
| Environments.Environment.GetOp | value/environment.go:9-26 | an operator is found exactly when its name is a key, and it is the bound one |
| Environments.Environment.GetFn | value/environment.go:14-30 | the same for functions |
| Environments.Environment.GetVal | value/environment.go:19-34 | the same for values |
| Environments.Environment.SetVal | value/environment.go:36-38 | the name is then bound to the value; other bindings and the other two tables are unchanged; no key disappears |
| Environments.Environment.SetFn | value/environment.go:40-42 | the same for the function table only |
| Environments.Environment.SetOp | value/environment.go:44-46 | the same for the operator table only |
| Evaluation.Evaluate | value/eval.go:10-72 | the tree walk of both packaged evaluators, parameterised by the assignment name: numbers evaluate to themselves, identifiers to their binding or "is not defined", groups to their contents, applications and operators as ApplicationOrder and OperatorOrder state; the lemmas below state its properties |
| Evaluation.Define | value/evaluator/eval.go:33-46 | assignment: a non-identifier target fails with "invalid identifier", otherwise the right side is evaluated and, when it succeeds, bound to the name |
| Evaluation.EvaluateArgs | value/eval.go:27-34 | a successful argument walk yields one value per argument |
| Evaluation.OnlyAssignedChange | value/eval.go:38-53 | evaluation never removes a binding, and changes or adds only names the expression assigns to |
| Evaluation.ArgsOnlyAssignedChange | value/eval.go:27-34 | the same for an argument walk |
| Evaluation.AssignmentFreeIsRepeatable | value/eval.go:10-72 | an expression without assignment leaves the table unchanged, so evaluating it again gives the same outcome |
| Evaluation.ArgsConcat | value/eval.go:28-33 | walking a + b walks a, then b in the table a left, unless a failed |
| Evaluation.FirstFailureWins | value/eval.go:28-33 | a failing walk reports the failure of the first argument that fails, after the earlier ones succeed |
| Evaluation.AssignThenRead | value/eval.go:47-52 | assignment returns the right side's value and binds it so that reading the name gives it back; a failing right side writes nothing |
| Evaluation.InvalidTarget | value/eval.go:39-46 | a non-identifier left side fails with "invalid identifier" before the right side runs |
| Evaluation.OperatorOrder | value/eval.go:55-68 | an unknown operator fails before its operands run; a failing left operand stops the evaluation; otherwise the right operand runs in the bindings the left one left, its failure is the result, and on success the operator's handler gets the two values in order |
| Evaluation.ApplicationOrder | value/eval.go:22-36 | an unknown function fails before any argument runs; a failing argument walk gives its error and bindings; otherwise the handler gets one value per argument, in order |
| ValueEval.Eval | value/eval.go:10-72 | Eval with "=" as assignment gives the specified result and value table, leaving ops and fns alone |
| Evaluator.Define | value/evaluator/eval.go:33-46 | define gives the specified assignment result and value table |
| Evaluator.Eval | value/evaluator/eval.go:48-98 | Eval with ":=" routed to define gives the specified result and value table |
| EvaluationExamples.DefineThenAdd | value/evaluator/eval.go:76-79 | "x := 3" binds x to 3; then "x + 1" yields 4 |
| EvaluationExamples.NegThenAbs | value/definitions.go:23-39 | "neg 5" yields -5 and "abs neg 5" yields 5 |
| EvaluationExamples.PlaceholderUnderEquals | value/environment.go:59-60 | under "=" assignment, ":=" is an ordinary operator: it first evaluates x, then calls the nil placeholder handler |
| EvaluationExamples.UnknownFunctionSkipsArguments | value/evaluator/eval.go:60-63 | an unknown function fails before its argument's assignment happens |
| EvaluationExamples.MissingArgumentPanics | value/definitions.go:32-36 | abs with no argument panics |
| MainEvaluator.Ty.ToString | evaluator.go:44-62 | the two types print "number" and "function" |
| MainEvaluator.EqIsEquality | evaluator.go:50-62 | Eq holds exactly between equal types, and the names tell types apart |
| MainEvaluator.Builtin.Args | evaluator.go:113-151 | add and mul declare two number arguments, neg and abs one |
| MainEvaluator.Value.Type | evaluator.go:96-111 | a value has type number exactly when it is a number |
| MainEvaluator.BuiltinsPrintArity | evaluator.go:105-107 | builtins print "builtin/2" or "builtin/1" |
| MainEvaluator.MismatchFrom | evaluator.go:74-80 | the report of the loop from position i on: the first position whose argument has another type than declared, or none |
| MainEvaluator.Check | evaluator.go:69-81 | validTypes: a count mismatch first, then the first type mismatch, none when both agree |
| MainEvaluator.ValidTypes | evaluator.go:69-81 | the loop reports the same as the specification Check |
| MainEvaluator.MismatchFromNone | evaluator.go:74-80 | no report from position i exactly when every later argument has its declared type |
| MainEvaluator.CheckPassesIff | evaluator.go:69-81 | validTypes passes exactly when the counts agree and every argument has its declared type |
| MainEvaluator.MismatchFromFirst | evaluator.go:74-79 | a report from i names the first mismatching position at or after i |
| MainEvaluator.CheckReportsFirstMismatch | evaluator.go:74-79 | with equal counts, the report names the first argument of the wrong type |
| MainEvaluator.ApplyBuiltin | evaluator.go:113-151 | builtins called with checked arguments return numbers: add the sum, mul the product, neg the negation, abs a non-negative magnitude |
| MainEvaluator.BinaryBuiltinsCommute | evaluator.go:114-132 | add and mul accept both orders and give the same result |
| MainEvaluator.Value.Stringify | evaluator.go:92-107 | a number prints through the formatting routine, a builtin prints "builtin/" and its arity |
| MainEvaluator.Seeds | evaluator.go:28-37 | the four names newEnvironment binds, each to its builtin |
| MainEvaluator.Environment.constructor | evaluator.go:28-37 | newEnvironment binds exactly "*", "+", "abs" and "neg" to the builtins |
| MainEvaluator.Environment.Has | evaluator.go:15-18 | has holds exactly when the name is bound |
| MainEvaluator.Environment.Get | evaluator.go:15-22 | a value is found exactly when the name is bound, and it is the bound one |
| MainEvaluator.Environment.Set | evaluator.go:24-26 | the name is then bound to the value; other names are unchanged |
| MainEvaluator.Callee | evaluator.go:166-172 | a name calls exactly when it is bound to a builtin |
| MainEvaluator.Call | evaluator.go:183-187 | a call succeeds exactly when the type check passes, and otherwise fails with the check's message |
| MainEvaluator.Evaluate | evaluator.go:153-231 | the older evaluator's tree walk: numbers, identifiers ("is not defined" otherwise), groups, calls of bound builtins with checked arguments, and "=" assignment; Eval is proved equal to it |
| MainEvaluator.EvaluateArgs | evaluator.go:174-181 | a successful argument walk yields one value per argument |
| MainEvaluator.Eval | evaluator.go:153-231 | eval gives the specified result and values map |
| MainEvaluator.KeysOnlyGrow | evaluator.go:153-231 | evaluation never unbinds a name, whether or not it succeeds |
| MainEvaluator.ArgsKeysOnlyGrow | evaluator.go:174-181 | the same for an argument walk |
| MainEvaluator.CallsYieldNumbers | evaluator.go:165-187 | a successful application named a builtin and yields a number |
| MainEvaluator.RebindingABuiltin | evaluator.go:189-204 | "abs = 1" overwrites the builtin, after which "abs 2" fails with "abs is not a function" |
| MainEvaluator.NegativeFive | evaluator.go:134-150 | "neg 5" yields -5 and "abs neg 5" yields 5 |
| MainEvaluator.PositionZeroMessage | evaluator.go:76-77 | the mismatch message for position 0 reads "expected number in position 0 but got a function instead" |
| MainEvaluator.FunctionWhereNumberExpected | evaluator.go:183-185 | "neg abs" fails with that message |

## Left out

- Number arithmetic is on exact reals. In Go, every handler result comes from `big.NewFloat(0)`, whose precision is 53 bits, so `Add`, `Mul`, `Neg` and `Abs` all round to 53 bits. Literals come from `big.ParseFloat` with precision 0, which gives 64-bit values. The model has no rounding. Number formatting (`String()`, `Text('g', -1)`) and `big.ParseFloat` are parameters, so the "long number" test lines (parser/parser_test.go:16, parser_test.go:12) are not proved.
- Values.NegOf: exact negation; Go rounds the result to 53 bits, which changes a 64-bit literal that does not fit in 53 bits.
- Values.AbsOf: exact magnitude; the same 53-bit rounding is not modelled.
- Values.AddOf: exact sum; Go rounds it to 53 bits.
- Values.MulOf: exact product; Go rounds it to 53 bits.
- MainEvaluator.ApplyBuiltin: add, mul, neg and abs are exact; the older evaluator's `big.NewFloat(0)` rounding to 53 bits is not modelled.
- `unicode.IsNumber` is a parameter of the lexer.
- The `sync.Mutex` held by `Parse` is left out: it is concurrency, and `Parse` is modelled as resetting the tokens and cursor.
- The padding width in `Arr.Stringify`, computed through `Float64()` and `strconv`, is left out because it is floating point. Only the cell order and the line-break entries are modelled.
- Syntax.Stringify: requires `Printable`. The parser does build an `Op` or `App` with a nil child (for example from "1 + )" or "abs )"), and printing such a tree makes Go call a method on a nil interface, which panics. The model does not represent that panic; it only prints trees without such children.
- repl/repl.go, repl.go and main.go are line I/O. They are not part of this model, and neither is the `_` auto-binding they do.
- The builtins `set`, `range_`, `access`, `g_take`, `until`, `g_until` and `len_` have no body here. They are `Native(name)` handlers whose behaviour is a parameter of the evaluators, and their presence as table keys is modelled. The arity of `until`, `g_until` and `len_` is taken as 1.
- Generator values (`Gen`) are an opaque identifier; the generator protocol is not part of this model.
- Builtin handlers receive the environment in Go. The model gives them only their arguments, because none of the known handlers reads or writes it.
- The commented-out `fold` in value/evaluator/eval.go is left out.
- `Op` has an `Impl` table in value/value.go and an `Apply` closure in definitions.go and the evaluators. The model's `Op` carries one handler (`apply`), and `Values.Dispatch` models the `Impl` table as a map given to it.
- Legacy.Parser.Expr: requires that the cursor is not past the end. In the older parser only `parse`, which checks this first, calls `expr`.
- value/eval.go imports parser, and parser imports value, so the Go packages form an import cycle. The model does not depend on this.
- With `NewEnvironment`, "=" is not an operator the packaged parser knows. value/eval.go's assignment is therefore modelled on the expression tree alone, and the evaluation examples build their trees directly.
