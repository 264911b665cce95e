/** The packaged evaluators started from the tables NewEnvironment builds. */
module EvaluationExamples {
  import opened Wrappers
  import opened Outcomes
  import opened Syntax
  import opened Values
  import opened Evaluation
  import opened Environments

  function SeedContext(natives: Natives): Context
  {
    Context(SeedOps(), SeedFns(), natives)
  }

  /** With ":=" as assignment, "x := 3" binds x and yields 3, and "x + 1" then yields 4. */
  lemma DefineThenAdd(natives: Natives)
    ensures var d := Evaluate(":=", SeedContext(natives), map[], Expr.Op(":=", Id("x"), Expr.Num(3.0)));
      && d == Outcome(Ok(Value.Num(3.0)), map["x" := Value.Num(3.0)])
      && Evaluate(":=", SeedContext(natives), d.vals, Expr.Op("+", Id("x"), Expr.Num(1.0)))
         == Outcome(Ok(Value.Num(4.0)), d.vals)
  {
    SeedKeys();
  }

  lemma NegThenAbs(natives: Natives)
    ensures Evaluate(":=", SeedContext(natives), map[], App("neg", [Expr.Num(5.0)]))
            == Outcome(Ok(Value.Num(-5.0)), map[])
    ensures Evaluate(":=", SeedContext(natives), map[], App("abs", [App("neg", [Expr.Num(5.0)])]))
            == Outcome(Ok(Value.Num(5.0)), map[])
  {
    SeedKeys();
    var c := SeedContext(natives);
    var inner := [Expr.Num(5.0)];
    assert inner[0] == Expr.Num(5.0) && inner[1..] == [];
    assert EvaluateArgs(":=", c, map[], []) == Outcome(Ok([]), map[]);
    assert [Value.Num(5.0)] + [] == [Value.Num(5.0)] && [Value.Num(-5.0)] + [] == [Value.Num(-5.0)];
    assert EvaluateArgs(":=", c, map[], inner) == Outcome(Ok([Value.Num(5.0)]), map[]);
    var outer := [App("neg", inner)];
    assert outer[0] == App("neg", inner) && outer[1..] == [];
    assert Evaluate(":=", c, map[], App("neg", inner)) == Outcome(Ok(Value.Num(-5.0)), map[]);
    assert EvaluateArgs(":=", c, map[], outer) == Outcome(Ok([Value.Num(-5.0)]), map[]);
  }

  /**
   * Under value/eval.go's "=" the seeded ":=" is an ordinary operator whose
   * handler is nil: its operands are evaluated first, so an unbound name is
   * reported, and only a bound one reaches the nil call.
   */
  lemma PlaceholderUnderEquals(natives: Natives)
    ensures Evaluate("=", SeedContext(natives), map[], Expr.Op(":=", Id("x"), Expr.Num(2.0)))
            == Outcome(Fail(Undefined("x")), map[])
    ensures Evaluate("=", SeedContext(natives), map["x" := Value.Num(1.0)], Expr.Op(":=", Id("x"), Expr.Num(2.0))).result
            == Fail(Panic("call of nil function"))
  {
    SeedKeys();
  }

  /** An unknown function is reported before any argument runs, so the argument's assignment never happens. */
  lemma UnknownFunctionSkipsArguments(natives: Natives)
    ensures Evaluate(":=", SeedContext(natives), map[], App("f", [Expr.Op(":=", Id("y"), Expr.Num(1.0))]))
            == Outcome(Fail(Undefined("f")), map[])
  {
    SeedKeys();
  }

  /** A seeded handler called with too few arguments panics rather than returning an error. */
  lemma MissingArgumentPanics(natives: Natives)
    ensures Evaluate(":=", SeedContext(natives), map[], App("abs", [])).result == Fail(Panic("index out of range"))
  {
    SeedKeys();
  }
}
