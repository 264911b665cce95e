/**
 * What the two evaluators of the packaged engine compute, as functions.
 * Both walk the tree left to right, stop at the first failure, and treat one
 * operator name as assignment: "=" in value/eval.go and ":=" in
 * value/evaluator/eval.go. The value table is threaded through the walk,
 * since an assignment inside one operand is visible to the operands after it.
 */
module Evaluation {
  import opened Wrappers
  import opened Outcomes
  import opened Syntax
  import opened Values

  /** The operator and function tables, which evaluation only reads, and the builtins whose bodies are not part of this model. */
  datatype Context = Context(ops: map<string, Values.Op>, fns: map<string, Fn>, natives: Natives)

  type Bindings = map<string, Value>

  /** A result together with the value table after the walk. */
  type Walk<T> = Outcome<T, Fault, Value>

  function Undefined(name: string): Fault
  {
    Error(name + " is not defined")
  }

  function Evaluate(assign: string, c: Context, vals: Bindings, e: Expr): (o: Walk<Value>)
    decreases e, 1
  {
    match e
    case Num(v) => Outcome(Ok(Values.Num(v)), vals)
    case Id(x) =>
      if x !in vals then Outcome(Fail(Undefined(x)), vals) else Outcome(Ok(vals[x]), vals)
    case Group(sub) => Evaluate(assign, c, vals, sub)
    case App(f, args) =>
      if f !in c.fns then Outcome(Fail(Undefined(f)), vals)
      else
        var a := EvaluateArgs(assign, c, vals, args);
        if a.result.Fail? then Outcome(Fail(a.result.error), a.vals)
        else Outcome(Apply(c.fns[f].apply, a.result.value, c.natives), a.vals)
    case Op(o, lhs, rhs) =>
      if o == assign then Define(assign, c, vals, e)
      else if o !in c.ops then Outcome(Fail(Undefined(o)), vals)
      else
        var l := Evaluate(assign, c, vals, lhs);
        if l.result.Fail? then l
        else
          var r := Evaluate(assign, c, l.vals, rhs);
          if r.result.Fail? then r
          else Outcome(Apply(c.ops[o].apply, [l.result.value, r.result.value], c.natives), r.vals)
    case _ => Outcome(Fail(Error("bad expression")), vals)
  }

  /** The argument loop: each argument in order, in the table the one before it left. */
  function EvaluateArgs(assign: string, c: Context, vals: Bindings, args: seq<Expr>): (o: Walk<seq<Value>>)
    ensures o.result.Ok? ==> |o.result.value| == |args|
    decreases args, 0
  {
    if args == [] then Outcome(Ok([]), vals)
    else
      var a := Evaluate(assign, c, vals, args[0]);
      if a.result.Fail? then Outcome(Fail(a.result.error), a.vals)
      else
        var rest := EvaluateArgs(assign, c, a.vals, args[1..]);
        if rest.result.Fail? then rest
        else Outcome(Ok([a.result.value] + rest.result.value), rest.vals)
  }

  /** Assignment: an identifier on the left, the right side evaluated, then bound. */
  function Define(assign: string, c: Context, vals: Bindings, def: Expr): (o: Walk<Value>)
    requires def.Op?
    decreases def, 0
  {
    if !def.lhs.Id? then Outcome(Fail(Error("invalid identifier")), vals)
    else
      var r := Evaluate(assign, c, vals, def.rhs);
      if r.result.Fail? then r
      else Outcome(r.result, r.vals[def.lhs.name := r.result.value])
  }

  // ---------------------------------------------------------------------
  // Which bindings an evaluation can change

  /** The names an expression assigns to. */
  function Assigned(assign: string, e: Expr): set<string>
    decreases e
  {
    match e
    case Group(sub) => Assigned(assign, sub)
    case App(_, args) => AssignedAll(assign, args)
    case Op(o, lhs, rhs) =>
      (if o == assign && lhs.Id? then {lhs.name} else {}) + Assigned(assign, lhs) + Assigned(assign, rhs)
    case _ => {}
  }

  function AssignedAll(assign: string, args: seq<Expr>): set<string>
    decreases args
  {
    if args == [] then {} else Assigned(assign, args[0]) + AssignedAll(assign, args[1..])
  }

  /**
   * Evaluation never removes a binding and changes only names the expression
   * assigns to, whether or not it succeeds.
   */
  lemma {:induction false} OnlyAssignedChange(assign: string, c: Context, vals: Bindings, e: Expr)
    ensures var o := Evaluate(assign, c, vals, e);
      && vals.Keys <= o.vals.Keys
      && (forall k :: k in vals && k !in Assigned(assign, e) ==> o.vals[k] == vals[k])
      && (forall k :: k in o.vals && k !in vals ==> k in Assigned(assign, e))
    decreases e, 1
  {
    match e
    case Num(_) =>
    case Id(_) =>
    case Group(sub) => OnlyAssignedChange(assign, c, vals, sub);
    case App(f, args) =>
      if f in c.fns {
        ArgsOnlyAssignedChange(assign, c, vals, args);
      }
    case Op(o, lhs, rhs) =>
      if o == assign {
        if lhs.Id? {
          OnlyAssignedChange(assign, c, vals, rhs);
        }
      } else if o in c.ops {
        OnlyAssignedChange(assign, c, vals, lhs);
        var l := Evaluate(assign, c, vals, lhs);
        if l.result.Ok? {
          OnlyAssignedChange(assign, c, l.vals, rhs);
        }
      }
    case Nil =>
    case Arr(_) =>
  }

  lemma {:induction false} ArgsOnlyAssignedChange(assign: string, c: Context, vals: Bindings, args: seq<Expr>)
    ensures var o := EvaluateArgs(assign, c, vals, args);
      && vals.Keys <= o.vals.Keys
      && (forall k :: k in vals && k !in AssignedAll(assign, args) ==> o.vals[k] == vals[k])
      && (forall k :: k in o.vals && k !in vals ==> k in AssignedAll(assign, args))
    decreases args, 0
  {
    if args != [] {
      OnlyAssignedChange(assign, c, vals, args[0]);
      var a := Evaluate(assign, c, vals, args[0]);
      if a.result.Ok? {
        ArgsOnlyAssignedChange(assign, c, a.vals, args[1..]);
      }
    }
  }

  /** An expression that assigns nothing leaves the table as it was, so evaluating it again gives the same outcome. */
  lemma AssignmentFreeIsRepeatable(assign: string, c: Context, vals: Bindings, e: Expr)
    requires Assigned(assign, e) == {}
    ensures Evaluate(assign, c, vals, e).vals == vals
    ensures var o := Evaluate(assign, c, vals, e); Evaluate(assign, c, o.vals, e) == o
  {
    OnlyAssignedChange(assign, c, vals, e);
    var o := Evaluate(assign, c, vals, e);
    assert o.vals.Keys == vals.Keys;
  }

  // ---------------------------------------------------------------------
  // Order of evaluation

  /** Walking the arguments a + b is walking a, then b in the table a left, stopping at a failure in a. */
  lemma {:induction false} ArgsConcat(assign: string, c: Context, vals: Bindings, a: seq<Expr>, b: seq<Expr>)
    ensures var oa := EvaluateArgs(assign, c, vals, a);
      EvaluateArgs(assign, c, vals, a + b)
      == if oa.result.Fail? then Outcome(Fail(oa.result.error), oa.vals)
         else PrependValues(oa.result.value, EvaluateArgs(assign, c, oa.vals, b))
    decreases a
  {
    if a == [] {
      assert a + b == b;
      PrependValuesNil(EvaluateArgs(assign, c, vals, b));
    } else {
      assert (a + b)[0] == a[0] && (a + b)[1..] == a[1..] + b;
      var x := Evaluate(assign, c, vals, a[0]);
      if x.result.Ok? {
        ArgsConcat(assign, c, x.vals, a[1..], b);
        var orest := EvaluateArgs(assign, c, x.vals, a[1..]);
        if orest.result.Ok? {
          PrependValuesAssoc([x.result.value], orest.result.value, EvaluateArgs(assign, c, orest.vals, b));
        }
      }
    }
  }

  /**
   * Argument i is where the walk over args stops: every argument before it
   * succeeds, and argument i fails with the walk's error and table.
   */
  predicate FailsAt(assign: string, c: Context, vals: Bindings, args: seq<Expr>, i: int)
  {
    && 0 <= i < |args|
    && var before := EvaluateArgs(assign, c, vals, args[..i]);
    && before.result.Ok?
    && var failed := Evaluate(assign, c, before.vals, args[i]);
    && var walk := EvaluateArgs(assign, c, vals, args);
    && failed.result.Fail?
    && walk.result.Fail?
    && failed.result.error == walk.result.error
    && failed.vals == walk.vals
  }

  /** A failing argument walk reports the failure of the first argument that fails. */
  lemma {:induction false} FirstFailureWins(assign: string, c: Context, vals: Bindings, args: seq<Expr>)
    requires EvaluateArgs(assign, c, vals, args).result.Fail?
    ensures exists i :: FailsAt(assign, c, vals, args, i)
    decreases args
  {
    var a := Evaluate(assign, c, vals, args[0]);
    assert args[..0] == [];
    if a.result.Fail? {
      assert FailsAt(assign, c, vals, args, 0);
    } else {
      var tail := args[1..];
      FirstFailureWins(assign, c, a.vals, tail);
      var j :| FailsAt(assign, c, a.vals, tail, j);
      assert args[..j + 1] == [args[0]] + tail[..j];
      ArgsConcat(assign, c, vals, [args[0]], tail[..j]);
      assert [args[0]][1..] == [];
      assert args[j + 1] == tail[j];
      assert FailsAt(assign, c, vals, args, j + 1);
    }
  }

  // ---------------------------------------------------------------------
  // Assignment

  /**
   * Assigning to a name evaluates the right side once, binds its value and
   * yields it, so reading the name back gives that value; a failing right
   * side binds nothing; a left side that is not an identifier fails before
   * the right side is evaluated.
   */
  lemma AssignThenRead(assign: string, c: Context, vals: Bindings, x: string, rhs: Expr)
    ensures var r := Evaluate(assign, c, vals, rhs);
      var o := Evaluate(assign, c, vals, Expr.Op(assign, Id(x), rhs));
      && (r.result.Ok? ==> o.result == r.result && o.vals == r.vals[x := r.result.value]
                            && Evaluate(assign, c, o.vals, Id(x)).result == r.result)
      && (r.result.Fail? ==> o == r)
  {
  }

  lemma InvalidTarget(assign: string, c: Context, vals: Bindings, lhs: Expr, rhs: Expr)
    requires !lhs.Id?
    ensures Evaluate(assign, c, vals, Expr.Op(assign, lhs, rhs)) == Outcome(Fail(Error("invalid identifier")), vals)
  {
  }

  /**
   * Any other operator must be known before its operands are looked at;
   * then the left operand is evaluated, the right one in the bindings the
   * left one left behind, and the operator applied to both values, in
   * that order.
   */
  lemma OperatorOrder(assign: string, c: Context, vals: Bindings, o: string, lhs: Expr, rhs: Expr)
    requires o != assign
    ensures o !in c.ops ==> Evaluate(assign, c, vals, Expr.Op(o, lhs, rhs)) == Outcome(Fail(Undefined(o)), vals)
    ensures o in c.ops && Evaluate(assign, c, vals, lhs).result.Fail? ==>
              Evaluate(assign, c, vals, Expr.Op(o, lhs, rhs)) == Evaluate(assign, c, vals, lhs)
    ensures o in c.ops && Evaluate(assign, c, vals, lhs).result.Ok? ==>
              var l := Evaluate(assign, c, vals, lhs);
              var r := Evaluate(assign, c, l.vals, rhs);
              Evaluate(assign, c, vals, Expr.Op(o, lhs, rhs))
              == if r.result.Fail? then r
                 else Outcome(Apply(c.ops[o].apply, [l.result.value, r.result.value], c.natives), r.vals)
  {
    var e := Expr.Op(o, lhs, rhs);
    if o in c.ops {
      var l := Evaluate(assign, c, vals, lhs);
      if l.result.Ok? {
        var r := Evaluate(assign, c, l.vals, rhs);
        assert Evaluate(assign, c, vals, e)
               == if r.result.Fail? then r
                  else Outcome(Apply(c.ops[o].apply, [l.result.value, r.result.value], c.natives), r.vals);
      }
    }
  }

  /**
   * A call must name a known function before any argument is evaluated;
   * the first argument that fails ends the call with its error and the
   * bindings at that point; otherwise the function gets one value per
   * argument, in order.
   */
  lemma ApplicationOrder(assign: string, c: Context, vals: Bindings, f: string, args: seq<Expr>)
    ensures f !in c.fns ==> Evaluate(assign, c, vals, Expr.App(f, args)) == Outcome(Fail(Undefined(f)), vals)
    ensures f in c.fns && EvaluateArgs(assign, c, vals, args).result.Fail? ==>
              var a := EvaluateArgs(assign, c, vals, args);
              Evaluate(assign, c, vals, Expr.App(f, args)) == Outcome(Fail(a.result.error), a.vals)
    ensures f in c.fns && EvaluateArgs(assign, c, vals, args).result.Ok? ==>
              var a := EvaluateArgs(assign, c, vals, args);
              |a.result.value| == |args|
              && Evaluate(assign, c, vals, Expr.App(f, args)) == Outcome(Apply(c.fns[f].apply, a.result.value, c.natives), a.vals)
  {
  }
}
