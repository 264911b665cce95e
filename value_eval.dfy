/**
 * The evaluator of value/eval.go: it walks a tree against an Environment,
 * binding names with "=" and changing nothing but the value table.
 */
module ValueEval {
  import opened Wrappers
  import opened Outcomes
  import opened Syntax
  import opened Values
  import opened Evaluation
  import opened Environments

  /** The name this evaluator treats as assignment. */
  const Assign := "="

  method Eval(env: Environment, natives: Natives, e: Expr) returns (r: Result<Value, Fault>)
    modifies env
    ensures env.ops == old(env.ops) && env.fns == old(env.fns)
    ensures Outcome(r, env.val) == Evaluate(Assign, Context(old(env.ops), old(env.fns), natives), old(env.val), e)
    decreases e
  {
    ghost var c := Context(env.ops, env.fns, natives);
    match e
    case Num(v) =>
      r := Ok(Values.Num(v));
    case Id(x) =>
      if !env.HasVal(x) {
        return Fail(Undefined(x));
      }
      r := Ok(env.GetVal(x).value);
    case Group(sub) =>
      r := Eval(env, natives, sub);
    case App(f, args) =>
      if !env.HasFn(f) {
        return Fail(Undefined(f));
      }
      var fn := env.GetFn(f).value;
      ghost var v0 := env.val;
      var vs: seq<Value> := [];
      PrependValuesNil(EvaluateArgs(Assign, c, v0, args));
      for i := 0 to |args|
        invariant env.ops == c.ops && env.fns == c.fns
        invariant EvaluateArgs(Assign, c, v0, args) == PrependValues(vs, EvaluateArgs(Assign, c, env.val, args[i..]))
      {
        ghost var before := env.val;
        var v := Eval(env, natives, args[i]);
        assert args[i..][0] == args[i] && args[i..][1..] == args[i + 1..];
        if v.Fail? {
          assert EvaluateArgs(Assign, c, before, args[i..]) == Outcome(Fail(v.error), env.val);
          return Fail(v.error);
        }
        PrependValuesAssoc(vs, [v.value], EvaluateArgs(Assign, c, env.val, args[i + 1..]));
        vs := vs + [v.value];
      }
      assert args[|args|..] == [] && vs + [] == vs;
      r := Apply(fn.apply, vs, natives);
    case Op(o, lhs, rhs) =>
      if o == Assign {
        if !lhs.Id? {
          return Fail(Error("invalid identifier"));
        }
        r := Eval(env, natives, rhs);
        if r.Fail? {
          return;
        }
        env.SetVal(lhs.name, r.value);
      } else {
        if !env.HasOp(o) {
          return Fail(Undefined(o));
        }
        var op := env.GetOp(o).value;
        var l := Eval(env, natives, lhs);
        if l.Fail? {
          return l;
        }
        var rv := Eval(env, natives, rhs);
        if rv.Fail? {
          return rv;
        }
        r := Apply(op.apply, [l.value, rv.value], natives);
      }
    case Nil =>
      r := Fail(Error("bad expression"));
    case Arr(_) =>
      r := Fail(Error("bad expression"));
  }
}
