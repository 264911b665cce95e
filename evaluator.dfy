/**
 * The evaluator of value/evaluator/eval.go: the same walk as value/eval.go,
 * except that assignment is spelled ":=" and handled by a separate define step.
 */
module Evaluator {
  import opened Wrappers
  import opened Outcomes
  import opened Syntax
  import opened Values
  import Evaluation
  import opened Environments

  /** The name this evaluator treats as assignment. */
  const Assign := ":="

  function ContextOf(ops: map<string, Values.Op>, fns: map<string, Fn>, natives: Natives): Evaluation.Context
  {
    Evaluation.Context(ops, fns, natives)
  }

  /** define: the left side must be an identifier; the right side's value is bound to it and returned. */
  method Define(env: Environment, natives: Natives, def: Expr) returns (r: Result<Value, Fault>)
    requires def.Op?
    modifies env
    ensures env.ops == old(env.ops) && env.fns == old(env.fns)
    ensures Outcome(r, env.val)
            == Evaluation.Define(Assign, ContextOf(old(env.ops), old(env.fns), natives), old(env.val), def)
    decreases def, 0
  {
    if !def.lhs.Id? {
      return Fail(Error("invalid identifier"));
    }
    r := Eval(env, natives, def.rhs);
    if r.Fail? {
      return;
    }
    env.SetVal(def.lhs.name, r.value);
  }

  method Eval(env: Environment, natives: Natives, e: Expr) returns (r: Result<Value, Fault>)
    modifies env
    ensures env.ops == old(env.ops) && env.fns == old(env.fns)
    ensures Outcome(r, env.val)
            == Evaluation.Evaluate(Assign, ContextOf(old(env.ops), old(env.fns), natives), old(env.val), e)
    decreases e, 1
  {
    ghost var c := ContextOf(env.ops, env.fns, natives);
    match e
    case Num(v) =>
      r := Ok(Values.Num(v));
    case Id(x) =>
      if !env.HasVal(x) {
        return Fail(Evaluation.Undefined(x));
      }
      r := Ok(env.GetVal(x).value);
    case Group(sub) =>
      r := Eval(env, natives, sub);
    case App(f, args) =>
      if !env.HasFn(f) {
        return Fail(Evaluation.Undefined(f));
      }
      var fn := env.GetFn(f).value;
      ghost var v0 := env.val;
      var vs: seq<Value> := [];
      PrependValuesNil(Evaluation.EvaluateArgs(Assign, c, v0, args));
      for i := 0 to |args|
        invariant env.ops == c.ops && env.fns == c.fns
        invariant Evaluation.EvaluateArgs(Assign, c, v0, args)
                  == PrependValues(vs, Evaluation.EvaluateArgs(Assign, c, env.val, args[i..]))
      {
        ghost var before := env.val;
        var v := Eval(env, natives, args[i]);
        assert args[i..][0] == args[i] && args[i..][1..] == args[i + 1..];
        if v.Fail? {
          assert Evaluation.EvaluateArgs(Assign, c, before, args[i..]) == Outcome(Fail(v.error), env.val);
          return Fail(v.error);
        }
        PrependValuesAssoc(vs, [v.value], Evaluation.EvaluateArgs(Assign, c, env.val, args[i + 1..]));
        vs := vs + [v.value];
      }
      assert args[|args|..] == [] && vs + [] == vs;
      r := Apply(fn.apply, vs, natives);
    case Op(o, lhs, rhs) =>
      if o == Assign {
        r := Define(env, natives, e);
      } else {
        if !env.HasOp(o) {
          return Fail(Evaluation.Undefined(o));
        }
        var op := env.GetOp(o).value;
        var l := Eval(env, natives, lhs);
        if l.Fail? {
          return l;
        }
        var rv := Eval(env, natives, rhs);
        if rv.Fail? {
          return rv;
        }
        r := Apply(op.apply, [l.value, rv.value], natives);
      }
    case Nil =>
      r := Fail(Error("bad expression"));
    case Arr(_) =>
      r := Fail(Error("bad expression"));
  }
}
