/**
 * The calculator's own evaluator (evaluator.go): one table maps every name,
 * operators and functions included, to a value; builtins declare the types
 * of their arguments, and those are checked before a builtin runs.
 */
module MainEvaluator {
  import opened Wrappers
  import opened Outcomes
  import opened Syntax
  import opened Text

  /** The two runtime types; each is equal only to itself. */
  datatype Ty = TyNumber | TyFunction
  {
    function ToString(): (r: string)
      ensures r == "number" || r == "function"
      ensures (r == "number") == (this == TyNumber)
    {
      match this
      case TyNumber => "number"
      case TyFunction => "function"
    }

    predicate Eq(other: Ty)
    {
      match this
      case TyNumber => other == TyNumber
      case TyFunction => other == TyFunction
    }
  }

  lemma EqIsEquality(t: Ty, u: Ty)
    ensures t.Eq(u) <==> t == u
    ensures t.ToString() == u.ToString() <==> t == u
  {
  }

  /** The four builtins of newEnvironment. */
  datatype Builtin = BuiltinAdd | BuiltinMul | BuiltinNeg | BuiltinAbs
  {
    /** The argument types each builtin declares. */
    function Args(): (r: seq<Ty>)
      ensures forall i :: 0 <= i < |r| ==> r[i] == TyNumber
      ensures |r| == (if this == BuiltinAdd || this == BuiltinMul then 2 else 1)
    {
      match this
      case BuiltinAdd => [TyNumber, TyNumber]
      case BuiltinMul => [TyNumber, TyNumber]
      case BuiltinNeg => [TyNumber]
      case BuiltinAbs => [TyNumber]
    }
  }

  datatype Value = NumberValue(n: real) | BuiltinFuncValue(fn: Builtin)
  {
    function Type(): (t: Ty)
      ensures t == TyNumber <==> NumberValue?
    {
      if NumberValue? then TyNumber else TyFunction
    }

    /** Numbers print through the formatting routine `text`; a builtin prints its arity. */
    function Stringify(text: real -> string): string
    {
      match this
      case NumberValue(n) => text(n)
      case BuiltinFuncValue(fn) => "builtin/" + IntToString(|fn.Args()|)
    }
  }

  lemma BuiltinsPrintArity(text: real -> string)
    ensures BuiltinFuncValue(BuiltinAdd).Stringify(text) == "builtin/2"
    ensures BuiltinFuncValue(BuiltinMul).Stringify(text) == "builtin/2"
    ensures BuiltinFuncValue(BuiltinNeg).Stringify(text) == "builtin/1"
    ensures BuiltinFuncValue(BuiltinAbs).Stringify(text) == "builtin/1"
  {
    assert IntToString(1) == "1" && IntToString(2) == "2";
  }

  // ---------------------------------------------------------------------
  // Argument checking

  function ArityMessage(expected: int, got: int): string
  {
    "expected " + IntToString(expected) + " arguments but got " + IntToString(got)
  }

  function PositionMessage(t: Ty, i: int, got: Ty): string
  {
    "expected " + t.ToString() + " in position " + IntToString(i) + " but got a " + got.ToString() + " instead"
  }

  /** What validTypes reports from position i on, once the counts agree. */
  function MismatchFrom(expected: seq<Ty>, args: seq<Value>, i: nat): Option<string>
    requires |expected| == |args|
    decreases |expected| - i
  {
    if i >= |expected| then None
    else if !expected[i].Eq(args[i].Type()) then Some(PositionMessage(expected[i], i, args[i].Type()))
    else MismatchFrom(expected, args, i + 1)
  }

  /** validTypes: the count first, then the first position whose type differs; None is Go's nil error. */
  function Check(expected: seq<Ty>, args: seq<Value>): Option<string>
  {
    if |expected| != |args| then Some(ArityMessage(|expected|, |args|))
    else MismatchFrom(expected, args, 0)
  }

  method ValidTypes(expected: seq<Ty>, args: seq<Value>) returns (err: Option<string>)
    ensures err == Check(expected, args)
  {
    if |expected| != |args| {
      return Some(ArityMessage(|expected|, |args|));
    }
    for i := 0 to |expected|
      invariant Check(expected, args) == MismatchFrom(expected, args, i)
    {
      var t := expected[i];
      if !t.Eq(args[i].Type()) {
        return Some(PositionMessage(t, i, args[i].Type()));
      }
    }
    return None;
  }

  lemma {:induction false} MismatchFromNone(expected: seq<Ty>, args: seq<Value>, i: nat)
    requires |expected| == |args|
    ensures MismatchFrom(expected, args, i).None?
            <==> forall j :: i <= j < |args| ==> args[j].Type() == expected[j]
    decreases |expected| - i
  {
    if i < |expected| {
      MismatchFromNone(expected, args, i + 1);
    }
  }

  /** The check passes exactly when the counts agree and every argument has its declared type. */
  lemma CheckPassesIff(expected: seq<Ty>, args: seq<Value>)
    ensures Check(expected, args).None?
            <==> |expected| == |args| && forall j :: 0 <= j < |args| ==> args[j].Type() == expected[j]
  {
    if |expected| == |args| {
      MismatchFromNone(expected, args, 0);
    }
  }

  /** Position k is the first whose argument does not have its declared type, and m reports it. */
  predicate FirstMismatchAt(expected: seq<Ty>, args: seq<Value>, k: int, m: string)
  {
    && |expected| == |args|
    && 0 <= k < |args|
    && args[k].Type() != expected[k]
    && (forall j :: 0 <= j < k ==> args[j].Type() == expected[j])
    && m == PositionMessage(expected[k], k, args[k].Type())
  }

  lemma {:induction false} MismatchFromFirst(expected: seq<Ty>, args: seq<Value>, i: nat, m: string)
    requires |expected| == |args| && i <= |args|
    requires forall j :: 0 <= j < i ==> args[j].Type() == expected[j]
    requires MismatchFrom(expected, args, i) == Some(m)
    ensures exists k :: i <= k && FirstMismatchAt(expected, args, k, m)
    decreases |expected| - i
  {
    if expected[i].Eq(args[i].Type()) {
      MismatchFromFirst(expected, args, i + 1, m);
    } else {
      assert FirstMismatchAt(expected, args, i, m);
    }
  }

  /** With the right count, the message names the first position whose type is wrong. */
  lemma CheckReportsFirstMismatch(expected: seq<Ty>, args: seq<Value>, m: string)
    requires |expected| == |args| && Check(expected, args) == Some(m)
    ensures exists k :: FirstMismatchAt(expected, args, k, m)
  {
    MismatchFromFirst(expected, args, 0, m);
  }

  /**
   * A builtin's body, entered only after its arguments passed the check, so
   * its type assertions to numbers always hold.
   */
  function ApplyBuiltin(fn: Builtin, args: seq<Value>): (r: Value)
    requires Check(fn.Args(), args).None?
    ensures r.Type() == TyNumber
    ensures (fn == BuiltinAdd || fn == BuiltinMul) ==> |args| >= 2 && args[0].NumberValue? && args[1].NumberValue?
    ensures fn == BuiltinAdd ==> r.n == args[0].n + args[1].n
    ensures fn == BuiltinMul ==> r.n == args[0].n * args[1].n
    ensures fn == BuiltinNeg ==> r.n + args[0].n == 0.0
    ensures fn == BuiltinAbs ==> r.n >= 0.0 && (r.n == args[0].n || r.n == -args[0].n)
  {
    CheckPassesIff(fn.Args(), args);
    match fn
    case BuiltinAdd => NumberValue(args[0].n + args[1].n)
    case BuiltinMul => NumberValue(args[0].n * args[1].n)
    case BuiltinNeg => NumberValue(-args[0].n)
    case BuiltinAbs => NumberValue(if args[0].n < 0.0 then -args[0].n else args[0].n)
  }

  /** Addition and multiplication do not depend on the order of their operands. */
  lemma BinaryBuiltinsCommute(fn: Builtin, x: real, y: real)
    requires fn == BuiltinAdd || fn == BuiltinMul
    ensures Check(fn.Args(), [NumberValue(x), NumberValue(y)]).None?
    ensures Check(fn.Args(), [NumberValue(y), NumberValue(x)]).None?
    ensures ApplyBuiltin(fn, [NumberValue(x), NumberValue(y)]) == ApplyBuiltin(fn, [NumberValue(y), NumberValue(x)])
  {
    CheckPassesIff(fn.Args(), [NumberValue(x), NumberValue(y)]);
    CheckPassesIff(fn.Args(), [NumberValue(y), NumberValue(x)]);
  }

  // ---------------------------------------------------------------------
  // The value table

  function Seeds(): map<string, Value>
  {
    map[
      "*" := BuiltinFuncValue(BuiltinMul),
      "+" := BuiltinFuncValue(BuiltinAdd),
      "abs" := BuiltinFuncValue(BuiltinAbs),
      "neg" := BuiltinFuncValue(BuiltinNeg)
    ]
  }

  class Environment {
    var values: map<string, Value>

    /** newEnvironment: the four builtins and nothing else. */
    constructor ()
      ensures values == Seeds()
    {
      values := Seeds();
    }

    predicate Has(id: string)
      reads this
    {
      id in values
    }

    /** get: the bound value, or none (Go's nil) for a name that is not bound. */
    function Get(id: string): (r: Option<Value>)
      reads this
      ensures r.Some? <==> Has(id)
      ensures r.Some? ==> r.value == values[id]
    {
      if id in values then Some(values[id]) else None
    }

    method Set(id: string, v: Value)
      modifies this
      ensures values == old(values)[id := v]
      ensures Has(id) && Get(id) == Some(v)
      ensures forall k :: k != id ==> Get(k) == old(Get(k))
    {
      values := values[id := v];
    }
  }

  // ---------------------------------------------------------------------
  // Evaluation

  /** A result together with the value table after the walk. */
  type Walk<T> = Outcome<T, string, Value>

  /** The callable bound to a name, or the error for a name that is unbound or bound to a number. */
  function Callee(vals: map<string, Value>, name: string): (r: Result<Builtin, string>)
    ensures r.Ok? <==> name in vals && vals[name].BuiltinFuncValue?
  {
    if name !in vals then Fail(name + " is not defined")
    else if !vals[name].BuiltinFuncValue? then Fail(name + " is not a function")
    else Ok(vals[name].fn)
  }

  /** Checks the arguments against the builtin's declared types, then runs it. */
  function Call(fn: Builtin, args: seq<Value>): (r: Result<Value, string>)
    ensures r.Ok? <==> Check(fn.Args(), args).None?
    ensures r.Fail? ==> Check(fn.Args(), args) == Some(r.error)
  {
    var err := Check(fn.Args(), args);
    if err.Some? then Fail(err.value) else Ok(ApplyBuiltin(fn, args))
  }

  function Evaluate(vals: map<string, Value>, e: Expr): (o: Walk<Value>)
    decreases e, 1
  {
    match e
    case Num(v) => Outcome(Ok(NumberValue(v)), vals)
    case Id(x) =>
      if x !in vals then Outcome(Fail(x + " is not defined"), vals) else Outcome(Ok(vals[x]), vals)
    case Group(sub) => Evaluate(vals, sub)
    case App(f, args) =>
      var callee := Callee(vals, f);
      if callee.Fail? then Outcome(Fail(callee.error), vals)
      else
        var a := EvaluateArgs(vals, args);
        if a.result.Fail? then Outcome(Fail(a.result.error), a.vals)
        else Outcome(Call(callee.value, a.result.value), a.vals)
    case Op(o, lhs, rhs) =>
      if o == "=" then
        if !lhs.Id? then Outcome(Fail("invalid identifier"), vals)
        else
          var r := Evaluate(vals, rhs);
          if r.result.Fail? then r
          else Outcome(r.result, r.vals[lhs.name := r.result.value])
      else
        var callee := Callee(vals, o);
        if callee.Fail? then Outcome(Fail(callee.error), vals)
        else
          var l := Evaluate(vals, lhs);
          if l.result.Fail? then l
          else
            var r := Evaluate(l.vals, rhs);
            if r.result.Fail? then r
            else Outcome(Call(callee.value, [l.result.value, r.result.value]), r.vals)
    case _ => Outcome(Fail("bad expression"), vals)
  }

  function EvaluateArgs(vals: map<string, Value>, args: seq<Expr>): (o: Walk<seq<Value>>)
    ensures o.result.Ok? ==> |o.result.value| == |args|
    decreases args, 0
  {
    if args == [] then Outcome(Ok([]), vals)
    else
      var a := Evaluate(vals, args[0]);
      if a.result.Fail? then Outcome(Fail(a.result.error), a.vals)
      else
        var rest := EvaluateArgs(a.vals, args[1..]);
        if rest.result.Fail? then rest
        else Outcome(Ok([a.result.value] + rest.result.value), rest.vals)
  }

  method Eval(env: Environment, e: Expr) returns (r: Result<Value, string>)
    modifies env
    ensures Outcome(r, env.values) == Evaluate(old(env.values), e)
    decreases e
  {
    match e
    case Num(v) =>
      r := Ok(NumberValue(v));
    case Id(x) =>
      if !env.Has(x) {
        return Fail(x + " is not defined");
      }
      r := Ok(env.Get(x).value);
    case Group(sub) =>
      r := Eval(env, sub);
    case App(f, args) =>
      if !env.Has(f) {
        return Fail(f + " is not defined");
      }
      var callee := env.Get(f).value;
      if !callee.BuiltinFuncValue? {
        return Fail(f + " is not a function");
      }
      var fn := callee.fn;
      ghost var v0 := env.values;
      var vs: seq<Value> := [];
      PrependValuesNil(EvaluateArgs(v0, args));
      for i := 0 to |args|
        invariant EvaluateArgs(v0, args) == PrependValues(vs, EvaluateArgs(env.values, args[i..]))
      {
        ghost var before := env.values;
        var v := Eval(env, args[i]);
        assert args[i..][0] == args[i] && args[i..][1..] == args[i + 1..];
        if v.Fail? {
          assert EvaluateArgs(before, args[i..]) == Outcome(Fail(v.error), env.values);
          return Fail(v.error);
        }
        PrependValuesAssoc(vs, [v.value], EvaluateArgs(env.values, args[i + 1..]));
        vs := vs + [v.value];
      }
      assert args[|args|..] == [] && vs + [] == vs;
      var err := ValidTypes(fn.Args(), vs);
      if err.Some? {
        return Fail(err.value);
      }
      r := Ok(ApplyBuiltin(fn, vs));
    case Op(o, lhs, rhs) =>
      if o == "=" {
        if !lhs.Id? {
          return Fail("invalid identifier");
        }
        r := Eval(env, rhs);
        if r.Fail? {
          return;
        }
        env.Set(lhs.name, r.value);
        return;
      }
      if !env.Has(o) {
        return Fail(o + " is not defined");
      }
      var callee := env.Get(o).value;
      if !callee.BuiltinFuncValue? {
        return Fail(o + " is not a function");
      }
      var l := Eval(env, lhs);
      if l.Fail? {
        return l;
      }
      var rv := Eval(env, rhs);
      if rv.Fail? {
        return rv;
      }
      var err := ValidTypes(callee.fn.Args(), [l.value, rv.value]);
      if err.Some? {
        return Fail(err.value);
      }
      r := Ok(ApplyBuiltin(callee.fn, [l.value, rv.value]));
    case Nil =>
      r := Fail("bad expression");
    case Arr(_) =>
      r := Fail("bad expression");
  }

  // ---------------------------------------------------------------------
  // Properties

  /** Evaluation never unbinds a name, whether or not it succeeds. */
  lemma {:induction false} KeysOnlyGrow(vals: map<string, Value>, e: Expr)
    ensures vals.Keys <= Evaluate(vals, e).vals.Keys
    decreases e, 1
  {
    match e
    case Group(sub) => KeysOnlyGrow(vals, sub);
    case App(f, args) =>
      if Callee(vals, f).Ok? {
        ArgsKeysOnlyGrow(vals, args);
      }
    case Op(o, lhs, rhs) =>
      if o == "=" {
        KeysOnlyGrow(vals, rhs);
      } else if Callee(vals, o).Ok? {
        KeysOnlyGrow(vals, lhs);
        var l := Evaluate(vals, lhs);
        if l.result.Ok? {
          KeysOnlyGrow(l.vals, rhs);
        }
      }
    case Num(_) =>
    case Id(_) =>
    case Nil =>
    case Arr(_) =>
  }

  lemma {:induction false} ArgsKeysOnlyGrow(vals: map<string, Value>, args: seq<Expr>)
    ensures vals.Keys <= EvaluateArgs(vals, args).vals.Keys
    decreases args, 0
  {
    if args != [] {
      KeysOnlyGrow(vals, args[0]);
      var a := Evaluate(vals, args[0]);
      if a.result.Ok? {
        ArgsKeysOnlyGrow(a.vals, args[1..]);
      }
    }
  }

  /**
   * A successful call never fails inside the builtin: whatever a builtin
   * application yields is a number.
   */
  lemma {:induction false} CallsYieldNumbers(vals: map<string, Value>, f: string, args: seq<Expr>)
    requires Evaluate(vals, App(f, args)).result.Ok?
    ensures Evaluate(vals, App(f, args)).result.value.NumberValue?
    ensures f in vals && vals[f].BuiltinFuncValue?
  {
  }

  /** Names "+", "*", "abs" and "neg" are ordinary bindings: after "abs = 1" the name no longer calls. */
  lemma RebindingABuiltin()
    ensures var o := Evaluate(Seeds(), Expr.Op("=", Id("abs"), Num(1.0)));
      && o == Outcome(Ok(NumberValue(1.0)), Seeds()["abs" := NumberValue(1.0)])
      && Evaluate(o.vals, App("abs", [Num(2.0)])) == Outcome(Fail("abs is not a function"), o.vals)
  {
    assert "abs" + " is not a function" == "abs is not a function";
  }

  lemma NegativeFive()
    ensures Evaluate(Seeds(), App("neg", [Num(5.0)])) == Outcome(Ok(NumberValue(-5.0)), Seeds())
    ensures Evaluate(Seeds(), App("abs", [App("neg", [Num(5.0)])])) == Outcome(Ok(NumberValue(5.0)), Seeds())
  {
  }

  lemma PositionZeroMessage()
    ensures PositionMessage(TyNumber, 0, TyFunction) == "expected number in position 0 but got a function instead"
  {
    assert IntToString(0) == "0";
    assert TyNumber.ToString() == "number" && TyFunction.ToString() == "function";
    assert "expected " + "number" == "expected number";
    assert "expected number" + " in position " == "expected number in position ";
    assert "expected number in position " + "0" == "expected number in position 0";
    assert "expected number in position 0" + " but got a " == "expected number in position 0 but got a ";
    assert "expected number in position 0 but got a " + "function" == "expected number in position 0 but got a function";
    assert "expected number in position 0 but got a function" + " instead"
           == "expected number in position 0 but got a function instead";
  }

  /** A function passed where a number is declared is reported by type and position. */
  lemma FunctionWhereNumberExpected()
    ensures Evaluate(Seeds(), App("neg", [Id("abs")])).result
            == Fail("expected number in position 0 but got a function instead")
  {
    PositionZeroMessage();
    var vals := Seeds();
    var args := [BuiltinFuncValue(BuiltinAbs)];
    assert "abs" in vals && vals["abs"] == args[0];
    assert [Id("abs")][0] == Id("abs") && [Id("abs")][1..] == [];
    assert Evaluate(vals, Id("abs")) == Outcome(Ok(args[0]), vals);
    assert EvaluateArgs(vals, []) == Outcome(Ok([]), vals);
    assert [args[0]] + [] == args;
    assert EvaluateArgs(vals, [Id("abs")]).result == Ok(args);
    assert Callee(vals, "neg") == Ok(BuiltinNeg);
    assert !TyNumber.Eq(args[0].Type());
    assert Check(BuiltinNeg.Args(), args) == Some(PositionMessage(TyNumber, 0, TyFunction));
  }
}
