/** The packaged engine's name tables: operators, functions and values, each updated in place. */
module Environments {
  import opened Wrappers
  import opened Values

  /** The operator table NewEnvironment starts with; ":=" is a placeholder without a handler. */
  function SeedOps(): map<string, Op>
  {
    map[
      "!=" := Op(Native("set")),
      "*" := Op(Mul),
      "+" := Op(Add),
      ".." := Op(Native("range_")),
      "@" := Op(Native("access")),
      "---" := Op(Native("g_take")),
      ":=" := Op(Missing)
    ]
  }

  /** The function table NewEnvironment starts with. */
  function SeedFns(): map<string, Fn>
  {
    map[
      "..." := Fn(1, Native("until")),
      "...$" := Fn(1, Native("g_until")),
      "abs" := Fn(1, Abs),
      "len" := Fn(1, Native("len_")),
      "neg" := Fn(1, Neg)
    ]
  }

  lemma SeedKeys()
    ensures SeedOps().Keys == {"!=", "*", "+", "..", "@", "---", ":="}
    ensures SeedFns().Keys == {"...", "...$", "abs", "len", "neg"}
    ensures SeedOps()[":="].apply.Missing? && SeedOps()["+"].apply == Add && SeedOps()["*"].apply == Mul
    ensures SeedFns()["neg"] == Fn(1, Neg) && SeedFns()["abs"] == Fn(1, Abs)
    ensures "=" !in SeedOps()
  {
  }

  class Environment {
    var ops: map<string, Op>
    var fns: map<string, Fn>
    var val: map<string, Value>

    /** NewEnvironment: the seed operators and functions, and no values. */
    constructor ()
      ensures ops == SeedOps() && fns == SeedFns() && val == map[]
    {
      ops := SeedOps();
      fns := SeedFns();
      val := map[];
    }

    predicate HasOp(id: string)
      reads this
    {
      id in ops
    }

    predicate HasFn(id: string)
      reads this
    {
      id in fns
    }

    predicate HasVal(id: string)
      reads this
    {
      id in val
    }

    /** GetOp: the operator bound to `id`, or none (Go's nil) when there is none. */
    function GetOp(id: string): (r: Option<Op>)
      reads this
      ensures r.Some? <==> HasOp(id)
      ensures r.Some? ==> r.value == ops[id]
    {
      if id in ops then Some(ops[id]) else None
    }

    function GetFn(id: string): (r: Option<Fn>)
      reads this
      ensures r.Some? <==> HasFn(id)
      ensures r.Some? ==> r.value == fns[id]
    {
      if id in fns then Some(fns[id]) else None
    }

    function GetVal(id: string): (r: Option<Value>)
      reads this
      ensures r.Some? <==> HasVal(id)
      ensures r.Some? ==> r.value == val[id]
    {
      if id in val then Some(val[id]) else None
    }

    /** SetVal: binds `id` to `v`; every other binding and the other two tables stay as they were. */
    method SetVal(id: string, v: Value)
      modifies this
      ensures val == old(val)[id := v] && ops == old(ops) && fns == old(fns)
      ensures HasVal(id) && GetVal(id) == Some(v)
      ensures forall k :: k != id ==> GetVal(k) == old(GetVal(k))
      ensures old(val.Keys) <= val.Keys
    {
      val := val[id := v];
    }

    /** SetFn: binds `id` in the function table only. */
    method SetFn(id: string, fn: Fn)
      modifies this
      ensures fns == old(fns)[id := fn] && ops == old(ops) && val == old(val)
      ensures HasFn(id) && GetFn(id) == Some(fn)
      ensures forall k :: k != id ==> GetFn(k) == old(GetFn(k))
      ensures old(fns.Keys) <= fns.Keys
    {
      fns := fns[id := fn];
    }

    /** SetOp: binds `id` in the operator table only. */
    method SetOp(id: string, op: Op)
      modifies this
      ensures ops == old(ops)[id := op] && fns == old(fns) && val == old(val)
      ensures HasOp(id) && GetOp(id) == Some(op)
      ensures forall k :: k != id ==> GetOp(k) == old(GetOp(k))
      ensures old(ops.Keys) <= ops.Keys
    {
      ops := ops[id := op];
    }
  }
}
