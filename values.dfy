/**
 * Runtime values of the packaged engine: numbers, arrays, generators,
 * functions and operators, their type tags and signatures, the binary
 * operator dispatch and the four handlers whose bodies are known.
 */
module Values {
  import opened Wrappers
  import opened Text

  /** A failed evaluation: a returned error, or a Go runtime panic (failed type assertion, index out of range, nil call). */
  datatype Fault = Error(message: string) | Panic(reason: string)

  /**
   * The code behind a function or operator. Neg, Abs, Add and Mul are the
   * handlers whose bodies are known; Native names a builtin whose body is not
   * part of this model; Missing is the nil handler of a placeholder operator.
   */
  datatype Handler = Neg | Abs | Add | Mul | Native(name: string) | Missing

  datatype Op = Op(apply: Handler)
  {
    /** Op.Stringify. */
    function ToString(): (s: string)
      ensures s == "op"
    {
      "op"
    }
  }

  datatype Fn = Fn(argc: int, apply: Handler)
  {
    /** Fn.Stringify: "fn/" and the arity in decimal. */
    function ToString(): (s: string)
      ensures |s| > 3 && s[..3] == "fn/" && s[3..] == IntToString(argc)
    {
      "fn/" + IntToString(argc)
    }
  }

  datatype Value = Num(n: real) | Arr(values: seq<real>) | Gen(id: nat) | FnValue(fn: Fn) | OpValue(op: Op)

  /** A builtin whose body is not part of this model, by name. */
  type Natives = (string, seq<Value>) -> Result<Value, Fault>

  // ---------------------------------------------------------------------
  // Type tags

  type Ty = bv8

  const TUnknown: Ty := 1
  const TArr: Ty := 2
  const TNum: Ty := 4
  const TGen: Ty := 8

  /** One of the four declared tags, as opposed to a union of them. */
  predicate Single(t: Ty)
  {
    t == TUnknown || t == TArr || t == TNum || t == TGen
  }

  lemma TagsArePowersOfTwo()
    ensures TUnknown == 1 << 0 && TArr == 1 << 1 && TNum == 1 << 2 && TGen == 1 << 3
    ensures forall t: Ty :: Single(t) ==> t != 0 && t & (t - 1) == 0
  {
  }

  /** ty.String. */
  function TyName(t: Ty): (s: string)
    ensures |s| > 2 && s[0] == '<' && s[|s| - 1] == '>'
    ensures forall i :: 0 <= i < |s| ==> s[i] != '/'
  {
    if t == TArr then "<array>"
    else if t == TNum then "<number>"
    else if t == TGen then "<generator>"
    else "<unknown>"
  }

  /** Distinct single tags have distinct names, and a union of two different tags prints as unknown. */
  lemma TyNameDistinct(a: Ty, b: Ty)
    requires Single(a) && Single(b)
    ensures TyName(a) == TyName(b) <==> a == b
    ensures a != b ==> TyName(a | b) == "<unknown>"
  {
  }

  /** Ty: the tag of a value's dynamic type. */
  function TyOf(v: Value): (t: Ty)
    ensures Single(t)
    ensures t == TArr <==> v.Arr?
    ensures t == TNum <==> v.Num?
    ensures t == TGen <==> v.Gen?
    ensures t == TUnknown <==> v.FnValue? || v.OpValue?
  {
    match v
    case Arr(_) => TArr
    case Num(_) => TNum
    case Gen(_) => TGen
    case _ => TUnknown
  }

  // ---------------------------------------------------------------------
  // Signatures

  function Names(tys: seq<Ty>): (r: seq<string>)
    ensures |r| == |tys| && forall i :: 0 <= i < |tys| ==> r[i] == TyName(tys[i])
  {
    if tys == [] then [] else [TyName(tys[0])] + Names(tys[1..])
  }

  /** sig: the tag names joined with "/" in argument order. */
  function Sig(tys: seq<Ty>): string
  {
    Join(Names(tys), "/")
  }

  /** No part contains the separator character. */
  predicate Clean(parts: seq<string>, c: char)
  {
    forall i, j :: 0 <= i < |parts| && 0 <= j < |parts[i]| ==> parts[i][j] != c
  }

  lemma {:induction false} CountJoin(parts: seq<string>, c: char)
    requires |parts| > 0 && Clean(parts, c)
    ensures Count(Join(parts, [c]), c) == |parts| - 1
  {
    if |parts| == 1 {
      CountAbsent(parts[0], c);
    } else {
      CountAbsent(parts[0], c);
      CountConcat(parts[0] + [c], Join(parts[1..], [c]), c);
      CountConcat(parts[0], [c], c);
      assert Clean(parts[1..], c) by {
        forall i, j | 0 <= i < |parts[1..]| && 0 <= j < |parts[1..][i]| ensures parts[1..][i][j] != c {
          assert parts[1..][i] == parts[i + 1];
        }
      }
      CountJoin(parts[1..], c);
    }
  }

  lemma {:induction false} CountAbsent(s: string, c: char)
    requires forall j :: 0 <= j < |s| ==> s[j] != c
    ensures Count(s, c) == 0
  {
    if s != [] {
      CountAbsent(s[1..], c);
    }
  }

  /** A signature has one component per argument: one separator fewer than arguments. */
  lemma SigComponents(tys: seq<Ty>)
    requires |tys| > 0
    ensures Count(Sig(tys), '/') == |tys| - 1
  {
    CountJoin(Names(tys), '/');
  }

  /** Splitting at the first separator: two joins of clean parts agree only part by part. */
  lemma {:induction false} JoinInjective(p: seq<string>, q: seq<string>, c: char)
    requires |p| > 0 && |q| > 0 && Clean(p, c) && Clean(q, c)
    requires Join(p, [c]) == Join(q, [c])
    ensures p == q
  {
    var s := Join(p, [c]);
    if |p| == 1 && |q| > 1 {
      SeparatorAfterFirst(q, c);
      assert false;
    } else if |p| > 1 && |q| == 1 {
      SeparatorAfterFirst(p, c);
      assert false;
    } else if |p| > 1 && |q| > 1 && |p[0]| < |q[0]| {
      SeparatorAfterFirst(p, c);
      assert false;
    } else if |p| > 1 && |q| > 1 && |p[0]| > |q[0]| {
      SeparatorAfterFirst(q, c);
      assert false;
    } else if |p| > 1 && |q| > 1 {
      var n := |p[0]|;
      assert p[0] == s[..n] == q[0];
      var rp := Join(p[1..], [c]);
      var rq := Join(q[1..], [c]);
      assert rp == s[n + 1..] == rq;
      CleanTail(p, c);
      CleanTail(q, c);
      JoinInjective(p[1..], q[1..], c);
      assert p == [p[0]] + p[1..];
      assert q == [q[0]] + q[1..];
    }
  }

  /** In a join of several parts the first part is followed by the separator. */
  lemma SeparatorAfterFirst(p: seq<string>, c: char)
    requires |p| > 1
    ensures |p[0]| < |Join(p, [c])| && Join(p, [c])[|p[0]|] == c
  {
  }

  lemma CleanTail(p: seq<string>, c: char)
    requires |p| > 0 && Clean(p, c)
    ensures Clean(p[1..], c)
  {
    forall i, j | 0 <= i < |p[1..]| && 0 <= j < |p[1..][i]| ensures p[1..][i][j] != c {
      assert p[1..][i] == p[i + 1];
    }
  }

  /** Signatures of single tags are order-sensitive and determine the tags: equal signatures mean equal argument types. */
  lemma SigDeterminesTypes(a: seq<Ty>, b: seq<Ty>)
    requires |a| > 0 && |b| > 0
    requires forall i :: 0 <= i < |a| ==> Single(a[i])
    requires forall i :: 0 <= i < |b| ==> Single(b[i])
    ensures Sig(a) == Sig(b) <==> a == b
  {
    if Sig(a) == Sig(b) {
      JoinInjective(Names(a), Names(b), '/');
      assert |a| == |b|;
      forall i | 0 <= i < |a| ensures a[i] == b[i] {
        assert Names(a)[i] == Names(b)[i];
        TyNameDistinct(a[i], b[i]);
      }
    }
  }

  // ---------------------------------------------------------------------
  // Handlers

  /** neg: a fresh number, the negation of its argument. */
  function NegOf(vals: seq<Value>): (r: Value)
    requires |vals| >= 1 && vals[0].Num?
    ensures r.Num? && r.n + vals[0].n == 0.0
  {
    Num(-vals[0].n)
  }

  /** abs: a fresh number, the magnitude of its argument. */
  function AbsOf(vals: seq<Value>): (r: Value)
    requires |vals| >= 1 && vals[0].Num?
    ensures r.Num? && r.n >= 0.0 && (r.n == vals[0].n || r.n == -vals[0].n)
  {
    if vals[0].n < 0.0 then Num(-vals[0].n) else Num(vals[0].n)
  }

  /** add: a fresh number, the sum of its two arguments (exact; big.Float rounding is not part of this model). */
  function AddOf(vals: seq<Value>): (r: Value)
    requires |vals| >= 2 && vals[0].Num? && vals[1].Num?
    ensures r.Num? && r.n - vals[1].n == vals[0].n
  {
    Num(vals[0].n + vals[1].n)
  }

  /** mul: a fresh number, the product of its two arguments. */
  function MulOf(vals: seq<Value>): (r: Value)
    requires |vals| >= 2 && vals[0].Num? && vals[1].Num?
    ensures r.Num? && (vals[1].n != 0.0 ==> r.n / vals[1].n == vals[0].n)
    ensures r.Num? && (vals[0].n == 0.0 || vals[1].n == 0.0 <==> r.n == 0.0)
  {
    Num(vals[0].n * vals[1].n)
  }

  lemma HandlerLaws(x: real, y: real)
    ensures NegOf([NegOf([Num(x)])]) == Num(x)
    ensures AbsOf([NegOf([Num(x)])]) == AbsOf([Num(x)])
    ensures AbsOf([AbsOf([Num(x)])]) == AbsOf([Num(x)])
    ensures AddOf([Num(x), Num(y)]) == AddOf([Num(y), Num(x)])
    ensures MulOf([Num(x), Num(y)]) == MulOf([Num(y), Num(x)])
  {
  }

  /** All arguments a handler reads through a type assertion are numbers. */
  predicate NumsUpTo(vals: seq<Value>, n: nat)
  {
    |vals| >= n && forall i :: 0 <= i < n ==> vals[i].Num?
  }

  /** The calls that end in a Go runtime panic. */
  predicate Panics(h: Handler, vals: seq<Value>)
  {
    || h.Missing?
    || ((h.Neg? || h.Abs?) && !NumsUpTo(vals, 1))
    || ((h.Add? || h.Mul?) && !NumsUpTo(vals, 2))
  }

  /**
   * Calling a handler. A known handler reads its arguments through a type
   * assertion to a number, so a missing argument or a non-number panics; the
   * placeholder's nil handler panics; a native builtin is a parameter.
   */
  function Apply(h: Handler, vals: seq<Value>, natives: Natives): (r: Result<Value, Fault>)
    ensures (h.Neg? || h.Abs?) && NumsUpTo(vals, 1) ==> r.Ok? && r.value.Num?
    ensures (h.Add? || h.Mul?) && NumsUpTo(vals, 2) ==> r.Ok? && r.value.Num?
    ensures !h.Native? ==> (r.Fail? <==> Panics(h, vals)) && (r.Fail? ==> r.error.Panic?)
    ensures !h.Native? && !h.Missing? && |vals| >= 1 && !vals[0].Num? ==> r == Fail(Panic("interface conversion"))
  {
    match h
    case Native(name) => natives(name, vals)
    case Missing => Fail(Panic("call of nil function"))
    case Neg =>
      if |vals| < 1 then Fail(Panic("index out of range"))
      else if !vals[0].Num? then Fail(Panic("interface conversion"))
      else Ok(NegOf(vals))
    case Abs =>
      if |vals| < 1 then Fail(Panic("index out of range"))
      else if !vals[0].Num? then Fail(Panic("interface conversion"))
      else Ok(AbsOf(vals))
    case Add =>
      if |vals| < 1 then Fail(Panic("index out of range"))
      else if !vals[0].Num? then Fail(Panic("interface conversion"))
      else if |vals| < 2 then Fail(Panic("index out of range"))
      else if !vals[1].Num? then Fail(Panic("interface conversion"))
      else Ok(AddOf(vals))
    case Mul =>
      if |vals| < 1 then Fail(Panic("index out of range"))
      else if !vals[0].Num? then Fail(Panic("interface conversion"))
      else if |vals| < 2 then Fail(Panic("index out of range"))
      else if !vals[1].Num? then Fail(Panic("interface conversion"))
      else Ok(MulOf(vals))
  }

  // ---------------------------------------------------------------------
  // Binary operator dispatch

  /** The handler an implementation table holds for the union of the two tags. */
  function Lookup(impl: map<Ty, Handler>, a: Value, b: Value): Option<Handler>
  {
    var key := TyOf(a) | TyOf(b);
    if key in impl then Some(impl[key]) else None
  }

  /**
   * Op.Dispatch: the argument count is checked first, then the table is
   * consulted for the union of the two tags, and the handler receives the
   * arguments in their original order.
   */
  function Dispatch(impl: map<Ty, Handler>, vals: seq<Value>, natives: Natives): (r: Result<Value, Fault>)
    ensures |vals| != 2 ==> r == Fail(Error("expecting 2 arguments but got " + IntToString(|vals|)))
    ensures |vals| == 2 && Lookup(impl, vals[0], vals[1]).None? ==>
              r == Fail(Error("operator does not implement " + TyName(TyOf(vals[0])) + "|" + TyName(TyOf(vals[1]))))
    ensures |vals| == 2 && Lookup(impl, vals[0], vals[1]).Some? ==>
              r == Apply(Lookup(impl, vals[0], vals[1]).value, vals, natives)
  {
    if |vals| != 2 then Fail(Error("expecting 2 arguments but got " + IntToString(|vals|)))
    else
      var a1, a2 := vals[0], vals[1];
      var t1, t2 := TyOf(a1), TyOf(a2);
      if t1 | t2 !in impl then Fail(Error("operator does not implement " + TyName(t1) + "|" + TyName(t2)))
      else Apply(impl[t1 | t2], vals, natives)
  }

  /** The key of a pair of single tags identifies the unordered pair. */
  lemma KeyIdentifiesPair(a: Ty, b: Ty, c: Ty, d: Ty)
    requires Single(a) && Single(b) && Single(c) && Single(d)
    ensures a | b == c | d <==> {a, b} == {c, d}
  {
  }

  /** Swapping the arguments selects the same handler; two numbers use the number key TNum. */
  lemma LookupSymmetric(impl: map<Ty, Handler>, a: Value, b: Value)
    ensures Lookup(impl, a, b) == Lookup(impl, b, a)
    ensures a.Num? && b.Num? ==> Lookup(impl, a, b) == (if TNum in impl then Some(impl[TNum]) else None)
  {
  }

  // ---------------------------------------------------------------------
  // Array layout

  /** The cells of an array with a line-break entry after every tenth one. */
  function Wrap(cells: seq<string>): seq<string>
    decreases |cells|
  {
    if |cells| < 10 then cells else cells[..10] + ["\n "] + Wrap(cells[10..])
  }

  lemma {:induction false} WrapSnoc(cells: seq<string>, x: string)
    ensures Wrap(cells + [x]) == Wrap(cells) + [x] + (if (|cells| + 1) % 10 == 0 then ["\n "] else [])
    decreases |cells|
  {
    if |cells| < 9 {
    } else if |cells| == 9 {
      assert (cells + [x])[..10] == cells + [x];
      assert (cells + [x])[10..] == [];
    } else {
      assert (cells + [x])[..10] == cells[..10];
      assert (cells + [x])[10..] == cells[10..] + [x];
      WrapSnoc(cells[10..], x);
    }
  }

  /** The layout has floor(n/10) more entries than there are cells. */
  lemma {:induction false} WrapLength(cells: seq<string>)
    ensures |Wrap(cells)| == |cells| + |cells| / 10
    decreases |cells|
  {
    if |cells| >= 10 {
      WrapLength(cells[10..]);
    }
  }

  /** Cell i sits at position i + i/10 of the layout. */
  lemma {:induction false} WrapCell(cells: seq<string>, i: nat)
    requires i < |cells|
    ensures i + i / 10 < |Wrap(cells)| && Wrap(cells)[i + i / 10] == cells[i]
    decreases i
  {
    WrapLength(cells);
    if i >= 10 {
      var rest := cells[10..];
      WrapCell(rest, i - 10);
      assert Wrap(cells) == (cells[..10] + ["\n "]) + Wrap(rest);
      assert (i - 10) + (i - 10) / 10 + 11 == i + i / 10;
    }
  }

  /** The k-th break entry sits right after the (10k)-th cell. */
  lemma {:induction false} WrapBreak(cells: seq<string>, k: nat)
    requires 1 <= k <= |cells| / 10
    ensures 11 * k - 1 < |Wrap(cells)| && Wrap(cells)[11 * k - 1] == "\n "
    decreases k
  {
    WrapLength(cells);
    var rest := cells[10..];
    assert Wrap(cells) == (cells[..10] + ["\n "]) + Wrap(rest);
    if k > 1 {
      WrapBreak(rest, k - 1);
    }
  }

  /**
   * Where things sit in the layout: floor(n/10) entries more than cells,
   * cell i at position i + i/10, and the k-th break right after the (10k)-th cell.
   */
  lemma WrapPositions(cells: seq<string>)
    ensures |Wrap(cells)| == |cells| + |cells| / 10
    ensures forall i :: 0 <= i < |cells| ==> Wrap(cells)[i + i / 10] == cells[i]
    ensures forall k :: 1 <= k <= |cells| / 10 ==> Wrap(cells)[11 * k - 1] == "\n "
  {
    WrapLength(cells);
    forall i | 0 <= i < |cells| ensures Wrap(cells)[i + i / 10] == cells[i] {
      WrapCell(cells, i);
    }
    forall k | 1 <= k <= |cells| / 10 ensures Wrap(cells)[11 * k - 1] == "\n " {
      WrapBreak(cells, k);
    }
  }

  /** The line-wrapping loop of Arr.Stringify, over cells already formatted to a common width. */
  method Layout(cells: seq<string>) returns (vals: seq<string>)
    ensures vals == Wrap(cells)
  {
    vals := [];
    var i := 0;
    while i < |cells|
      invariant 0 <= i <= |cells|
      invariant vals == Wrap(cells[..i])
    {
      WrapSnoc(cells[..i], cells[i]);
      assert cells[..i + 1] == cells[..i] + [cells[i]];
      vals := vals + [cells[i]];
      if (i + 1) % 10 == 0 {
        vals := vals + ["\n "];
      }
      i := i + 1;
    }
    assert cells[..i] == cells;
  }

  /** Arr.Stringify: the laid-out cells joined with single spaces. */
  function ArrString(cells: seq<string>): string
  {
    Join(Wrap(cells), " ")
  }
}
