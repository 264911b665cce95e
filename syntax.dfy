/**
 * The abstract syntax tree of both parser generations and its pretty-printer
 * (Stringify). The packaged parser prints numbers as "(num …)" and
 * identifiers as "(id …)"; the older one as "(number …)" and "(identifier …)".
 */
module Syntax {
  import opened Text

  datatype Expr =
    | Nil                                  // Go's nil Expr: what a unit yields at ')'
    | Num(value: real)
    | Id(name: string)
    | Group(sub: Expr)                     // sub is Nil for an empty group
    | Op(op: string, lhs: Expr, rhs: Expr)
    | App(op: string, args: seq<Expr>)
    | Arr(values: seq<real>)               // only the packaged parser builds these

  /** The labels a generation prints for number and identifier nodes. */
  datatype Style = Style(num: string, id: string)

  const PackagedStyle := Style("num", "id")
  const LegacyStyle := Style("number", "identifier")

  /**
   * Stringify calls a method on every child; on a nil child Go panics. The
   * only nil it tolerates is the sub-expression of a group.
   */
  predicate Printable(e: Expr)
  {
    match e
    case Nil => false
    case Group(s) => s.Nil? || Printable(s)
    case Op(_, l, r) => Printable(l) && Printable(r)
    case App(_, args) => forall i :: 0 <= i < |args| ==> Printable(args[i])
    case _ => true
  }

  /**
   * Stringify(indent). `text` is big.Float's String(): number formatting is
   * not part of this model.
   */
  function Stringify(e: Expr, indent: nat, style: Style, text: real -> string): (s: string)
    requires Printable(e)
    ensures |s| > 1 && s[0] == '(' && s[|s| - 1] == ')'
    decreases e
  {
    var pad := Spaces(indent + 2);
    match e
    case Num(v) => "(" + style.num + " " + text(v) + ")"
    case Id(x) => "(" + style.id + " " + x + ")"
    case Group(s) =>
      if s.Nil? then "(group empty)"
      else "(group\n" + pad + Stringify(s, indent + 2, style, text) + ")"
    case Op(o, l, r) =>
      "(op " + o + "\n" + pad + Stringify(l, indent + 2, style, text)
      + "\n" + pad + Stringify(r, indent + 2, style, text) + ")"
    case App(f, args) =>
      "(app " + f + "\n" + pad + Join(StringifyAll(args, indent + 2, style, text), "\n" + pad) + ")"
    case Arr(vs) =>
      "(array" + "\n" + pad + Join(NumCells(vs, style, text), "\n" + pad) + ")"
  }

  /** The printed arguments of an application, in order. */
  function StringifyAll(args: seq<Expr>, indent: nat, style: Style, text: real -> string): (r: seq<string>)
    requires forall i :: 0 <= i < |args| ==> Printable(args[i])
    ensures |r| == |args|
    decreases args
  {
    if args == [] then []
    else [Stringify(args[0], indent, style, text)] + StringifyAll(args[1..], indent, style, text)
  }

  /** The printed elements of an array literal. */
  function NumCells(vs: seq<real>, style: Style, text: real -> string): (r: seq<string>)
    ensures |r| == |vs|
  {
    if vs == [] then [] else ["(" + style.num + " " + text(vs[0]) + ")"] + NumCells(vs[1..], style, text)
  }
}
