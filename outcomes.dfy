/**
 * What a tree walk returns in all three evaluators: a result, and the name
 * bindings as the walk left them (the Go evaluators change their
 * environment in place; the model threads the bindings through instead).
 */
module Outcomes {
  import opened Wrappers

  datatype Outcome<T, E, V> = Outcome(result: Result<T, E>, vals: map<string, V>)

  /** Puts values in front of the sequence an argument walk produced. */
  function PrependValues<E, V, W>(vs: seq<W>, o: Outcome<seq<W>, E, V>): (r: Outcome<seq<W>, E, V>)
    ensures r.vals == o.vals && r.result.Ok? == o.result.Ok?
    ensures r.result.Ok? ==> r.result.value == vs + o.result.value
  {
    match o.result
    case Ok(ws) => Outcome(Ok(vs + ws), o.vals)
    case Fail(f) => Outcome(Fail(f), o.vals)
  }

  lemma PrependValuesNil<E, V, W>(o: Outcome<seq<W>, E, V>)
    ensures PrependValues([], o) == o
  {
    if o.result.Ok? {
      assert [] + o.result.value == o.result.value;
    }
  }

  lemma PrependValuesAssoc<E, V, W>(xs: seq<W>, ys: seq<W>, o: Outcome<seq<W>, E, V>)
    ensures PrependValues(xs, PrependValues(ys, o)) == PrependValues(xs + ys, o)
  {
    if o.result.Ok? {
      assert xs + (ys + o.result.value) == (xs + ys) + o.result.value;
    }
  }
}
