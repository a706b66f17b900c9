/**
 * The JavaScript numbers that the calculator handles: whole numbers, or NaN when
 * `parseInt`/`parseFloat` found no number. Doubles are modelled by unbounded
 * integers; NaN is absorbing under `+` and every comparison with it is false.
 */
module JsNumber {

  datatype Number = Int(value: int) | NaN

  /** JavaScript `a + b` on numbers. */
  function Add(a: Number, b: Number): (r: Number)
    ensures r.Int? <==> a.Int? && b.Int?
  {
    if a.Int? && b.Int? then Int(a.value + b.value) else NaN
  }

  /** JavaScript `x >= k` for a constant k: false when x is NaN. */
  predicate AtLeast(x: Number, k: int) {
    x.Int? && x.value >= k
  }

  /** JavaScript `x <= k` for a constant k: false when x is NaN. */
  predicate AtMost(x: Number, k: int) {
    x.Int? && x.value <= k
  }

  lemma AddZero(a: Number)
    ensures Add(a, Int(0)) == a && Add(Int(0), a) == a
  {
  }

  lemma AddAssociative(a: Number, b: Number, c: Number)
    ensures Add(Add(a, b), c) == Add(a, Add(b, c))
  {
  }

  lemma AddCommutative(a: Number, b: Number)
    ensures Add(a, b) == Add(b, a)
  {
  }
}
