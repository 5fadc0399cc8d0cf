/** Small shared helpers: an optional value, the minimum/maximum of two reals, monotonicity of products. */
module Base {

  datatype Option<T> = None | Some(value: T)

  /** Python's min(a, b) on numbers. */
  function Min(a: real, b: real): (r: real)
    ensures r <= a && r <= b
    ensures r == a || r == b
  {
    if a <= b then a else b
  }

  /** Python's max(a, b) on numbers. */
  function Max(a: real, b: real): (r: real)
    ensures r >= a && r >= b
    ensures r == a || r == b
  {
    if a >= b then a else b
  }

  lemma MulMono(a: real, b: real, c: real)
    requires a <= b && c > 0.0
    ensures a * c <= b * c
  {
  }

  lemma MulStrict(a: real, b: real, c: real)
    requires a < b && c > 0.0
    ensures a * c < b * c
  {
  }

  lemma MulBelow(a: real, b: real, c: real, t: real)
    requires a <= b && c > 0.0 && b * c < t
    ensures a * c < t
  {
    MulMono(a, b, c);
  }
}
