// The floating-point operations the engine relies on, taken as parameters.
//
// Nothing is assumed about them: addition need not be associative and zero need
// not be neutral.  A statement proved for an arbitrary `Ops<F>` is therefore a
// statement about *which term is computed*, and holds for every float format and
// every rounding mode.  Instances over the reals are used where rounding is the
// subject (error bounds) or is deliberately absent (integer kernels).
module Num {
  datatype Ops<!F> = Ops(
    zero: F,
    one: F,
    add: (F, F) -> F,
    sub: (F, F) -> F,
    mul: (F, F) -> F,
    div: (F, F) -> F,
    ofInt: int -> F,          // the `as f32` cast of an integer
    half: (bv8, bv8) -> F,    // an f16 given by its two little-endian bytes
    pow: (F, F) -> F,
    cos: F -> F,
    sin: F -> F,
    sqrt: F -> F
  )

  /** A value, or the fact that the source returned an error. */
  datatype Result<+T> = Ok(value: T) | Err

  ghost predicate Associative<F(!new)>(o: Ops<F>) {
    forall a, b, c :: o.add(o.add(a, b), c) == o.add(a, o.add(b, c))
  }

  ghost predicate AddsExactly(o: Ops<real>) {
    o.zero == 0.0 && forall a, b :: o.add(a, b) == a + b
  }

  /** Exact real arithmetic; the f16 decoding and the transcendentals stay unknown. */
  ghost predicate Exact(o: Ops<real>) {
    && AddsExactly(o)
    && o.one == 1.0
    && (forall a, b :: o.sub(a, b) == a - b)
    && (forall a, b :: o.mul(a, b) == a * b)
    && (forall a, b :: b != 0.0 ==> o.div(a, b) == a / b)
    && (forall i :: o.ofInt(i) == i as real)
  }

  lemma ExactAt(o: Ops<real>, a: real, b: real)
    requires Exact(o)
    ensures o.add(a, b) == a + b && o.sub(a, b) == a - b && o.mul(a, b) == a * b
  {
  }

  function Abs(a: real): real {
    if a < 0.0 then -a else a
  }

  lemma TimesMono(a: real, b: real, c: real)
    requires a <= b && 0.0 <= c
    ensures a * c <= b * c
  {
  }

  function Min(a: int, b: int): int {
    if a < b then a else b
  }

  function Max(a: int, b: int): int {
    if a < b then b else a
  }
}
