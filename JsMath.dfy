/**
 * The numeric environment the path code runs in: JavaScript's `Math`
 * functions and its division, over unbounded reals.
 *
 * The transcendental functions and the division are not given real values:
 * a `MathLib` is a record of functions that callers pass in, and `Lawful`
 * lists the only facts the model relies on. A division by zero, which yields
 * an infinity or NaN in JavaScript, has no specified value here.
 */
module JsMath {

  datatype Option<T> = None | Some(value: T)

  /** `Math.PI`, the double nearest to pi. */
  const Pi: real := 3.141592653589793

  datatype MathLib = MathLib(
    sqrt: real -> real,
    sin: real -> real,
    cos: real -> real,
    acos: real -> real,
    atan2: (real, real) -> real,
    div: (real, real) -> real)

  /** The laws of the math library that the proofs use. */
  ghost predicate Lawful(lib: MathLib) {
    && (forall x :: 0.0 <= x ==> 0.0 <= lib.sqrt(x) && lib.sqrt(x) * lib.sqrt(x) == x)
    && (forall x :: -1.0 <= x <= 1.0 ==> 0.0 <= lib.acos(x) <= Pi)
    && (forall x, y :: y != 0.0 ==> lib.div(x, y) * y == x)
    && lib.sqrt(0.0) == 0.0
    && lib.sqrt(1.0) == 1.0
    && lib.sin(0.0) == 0.0
    && lib.cos(0.0) == 1.0
    && lib.acos(-1.0) == Pi
    && lib.atan2(0.0, 1.0) == 0.0
  }

  /** The square root of a positive number is positive. */
  lemma SqrtPositive(lib: MathLib, x: real)
    ensures Lawful(lib) && 0.0 < x ==> 0.0 < lib.sqrt(x)
  {
    if Lawful(lib) && 0.0 < x {
      assert lib.sqrt(x) * lib.sqrt(x) == x;
    }
  }

  lemma ZeroProduct(x: real, y: real)
    requires x * y == 0.0 && y != 0.0
    ensures x == 0.0
  {
  }

  /** The square root of `s * s` is `s`, for `s >= 0`. */
  lemma SqrtOfSquare(lib: MathLib, s: real, q: real)
    requires Lawful(lib) && 0.0 <= s && q == s * s
    ensures lib.sqrt(q) == s
  {
    var r := lib.sqrt(q);
    assert 0.0 <= r && r * r == q;
    assert (r - s) * (r + s) == r * r - s * s;
    if r + s != 0.0 {
      ZeroProduct(r - s, r + s);
    }
  }

  /** A division by a non-zero number undone: `x / s` is 1 when `x` is `s`. */
  lemma DivSelf(lib: MathLib, x: real, s: real)
    requires Lawful(lib) && s != 0.0 && x == s
    ensures lib.div(x, s) == 1.0
  {
    var t := lib.div(x, s);
    assert t * s == s;
    assert (t - 1.0) * s == 0.0;
  }

  /** Zero divided by a non-zero number is zero. */
  lemma DivZero(lib: MathLib, z: real, s: real)
    requires Lawful(lib) && s != 0.0 && z == 0.0
    ensures lib.div(z, s) == 0.0
  {
    assert lib.div(z, s) * s == 0.0;
  }
}
