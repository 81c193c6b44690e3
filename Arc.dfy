/**
 * Conversion of an SVG elliptical arc from endpoint form to the centre form
 * stored in an `A` record, as in Appendix F.6.5 (centre from endpoints) and
 * F.6.6 (enlarging radii that cannot span the endpoints) of SVG 1.1.
 */
module Arc {
  import opened JsMath
  import opened CommandBuffer

  datatype Vec = Vec(x: real, y: real)

  /** Euclidean length of a vector. */
  function VMag(lib: MathLib, v: Vec): real {
    lib.sqrt(v.x * v.x + v.y * v.y)
  }

  /** The length is non-negative and squares to the sum of the squared coordinates. */
  lemma VMagSquare(lib: MathLib, v: Vec)
    requires Lawful(lib)
    ensures 0.0 <= VMag(lib, v) && VMag(lib, v) * VMag(lib, v) == v.x * v.x + v.y * v.y
  {
    SquaresNonNegative(v.x, v.y);
  }

  /** Cosine of the angle between two vectors: their dot product over their lengths. */
  function VRatio(lib: MathLib, u: Vec, v: Vec): real {
    lib.div(u.x * v.x + u.y * v.y, VMag(lib, u) * VMag(lib, v))
  }

  /** The ratio times the product of the lengths is the dot product, when that product is not 0. */
  lemma VRatioDot(lib: MathLib, u: Vec, v: Vec)
    requires Lawful(lib) && VMag(lib, u) * VMag(lib, v) != 0.0
    ensures VRatio(lib, u, v) * (VMag(lib, u) * VMag(lib, v)) == u.x * v.x + u.y * v.y
  {
  }

  /**
   * Signed angle from `u` to `v`: the arc cosine of their ratio, negated when
   * the turn from `u` to `v` is clockwise (negative cross product).
   */
  function VAngle(lib: MathLib, u: Vec, v: Vec): real {
    (if u.x * v.y < u.y * v.x then -1.0 else 1.0) * lib.acos(VRatio(lib, u, v))
  }

  /** For a ratio in [-1, 1], the angle lies in [-pi, pi] and its sign is the turn's. */
  lemma VAngleRange(lib: MathLib, u: Vec, v: Vec)
    requires Lawful(lib) && -1.0 <= VRatio(lib, u, v) <= 1.0
    ensures var r := VAngle(lib, u, v);
            && -Pi <= r <= Pi
            && (u.x * v.y < u.y * v.x ==> r <= 0.0)
            && (u.x * v.y >= u.y * v.x ==> r >= 0.0)
  {
    var a := lib.acos(VRatio(lib, u, v));
    assert 0.0 <= a <= Pi;
  }

  lemma SquaresNonNegative(x: real, y: real)
    ensures 0.0 <= x * x + y * y
  {
    assert 0.0 <= x * x;
    assert 0.0 <= y * y;
  }

  /** Step F.6.5.1: the start point's offset from the chord's midpoint, in the ellipse's axes. */
  function LocalOffset(lib: MathLib, x1: real, y1: real, x2: real, y2: real, psi: real): Vec {
    Vec(lib.cos(psi) * (x1 - x2) / 2.0 + lib.sin(psi) * (y1 - y2) / 2.0,
        -1.0 * lib.sin(psi) * (x1 - x2) / 2.0 + lib.cos(psi) * (y1 - y2) / 2.0)
  }

  /** One term of lambda: the squared coordinate over the squared radius. */
  function AxisRatio(lib: MathLib, c: real, r: real): real {
    lib.div(c * c, r * r)
  }

  /** F.6.6.2: how far outside an ellipse of radii `rx`, `ry` the offset lies (1 is on it). */
  function Lambda(lib: MathLib, p: Vec, rx: real, ry: real): real {
    AxisRatio(lib, p.x, rx) + AxisRatio(lib, p.y, ry)
  }

  /** F.6.6.3: radii too small to span the endpoints are scaled by the root of lambda. */
  function ScaledRadii(lib: MathLib, p: Vec, rx: real, ry: real): (real, real) {
    var lambda := Lambda(lib, p, rx, ry);
    if lambda > 1.0 then (rx * lib.sqrt(lambda), ry * lib.sqrt(lambda)) else (rx, ry)
  }

  /**
   * F.6.6: radii too small to span the endpoints are scaled up just enough,
   * so that the offset then lies on the ellipse (lambda becomes 1).
   */
  lemma ScaledRadiiReach(lib: MathLib, p: Vec, rx: real, ry: real)
    requires Lawful(lib) && rx != 0.0 && ry != 0.0 && Lambda(lib, p, rx, ry) > 1.0
    ensures var (rx', ry') := ScaledRadii(lib, p, rx, ry); Lambda(lib, p, rx', ry') == 1.0
  {
    var s := lib.sqrt(Lambda(lib, p, rx, ry));
    var (rx', ry') := ScaledRadii(lib, p, rx, ry);
    assert rx' == rx * s && ry' == ry * s;
    ScaledLambda(lib, p, rx, ry, s, rx', ry');
  }

  /** Scaling both radii by the root `s` of their lambda brings lambda to 1. */
  lemma ScaledLambda(lib: MathLib, p: Vec, rx: real, ry: real, s: real, rx': real, ry': real)
    requires Lawful(lib) && rx != 0.0 && ry != 0.0 && Lambda(lib, p, rx, ry) > 1.0
    requires s == lib.sqrt(Lambda(lib, p, rx, ry)) && rx' == rx * s && ry' == ry * s
    ensures Lambda(lib, p, rx', ry') == 1.0
  {
    var l := Lambda(lib, p, rx, ry);
    SqrtSquares(lib, l);
    var a' := ScaledAxis(lib, p.x, rx, s, l, rx');
    var b' := ScaledAxis(lib, p.y, ry, s, l, ry');
    SumOfScaled(a', b', AxisRatio(lib, p.x, rx), AxisRatio(lib, p.y, ry), l);
  }

  /**
   * Along one axis, scaling the radius `r` to `r' == r * s`, where `s * s == l`,
   * divides its term of lambda by `l`.
   */
  lemma ScaledAxis(lib: MathLib, c: real, r: real, s: real, l: real, r': real) returns (q': real)
    requires Lawful(lib) && r != 0.0 && Mul(s, s) == l && l != 0.0 && r' == r * s
    ensures q' == AxisRatio(lib, c, r') && Mul(q', l) == AxisRatio(lib, c, r)
  {
    var n, rr := c * c, Mul(r, r);
    var m := Mul(Mul(r, s), Mul(r, s));
    ScaledSquare(r, s, l);
    NonZeroMul(r, r);
    NonZeroMul(l, rr);
    DivMul(lib, n, rr);
    DivMul(lib, n, m);
    q' := lib.div(n, m);
    ScaledQuotient(n, rr, l, lib.div(n, rr), q');
  }

  /** `Mul(x, y)` is `x * y`, named so that the steps below are about single products. */
  function Mul(x: real, y: real): real {
    x * y
  }

  lemma SumOfScaled(a': real, b': real, a: real, b: real, l: real)
    requires Mul(a', l) == a && Mul(b', l) == b && a + b == l && l != 0.0
    ensures a' + b' == 1.0
  {
    Distribute(a', b', l);
    assert Mul(1.0, l) == l;
    CancelFactor(a' + b', 1.0, l, l);
  }

  /** The square of `r * s` is `l` times the square of `r`, when `s * s == l`. */
  lemma ScaledSquare(r: real, s: real, l: real)
    requires Mul(s, s) == l
    ensures Mul(Mul(r, s), Mul(r, s)) == Mul(l, Mul(r, r))
  {
    assert (r * s) * (r * s) == (s * s) * (r * r);
  }

  /** If `q * rr == n` and `q' * (l * rr) == n`, with `rr` non-zero, then `q' * l == q`. */
  lemma ScaledQuotient(n: real, rr: real, l: real, q: real, q': real)
    requires rr != 0.0 && Mul(q, rr) == n && Mul(q', Mul(l, rr)) == n
    ensures Mul(q', l) == q
  {
    Regroup(q', l, rr);
    CancelFactor(Mul(q', l), q, rr, n);
  }

  lemma Regroup(q: real, l: real, rr: real)
    ensures Mul(q, Mul(l, rr)) == Mul(Mul(q, l), rr)
  {
  }

  lemma Distribute(x: real, y: real, l: real)
    ensures Mul(x + y, l) == Mul(x, l) + Mul(y, l)
  {
  }

  lemma SqrtSquares(lib: MathLib, x: real)
    requires Lawful(lib) && 0.0 <= x
    ensures Mul(lib.sqrt(x), lib.sqrt(x)) == x
  {
  }

  lemma DivMul(lib: MathLib, x: real, y: real)
    requires Lawful(lib) && y != 0.0
    ensures Mul(lib.div(x, y), y) == x
  {
  }

  lemma NonZeroMul(x: real, y: real)
    requires x != 0.0 && y != 0.0
    ensures Mul(x, y) != 0.0
  {
    if x * y == 0.0 {
      ZeroProduct(x, y);
    }
  }

  /** Cancels a non-zero factor `z` from `x * z == n == y * z`. */
  lemma CancelFactor(x: real, y: real, z: real, n: real)
    requires Mul(x, z) == n && Mul(y, z) == n && z != 0.0
    ensures x == y
  {
    assert (x - y) * z == 0.0;
    ZeroProduct(x - y, z);
  }

  /** The quotient under the square root of F.6.5.2. */
  function Radicand(lib: MathLib, p: Vec, rx: real, ry: real): real {
    lib.div((rx * rx) * (ry * ry) - (rx * rx) * (p.y * p.y) - (ry * ry) * (p.x * p.x),
            (rx * rx) * (p.y * p.y) + (ry * ry) * (p.x * p.x))
  }

  /**
   * The signed factor of F.6.5.2. `Math.sqrt` of a negative number is NaN,
   * and the `|| 0` guard turns it (and a zero root) into 0.
   */
  function CentreFactor(lib: MathLib, fa: real, fs: real, p: Vec, rx: real, ry: real): real {
    var q := Radicand(lib, p, rx, ry);
    if q < 0.0 then 0.0
    else (if fa == fs then -1.0 else 1.0) * lib.sqrt(q)
  }

  /**
   * The factor is 0 exactly when the radicand is not positive; otherwise its
   * sign is negative when the two flags agree, and it squares to the radicand.
   */
  lemma CentreFactorSign(lib: MathLib, fa: real, fs: real, p: Vec, rx: real, ry: real)
    requires Lawful(lib)
    ensures var f, q := CentreFactor(lib, fa, fs, p, rx, ry), Radicand(lib, p, rx, ry);
            && (f == 0.0 <==> q <= 0.0)
            && (f < 0.0 <==> q > 0.0 && fa == fs)
            && (f > 0.0 <==> q > 0.0 && fa != fs)
            && (q >= 0.0 ==> f * f == q)
  {
    var q := Radicand(lib, p, rx, ry);
    SqrtPositive(lib, q);
    if q >= 0.0 {
      assert lib.sqrt(q) * lib.sqrt(q) == q;
    }
  }

  /** The intermediate values of the conversion, in the ellipse's own axes. */
  datatype Frame = Frame(p: Vec, rx: real, ry: real, f: real, cxp: real, cyp: real)

  function ArcFrame(lib: MathLib, x1: real, y1: real, x2: real, y2: real,
                    fa: real, fs: real, rx: real, ry: real, psi: real): Frame
  {
    var p := LocalOffset(lib, x1, y1, x2, y2, psi);
    var (rx', ry') := ScaledRadii(lib, p, rx, ry);
    var f := CentreFactor(lib, fa, fs, p, rx', ry');
    Frame(p, rx', ry', f,
          lib.div(f * rx' * p.y, ry'),
          lib.div(f * -ry' * p.x, rx'))
  }

  /** The start point, relative to the centre, on the unit circle of the ellipse. */
  function StartVector(lib: MathLib, fr: Frame): Vec {
    Vec(lib.div(fr.p.x - fr.cxp, fr.rx), lib.div(fr.p.y - fr.cyp, fr.ry))
  }

  /** The end point, relative to the centre, on the unit circle of the ellipse. */
  function EndVector(lib: MathLib, fr: Frame): Vec {
    Vec(lib.div(-1.0 * fr.p.x - fr.cxp, fr.rx), lib.div(-1.0 * fr.p.y - fr.cyp, fr.ry))
  }

  /**
   * F.6.5.6 with the clamps of the source: the angle swept from the start to
   * the end vector, forced to pi or 0 where the ratio leaves (-1, 1), then
   * moved by a full turn to agree with the sweep flag.
   */
  function SweepAngle(lib: MathLib, u: Vec, v: Vec, fs: real): (d: real)
    ensures VRatio(lib, u, v) <= -1.0 ==> d == (if fs == 0.0 then -Pi else Pi)
    ensures VRatio(lib, u, v) >= 1.0 ==> d == 0.0
  {
    var d0 := VAngle(lib, u, v);
    var d1 := if VRatio(lib, u, v) <= -1.0 then Pi else d0;
    var d2 := if VRatio(lib, u, v) >= 1.0 then 0.0 else d1;
    var d3 := if fs == 0.0 && d2 > 0.0 then d2 - 2.0 * Pi else d2;
    if fs == 1.0 && d3 < 0.0 then d3 + 2.0 * Pi else d3
  }

  /**
   * The swept angle agrees with the sweep flag: in [-2 pi, 0] for `fs` = 0,
   * in [0, 2 pi] for `fs` = 1, and in [-pi, pi] for any other flag value.
   */
  lemma SweepAngleRange(lib: MathLib, u: Vec, v: Vec, fs: real)
    requires Lawful(lib)
    ensures var d := SweepAngle(lib, u, v, fs);
            && (fs == 0.0 ==> -2.0 * Pi <= d <= 0.0)
            && (fs == 1.0 ==> 0.0 <= d <= 2.0 * Pi)
            && (fs != 0.0 && fs != 1.0 ==> -Pi <= d <= Pi)
  {
    if -1.0 < VRatio(lib, u, v) < 1.0 {
      VAngleRange(lib, u, v);
    }
  }

  /**
   * `processArc`: the `A` record appended for an arc from (x1, y1) to
   * (x2, y2): the opcode, then cx, cy, rx, ry, start angle, swept angle,
   * psi in radians and the sweep flag.
   */
  function ProcessArc(lib: MathLib, x1: real, y1: real, x2: real, y2: real,
                      fa: real, fs: real, rx: real, ry: real, psiDeg: real): (r: seq<real>)
    ensures |r| == 1 + Arity(A) && r[0] == Code(A)
    ensures r[7] == psiDeg * (Pi / 180.0) && r[8] == fs
  {
    var psi := psiDeg * (Pi / 180.0);
    var fr := ArcFrame(lib, x1, y1, x2, y2, fa, fs, rx, ry, psi);
    var cx := (x1 + x2) / 2.0 + lib.cos(psi) * fr.cxp - lib.sin(psi) * fr.cyp;
    var cy := (y1 + y2) / 2.0 + lib.sin(psi) * fr.cxp + lib.cos(psi) * fr.cyp;
    var u := StartVector(lib, fr);
    var v := EndVector(lib, fr);
    var theta := VAngle(lib, Vec(1.0, 0.0), u);
    var dTheta := SweepAngle(lib, u, v, fs);
    [Code(A), cx, cy, fr.rx, fr.ry, theta, dTheta, psi, fs]
  }

  /** The swept angle stored in an arc record agrees with its sweep flag. */
  lemma ProcessArcSweep(lib: MathLib, x1: real, y1: real, x2: real, y2: real,
                        fa: real, fs: real, rx: real, ry: real, psiDeg: real)
    requires Lawful(lib)
    ensures var r := ProcessArc(lib, x1, y1, x2, y2, fa, fs, rx, ry, psiDeg);
            && (fs == 0.0 ==> -2.0 * Pi <= r[6] <= 0.0)
            && (fs == 1.0 ==> 0.0 <= r[6] <= 2.0 * Pi)
            && (fs != 0.0 && fs != 1.0 ==> -Pi <= r[6] <= Pi)
  {
    var fr := ArcFrame(lib, x1, y1, x2, y2, fa, fs, rx, ry, psiDeg * (Pi / 180.0));
    SweepAngleRange(lib, StartVector(lib, fr), EndVector(lib, fr), fs);
  }

  /** A division with a known exact quotient `q`. */
  lemma DivExact(lib: MathLib, x: real, y: real, q: real)
    requires Lawful(lib) && y != 0.0 && q * y == x
    ensures lib.div(x, y) == q
  {
    DivMul(lib, x, y);
    CancelFactor(lib.div(x, y), q, y, x);
  }

  /** The frame of the half circle of radius 5 from (0, 0) to (10, 0), unrotated. */
  lemma HalfCircleFrame(lib: MathLib)
    requires Lawful(lib)
    ensures ArcFrame(lib, 0.0, 0.0, 10.0, 0.0, 0.0, 1.0, 5.0, 5.0, 0.0)
         == Frame(Vec(-5.0, 0.0), 5.0, 5.0, 0.0, 0.0, 0.0)
  {
    var p := LocalOffset(lib, 0.0, 0.0, 10.0, 0.0, 0.0);
    assert p == Vec(-5.0, 0.0);
    DivExact(lib, 25.0, 25.0, 1.0);
    DivZero(lib, 0.0, 25.0);
    assert Lambda(lib, p, 5.0, 5.0) == 1.0;
    assert ScaledRadii(lib, p, 5.0, 5.0) == (5.0, 5.0);
    DivZero(lib, 0.0, 625.0);
    assert Radicand(lib, p, 5.0, 5.0) == 0.0;
    assert CentreFactor(lib, 0.0, 1.0, p, 5.0, 5.0) == 0.0;
    DivZero(lib, 0.0, 5.0);
  }

  /**
   * A worked arc: the upper half circle of radius 5 from (0, 0) to (10, 0)
   * (`fa` 0, `fs` 1, no rotation) is centred at (5, 0), starts at angle pi
   * and sweeps pi.
   */
  lemma HalfCircleArc(lib: MathLib)
    requires Lawful(lib)
    ensures ProcessArc(lib, 0.0, 0.0, 10.0, 0.0, 0.0, 1.0, 5.0, 5.0, 0.0)
         == [Code(A), 5.0, 0.0, 5.0, 5.0, Pi, Pi, 0.0, 1.0]
  {
    var fr := Frame(Vec(-5.0, 0.0), 5.0, 5.0, 0.0, 0.0, 0.0);
    HalfCircleFrame(lib);
    DivExact(lib, -5.0, 5.0, -1.0);
    DivExact(lib, 5.0, 5.0, 1.0);
    DivZero(lib, 0.0, 5.0);
    var u, v := Vec(-1.0, 0.0), Vec(1.0, 0.0);
    assert StartVector(lib, fr) == u && EndVector(lib, fr) == v;
    assert VMag(lib, u) == 1.0 && VMag(lib, v) == 1.0;
    DivExact(lib, -1.0, 1.0, -1.0);
    assert VRatio(lib, Vec(1.0, 0.0), u) == -1.0 && VRatio(lib, u, v) == -1.0;
    assert VAngle(lib, Vec(1.0, 0.0), u) == Pi;
    assert SweepAngle(lib, u, v, 1.0) == Pi;
  }
}
