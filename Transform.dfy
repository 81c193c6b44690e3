/**
 * `transformPath`: an affine map applied in place to a command buffer. The
 * loop reads one opcode at a time and overwrites the operand slots of that
 * record, following the opcode's layout; the opcode slots and the length
 * of the buffer are never written.
 *
 * `TransformRecord` and `TransformFrom` are the specification on records;
 * `TransformPath` is the loop over the flat `array<real>`.
 */
module PathTransform {
  import opened JsMath
  import opened CommandBuffer

  /**
   * The six numbers of `context.transform(a, b, c, d, e, f)`: a point
   * `(x, y)` goes to `(a x + c y + e, b x + d y + f)`.
   */
  datatype Matrix = Matrix(a: real, b: real, c: real, d: real, e: real, f: real)

  const Identity: Matrix := Matrix(1.0, 0.0, 0.0, 1.0, 0.0, 0.0)

  /** `vec2.applyTransform(out, v, m)`: both coordinates are read before either is written. */
  function Apply(m: Matrix, x: real, y: real): (real, real) {
    (m.a * x + m.c * y + m.e, m.b * x + m.d * y + m.f)
  }

  /** The matrix of applying `m1` first and `m2` after it. */
  function Compose(m2: Matrix, m1: Matrix): Matrix {
    Matrix(m2.a * m1.a + m2.c * m1.b, m2.b * m1.a + m2.d * m1.b,
           m2.a * m1.c + m2.c * m1.d, m2.b * m1.c + m2.d * m1.d,
           m2.a * m1.e + m2.c * m1.f + m2.e, m2.b * m1.e + m2.d * m1.f + m2.f)
  }

  lemma Distribute(p: real, u: real, v: real)
    ensures p * (u + v) == p * u + p * v
  {
  }

  lemma Associate(p: real, u: real, v: real)
    ensures (p * u) * v == p * (u * v)
  {
  }

  /** One coordinate of a composed map, expanded: the step the solver does not find alone. */
  lemma ComposeCoordinate(p: real, q: real, a1: real, b1: real, c1: real, d1: real, e1: real, f1: real,
                          e: real, x: real, y: real)
    ensures (p * a1 + q * b1) * x + (p * c1 + q * d1) * y + (p * e1 + q * f1 + e)
         == p * (a1 * x + c1 * y + e1) + q * (b1 * x + d1 * y + f1) + e
  {
    Distribute(x, p * a1, q * b1);
    Distribute(y, p * c1, q * d1);
    Associate(p, a1, x);
    Associate(q, b1, x);
    Associate(p, c1, y);
    Associate(q, d1, y);
    Distribute(p, a1 * x + c1 * y, e1);
    Distribute(p, a1 * x, c1 * y);
    Distribute(q, b1 * x + d1 * y, f1);
    Distribute(q, b1 * x, d1 * y);
  }

  lemma ApplyIs(m: Matrix, x: real, y: real)
    ensures Apply(m, x, y).0 == m.a * x + m.c * y + m.e && Apply(m, x, y).1 == m.b * x + m.d * y + m.f
  {
  }

  /** Applying the composition is applying `m1`, then `m2`. */
  lemma ApplyCompose(m2: Matrix, m1: Matrix, x: real, y: real)
    ensures Apply(Compose(m2, m1), x, y) == Apply(m2, Apply(m1, x, y).0, Apply(m1, x, y).1)
  {
    var n := Compose(m2, m1);
    var u, v := Apply(m1, x, y).0, Apply(m1, x, y).1;
    ApplyIs(n, x, y);
    ApplyIs(m1, x, y);
    ApplyIs(m2, u, v);
    ComposeCoordinate(m2.a, m2.c, m1.a, m1.b, m1.c, m1.d, m1.e, m1.f, m2.e, x, y);
    ComposeCoordinate(m2.b, m2.d, m1.a, m1.b, m1.c, m1.d, m1.e, m1.f, m2.f, x, y);
    assert n.a * x + n.c * y + n.e
        == (m2.a * m1.a + m2.c * m1.b) * x + (m2.a * m1.c + m2.c * m1.d) * y + (m2.a * m1.e + m2.c * m1.f + m2.e);
    assert Apply(n, x, y).0 == Apply(m2, u, v).0;
    assert Apply(n, x, y).1 == Apply(m2, u, v).1;
  }

  /** Every `(x, y)` pair of a flat list replaced by its image, in order. */
  function MapPairs(m: Matrix, s: seq<real>): (r: seq<real>)
    ensures |r| == |s|
    decreases |s|
  {
    if |s| < 2 then s else [Apply(m, s[0], s[1]).0, Apply(m, s[0], s[1]).1] + MapPairs(m, s[2..])
  }

  /** The pairs are mapped independently: pair `k` of the result is the image of pair `k`. */
  lemma {:induction false} MapPairsAt(m: Matrix, s: seq<real>, k: nat)
    requires 2 * k + 1 < |s|
    ensures (MapPairs(m, s)[2 * k], MapPairs(m, s)[2 * k + 1]) == Apply(m, s[2 * k], s[2 * k + 1])
    decreases k
  {
    if k > 0 {
      MapPairsAt(m, s[2..], k - 1);
      assert s[2..][2 * (k - 1)] == s[2 * k] && s[2..][2 * (k - 1) + 1] == s[2 * k + 1];
    }
  }

  lemma {:induction false} MapPairsAppend(m: Matrix, s: seq<real>, k: nat, x: real, y: real)
    requires |s| == 2 * k
    ensures MapPairs(m, s + [x, y]) == MapPairs(m, s) + [Apply(m, x, y).0, Apply(m, x, y).1]
    decreases k
  {
    if k == 0 {
      assert s + [x, y] == [x, y];
      assert MapPairs(m, [x, y]) == [Apply(m, x, y).0, Apply(m, x, y).1] + MapPairs(m, []);
    } else {
      assert (s + [x, y])[2..] == s[2..] + [x, y];
      MapPairsAppend(m, s[2..], k - 1, x, y);
    }
  }

  /** `MapPairs` by the identity leaves the list as it is. */
  lemma {:induction false} MapPairsIdentity(s: seq<real>)
    ensures MapPairs(Identity, s) == s
    decreases |s|
  {
    if |s| >= 2 {
      MapPairsIdentity(s[2..]);
      assert s == [s[0], s[1]] + s[2..];
    }
  }

  /** Mapping by `m1` and then by `m2` is mapping once by their composition. */
  lemma {:induction false} MapPairsCompose(m2: Matrix, m1: Matrix, s: seq<real>)
    requires |s| % 2 == 0
    ensures MapPairs(m2, MapPairs(m1, s)) == MapPairs(Compose(m2, m1), s)
    decreases |s|
  {
    if |s| >= 2 {
      var t := MapPairs(m1, s);
      assert t[2..] == MapPairs(m1, s[2..]);
      MapPairsCompose(m2, m1, s[2..]);
      ApplyCompose(m2, m1, s[0], s[1]);
    }
  }

  /** `Math.sqrt(x * x + y * y)`. */
  function Norm(lib: MathLib, x: real, y: real): real {
    lib.sqrt(x * x + y * y)
  }

  /** The norm of an axis vector `(s, 0)` or `(0, s)` with `s >= 0` is `s`. */
  lemma NormOfAxis(lib: MathLib, s: real)
    requires Lawful(lib) && 0.0 <= s
    ensures Norm(lib, s, 0.0) == s && Norm(lib, 0.0, s) == s
  {
    SqrtOfSquare(lib, s, s * s + 0.0 * 0.0);
    SqrtOfSquare(lib, s, 0.0 * 0.0 + s * s);
  }

  /**
   * The arc case's scale factors and rotation: `sx = sqrt(a^2 + b^2)`,
   * `sy = sqrt(c^2 + d^2)` and `angle = atan2(-b / sy, a / sx)`.
   */
  function ArcScale(lib: MathLib, m: Matrix): (real, real, real) {
    var sx := Norm(lib, m.a, m.b);
    var sy := Norm(lib, m.c, m.d);
    (sx, sy, lib.atan2(lib.div(-m.b, sy), lib.div(m.a, sx)))
  }

  /** `x *= s`. */
  function Scale(x: real, s: real): real {
    x * s
  }

  /**
   * The operands of an arc record `(cx, cy, rx, ry, theta, dTheta, psi, fs)`
   * after the transform: the centre is scaled and moved, the radii scaled,
   * both angles turned; `psi` and `fs` are kept.
   */
  function TransformArc(lib: MathLib, m: Matrix, g: seq<real>): (r: seq<real>)
    requires |g| == 8
    ensures |r| == 8 && r[6..] == g[6..]
  {
    var k := ArcScale(lib, m);
    [Scale(g[0], k.0) + m.e, Scale(g[1], k.1) + m.f, Scale(g[2], k.0), Scale(g[3], k.1),
     g[4] + k.2, g[5] + k.2, g[6], g[7]]
  }

  /**
   * The operands of a rectangle record `(x, y, w, h)` as the source writes
   * them: the corner `T(x, y)`, then `T(T(x, y) + (w, h))`, the map applied
   * a second time to a point that is already mapped.
   */
  function TransformRect(m: Matrix, g: seq<real>): (r: seq<real>)
    requires |g| == 4
    ensures |r| == 4
  {
    var (x0, y0) := Apply(m, g[0], g[1]);
    var (x1, y1) := Apply(m, x0 + g[2], y0 + g[3]);
    [x0, y0, x1, y1]
  }

  /** The records whose case sets `nPoint` and so leaves the scratch `p` assigned. */
  predicate IsPointOp(op: Op) {
    op == M || op == L || op == C || op == Q
  }

  /** One record after the transform; a close-path record has nothing to rewrite. */
  function TransformRecord(lib: MathLib, m: Matrix, r: Record): (t: Record)
    requires ValidRecord(r)
    ensures t.op == r.op && ValidRecord(t)
  {
    match r.op
    case A => Record(A, TransformArc(lib, m, r.args))
    case R => Record(R, TransformRect(m, r.args))
    case Z => r
    case _ => Record(r.op, MapPairs(m, r.args))
  }

  /** The result of the loop: whether it ran to the end, and the records it leaves. */
  datatype Rewrite = Rewrite(ok: bool, recs: seq<Record>)

  /**
   * The loop from some record on; `have` says whether an M, L, C or Q
   * record came before, so that `p` holds an array. A rectangle record
   * without one throws: the loop stops with `ok` false, the records before
   * it rewritten and the rest as they were.
   */
  function TransformFrom(lib: MathLib, m: Matrix, recs: seq<Record>, have: bool): (t: Rewrite)
    requires ValidRecords(recs)
    ensures SameLayout(recs, t.recs)
  {
    if recs == [] then Rewrite(true, [])
    else if recs[0].op == R && !have then Rewrite(false, recs)
    else
      var rest := TransformFrom(lib, m, recs[1..], have || IsPointOp(recs[0].op));
      var out := [TransformRecord(lib, m, recs[0])] + rest.recs;
      assert forall i :: 1 <= i < |recs| ==> out[i] == rest.recs[i - 1] && recs[i] == recs[1..][i - 1];
      Rewrite(rest.ok, out)
  }

  /** Every rectangle record comes after a point record (or `have` holds). */
  predicate RectsCovered(recs: seq<Record>, have: bool) {
    forall i :: 0 <= i < |recs| && recs[i].op == R ==>
      have || exists j :: 0 <= j < i && IsPointOp(recs[j].op)
  }

  /** The loop reaches the end exactly when every rectangle has a point record before it. */
  lemma {:induction false} TransformOk(lib: MathLib, m: Matrix, recs: seq<Record>, have: bool)
    requires ValidRecords(recs)
    ensures TransformFrom(lib, m, recs, have).ok <==> RectsCovered(recs, have)
    decreases |recs|
  {
    if recs != [] {
      var have' := have || IsPointOp(recs[0].op);
      TransformOk(lib, m, recs[1..], have');
      if recs[0].op == R && !have {
        assert !RectsCovered(recs, have);
      } else {
        RectsCoveredTail(recs, have);
      }
    }
  }

  lemma {:induction false} RectsCoveredTail(recs: seq<Record>, have: bool)
    requires recs != [] && (recs[0].op == R ==> have)
    ensures RectsCovered(recs, have) <==> RectsCovered(recs[1..], have || IsPointOp(recs[0].op))
  {
    var tail, have' := recs[1..], have || IsPointOp(recs[0].op);
    if RectsCovered(recs, have) {
      forall i | 0 <= i < |tail| && tail[i].op == R
        ensures have' || exists j :: 0 <= j < i && IsPointOp(tail[j].op)
      {
        assert recs[i + 1] == tail[i];
        if !have' {
          var j :| 0 <= j < i + 1 && IsPointOp(recs[j].op);
          assert j != 0;
          assert tail[j - 1] == recs[j];
        }
      }
    }
    if RectsCovered(tail, have') {
      forall i | 0 <= i < |recs| && recs[i].op == R
        ensures have || exists j :: 0 <= j < i && IsPointOp(recs[j].op)
      {
        if i > 0 && !have {
          assert tail[i - 1] == recs[i];
          if IsPointOp(recs[0].op) {
            assert IsPointOp(recs[0].op);
          } else {
            var j :| 0 <= j < i - 1 && IsPointOp(tail[j].op);
            assert recs[j + 1] == tail[j];
          }
        }
      }
    }
  }

  /** The identity leaves the operands of an arc as they are. */
  lemma IdentityArc(lib: MathLib, g: seq<real>)
    requires Lawful(lib) && |g| == 8
    ensures TransformArc(lib, Identity, g) == g
  {
    var m := Identity;
    UniformArc(lib, m, g);
    var w := [g[0] * m.a + m.e, g[1] * m.a + m.f, g[2] * m.a, g[3] * m.a, g[4], g[5], g[6], g[7]];
    assert forall t :: 0 <= t < 8 ==> w[t] == g[t];
    assert w == g;
  }

  /**
   * The identity leaves every record as it is but a rectangle, whose size
   * `(w, h)` becomes its far corner `(x + w, y + h)`.
   */
  lemma IdentityRecord(lib: MathLib, r: Record)
    requires Lawful(lib) && ValidRecord(r)
    ensures r.op != R ==> TransformRecord(lib, Identity, r) == r
    ensures r.op == R ==>
              var g := r.args;
              TransformRecord(lib, Identity, r) == Record(R, [g[0], g[1], g[0] + g[2], g[1] + g[3]])
  {
    if r.op == A {
      IdentityArc(lib, r.args);
    } else if r.op == R {
      RectIdentityCorner(r.args);
    } else if r.op != Z {
      MapPairsIdentity(r.args);
    }
  }

  /** Under the identity a buffer without rectangles comes back unchanged. */
  lemma {:induction false} IdentityRecords(lib: MathLib, recs: seq<Record>, have: bool)
    requires Lawful(lib) && ValidRecords(recs) && forall i :: 0 <= i < |recs| ==> recs[i].op != R
    ensures TransformFrom(lib, Identity, recs, have).recs == recs
    decreases |recs|
  {
    if recs != [] && !(recs[0].op == R && !have) {
      IdentityRecord(lib, recs[0]);
      assert forall i :: 0 <= i < |recs| - 1 ==> recs[1..][i] == recs[i + 1];
      IdentityRecords(lib, recs[1..], have || IsPointOp(recs[0].op));
      assert [recs[0]] + recs[1..] == recs;
    }
  }

  /** What the identity makes of a record: a rectangle's size is replaced by its far corner. */
  function Unsized(r: Record): (u: Record)
    ensures u.op == r.op && |u.args| == |r.args|
  {
    if r.op == R && |r.args| == 4 then Record(R, [r.args[0], r.args[1], r.args[0] + r.args[2], r.args[1] + r.args[3]])
    else r
  }

  /**
   * Under the identity, a buffer whose rectangles all follow a point record
   * comes back with every record kept but each rectangle's size turned into
   * its far corner.
   */
  lemma {:induction false} IdentityUnsizes(lib: MathLib, recs: seq<Record>, have: bool)
    requires Lawful(lib) && ValidRecords(recs) && RectsCovered(recs, have)
    ensures var out := TransformFrom(lib, Identity, recs, have).recs;
            |out| == |recs| && forall i :: 0 <= i < |recs| ==> out[i] == Unsized(recs[i])
    decreases |recs|
  {
    if recs != [] {
      assert recs[0].op == R ==> have;
      var have' := have || IsPointOp(recs[0].op);
      RectsCoveredTail(recs, have);
      FromStep(lib, Identity, recs, have);
      UnsizedRecord(lib, recs[0]);
      IdentityUnsizes(lib, recs[1..], have');
      UnsizedCons(recs, TransformFrom(lib, Identity, recs, have).recs, TransformFrom(lib, Identity, recs[1..], have').recs);
    }
  }

  lemma UnsizedRecord(lib: MathLib, r: Record)
    requires Lawful(lib) && ValidRecord(r)
    ensures TransformRecord(lib, Identity, r) == Unsized(r)
  {
    IdentityRecord(lib, r);
  }

  lemma UnsizedCons(recs: seq<Record>, out: seq<Record>, rest: seq<Record>)
    requires recs != [] && out == [Unsized(recs[0])] + rest
    requires |rest| == |recs| - 1 && forall i :: 0 <= i < |rest| ==> rest[i] == Unsized(recs[1..][i])
    ensures |out| == |recs| && forall i :: 0 <= i < |recs| ==> out[i] == Unsized(recs[i])
  {
    forall i | 0 <= i < |recs| ensures out[i] == Unsized(recs[i]) {
      if i > 0 {
        assert out[i] == rest[i - 1] && recs[1..][i - 1] == recs[i];
      }
    }
  }

  /**
   * For every record but an arc or a rectangle, transforming by `m1` and
   * then by `m2` is transforming once by their composition.
   */
  lemma ComposeRecord(lib: MathLib, m2: Matrix, m1: Matrix, r: Record)
    requires ValidRecord(r) && r.op != A && r.op != R
    ensures TransformRecord(lib, m2, TransformRecord(lib, m1, r)) == TransformRecord(lib, Compose(m2, m1), r)
  {
    if r.op != Z {
      MapPairsCompose(m2, m1, r.args);
    }
  }

  /**
   * The records of a buffer without arcs and rectangles, transformed by `m1`
   * and then by `m2`, are transformed once by their composition.
   */
  lemma {:induction false} ComposeRecords(lib: MathLib, m2: Matrix, m1: Matrix, recs: seq<Record>, have: bool)
    requires ValidRecords(recs) && forall i :: 0 <= i < |recs| ==> recs[i].op != A && recs[i].op != R
    ensures var t1 := TransformFrom(lib, m1, recs, have);
            TransformFrom(lib, m2, t1.recs, have) == TransformFrom(lib, Compose(m2, m1), recs, have)
    decreases |recs|
  {
    if recs != [] && !(recs[0].op == R && !have) {
      var have' := have || IsPointOp(recs[0].op);
      var t1 := TransformFrom(lib, m1, recs, have);
      var rest1 := TransformFrom(lib, m1, recs[1..], have');
      assert t1.recs == [TransformRecord(lib, m1, recs[0])] + rest1.recs;
      assert t1.recs[0] == TransformRecord(lib, m1, recs[0]) && t1.recs[1..] == rest1.recs;
      assert ValidRecords(t1.recs) by {
        forall i | 0 <= i < |t1.recs| ensures ValidRecord(t1.recs[i]) {
          assert ValidRecord(recs[i]);
        }
      }
      ComposeRecord(lib, m2, m1, recs[0]);
      ComposeRecords(lib, m2, m1, recs[1..], have');
      FromStep(lib, m2, t1.recs, have);
    }
  }

  /** Transformed by the identity, a buffer without rectangles is the same buffer. */
  lemma IdentityKeepsBuffer(lib: MathLib, s: seq<real>)
    requires Lawful(lib) && Parse(s).Some? && forall i :: 0 <= i < |Parse(s).value| ==> Parse(s).value[i].op != R
    ensures Flatten(TransformFrom(lib, Identity, Parse(s).value, false).recs) == s
  {
    IdentityRecords(lib, Parse(s).value, false);
  }

  /**
   * The rectangle case as written changes a rectangle even under the
   * identity: `(1, 1, 1, 1)` becomes `(1, 1, 2, 2)`, its size read back as
   * the far corner.
   */
  lemma RectIdentityAsWritten()
    ensures TransformRect(Identity, [1.0, 1.0, 1.0, 1.0]) == [1.0, 1.0, 2.0, 2.0]
  {
  }

  /**
   * The rectangle case: the first slots hold the image of the corner, the
   * last two the image of that image moved by the size.
   */
  lemma RectCorners(m: Matrix, g: seq<real>)
    requires |g| == 4
    ensures var r := TransformRect(m, g);
            && (r[0], r[1]) == Apply(m, g[0], g[1])
            && (r[2], r[3]) == Apply(m, r[0] + g[2], r[1] + g[3])
  {
  }

  /** Under the identity a rectangle `(x, y, w, h)` becomes `(x, y, x + w, y + h)`. */
  lemma RectIdentityCorner(g: seq<real>)
    requires |g| == 4
    ensures TransformRect(Identity, g) == [g[0], g[1], g[0] + g[2], g[1] + g[3]]
  {
  }

  /** A translation by `(e, f)` moves the corner once and the far slots twice. */
  lemma RectTranslation(m: Matrix, g: seq<real>)
    requires |g| == 4 && m.a == 1.0 && m.b == 0.0 && m.c == 0.0 && m.d == 1.0
    ensures TransformRect(m, g)
         == [g[0] + m.e, g[1] + m.f, g[0] + g[2] + 2.0 * m.e, g[1] + g[3] + 2.0 * m.f]
  {
  }

  /**
   * The rectangle case as evidently intended: map both corners once and
   * store the first corner and the offset to the second.
   */
  function TransformRectIntended(m: Matrix, g: seq<real>): (r: seq<real>)
    requires |g| == 4
    ensures |r| == 4
  {
    var (x0, y0) := Apply(m, g[0], g[1]);
    var (x1, y1) := Apply(m, g[0] + g[2], g[1] + g[3]);
    [x0, y0, x1 - x0, y1 - y0]
  }

  /** The corrected rectangle case: its corners are the images of the rectangle's corners. */
  lemma RectIntendedCorners(m: Matrix, g: seq<real>)
    requires |g| == 4
    ensures var r := TransformRectIntended(m, g);
            (r[0], r[1]) == Apply(m, g[0], g[1])
            && (r[0] + r[2], r[1] + r[3]) == Apply(m, g[0] + g[2], g[1] + g[3])
  {
  }

  /** The corrected rectangle case leaves a rectangle unchanged under the identity. */
  lemma RectIntendedIdentity(g: seq<real>)
    requires |g| == 4
    ensures TransformRectIntended(Identity, g) == g
  {
  }

  /** The corrected rectangle case composes like the point records do. */
  lemma RectIntendedCompose(m2: Matrix, m1: Matrix, g: seq<real>)
    requires |g| == 4
    ensures TransformRectIntended(m2, TransformRectIntended(m1, g)) == TransformRectIntended(Compose(m2, m1), g)
  {
    var (x0, y0) := Apply(m1, g[0], g[1]);
    var (x1, y1) := Apply(m1, g[0] + g[2], g[1] + g[3]);
    ApplyCompose(m2, m1, g[0], g[1]);
    ApplyCompose(m2, m1, g[0] + g[2], g[1] + g[3]);
    var h := TransformRectIntended(m1, g);
    assert h == [x0, y0, x1 - x0, y1 - y0];
    assert h[0] + h[2] == x1 && h[1] + h[3] == y1;
  }

  /**
   * A uniform scaling by `m.a > 0` followed by a translation by `(m.e, m.f)`
   * scales an arc's centre and radii by `m.a`, moves the centre and keeps
   * the angles.
   */
  lemma UniformArc(lib: MathLib, m: Matrix, g: seq<real>)
    requires Lawful(lib) && |g| == 8 && 0.0 < m.a && m.b == 0.0 && m.c == 0.0 && m.d == m.a
    ensures TransformArc(lib, m, g)
         == [g[0] * m.a + m.e, g[1] * m.a + m.f, g[2] * m.a, g[3] * m.a, g[4], g[5], g[6], g[7]]
  {
    UniformScale(lib, m);
    ArcWithoutTurn(lib, m, g);
  }

  /** The scale factors of a uniform scaling are its factor, with no rotation. */
  lemma UniformScale(lib: MathLib, m: Matrix)
    requires Lawful(lib) && 0.0 < m.a && m.b == 0.0 && m.c == 0.0 && m.d == m.a
    ensures ArcScale(lib, m) == (m.a, m.a, 0.0)
  {
    var s := m.a;
    NormOfAxis(lib, s);
    DivSelf(lib, s, Norm(lib, s, 0.0));
    DivZero(lib, -0.0, Norm(lib, 0.0, s));
  }

  /** The arc operands under a map whose scale factors are both `m.a` and whose angle is 0. */
  lemma ArcWithoutTurn(lib: MathLib, m: Matrix, g: seq<real>)
    requires |g| == 8 && ArcScale(lib, m) == (m.a, m.a, 0.0)
    ensures TransformArc(lib, m, g)
         == [g[0] * m.a + m.e, g[1] * m.a + m.f, g[2] * m.a, g[3] * m.a, g[4], g[5], g[6], g[7]]
  {
    var s := m.a;
    var h := [Scale(g[0], s) + m.e, Scale(g[1], s) + m.f, Scale(g[2], s), Scale(g[3], s), g[4] + 0.0, g[5] + 0.0, g[6], g[7]];
    assert TransformArc(lib, m, g) == h;
    var w := [g[0] * m.a + m.e, g[1] * m.a + m.f, g[2] * m.a, g[3] * m.a, g[4], g[5], g[6], g[7]];
    assert |w| == 8 && |h| == 8;
    assert forall t :: 0 <= t < 8 ==> h[t] == w[t];
    assert h == w;
  }

  /** The flat buffer after the loop has the same length and the same opcode slots. */
  lemma {:induction false} KeepsOpcodeSlots(lib: MathLib, m: Matrix, s: seq<real>)
    requires Parse(s).Some?
    ensures var out := Flatten(TransformFrom(lib, m, Parse(s).value, false).recs);
            |out| == |s| && forall t :: 0 <= t < |s| && OpcodeMask(Parse(s).value)[t] ==> out[t] == s[t]
  {
    var recs := Parse(s).value;
    var t := TransformFrom(lib, m, recs, false);
    SameLayoutSlots(recs, t.recs);
  }

  /** The buffer `s` with the slots from `lo` on replaced by `vals`. */
  function Overwrite(s: seq<real>, lo: nat, vals: seq<real>): (r: seq<real>)
    requires lo + |vals| <= |s|
    ensures |r| == |s|
  {
    s[..lo] + vals + s[lo + |vals|..]
  }

  /** Overwriting no slot leaves the buffer as it is. */
  lemma OverwriteNothing(s: seq<real>, lo: nat)
    requires lo <= |s|
    ensures Overwrite(s, lo, []) == s
  {
    assert s[..lo] + [] + s[lo..] == s;
  }

  /** One step of `TransformFrom`, when the head record does not throw. */
  lemma {:induction false} FromStep(lib: MathLib, m: Matrix, recs: seq<Record>, have: bool)
    requires ValidRecords(recs) && recs != [] && (recs[0].op == R ==> have)
    ensures var rest := TransformFrom(lib, m, recs[1..], have || IsPointOp(recs[0].op));
            TransformFrom(lib, m, recs, have) == Rewrite(rest.ok, [TransformRecord(lib, m, recs[0])] + rest.recs)
  {
  }

  lemma {:induction false} FlattenSnoc(done: seq<Record>, out: Record)
    ensures Flatten(done + [out]) == Flatten(done) + [Code(out.op)] + out.args
  {
    FlattenConcat(done, [out]);
    assert Flatten([out]) == Encode(out) + Flatten([]);
  }

  /**
   * The `for (k = 0; k < nPoint; k++)` loop: `nPoint` pairs from slot `i0`
   * on, each read into the scratch point, mapped and written back where it
   * was read.
   */
  method TransformPoints(data: array<real>, i0: nat, nPoint: nat, m: Matrix) returns (i: nat)
    requires i0 + 2 * nPoint <= data.Length
    modifies data
    ensures i == i0 + 2 * nPoint
    ensures data[..] == Overwrite(old(data[..]), i0, MapPairs(m, old(data[..])[i0..i]))
  {
    ghost var orig := data[..];
    i := i0;
    var j := i0;
    var k := 0;
    while k < nPoint
      invariant 0 <= k <= nPoint && i == i0 + 2 * k && j == i
      invariant data[..i0] == orig[..i0] && data[i..] == orig[i..]
      invariant data[i0..i] == MapPairs(m, orig[i0..i])
    {
      ghost var before := data[..];
      var x := data[i];
      var y := data[i + 1];
      i := i + 2;
      var (px, py) := Apply(m, x, y);
      data[j] := px;
      data[j + 1] := py;
      assert data[..] == before[j := px][j + 1 := py];
      PointFrame(orig, i0, j, i, before, data[..], px, py);
      PointMapped(m, orig, i0, k, i, before, data[..], px, py);
      j := j + 2;
      k := k + 1;
    }
    PointsDone(m, orig, i0, i, data[..]);
  }

  /** When the point loop ends, the buffer is the input with the pairs `i0..i` mapped. */
  lemma PointsDone(m: Matrix, orig: seq<real>, i0: nat, i: nat, cur: seq<real>)
    requires i0 <= i <= |orig| == |cur|
    requires cur[..i0] == orig[..i0] && cur[i..] == orig[i..]
    requires cur[i0..i] == MapPairs(m, orig[i0..i])
    ensures cur == Overwrite(orig, i0, MapPairs(m, orig[i0..i]))
  {
    Slices(cur, i0, i);
  }

  /** One pass of the point loop leaves the slots outside the pairs done so far as they were. */
  lemma PointFrame(orig: seq<real>, i0: nat, j: nat, i: nat, before: seq<real>, after: seq<real>, px: real, py: real)
    requires i0 <= j && i == j + 2 && i <= |orig| == |before|
    requires before[..i0] == orig[..i0] && before[j..] == orig[j..]
    requires after == before[j := px][j + 1 := py]
    ensures after[..i0] == orig[..i0] && after[i..] == orig[i..]
  {
    assert after[i..] == before[i..];
    assert before[i..] == before[j..][2..];
  }

  /** One pass of the point loop maps the pair at the cursor. */
  lemma {:induction false} PointMapped(m: Matrix, orig: seq<real>, i0: nat, k: nat, next: nat, before: seq<real>,
                                       after: seq<real>, px: real, py: real)
    requires next == i0 + 2 * k + 2 <= |orig| == |before|
    requires before[i0 + 2 * k..] == orig[i0 + 2 * k..]
    requires before[i0..i0 + 2 * k] == MapPairs(m, orig[i0..i0 + 2 * k])
    requires (px, py) == Apply(m, before[i0 + 2 * k], before[i0 + 2 * k + 1])
    requires after == before[i0 + 2 * k := px][i0 + 2 * k + 1 := py]
    ensures after[i0..next] == MapPairs(m, orig[i0..next])
  {
    var i := i0 + 2 * k;
    var x, y := orig[i], orig[i + 1];
    assert before[i] == x && before[i + 1] == y by {
      assert before[i..][0] == before[i] && before[i..][1] == before[i + 1];
    }
    assert orig[i0..i + 2] == orig[i0..i] + [x, y];
    MapPairsAppend(m, orig[i0..i], k, x, y);
    assert after[i0..i] == before[i0..i];
    assert after[i0..i + 2] == after[i0..i] + [px, py];
  }

  /** A buffer is the part before `a`, the slots `a..b` and the part from `b` on. */
  lemma {:induction false} Slices(s: seq<real>, a: nat, b: nat)
    requires a <= b <= |s|
    ensures s == s[..a] + s[a..b] + s[b..]
  {
  }

  /** The arc case: six slots rewritten in place, the last two (`psi`, `fs`) skipped. */
  method TransformArcSlots(lib: MathLib, data: array<real>, i0: nat, m: Matrix) returns (i: nat)
    requires i0 + 8 <= data.Length
    modifies data
    ensures i == i0 + 8
    ensures data[..] == Overwrite(old(data[..]), i0, TransformArc(lib, m, old(data[..])[i0..i]))
  {
    ghost var orig := data[..];
    ghost var g := data[i0..i0 + 8];
    i := i0;
    var x := m.e;
    var y := m.f;
    var (sx, sy, angle) := ArcScale(lib, m);
    data[i] := Scale(data[i], sx);
    data[i] := data[i] + x;
    i := i + 1;
    data[i] := Scale(data[i], sy);
    data[i] := data[i] + y;
    i := i + 1;
    data[i] := Scale(data[i], sx);
    i := i + 1;
    data[i] := Scale(data[i], sy);
    i := i + 1;
    data[i] := data[i] + angle;
    i := i + 1;
    data[i] := data[i] + angle;
    i := i + 1;
    i := i + 2;
    assert data[..i0] == orig[..i0] && data[i..] == orig[i..];
    ArcSlots(lib, m, g, data[i0..i]);
    Slices(data[..], i0, i);
  }

  /** Eight slots holding the arc case's values are the transformed arc operands. */
  lemma {:induction false} ArcSlots(lib: MathLib, m: Matrix, g: seq<real>, h: seq<real>)
    requires |g| == 8 && |h| == 8
    requires var k := ArcScale(lib, m);
             && h[0] == Scale(g[0], k.0) + m.e && h[1] == Scale(g[1], k.1) + m.f
             && h[2] == Scale(g[2], k.0) && h[3] == Scale(g[3], k.1)
             && h[4] == g[4] + k.2 && h[5] == g[5] + k.2 && h[6] == g[6] && h[7] == g[7]
    ensures h == TransformArc(lib, m, g)
  {
  }

  /**
   * The rectangle case, once the scratch point `p` is an array: the corner
   * `(x, y)` is read into it, mapped and written back; then `(w, h)` is
   * added to the mapped point, which is mapped again and written over the
   * size.
   */
  method TransformRectSlots(data: array<real>, i0: nat, m: Matrix) returns (i: nat)
    requires i0 + 4 <= data.Length
    modifies data
    ensures i == i0 + 4
    ensures data[..] == Overwrite(old(data[..]), i0, TransformRect(m, old(data[..])[i0..i]))
  {
    ghost var orig := data[..];
    i := i0;
    var j := i0;
    var px, py := data[i], data[i + 1];
    i := i + 2;
    px, py := Apply(m, px, py).0, Apply(m, px, py).1;
    data[j] := px;
    data[j + 1] := py;
    j := j + 2;
    px, py := px + data[i], py + data[i + 1];
    i := i + 2;
    px, py := Apply(m, px, py).0, Apply(m, px, py).1;
    data[j] := px;
    data[j + 1] := py;
    j := j + 2;
    assert data[..i0] == orig[..i0] && data[i..] == orig[i..];
    assert data[i0..i] == TransformRect(m, orig[i0..i]);
    Slices(data[..], i0, i);
  }

  /**
   * The `switch (cmd)` on the opcode `cmd` of the record `rec` whose
   * operands are stored from slot `i0`: point records only set `nPoint`; arc and rectangle records
   * are rewritten here. It gives `ok` false, having written nothing, where the
   * source throws.
   */
  method Switch(lib: MathLib, data: array<real>, cmd: real, i0: nat, m: Matrix, pDefined: bool, ghost rec: Record)
    returns (i: nat, nPoint: nat, ok: bool)
    requires ValidRecord(rec) && i0 + |rec.args| <= data.Length
    requires cmd == Code(rec.op) && data[i0..i0 + |rec.args|] == rec.args
    modifies data
    ensures ok <==> !(rec.op == R && !pDefined)
    ensures !ok || IsPointOp(rec.op) ==> data[..] == old(data[..])
    ensures ok && IsPointOp(rec.op) ==> i == i0 && 2 * nPoint == |rec.args| && 0 < nPoint
    ensures ok && !IsPointOp(rec.op) ==>
              && i == i0 + |rec.args| && nPoint == 0
              && data[..] == Overwrite(old(data[..]), i0, TransformRecord(lib, m, rec).args)
  {
    ghost var orig := data[..];
    assert orig[i0..i0 + |rec.args|] == rec.args;
    CodeInjective(rec.op);
    i := i0;
    nPoint := 0;
    ok := true;
    if cmd == Code(M) || cmd == Code(L) {
      nPoint := 1;
    } else if cmd == Code(C) {
      nPoint := 3;
    } else if cmd == Code(Q) {
      nPoint := 2;
    } else if cmd == Code(A) {
      i := TransformArcSlots(lib, data, i, m);
    } else if cmd == Code(R) {
      if !pDefined {
        return i, nPoint, false;
      }
      i := TransformRectSlots(data, i, m);
    } else {
      assert rec.op == Z;
      assert TransformRecord(lib, m, rec).args == [];
      OverwriteNothing(orig, i);
    }
  }

  /**
   * One pass of the loop body on the record `rec` stored from slot `i0`:
   * the opcode is read, the switch runs, then the point loop. It gives
   * `ok` false, having written nothing, where the source throws.
   */
  method TransformOne(lib: MathLib, data: array<real>, i0: nat, m: Matrix, pDefined: bool, ghost rec: Record)
    returns (i: nat, pAfter: bool, ok: bool)
    requires ValidRecord(rec) && i0 + 1 + |rec.args| <= data.Length
    requires data[i0] == Code(rec.op) && data[i0 + 1..i0 + 1 + |rec.args|] == rec.args
    modifies data
    ensures ok <==> !(rec.op == R && !pDefined)
    ensures !ok ==> data[..] == old(data[..])
    ensures ok ==> i == i0 + 1 + |rec.args| && pAfter == (pDefined || IsPointOp(rec.op))
    ensures ok ==> data[..] == Overwrite(old(data[..]), i0 + 1, TransformRecord(lib, m, rec).args)
  {
    ghost var orig := data[..];
    assert orig[i0 + 1..i0 + 1 + |rec.args|] == rec.args;
    i := i0;
    pAfter := pDefined;
    var cmd := data[i];
    i := i + 1;
    var nPoint;
    i, nPoint, ok := Switch(lib, data, cmd, i, m, pDefined, rec);
    if !ok {
      return;
    }
    if nPoint > 0 {
      PointRecord(lib, m, rec);
      i := TransformPoints(data, i, nPoint, m);
      pAfter := true;
    }
  }

  /** The operands of an M, L, C or Q record are mapped pair by pair. */
  lemma PointRecord(lib: MathLib, m: Matrix, rec: Record)
    requires ValidRecord(rec) && IsPointOp(rec.op)
    ensures TransformRecord(lib, m, rec).args == MapPairs(m, rec.args)
  {
  }

  /** Distinct opcodes are stored as distinct numbers. */
  lemma CodeInjective(op: Op)
    ensures forall other :: Code(other) == Code(op) ==> other == op
  {
  }

  /**
   * The loop invariant of `TransformPath` after `n` records: the buffer
   * holds the `n` rewritten records `done`, then the records not yet read,
   * and the cursor `i` is at the boundary.
   */
  ghost predicate Progress(lib: MathLib, m: Matrix, recs: seq<Record>,
                           n: nat, done: seq<Record>, i: nat, have: bool, data: seq<real>)
  {
    && ValidRecords(recs) && n <= |recs| && |done| == n
    && i == |Flatten(done)| && data == Flatten(done) + Flatten(recs[n..])
    && var t := TransformFrom(lib, m, recs[n..], have);
       TransformFrom(lib, m, recs, false) == Rewrite(t.ok, done + t.recs)
  }

  /** The records from `n` on, flattened: record `n`, then the rest. */
  lemma {:induction false} FlattenFrom(recs: seq<Record>, n: nat)
    requires n < |recs|
    ensures Flatten(recs[n..]) == [Code(recs[n].op)] + recs[n].args + Flatten(recs[n + 1..])
  {
    assert recs[n..][0] == recs[n] && recs[n..][1..] == recs[n + 1..];
  }

  /** Replacing the operands of the first record after `front` by `args'` of the same length. */
  lemma {:induction false} OverwriteOperands(front: seq<real>, code: real, args: seq<real>, args': seq<real>,
                                             rest: seq<real>)
    requires |args'| == |args|
    ensures Overwrite(front + ([code] + args + rest), |front| + 1, args') == front + [code] + args' + rest
  {
    var s := front + ([code] + args + rest);
    assert s[..|front| + 1] == front + [code];
    assert s[|front| + 1 + |args'|..] == rest;
  }

  /** One record rewritten keeps the invariant, one record further on. */
  lemma {:induction false} Advance(lib: MathLib, m: Matrix, recs: seq<Record>,
                                   n: nat, done: seq<Record>, i: nat, have: bool, data: seq<real>,
                                   data': seq<real>, i': nat, have': bool)
    requires Progress(lib, m, recs, n, done, i, have, data) && n < |recs|
    requires !(recs[n].op == R && !have)
    requires data' == Overwrite(data, i + 1, TransformRecord(lib, m, recs[n]).args)
    requires i' == i + 1 + |recs[n].args| && have' == (have || IsPointOp(recs[n].op))
    ensures Progress(lib, m, recs, n + 1, done + [TransformRecord(lib, m, recs[n])], i', have', data')
  {
    var out := TransformRecord(lib, m, recs[n]);
    assert ValidRecord(recs[n]);
    AdvanceLayout(recs, n, done, i, data, out, data', i');
    AdvanceOutcome(lib, m, recs, n, done, have);
  }

  /** The buffer after one record's operands are overwritten, as records. */
  lemma {:induction false} AdvanceLayout(recs: seq<Record>, n: nat, done: seq<Record>, i: nat, data: seq<real>,
                                         out: Record, data': seq<real>, i': nat)
    requires n < |recs| && i == |Flatten(done)| && data == Flatten(done) + Flatten(recs[n..])
    requires out.op == recs[n].op && |out.args| == |recs[n].args|
    requires data' == Overwrite(data, i + 1, out.args) && i' == i + 1 + |recs[n].args|
    ensures i' == |Flatten(done + [out])| && data' == Flatten(done + [out]) + Flatten(recs[n + 1..])
  {
    var rec := recs[n];
    FlattenFrom(recs, n);
    OverwriteOperands(Flatten(done), Code(rec.op), rec.args, out.args, Flatten(recs[n + 1..]));
    FlattenSnoc(done, out);
  }

  /** The outcome of the whole loop, one record further on. */
  lemma {:induction false} AdvanceOutcome(lib: MathLib, m: Matrix, recs: seq<Record>, n: nat, done: seq<Record>,
                                          have: bool)
    requires ValidRecords(recs) && n < |recs| && !(recs[n].op == R && !have)
    requires var t := TransformFrom(lib, m, recs[n..], have);
             TransformFrom(lib, m, recs, false) == Rewrite(t.ok, done + t.recs)
    ensures var t := TransformFrom(lib, m, recs[n + 1..], have || IsPointOp(recs[n].op));
            TransformFrom(lib, m, recs, false) == Rewrite(t.ok, (done + [TransformRecord(lib, m, recs[n])]) + t.recs)
  {
    var out := TransformRecord(lib, m, recs[n]);
    FromStep(lib, m, recs[n..], have);
    assert recs[n..][0] == recs[n] && recs[n..][1..] == recs[n + 1..];
    var rest := TransformFrom(lib, m, recs[n + 1..], have || IsPointOp(recs[n].op));
    assert TransformFrom(lib, m, recs[n..], have) == Rewrite(rest.ok, [out] + rest.recs);
    AppendAssoc(done, [out], rest.recs);
  }

  lemma AppendAssoc(a: seq<Record>, b: seq<Record>, c: seq<Record>)
    ensures a + (b + c) == (a + b) + c
  {
  }

  /** The record at the read cursor is the next one of the list. */
  lemma {:induction false} Head(lib: MathLib, m: Matrix, recs: seq<Record>,
                                n: nat, done: seq<Record>, i: nat, have: bool, data: seq<real>)
    requires Progress(lib, m, recs, n, done, i, have, data) && i < |data|
    ensures n < |recs| && ValidRecord(recs[n]) && i + 1 + |recs[n].args| <= |data|
    ensures data[i] == Code(recs[n].op) && data[i + 1..i + 1 + |recs[n].args|] == recs[n].args
  {
    if n == |recs| {
      assert false;
    }
    var rec := recs[n];
    assert ValidRecord(rec);
    FlattenFrom(recs, n);
    OperandSlots(Flatten(done), Code(rec.op), rec.args, Flatten(recs[n + 1..]));
  }

  /** The opcode and operand slots of the first record after `front`. */
  lemma {:induction false} OperandSlots(front: seq<real>, code: real, args: seq<real>, rest: seq<real>)
    ensures var s, i := front + ([code] + args + rest), |front|;
            s[i] == code && s[i + 1..i + 1 + |args|] == args
  {
  }

  /** At the end of the records, the invariant is the postcondition. */
  lemma {:induction false} Finish(lib: MathLib, m: Matrix, recs: seq<Record>,
                                  n: nat, done: seq<Record>, i: nat, have: bool, data: seq<real>)
    requires Progress(lib, m, recs, n, done, i, have, data) && i == |data|
    ensures TransformFrom(lib, m, recs, false) == Rewrite(true, done) && data == Flatten(done)
  {
    if n < |recs| {
      FlattenFrom(recs, n);
      assert false;
    }
    assert recs[n..] == [];
    assert done + [] == done;
  }

  /** Where the loop throws: the records so far rewritten, the rest untouched. */
  lemma {:induction false} Abort(lib: MathLib, m: Matrix, recs: seq<Record>,
                                 n: nat, done: seq<Record>, i: nat, have: bool, data: seq<real>)
    requires Progress(lib, m, recs, n, done, i, have, data) && n < |recs|
    requires recs[n].op == R && !have
    ensures var t := TransformFrom(lib, m, recs, false); !t.ok && data == Flatten(t.recs)
  {
    FlattenConcat(done, recs[n..]);
  }

  /**
   * One turn of the loop of `transformPath`: the record at the read cursor
   * is rewritten, and the invariant moves one record on; or the source
   * throws, and the buffer is what `TransformFrom` leaves.
   */
  method TransformNext(lib: MathLib, data: array<real>, m: Matrix, i: nat, pDefined: bool,
                       ghost recs: seq<Record>, ghost n: nat, ghost done: seq<Record>)
    returns (i': nat, pDefined': bool, ok: bool)
    requires Progress(lib, m, recs, n, done, i, pDefined, data[..]) && i < data.Length
    modifies data
    ensures n < |recs|
    ensures ok ==> Progress(lib, m, recs, n + 1, done + [TransformRecord(lib, m, recs[n])], i', pDefined', data[..])
    ensures !ok ==> var t := TransformFrom(lib, m, recs, false); !t.ok && data[..] == Flatten(t.recs)
  {
    ghost var before := data[..];
    Head(lib, m, recs, n, done, i, pDefined, before);
    i', pDefined', ok := TransformOne(lib, data, i, m, pDefined, recs[n]);
    if !ok {
      Abort(lib, m, recs, n, done, i, pDefined, before);
    } else {
      Advance(lib, m, recs, n, done, i, pDefined, before, data[..], i', pDefined');
    }
  }

  /**
   * `transformPath(path, m)` on the buffer `data`. It gives `false` where
   * the source throws: a rectangle record before any point record, when
   * the scratch `p` is still undefined.
   */
  method TransformPath(lib: MathLib, data: array<real>, m: Matrix) returns (ok: bool)
    requires Parse(data[..]).Some?
    modifies data
    ensures var t := TransformFrom(lib, m, Parse(old(data[..])).value, false);
            ok == t.ok && data[..] == Flatten(t.recs)
  {
    ghost var recs := Parse(data[..]).value;
    ghost var done: seq<Record> := [];
    ghost var n := 0;
    assert recs[0..] == recs;
    var pDefined := false;
    var i := 0;
    while i < data.Length
      invariant Progress(lib, m, recs, n, done, i, pDefined, data[..])
      decreases data.Length - i
    {
      var ok1;
      ghost var rec := recs[n];
      i, pDefined, ok1 := TransformNext(lib, data, m, i, pDefined, recs, n, done);
      if !ok1 {
        return false;
      }
      done := done + [TransformRecord(lib, m, rec)];
      n := n + 1;
    }
    Finish(lib, m, recs, n, done, i, pDefined, data[..]);
    ok := true;
  }
}
