/**
 * The interpreter of `createPathProxyFromString`: each segment's numbers are
 * consumed one group at a time, every group appends one record to the
 * command buffer, and the current point `(cpx, cpy)`, the last opcode `cmd`
 * and the opcode of the previous segment `prevCmd` are carried along.
 *
 * `Step`, `RunGroups`, `RunSegment`, `RunSegments` and `Compile` are the
 * specification; `CreatePathProxyFromString` is the loop program of the
 * source, proved to compute `Compile`.
 */
module PathCompiler {
  import opened JsMath
  import opened CommandBuffer
  import opened Arc
  import opened PathLexer

  /** How many numbers one group of a command consumes. */
  function GroupSize(k: Kind): (n: nat)
    ensures n >= 1
  {
    match k
    case MoveTo => 2
    case LineTo => 2
    case HorizontalTo => 1
    case VerticalTo => 1
    case CurveTo => 6
    case SmoothCurveTo => 4
    case QuadTo => 4
    case SmoothQuadTo => 2
    case ArcTo => 7
  }

  /** The active command after a group: a moveto goes on as a lineto (section 8.3.2 of SVG 1.1). */
  function Next(k: Kind): (n: Kind)
    ensures GroupSize(n) == GroupSize(k)
    ensures n != MoveTo && (k != MoveTo ==> n == k)
  {
    if k == MoveTo then LineTo else k
  }

  /** The opcode of the record a command appends. */
  function OpOf(k: Kind): Op {
    match k
    case MoveTo => M
    case LineTo => L
    case HorizontalTo => L
    case VerticalTo => L
    case CurveTo => C
    case SmoothCurveTo => C
    case QuadTo => Q
    case SmoothQuadTo => Q
    case ArcTo => A
  }

  /**
   * The interpreter's variables: the current point, the last opcode, the
   * buffer so far, and `(x0, y0)`, the initial point of the current subpath
   * (where the last moveto went).
   */
  datatype State = State(cpx: real, cpy: real, cmd: Option<Op>, path: seq<real>, x0: real, y0: real)

  const Start: State := State(0.0, 0.0, None, [], 0.0, 0.0)

  /**
   * A smooth command reads `path.data[len - 4]` and `[len - 3]` when the
   * previous opcode is C or Q; the buffer then holds at least that much.
   */
  predicate Reflectable(prev: Option<Op>, path: seq<real>) {
    prev == Some(C) || prev == Some(Q) ==> |path| >= 4
  }

  /**
   * The first control point of `S`/`s` (`want` = C) or `T`/`t` (`want` = Q):
   * the current point, moved by its offset from `(data[len - 4], data[len - 3])`
   * when the previous opcode is `want`.
   */
  function SmoothControl(want: Op, prev: Option<Op>, st: State): (c: (real, real))
    requires (want == C || want == Q) && Reflectable(prev, st.path)
    // the current point is the midpoint of the stored slots and the new control point
    ensures prev == Some(want) ==>
              && (c.0 + st.path[|st.path| - 4]) / 2.0 == st.cpx
              && (c.1 + st.path[|st.path| - 3]) / 2.0 == st.cpy
    ensures prev != Some(want) ==> c == (st.cpx, st.cpy)
  {
    if prev == Some(want) then
      (st.cpx + (st.cpx - st.path[|st.path| - 4]), st.cpy + (st.cpy - st.path[|st.path| - 3]))
    else
      (st.cpx, st.cpy)
  }

  /** `addData(op, args...)`, leaving the current point at `(x, y)`. */
  function Append(st: State, op: Op, args: seq<real>, x: real, y: real): (r: State)
    ensures r.cpx == x && r.cpy == y && r.cmd == Some(op) && r.x0 == st.x0 && r.y0 == st.y0
    ensures |r.path| == |st.path| + 1 + |args| && r.path[..|st.path|] == st.path
    ensures r.path[|st.path|] == Code(op) && r.path[|st.path| + 1..] == args
  {
    var r := st.(cpx := x, cpy := y, cmd := Some(op), path := st.path + Encode(Record(op, args)));
    assert r.path[|st.path|..] == Encode(Record(op, args));
    r
  }

  /**
   * The operands of a relative group made absolute: the current point is
   * added to every coordinate, and only to coordinates.
   */
  function Shift(k: Kind, g: seq<real>, x: real, y: real): (s: seq<real>)
    requires |g| == GroupSize(k)
    ensures |s| == |g|
  {
    match k
    case MoveTo => [g[0] + x, g[1] + y]
    case LineTo => [g[0] + x, g[1] + y]
    case HorizontalTo => [g[0] + x]
    case VerticalTo => [g[0] + y]
    case CurveTo => [g[0] + x, g[1] + y, g[2] + x, g[3] + y, g[4] + x, g[5] + y]
    case SmoothCurveTo => [g[0] + x, g[1] + y, g[2] + x, g[3] + y]
    case QuadTo => [g[0] + x, g[1] + y, g[2] + x, g[3] + y]
    case SmoothQuadTo => [g[0] + x, g[1] + y]
    case ArcTo => [g[0], g[1], g[2], g[3], g[4], g[5] + x, g[6] + y]
  }

  /** The operands of the record one group appends, and the current point it leaves. */
  datatype Drawn = Drawn(ops: seq<real>, x: real, y: real)

  /**
   * One group of the `switch (c)` of the source: the operands of the record
   * and the new current point. `prev` is `prevCmd`.
   */
  function Draws(lib: MathLib, k: Kind, rel: bool, g: seq<real>, prev: Option<Op>, st: State): (d: Drawn)
    requires |g| == GroupSize(k) && Reflectable(prev, st.path)
    ensures |d.ops| == Arity(OpOf(k))
  {
    var ox := if rel then st.cpx else 0.0;
    var oy := if rel then st.cpy else 0.0;
    match k
    case MoveTo => Drawn([ox + g[0], oy + g[1]], ox + g[0], oy + g[1])
    case LineTo => Drawn([ox + g[0], oy + g[1]], ox + g[0], oy + g[1])
    case HorizontalTo => Drawn([ox + g[0], st.cpy], ox + g[0], st.cpy)
    case VerticalTo => Drawn([st.cpx, oy + g[0]], st.cpx, oy + g[0])
    case CurveTo =>
      Drawn([ox + g[0], oy + g[1], ox + g[2], oy + g[3], ox + g[4], oy + g[5]], ox + g[4], oy + g[5])
    case SmoothCurveTo =>
      var (cx, cy) := SmoothControl(C, prev, st);
      Drawn([cx, cy, ox + g[0], oy + g[1], ox + g[2], oy + g[3]], ox + g[2], oy + g[3])
    case QuadTo => Drawn([ox + g[0], oy + g[1], ox + g[2], oy + g[3]], ox + g[2], oy + g[3])
    case SmoothQuadTo =>
      var (cx, cy) := SmoothControl(Q, prev, st);
      Drawn([cx, cy, ox + g[0], oy + g[1]], ox + g[0], oy + g[1])
    case ArcTo =>
      var (x2, y2) := (ox + g[5], oy + g[6]);
      Drawn(ProcessArc(lib, st.cpx, st.cpy, x2, y2, g[3], g[4], g[0], g[1], g[2])[1..], x2, y2)
  }

  /**
   * One group: its record is appended and the current point moves; a
   * moveto also starts a new subpath there.
   */
  function Step(lib: MathLib, k: Kind, rel: bool, g: seq<real>, prev: Option<Op>, st: State): (r: State)
    requires |g| == GroupSize(k) && Reflectable(prev, st.path)
    // exactly one record, of the command's opcode, is appended
    ensures r.cmd == Some(OpOf(k))
    ensures |r.path| == |st.path| + 1 + Arity(OpOf(k))
    ensures k == MoveTo ==> r.x0 == r.cpx && r.y0 == r.cpy
    ensures k != MoveTo ==> r.x0 == st.x0 && r.y0 == st.y0
  {
    var d := Draws(lib, k, rel, g, prev, st);
    var r := Append(st, OpOf(k), d.ops, d.x, d.y);
    if k == MoveTo then r.(x0 := d.x, y0 := d.y) else r
  }

  /** What `Step` appends after the opcode, and where it leaves the current point. */
  lemma StepDraws(lib: MathLib, k: Kind, rel: bool, g: seq<real>, prev: Option<Op>, st: State)
    requires |g| == GroupSize(k) && Reflectable(prev, st.path)
    ensures var r, d := Step(lib, k, rel, g, prev, st), Draws(lib, k, rel, g, prev, st);
            r.path[|st.path| + 1..] == d.ops && r.cpx == d.x && r.cpy == d.y
  {
  }

  /**
   * The new current point: upper-case letters set it to the group's final
   * pair, lower-case letters add that pair to it; `H`/`h` change only x and
   * `V`/`v` only y.
   */
  lemma StepCurrentPoint(lib: MathLib, k: Kind, rel: bool, g: seq<real>, prev: Option<Op>, st: State)
    requires |g| == GroupSize(k) && Reflectable(prev, st.path)
    ensures var r := Step(lib, k, rel, g, prev, st);
            var (ox, oy) := if rel then (st.cpx, st.cpy) else (0.0, 0.0);
            && (k == HorizontalTo ==> r.cpx == ox + g[0] && r.cpy == st.cpy)
            && (k == VerticalTo ==> r.cpx == st.cpx && r.cpy == oy + g[0])
            && (k != HorizontalTo && k != VerticalTo ==>
                  r.cpx == ox + g[|g| - 2] && r.cpy == oy + g[|g| - 1])
  {
    StepDraws(lib, k, rel, g, prev, st);
  }

  /**
   * Every record but an arc ends with the new current point (with `StepDraws`,
   * the last two slots of the buffer after `Step`).
   */
  lemma DrawsEndAtCurrentPoint(lib: MathLib, k: Kind, rel: bool, g: seq<real>, prev: Option<Op>, st: State)
    requires |g| == GroupSize(k) && Reflectable(prev, st.path) && k != ArcTo
    ensures var d := Draws(lib, k, rel, g, prev, st);
            d.ops[|d.ops| - 2] == d.x && d.ops[|d.ops| - 1] == d.y
  {
  }

  /** Absolute moveto, lineto, curveto and quadratic commands store their operands as given. */
  lemma AbsoluteOperands(lib: MathLib, k: Kind, g: seq<real>, prev: Option<Op>, st: State)
    requires |g| == GroupSize(k) && Reflectable(prev, st.path)
    requires k == MoveTo || k == LineTo || k == CurveTo || k == QuadTo
    ensures Step(lib, k, false, g, prev, st).path[|st.path| + 1..] == g
  {
    StepDraws(lib, k, false, g, prev, st);
    var ops := Draws(lib, k, false, g, prev, st).ops;
    if k == CurveTo {
      assert ops == [g[0], g[1], g[2], g[3], g[4], g[5]];
    } else if k == QuadTo {
      assert ops == [g[0], g[1], g[2], g[3]];
    } else {
      assert ops == [g[0], g[1]];
    }
  }

  /** `H` and `V` store the full point: the given coordinate and the current point's other one. */
  lemma AbsoluteAxisOperands(lib: MathLib, k: Kind, g: seq<real>, prev: Option<Op>, st: State)
    requires |g| == GroupSize(k) && Reflectable(prev, st.path)
    requires k == HorizontalTo || k == VerticalTo
    ensures var ops := Step(lib, k, false, g, prev, st).path[|st.path| + 1..];
            && (k == HorizontalTo ==> ops == [g[0], st.cpy])
            && (k == VerticalTo ==> ops == [st.cpx, g[0]])
  {
    StepDraws(lib, k, false, g, prev, st);
  }

  /** Absolute `S` and `T` store their operands after the first control point. */
  lemma AbsoluteSmoothOperands(lib: MathLib, k: Kind, g: seq<real>, prev: Option<Op>, st: State)
    requires |g| == GroupSize(k) && Reflectable(prev, st.path)
    requires k == SmoothCurveTo || k == SmoothQuadTo
    ensures Step(lib, k, false, g, prev, st).path[|st.path| + 1..][2..] == g
  {
    StepDraws(lib, k, false, g, prev, st);
    var ops := Draws(lib, k, false, g, prev, st).ops;
    if k == SmoothCurveTo {
      assert ops[2..] == [g[0], g[1], g[2], g[3]];
    } else {
      assert ops[2..] == [g[0], g[1]];
    }
  }

  /**
   * `S`/`s` and `T`/`t` start with the control point reflected against the
   * buffer when `prevCmd` is C (resp. Q), and with the current point otherwise.
   */
  lemma SmoothOperands(lib: MathLib, k: Kind, rel: bool, g: seq<real>, prev: Option<Op>, st: State)
    requires |g| == GroupSize(k) && Reflectable(prev, st.path)
    requires k == SmoothCurveTo || k == SmoothQuadTo
    ensures var r := Step(lib, k, rel, g, prev, st);
            (r.path[|st.path| + 1], r.path[|st.path| + 2])
              == SmoothControl(if k == SmoothCurveTo then C else Q, prev, st)
  {
    StepDraws(lib, k, rel, g, prev, st);
  }

  /** An arc group appends the record `processArc` computes from the old to the new current point. */
  lemma ArcOperands(lib: MathLib, rel: bool, g: seq<real>, prev: Option<Op>, st: State)
    requires |g| == GroupSize(ArcTo) && Reflectable(prev, st.path)
    ensures var r := Step(lib, ArcTo, rel, g, prev, st);
            r.path[|st.path|..] == ProcessArc(lib, st.cpx, st.cpy, r.cpx, r.cpy, g[3], g[4], g[0], g[1], g[2])
  {
    var r := Step(lib, ArcTo, rel, g, prev, st);
    StepDraws(lib, ArcTo, rel, g, prev, st);
    var arc := ProcessArc(lib, st.cpx, st.cpy, r.cpx, r.cpy, g[3], g[4], g[0], g[1], g[2]);
    assert r.path[|st.path|..] == [r.path[|st.path|]] + r.path[|st.path| + 1..];
    assert arc == [arc[0]] + arc[1..];
  }

  /** A relative command is the absolute command with the current point added to its end points and control points. */
  lemma RelativeIsShiftedAbsolute(lib: MathLib, k: Kind, g: seq<real>, prev: Option<Op>, st: State)
    requires |g| == GroupSize(k) && Reflectable(prev, st.path)
    ensures Step(lib, k, true, g, prev, st) == Step(lib, k, false, Shift(k, g, st.cpx, st.cpy), prev, st)
  {
    if k == CurveTo || k == SmoothCurveTo || k == QuadTo || k == SmoothQuadTo {
      RelativeCurve(lib, k, g, prev, st);
    } else if k == ArcTo {
      RelativeArc(lib, g, prev, st);
    } else {
      RelativeLine(lib, k, g, prev, st);
    }
  }

  /** A relative arc shifts its end point only: radii, rotation and flags are not coordinates. */
  lemma RelativeArc(lib: MathLib, g: seq<real>, prev: Option<Op>, st: State)
    requires |g| == GroupSize(ArcTo) && Reflectable(prev, st.path)
    ensures Draws(lib, ArcTo, true, g, prev, st) == Draws(lib, ArcTo, false, Shift(ArcTo, g, st.cpx, st.cpy), prev, st)
  {
    var s := Shift(ArcTo, g, st.cpx, st.cpy);
    var x2, y2 := st.cpx + g[5], st.cpy + g[6];
    ArcDraws(lib, true, g, prev, st, x2, y2);
    ArcDraws(lib, false, s, prev, st, x2, y2);
  }

  /** The arc case of `Draws`: `processArc` from the current point to the end point `(x2, y2)`. */
  lemma ArcDraws(lib: MathLib, rel: bool, g: seq<real>, prev: Option<Op>, st: State, x2: real, y2: real)
    requires |g| == GroupSize(ArcTo) && Reflectable(prev, st.path)
    requires x2 == (if rel then st.cpx else 0.0) + g[5] && y2 == (if rel then st.cpy else 0.0) + g[6]
    ensures Draws(lib, ArcTo, rel, g, prev, st)
         == Drawn(ProcessArc(lib, st.cpx, st.cpy, x2, y2, g[3], g[4], g[0], g[1], g[2])[1..], x2, y2)
  {
  }

  lemma RelativeCurve(lib: MathLib, k: Kind, g: seq<real>, prev: Option<Op>, st: State)
    requires |g| == GroupSize(k) && Reflectable(prev, st.path)
    requires k == CurveTo || k == SmoothCurveTo || k == QuadTo || k == SmoothQuadTo
    ensures Draws(lib, k, true, g, prev, st) == Draws(lib, k, false, Shift(k, g, st.cpx, st.cpy), prev, st)
  {
  }

  lemma RelativeLine(lib: MathLib, k: Kind, g: seq<real>, prev: Option<Op>, st: State)
    requires |g| == GroupSize(k) && Reflectable(prev, st.path)
    requires k == MoveTo || k == LineTo || k == HorizontalTo || k == VerticalTo
    ensures Draws(lib, k, true, g, prev, st) == Draws(lib, k, false, Shift(k, g, st.cpx, st.cpy), prev, st)
  {
  }

  /**
   * The `n` numbers from index `off`, when all of them parsed; `None` when
   * one of them is NaN or missing (`p[off++]` past the end is `undefined`).
   */
  function Group(p: seq<Option<real>>, off: nat, n: nat): (g: Option<seq<real>>)
    ensures g.Some? <==> off + n <= |p| && forall j :: off <= j < off + n ==> p[j].Some?
    ensures g.Some? ==> |g.value| == n && forall j :: 0 <= j < n ==> p[off + j] == Some(g.value[j])
  {
    if off + n <= |p| && forall j :: off <= j < off + n ==> p[j].Some? then
      Some(seq(n, j requires 0 <= j < n => p[off + j].value))
    else
      None
  }

  /**
   * The `while (off < p.length && !isNaN(p[off]))` loop of one segment, from
   * number `off` on. `None` stands for a group that reads a NaN or a missing
   * number: the source then stores NaN in the buffer, which this model does
   * not follow. Every group reads `prev` as its `prevCmd`: the opcode the
   * segment before ended with, since `prevCmd` is set only once a segment is
   * done.
   */
  function RunGroups(lib: MathLib, k: Kind, rel: bool, p: seq<Option<real>>, off: nat,
                     prev: Option<Op>, st: State): (r: Option<State>)
    requires Reflectable(prev, st.path) && Reflectable(st.cmd, st.path)
    ensures r.Some? ==> Reflectable(r.value.cmd, r.value.path) && Reflectable(prev, r.value.path)
    ensures r.Some? ==> |r.value.path| >= |st.path| && r.value.path[..|st.path|] == st.path
    decreases |p| - off
  {
    if off >= |p| || p[off].None? then Some(st)
    else match Group(p, off, GroupSize(k))
      case None => None
      case Some(g) =>
        var st' := Step(lib, k, rel, g, prev, st);
        var r := RunGroups(lib, Next(k), rel, p, off + GroupSize(k), prev, st');
        PrefixTrans(st.path, st'.path, if r.Some? then r.value.path else st'.path);
        r
  }

  lemma PrefixTrans(a: seq<real>, b: seq<real>, c: seq<real>)
    requires |a| <= |b| <= |c| && b[..|a|] == a && c[..|b|] == b
    ensures c[..|a|] == a
  {
    assert c[..|b|][..|a|] == c[..|a|];
  }

  /** A segment the source's loop leaves: its letter draws, or its numbers stop at once. */
  predicate Finite(seg: Segment) {
    seg.letter.Draw? || seg.values == [] || seg.values[0].None?
  }

  /** The close-path record; the current point stays where the last command left it. */
  function Close(st: State): (r: State)
    ensures r.path == st.path + [Code(Z)] && r.cmd == Some(Z)
    ensures r.cpx == st.cpx && r.cpy == st.cpy && r.x0 == st.x0 && r.y0 == st.y0
  {
    assert Encode(Record(Z, [])) == [Code(Z)];
    st.(cmd := Some(Z), path := st.path + Encode(Record(Z, [])))
  }

  /**
   * One iteration of the segment loop: the groups, all reading the opcode
   * the previous segment ended with, then the close-path record of a
   * `z`/`Z` segment.
   */
  function RunSegment(lib: MathLib, seg: Segment, st: State): (r: Option<State>)
    requires Finite(seg) && Reflectable(st.cmd, st.path)
    ensures r.Some? ==> Reflectable(r.value.cmd, r.value.path)
    ensures r.Some? ==> |r.value.path| >= |st.path| && r.value.path[..|st.path|] == st.path
    ensures seg.letter == ClosePath ==> r == Some(Close(st))
    ensures seg.letter == NoCommand ==> r == Some(st)
  {
    match seg.letter
    case Draw(k, rel) => RunGroups(lib, k, rel, seg.values, 0, st.cmd, st)
    case ClosePath => Some(Close(st))
    case NoCommand => Some(st)
  }

  /** The segment loop, from segment `i` on: the buffer only grows. */
  function RunSegments(lib: MathLib, segs: seq<Segment>, i: nat, st: State): (r: Option<State>)
    requires forall j :: 0 <= j < |segs| ==> Finite(segs[j])
    requires Reflectable(st.cmd, st.path)
    ensures r.Some? ==> |r.value.path| >= |st.path| && r.value.path[..|st.path|] == st.path
    decreases |segs| - i
  {
    if i >= |segs| then Some(st)
    else match RunSegment(lib, segs[i], st)
      case None => None
      case Some(st') =>
        var r := RunSegments(lib, segs, i + 1, st');
        PrefixTrans(st.path, st'.path, if r.Some? then r.value.path else st'.path);
        r
  }

  /** What `createPathProxyFromString` gives back. */
  datatype Outcome =
    | EmptyArray                // `[]`, for an empty string
    | Built(data: seq<real>)    // the path's command buffer
    | NaNOperand                // some group read a NaN or missing number

  /** The source's loops end on `data`: no segment without a drawing letter has a number. */
  predicate Terminates(parseFloat: string -> Option<real>, data: string) {
    forall i :: 0 <= i < |Lex(parseFloat, data)| ==> Finite(Lex(parseFloat, data)[i])
  }

  function Compile(lib: MathLib, parseFloat: string -> Option<real>, data: string): (r: Outcome)
    requires Terminates(parseFloat, data)
    ensures r == EmptyArray <==> data == []
  {
    if data == [] then EmptyArray
    else match RunSegments(lib, Lex(parseFloat, data), 0, Start)
      case None => NaNOperand
      case Some(st) => Built(st.path)
  }

  /**
   * The state of the group loop of one segment read from `p`: `off` numbers
   * consumed, `c` the active letter, `s` the interpreter's variables, and the
   * rest of `RunGroups`, reading the opcode `st.cmd` the segment started
   * after, still giving the segment's outcome `goal`.
   */
  ghost predicate Pending(lib: MathLib, letter: Letter, p: seq<Option<real>>, st: State,
                          goal: Option<State>, off: nat, c: Letter, s: State) {
    && off <= |p|
    && (off > 0 ==> p[0].Some? && letter.Draw?)
    && (off == 0 ==> c == letter && s == st)
    && (c.Draw? <==> letter.Draw?)
    && Reflectable(s.cmd, s.path) && Reflectable(st.cmd, s.path)
    && (c.Draw? ==> RunGroups(lib, c.kind, c.relative, p, off, st.cmd, s) == goal)
  }

  /** Before the first group, the whole segment is pending. */
  lemma PendingStart(lib: MathLib, letter: Letter, p: seq<Option<real>>, st: State)
    requires Finite(Segment(letter, p)) && Reflectable(st.cmd, st.path)
    ensures Pending(lib, letter, p, st, RunSegment(lib, Segment(letter, p), st), 0, letter, st)
  {
  }

  /** One group consumed, reading the opcode the segment started after, keeps the loop state. */
  lemma PendingStep(lib: MathLib, letter: Letter, p: seq<Option<real>>, st: State,
                    goal: Option<State>, off: nat, k: Kind, rel: bool, s: State, g: seq<real>, next: State)
    requires Pending(lib, letter, p, st, goal, off, Draw(k, rel), s)
    requires off < |p| && p[off].Some? && Group(p, off, GroupSize(k)) == Some(g)
    requires next == Step(lib, k, rel, g, st.cmd, s)
    ensures Pending(lib, letter, p, st, goal, off + GroupSize(k), Draw(Next(k), rel), next)
  {
  }

  /** A group that reads a NaN or a missing number fails the whole segment. */
  lemma PendingFail(lib: MathLib, letter: Letter, p: seq<Option<real>>, st: State,
                    goal: Option<State>, off: nat, k: Kind, rel: bool, s: State)
    requires Pending(lib, letter, p, st, goal, off, Draw(k, rel), s)
    requires off < |p| && p[off].Some? && Group(p, off, GroupSize(k)).None?
    ensures goal == None
  {
  }

  /** When the group loop stops, the segment's outcome is the loop's state, closed by `z`. */
  lemma PendingDone(lib: MathLib, letter: Letter, p: seq<Option<real>>, st: State, off: nat, c: Letter, s: State)
    requires Finite(Segment(letter, p)) && Reflectable(st.cmd, st.path)
    requires Pending(lib, letter, p, st, RunSegment(lib, Segment(letter, p), st), off, c, s)
    requires off == |p| || p[off].None? || p[0].None?
    ensures c == ClosePath ==> RunSegment(lib, Segment(letter, p), st) == Some(Close(s))
    ensures c != ClosePath ==> RunSegment(lib, Segment(letter, p), st) == Some(s)
  {
    if off > 0 && p[0].None? {
      assert false;
    }
  }

  /**
   * The initial point of the current subpath of a buffer: the operands of
   * its last moveto record, or the origin when it has none.
   */
  function SubpathStart(recs: seq<Record>): (real, real)
    decreases |recs|
  {
    if recs == [] then (0.0, 0.0)
    else
      var last := recs[|recs| - 1];
      if last.op == M && |last.args| == 2 then (last.args[0], last.args[1])
      else SubpathStart(recs[..|recs| - 1])
  }

  lemma SubpathSnoc(recs: seq<Record>, r: Record)
    ensures SubpathStart(recs + [r])
         == if r.op == M && |r.args| == 2 then (r.args[0], r.args[1]) else SubpathStart(recs)
  {
    assert (recs + [r])[..|recs|] == recs;
  }

  /** The subpath starts where the last moveto went: later records other than movetos leave it. */
  lemma {:induction false} SubpathStartOfMove(front: seq<Record>, x: real, y: real, rest: seq<Record>)
    requires forall i :: 0 <= i < |rest| ==> rest[i].op != M
    ensures SubpathStart(front + [Record(M, [x, y])] + rest) == (x, y)
    decreases |rest|
  {
    var moved := front + [Record(M, [x, y])];
    if rest == [] {
      SubpathSnoc(front, Record(M, [x, y]));
      assert moved + rest == moved;
    } else {
      var n := |rest|;
      assert moved + rest == (moved + rest[..n - 1]) + [rest[n - 1]];
      SubpathSnoc(moved + rest[..n - 1], rest[n - 1]);
      SubpathStartOfMove(front, x, y, rest[..n - 1]);
    }
  }

  /**
   * What the interpreter's variables say about the buffer: it is a whole
   * number of records, `cmd` is the opcode of the last one, and `(x0, y0)`
   * is the start of its last subpath.
   */
  predicate Tracked(st: State) {
    && Parse(st.path).Some?
    && st.cmd == LastOp(st.path)
    && (st.x0, st.y0) == SubpathStart(Parse(st.path).value)
  }

  /** A tracked buffer holds the slots a smooth command reads. */
  lemma TrackedReflectable(st: State)
    requires Tracked(st)
    ensures Reflectable(st.cmd, st.path)
  {
    var recs := Parse(st.path).value;
    if recs != [] && |recs[|recs| - 1].args| > 0 {
      LastRecordSlots(recs, 0);
    }
  }

  /** A group appends exactly the record `Draws` computes, and keeps the variables tracking the buffer. */
  lemma StepTracked(lib: MathLib, k: Kind, rel: bool, g: seq<real>, prev: Option<Op>, st: State)
    requires |g| == GroupSize(k) && Reflectable(prev, st.path) && Tracked(st)
    ensures var r, d := Step(lib, k, rel, g, prev, st), Draws(lib, k, rel, g, prev, st);
            && Parse(r.path) == Some(Parse(st.path).value + [Record(OpOf(k), d.ops)])
            && Tracked(r) && Reflectable(r.cmd, r.path)
  {
    var d := Draws(lib, k, rel, g, prev, st);
    var rec := Record(OpOf(k), d.ops);
    assert Step(lib, k, rel, g, prev, st).path == st.path + Encode(rec);
    AppendRecord(st.path, rec);
    SubpathSnoc(Parse(st.path).value, rec);
    if k == MoveTo {
      DrawsEndAtCurrentPoint(lib, k, rel, g, prev, st);
    }
    TrackedReflectable(Step(lib, k, rel, g, prev, st));
  }

  /**
   * `z`/`Z` appends one close-path record, keeps the variables tracking the
   * buffer, and leaves the current point where it was: after it, the
   * current point is in general not the start of the subpath.
   */
  lemma CloseTracked(st: State)
    requires Tracked(st)
    ensures var r := Close(st);
            && Parse(r.path) == Some(Parse(st.path).value + [Record(Z, [])])
            && Tracked(r) && (r.cpx, r.cpy) == (st.cpx, st.cpy)
  {
    assert Close(st).path == st.path + Encode(Record(Z, []));
    AppendRecord(st.path, Record(Z, []));
    SubpathSnoc(Parse(st.path).value, Record(Z, []));
  }

  /** A property of the state that every group keeps is kept by the whole loop. */
  lemma {:induction false} RunGroupsKeeps(lib: MathLib, k: Kind, rel: bool, p: seq<Option<real>>, off: nat,
                                          prev: Option<Op>, st: State, inv: State -> bool)
    requires Reflectable(prev, st.path) && Reflectable(st.cmd, st.path) && inv(st)
    requires forall k': Kind, g: seq<real>, s: State {:trigger inv(Step(lib, k', rel, g, prev, s))} ::
               |g| == GroupSize(k') && Reflectable(prev, s.path) && Reflectable(s.cmd, s.path) && inv(s)
               ==> inv(Step(lib, k', rel, g, prev, s))
    ensures var r := RunGroups(lib, k, rel, p, off, prev, st); r.Some? ==> inv(r.value)
    decreases |p| - off
  {
    if off < |p| && p[off].Some? && Group(p, off, GroupSize(k)).Some? {
      var next := GroupKeeps(lib, k, rel, p, off, prev, st, inv);
      RunGroupsKeeps(lib, Next(k), rel, p, off + GroupSize(k), prev, next, inv);
    } else {
      RunGroupsStops(lib, k, rel, p, off, prev, st);
    }
  }

  /** Where the numbers run out, stop at a NaN or fall short of a group, no record is drawn. */
  lemma RunGroupsStops(lib: MathLib, k: Kind, rel: bool, p: seq<Option<real>>, off: nat, prev: Option<Op>, st: State)
    requires Reflectable(prev, st.path) && Reflectable(st.cmd, st.path)
    requires !(off < |p| && p[off].Some? && Group(p, off, GroupSize(k)).Some?)
    ensures var r := RunGroups(lib, k, rel, p, off, prev, st); r.Some? ==> r.value == st
  {
  }

  lemma GroupKeeps(lib: MathLib, k: Kind, rel: bool, p: seq<Option<real>>, off: nat, prev: Option<Op>, st: State,
                   inv: State -> bool) returns (next: State)
    requires Reflectable(prev, st.path) && Reflectable(st.cmd, st.path) && inv(st)
    requires forall k': Kind, g: seq<real>, s: State {:trigger inv(Step(lib, k', rel, g, prev, s))} ::
               |g| == GroupSize(k') && Reflectable(prev, s.path) && Reflectable(s.cmd, s.path) && inv(s)
               ==> inv(Step(lib, k', rel, g, prev, s))
    requires off < |p| && p[off].Some? && Group(p, off, GroupSize(k)).Some?
    ensures Reflectable(prev, next.path) && Reflectable(next.cmd, next.path) && inv(next)
    ensures RunGroups(lib, k, rel, p, off, prev, st) == RunGroups(lib, Next(k), rel, p, off + GroupSize(k), prev, next)
  {
    var g := Group(p, off, GroupSize(k)).value;
    next := Step(lib, k, rel, g, prev, st);
    GroupsNext(lib, k, rel, p, off, prev, st, g, next);
  }

  lemma RunGroupsTracked(lib: MathLib, k: Kind, rel: bool, p: seq<Option<real>>, off: nat, prev: Option<Op>, st: State)
    requires Reflectable(prev, st.path) && Reflectable(st.cmd, st.path) && Tracked(st)
    ensures var r := RunGroups(lib, k, rel, p, off, prev, st); r.Some? ==> Tracked(r.value)
  {
    forall k': Kind, g: seq<real>, s: State
      | |g| == GroupSize(k') && Reflectable(prev, s.path) && Reflectable(s.cmd, s.path) && Tracked(s)
      ensures Tracked(Step(lib, k', rel, g, prev, s))
    {
      StepTracked(lib, k', rel, g, prev, s);
    }
    RunGroupsKeeps(lib, k, rel, p, off, prev, st, Tracked);
  }

  lemma RunSegmentTracked(lib: MathLib, seg: Segment, st: State)
    requires Finite(seg) && Reflectable(st.cmd, st.path) && Tracked(st)
    ensures var r := RunSegment(lib, seg, st); r.Some? ==> Tracked(r.value)
  {
    match seg.letter
    case Draw(k, rel) => RunGroupsTracked(lib, k, rel, seg.values, 0, st.cmd, st);
    case ClosePath => CloseTracked(st);
    case NoCommand =>
  }

  lemma {:induction false} RunSegmentsTracked(lib: MathLib, segs: seq<Segment>, i: nat, st: State)
    requires forall j :: 0 <= j < |segs| ==> Finite(segs[j])
    requires Reflectable(st.cmd, st.path) && Tracked(st)
    ensures var r := RunSegments(lib, segs, i, st); r.Some? ==> Tracked(r.value)
    decreases |segs| - i
  {
    if i < |segs| {
      RunSegmentTracked(lib, segs[i], st);
      var r := RunSegment(lib, segs[i], st);
      if r.Some? {
        RunSegmentsTracked(lib, segs, i + 1, r.value);
      }
    }
  }

  /** A built buffer is a whole number of records, as `transformPath` reads it. */
  lemma CompiledBufferParses(lib: MathLib, parseFloat: string -> Option<real>, data: string)
    requires Terminates(parseFloat, data)
    ensures var r := Compile(lib, parseFloat, data); r.Built? ==> Parse(r.data).Some?
  {
    if data != [] {
      RunSegmentsTracked(lib, Lex(parseFloat, data), 0, Start);
    }
  }

  /**
   * The groups of a segment tell the previous segment's opcode apart only
   * as "C", "Q" or anything else: two opcodes that agree on that give the
   * same segment, whatever the groups of the segment itself draw.
   */
  lemma {:induction false} RunGroupsSamePrev(lib: MathLib, k: Kind, rel: bool, p: seq<Option<real>>, off: nat,
                                             prev1: Option<Op>, prev2: Option<Op>, st: State)
    requires Reflectable(prev1, st.path) && Reflectable(prev2, st.path) && Reflectable(st.cmd, st.path)
    requires (prev1 == Some(C) <==> prev2 == Some(C)) && (prev1 == Some(Q) <==> prev2 == Some(Q))
    ensures RunGroups(lib, k, rel, p, off, prev1, st) == RunGroups(lib, k, rel, p, off, prev2, st)
    decreases |p| - off
  {
    var more, k', off', next := SamePrevCase(lib, k, rel, p, off, prev1, prev2, st);
    if more {
      RunGroupsSamePrev(lib, k', rel, p, off', prev1, prev2, next);
    }
  }

  /** One turn of the loop under both opcodes: either it stops alike, or it goes on from `next` alike. */
  lemma SamePrevCase(lib: MathLib, k: Kind, rel: bool, p: seq<Option<real>>, off: nat,
                     prev1: Option<Op>, prev2: Option<Op>, st: State)
    returns (more: bool, k': Kind, off': nat, next: State)
    requires Reflectable(prev1, st.path) && Reflectable(prev2, st.path) && Reflectable(st.cmd, st.path)
    requires (prev1 == Some(C) <==> prev2 == Some(C)) && (prev1 == Some(Q) <==> prev2 == Some(Q))
    ensures !more ==> RunGroups(lib, k, rel, p, off, prev1, st) == RunGroups(lib, k, rel, p, off, prev2, st)
    ensures more ==> off < off' <= |p| && k' == Next(k) && off' == off + GroupSize(k)
    ensures more ==> Reflectable(prev1, next.path) && Reflectable(prev2, next.path) && Reflectable(next.cmd, next.path)
    ensures more ==> RunGroups(lib, k, rel, p, off, prev1, st) == RunGroups(lib, k', rel, p, off', prev1, next)
    ensures more ==> RunGroups(lib, k, rel, p, off, prev2, st) == RunGroups(lib, k', rel, p, off', prev2, next)
  {
    more := off < |p| && p[off].Some? && Group(p, off, GroupSize(k)).Some?;
    k', off' := Next(k), off + GroupSize(k);
    if more {
      next := SamePrevNext(lib, k, rel, p, off, prev1, prev2, st, k', off');
    } else {
      SamePrevStop(lib, k, rel, p, off, prev1, prev2, st);
      next := st;
    }
  }

  /** Where the loop stops, it stops alike whatever it reads as `prevCmd`. */
  lemma SamePrevStop(lib: MathLib, k: Kind, rel: bool, p: seq<Option<real>>, off: nat,
                     prev1: Option<Op>, prev2: Option<Op>, st: State)
    requires Reflectable(prev1, st.path) && Reflectable(prev2, st.path) && Reflectable(st.cmd, st.path)
    requires !(off < |p| && p[off].Some? && Group(p, off, GroupSize(k)).Some?)
    ensures RunGroups(lib, k, rel, p, off, prev1, st) == RunGroups(lib, k, rel, p, off, prev2, st)
  {
  }

  lemma SamePrevNext(lib: MathLib, k: Kind, rel: bool, p: seq<Option<real>>, off: nat,
                     prev1: Option<Op>, prev2: Option<Op>, st: State, k': Kind, off': nat) returns (next: State)
    requires Reflectable(prev1, st.path) && Reflectable(prev2, st.path) && Reflectable(st.cmd, st.path)
    requires (prev1 == Some(C) <==> prev2 == Some(C)) && (prev1 == Some(Q) <==> prev2 == Some(Q))
    requires off < |p| && p[off].Some? && Group(p, off, GroupSize(k)).Some?
    requires k' == Next(k) && off' == off + GroupSize(k)
    ensures Reflectable(prev1, next.path) && Reflectable(prev2, next.path) && Reflectable(next.cmd, next.path)
    ensures RunGroups(lib, k, rel, p, off, prev1, st) == RunGroups(lib, k', rel, p, off', prev1, next)
    ensures RunGroups(lib, k, rel, p, off, prev2, st) == RunGroups(lib, k', rel, p, off', prev2, next)
  {
    var g := Group(p, off, GroupSize(k)).value;
    StepSamePrev(lib, k, rel, g, prev1, prev2, st);
    next := Step(lib, k, rel, g, prev1, st);
    GroupsNextAt(lib, k, rel, p, off, prev1, st, g, next, k', off');
    GroupsNextAt(lib, k, rel, p, off, prev2, st, g, next, k', off');
  }

  /** Only `S`/`s` reads whether `prevCmd` is C, only `T`/`t` whether it is Q; no other group reads it. */
  lemma StepSamePrev(lib: MathLib, k: Kind, rel: bool, g: seq<real>, prev1: Option<Op>, prev2: Option<Op>, st: State)
    requires |g| == GroupSize(k) && Reflectable(prev1, st.path) && Reflectable(prev2, st.path)
    requires k == SmoothCurveTo ==> (prev1 == Some(C) <==> prev2 == Some(C))
    requires k == SmoothQuadTo ==> (prev1 == Some(Q) <==> prev2 == Some(Q))
    ensures Step(lib, k, rel, g, prev1, st) == Step(lib, k, rel, g, prev2, st)
  {
    if k == SmoothCurveTo {
      assert SmoothControl(C, prev1, st) == SmoothControl(C, prev2, st);
    } else if k == SmoothQuadTo {
      assert SmoothControl(Q, prev1, st) == SmoothControl(Q, prev2, st);
    }
    assert Draws(lib, k, rel, g, prev1, st) == Draws(lib, k, rel, g, prev2, st);
  }

  /**
   * A segment that follows anything but a curve never reflects: each of its
   * `S`/`T` groups starts at the current point, as after an empty buffer,
   * even when the group before it in the same segment is a curve.
   */
  lemma SegmentAfterNonCurve(lib: MathLib, k: Kind, rel: bool, p: seq<Option<real>>, prev: Option<Op>, st: State)
    requires prev != Some(C) && prev != Some(Q) && Reflectable(st.cmd, st.path)
    ensures RunGroups(lib, k, rel, p, 0, prev, st) == RunGroups(lib, k, rel, p, 0, None, st)
  {
    RunGroupsSamePrev(lib, k, rel, p, 0, prev, None, st);
  }

  /** A group read in full: its record is appended and the loop goes on after it. */
  lemma GroupsNext(lib: MathLib, k: Kind, rel: bool, p: seq<Option<real>>, off: nat, prev: Option<Op>,
                   st: State, g: seq<real>, next: State)
    requires Reflectable(prev, st.path) && Reflectable(st.cmd, st.path) && off < |p| && p[off].Some?
    requires Group(p, off, GroupSize(k)) == Some(g) && next == Step(lib, k, rel, g, prev, st)
    ensures RunGroups(lib, k, rel, p, off, prev, st) == RunGroups(lib, Next(k), rel, p, off + GroupSize(k), prev, next)
  {
  }

  /** `GroupsNext` with the next kind and offset named by the caller. */
  lemma GroupsNextAt(lib: MathLib, k: Kind, rel: bool, p: seq<Option<real>>, off: nat, prev: Option<Op>,
                     st: State, g: seq<real>, next: State, k': Kind, off': nat)
    requires Reflectable(prev, st.path) && Reflectable(st.cmd, st.path) && off < |p| && p[off].Some?
    requires Group(p, off, GroupSize(k)) == Some(g) && next == Step(lib, k, rel, g, prev, st)
    requires k' == Next(k) && off' == off + GroupSize(k)
    ensures RunGroups(lib, k, rel, p, off, prev, st) == RunGroups(lib, k', rel, p, off', prev, next)
  {
  }

  /** The group of numbers `g` read from index `off` of `p`. */
  lemma GroupOf(p: seq<Option<real>>, off: nat, g: seq<real>)
    requires off + |g| <= |p| && forall j :: 0 <= j < |g| ==> p[off + j] == Some(g[j])
    ensures Group(p, off, |g|) == Some(g)
  {
    assert forall j :: off <= j < off + |g| ==> p[j] == Some(g[j - off]);
    var r := Group(p, off, |g|);
    assert forall j :: 0 <= j < |g| ==> p[off + j] == Some(r.value[j]) && r.value[j] == g[j];
    assert r.value == g;
  }

  /** A moveto or lineto group `(x, y)`, absolute or relative. */
  lemma LineStep(lib: MathLib, k: Kind, rel: bool, x: real, y: real, prev: Option<Op>, st: State)
    requires (k == MoveTo || k == LineTo) && Reflectable(prev, st.path)
    ensures var px, py := if rel then st.cpx + x else x, if rel then st.cpy + y else y;
            Step(lib, k, rel, [x, y], prev, st)
              == State(px, py, Some(OpOf(k)), st.path + [Code(OpOf(k)), px, py],
                       if k == MoveTo then px else st.x0, if k == MoveTo then py else st.y0)
  {
    var px, py := if rel then st.cpx + x else x, if rel then st.cpy + y else y;
    assert Draws(lib, k, rel, [x, y], prev, st) == Drawn([px, py], px, py);
    assert Encode(Record(OpOf(k), [px, py])) == [Code(OpOf(k)), px, py];
    assert Append(st, OpOf(k), [px, py], px, py).path == st.path + [Code(OpOf(k)), px, py];
  }

  /** An absolute `S` group `(x2, y2, x, y)`. */
  lemma SmoothCubicStep(lib: MathLib, g: seq<real>, prev: Option<Op>, st: State)
    requires |g| == 4 && Reflectable(prev, st.path)
    ensures var (cx, cy) := SmoothControl(C, prev, st);
            Step(lib, SmoothCurveTo, false, g, prev, st)
              == State(g[2], g[3], Some(C), st.path + [Code(C), cx, cy, g[0], g[1], g[2], g[3]], st.x0, st.y0)
  {
    var (cx, cy) := SmoothControl(C, prev, st);
    assert Encode(Record(C, [cx, cy, g[0], g[1], g[2], g[3]])) == [Code(C), cx, cy, g[0], g[1], g[2], g[3]];
  }

  /** The segment "S1,1,2,2,3,3,4,4". */
  function SmoothExample(): Segment {
    Segment(Draw(SmoothCurveTo, false),
            [Some(1.0), Some(1.0), Some(2.0), Some(2.0), Some(3.0), Some(3.0), Some(4.0), Some(4.0)])
  }

  /** The first group of `SmoothExample` after "M0,0", which reflects nothing. */
  lemma SmoothExampleFirst(lib: MathLib)
    ensures var st := State(0.0, 0.0, Some(M), [1.0, 0.0, 0.0], 0.0, 0.0);
            && Group(SmoothExample().values, 0, 4) == Some([1.0, 1.0, 2.0, 2.0])
            && Group(SmoothExample().values, 4, 4) == Some([3.0, 3.0, 4.0, 4.0])
            && Step(lib, SmoothCurveTo, false, [1.0, 1.0, 2.0, 2.0], Some(M), st)
                 == State(2.0, 2.0, Some(C), st.path + [3.0, 0.0, 0.0, 1.0, 1.0, 2.0, 2.0], 0.0, 0.0)
  {
    var st := State(0.0, 0.0, Some(M), [1.0, 0.0, 0.0], 0.0, 0.0);
    GroupOf(SmoothExample().values, 0, [1.0, 1.0, 2.0, 2.0]);
    GroupOf(SmoothExample().values, 4, [3.0, 3.0, 4.0, 4.0]);
    SmoothCubicStep(lib, [1.0, 1.0, 2.0, 2.0], Some(M), st);
  }

  /**
   * "M0,0 S1,1,2,2,3,3,4,4": the second group of the `S` starts its curve at
   * the current point (2, 2), although the record before it is a cubic
   * whose second control point (1, 1) reflects to (3, 3).
   */
  lemma StaleSmooth(lib: MathLib)
    ensures var st := State(0.0, 0.0, Some(M), [1.0, 0.0, 0.0], 0.0, 0.0);
            var front := st.path + [3.0, 0.0, 0.0, 1.0, 1.0, 2.0, 2.0];
            && RunSegment(lib, Segment(Draw(MoveTo, false), [Some(0.0), Some(0.0)]), Start) == Some(st)
            && RunSegment(lib, SmoothExample(), st)
                 == Some(State(4.0, 4.0, Some(C), front + [3.0, 2.0, 2.0, 3.0, 3.0, 4.0, 4.0], 0.0, 0.0))
  {
    var st := State(0.0, 0.0, Some(M), [1.0, 0.0, 0.0], 0.0, 0.0);
    var s1 := State(2.0, 2.0, Some(C), st.path + [3.0, 0.0, 0.0, 1.0, 1.0, 2.0, 2.0], 0.0, 0.0);
    var stale := State(4.0, 4.0, Some(C), s1.path + [3.0, 2.0, 2.0, 3.0, 3.0, 4.0, 4.0], 0.0, 0.0);
    var p := SmoothExample().values;
    LineSegment(lib, MoveTo, false, 0.0, 0.0, Start);
    SmoothExampleFirst(lib);
    SmoothCubicStep(lib, [3.0, 3.0, 4.0, 4.0], Some(M), s1);
    GroupsNext(lib, SmoothCurveTo, false, p, 0, Some(M), st, [1.0, 1.0, 2.0, 2.0], s1);
    GroupsNext(lib, SmoothCurveTo, false, p, 4, Some(M), s1, [3.0, 3.0, 4.0, 4.0], stale);
  }

  /**
   * "M0,0 L10,0 L10,10 z l5,5": `z` keeps the current point at (10, 10), so
   * the last lineto goes to (15, 15), not to (5, 5) as it would from the
   * start of the subpath.
   */
  lemma CloseKeepsPoint(lib: MathLib)
    ensures var drawn := [1.0, 0.0, 0.0] + [2.0, 10.0, 0.0] + [2.0, 10.0, 10.0];
            var st := State(10.0, 10.0, Some(L), drawn, 0.0, 0.0);
            && RunSegment(lib, Segment(ClosePath, []), st)
                 == Some(State(10.0, 10.0, Some(Z), drawn + [6.0], 0.0, 0.0))
            && RunSegment(lib, Segment(Draw(LineTo, true), [Some(5.0), Some(5.0)]),
                          State(10.0, 10.0, Some(Z), drawn + [6.0], 0.0, 0.0))
                 == Some(State(15.0, 15.0, Some(L), drawn + [6.0] + [2.0, 15.0, 15.0], 0.0, 0.0))
  {
    var drawn := [1.0, 0.0, 0.0] + [2.0, 10.0, 0.0] + [2.0, 10.0, 10.0];
    LineSegment(lib, LineTo, true, 5.0, 5.0, State(10.0, 10.0, Some(Z), drawn + [6.0], 0.0, 0.0));
  }

  /** The segments of "M0,0 L10,0 L10,10 z", without the empty last token each comma-ended segment carries. */
  function TriangleExample(): seq<Segment> {
    [Segment(Draw(MoveTo, false), [Some(0.0), Some(0.0)]),
     Segment(Draw(LineTo, false), [Some(10.0), Some(0.0)]),
     Segment(Draw(LineTo, false), [Some(10.0), Some(10.0)]),
     Segment(ClosePath, [])]
  }

  /** The records of the closed triangle, `z` leaving the current point at (10, 10). */
  lemma TriangleExampleRun(lib: MathLib)
    ensures RunSegments(lib, TriangleExample(), 0, Start)
         == Some(State(10.0, 10.0, Some(Z), [1.0, 0.0, 0.0] + [2.0, 10.0, 0.0] + [2.0, 10.0, 10.0] + [6.0], 0.0, 0.0))
  {
    var segs := TriangleExample();
    var s3 := State(10.0, 10.0, Some(L), [1.0, 0.0, 0.0] + [2.0, 10.0, 0.0] + [2.0, 10.0, 10.0], 0.0, 0.0);
    TriangleDrawn(lib);
    TriangleClosed(lib, s3);
  }

  /** The closing `z` of the triangle appends its opcode and nothing else. */
  lemma TriangleClosed(lib: MathLib, s3: State)
    requires Reflectable(s3.cmd, s3.path)
    ensures RunSegments(lib, TriangleExample(), 3, s3) == Some(s3.(cmd := Some(Z), path := s3.path + [6.0]))
  {
    var segs := TriangleExample();
    assert segs[3] == Segment(ClosePath, []);
    SegmentsNext(lib, segs, 3, s3, Close(s3));
    assert RunSegments(lib, segs, 4, Close(s3)) == Some(Close(s3));
  }

  /** The three drawing segments of the triangle. */
  lemma TriangleDrawn(lib: MathLib)
    ensures RunSegments(lib, TriangleExample(), 0, Start)
         == RunSegments(lib, TriangleExample(), 3,
                        State(10.0, 10.0, Some(L), [1.0, 0.0, 0.0] + [2.0, 10.0, 0.0] + [2.0, 10.0, 10.0], 0.0, 0.0))
  {
    var segs := TriangleExample();
    var s1 := State(0.0, 0.0, Some(M), [1.0, 0.0, 0.0], 0.0, 0.0);
    var s2 := State(10.0, 0.0, Some(L), s1.path + [2.0, 10.0, 0.0], 0.0, 0.0);
    var s3 := State(10.0, 10.0, Some(L), s2.path + [2.0, 10.0, 10.0], 0.0, 0.0);
    LineSegment(lib, MoveTo, false, 0.0, 0.0, Start);
    SegmentsNext(lib, segs, 0, Start, s1);
    LineSegment(lib, LineTo, false, 10.0, 0.0, s1);
    SegmentsNext(lib, segs, 1, s1, s2);
    LineSegment(lib, LineTo, false, 10.0, 10.0, s2);
    SegmentsNext(lib, segs, 2, s2, s3);
  }

  lemma SegmentsNext(lib: MathLib, segs: seq<Segment>, i: nat, st: State, next: State)
    requires forall j :: 0 <= j < |segs| ==> Finite(segs[j])
    requires Reflectable(st.cmd, st.path) && i < |segs| && RunSegment(lib, segs[i], st) == Some(next)
    ensures RunSegments(lib, segs, i, st) == RunSegments(lib, segs, i + 1, next)
  {
  }

  /** A segment of one moveto or lineto group `(x, y)`. */
  lemma LineSegment(lib: MathLib, k: Kind, rel: bool, x: real, y: real, st: State)
    requires (k == MoveTo || k == LineTo) && Reflectable(st.cmd, st.path)
    ensures var px, py := if rel then st.cpx + x else x, if rel then st.cpy + y else y;
            RunSegment(lib, Segment(Draw(k, rel), [Some(x), Some(y)]), st)
              == Some(State(px, py, Some(OpOf(k)), st.path + [Code(OpOf(k)), px, py],
                            if k == MoveTo then px else st.x0, if k == MoveTo then py else st.y0))
  {
    GroupOf([Some(x), Some(y)], 0, [x, y]);
    LineStep(lib, k, rel, x, y, st.cmd, st);
    GroupsNext(lib, k, rel, [Some(x), Some(y)], 0, st.cmd, st, [x, y], Step(lib, k, rel, [x, y], st.cmd, st));
  }
}
