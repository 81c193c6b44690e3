/**
 * The interpreter as SVG 1.1 describes it, beside the one of `PathCompiler`
 * that follows `createPathProxyFromString`: here each group reads the opcode
 * of the group just before it (sections 8.3.6 and 8.3.7), and close-path
 * moves the current point back to the start of the subpath (section 8.3.3).
 * The two interpreters agree on every command but `S`/`s` and `T`/`t`.
 */
module IntendedCompiler {
  import opened JsMath
  import opened CommandBuffer
  import opened PathLexer
  import opened PathCompiler

  /** The group loop of one segment, each group reading the opcode the group before it appended. */
  function RunGroupsIntended(lib: MathLib, k: Kind, rel: bool, p: seq<Option<real>>, off: nat, st: State)
    : (r: Option<State>)
    requires Reflectable(st.cmd, st.path)
    ensures r.Some? ==> Reflectable(r.value.cmd, r.value.path)
    ensures r.Some? ==> |r.value.path| >= |st.path| && r.value.path[..|st.path|] == st.path
    decreases |p| - off
  {
    if off >= |p| || p[off].None? then Some(st)
    else match Group(p, off, GroupSize(k))
      case None => None
      case Some(g) =>
        var st' := Step(lib, k, rel, g, st.cmd, st);
        var r := RunGroupsIntended(lib, Next(k), rel, p, off + GroupSize(k), st');
        PrefixTrans(st.path, st'.path, if r.Some? then r.value.path else st'.path);
        r
  }

  /** The close-path record; the current point goes back to the start of the subpath. */
  function CloseIntended(st: State): (r: State)
    ensures r.path == st.path + [Code(Z)] && r.cmd == Some(Z)
    ensures r.cpx == st.x0 && r.cpy == st.y0 && r.x0 == st.x0 && r.y0 == st.y0
  {
    Close(st).(cpx := st.x0, cpy := st.y0)
  }

  function RunSegmentIntended(lib: MathLib, seg: Segment, st: State): (r: Option<State>)
    requires Finite(seg) && Reflectable(st.cmd, st.path)
    ensures r.Some? ==> Reflectable(r.value.cmd, r.value.path)
    ensures seg.letter == ClosePath ==> r == Some(CloseIntended(st))
    ensures seg.letter == NoCommand ==> r == Some(st)
  {
    match seg.letter
    case Draw(k, rel) => RunGroupsIntended(lib, k, rel, seg.values, 0, st)
    case ClosePath => Some(CloseIntended(st))
    case NoCommand => Some(st)
  }

  /**
   * After `z`/`Z` the current point is the start of the subpath, the point of
   * its last moveto, and the variables still track the buffer.
   */
  lemma CloseReturnsToSubpathStart(st: State)
    requires Tracked(st)
    ensures var r := CloseIntended(st);
            && Parse(r.path) == Some(Parse(st.path).value + [Record(Z, [])])
            && Tracked(r) && (r.cpx, r.cpy) == SubpathStart(Parse(r.path).value)
  {
    CloseTracked(st);
  }

  /**
   * Both interpreters run every command but `S`/`s` and `T`/`t` alike: the
   * `prevCmd` of the source only matters to the smooth curves.
   */
  lemma {:induction false} NonSmoothAgrees(lib: MathLib, k: Kind, rel: bool, p: seq<Option<real>>, off: nat,
                                           prev: Option<Op>, st: State)
    requires k != SmoothCurveTo && k != SmoothQuadTo
    requires Reflectable(prev, st.path) && Reflectable(st.cmd, st.path)
    ensures RunGroups(lib, k, rel, p, off, prev, st) == RunGroupsIntended(lib, k, rel, p, off, st)
    decreases |p| - off
  {
    var more, k', off', next := NonSmoothCase(lib, k, rel, p, off, prev, st);
    if more {
      NonSmoothAgrees(lib, k', rel, p, off', prev, next);
    }
  }

  /** One turn of both loops: either both stop alike, or both go on from `next` with the next kind. */
  lemma NonSmoothCase(lib: MathLib, k: Kind, rel: bool, p: seq<Option<real>>, off: nat, prev: Option<Op>, st: State)
    returns (more: bool, k': Kind, off': nat, next: State)
    requires k != SmoothCurveTo && k != SmoothQuadTo
    requires Reflectable(prev, st.path) && Reflectable(st.cmd, st.path)
    ensures !more ==> RunGroups(lib, k, rel, p, off, prev, st) == RunGroupsIntended(lib, k, rel, p, off, st)
    ensures more ==> off < off' <= |p| && k' == Next(k) && off' == off + GroupSize(k)
    ensures more ==> k' != SmoothCurveTo && k' != SmoothQuadTo
    ensures more ==> Reflectable(prev, next.path) && Reflectable(next.cmd, next.path)
    ensures more ==> RunGroups(lib, k, rel, p, off, prev, st) == RunGroups(lib, k', rel, p, off', prev, next)
    ensures more ==> RunGroupsIntended(lib, k, rel, p, off, st) == RunGroupsIntended(lib, k', rel, p, off', next)
  {
    more := off < |p| && p[off].Some? && Group(p, off, GroupSize(k)).Some?;
    k', off' := Next(k), off + GroupSize(k);
    if more {
      next := NonSmoothNext(lib, k, rel, p, off, prev, st, k', off');
    } else {
      NonSmoothStop(lib, k, rel, p, off, prev, st);
      next := st;
    }
  }

  /** Where the numbers stop, both loops stop alike. */
  lemma NonSmoothStop(lib: MathLib, k: Kind, rel: bool, p: seq<Option<real>>, off: nat, prev: Option<Op>, st: State)
    requires Reflectable(prev, st.path) && Reflectable(st.cmd, st.path)
    requires !(off < |p| && p[off].Some? && Group(p, off, GroupSize(k)).Some?)
    ensures RunGroups(lib, k, rel, p, off, prev, st) == RunGroupsIntended(lib, k, rel, p, off, st)
  {
  }

  lemma NonSmoothNext(lib: MathLib, k: Kind, rel: bool, p: seq<Option<real>>, off: nat, prev: Option<Op>, st: State,
                      k': Kind, off': nat) returns (next: State)
    requires k != SmoothCurveTo && k != SmoothQuadTo
    requires Reflectable(prev, st.path) && Reflectable(st.cmd, st.path)
    requires off < |p| && p[off].Some? && Group(p, off, GroupSize(k)).Some?
    requires k' == Next(k) && off' == off + GroupSize(k)
    ensures k' != SmoothCurveTo && k' != SmoothQuadTo
    ensures Reflectable(prev, next.path) && Reflectable(next.cmd, next.path)
    ensures RunGroups(lib, k, rel, p, off, prev, st) == RunGroups(lib, k', rel, p, off', prev, next)
    ensures RunGroupsIntended(lib, k, rel, p, off, st) == RunGroupsIntended(lib, k', rel, p, off', next)
  {
    var g := Group(p, off, GroupSize(k)).value;
    StepSamePrev(lib, k, rel, g, prev, st.cmd, st);
    next := Step(lib, k, rel, g, prev, st);
    GroupsNextAt(lib, k, rel, p, off, prev, st, g, next, k', off');
    GroupsNextIntendedAt(lib, k, rel, p, off, st, g, next, k', off');
  }

  /**
   * With `prevCmd` following each group, the first control point of `S`/`s`
   * (`want` = C) or `T`/`t` (`want` = Q), which `SmoothOperands` says is
   * `SmoothControl`, is the reflection about the current point of the second
   * control point of the record before when that record is a cubic
   * (quadratic), and the current point otherwise.
   */
  lemma SmoothReflectsPreviousCurve(want: Op, st: State, recs: seq<Record>)
    requires (want == C || want == Q) && Reflectable(st.cmd, st.path)
    // `recs` are the records of the buffer, and `cmd` is the last one's opcode (`TrackedCmd`)
    requires Flatten(recs) == st.path && ValidRecords(recs)
    requires st.cmd == if recs == [] then None else Some(recs[|recs| - 1].op)
    ensures if recs != [] && recs[|recs| - 1].op == want then
              var a := recs[|recs| - 1].args;
              SmoothControl(want, st.cmd, st) == (2.0 * st.cpx - a[|a| - 4], 2.0 * st.cpy - a[|a| - 3])
            else
              SmoothControl(want, st.cmd, st) == (st.cpx, st.cpy)
  {
    if st.cmd == Some(want) {
      assert ValidRecord(recs[|recs| - 1]);
      LastSlots(recs, st.path);
      ReflectSlots(want, st, recs);
    }
  }

  /** In a tracked state `cmd` is the opcode of the buffer's last record, or none for an empty buffer. */
  lemma TrackedCmd(st: State)
    requires Tracked(st)
    ensures var recs := Parse(st.path).value;
            && Flatten(recs) == st.path && ValidRecords(recs)
            && st.cmd == if recs == [] then None else Some(recs[|recs| - 1].op)
  {
  }

  lemma ReflectSlots(want: Op, st: State, recs: seq<Record>)
    requires (want == C || want == Q) && st.cmd == Some(want) && Reflectable(st.cmd, st.path)
    requires recs != [] && |recs[|recs| - 1].args| >= 4 && LastSlotsHold(recs, st.path)
    ensures var a := recs[|recs| - 1].args;
            SmoothControl(want, st.cmd, st) == (2.0 * st.cpx - a[|a| - 4], 2.0 * st.cpy - a[|a| - 3])
  {
  }

  predicate LastSlotsHold(recs: seq<Record>, s: seq<real>)
    requires recs != [] && |recs[|recs| - 1].args| >= 4
  {
    var a := recs[|recs| - 1].args;
    |s| >= 4 && s[|s| - 4] == a[|a| - 4] && s[|s| - 3] == a[|a| - 3]
  }

  lemma LastSlots(recs: seq<Record>, s: seq<real>)
    requires recs != [] && |recs[|recs| - 1].args| >= 4 && Flatten(recs) == s
    ensures LastSlotsHold(recs, s)
  {
    var a := recs[|recs| - 1].args;
    LastRecordSlots(recs, |a| - 4);
    LastRecordSlots(recs, |a| - 3);
  }

  lemma GroupsNextIntended(lib: MathLib, k: Kind, rel: bool, p: seq<Option<real>>, off: nat, st: State,
                           g: seq<real>, next: State)
    requires Reflectable(st.cmd, st.path) && off < |p| && p[off].Some?
    requires Group(p, off, GroupSize(k)) == Some(g) && next == Step(lib, k, rel, g, st.cmd, st)
    ensures RunGroupsIntended(lib, k, rel, p, off, st)
         == RunGroupsIntended(lib, Next(k), rel, p, off + GroupSize(k), next)
  {
  }

  /** `GroupsNextIntended` with the next kind and offset named by the caller. */
  lemma GroupsNextIntendedAt(lib: MathLib, k: Kind, rel: bool, p: seq<Option<real>>, off: nat, st: State,
                             g: seq<real>, next: State, k': Kind, off': nat)
    requires Reflectable(st.cmd, st.path) && off < |p| && p[off].Some?
    requires Group(p, off, GroupSize(k)) == Some(g) && next == Step(lib, k, rel, g, st.cmd, st)
    requires k' == Next(k) && off' == off + GroupSize(k)
    ensures RunGroupsIntended(lib, k, rel, p, off, st) == RunGroupsIntended(lib, k', rel, p, off', next)
  {
  }

  /** The second group of `SmoothExample`, reflecting the control point (1, 1) about (2, 2). */
  lemma SmoothExampleReflected(lib: MathLib, s1: State)
    requires s1 == State(2.0, 2.0, Some(C), [1.0, 0.0, 0.0] + [3.0, 0.0, 0.0, 1.0, 1.0, 2.0, 2.0], 0.0, 0.0)
    ensures Step(lib, SmoothCurveTo, false, [3.0, 3.0, 4.0, 4.0], Some(C), s1)
         == State(4.0, 4.0, Some(C), s1.path + [3.0, 3.0, 3.0, 3.0, 3.0, 4.0, 4.0], 0.0, 0.0)
  {
    assert s1.path[|s1.path| - 4] == 1.0 && s1.path[|s1.path| - 3] == 1.0;
    SmoothCubicStep(lib, [3.0, 3.0, 4.0, 4.0], Some(C), s1);
  }

  /** "M0,0 S1,1,2,2,3,3,4,4" with each group reading the one before: the second curve starts at (3, 3). */
  lemma SmoothExampleCorrected(lib: MathLib)
    ensures var st := State(0.0, 0.0, Some(M), [1.0, 0.0, 0.0], 0.0, 0.0);
            var front := st.path + [3.0, 0.0, 0.0, 1.0, 1.0, 2.0, 2.0];
            RunSegmentIntended(lib, SmoothExample(), st)
              == Some(State(4.0, 4.0, Some(C), front + [3.0, 3.0, 3.0, 3.0, 3.0, 4.0, 4.0], 0.0, 0.0))
  {
    var st := State(0.0, 0.0, Some(M), [1.0, 0.0, 0.0], 0.0, 0.0);
    var s1 := State(2.0, 2.0, Some(C), st.path + [3.0, 0.0, 0.0, 1.0, 1.0, 2.0, 2.0], 0.0, 0.0);
    SmoothExampleFirst(lib);
    SmoothExampleSecond(lib, s1);
    GroupsNextIntended(lib, SmoothCurveTo, false, SmoothExample().values, 0, st, [1.0, 1.0, 2.0, 2.0], s1);
  }

  lemma SmoothExampleSecond(lib: MathLib, s1: State)
    requires s1 == State(2.0, 2.0, Some(C), [1.0, 0.0, 0.0] + [3.0, 0.0, 0.0, 1.0, 1.0, 2.0, 2.0], 0.0, 0.0)
    ensures RunGroupsIntended(lib, SmoothCurveTo, false, SmoothExample().values, 4, s1)
         == Some(State(4.0, 4.0, Some(C), s1.path + [3.0, 3.0, 3.0, 3.0, 3.0, 4.0, 4.0], 0.0, 0.0))
  {
    var fixed := State(4.0, 4.0, Some(C), s1.path + [3.0, 3.0, 3.0, 3.0, 3.0, 4.0, 4.0], 0.0, 0.0);
    SmoothExampleFirst(lib);
    SmoothExampleReflected(lib, s1);
    GroupsNextIntended(lib, SmoothCurveTo, false, SmoothExample().values, 4, s1, [3.0, 3.0, 4.0, 4.0], fixed);
  }

  /**
   * "M0,0 L10,0 L10,10 z l5,5" with close-path returning to the subpath
   * start (0, 0): the last lineto goes to (5, 5).
   */
  lemma CloseReturnsExample(lib: MathLib)
    ensures var drawn := [1.0, 0.0, 0.0] + [2.0, 10.0, 0.0] + [2.0, 10.0, 10.0];
            var st := State(10.0, 10.0, Some(L), drawn, 0.0, 0.0);
            && RunSegmentIntended(lib, Segment(ClosePath, []), st)
                 == Some(State(0.0, 0.0, Some(Z), drawn + [6.0], 0.0, 0.0))
            && RunSegmentIntended(lib, Segment(Draw(LineTo, true), [Some(5.0), Some(5.0)]),
                                  State(0.0, 0.0, Some(Z), drawn + [6.0], 0.0, 0.0))
                 == Some(State(5.0, 5.0, Some(L), drawn + [6.0] + [2.0, 5.0, 5.0], 0.0, 0.0))
  {
    var st := State(0.0, 0.0, Some(Z), [1.0, 0.0, 0.0] + [2.0, 10.0, 0.0] + [2.0, 10.0, 10.0] + [6.0], 0.0, 0.0);
    GroupOf([Some(5.0), Some(5.0)], 0, [5.0, 5.0]);
    LineStep(lib, LineTo, true, 5.0, 5.0, st.cmd, st);
    GroupsNextIntended(lib, LineTo, true, [Some(5.0), Some(5.0)], 0, st, [5.0, 5.0],
                       Step(lib, LineTo, true, [5.0, 5.0], st.cmd, st));
  }
}
