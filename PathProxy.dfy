/**
 * The imperative program of `createPathProxyFromString`: the parsing loop,
 * the marking loop, the group loop and the segment loop of
 * src/tool/path.js, each proved to compute what the functions of
 * `PathCompiler` and `PathLexer` specify.
 */
module PathProxy {
  import opened JsMath
  import opened CommandBuffer
  import opened PathLexer
  import opened PathCompiler

  /** The `for (i = 0; i < p.length; i++) p[i] = parseFloat(p[i])` loop of one segment. */
  method ParseTokens(parseFloat: string -> Option<real>, tokens: seq<string>) returns (p: seq<Option<real>>)
    ensures p == ParseNumbers(parseFloat, tokens)
  {
    p := [];
    var i := 0;
    while i < |tokens|
      invariant 0 <= i <= |tokens| && |p| == i
      invariant forall j :: 0 <= j < i ==> p[j] == parseFloat(tokens[j])
    {
      p := p + [parseFloat(tokens[i])];
      i := i + 1;
    }
  }

  /**
   * The body of the segment loop after parsing: the group loop, with the
   * letter switching from moveto to lineto and every group reading
   * `prevCmd`, the opcode the previous segment ended with; then the
   * close-path record, which leaves the current point where it is. `None`
   * when a group reads a NaN or missing number.
   */
  method InterpretSegment(lib: MathLib, letter: Letter, p: seq<Option<real>>, prevCmd: Option<Op>, st: State)
    returns (r: Option<State>)
    requires Finite(Segment(letter, p)) && Reflectable(st.cmd, st.path)
    // `prevCmd = cmd` closes every turn of the segment loop
    requires prevCmd == st.cmd
    ensures r == RunSegment(lib, Segment(letter, p), st)
  {
    ghost var goal := RunSegment(lib, Segment(letter, p), st);
    PendingStart(lib, letter, p, st);
    var c := letter;
    var off := 0;
    var s := st;
    while off < |p| && p[off].Some?
      invariant Pending(lib, letter, p, st, goal, off, c, s)
      decreases |p| - off
    {
      if p[0].None? {
        break;
      }
      match c
      case Draw(k, rel) =>
        var g := Group(p, off, GroupSize(k));
        if g.None? {
          PendingFail(lib, letter, p, st, goal, off, k, rel, s);
          return None;
        }
        var next := Step(lib, k, rel, g.value, prevCmd, s);
        PendingStep(lib, letter, p, st, goal, off, k, rel, s, g.value, next);
        s := next;
        off := off + GroupSize(k);
        c := Draw(Next(k), rel);
      case _ =>
        assert false;
    }
    PendingDone(lib, letter, p, st, off, c, s);
    if c == ClosePath {
      s := Close(s);
    }
    r := Some(s);
  }

  /** The marking loop: `cs = cs.replace(new RegExp(cc[n], 'g'), '|' + cc[n])` for every letter. */
  method MarkCommands(data: string) returns (cs: string)
    ensures cs == MarkSet(Preprocess(data), CommandChars)
  {
    cs := Preprocess(data);
    ghost var pre := cs;
    MarkSetNone(pre);
    var n := 0;
    while n < |CommandChars|
      invariant 0 <= n <= |CommandChars|
      invariant cs == MarkSet(pre, CommandChars[..n])
    {
      CommandCharsDistinct(n);
      MarkStep(pre, CommandChars[..n], CommandChars[n]);
      assert CommandChars[..n + 1] == CommandChars[..n] + [CommandChars[n]];
      cs := Mark(cs, CommandChars[n]);
      n := n + 1;
    }
    assert CommandChars[..n] == CommandChars;
  }

  /**
   * `createPathProxyFromString`: the empty-input check, the marking, the
   * split at `|`, and the loop over the segments after the first piece.
   */
  method CreatePathProxyFromString(lib: MathLib, parseFloat: string -> Option<real>, data: string)
    returns (out: Outcome)
    requires Terminates(parseFloat, data)
    ensures out == Compile(lib, parseFloat, data)
  {
    if data == [] {
      return EmptyArray;
    }
    var cs := MarkCommands(data);
    var arr := Split(cs, '|');
    ghost var segs := Lex(parseFloat, data);
    ghost var goal := RunSegments(lib, segs, 0, Start);

    var cpx, cpy := 0.0, 0.0;
    var subpathX, subpathY := 0.0, 0.0;
    var path: seq<real> := [];
    var cmd: Option<Op> := None;
    var prevCmd: Option<Op> := None;
    var n := 1;
    while n < |arr|
      invariant 1 <= n <= |arr| && |segs| == |arr| - 1
      invariant Reflectable(cmd, path) && prevCmd == cmd
      invariant RunSegments(lib, segs, n - 1, State(cpx, cpy, cmd, path, subpathX, subpathY)) == goal
    {
      var str := arr[n];
      var p := ParseTokens(parseFloat, NumberTokens(str));
      assert segs[n - 1] == Segment(LetterOf(str), p);
      var r := InterpretSegment(lib, LetterOf(str), p, prevCmd, State(cpx, cpy, cmd, path, subpathX, subpathY));
      if r.None? {
        return NaNOperand;
      }
      cpx, cpy, cmd, path := r.value.cpx, r.value.cpy, r.value.cmd, r.value.path;
      subpathX, subpathY := r.value.x0, r.value.y0;
      prevCmd := cmd;
      n := n + 1;
    }
    out := Built(path);
  }
}
