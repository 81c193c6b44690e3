# zrender SVG path data: compiler and transform

This project models the SVG path handling of zrender, the canvas library
under ECharts:

- `createPathProxyFromString` (`src/tool/path.js`) turns the `d` attribute
  of an SVG `<path>` element into a PathProxy command buffer. The buffer is
  a flat array of numbers made of `(opcode, operand...)` records. The
  function works in four steps:
  - It rewrites the separators of the string.
  - It puts a `|` in front of each of the twenty command letters and
    splits the string at the bars.
  - It parses each segment's numbers with `parseFloat`.
  - It runs each segment's groups of numbers through a `switch` on the
    letter, in a loop. The loop converts `h`, `v`, `l` and `m` to absolute
    `L`/`M` records. It reflects the previous control point for `S`/`T`
    when `prevCmd`, the opcode the previous segment ended with, is a cubic
    or quadratic. It turns the endpoint form of an elliptical arc into the
    centre form with `processArc` (section F.6.5 of SVG 1.1 Appendix F,
    with the radius correction of section F.6.6). A `z`/`Z` segment appends
    the close opcode and leaves the current point where it was.
- `transformPath` (`src/tool/transformPath.js`) rewrites a compiled buffer
  in place under an affine matrix `[a, b, c, d, e, f]`. It maps points
  through the matrix, scales and turns arcs, and rewrites rectangles: the
  corner is mapped, and the mapped corner moved by the size is mapped again.

The model is arranged in these modules:

- **JsMath**: the numeric environment. Numbers are unbounded reals. `Math.sqrt`,
  `sin`, `cos`, `acos`, `atan2` and the division form a `MathLib` record of
  functions passed in by the caller. `Lawful` lists the only facts the proofs
  use about them.
- **CommandBuffer**: opcodes, their operand counts, and the record view
  (`Flatten`/`Parse`) of the flat buffer.
- **Arc**: `vMag`, `vRatio`, `vAngle` and `processArc`.
- **PathLexer**: the string rewrites, the bar insertion, the split, and the
  per-segment number tokens.
- **PathCompiler**: the interpreter as the source runs it, as specification
  functions (`Step`, `RunGroups`, `RunSegment`, `RunSegments`, `Compile`):
  every group of a segment reads the `prevCmd` the segment started with, and
  close-path keeps the current point. The properties of the buffer it
  builds are proved about these functions.
- **IntendedCompiler**: the interpreter as SVG 1.1 describes it, beside the
  first: each group reads the opcode of the group before it, and close-path
  returns to the subpath start. It is proved to agree with `PathCompiler` on
  every command but `S`/`s` and `T`/`t`.
- **PathProxy**: the parsing, marking, group and segment loops of
  `createPathProxyFromString` as methods, with `prevCmd` assigned once per
  segment as the source does, proved to compute `Compile`.
- **PathTransform**: `transformPath` as methods over an `array<real>`
  rewritten in place, proved against the record-level function
  `TransformFrom`; the rectangle case as written and as evidently intended.

The `z`/`Z` case (src/tool/path.js:342-346) appends the close opcode and does
not touch `cpx`/`cpy`. Section 8.3.3 of SVG 1.1 instead moves the current
point back to the start of the subpath. The close record carries no
operands, so the two differ only in the point that the commands after a
close-path start from. No comment in the source says which of the two it
means, so the model does not call this a defect. It sets the SVG 1.1
reading beside the source's as a contrast, not as the corrected half of a
finding:
- `IntendedCompiler.CloseIntended`, `RunSegmentIntended`,
  `CloseReturnsToSubpathStart` and `CloseReturnsExample` state the SVG 1.1
  reading.
- `PathCompiler.CloseKeepsPoint` and `IntendedCompiler.CloseReturnsExample`
  give the two results of `M0,0 L10,0 L10,10 z l5,5`: a final line to
  (15,15) and to (5,5).

The interpreter state carries the start of the current subpath (`x0`, `y0`).
The source keeps no such variable; the model keeps it to state where the
SVG 1.1 close-path goes and to read it back from the buffer.

## Model

| member | source | states |
|---|---|---|
| PathLexer.CommandCharMember | src/tool/path.js:8-11 | a character is in the command table exactly when it is one of the twenty SVG path letters |
| PathLexer.LetterOfChar | src/tool/path.js:8-11 | a character names no command exactly when it is outside the table; it names close-path exactly for `z`/`Z`; a drawing letter is relative exactly when it is lower case |
| PathLexer.MnemonicRoundTrip | src/tool/path.js:8-11 | every command kind in both cases has a letter in the table, and that letter reads back as the same kind and case |
| PathLexer.MnemonicUnique | src/tool/path.js:8-11 | each drawing letter is the single letter for its kind and case |
| PathLexer.PreprocessNoSpace | src/tool/path.js:116-119 | after the four replacements of `Preprocess` no space is left |
| PathLexer.PreprocessKeepsBars | src/tool/path.js:116-119 | the replacements of `Preprocess` neither add nor remove a `\|` |
| PathLexer.PreprocessKeepsLetters | src/tool/path.js:116-119 | the replacements of `Preprocess` keep the command letters, in order |
| PathLexer.MarkStep | src/tool/path.js:123-125 | one pass of the bar-insertion loop for a new letter turns `MarkSet` of the letters so far into `MarkSet` with that letter added: a bar in front of each of its occurrences and nothing else |
| PathProxy.MarkCommands | src/tool/path.js:116-125 | the loop over the command table computes `MarkSet` of the whole table: every command letter preceded by a bar and nothing else changed |
| PathLexer.Split | src/tool/path.js:128 | `split('\|')` gives at least one piece, and no piece contains the separator |
| PathLexer.JoinSplit | src/tool/path.js:128 | joining the pieces of a split with the separator gives back the string |
| PathLexer.SplitJoin | src/tool/path.js:128 | splitting a join of separator-free pieces gives back the pieces |
| PathLexer.MarkedSplit | src/tool/path.js:123-128 | in a string with no bar, the pieces after the first begin with the command letters of the string, one piece per letter, in order |
| PathLexer.NumberTokens | src/tool/path.js:141-146 | a segment's number tokens contain no comma |
| PathLexer.ExponentsJoined | src/tool/path.js:141 | after `replace(/e,-/g, 'e-')` no `e,-` is left, not even one formed by the replacement |
| PathLexer.ExponentStaysWhole | src/tool/path.js:141 | no token boundary falls between an `e` and the `-` of its exponent: no token ending in `e` is followed by one starting with `-` |
| PathLexer.NumberTokensJoin | src/tool/path.js:141-146 | the tokens joined again with commas are the rewritten tail without its leading comma, so a leading comma yields no empty token; an empty tail yields no token |
| PathLexer.ParseNumbers | src/tool/path.js:148-150 | one parsed value per token, each the `parseFloat` of its token |
| PathProxy.ParseTokens | src/tool/path.js:148-150 | the parse loop gives the same values as `ParseNumbers` |
| PathLexer.LexLetters | src/tool/path.js:123-140 | in a string with no bar, `Lex` gives one segment per command letter, and segment `i` carries the letter the `i`-th command letter selects |
| Arc.VMagSquare | src/tool/path.js:18-20 | `vMag` is non-negative and squares to the squared length |
| Arc.VRatioDot | src/tool/path.js:21-23 | `vRatio` times the product of the lengths is the dot product |
| Arc.VAngleRange | src/tool/path.js:24-27 | for a ratio in [-1, 1], `VAngle` is in [-pi, pi]; it is non-positive when the cross product is negative, and non-negative otherwise |
| Arc.ScaledRadiiReach | src/tool/path.js:50-55 | `ScaledRadii` scales radii too small for the endpoints by the square root of lambda, so that lambda becomes exactly 1 (section F.6.6 of SVG 1.1 Appendix F) |
| Arc.CentreFactorSign | src/tool/path.js:57-62 | `CentreFactor` is 0 exactly when the radicand is not positive; it is negative exactly when the flags agree, positive exactly when they differ, and it squares to the radicand |
| Arc.SweepAngle | src/tool/path.js:79-84 | a ratio at or below -1 gives a half turn in the sweep flag's direction, and a ratio at or above 1 gives 0 |
| Arc.SweepAngleRange | src/tool/path.js:74-90 | the swept angle is in [-2 pi, 0] for sweep flag 0, in [0, 2 pi] for flag 1, and in [-pi, pi] otherwise |
| Arc.ProcessArc | src/tool/path.js:43-93 | the arc record has the arc opcode and 8 operands, and stores psi in radians and the sweep flag last |
| Arc.ProcessArcSweep | src/tool/path.js:43-93 | the swept angle stored in the arc record agrees with its sweep flag |
| Arc.HalfCircleFrame | src/tool/path.js:43-64 | for the half circle of radius 5 from (0, 0) to (10, 0), the offset is (-5, 0), lambda is 1, the radii stay 5 and the centre factor and centre offsets are 0 |
| Arc.HalfCircleArc | src/tool/path.js:43-93 | that half circle (`fa` 0, `fs` 1, no rotation) gives the record `[A, 5, 0, 5, 5, pi, pi, 0, 1]`: centre (5, 0), start angle pi, sweep pi |
| CommandBuffer.Decode | src/tool/transformPath.js:39-43 | a stored number decodes to an opcode exactly when it is that opcode's code |
| CommandBuffer.Parse | src/tool/transformPath.js:38-40 | a buffer that parses is made of well-formed records whose concatenation is the buffer |
| CommandBuffer.ParseFlatten | src/tool/transformPath.js:38-40 | parsing the buffer of well-formed records, each encoded as its opcode followed by its operands, gives back those records |
| CommandBuffer.FlattenConcat | src/tool/path.js:173 | the buffer of two record lists is the concatenation of their buffers |
| CommandBuffer.AppendRecord | src/tool/path.js:173 | appending one record, encoded as `addData` stores it, to a parsing buffer adds exactly that record |
| CommandBuffer.ParseConcat | src/tool/path.js:173 | two parsing buffers placed end to end parse to the two record lists in order |
| CommandBuffer.SameLayoutSlots | src/tool/transformPath.js:38-105 | record lists with the same opcodes and operand counts have buffers of one length, with the same opcodes at the same slots |
| PathCompiler.GroupSize | src/tool/path.js:167-339 | every command consumes at least one number per group, so the group loop makes progress |
| PathCompiler.Next | src/tool/path.js:181-194 | after a group only moveto changes kind (`M` continues as `L`, `m` as `l`); the group size stays the same |
| PathCompiler.SmoothControl | src/tool/path.js:234-308 | when `prevCmd` is the wanted curve opcode, the current point is the midpoint of the stored slots `len - 4`, `len - 3` and the new control point; otherwise the control point is the current point |
| PathCompiler.Append | src/tool/path.js:173 | `addData` keeps the buffer as a prefix, adds the opcode and the operands, and sets the current point and the last opcode |
| PathCompiler.Draws | src/tool/path.js:167-339 | each case of the `switch` stores as many operands as its opcode takes |
| PathCompiler.Step | src/tool/path.js:167-339 | one group appends exactly one record of its command's opcode; a moveto starts a new subpath at the new current point, and every other command keeps the subpath start |
| PathCompiler.StepDraws | src/tool/path.js:167-339 | the operands appended are the drawn operands, and the new current point is the drawn endpoint |
| PathCompiler.StepCurrentPoint | src/tool/path.js:169-339 | `h`/`H` change only x, `v`/`V` change only y, and every other command moves to its last number pair; relative letters add the old current point |
| PathCompiler.DrawsEndAtCurrentPoint | src/tool/path.js:169-308 | for every command but the arc, the last two operands appended are the new current point |
| PathCompiler.AbsoluteOperands | src/tool/path.js:175-222 | absolute `M`, `L`, `C`, `Q` store their numbers unchanged |
| PathCompiler.AbsoluteAxisOperands | src/tool/path.js:200-214 | absolute `H` stores `(x, cpy)` and `V` stores `(cpx, y)` |
| PathCompiler.AbsoluteSmoothOperands | src/tool/path.js:234-295 | absolute `S` and `T` store their numbers after the reflected control point |
| PathCompiler.SmoothOperands | src/tool/path.js:234-308 | the first control point of `S`/`s`/`T`/`t` is the reflection given by `SmoothControl` |
| PathCompiler.ArcOperands | src/tool/path.js:310-339 | an arc group appends the record `processArc` computes from the old current point, the new endpoint and the group's numbers |
| PathCompiler.RelativeIsShiftedAbsolute | src/tool/path.js:169-339 | a relative command of every kind, the arc included, does what its absolute form does on the numbers shifted by the current point |
| PathCompiler.RelativeCurve | src/tool/path.js:215-308 | the same for the curve commands, at the level of the drawn operands |
| PathCompiler.RelativeLine | src/tool/path.js:169-214 | the same for moveto, lineto, `h` and `v` |
| PathCompiler.RelativeArc | src/tool/path.js:310-339 | a relative arc is the absolute arc whose endpoint is shifted by the current point; radii, rotation and flags are not shifted |
| PathCompiler.ArcDraws | src/tool/path.js:310-339 | an arc group, relative or absolute, draws the `processArc` record to its endpoint and ends there |
| PathCompiler.LineStep | src/tool/path.js:169-194 | a moveto or lineto group appends `(code, x, y)` at the new point; a moveto also moves the subpath start |
| PathCompiler.SmoothCubicStep | src/tool/path.js:234-249 | an absolute `S` group appends the reflected control point, then its four numbers, and ends at its last pair |
| PathCompiler.SubpathSnoc | src/tool/path.js:181-194 | the subpath start is the last moveto's point |
| PathCompiler.SubpathStartOfMove | src/tool/path.js:181-194 | records after a moveto that are not movetos keep that moveto's point as the subpath start |
| PathCompiler.StepTracked | src/tool/path.js:167-339 | each group adds exactly its record to the parsed buffer, and keeps the invariant tying the state to the buffer |
| PathCompiler.Group | src/tool/path.js:151 | a group is available exactly when its numbers are all present and parsed, and it holds those numbers in order |
| PathCompiler.GroupOf | src/tool/path.js:151 | a group whose numbers are all present reads exactly those numbers |
| PathCompiler.RunGroups | src/tool/path.js:151-341 | the group loop of a segment, every group reading the segment's fixed `prevCmd`, only appends to the buffer and keeps the buffer long enough for a reflection |
| PathCompiler.RunGroupsStops | src/tool/path.js:151 | where the numbers run out or stop at a NaN before a group, the loop draws nothing |
| PathCompiler.RunGroupsKeeps | src/tool/path.js:151-341 | every invariant that each group keeps holds at the end of the group loop |
| PathCompiler.GroupKeeps | src/tool/path.js:151-341 | one full group advances the loop by one group size and keeps such an invariant |
| PathCompiler.GroupsNext | src/tool/path.js:151-341 | a group read in full appends its record and the loop goes on after it with the next kind |
| PathCompiler.RunGroupsTracked | src/tool/path.js:151-341 | the group loop keeps the invariant tying the state to the parsed buffer |
| PathCompiler.RunGroupsSamePrev | src/tool/path.js:151-341 | the group loop tells `prevCmd` apart only as cubic, quadratic or other: two values that agree on that give the same segment |
| PathCompiler.StepSamePrev | src/tool/path.js:167-339 | only `S`/`s` reads whether `prevCmd` is a cubic and only `T`/`t` whether it is a quadratic; no other group reads it |
| PathCompiler.SegmentAfterNonCurve | src/tool/path.js:234-348 | a segment that follows anything but a curve never reflects, even where a group before it in the same segment drew a curve |
| PathCompiler.Close | src/tool/path.js:343-346 | close-path appends the `Z` opcode and keeps the current point and the subpath start |
| PathCompiler.CloseTracked | src/tool/path.js:343-346 | close-path adds exactly the `Z` record to the parsed buffer, keeps the buffer invariant, and leaves the current point where it was |
| PathCompiler.RunSegment | src/tool/path.js:151-348 | a `z`/`Z` segment closes the path, a piece without a command letter changes nothing, and every segment only appends |
| PathCompiler.RunSegments | src/tool/path.js:137-349 | the segment loop only appends to the buffer |
| PathCompiler.SegmentsNext | src/tool/path.js:137-349 | one segment run in full hands its state to the next turn of the segment loop |
| PathCompiler.RunSegmentTracked | src/tool/path.js:151-348 | one segment keeps the buffer invariant |
| PathCompiler.RunSegmentsTracked | src/tool/path.js:137-349 | the segment loop keeps the buffer invariant |
| PathCompiler.Compile | src/tool/path.js:110-113 | the result is the empty array exactly for an empty string |
| PathCompiler.CompiledBufferParses | src/tool/path.js:110-353 | every buffer the source's interpreter builds parses as records, which is what `transformPath` reads |
| PathCompiler.LineSegment | src/tool/path.js:169-194 | a segment with one moveto or lineto pair appends that single record |
| PathCompiler.SmoothExampleFirst | src/tool/path.js:234-249 | the first group of `S1,1,2,2,3,3,4,4` after `M0,0` reflects nothing and appends the cubic `(0,0, 1,1, 2,2)` |
| PathCompiler.StaleSmooth | src/tool/path.js:234-348 | on `M0,0 S1,1,2,2,3,3,4,4` the second `S` group starts its curve at the current point (2,2), although the record before it is a cubic whose control point (1,1) reflects to (3,3) |
| PathCompiler.CloseKeepsPoint | src/tool/path.js:343-346 | on `M0,0 L10,0 L10,10 z l5,5` `z` leaves the current point at (10,10) and the final line ends at (15,15) |
| PathCompiler.TriangleDrawn | src/tool/path.js:137-349 | the three drawing segments of `M0,0 L10,0 L10,10 z` append their three records |
| PathCompiler.TriangleClosed | src/tool/path.js:343-349 | the closing `z` of the triangle appends the close opcode and nothing else |
| PathCompiler.TriangleExampleRun | src/tool/path.js:137-349 | the segment loop runs the segments of `M0,0 L10,0 L10,10 z` to the three records and the close opcode, with the current point left at (10,10) |
| IntendedCompiler.RunGroupsIntended | src/tool/path.js:151-348 | the corrected group loop, each group reading the opcode of the group before it, only appends to the buffer |
| IntendedCompiler.CloseIntended | src/tool/path.js:343-346 | close-path as SVG 1.1 reads it appends the `Z` opcode and moves the current point to the subpath start (section 8.3.3 of SVG 1.1) |
| IntendedCompiler.RunSegmentIntended | src/tool/path.js:151-348 | the segment as SVG 1.1 reads it: a `z`/`Z` segment closes with `CloseIntended`, a piece without a letter changes nothing |
| IntendedCompiler.CloseReturnsToSubpathStart | src/tool/path.js:343-346 | after close-path as section 8.3.3 of SVG 1.1 describes it the buffer gains the `Z` record and the current point is the start of the subpath read back from the buffer |
| IntendedCompiler.NonSmoothAgrees | src/tool/path.js:151-348 | for every command but `S`/`s` and `T`/`t` the source's group loop and the corrected one give the same result, whatever `prevCmd` is |
| IntendedCompiler.SmoothReflectsPreviousCurve | src/tool/path.js:234-308 | once `prevCmd` follows each group, the control point is the reflection of the last record's second-to-last control point about the current point when that record is a cubic (for `S`) or quadratic (for `T`), and the current point otherwise |
| IntendedCompiler.SmoothExampleReflected | src/tool/path.js:234-249 | the second `S` group of the example, reading the cubic before it, starts at the reflection (3,3) |
| IntendedCompiler.SmoothExampleCorrected | src/tool/path.js:234-249 | the corrected loop gives `M0,0 S1,1,2,2,3,3,4,4` the control point (3,3) that section 8.3.6 of SVG 1.1 asks for |
| IntendedCompiler.CloseReturnsExample | src/tool/path.js:343-346 | with close-path as section 8.3.3 of SVG 1.1 describes it, `M0,0 L10,0 L10,10 z l5,5` draws its final line to (5,5) |
| PathProxy.InterpretSegment | src/tool/path.js:151-348 | the group loop and the close-path test of one segment, every group reading the `prevCmd` from before the segment, compute `RunSegment` |
| PathProxy.CreatePathProxyFromString | src/tool/path.js:110-353 | the whole function's loops, with `prevCmd` assigned after each segment, compute `Compile` |
| PathTransform.ApplyCompose | src/tool/transformPath.js:14-20 | `Apply` of the product of two matrices is `Apply` of one after the other |
| PathTransform.MapPairs | src/tool/transformPath.js:96-105 | mapping the point pairs keeps the length |
| PathTransform.MapPairsAt | src/tool/transformPath.js:96-105 | pair `k` of the output is the affine image of pair `k` of the input |
| PathTransform.MapPairsIdentity | src/tool/transformPath.js:96-105 | the identity matrix leaves the points as they are |
| PathTransform.MapPairsCompose | src/tool/transformPath.js:96-105 | mapping by two matrices in turn is mapping by their product |
| PathTransform.TransformArc | src/tool/transformPath.js:56-80 | an arc keeps its operand count and its last two operands, psi and the sweep flag |
| PathTransform.UniformArc | src/tool/transformPath.js:56-80 | under a uniform positive scaling with translation, the arc centre is mapped, the radii are scaled and the angles are kept |
| PathTransform.IdentityArc | src/tool/transformPath.js:56-80 | the identity matrix leaves an arc as it is |
| PathTransform.TransformRect | src/tool/transformPath.js:81-93 | the rectangle rewrite keeps four operands |
| PathTransform.RectCorners | src/tool/transformPath.js:81-93 | the first two slots hold the image of the corner, the last two the image of that image moved by the size |
| PathTransform.RectIdentityCorner | src/tool/transformPath.js:81-93 | under the identity a rectangle `(x, y, w, h)` becomes `(x, y, x + w, y + h)` |
| PathTransform.RectTranslation | src/tool/transformPath.js:81-93 | a translation by `(e, f)` moves the corner once and the far slots twice |
| PathTransform.RectIdentityAsWritten | src/tool/transformPath.js:81-93 | the identity matrix turns rectangle `[1,1,1,1]` into `[1,1,2,2]` |
| PathTransform.TransformRectIntended | src/tool/transformPath.js:81-93 | the corrected rectangle rewrite keeps four operands |
| PathTransform.RectIntendedCorners | src/tool/transformPath.js:81-93 | the corrected rectangle rewrite maps the corner `(x, y)` and the opposite corner `(x + w, y + h)` through the matrix |
| PathTransform.RectIntendedIdentity | src/tool/transformPath.js:81-93 | the corrected rewrite leaves a rectangle as it is under the identity |
| PathTransform.RectIntendedCompose | src/tool/transformPath.js:81-93 | with the corrected rewrite, rectangles compose like points |
| PathTransform.TransformRecord | src/tool/transformPath.js:43-105 | a record keeps its opcode and operand count |
| PathTransform.TransformFrom | src/tool/transformPath.js:38-106 | the rewritten records have the layout of the input |
| PathTransform.TransformOk | src/tool/transformPath.js:81-97 | the rewrite completes exactly when every rectangle comes after some point record, because `p` is unset before the first point loop |
| PathTransform.PointRecord | src/tool/transformPath.js:96-105 | `M`, `L`, `C`, `Q` records have all their pairs mapped through the matrix |
| PathTransform.IdentityRecord | src/tool/transformPath.js:43-105 | the identity matrix leaves every record but a rectangle as it is, and turns a rectangle's size into its far corner |
| PathTransform.IdentityRecords | src/tool/transformPath.js:38-106 | the identity matrix leaves a record list without rectangles as it is |
| PathTransform.IdentityUnsizes | src/tool/transformPath.js:38-106 | under the identity, a record list whose rectangles all follow a point record keeps every record, except that each rectangle's size becomes its far corner |
| PathTransform.IdentityKeepsBuffer | src/tool/transformPath.js:38-106 | the identity matrix leaves a buffer without rectangles as it is |
| PathTransform.ComposeRecord | src/tool/transformPath.js:43-105 | for a record that is neither an arc nor a rectangle, transforming by two matrices in turn is transforming by their product |
| PathTransform.ComposeRecords | src/tool/transformPath.js:38-106 | the same for a whole record list without arcs and rectangles, including whether it completes |
| PathTransform.KeepsOpcodeSlots | src/tool/transformPath.js:38-40 | the rewrite keeps the buffer length and every opcode slot; only operands change |
| PathTransform.TransformPoints | src/tool/transformPath.js:96-105 | the point loop overwrites its `2 * nPoint` slots with their images and leaves the rest of the array alone |
| PathTransform.PointsDone | src/tool/transformPath.js:96-105 | when the point loop ends, the buffer is the input with those pairs mapped |
| PathTransform.TransformArcSlots | src/tool/transformPath.js:56-80 | the arc case overwrites its eight slots with `TransformArc` and leaves the rest alone |
| PathTransform.TransformRectSlots | src/tool/transformPath.js:81-93 | the rectangle case overwrites its four slots with `TransformRect`, the corner mapped and the mapped corner moved by the size mapped again, and leaves the rest alone |
| PathTransform.Switch | src/tool/transformPath.js:43-94 | the `switch` fails exactly on a rectangle before any point record; for a point record it sets the point count to the record's pairs and writes nothing; for arcs and rectangles it rewrites the operands in place |
| PathTransform.TransformOne | src/tool/transformPath.js:39-105 | one iteration rewrites exactly the operands of the record at `i`, into those of `TransformRecord`, and moves past it |
| PathTransform.TransformNext | src/tool/transformPath.js:38-106 | an iteration either extends the rewritten prefix by one record or stops with the outcome of `TransformFrom` |
| PathTransform.TransformPath | src/tool/transformPath.js:22-107 | the array ends as the buffer of `TransformFrom` on the records it held, and the call succeeds exactly when `TransformFrom` does |

## Left out

- `createPathOptions`, `createFromString`, `extendFromString` and `mergePath` (src/tool/path.js:362-441): they build graphic objects around the compiled buffer and fall outside this core.
- PathProxy itself is not part of this model. `addData` is modelled as appending a record to the buffer, and `len()`/`data` as reading that buffer.
- `toStatic()` (src/tool/path.js:351), which copies the buffer to a `Float32Array`: numbers stay unbounded reals, so there is no IEEE rounding or narrowing to single precision.
- `parseFloat` is a parameter. It gives `None` where JavaScript gives NaN, and the model does not fix which strings parse to which numbers.
- `Math.sqrt`, `sin`, `cos`, `acos`, `atan2` and division are the parameter `lib`. Only the laws in `Lawful` are assumed, so the proofs cover no computed value of these functions beyond those laws. A division by zero has no specified value, so the `|| 0` guard of `processArc` is modelled only for a negative radicand.
- PathCompiler.RunGroups: a group whose numbers run out part-way, or hit a NaN after its first number, makes the result the `NaNOperand` outcome. The source instead stores `undefined`/NaN operands in the buffer and goes on.
- PathCompiler.Compile: it requires that no `z`/`Z` segment and no piece without a letter starts with a number (`Terminates`). On such input the source's group loop never advances `off` and does not end.
- The `isNaN(p[0])` test inside the group loop (src/tool/path.js:152-154) is only reached when `p[0]` parsed, because the loop condition checks `p[off]` first and `off` starts at 0. The loop method keeps the test; the specification functions drop it.
- `vec2.applyTransform` (src/core/vector.js) is not part of this model. A point `(x, y)` maps to `(a x + c y + e, b x + d y + f)`, the canvas `transform(a, b, c, d, e, f)` convention the source's comment names.
- PathTransform.ComposeRecords: it excludes arcs. The source replaces an arc's rotation by `atan2` and ignores psi (its own `FIXME` notes, src/tool/transformPath.js:69,77), so arcs compose only in special cases; `UniformArc`/`ArcWithoutTurn` state the uniform-scaling case.
- PathTransform.ComposeRecords: it also excludes rectangles. The source maps a rectangle's mapped corner a second time, so two transforms in turn do not equal their product on a rectangle; `RectIntendedCompose` states the law for the corrected rewrite.
- PathTransform.ComposeRecord: no composition law for arcs and rectangles, for the two reasons above.
- PathTransform.IdentityRecords: it excludes rectangles, which the source changes even under the identity; `IdentityUnsizes` states what the identity does to a list with rectangles.
- PathTransform.IdentityKeepsBuffer: it excludes rectangles, for the same reason.
- PathCompiler.TriangleExampleRun, PathCompiler.StaleSmooth, PathCompiler.CloseKeepsPoint: they start from segment lists written out by hand, not from `Lex` of the strings they quote. Evaluating the string rewrites on a concrete string costs the verifier too much. The hand-written lists also leave out the empty last token that the trailing comma gives every segment but the last; JavaScript's `parseFloat('')` is NaN, so the group loop stops there (src/tool/path.js:151) and the token adds no record.
- PathTransform.TransformPath: a rectangle met before any point record is modelled as `ok == false`, with the records before it already rewritten. The source throws a `TypeError` there.

## Findings

| source | as written | input that shows it | evidently intended | confidence | as-written member | corrected member |
|---|---|---|---|---|---|---|
| src/tool/transformPath.js:83-93 | the mapped first corner, still in `p`, has the width and height added and is mapped again, and the result `m(m(x, y) + (w, h))` is stored in the width and height slots | identity matrix on rectangle `[1, 1, 1, 1]` gives `[1, 1, 2, 2]` instead of `[1, 1, 1, 1]` | map both corners `(x, y)` and `(x + w, y + h)` once and store the first corner and the difference | not executed | PathTransform.RectIdentityAsWritten | PathTransform.RectIntendedIdentity |
| src/tool/path.js:234-348 | `prevCmd` is assigned once per segment, after its group loop, so a second `S`/`T` group in the same segment tests the opcode from before the segment | `M0,0 S1,1,2,2,3,3,4,4`: the second curve's first control point is (2,2) | reflect the previous curve's second control point, (3,3), as section 8.3.6 of SVG 1.1 asks | not executed | PathCompiler.StaleSmooth | IntendedCompiler.SmoothExampleCorrected |
