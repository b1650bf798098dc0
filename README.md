# curvycad in Dafny

curvycad lays a repeating pattern of copper features along a guide path on a
printed circuit board. Its main use is the coil arrays of magnetic propulsion
tracks. A path is a list of elements:

- a Start, which sets a position and a heading;
- a Straight, with a length;
- a Curve, with an angle and a radius.

A pattern is one cycle of:

- parallel lines, running along the path;
- transverse lines, running across it;
- vias.

Longitudinal positions are fractions of a cycle. `TrackBuilder` steps along
the path one cycle of `pitch` millimetres at a time. It emits each pattern
element, clipped to the part of the cycle that falls on the current path
element, and carries a cycle cut off at the end of one element into the next.
`draw_path` first adjusts the pitch so that a whole number of cycles fills the
path. `read_dxf` turns a DXF drawing of connected lines into such a path.

The model has five modules:

- `PathTypes` (`types.dfy`): the path and pattern value types, and `Pi`.
- `Segmentation` (`segmentation.dfy`):
  - one iteration of the two `while distance_remaining > 1e-12` loops, as a function;
  - the whole loop, as a function;
  - what the loop lays down: pieces inside one cycle, the distance covered and the slack, the shape of a run;
  - the same loop with the carried position kept exact, as a reference for the promise that all patterns are completed.
- `Clipping` (`clipping.dfy`): what each pattern element emits in one piece of
  a cycle, and what it emits in a whole cycle.
- `Builder` (`builder.dfy`):
  - specification functions for the builder's loops;
  - the class `TrackBuilder`. It has the builder's fields, and its methods are proved against those functions: `draw_path`, both laydown loops, both per-piece emission loops, `draw_straight` and `draw_arc`.
- `Dxf` (`dxf.dfy`):
  - end points and reversal of entities;
  - the ordering loop that chains lines;
  - `read_dxf` for drawings of lines;
  - the arc a polyline segment with a bulge describes;
  - `reduce_lw_polyline`.

Modelling choices:

- **Numbers:** floating-point numbers are exact reals. `np.round` is round-half-to-even and `int()` truncates toward zero; both are written out.
- **Positions:** the builder's position is kept symbolically. `Moved(from, along, heading, bend)` records that a local displacement was bent around an arc (`warp_point_on_arc`), rotated by the heading (`rotate`) and added.
- **Emissions:** each emitted record is kept:
  - in local track coordinates, with u along the path and v across it;
  - together with the frame that the source's rotation and warp map it through onto the board.

  So no trigonometry is needed and the model stays exact.
- **Dxf math:** the `math.sqrt`, `math.atan` and `math.atan2` that `dxf.py` calls are fields of a `MathLib` value passed in.
- **Exceptions:** raised exceptions become `Err` results.

## Model

| member | source | states |
|---|---|---|
| PathTypes.SetLength | curvycad/types.py:28-30 | The `length` setter keeps the element a Straight. |
| PathTypes.PathElement.Length | curvycad/types.py:13-42 | The `length` property: 0 for a Start, the stored length for a Straight, \|angle\| * radius for a Curve. StartHasNoLength, StraightLengthRoundTrip and CurveLengthIgnoresDirection state its properties. |
| PathTypes.NewVia | curvycad/types.py:85-97 | A via stores its position, its transverse offset, and its drill and pad sizes as given. |
| PathTypes.StartHasNoLength | curvycad/types.py:13-15 | A Start has length 0. |
| PathTypes.StraightLengthRoundTrip | curvycad/types.py:20-30 | A Straight's length reads back what the constructor or the setter stored. Setting it back restores the original. |
| PathTypes.CurveLengthIgnoresDirection | curvycad/types.py:40-42 | A curve's length is \|angle\| * radius. It is the same for both turning directions and not negative for a non-negative radius. |
| PathTypes.ViaDefaults | curvycad/types.py:86 | The default drill is 0.3 mm and the default pad is 0.6 mm. |
| PathTypes.PatternConstructorsValidateNothing | curvycad/types.py:53-83 | Pattern lines keep a start after their end, and an offset outside [0, 1], unchanged. |
| Segmentation.NextPiece | curvycad/builder.py:73-93 | One iteration of the laydown loop: its four branches, with the 1e-12 tolerance and the 1e-14 nudge. EndMidCycle, FinishCycle, WholeCycleCount and StepDecreases state what it does. |
| Segmentation.EndMidCycle | curvycad/builder.py:76-79 | A piece ending inside the cycle lays exactly the remaining distance, which is positive. |
| Segmentation.FinishCycle | curvycad/builder.py:80-83 | A piece finishing the cycle lays a positive distance and overshoots the remainder by at most 1e-12 * pitch. |
| Segmentation.WholeCycleCount | curvycad/builder.py:90-98 | A whole cycle from position 0 lowers the remaining distance by one pitch. |
| Segmentation.StepDecreases | curvycad/builder.py:72-98 | One iteration:<br>- keeps cycle_pos in [0, 1);<br>- lays a non-empty piece with 0 <= seg_start < seg_end <= 1;<br>- overshoots by at most 1e-12 * pitch;<br>- leaves nothing when it ends inside the cycle;<br>- so the loop terminates. |
| Segmentation.Lay | curvycad/builder.py:72-98 | The whole `while distance_remaining > 1e-12` loop. LayPiecesInUnit, LayCoversDistance, LayShape, WholeCycles and LayDrift state what it lays. |
| Segmentation.LayPiecesInUnit | curvycad/builder.py:72-98 | Every piece of the loop lies inside one cycle, and the carried cycle_pos stays in [0, 1). |
| Segmentation.LayCoversDistance | curvycad/builder.py:72-98 | The pieces add up to the distance less what is left. What is left lies in [-1e-12 * pitch, 1e-12]. A distance of at most 1e-12 lays nothing. |
| Segmentation.LayShape | curvycad/builder.py:72-98 | There is a piece exactly when the distance exceeds 1e-12.<br>- Only the first piece starts at the carried cycle_pos; the others start at 0.<br>- Only the last may end inside the cycle. It then carries its end plus 1e-14 and leaves nothing to lay.<br>- Ending on a whole cycle carries 0. |
| Segmentation.NextRunSkipsSplitPoint | curvycad/builder.py:76-79 | Because of the 1e-14 nudge, a point of the cycle in the last piece of one element is not in the resumed first piece of the next. |
| Segmentation.WholeCycles | curvycad/builder.py:84-98 | n pitches laid from cycle position 0 are exactly n whole cycles. They end at position 0 with nothing left over. |
| Segmentation.CoveredIsSpan | curvycad/builder.py:96 | The distance the pieces cover is their total width in cycles times the pitch. |
| Segmentation.LayDrift | curvycad/builder.py:72-98 | As written: the width laid, in cycles, is the cycles finished plus the carried cycle_pos less the starting one, less 1e-14 when the run ends inside a cycle. So every element that ends inside a cycle pushes the carried position 1e-14 further. |
| Segmentation.LayFixed | curvycad/builder.py:72-98 | The loop with a piece ending inside the cycle carrying exactly its end, without the 1e-14. It keeps cycle_pos in [0, 1). |
| Segmentation.LayFixedAccounts | curvycad/builder.py:72-98 | That loop accounts exactly:<br>- the distance laid is the width laid times the pitch;<br>- the width is the cycles finished plus the carried position less the starting one;<br>- at most 1e-12 is left over;<br>- it lays something exactly when the distance exceeds 1e-12, starting at the carried position. |
| Segmentation.LayAllFixed | curvycad/builder.py:61-68 | Laying a list of distances one after another with that loop keeps the carried position in [0, 1). |
| Segmentation.LayAllAccounts | curvycad/builder.py:61-68 | When nothing is left over from any of them, the distances add up to the pitch times the cycles finished plus the carried position, less the starting one. |
| Segmentation.FixedCompletesCycles | curvycad/builder.py:49-59 | Distances adding up to n pitches, laid from position 0 with nothing left over, finish exactly n cycles and end on a cycle boundary. |
| Segmentation.FixedSkipsSplitPoint | curvycad/builder.py:76-79 | In the corrected loop the split point still stays out of the resumed piece, provided the resumed piece is drawn starting 1e-14 later. |
| Clipping.Clip | curvycad/builder.py:134-200 | What one pattern element emits in one piece of a cycle, on a straight or a curve. ParallelLineClip, PointElementClip and PieceEmissionsBound state it. |
| Clipping.ParallelLineClip | curvycad/builder.py:134-147 | A parallel line is emitted exactly when [max(seg_start, start), min(seg_end, end)] is non-empty. It then runs between those bounds, scaled by the laydown pitch, inside the piece and at its offset. It is a line on a straight and an arc on a curve. |
| Clipping.PointElementClip | curvycad/builder.py:148-159 | A transverse line or via is emitted exactly when its position lies in [seg_start, seg_end]. It is placed at (position - seg_start) times the builder's own pitch. |
| Clipping.PieceEndsAgreeOnlyAtBasePitch | curvycad/builder.py:135-154 | A transverse line at seg_end meets the end of a parallel line running through the piece only if the laydown pitch equals the builder's own pitch. |
| Clipping.PieceEmissionsBound | curvycad/builder.py:133-159 | Each pattern element emits at most one record per piece, in the piece's frame. |
| Clipping.Place | curvycad/builder.py:205-221 | What one pattern element emits in a whole cycle, as `draw_straight` and the loop of `draw_arc` emit it. CycleEmissionsExact and WholePieceIsCycle state it. |
| Clipping.CycleEmissionsExact | curvycad/builder.py:205-221 | A whole cycle emits exactly one record per pattern element, in pattern order. |
| Clipping.WholePieceIsCycle | curvycad/builder.py:134-159 | A whole-cycle piece on a straight, laid with the builder's pitch, emits what `draw_straight` emits for an element inside the cycle. |
| Builder.Sign | curvycad/builder.py:128-129 | `np.sign`: the sign times the magnitude is the value, with each case both ways. |
| Builder.RoundHalfEven | curvycad/builder.py:58 | `np.round` is within one half of its argument, and even on a tie. |
| Builder.RoundHalfEvenUnique | curvycad/builder.py:58 | Those two properties determine the rounded value. |
| Builder.RoundsToZero | curvycad/builder.py:58 | A value rounds to 0 exactly when it lies in [-0.5, 0.5]. |
| Builder.Trunc | curvycad/builder.py:203 | `int()` truncates toward zero. |
| Builder.Iterations | curvycad/builder.py:204 | `range(n)` runs n times for positive n and never otherwise. |
| Builder.CurveRadiusPositive | curvycad/builder.py:102 | A curve with a positive laydown distance has a positive radius, so the heading update never divides by zero. |
| Builder.Turn | curvycad/builder.py:129 | The heading change np.sign(angle) * distance_added / radius on a curve, and none on a straight. TurnAdditive, WalkTurns and CurveTurnsByAngle state its effect. |
| Builder.LayTrack | curvycad/builder.py:70-130 | Laying an element keeps cycle_pos in [0, 1) and only appends emissions. |
| Builder.WalkTurns | curvycad/builder.py:129 | The heading changes by the turn along the total distance the pieces cover. |
| Builder.LayTrackTurns | curvycad/builder.py:97-129 | After laying an element, the heading is the old one plus the turn along the distance covered. |
| Builder.StraightKeepsHeading | curvycad/builder.py:70-98 | Laying a straight never changes the heading. |
| Builder.CurveTurnsByCovered | curvycad/builder.py:101-130 | Laying a curve turns the heading along its length less the unlaid remainder. |
| Builder.CurveTurnsByAngle | curvycad/builder.py:101-130 | Laying a curve turns the heading by its angle, less sign(angle) * rest / radius, where rest lies in [-1e-12 * pitch, 1e-12]. |
| Builder.LayTrackShort | curvycad/builder.py:72 | An element no longer than 1e-12 changes nothing. |
| Builder.TotalLength | curvycad/builder.py:54 | The sum of the element lengths. TotalIsSum states it as a sum over the list of lengths. |
| Builder.TotalIsSum | curvycad/builder.py:54 | The total length is the sum of the lengths of the elements, in order. |
| Builder.AdjustPitch | curvycad/builder.py:54-59 | The adjusted pitch exists exactly when the total length is more than half a base pitch either way; otherwise there are zero cycles. When it exists:<br>- it is positive;<br>- it is at least half the base pitch;<br>- the rounded number of cycles times it is the total length;<br>- those cycles of the base pitch are within half a pitch of the total. |
| Builder.DrawElement | curvycad/builder.py:61-68 | A Start sets the position and heading and leaves cycle_pos alone. Straights and curves are laid. cycle_pos stays in [0, 1) and emissions are only appended. |
| Builder.DrawElements | curvycad/builder.py:61-68 | The loop over the path keeps cycle_pos in [0, 1) and only appends emissions. |
| Builder.SingleElementCompletes | curvycad/builder.py:48-68 | The promise that all patterns are completed, for a path of one straight or curve after an optional Start, drawn from cycle position 0 with a base pitch above 2e-12. The element is laid as exactly as many whole cycles as the rounded count, and the builder ends at cycle position 0. |
| Builder.NudgesLeaveCycleOpen | curvycad/builder.py:76-93 | As written, the path Straight(25), Straight(25), Straight(50) with pitch 100 keeps the pitch 100. Its third straight stops 2e-14 short of the cycle's end and lays the 2e-12 left over as a sliver of a second cycle, so the builder ends at cycle position 3e-14. The corrected loop finishes the one cycle and ends at 0. |
| Builder.FixedPathCompletes | curvycad/builder.py:48-68 | Any path, its element lengths laid one after another from position 0 by the corrected loop with the adjusted pitch, finishes exactly the rounded number of cycles and ends on a cycle boundary, when no element leaves anything over. |
| Builder.StartsOnlyMove | curvycad/builder.py:62-64 | A path of Starts only moves the builder to the last of them. |
| Builder.StraightCycles | curvycad/builder.py:202-222 | k cycles of `draw_straight` keep the heading and cycle_pos and append exactly k records per pattern element. |
| Builder.OneCycleMatchesLaydown | curvycad/builder.py:202-222 | From cycle position 0 with the builder's pitch, laying one pitch of straight equals one cycle of `draw_straight`, for a pattern inside the cycle. |
| Builder.PlanArc | curvycad/builder.py:232-238 | The plan fails exactly when \|angle\| > 2 * pi. Otherwise:<br>- the number of cycles is within one half of length / pitch;<br>- an angle of 0 gives zero cycles;<br>- for any other angle, radius * \|angle\| equals cycles * pitch, and the new radius differs from the requested one by at most pitch / (2 * \|angle\|). |
| Builder.FittedRadius | curvycad/builder.py:238 | The radius pitch * cycles / \|angle\| that `draw_arc` fits. RadiusBound states its properties. |
| Builder.RadiusBound | curvycad/builder.py:236-238 | The fitted radius fills the arc with whole cycles and stays within half a pitch over the angle of the requested radius. |
| Builder.ArcCycles | curvycad/builder.py:240-270 | k cycles of `draw_arc` keep cycle_pos and append exactly k records per pattern element. |
| Builder.ArcCyclesTurn | curvycad/builder.py:270 | After k cycles the heading has turned by k * angle / n. |
| Builder.ArcTurnsByAngle | curvycad/builder.py:240-270 | All n cycles turn the heading by exactly the angle. |
| Builder.TrackBuilder.constructor | curvycad/builder.py:26-42 | The builder starts at the origin, with heading 0, cycle position 0 and nothing emitted. |
| Builder.TrackBuilder.SetLocation | curvycad/builder.py:44-46 | Sets the position and heading and nothing else. |
| Builder.TrackBuilder.LaydownStraightCycle | curvycad/builder.py:132-159 | Appends exactly the clipped emissions of the pattern, in order, in the current frame, and changes nothing else. |
| Builder.TrackBuilder.LaydownCurveCycle | curvycad/builder.py:161-200 | As above, in the frame bent around radius * sign(angle). |
| Builder.TrackBuilder.LaydownStraightDistance | curvycad/builder.py:70-98 | The loop body takes the source's four branches itself, each proved to agree with `NextPiece`. The new state is the whole laydown of the straight from the old state. cycle_pos stays in [0, 1). |
| Builder.TrackBuilder.LaydownCurveDistance | curvycad/builder.py:101-130 | The same four branches. The new state is the whole laydown of the curve from the old state. |
| Builder.TrackBuilder.DrawPath | curvycad/builder.py:48-68 | The result is the adjusted pitch. The new state is every element laid in order with it, or, with zero cycles, unchanged. |
| Builder.TrackBuilder.DrawStraight | curvycad/builder.py:202-222 | The new state is int(cycles) whole cycles with the builder's pitch. The pitch argument is ignored. |
| Builder.TrackBuilder.DrawArc | curvycad/builder.py:224-270 | It refuses \|angle\| > 2 * pi and changes nothing. Otherwise the new state is the planned number of whole cycles around the fitted signed radius. |
| Dxf.GetStart | curvycad/dxf.py:52-61 | It fails exactly for an unsupported entity (a ValueError) or an empty polyline (an IndexError). A line starts at its start point and an arc at its start point. A polyline starts at its first vertex, at height 0. |
| Dxf.GetEnd | curvycad/dxf.py:63-72 | The same, with the end points of lines and arcs and the last vertex of a polyline. |
| Dxf.SingleVertexEndsWhereItStarts | curvycad/dxf.py:52-72 | A one-vertex polyline starts where it ends. |
| Dxf.ReverseLine | curvycad/dxf.py:103-107 | Start and end swap. |
| Dxf.ReverseLineTwice | curvycad/dxf.py:103-107 | Reversing twice restores the line. |
| Dxf.ReversedLineEnds | curvycad/dxf.py:103-107 | A reversed line starts at the old end and ends at the old start. |
| Dxf.Branch | curvycad/dxf.py:204-222 | A line takes no branch exactly when it touches neither end of the chain. |
| Dxf.FirstMatch | curvycad/dxf.py:204-224 | The loop picks the first remaining line that touches the chain: every earlier line touches neither end. |
| Dxf.FindMatch | curvycad/dxf.py:204-224 | The search of the for loop finds the first remaining line that touches the chain, or the number of lines when none does. |
| Dxf.AttachAtEnd | curvycad/dxf.py:205-217 | Appending a line (reversed where needed) that starts at the chain's end keeps the loop's invariant: a connected chain that, together with the remaining lines, holds each input line's end points once. |
| Dxf.AttachAtStart | curvycad/dxf.py:209-212 | Inserting a line that ends at the chain's start keeps the invariant. |
| Dxf.ReverseInPlace | curvycad/dxf.py:218-222 | The fourth branch reverses line j where it lies and leaves the chain as it was. The reversed line is still the first that touches the chain. It now ends at the chain's start, so the next iteration takes the second branch and inserts it at the front. No other line is left for this branch. |
| Dxf.ChainedNext | curvycad/dxf.py:204-208 | On input that is already a chain, the first remaining line is always the first to touch the chain. It takes the first branch, so the chain grows in input order. |
| Dxf.ReversePending | curvycad/dxf.py:218-222 | After the fourth branch reverses the first touching line, that line stays first among the touching lines and now takes the second branch. |
| Dxf.Attach | curvycad/dxf.py:204-224 | One pass of the loop on its two lists, a branch at a time, once the first touching line is found. Every pass lowers the termination measure: two per remaining line, plus one while a reversal is pending. |
| Dxf.AttachKeepsPartial | curvycad/dxf.py:204-224 | Every pass keeps the loop's invariant: a chain holding the first line, and every input line's end points used exactly once between the chain and the remaining lines. |
| Dxf.AttachOne | curvycad/dxf.py:204-224 | The loop body as a method. Its result is exactly the pass `Attach`; it keeps the invariant and lowers the measure. The first branch appends that line and removes it. |
| Dxf.OrderFrom | curvycad/dxf.py:200-234 | What the loop returns from a given chain and list of remaining lines. It returns the chain once no line remains and fails with the connection error as soon as no remaining line touches the chain; no other error arises. |
| Dxf.OrderFromSound | curvycad/dxf.py:200-234 | From any state the invariant allows, a failure comes only from a chain that no remaining line touches. Otherwise the result is one connected chain through every input line, each used once, with the first line in its own direction. |
| Dxf.OrderFromChained | curvycad/dxf.py:200-234 | Input that is already a chain comes back unchanged. |
| Dxf.OrderStep | curvycad/dxf.py:204-224 | When line j is the first to touch the chain, the loop's outcome is the outcome after that one pass. |
| Dxf.JunctionOrderDecides | curvycad/dxf.py:204-224 | At a junction the order of the input decides the outcome. With A = 0→1, B = 1→2, C = 1→3 and D = 3→1:<br>- given A, D, C, B, the loop returns A, reversed D, reversed C, B;<br>- given A, B, C, D, it takes B first and then fails with the connection error. |
| Dxf.ClosedSquareRotates | curvycad/dxf.py:209-212 | The closed unit square given as a, c, d, b is returned as c, d, a, b. The chain then starts at c, not at the first line. |
| Dxf.OrderLines | curvycad/dxf.py:197-236 | An empty input is an IndexError. Otherwise the result is exactly `OrderFrom` of the first line and the rest, which fixes the outcome at junctions and the rotation of closed paths. Consequences stated on the method:<br>- a connection error happens only at a chain, allowed by the invariant, that no remaining line touches;<br>- on success the result is one connected chain through every line, each used once, possibly reversed, with the first line in its own direction;<br>- input that is already a chain comes back unchanged. |
| Dxf.ReadDxfElements | curvycad/dxf.py:170-236 | An unsupported entity is refused. Otherwise the result is that of the ordering loop on the lines, as above: an empty drawing is an IndexError, the outcome is `OrderFrom` of the first line and the rest, and lines already in chain order come back unchanged. |
| Dxf.LineStartAngle | curvycad/dxf.py:74-78 | `get_start_angle` for a line: atan2 of its direction. ReadDxf uses it for the Start's heading. |
| Dxf.LineStraight | curvycad/dxf.py:259-263 | The Straight that `read_dxf` makes of a line, as long as the line. ReadDxf states its use. |
| Dxf.PathOfLines | curvycad/dxf.py:257-263 | The path built from the ordered lines: a Start at the first line's start point, heading along it, then one Straight per line, in order, as long as the line. |
| Dxf.ReadDxf | curvycad/dxf.py:238-282 | The errors are those of the ordering above; the chain used is the one `OrderFrom` returns. On success the path is:<br>- a Start at the chain's first point, heading along its first line;<br>- then one Straight per line, in chain order, as long as the line.<br>Lines already in chain order are used in that order. |
| Dxf.ArcFromPoints | curvycad/dxf.py:21-50 | `arc_from_lwpolyline_points`, including its bulge guard and radius formula. ArcFromPointsRefuses, ArcFromPointsOk and ArcFromPointsRadius state it. |
| Dxf.ArcFromPointsRefuses | curvycad/dxf.py:36-45 | It fails for a zero bulge (checked first) and for coinciding vertices. In exact arithmetic it also fails for \|bulge\| = 1, where the angle's atan divides by zero; in floating point, arc_radius - bulge may instead round to a tiny non-zero value. |
| Dxf.ArcFromPointsOk | curvycad/dxf.py:31-50 | Otherwise the arc joins the two vertices. Its radius is (b^2 + d^2/4) / (2b), and start_angle - end_angle is the arc angle, negated for a negative bulge. |
| Dxf.ArcFromPointsRadius | curvycad/dxf.py:39-49 | The radius is d * (a^2 + 1) / (4a) for a = \|bulge\|; it is positive for a positive chord. The angle is 2 * atan(2a / (1 - a^2)). |
| Dxf.SagittaRadius | curvycad/dxf.py:41-43 | b = a * d / 2 is non-zero, the radius formula is d * (a^2 + 1) / (4a), and the radius exceeds b by d * (1 - a^2) / (4a). |
| Dxf.RadiusClosedForm | curvycad/dxf.py:41-45 | In exact arithmetic, the radius and the atan argument have closed forms with no division by zero, for a bulge other than 0 and +-1. |
| Dxf.ArcAngleArgumentBeyondHalfCircle | curvycad/dxf.py:45 | For \|bulge\| > 1 the atan argument is negative. |
| Dxf.Segment | curvycad/dxf.py:151-166 | A zero-bulge segment becomes a Straight as long as the chord. Any other segment becomes a Curve through start_angle - end_angle, with the arc's radius, exactly when the arc exists. |
| Dxf.SegmentCount | curvycad/dxf.py:143-146 | A closed polyline has one segment per vertex, an open one has one fewer. |
| Dxf.ReduceLwPolyline | curvycad/dxf.py:139-168 | A polyline marked reversed fails with a TypeError. Otherwise the result holds each segment converted, in order, and fails exactly when some segment does, with that segment's error. |
| Dxf.ReversedPolylineConverts | curvycad/dxf.py:141-149 | There is a reversed polyline all of whose segments convert. |
| Dxf.Visit | curvycad/dxf.py:148-150 | The intended order runs backwards for a reversed polyline and forwards otherwise. |
| Dxf.VisitOnce | curvycad/dxf.py:148-150 | That order visits every segment once. |
| Dxf.Backwards | curvycad/dxf.py:163-165 | A backwards curve turns the other way with the same radius and length. |
| Dxf.BackwardsTwice | curvycad/dxf.py:163-165 | Turning back twice restores the element. |
| Dxf.ReduceLwPolylineCorrected | curvycad/dxf.py:139-168 | The polyline is reduced as intended. The k-th result is the k-th visited segment, turned back when the polyline is reversed. It fails exactly when some visited segment does. |
| Dxf.CorrectedAgreesUnreversed | curvycad/dxf.py:139-168 | For a polyline not marked reversed, the corrected reduction converts each segment as the original does. |

## Left out

- Board coordinates. `rotate` and `warp_point_on_arc` (curvycad/builder.py:4-22) are not evaluated. Positions and emissions stay symbolic, in local coordinates together with the frame they are mapped through.
- The mid point of an arc emitted by `__laydown_curve_cycle`. It is computed from coordinates that are already warped (curvycad/builder.py:177), so the model records no mid point for it.
- `emit_line`, `emit_arc` and `emit_via` are represented by the records they are passed. As written, their stubs are nested inside `draw_arc` (curvycad/builder.py:272-279), so a plain TrackBuilder has no such methods.
- `KicadTrackBuilder` and its pcbnew calls are out of scope.
- Builder.TrackBuilder.DrawPath: when the nearest whole number of cycles is 0, the source divides by zero and lays the path with a non-finite pitch. The model returns `Err(ZeroCycles)` and changes nothing.
- Builder.TrackBuilder.DrawPath: the class lays the path as written, with the drift in the finding below. The corrected loop is a specification of what was intended; the model has no builder that emits with it.
- Builder.SingleElementCompletes: the promise that all patterns are completed is proved for one straight or curve only. For longer paths it fails as written (see the finding below); it is proved for the corrected loop by Builder.FixedPathCompletes.
- Builder.TrackBuilder.constructor: requires a positive pitch, which the source does not check.
- Builder.TrackBuilder.SetLocation: `np.array(p)` and `float(theta)` conversions are not modelled; the point is taken as given.
- Dxf.ReadDxfElements: handles drawings of Line entities only. Arcs and polylines, and chaining them, are not modelled.
- Dxf.ReadDxf: the same restriction. So `get_start_angle` is modelled for Lines only, and the Arc branch of `read_dxf` is not modelled.
- Dxf.OrderLines: end points are compared exactly, not with `np.allclose`.
- Dxf.OrderLines: reversing an entity in place becomes replacing it in the list, so aliasing between the lists is not captured.
- Reading the file (`ezdxf.readfile`, `modelspace`) is left out. The entities of the model space are the input.
- `dxf_entity_string` only formats the error message, and is left out.
- `reverse_element` on Arcs and polylines is left out, because only Lines are chained.
- Square roots and arctangents are not evaluated. They are fields of a `MathLib` parameter with no properties assumed.

## Findings

| source | as written | input that shows it | evidently intended | confidence | as-written member | corrected member |
|---|---|---|---|---|---|---|
| curvycad/dxf.py:141-149 | The local flag `reversed` shadows the builtin. `reversed(indices)` then calls a bool, so every reversed polyline raises TypeError. | The open polyline (0,0), (1,0), with no bulge and marked reversed. Its one segment converts, but the call fails. | Walk the segments from last to first and turn each curve the other way. | high; not executed | Dxf.ReduceLwPolyline, Dxf.ReversedPolylineConverts | Dxf.ReduceLwPolylineCorrected |
| curvycad/builder.py:79 | Each piece ending inside a cycle carries seg_end + 1e-14 into the next element, and the next piece starts there. The carried position drifts by 1e-14 per such element, so a path of a whole number of cycles can end off the cycle boundary, with an extra sliver of a cycle emitted. The same nudge is at line 89. | Straight(25), Straight(25), Straight(50) with pitch 100. This is one whole cycle, yet the laydown ends at cycle position 3e-14, having laid a 2e-12 sliver of a second cycle. | Carry seg_end itself, and keep the drawn pieces apart by other means, so that the path ends on a cycle boundary after exactly `cycles` cycles. | high in exact arithmetic; not executed | Segmentation.LayDrift, Builder.NudgesLeaveCycleOpen | Segmentation.LayFixed, Segmentation.FixedCompletesCycles, Builder.FixedPathCompletes |
