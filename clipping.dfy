/** What TrackBuilder emits for the pattern elements of one piece
    (curvycad/builder.py, `__laydown_straight_cycle`, `__laydown_curve_cycle`,
    and the bodies of `draw_straight` and `draw_arc`). Each record keeps the
    local track coordinates (u along the path in millimetres from the start of
    the piece, v across it) and the frame that the source's `rotate` and
    `warp_point_on_arc` map them through onto the board. */
module Clipping {
  import opened Results
  import opened PathTypes
  import opened Segmentation

  /** How local coordinates are bent before rotation: not at all on a
      straight, or around an arc of the given signed radius
      (`radius * np.sign(angle)`). */
  datatype Bend = Flat | Bent(signedRadius: real)

  /** The builder's position, kept as the sequence of moves that produced it:
      `Moved(from, along, heading, bend)` is `from` plus the local point
      (along, 0) bent by `bend` and rotated by `heading`. */
  datatype Pos = Placed(at: Point) | Moved(from: Pos, along: real, heading: real, bend: Bend)

  /** The position, heading and bend in force when a record was emitted. */
  datatype Frame = Frame(origin: Pos, heading: real, bend: Bend)

  /** One call of `emit_line`, `emit_arc` or `emit_via`. For an arc the mid
      point's longitudinal coordinate is known only for `draw_arc`. */
  datatype Emission =
    | LineOut(frame: Frame, u0: real, v0: real, u1: real, v1: real, width: real, layer: Layer)
    | ArcOut(frame: Frame, u0: real, mid: Option<real>, u1: real, v: real, width: real, layer: Layer)
    | ViaOut(frame: Frame, u: real, v: real, drill: real, pad: real)

  function Max(a: real, b: real): real { if a >= b then a else b }
  function Min(a: real, b: real): real { if a <= b then a else b }

  /** What one pattern element emits in the piece [segStart, segEnd] of a
      cycle. A parallel line is clipped to the piece and scaled by the pitch
      used for laying down; transverse lines and vias are placed with the
      builder's own, unadjusted pitch `basePitch`. */
  function Clip(el: PatternElement, segStart: real, segEnd: real, pitch: real, basePitch: real, frame: Frame): seq<Emission>
  {
    match el
    case ParallelLine(start, end, offset, width, layer) =>
      var u0 := (Max(segStart, start) - segStart) * pitch;
      var u1 := (Min(segEnd, end) - segStart) * pitch;
      if u0 > u1 then []
      else if frame.bend.Flat? then [LineOut(frame, u0, offset, u1, offset, width, layer)]
      else [ArcOut(frame, u0, None, u1, offset, width, layer)]
    case TransverseLine(start, end, offset, width, layer) =>
      if offset >= segStart && offset <= segEnd then
        var u := (offset - segStart) * basePitch;
        [LineOut(frame, u, start, u, end, width, layer)]
      else []
    case Via(distance, transverse, drill, pad) =>
      if distance >= segStart && distance <= segEnd then
        [ViaOut(frame, (distance - segStart) * basePitch, transverse, drill, pad)]
      else []
  }

  /** Everything the pattern emits in one piece, in pattern order. */
  function PieceEmissions(pattern: seq<PatternElement>, segStart: real, segEnd: real, pitch: real, basePitch: real, frame: Frame): seq<Emission>
  {
    if pattern == [] then []
    else
      var n := |pattern| - 1;
      PieceEmissions(pattern[..n], segStart, segEnd, pitch, basePitch, frame)
        + Clip(pattern[n], segStart, segEnd, pitch, basePitch, frame)
  }

  lemma PieceEmissionsSnoc(pattern: seq<PatternElement>, i: nat, segStart: real, segEnd: real,
                           pitch: real, basePitch: real, frame: Frame)
    requires i < |pattern|
    ensures PieceEmissions(pattern[..i + 1], segStart, segEnd, pitch, basePitch, frame)
              == PieceEmissions(pattern[..i], segStart, segEnd, pitch, basePitch, frame)
                 + Clip(pattern[i], segStart, segEnd, pitch, basePitch, frame)
  {
    assert pattern[..i + 1][..i] == pattern[..i];
  }

  /** What one pattern element emits in a whole cycle of `draw_straight` or
      `draw_arc`: nothing is clipped and the builder's pitch is used throughout. */
  function Place(el: PatternElement, basePitch: real, frame: Frame): Emission
  {
    match el
    case ParallelLine(start, end, offset, width, layer) =>
      if frame.bend.Flat? then LineOut(frame, start * basePitch, offset, end * basePitch, offset, width, layer)
      else ArcOut(frame, start * basePitch, Some((start + end) / 2.0 * basePitch), end * basePitch, offset, width, layer)
    case TransverseLine(start, end, offset, width, layer) =>
      LineOut(frame, offset * basePitch, start, offset * basePitch, end, width, layer)
    case Via(distance, transverse, drill, pad) =>
      ViaOut(frame, distance * basePitch, transverse, drill, pad)
  }

  function CycleEmissions(pattern: seq<PatternElement>, basePitch: real, frame: Frame): seq<Emission>
  {
    if pattern == [] then []
    else
      var n := |pattern| - 1;
      CycleEmissions(pattern[..n], basePitch, frame) + [Place(pattern[n], basePitch, frame)]
  }

  /** A parallel line is emitted in a piece exactly when its interval meets
      the piece, then from (max(segStart, start) - segStart) * pitch to
      (min(segEnd, end) - segStart) * pitch at its own offset, inside
      [0, (segEnd - segStart) * pitch]; on a straight as a line, on a curve as
      an arc. */
  lemma ParallelLineClip(el: PatternElement, segStart: real, segEnd: real, pitch: real, basePitch: real, frame: Frame)
    requires el.ParallelLine? && pitch > 0.0
    ensures var out := Clip(el, segStart, segEnd, pitch, basePitch, frame);
      var lo := Max(segStart, el.start);
      var hi := Min(segEnd, el.end);
      && (|out| == 1 <==> lo <= hi)
      && (|out| == 0 <==> lo > hi)
      && (|out| == 1 ==>
            && out[0].frame == frame
            && (out[0].LineOut? <==> frame.bend.Flat?)
            && out[0].u0 == (lo - segStart) * pitch
            && out[0].u1 == (hi - segStart) * pitch
            && (out[0].LineOut? ==> out[0].v0 == el.offset && out[0].v1 == el.offset)
            && (out[0].ArcOut? ==> out[0].v == el.offset && out[0].mid == None)
            && 0.0 <= (lo - segStart) * pitch <= (hi - segStart) * pitch <= (segEnd - segStart) * pitch)
  {
    var lo := Max(segStart, el.start);
    var hi := Min(segEnd, el.end);
    if lo <= hi {
      MulMonotone(lo - segStart, hi - segStart, pitch);
      MulMonotone(0.0, lo - segStart, pitch);
      MulMonotone(hi - segStart, segEnd - segStart, pitch);
    } else {
      MulMonotone(hi - segStart, lo - segStart, pitch);
      assert (lo - segStart) * pitch - (hi - segStart) * pitch == (lo - hi) * pitch;
      MulMonotone(0.0, lo - hi, pitch);
      assert (lo - hi) * pitch != 0.0;
    }
  }

  /** A transverse line or via is emitted exactly when its longitudinal
      position u lies in the piece, at (u - segStart) * basePitch. */
  lemma PointElementClip(el: PatternElement, segStart: real, segEnd: real, pitch: real, basePitch: real, frame: Frame)
    requires !el.ParallelLine?
    ensures var u := if el.Via? then el.distance else el.offset;
      var out := Clip(el, segStart, segEnd, pitch, basePitch, frame);
      && (|out| == 1 <==> segStart <= u <= segEnd)
      && (|out| == 0 <==> !(segStart <= u <= segEnd))
      && (|out| == 1 && el.Via? ==> out[0] == ViaOut(frame, (u - segStart) * basePitch, el.transverse, el.drill, el.pad))
      && (|out| == 1 && el.TransverseLine? ==>
            out[0] == LineOut(frame, (u - segStart) * basePitch, el.start, (u - segStart) * basePitch, el.end, el.width, el.layer))
      && (|out| == 1 && basePitch > 0.0 ==> 0.0 <= (u - segStart) * basePitch <= (segEnd - segStart) * basePitch)
  {
    var u := if el.Via? then el.distance else el.offset;
    if segStart <= u <= segEnd && basePitch > 0.0 {
      MulMonotone(0.0, u - segStart, basePitch);
      MulMonotone(u - segStart, segEnd - segStart, basePitch);
    }
  }

  /** In a piece ending at segEnd, a transverse line or via placed at segEnd
      lands where a parallel line running to segEnd stops only when the
      adjusted pitch equals the builder's own pitch. */
  lemma PieceEndsAgreeOnlyAtBasePitch(line: PatternElement, mark: PatternElement, segStart: real, segEnd: real,
                                      pitch: real, basePitch: real, frame: Frame)
    requires line.ParallelLine? && line.start <= segStart < segEnd <= line.end
    requires mark.TransverseLine? && mark.offset == segEnd
    requires pitch > 0.0 && frame.bend.Flat?
    ensures var a := Clip(line, segStart, segEnd, pitch, basePitch, frame);
      var b := Clip(mark, segStart, segEnd, pitch, basePitch, frame);
      |a| == 1 && |b| == 1 && (a[0].u1 == b[0].u0 <==> pitch == basePitch)
  {
    ParallelLineClip(line, segStart, segEnd, pitch, basePitch, frame);
    PointElementClip(mark, segStart, segEnd, pitch, basePitch, frame);
    var a := Clip(line, segStart, segEnd, pitch, basePitch, frame);
    var b := Clip(mark, segStart, segEnd, pitch, basePitch, frame);
    var w := segEnd - segStart;
    assert Max(segStart, line.start) == segStart && Min(segEnd, line.end) == segEnd;
    assert a[0].u1 == w * pitch;
    assert b[0].u0 == w * basePitch;
    ScaleInjective(a[0].u1, b[0].u0, w, pitch, basePitch);
  }

  /** Every element contributes at most one record to a piece, in the piece's
      frame. */
  lemma {:induction false} PieceEmissionsBound(pattern: seq<PatternElement>, segStart: real, segEnd: real,
                                               pitch: real, basePitch: real, frame: Frame)
    ensures var out := PieceEmissions(pattern, segStart, segEnd, pitch, basePitch, frame);
      |out| <= |pattern| && forall k :: 0 <= k < |out| ==> out[k].frame == frame
  {
    if pattern != [] {
      PieceEmissionsBound(pattern[..|pattern| - 1], segStart, segEnd, pitch, basePitch, frame);
    }
  }

  /** Every element contributes exactly one record to a whole cycle, in pattern
      order and in the cycle's frame. */
  lemma {:induction false} CycleEmissionsExact(pattern: seq<PatternElement>, basePitch: real, frame: Frame)
    ensures var out := CycleEmissions(pattern, basePitch, frame);
      |out| == |pattern| && forall k :: 0 <= k < |out| ==> out[k] == Place(pattern[k], basePitch, frame)
  {
    if pattern != [] {
      CycleEmissionsExact(pattern[..|pattern| - 1], basePitch, frame);
    }
  }

  lemma WholePieceLine(el: PatternElement, basePitch: real, frame: Frame)
    requires basePitch > 0.0 && frame.bend.Flat?
    requires el.ParallelLine? && 0.0 <= el.start <= el.end <= 1.0
    ensures Clip(el, 0.0, 1.0, basePitch, basePitch, frame) == [Place(el, basePitch, frame)]
  {
    var c := Clip(el, 0.0, 1.0, basePitch, basePitch, frame);
    var u0 := (Max(0.0, el.start) - 0.0) * basePitch;
    var u1 := (Min(1.0, el.end) - 0.0) * basePitch;
    assert u0 == el.start * basePitch && u1 == el.end * basePitch;
    MulMonotone(el.start, el.end, basePitch);
    assert |c| == 1 && c[0].LineOut? && c[0].frame == frame;
    assert c[0].u0 == u0 && c[0].u1 == u1;
    assert c[0] == LineOut(frame, u0, el.offset, u1, el.offset, el.width, el.layer);
    assert Place(el, basePitch, frame) == LineOut(frame, el.start * basePitch, el.offset, el.end * basePitch, el.offset, el.width, el.layer);
    assert c == [c[0]];
  }

  lemma WholePieceMark(el: PatternElement, basePitch: real, frame: Frame)
    requires basePitch > 0.0
    requires el.TransverseLine? ==> 0.0 <= el.offset <= 1.0
    requires el.Via? ==> 0.0 <= el.distance <= 1.0
    requires !el.ParallelLine?
    ensures Clip(el, 0.0, 1.0, basePitch, basePitch, frame) == [Place(el, basePitch, frame)]
  {
    PointElementClip(el, 0.0, 1.0, basePitch, basePitch, frame);
    var u := if el.Via? then el.distance else el.offset;
    assert (u - 0.0) * basePitch == u * basePitch;
    var c := Clip(el, 0.0, 1.0, basePitch, basePitch, frame);
    assert |c| == 1;
    assert c == [c[0]];
    if el.Via? {
      assert c[0] == ViaOut(frame, u * basePitch, el.transverse, el.drill, el.pad) == Place(el, basePitch, frame);
    } else {
      assert c[0] == LineOut(frame, u * basePitch, el.start, u * basePitch, el.end, el.width, el.layer) == Place(el, basePitch, frame);
    }
  }

  /** On a straight, a piece that is a whole cycle laid with the builder's own
      pitch emits what `draw_straight` emits for an element lying inside the
      cycle. */
  lemma WholePieceIsCycle(el: PatternElement, basePitch: real, frame: Frame)
    requires basePitch > 0.0 && frame.bend.Flat?
    requires el.ParallelLine? ==> 0.0 <= el.start <= el.end <= 1.0
    requires el.TransverseLine? ==> 0.0 <= el.offset <= 1.0
    requires el.Via? ==> 0.0 <= el.distance <= 1.0
    ensures Clip(el, 0.0, 1.0, basePitch, basePitch, frame) == [Place(el, basePitch, frame)]
  {
    if el.ParallelLine? {
      WholePieceLine(el, basePitch, frame);
    } else {
      WholePieceMark(el, basePitch, frame);
    }
  }
}
