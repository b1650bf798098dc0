/** TrackBuilder (curvycad/builder.py): lays a repeating pattern along a path
    of straights and arcs. The pure part of this module specifies what the
    builder's loops compute; the class below carries the builder's state and
    its methods are proved against those specifications. */
module Builder {
  import opened Results
  import opened PathTypes
  import opened Segmentation
  import opened Clipping

  /** `np.sign`. */
  function Sign(x: real): (s: real)
    ensures s * Abs(x) == x
    ensures x > 0.0 <==> s == 1.0
    ensures x < 0.0 <==> s == -1.0
    ensures x == 0.0 <==> s == 0.0
  {
    if x > 0.0 then 1.0 else if x < 0.0 then -1.0 else 0.0
  }

  /** `np.round`: to the nearest integer, ties to the even one. */
  function RoundHalfEven(x: real): (n: int)
    ensures -0.5 <= n as real - x <= 0.5
    ensures (n as real - x == 0.5 || x - n as real == 0.5) ==> n % 2 == 0
  {
    var f := x.Floor;
    var d := x - f as real;
    if d < 0.5 then f
    else if d > 0.5 then f + 1
    else if f % 2 == 0 then f else f + 1
  }

  /** The two properties above determine the rounded value. */
  lemma RoundHalfEvenUnique(x: real, m: int)
    requires -0.5 <= m as real - x <= 0.5
    requires (m as real - x == 0.5 || x - m as real == 0.5) ==> m % 2 == 0
    ensures m == RoundHalfEven(x)
  {
  }

  /** Exactly the values at most one half away from 0 round to 0. */
  lemma RoundsToZero(x: real)
    ensures RoundHalfEven(x) == 0 <==> -0.5 <= x <= 0.5
  {
    var n := RoundHalfEven(x);
    if -0.5 <= x <= 0.5 {
      assert -1 <= n <= 1;
    }
  }

  /** `int()` of a float: truncation toward zero. */
  function Trunc(x: real): (n: int)
    ensures x >= 0.0 ==> 0.0 <= n as real <= x < n as real + 1.0
    ensures x < 0.0 ==> n as real - 1.0 < x <= n as real <= 0.0
  {
    if x >= 0.0 then x.Floor else -((-x).Floor)
  }

  /** How many times `for _ in range(n)` runs. */
  function Iterations(n: int): (k: nat)
    ensures n > 0 ==> k == n
    ensures n <= 0 ==> k == 0
  {
    if n > 0 then n else 0
  }

  /** The state TrackBuilder keeps, plus the records it has emitted so far. */
  datatype BuilderState = BuilderState(pos: Pos, theta: real, cyclePos: real, emitted: seq<Emission>)

  /** The kind of path element being laid down, with what its length and
      turning depend on. */
  datatype Track = StraightTrack(length: real) | CurveTrack(radius: real, angle: real)

  /** The distance `distance_remaining` starts from. */
  function Distance(t: Track): real
  {
    match t
    case StraightTrack(length) => length
    case CurveTrack(radius, angle) => radius * Abs(angle)
  }

  /** What local coordinates are warped with on this track. */
  function BendOf(t: Track): Bend
  {
    match t
    case StraightTrack(_) => Flat
    case CurveTrack(radius, angle) => Bent(radius * Sign(angle))
  }

  /** A curve of positive length has a positive radius. */
  lemma CurveRadiusPositive(t: Track)
    ensures t.CurveTrack? && Distance(t) > 0.0 ==> t.radius > 0.0
  {
    if t.CurveTrack? && t.radius <= 0.0 {
      MulMonotone(t.radius, 0.0, Abs(t.angle) + 1.0);
      assert t.radius * Abs(t.angle) == t.radius * (Abs(t.angle) + 1.0) - t.radius;
    }
  }

  datatype Cursor = Cursor(pos: Pos, theta: real)

  /** The turn that `distance_added` along the track makes. */
  function Turn(t: Track, added: real): real
    requires t.CurveTrack? ==> t.radius != 0.0
  {
    if t.StraightTrack? then 0.0 else Sign(t.angle) * added / t.radius
  }

  datatype Trace = Trace(cursor: Cursor, emitted: seq<Emission>)

  /** The pieces laid one after the other from `c`: the emissions of each in
      the frame in force before it, and the cursor moved past it. */
  function Walk(c: Cursor, t: Track, ps: seq<Piece>, pitch: real, basePitch: real, pattern: seq<PatternElement>): Trace
    requires t.CurveTrack? && ps != [] ==> t.radius != 0.0
  {
    if ps == [] then Trace(c, [])
    else
      var n := |ps| - 1;
      var w := Walk(c, t, ps[..n], pitch, basePitch, pattern);
      var added := Added(ps[n], pitch);
      var frame := Frame(w.cursor.pos, w.cursor.theta, BendOf(t));
      Trace(Cursor(Moved(w.cursor.pos, added, w.cursor.theta, BendOf(t)), w.cursor.theta + Turn(t, added)),
            w.emitted + PieceEmissions(pattern, ps[n].segStart, ps[n].segEnd, pitch, basePitch, frame))
  }

  lemma WalkSnoc(c: Cursor, t: Track, ps: seq<Piece>, p: Piece, pitch: real, basePitch: real, pattern: seq<PatternElement>)
    requires t.CurveTrack? ==> t.radius != 0.0
    ensures var w := Walk(c, t, ps, pitch, basePitch, pattern);
      var added := Added(p, pitch);
      Walk(c, t, ps + [p], pitch, basePitch, pattern)
        == Trace(Cursor(Moved(w.cursor.pos, added, w.cursor.theta, BendOf(t)), w.cursor.theta + Turn(t, added)),
                 w.emitted + PieceEmissions(pattern, p.segStart, p.segEnd, pitch, basePitch, Frame(w.cursor.pos, w.cursor.theta, BendOf(t))))
  {
    assert (ps + [p])[..|ps|] == ps;
  }

  /** One more piece laid from where the walk stands: the loop invariant
      of the laydown methods carried over one iteration. */
  lemma WalkStep(c: Cursor, t: Track, ps: seq<Piece>, p: Piece, pitch: real, basePitch: real,
                 pattern: seq<PatternElement>, here: Cursor, before: seq<Emission>, emitted: seq<Emission>)
    requires t.CurveTrack? ==> t.radius != 0.0
    requires here == Walk(c, t, ps, pitch, basePitch, pattern).cursor
    requires emitted == before + Walk(c, t, ps, pitch, basePitch, pattern).emitted
    ensures var w := Walk(c, t, ps + [p], pitch, basePitch, pattern);
      var added := Added(p, pitch);
      && w.cursor == Cursor(Moved(here.pos, added, here.theta, BendOf(t)), here.theta + Turn(t, added))
      && before + w.emitted
         == emitted + PieceEmissions(pattern, p.segStart, p.segEnd, pitch, basePitch, Frame(here.pos, here.theta, BendOf(t)))
  {
    WalkSnoc(c, t, ps, p, pitch, basePitch, pattern);
  }

  /** `__laydown_straight_distance` and `__laydown_curve_distance`: the
      whole loop, from the given state. */
  function LayTrack(s: BuilderState, t: Track, pitch: real, basePitch: real, pattern: seq<PatternElement>): (r: BuilderState)
    requires pitch > 0.0 && 0.0 <= s.cyclePos < 1.0
    ensures 0.0 <= r.cyclePos < 1.0
    ensures |s.emitted| <= |r.emitted| && r.emitted[..|s.emitted|] == s.emitted
  {
    var run := Lay(s.cyclePos, Distance(t), pitch);
    LayPiecesInUnit(s.cyclePos, Distance(t), pitch);
    LayShape(s.cyclePos, Distance(t), pitch);
    CurveRadiusPositive(t);
    var w := Walk(Cursor(s.pos, s.theta), t, run.pieces, pitch, basePitch, pattern);
    assert (s.emitted + w.emitted)[..|s.emitted|] == s.emitted;
    BuilderState(w.cursor.pos, w.cursor.theta, run.cyclePos, s.emitted + w.emitted)
  }

  /** The turn made along a distance is additive. */
  lemma TurnAdditive(t: Track, a: real, b: real)
    requires t.CurveTrack? ==> t.radius != 0.0
    ensures Turn(t, a + b) == Turn(t, a) + Turn(t, b)
  {
    if t.CurveTrack? {
      assert Sign(t.angle) * (a + b) == Sign(t.angle) * a + Sign(t.angle) * b;
    }
  }

  /** Walking a sequence of pieces turns by the turn of their total length. */
  lemma {:induction false} WalkTurns(c: Cursor, t: Track, ps: seq<Piece>, pitch: real, basePitch: real, pattern: seq<PatternElement>)
    requires t.CurveTrack? ==> t.radius != 0.0
    ensures Walk(c, t, ps, pitch, basePitch, pattern).cursor.theta == c.theta + Turn(t, Covered(ps, pitch))
  {
    if ps == [] {
      assert Turn(t, 0.0) == 0.0;
    } else {
      var n := |ps| - 1;
      WalkTurns(c, t, ps[..n], pitch, basePitch, pattern);
      assert ps == ps[..n] + [ps[n]];
      CoveredSnoc(ps[..n], ps[n], pitch);
      TurnAdditive(t, Covered(ps[..n], pitch), Added(ps[n], pitch));
    }
  }

  /** The heading after laying a track is the heading before it plus the
      turn along the distance the pieces cover. */
  lemma LayTrackTurns(s: BuilderState, t: Track, pitch: real, basePitch: real, pattern: seq<PatternElement>)
    requires pitch > 0.0 && 0.0 <= s.cyclePos < 1.0
    requires t.CurveTrack? ==> t.radius != 0.0
    ensures LayTrack(s, t, pitch, basePitch, pattern).theta
              == s.theta + Turn(t, Covered(Lay(s.cyclePos, Distance(t), pitch).pieces, pitch))
  {
    WalkTurns(Cursor(s.pos, s.theta), t, Lay(s.cyclePos, Distance(t), pitch).pieces, pitch, basePitch, pattern);
  }

  /** Laying a straight leaves the heading alone. */
  lemma StraightKeepsHeading(s: BuilderState, length: real, pitch: real, basePitch: real, pattern: seq<PatternElement>)
    requires pitch > 0.0 && 0.0 <= s.cyclePos < 1.0
    ensures LayTrack(s, StraightTrack(length), pitch, basePitch, pattern).theta == s.theta
  {
    LayTrackTurns(s, StraightTrack(length), pitch, basePitch, pattern);
  }

  /** Laying a curve turns the heading along the distance the pieces cover:
      the curve's length less what the loop leaves unlaid. */
  lemma CurveTurnsByCovered(s: BuilderState, t: Track, pitch: real, basePitch: real, pattern: seq<PatternElement>)
    requires pitch > 0.0 && 0.0 <= s.cyclePos < 1.0 && t.CurveTrack? && Distance(t) > Eps
    ensures t.radius > 0.0
    ensures LayTrack(s, t, pitch, basePitch, pattern).theta
              == s.theta + Turn(t, Distance(t) - Lay(s.cyclePos, Distance(t), pitch).remaining)
  {
    LayCoversDistance(s.cyclePos, Distance(t), pitch);
    CurveRadiusPositive(t);
    LayTrackTurns(s, t, pitch, basePitch, pattern);
  }

  /** Laying a curve of positive length turns the heading by its angle, short
      of the turn along the distance the loop leaves unlaid, which lies in
      [-1e-12 * pitch, 1e-12]. */
  lemma CurveTurnsByAngle(s: BuilderState, radius: real, angle: real, pitch: real, basePitch: real, pattern: seq<PatternElement>)
    requires pitch > 0.0 && 0.0 <= s.cyclePos < 1.0 && radius * Abs(angle) > Eps
    ensures radius > 0.0
    ensures var rest := Lay(s.cyclePos, radius * Abs(angle), pitch).remaining;
      && LayTrack(s, CurveTrack(radius, angle), pitch, basePitch, pattern).theta == s.theta + angle - Sign(angle) * rest / radius
      && -Eps * pitch <= rest <= Eps
  {
    var t := CurveTrack(radius, angle);
    var rest := Lay(s.cyclePos, Distance(t), pitch).remaining;
    assert Distance(t) == radius * Abs(angle);
    LayCoversDistance(s.cyclePos, Distance(t), pitch);
    CurveTurnsByCovered(s, t, pitch, basePitch, pattern);
    var th := LayTrack(s, t, pitch, basePitch, pattern).theta;
    assert th == s.theta + Turn(t, radius * Abs(angle) - rest);
    CurveTurn(radius, angle, rest);
    assert th == s.theta + (angle - Sign(angle) * rest / radius);
  }

  /** A track no longer than 1e-12 changes nothing. */
  lemma LayTrackShort(s: BuilderState, t: Track, pitch: real, basePitch: real, pattern: seq<PatternElement>)
    requires pitch > 0.0 && 0.0 <= s.cyclePos < 1.0 && Distance(t) <= Eps
    ensures LayTrack(s, t, pitch, basePitch, pattern) == s
  {
    assert Lay(s.cyclePos, Distance(t), pitch) == Run([], s.cyclePos, Distance(t));
  }

  lemma CurveTurn(radius: real, angle: real, rest: real)
    requires radius > 0.0
    ensures Turn(CurveTrack(radius, angle), radius * Abs(angle) - rest) == angle - Sign(angle) * rest / radius
  {
    var sg := Sign(angle);
    assert sg * (radius * Abs(angle) - rest) == radius * (sg * Abs(angle)) - sg * rest;
    assert (radius * angle - sg * rest) / radius == angle - sg * rest / radius;
  }

  /** Why `draw_path` could not lay the pattern. */
  datatype DrawError = ZeroCycles | AngleOutOfRange

  /** `sum([el.length for el in path])`. */
  function TotalLength(path: seq<PathElement>): real
  {
    if path == [] then 0.0 else TotalLength(path[..|path| - 1]) + path[|path| - 1].Length()
  }

  lemma DivBounds(x: real, p: real)
    requires p > 0.0
    ensures 2.0 * Abs(x) <= p <==> -0.5 <= x / p <= 0.5
  {
    var q := x / p;
    DivMulCancel(x, p);
    if q > 0.5 {
      assert x - 0.5 * p == (q - 0.5) * p;
      assert (q - 0.5) * p > 0.0;
    } else if q < -0.5 {
      assert -0.5 * p - x == (-0.5 - q) * p;
      assert (-0.5 - q) * p > 0.0;
    } else {
      MulMonotone(q, 0.5, p);
      MulMonotone(-0.5, q, p);
    }
  }

  /** The pitch `draw_path` lays the pattern with: the nearest whole number
      of cycles (ties to even) is fitted to the total length. It exists
      exactly when that number is not zero, that is when the path is longer
      than half a cycle either way; it is then positive, and the number of
      cycles times it is the total length. */
  function AdjustPitch(total: real, basePitch: real): (r: Result<real, DrawError>)
    requires basePitch > 0.0
    ensures r.Err? <==> 2.0 * Abs(total) <= basePitch
    ensures r.Err? ==> r.error == ZeroCycles
    ensures r.Ok? ==> var cycles := RoundHalfEven(total / basePitch);
      && r.value > 0.0
      && 2.0 * r.value >= basePitch
      && cycles as real * r.value == total
      && 2.0 * Abs(total - cycles as real * basePitch) <= basePitch
  {
    var cycles := RoundHalfEven(total / basePitch);
    DivBounds(total, basePitch);
    RoundsToZero(total / basePitch);
    if cycles == 0 then Err(ZeroCycles)
    else
      var adjusted := total / cycles as real;
      CyclesFit(total, basePitch, cycles);
      Ok(adjusted)
  }

  lemma CyclesFit(total: real, basePitch: real, cycles: int)
    requires basePitch > 0.0 && cycles != 0
    requires -0.5 <= cycles as real - total / basePitch <= 0.5
    ensures total / cycles as real > 0.0
    ensures 2.0 * (total / cycles as real) >= basePitch
    ensures cycles as real * (total / cycles as real) == total
    ensures 2.0 * Abs(total - cycles as real * basePitch) <= basePitch
  {
    var x := total / basePitch;
    DivMulCancel(total, basePitch);
    var c := cycles as real;
    CyclesSign(total, basePitch, x, c);
    CyclesError(total, basePitch, x, c);
  }

  /** Half a cycle or more of the base pitch either way gives a cycle count
      of the same sign as the total, so the adjusted pitch is positive; and
      since the count is at most half a cycle off, the adjusted pitch is at
      least half the base pitch. */
  lemma CyclesSign(total: real, basePitch: real, x: real, c: real)
    requires basePitch > 0.0 && c != 0.0 && total == x * basePitch
    requires -0.5 <= c - x <= 0.5
    requires c.Floor as real == c
    ensures total / c > 0.0 && c * (total / c) == total
    ensures 2.0 * (total / c) >= basePitch
  {
    var q := total / c;
    assert q * c == total;
    if c > 0.0 {
      assert c >= 1.0;
      MulMonotone(0.5, x, basePitch);
      if q <= 0.0 {
        MulMonotone(q, 0.0, c);
      }
      HalfPitch(total, basePitch, x, c);
    } else {
      assert c <= -1.0;
      MulMonotone(x, -0.5, basePitch);
      if q <= 0.0 {
        assert q * -c == -total;
        MulMonotone(q, 0.0, -c);
      }
      HalfPitch(-total, basePitch, -x, -c);
      assert -total / -c == q;
    }
  }

  /** The quotient of `x` base pitches by `c`, when `x` is at least half of
      `c`, is at least half the base pitch. */
  lemma HalfPitch(total: real, basePitch: real, x: real, c: real)
    requires basePitch > 0.0 && c > 0.0 && total == x * basePitch
    requires 2.0 * x >= c
    ensures 2.0 * (total / c) >= basePitch
  {
    var q := total / c;
    assert q * c == total;
    assert (2.0 * q - basePitch) * c == (2.0 * x - c) * basePitch;
    MulMonotone(0.0, 2.0 * x - c, basePitch);
    if 2.0 * q - basePitch < 0.0 {
      MulMonotone(2.0 * q - basePitch, 0.0, c);
    }
  }

  /** The whole cycles of the base pitch are within half a cycle of the total. */
  lemma CyclesError(total: real, basePitch: real, x: real, c: real)
    requires basePitch > 0.0 && total == x * basePitch
    requires -0.5 <= c - x <= 0.5
    ensures 2.0 * Abs(total - c * basePitch) <= basePitch
  {
    var d := x - c;
    var e := d * basePitch;
    assert total - c * basePitch == e;
    if d >= 0.0 {
      MulMonotone(0.0, d, basePitch);
      MulMonotone(d, 0.5, basePitch);
      assert 0.0 <= e <= 0.5 * basePitch;
    } else {
      var g := c - x;
      assert c * basePitch - total == g * basePitch;
      MulMonotone(0.0, g, basePitch);
      MulMonotone(g, 0.5, basePitch);
    }
  }

  /** One iteration of the loop over the path in `draw_path`: a Start moves
      the builder without resetting the cycle position; straights and curves
      are laid down with the adjusted pitch. */
  function DrawElement(s: BuilderState, el: PathElement, pitch: real, basePitch: real, pattern: seq<PatternElement>): (r: BuilderState)
    requires pitch > 0.0 && 0.0 <= s.cyclePos < 1.0
    ensures 0.0 <= r.cyclePos < 1.0
    ensures |s.emitted| <= |r.emitted| && r.emitted[..|s.emitted|] == s.emitted
    ensures el.Start? ==> r == s.(pos := Placed(el.location), theta := el.theta)
  {
    match el
    case Start(location, theta) => s.(pos := Placed(location), theta := theta)
    case Straight(length) => LayTrack(s, StraightTrack(length), pitch, basePitch, pattern)
    case Curve(angle, radius) => LayTrack(s, CurveTrack(radius, angle), pitch, basePitch, pattern)
  }

  /** The loop over the path in `draw_path`, element by element. */
  function DrawElements(s: BuilderState, path: seq<PathElement>, pitch: real, basePitch: real, pattern: seq<PatternElement>): (r: BuilderState)
    requires pitch > 0.0 && 0.0 <= s.cyclePos < 1.0
    ensures 0.0 <= r.cyclePos < 1.0
    ensures |s.emitted| <= |r.emitted| && r.emitted[..|s.emitted|] == s.emitted
  {
    if path == [] then s
    else
      var p := DrawElements(s, path[..|path| - 1], pitch, basePitch, pattern);
      var r := DrawElement(p, path[|path| - 1], pitch, basePitch, pattern);
      assert r.emitted[..|s.emitted|] == r.emitted[..|p.emitted|][..|s.emitted|];
      r
  }

  lemma DrawElementsSnoc(s: BuilderState, path: seq<PathElement>, i: nat, pitch: real, basePitch: real, pattern: seq<PatternElement>)
    requires pitch > 0.0 && 0.0 <= s.cyclePos < 1.0 && i < |path|
    ensures DrawElements(s, path[..i + 1], pitch, basePitch, pattern)
              == DrawElement(DrawElements(s, path[..i], pitch, basePitch, pattern), path[i], pitch, basePitch, pattern)
  {
    assert path[..i + 1][..i] == path[..i];
  }

  /** A path of Start elements only moves the builder to the last of them. */
  lemma {:induction false} StartsOnlyMove(s: BuilderState, path: seq<PathElement>, pitch: real, basePitch: real, pattern: seq<PatternElement>)
    requires pitch > 0.0 && 0.0 <= s.cyclePos < 1.0
    requires path != [] && forall i :: 0 <= i < |path| ==> path[i].Start?
    ensures var last := path[|path| - 1];
      DrawElements(s, path, pitch, basePitch, pattern) == s.(pos := Placed(last.location), theta := last.theta)
  {
    var n := |path| - 1;
    if n > 0 {
      StartsOnlyMove(s, path[..n], pitch, basePitch, pattern);
    }
  }

  /** `draw_straight` after k of its cycles: each emits the whole pattern
      in the frame in force and moves forward by the builder's pitch. */
  function StraightCycles(s: BuilderState, k: nat, basePitch: real, pattern: seq<PatternElement>): (r: BuilderState)
    ensures r.theta == s.theta && r.cyclePos == s.cyclePos
    ensures |r.emitted| == |s.emitted| + k * |pattern| && r.emitted[..|s.emitted|] == s.emitted
  {
    if k == 0 then s
    else
      var p := StraightCycles(s, k - 1, basePitch, pattern);
      var frame := Frame(p.pos, p.theta, Flat);
      CycleEmissionsExact(pattern, basePitch, frame);
      MulStep(k, |pattern|);
      PrefixExtends(s.emitted, p.emitted, CycleEmissions(pattern, basePitch, frame));
      BuilderState(Moved(p.pos, basePitch, p.theta, Flat), p.theta, p.cyclePos,
                   p.emitted + CycleEmissions(pattern, basePitch, frame))
  }

  lemma MulStep(k: nat, m: nat)
    requires k > 0
    ensures (k - 1) * m + m == k * m
  {
  }

  /** Appending keeps a prefix. */
  lemma PrefixExtends(a: seq<Emission>, b: seq<Emission>, c: seq<Emission>)
    requires |a| <= |b| && b[..|a|] == a
    ensures (b + c)[..|a|] == a
  {
    assert (b + c)[..|a|] == b[..|a|];
  }

  /** A pattern element lies inside one cycle. */
  ghost predicate InCycle(el: PatternElement)
  {
    match el
    case ParallelLine(start, end, _, _, _) => 0.0 <= start <= end <= 1.0
    case TransverseLine(_, _, offset, _, _) => 0.0 <= offset <= 1.0
    case Via(distance, _, _, _) => 0.0 <= distance <= 1.0
  }

  lemma {:induction false} WholePieceIsPattern(pattern: seq<PatternElement>, basePitch: real, frame: Frame)
    requires basePitch > 0.0 && frame.bend.Flat?
    requires forall i :: 0 <= i < |pattern| ==> InCycle(pattern[i])
    ensures PieceEmissions(pattern, 0.0, 1.0, basePitch, basePitch, frame) == CycleEmissions(pattern, basePitch, frame)
  {
    if pattern != [] {
      var n := |pattern| - 1;
      WholePieceIsPattern(pattern[..n], basePitch, frame);
      assert InCycle(pattern[n]);
      WholePieceIsCycle(pattern[n], basePitch, frame);
    }
  }

  /** From the start of a cycle, laying a straight one pitch long with the
      builder's own pitch does what one cycle of `draw_straight` does, for a
      pattern that lies inside the cycle. */
  lemma OneCycleMatchesLaydown(s: BuilderState, basePitch: real, pattern: seq<PatternElement>)
    requires basePitch > Eps && s.cyclePos == 0.0
    requires forall i :: 0 <= i < |pattern| ==> InCycle(pattern[i])
    ensures LayTrack(s, StraightTrack(basePitch), basePitch, basePitch, pattern) == StraightCycles(s, 1, basePitch, pattern)
  {
    var piece := Piece(0.0, 1.0);
    var t := StraightTrack(basePitch);
    LayOneCycle(basePitch);
    var c := Cursor(s.pos, s.theta);
    var w := Walk(c, t, [piece], basePitch, basePitch, pattern);
    WalkSnoc(c, t, [], piece, basePitch, basePitch, pattern);
    assert [] + [piece] == [piece];
    var frame := Frame(s.pos, s.theta, Flat);
    WholePieceIsPattern(pattern, basePitch, frame);
    assert w == Trace(Cursor(Moved(s.pos, basePitch, s.theta, Flat), s.theta), CycleEmissions(pattern, basePitch, frame));
    assert LayTrack(s, t, basePitch, basePitch, pattern) == BuilderState(w.cursor.pos, w.cursor.theta, 0.0, s.emitted + w.emitted);
  }

  /** A straight one pitch long, from the start of a cycle, is one whole
      cycle. */
  lemma LayOneCycle(pitch: real)
    requires pitch > Eps
    ensures Lay(0.0, pitch, pitch) == Run([Piece(0.0, 1.0)], 0.0, 0.0)
  {
    var piece := Piece(0.0, 1.0);
    assert pitch / pitch == 1.0;
    assert NextPiece(0.0, pitch, pitch) == Step(piece, 0.0);
    assert Added(piece, pitch) == pitch;
    assert Lay(0.0, 0.0, pitch) == Run([], 0.0, 0.0);
  }

  /** The plan `draw_arc` makes: the number of whole cycles and the radius
      that fits them. */
  datatype ArcPlan = ArcPlan(cycles: int, radius: real)

  /** How many cycles of the pitch a length holds, as a real. */
  function CyclesIn(length: real, pitch: real): real
    requires pitch > 0.0
  {
    length / pitch
  }

  /** `draw_arc` refuses an angle beyond a full turn either way; otherwise it
      takes the whole number of cycles nearest to the arc length (ties to
      even) and adjusts the radius so that those cycles fill the arc exactly.
      For an angle of zero there are no cycles and the radius is unused. The
      adjusted radius lays the arc within half a cycle of the length asked
      for, and so differs from the radius asked for by at most half a pitch
      over the angle. */
  function PlanArc(radius: real, angle: real, basePitch: real): (r: Result<ArcPlan, DrawError>)
    requires basePitch > 0.0
    ensures r.Err? <==> Abs(angle) > 2.0 * Pi
    ensures r.Err? ==> r.error == AngleOutOfRange
    ensures r.Ok? ==>
      && -0.5 <= r.value.cycles as real - CyclesIn(Distance(CurveTrack(radius, angle)), basePitch) <= 0.5
      && (angle == 0.0 ==> r.value.cycles == 0)
      && (angle != 0.0 ==> r.value.radius * Abs(angle) == r.value.cycles as real * basePitch)
      && (angle != 0.0 ==> 2.0 * Abs(r.value.radius - radius) * Abs(angle) <= basePitch)
  {
    if Abs(angle) > 2.0 * Pi then Err(AngleOutOfRange)
    else
      var n := RoundHalfEven(CyclesIn(Distance(CurveTrack(radius, angle)), basePitch));
      if angle == 0.0 then
        RoundsToZero(CyclesIn(Distance(CurveTrack(radius, angle)), basePitch));
        Ok(ArcPlan(n, 0.0))
      else
        RadiusBound(radius, angle, basePitch, n as real);
        Ok(ArcPlan(n, FittedRadius(n as real, angle, basePitch)))
  }

  /** The radius on which c cycles of the pitch fill an arc of the angle. */
  function FittedRadius(c: real, angle: real, basePitch: real): real
    requires angle != 0.0
  {
    basePitch * c / Abs(angle)
  }

  /** Cycles within half a cycle of the arc length over the pitch, fitted to
      the arc, give a radius within half a pitch over the angle of the one
      asked for. */
  lemma RadiusBound(radius: real, angle: real, basePitch: real, c: real)
    requires basePitch > 0.0 && angle != 0.0
    requires -0.5 <= c - CyclesIn(Distance(CurveTrack(radius, angle)), basePitch) <= 0.5
    ensures FittedRadius(c, angle, basePitch) * Abs(angle) == c * basePitch
    ensures 2.0 * Abs(FittedRadius(c, angle, basePitch) - radius) * Abs(angle) <= basePitch
  {
    var a := Abs(angle);
    var fitted := FittedRadius(c, angle, basePitch);
    DivMulCancel(basePitch * c, a);
    var len := radius * a;
    assert Distance(CurveTrack(radius, angle)) == len;
    var x := CyclesIn(len, basePitch);
    DivMulCancel(len, basePitch);
    CyclesError(len, basePitch, x, c);
    var d := fitted - radius;
    assert len - c * basePitch == -(d * a);
    AbsScale(d, a);
  }

  lemma AbsScale(d: real, a: real)
    requires a > 0.0
    ensures Abs(d) * a == Abs(d * a) == Abs(-(d * a))
  {
    if d >= 0.0 {
      MulMonotone(0.0, d, a);
    } else {
      MulMonotone(d, 0.0, a);
      assert (-d) * a == -(d * a);
    }
  }

  /** `draw_arc` after k of its n cycles: each emits the whole pattern bent
      around the signed radius, moves one pitch along the arc and turns by
      angle / n. */
  function ArcCycles(s: BuilderState, k: nat, n: int, signedRadius: real, angle: real, basePitch: real, pattern: seq<PatternElement>): (r: BuilderState)
    requires k > 0 ==> n != 0
    ensures r.cyclePos == s.cyclePos
    ensures |r.emitted| == |s.emitted| + k * |pattern| && r.emitted[..|s.emitted|] == s.emitted
  {
    if k == 0 then s
    else
      var p := ArcCycles(s, k - 1, n, signedRadius, angle, basePitch, pattern);
      var frame := Frame(p.pos, p.theta, Bent(signedRadius));
      CycleEmissionsExact(pattern, basePitch, frame);
      MulStep(k, |pattern|);
      PrefixExtends(s.emitted, p.emitted, CycleEmissions(pattern, basePitch, frame));
      BuilderState(Moved(p.pos, basePitch, p.theta, Bent(signedRadius)), p.theta + angle / n as real, p.cyclePos,
                   p.emitted + CycleEmissions(pattern, basePitch, frame))
  }

  /** After k cycles the heading has turned by k times angle / n. */
  lemma {:induction false} ArcCyclesTurn(s: BuilderState, k: nat, n: int, signedRadius: real, angle: real, basePitch: real, pattern: seq<PatternElement>)
    requires n != 0
    ensures ArcCycles(s, k, n, signedRadius, angle, basePitch, pattern).theta == s.theta + k as real * (angle / n as real)
  {
    if k > 0 {
      var step := angle / n as real;
      var p := ArcCycles(s, k - 1, n, signedRadius, angle, basePitch, pattern);
      ArcCyclesTurn(s, k - 1, n, signedRadius, angle, basePitch, pattern);
      assert ArcCycles(s, k, n, signedRadius, angle, basePitch, pattern).theta == p.theta + step;
      RealMulStep(k, step);
    }
  }

  lemma RealMulStep(k: nat, x: real)
    requires k > 0
    ensures (k - 1) as real * x + x == k as real * x
  {
  }

  /** All n cycles of `draw_arc` turn the heading by exactly the angle. */
  lemma ArcTurnsByAngle(s: BuilderState, n: nat, signedRadius: real, angle: real, basePitch: real, pattern: seq<PatternElement>)
    requires n > 0
    ensures ArcCycles(s, n, n, signedRadius, angle, basePitch, pattern).theta == s.theta + angle
  {
    ArcCyclesTurn(s, n, n, signedRadius, angle, basePitch, pattern);
    assert n as real * (angle / n as real) == angle;
  }

  /** One iteration of the laydown loop keeps the loop's account of the
      pieces still to come. */
  lemma LayStep(cyclePos: real, remaining: real, pitch: real, done: seq<Piece>, run: Run)
    requires pitch > 0.0 && 0.0 <= cyclePos < 1.0 && remaining > Eps
    requires done + Lay(cyclePos, remaining, pitch).pieces == run.pieces
    requires Lay(cyclePos, remaining, pitch).cyclePos == run.cyclePos
    ensures var st := NextPiece(cyclePos, remaining, pitch);
      var rest := remaining - Added(st.piece, pitch);
      && 0.0 <= st.cyclePos < 1.0
      && (done + [st.piece]) + Lay(st.cyclePos, rest, pitch).pieces == run.pieces
      && Lay(st.cyclePos, rest, pitch).cyclePos == run.cyclePos
      && 0 <= Measure(st.cyclePos, rest, pitch) < Measure(cyclePos, remaining, pitch)
  {
    var st := NextPiece(cyclePos, remaining, pitch);
    StepDecreases(cyclePos, remaining, pitch);
    var rest := remaining - Added(st.piece, pitch);
    assert Lay(cyclePos, remaining, pitch).pieces == [st.piece] + Lay(st.cyclePos, rest, pitch).pieces;
    assert (done + [st.piece]) + Lay(st.cyclePos, rest, pitch).pieces == done + ([st.piece] + Lay(st.cyclePos, rest, pitch).pieces);
  }

  /** What the laydown loop leaves once it stops. */
  lemma LayTrackEnd(s: BuilderState, t: Track, pitch: real, basePitch: real, pattern: seq<PatternElement>,
                    cyclePos: real, remaining: real, done: seq<Piece>)
    requires pitch > 0.0 && 0.0 <= s.cyclePos < 1.0 && 0.0 <= cyclePos < 1.0 && remaining <= Eps
    requires t.CurveTrack? && done != [] ==> t.radius != 0.0
    requires var run := Lay(s.cyclePos, Distance(t), pitch);
      done + Lay(cyclePos, remaining, pitch).pieces == run.pieces && Lay(cyclePos, remaining, pitch).cyclePos == run.cyclePos
    ensures var w := Walk(Cursor(s.pos, s.theta), t, done, pitch, basePitch, pattern);
      LayTrack(s, t, pitch, basePitch, pattern) == BuilderState(w.cursor.pos, w.cursor.theta, cyclePos, s.emitted + w.emitted)
  {
    assert Lay(cyclePos, remaining, pitch) == Run([], cyclePos, remaining);
    assert done == Lay(s.cyclePos, Distance(t), pitch).pieces;
  }

  /** The lengths of the path's elements, in order. */
  function Lengths(path: seq<PathElement>): (ds: seq<real>)
    ensures |ds| == |path| && forall i :: 0 <= i < |path| ==> ds[i] == path[i].Length()
  {
    seq(|path|, i requires 0 <= i < |path| => path[i].Length())
  }

  /** The total length is the sum of the element lengths. */
  lemma {:induction false} TotalIsSum(path: seq<PathElement>)
    ensures TotalLength(path) == Sum(Lengths(path))
  {
    if path != [] {
      var n := |path| - 1;
      TotalIsSum(path[..n]);
      assert Lengths(path)[..n] == Lengths(path[..n]);
    }
  }

  /** `draw_path` promises that all patterns are completed. For a path of one
      straight or curve (after an optional Start), drawn from the start of a
      cycle, this holds: the element is laid as whole cycles of the adjusted
      pitch, as many as the rounded cycle count, and the builder ends on a
      cycle boundary. */
  lemma SingleElementCompletes(s: BuilderState, path: seq<PathElement>, el: PathElement,
                               basePitch: real, pattern: seq<PatternElement>)
    requires basePitch > 2.0 * Eps && s.cyclePos == 0.0 && !el.Start?
    requires path == [el] || (|path| == 2 && path[0].Start? && path[1] == el)
    requires AdjustPitch(TotalLength(path), basePitch).Ok?
    ensures var pitch := AdjustPitch(TotalLength(path), basePitch).value;
      var n := RoundHalfEven(TotalLength(path) / basePitch);
      && DrawElements(s, path, pitch, basePitch, pattern).cyclePos == 0.0
      && (el.Length() > 0.0 ==>
            n > 0 && Lay(0.0, el.Length(), pitch) == Run(seq(n, _ => Piece(0.0, 1.0)), 0.0, 0.0))
  {
    var total := TotalLength(path);
    var pitch := AdjustPitch(total, basePitch).value;
    var n := RoundHalfEven(total / basePitch);
    OneElementLaid(s, path, el, pitch, basePitch, pattern);
    AdjustedPitchFits(total, basePitch, pitch);
    if total > 0.0 {
      LaysWholeCycles(total, n, pitch);
    } else {
      assert Lay(0.0, total, pitch) == Run([], 0.0, total);
    }
  }

  /** The adjusted pitch is more than the laydown tolerance and fits the
      rounded cycle count into the total exactly. */
  lemma AdjustedPitchFits(total: real, basePitch: real, pitch: real)
    requires basePitch > 0.0 && AdjustPitch(total, basePitch) == Ok(pitch)
    ensures pitch > 0.0 && (basePitch > 2.0 * Eps ==> pitch > Eps)
    ensures Along(RoundHalfEven(total / basePitch) as real, pitch) == total
  {
  }

  /** A positive distance of a whole number of pitches, laid from the start
      of a cycle, is that many whole cycles. */
  lemma LaysWholeCycles(total: real, n: int, pitch: real)
    requires pitch > Eps && total > 0.0 && Along(n as real, pitch) == total
    ensures n > 0 && Lay(0.0, total, pitch) == Run(seq(n, _ => Piece(0.0, 1.0)), 0.0, 0.0)
  {
    if n <= 0 {
      MulMonotone(n as real, 0.0, pitch);
    }
    WholeCycles(n, pitch);
  }

  /** A path of one straight or curve, after an optional Start, is as long
      as that element and leaves the cycle position its laydown leaves. */
  lemma OneElementLaid(s: BuilderState, path: seq<PathElement>, el: PathElement,
                       pitch: real, basePitch: real, pattern: seq<PatternElement>)
    requires pitch > 0.0 && 0.0 <= s.cyclePos < 1.0 && !el.Start?
    requires path == [el] || (|path| == 2 && path[0].Start? && path[1] == el)
    ensures TotalLength(path) == el.Length()
    ensures DrawElements(s, path, pitch, basePitch, pattern).cyclePos
              == Lay(s.cyclePos, el.Length(), pitch).cyclePos
  {
    var m := |path| - 1;
    assert path[..m + 1] == path;
    var t := if el.Straight? then StraightTrack(el.length) else CurveTrack(el.radius, el.angle);
    assert Distance(t) == el.Length();
    if m == 0 {
      assert path[..m] == [];
    } else {
      assert path[..m] == [path[0]] && [path[0]][..0] == [];
      StartsOnlyMove(s, path[..m], pitch, basePitch, pattern);
    }
    assert DrawElements(s, path, pitch, basePitch, pattern)
             == LayTrack(DrawElements(s, path[..m], pitch, basePitch, pattern), t, pitch, basePitch, pattern);
  }

  /** The path behind the drift found in `draw_path`: a straight at a quarter
      cycle, another, and one of half a cycle. */
  function QuarterQuarterHalf(): seq<PathElement>
  {
    [Straight(25.0), Straight(25.0), Straight(50.0)]
  }

  /** As written, the 1e-14 gap each piece ending inside a cycle adds to the
      carried position accumulates: the path above is exactly one cycle of
      pitch 100, yet the third straight stops 2e-14 short of its cycle's end,
      lays the 2e-12 left over as a sliver of a new cycle and leaves the
      builder 3e-14 into that cycle. Laid with the carried position kept
      exact, the same path finishes one cycle and ends on its boundary. */
  lemma NudgesLeaveCycleOpen(s: BuilderState, pattern: seq<PatternElement>)
    requires s.cyclePos == 0.0
    ensures AdjustPitch(TotalLength(QuarterQuarterHalf()), 100.0) == Ok(100.0)
    ensures Lay(0.0, 25.0, 100.0) == Run([Piece(0.0, 0.25)], 0.25 + Nudge, 0.0)
    ensures Lay(0.25 + Nudge, 25.0, 100.0) == Run([Piece(0.25 + Nudge, 0.5 + Nudge)], 0.5 + 2.0 * Nudge, 0.0)
    ensures Lay(0.5 + 2.0 * Nudge, 50.0, 100.0)
              == Run([Piece(0.5 + 2.0 * Nudge, 1.0), Piece(0.0, 2.0 * Nudge)], 3.0 * Nudge, 0.0)
    ensures DrawElements(s, QuarterQuarterHalf(), 100.0, 100.0, pattern).cyclePos == 3.0 * Nudge
    ensures LayAllFixed(0.0, Lengths(QuarterQuarterHalf()), 100.0) == Progress(0.0, 1, true)
  {
    QuarterQuarterHalfPitch();
    DriftQuarter();
    DriftSecondQuarter();
    DriftHalf();
    DriftDrawn(s, pattern);
    FixedQuarterQuarterHalf();
  }

  /** The path is one cycle of pitch 100 long, so the pitch is kept. */
  lemma QuarterQuarterHalfPitch()
    ensures AdjustPitch(TotalLength(QuarterQuarterHalf()), 100.0) == Ok(100.0)
  {
    var path := QuarterQuarterHalf();
    assert path[..1] == [Straight(25.0)] && path[..2] == [Straight(25.0), Straight(25.0)];
    assert path[..2][..1] == path[..1] && path[..1][..0] == [];
    assert TotalLength(path[..1]) == 25.0;
    assert TotalLength(path[..2]) == 50.0;
    assert TotalLength(path) == 100.0;
    RoundHalfEvenUnique(1.0, 1);
  }

  /** The carried positions the builder goes through on the path. */
  lemma DriftDrawn(s: BuilderState, pattern: seq<PatternElement>)
    requires s.cyclePos == 0.0
    requires Lay(0.0, 25.0, 100.0).cyclePos == 0.25 + Nudge
    requires Lay(0.25 + Nudge, 25.0, 100.0).cyclePos == 0.5 + 2.0 * Nudge
    requires Lay(0.5 + 2.0 * Nudge, 50.0, 100.0).cyclePos == 3.0 * Nudge
    ensures DrawElements(s, QuarterQuarterHalf(), 100.0, 100.0, pattern).cyclePos == 3.0 * Nudge
  {
    var path := QuarterQuarterHalf();
    assert path[..1] == [Straight(25.0)] && path[..2] == [Straight(25.0), Straight(25.0)];
    assert path[..2][..1] == path[..1] && path[..1][..0] == [] && path[..3] == path;
    assert DrawElements(s, path[..1], 100.0, 100.0, pattern).cyclePos == 0.25 + Nudge;
    assert DrawElements(s, path[..2], 100.0, 100.0, pattern).cyclePos == 0.5 + 2.0 * Nudge;
  }

  lemma DriftQuarter()
    ensures Lay(0.0, 25.0, 100.0) == Run([Piece(0.0, 0.25)], 0.25 + Nudge, 0.0)
  {
    assert NextPiece(0.0, 25.0, 100.0) == Step(Piece(0.0, 0.25), 0.25 + Nudge);
    assert Lay(0.25 + Nudge, 0.0, 100.0) == Run([], 0.25 + Nudge, 0.0);
  }

  lemma DriftSecondQuarter()
    ensures Lay(0.25 + Nudge, 25.0, 100.0) == Run([Piece(0.25 + Nudge, 0.5 + Nudge)], 0.5 + 2.0 * Nudge, 0.0)
  {
    assert NextPiece(0.25 + Nudge, 25.0, 100.0) == Step(Piece(0.25 + Nudge, 0.5 + Nudge), 0.5 + 2.0 * Nudge);
    assert Lay(0.5 + 2.0 * Nudge, 0.0, 100.0) == Run([], 0.5 + 2.0 * Nudge, 0.0);
  }

  lemma DriftHalf()
    ensures Lay(0.5 + 2.0 * Nudge, 50.0, 100.0)
              == Run([Piece(0.5 + 2.0 * Nudge, 1.0), Piece(0.0, 2.0 * Nudge)], 3.0 * Nudge, 0.0)
  {
    assert NextPiece(0.5 + 2.0 * Nudge, 50.0, 100.0) == Step(Piece(0.5 + 2.0 * Nudge, 1.0), 0.0);
    assert 50.0 - Added(Piece(0.5 + 2.0 * Nudge, 1.0), 100.0) == 200.0 * Nudge;
    assert NextPiece(0.0, 200.0 * Nudge, 100.0) == Step(Piece(0.0, 2.0 * Nudge), 3.0 * Nudge);
    assert Lay(3.0 * Nudge, 0.0, 100.0) == Run([], 3.0 * Nudge, 0.0);
    assert Lay(0.0, 200.0 * Nudge, 100.0) == Run([Piece(0.0, 2.0 * Nudge)], 3.0 * Nudge, 0.0);
  }

  /** The same path laid with the carried position kept exact. */
  lemma FixedQuarterQuarterHalf()
    ensures LayAllFixed(0.0, Lengths(QuarterQuarterHalf()), 100.0) == Progress(0.0, 1, true)
  {
    assert Lengths(QuarterQuarterHalf()) == [25.0, 25.0, 50.0] by {
      var ds := Lengths(QuarterQuarterHalf());
      assert ds[0] == 25.0 && ds[1] == 25.0 && ds[2] == 50.0;
    }
    FixedThreeLengths();
  }

  lemma FixedThreeLengths()
    ensures LayAllFixed(0.0, [25.0, 25.0, 50.0], 100.0) == Progress(0.0, 1, true)
  {
    FixedTwoQuarters();
    FixedHalf();
    assert [25.0, 25.0, 50.0][..2] == [25.0, 25.0];
    assert Full([Piece(0.5, 1.0)]) == 1;
  }

  lemma FixedTwoQuarters()
    ensures LayAllFixed(0.0, [25.0, 25.0], 100.0) == Progress(0.5, 0, true)
  {
    FixedQuarter();
    FixedSecondQuarter();
    assert [25.0, 25.0][..1] == [25.0] && [25.0][..0] == [];
    assert LayAllFixed(0.0, [25.0], 100.0) == Progress(0.25, 0, true);
  }

  lemma FixedQuarter()
    ensures LayFixed(0.0, 25.0, 100.0) == Run([Piece(0.0, 0.25)], 0.25, 0.0)
  {
    assert LayFixed(0.25, 0.0, 100.0) == Run([], 0.25, 0.0);
  }

  lemma FixedSecondQuarter()
    ensures LayFixed(0.25, 25.0, 100.0) == Run([Piece(0.25, 0.5)], 0.5, 0.0)
  {
    assert LayFixed(0.5, 0.0, 100.0) == Run([], 0.5, 0.0);
  }

  lemma FixedHalf()
    ensures LayFixed(0.5, 50.0, 100.0) == Run([Piece(0.5, 1.0)], 0.0, 0.0)
  {
    assert LayFixed(0.0, 0.0, 100.0) == Run([], 0.0, 0.0);
  }

  /** With the carried position kept exact, every path keeps the promise
      that all patterns are completed: laid element by element from the
      start of a cycle with the adjusted pitch, and with nothing left under
      the tolerance, the path finishes exactly the rounded number of cycles
      and ends on a cycle boundary. */
  lemma FixedPathCompletes(path: seq<PathElement>, basePitch: real, pitch: real)
    requires basePitch > 0.0 && AdjustPitch(TotalLength(path), basePitch) == Ok(pitch)
    requires LayAllFixed(0.0, Lengths(path), pitch).exact
    ensures LayAllFixed(0.0, Lengths(path), pitch).cyclePos == 0.0
    ensures LayAllFixed(0.0, Lengths(path), pitch).full == RoundHalfEven(TotalLength(path) / basePitch)
  {
    TotalIsSum(path);
    AdjustedPitchFits(TotalLength(path), basePitch, pitch);
    FixedCompletesCycles(Lengths(path), pitch, RoundHalfEven(TotalLength(path) / basePitch));
  }

  /** The builder. `pitch` and `pattern` are never reassigned; the emitted
      records stand for the calls of `emit_line`, `emit_arc` and `emit_via`
      made so far. */
  class TrackBuilder {
    const pitch: real
    const pattern: seq<PatternElement>
    var pos: Pos
    var theta: real
    var cyclePos: real
    var emitted: seq<Emission>

    /** The pitch is positive and the cycle position lies in [0, 1). */
    ghost predicate Valid()
      reads this
    {
      pitch > 0.0 && 0.0 <= cyclePos < 1.0
    }

    function State(): BuilderState
      reads this
    {
      BuilderState(pos, theta, cyclePos, emitted)
    }

    constructor (pitch: real, pattern: seq<PatternElement>)
      requires pitch > 0.0
      ensures Valid()
      ensures this.pitch == pitch && this.pattern == pattern
      ensures State() == BuilderState(Placed(Point(0.0, 0.0)), 0.0, 0.0, [])
    {
      this.pitch := pitch;
      this.pattern := pattern;
      pos := Placed(Point(0.0, 0.0));
      theta := 0.0;
      cyclePos := 0.0;
      emitted := [];
    }

    method SetLocation(p: Point, theta: real)
      modifies this
      ensures State() == old(State()).(pos := Placed(p), theta := theta)
    {
      pos := Placed(p);
      this.theta := theta;
    }

    /** `__laydown_straight_cycle`: what the pattern emits in one piece of a
        straight. */
    method LaydownStraightCycle(segStart: real, segEnd: real, pitch: real)
      modifies this
      ensures State() == old(State()).(emitted := old(emitted) + PieceEmissions(pattern, segStart, segEnd, pitch, this.pitch, Frame(pos, theta, Flat)))
    {
      var frame := Frame(pos, theta, Flat);
      var i := 0;
      while i < |pattern|
        invariant 0 <= i <= |pattern|
        invariant pos == old(pos) && theta == old(theta) && cyclePos == old(cyclePos)
        invariant emitted == old(emitted) + PieceEmissions(pattern[..i], segStart, segEnd, pitch, this.pitch, frame)
      {
        PieceEmissionsSnoc(pattern, i, segStart, segEnd, pitch, this.pitch, frame);
        emitted := emitted + Clip(pattern[i], segStart, segEnd, pitch, this.pitch, frame);
        i := i + 1;
      }
      assert pattern[..i] == pattern;
    }

    /** `__laydown_curve_cycle`: what the pattern emits in one piece of a
        curve. */
    method LaydownCurveCycle(segStart: real, segEnd: real, pitch: real, radius: real, angle: real)
      modifies this
      ensures State() == old(State()).(emitted := old(emitted)
                + PieceEmissions(pattern, segStart, segEnd, pitch, this.pitch, Frame(pos, theta, BendOf(CurveTrack(radius, angle)))))
    {
      var frame := Frame(pos, theta, BendOf(CurveTrack(radius, angle)));
      var i := 0;
      while i < |pattern|
        invariant 0 <= i <= |pattern|
        invariant pos == old(pos) && theta == old(theta) && cyclePos == old(cyclePos)
        invariant emitted == old(emitted) + PieceEmissions(pattern[..i], segStart, segEnd, pitch, this.pitch, frame)
      {
        PieceEmissionsSnoc(pattern, i, segStart, segEnd, pitch, this.pitch, frame);
        emitted := emitted + Clip(pattern[i], segStart, segEnd, pitch, this.pitch, frame);
        i := i + 1;
      }
      assert pattern[..i] == pattern;
    }

    /** `__laydown_straight_distance`. */
    method LaydownStraightDistance(distance: real, pitch: real)
      requires Valid() && pitch > 0.0
      modifies this
      ensures Valid()
      ensures State() == LayTrack(old(State()), StraightTrack(distance), pitch, this.pitch, pattern)
    {
      ghost var s0 := State();
      ghost var t := StraightTrack(distance);
      ghost var c0 := Cursor(pos, theta);
      ghost var run := Lay(cyclePos, distance, pitch);
      ghost var done: seq<Piece> := [];
      var distanceRemaining := distance;
      while distanceRemaining > Eps
        invariant 0.0 <= cyclePos < 1.0
        invariant done + Lay(cyclePos, distanceRemaining, pitch).pieces == run.pieces
        invariant Lay(cyclePos, distanceRemaining, pitch).cyclePos == run.cyclePos
        invariant var w := Walk(c0, t, done, pitch, this.pitch, pattern);
          Cursor(pos, theta) == w.cursor && emitted == s0.emitted + w.emitted
        decreases Measure(cyclePos, distanceRemaining, pitch)
      {
        LayStep(cyclePos, distanceRemaining, pitch, done, run);
        ghost var step := NextPiece(cyclePos, distanceRemaining, pitch);
        WalkStep(c0, t, done, step.piece, pitch, this.pitch, pattern, Cursor(pos, theta), s0.emitted, emitted);
        var segStart, segEnd;
        if cyclePos > 0.0 {
          // start mid cycle
          segStart := cyclePos;
          if distanceRemaining / pitch < 1.0 - segStart - Eps {
            // end mid cycle too
            segEnd := distanceRemaining / pitch + segStart;
            cyclePos := segEnd + Nudge;
          } else {
            // room to finish the cycle
            segEnd := 1.0;
            cyclePos := 0.0;
          }
        } else {
          segStart := 0.0;
          if distanceRemaining / pitch < 1.0 - Eps {
            // end mid cycle
            segEnd := distanceRemaining / pitch;
            cyclePos := segEnd + Nudge;
          } else {
            // room to finish the cycle
            segEnd := 1.0;
            cyclePos := 0.0;
          }
        }
        assert Piece(segStart, segEnd) == step.piece && cyclePos == step.cyclePos;
        LaydownStraightCycle(segStart, segEnd, pitch);
        var distanceAdded := Added(Piece(segStart, segEnd), pitch);
        pos := Moved(pos, distanceAdded, theta, Flat);
        distanceRemaining := distanceRemaining - distanceAdded;
        done := done + [Piece(segStart, segEnd)];
      }
      LayTrackEnd(s0, t, pitch, this.pitch, pattern, cyclePos, distanceRemaining, done);
    }

    /** `__laydown_curve_distance`. */
    method LaydownCurveDistance(radius: real, angle: real, pitch: real)
      requires Valid() && pitch > 0.0
      modifies this
      ensures Valid()
      ensures State() == LayTrack(old(State()), CurveTrack(radius, angle), pitch, this.pitch, pattern)
    {
      ghost var s0 := State();
      var t := CurveTrack(radius, angle);
      ghost var c0 := Cursor(pos, theta);
      ghost var run := Lay(cyclePos, Distance(t), pitch);
      ghost var done: seq<Piece> := [];
      CurveRadiusPositive(t);
      var distanceRemaining := Distance(t);
      while distanceRemaining > Eps
        invariant 0.0 <= cyclePos < 1.0
        invariant distanceRemaining > Eps || done != [] ==> radius > 0.0
        invariant done + Lay(cyclePos, distanceRemaining, pitch).pieces == run.pieces
        invariant Lay(cyclePos, distanceRemaining, pitch).cyclePos == run.cyclePos
        invariant var w := Walk(c0, t, done, pitch, this.pitch, pattern);
          Cursor(pos, theta) == w.cursor && emitted == s0.emitted + w.emitted
        decreases Measure(cyclePos, distanceRemaining, pitch)
      {
        assert radius > 0.0;
        LayStep(cyclePos, distanceRemaining, pitch, done, run);
        ghost var step := NextPiece(cyclePos, distanceRemaining, pitch);
        WalkStep(c0, t, done, step.piece, pitch, this.pitch, pattern, Cursor(pos, theta), s0.emitted, emitted);
        var segStart, segEnd;
        if cyclePos > 0.0 {
          // start mid cycle
          segStart := cyclePos;
          if distanceRemaining / pitch < 1.0 - segStart - Eps {
            // end mid cycle too
            segEnd := distanceRemaining / pitch + segStart;
            cyclePos := segEnd + Nudge;
          } else {
            // room to finish the cycle
            segEnd := 1.0;
            cyclePos := 0.0;
          }
        } else {
          segStart := 0.0;
          if distanceRemaining / pitch < 1.0 - Eps {
            // end mid cycle
            segEnd := distanceRemaining / pitch;
            cyclePos := segEnd + Nudge;
          } else {
            // room to finish the cycle
            segEnd := 1.0;
            cyclePos := 0.0;
          }
        }
        assert Piece(segStart, segEnd) == step.piece && cyclePos == step.cyclePos;
        LaydownCurveCycle(segStart, segEnd, pitch, radius, angle);
        var distanceAdded := Added(Piece(segStart, segEnd), pitch);
        pos := Moved(pos, distanceAdded, theta, BendOf(t));
        theta := theta + Turn(t, distanceAdded);
        distanceRemaining := distanceRemaining - distanceAdded;
        done := done + [Piece(segStart, segEnd)];
      }
      LayTrackEnd(s0, t, pitch, this.pitch, pattern, cyclePos, distanceRemaining, done);
    }

    /** `draw_path`: fits a whole number of cycles to the path's total
        length, then lays each element with the adjusted pitch. When that
        number is zero nothing is drawn. */
    method DrawPath(path: seq<PathElement>) returns (r: Result<real, DrawError>)
      requires Valid()
      modifies this
      ensures Valid()
      ensures r == AdjustPitch(TotalLength(path), pitch)
      ensures r.Err? ==> State() == old(State())
      ensures r.Ok? ==> State() == DrawElements(old(State()), path, r.value, pitch, pattern)
    {
      var totalLength := TotalLength(path);
      r := AdjustPitch(totalLength, pitch);
      if r.Err? {
        return;
      }
      var adjusted := r.value;
      ghost var s0 := State();
      var i := 0;
      while i < |path|
        invariant 0 <= i <= |path|
        invariant Valid()
        invariant State() == DrawElements(s0, path[..i], adjusted, pitch, pattern)
      {
        DrawElementsSnoc(s0, path, i, adjusted, pitch, pattern);
        ghost var before := State();
        match path[i] {
          case Start(location, theta) =>
            pos := Placed(location);
            this.theta := theta;
          case Straight(length) =>
            LaydownStraightDistance(length, adjusted);
            assert State() == DrawElement(before, path[i], adjusted, pitch, pattern);
          case Curve(angle, radius) =>
            LaydownCurveDistance(radius, angle, adjusted);
            assert State() == DrawElement(before, path[i], adjusted, pitch, pattern);
        }
        i := i + 1;
      }
      assert path[..i] == path;
    }

    /** `draw_straight`: `int(cycles)` whole cycles with the builder's own
        pitch; the pitch argument is not used. */
    method DrawStraight(cycles: real, pitch: real)
      modifies this
      ensures State() == StraightCycles(old(State()), Iterations(Trunc(cycles)), this.pitch, pattern)
    {
      var nCycles := Trunc(cycles);
      ghost var s0 := State();
      var k := 0;
      while k < nCycles
        invariant 0 <= k <= Iterations(nCycles)
        invariant State() == StraightCycles(s0, k, this.pitch, pattern)
      {
        var frame := Frame(pos, theta, Flat);
        ghost var before := State();
        var i := 0;
        while i < |pattern|
          invariant 0 <= i <= |pattern|
          invariant State() == before.(emitted := before.emitted + CycleEmissions(pattern[..i], this.pitch, frame))
        {
          emitted := emitted + [Place(pattern[i], this.pitch, frame)];
          assert pattern[..i + 1][..i] == pattern[..i];
          i := i + 1;
        }
        assert pattern[..i] == pattern;
        pos := Moved(pos, this.pitch, theta, Flat);
        k := k + 1;
      }
    }

    /** `draw_arc`: refuses an angle beyond a full turn; otherwise draws the
        planned number of whole cycles around the adjusted radius, turning by
        angle / n per cycle. */
    method DrawArc(radius: real, angle: real) returns (r: Result<ArcPlan, DrawError>)
      requires pitch > 0.0
      modifies this
      ensures r == PlanArc(radius, angle, pitch)
      ensures r.Err? ==> State() == old(State())
      ensures r.Ok? ==> State() == ArcCycles(old(State()), Iterations(r.value.cycles), r.value.cycles,
                                             r.value.radius * Sign(angle), angle, pitch, pattern)
    {
      r := PlanArc(radius, angle, pitch);
      if r.Err? {
        return;
      }
      var nCycles := r.value.cycles;
      var bend := Bent(r.value.radius * Sign(angle));
      ghost var s0 := State();
      var k := 0;
      while k < nCycles
        invariant 0 <= k <= Iterations(nCycles)
        invariant State() == ArcCycles(s0, k, nCycles, r.value.radius * Sign(angle), angle, pitch, pattern)
      {
        var frame := Frame(pos, theta, bend);
        ghost var before := State();
        var i := 0;
        while i < |pattern|
          invariant 0 <= i <= |pattern|
          invariant State() == before.(emitted := before.emitted + CycleEmissions(pattern[..i], pitch, frame))
        {
          emitted := emitted + [Place(pattern[i], pitch, frame)];
          assert pattern[..i + 1][..i] == pattern[..i];
          i := i + 1;
        }
        assert pattern[..i] == pattern;
        pos := Moved(pos, pitch, theta, bend);
        theta := theta + angle / nCycles as real;
        k := k + 1;
      }
    }
  }
}
