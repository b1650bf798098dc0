/** How TrackBuilder splits the length of one path element into pieces of the
    pattern cycle (the two `while distance_remaining > 1e-12` loops of
    curvycad/builder.py). Each piece is an interval [segStart, segEnd] of one
    cycle; `cyclePos` carries a cycle cut off at the end of one path element
    into the next element. Exact real arithmetic stands for the floats. */
module Segmentation {

  /** The loop guard and the slack allowed when deciding whether a cycle fits. */
  const Eps: real := 1e-12
  /** The gap left after a piece that ends inside a cycle. */
  const Nudge: real := 1e-14

  datatype Piece = Piece(segStart: real, segEnd: real)

  /** The distance along the path that one piece occupies. */
  function Added(p: Piece, pitch: real): real
  {
    (p.segEnd - p.segStart) * pitch
  }

  /** One iteration: the piece laid and the new cycle position. */
  datatype Step = Step(piece: Piece, cyclePos: real)

  function NextPiece(cyclePos: real, remaining: real, pitch: real): Step
    requires pitch > 0.0
  {
    if cyclePos > 0.0 then
      // start mid cycle
      var segStart := cyclePos;
      if remaining / pitch < 1.0 - segStart - Eps then
        // end mid cycle too
        var segEnd := remaining / pitch + segStart;
        Step(Piece(segStart, segEnd), segEnd + Nudge)
      else
        Step(Piece(segStart, 1.0), 0.0)
    else
      if remaining / pitch < 1.0 - Eps then
        var segEnd := remaining / pitch;
        Step(Piece(0.0, segEnd), segEnd + Nudge)
      else
        Step(Piece(0.0, 1.0), 0.0)
  }

  /** A bound on the number of iterations still to come. */
  function Measure(cyclePos: real, remaining: real, pitch: real): int
    requires pitch > 0.0
  {
    if remaining <= Eps then 0
    else 2 * (remaining / pitch).Floor + (if cyclePos > 0.0 then 3 else 2)
  }

  lemma DivMulCancel(a: real, pitch: real)
    requires pitch > 0.0
    ensures (a / pitch) * pitch == a
  {
  }

  lemma DivMonotone(a: real, b: real, pitch: real)
    requires pitch > 0.0 && a <= b
    ensures a / pitch <= b / pitch
  {
    assert b / pitch - a / pitch == (b - a) / pitch;
  }

  lemma MulMonotone(a: real, b: real, pitch: real)
    requires pitch > 0.0 && a <= b
    ensures a * pitch <= b * pitch
  {
    assert b * pitch - a * pitch == (b - a) * pitch;
  }

  lemma Distribute(a: real, b: real, c: real, pitch: real)
    requires a + b == c
    ensures a * pitch + b * pitch == c * pitch
  {
  }

  lemma MulCancel(a: real, b: real, pitch: real)
    requires pitch > 0.0 && a * pitch == b * pitch
    ensures a == b
  {
    assert (a - b) * pitch == a * pitch - b * pitch;
  }

  /** Scaling by the same positive width keeps two pitches apart or equal. */
  lemma ScaleInjective(u: real, v: real, w: real, p: real, q: real)
    requires w > 0.0 && u == w * p && v == w * q
    ensures u == v <==> p == q
  {
    if u == v {
      assert p * w == q * w;
      MulCancel(p, q, w);
    }
  }

  /** A piece that ends inside the cycle lays all the remaining distance. */
  lemma EndMidCycle(remaining: real, segStart: real, pitch: real)
    requires pitch > 0.0 && remaining > Eps
    ensures remaining - Added(Piece(segStart, remaining / pitch + segStart), pitch) == 0.0
    ensures remaining / pitch > 0.0
  {
    var q := remaining / pitch;
    DivMulCancel(remaining, pitch);
    assert Added(Piece(segStart, q + segStart), pitch) == q * pitch;
    DivMonotone(0.0, remaining, pitch);
    assert q != 0.0;
  }

  /** A piece that finishes the cycle from `segStart` overshoots the remaining
      distance by at most the slack, and lays a positive distance. */
  lemma FinishCycle(remaining: real, segStart: real, pitch: real)
    requires pitch > 0.0 && segStart < 1.0
    requires remaining / pitch >= 1.0 - segStart - Eps
    ensures remaining - Added(Piece(segStart, 1.0), pitch) >= -Eps * pitch
    ensures Added(Piece(segStart, 1.0), pitch) > 0.0
  {
    var q := remaining / pitch;
    var need := 1.0 - segStart;
    DivMulCancel(remaining, pitch);
    MulMonotone(need - Eps, q, pitch);
    assert (need - Eps) * pitch == need * pitch - Eps * pitch;
    assert -Eps * pitch == -(Eps * pitch);
    assert Added(Piece(segStart, 1.0), pitch) == need * pitch;
    MulMonotone(0.0, need, pitch);
    assert need * pitch != 0.0;
  }

  /** Laying a whole cycle lowers the remaining number of cycles by one. */
  lemma WholeCycleCount(remaining: real, pitch: real)
    requires pitch > 0.0
    ensures (remaining - Added(Piece(0.0, 1.0), pitch)) / pitch == remaining / pitch - 1.0
  {
    var rest := remaining - Added(Piece(0.0, 1.0), pitch);
    assert rest == remaining - pitch;
    DivMulCancel(rest, pitch);
    DivMulCancel(remaining, pitch);
    assert (remaining / pitch - 1.0) * pitch == (remaining / pitch) * pitch - pitch;
    MulCancel(rest / pitch, remaining / pitch - 1.0, pitch);
  }

  /** One iteration keeps the cycle position in [0, 1), lays a non-empty
      piece of one cycle, overshoots by at most the slack, and shrinks the
      measure. */
  lemma StepDecreases(cyclePos: real, remaining: real, pitch: real)
    requires pitch > 0.0 && 0.0 <= cyclePos < 1.0 && remaining > Eps
    ensures var s := NextPiece(cyclePos, remaining, pitch);
      && 0.0 <= s.cyclePos < 1.0
      && 0.0 <= s.piece.segStart < s.piece.segEnd <= 1.0
      && remaining - Added(s.piece, pitch) >= -Eps * pitch
      && (s.piece.segEnd != 1.0 ==> remaining - Added(s.piece, pitch) == 0.0)
      && 0 <= Measure(s.cyclePos, remaining - Added(s.piece, pitch), pitch) < Measure(cyclePos, remaining, pitch)
  {
    var s := NextPiece(cyclePos, remaining, pitch);
    var rest := remaining - Added(s.piece, pitch);
    EndMidCycle(remaining, s.piece.segStart, pitch);
    if s.piece.segEnd == 1.0 {
      FinishCycle(remaining, s.piece.segStart, pitch);
      if cyclePos > 0.0 {
        DivMonotone(rest, remaining, pitch);
      } else {
        WholeCycleCount(remaining, pitch);
      }
    }
  }

  /** What the loop leaves behind: the pieces laid, in order, the carried
      cycle position and the distance that was not laid. */
  datatype Run = Run(pieces: seq<Piece>, cyclePos: real, remaining: real)

  /** The whole `while distance_remaining > 1e-12` loop. */
  function Lay(cyclePos: real, remaining: real, pitch: real): Run
    requires pitch > 0.0 && 0.0 <= cyclePos < 1.0
    decreases Measure(cyclePos, remaining, pitch)
  {
    if remaining <= Eps then Run([], cyclePos, remaining)
    else
      var s := NextPiece(cyclePos, remaining, pitch);
      StepDecreases(cyclePos, remaining, pitch);
      var r := Lay(s.cyclePos, remaining - Added(s.piece, pitch), pitch);
      Run([s.piece] + r.pieces, r.cyclePos, r.remaining)
  }

  /** The total distance the pieces occupy. */
  function Covered(ps: seq<Piece>, pitch: real): real
  {
    if ps == [] then 0.0 else Added(ps[0], pitch) + Covered(ps[1..], pitch)
  }

  lemma {:induction false} CoveredSnoc(ps: seq<Piece>, p: Piece, pitch: real)
    ensures Covered(ps + [p], pitch) == Covered(ps, pitch) + Added(p, pitch)
  {
    if ps != [] {
      assert (ps + [p])[1..] == ps[1..] + [p];
      CoveredSnoc(ps[1..], p, pitch);
    }
  }

  /** Every piece is a non-empty interval inside one cycle, and the carried
      cycle position stays in [0, 1). */
  lemma {:induction false} LayPiecesInUnit(cyclePos: real, remaining: real, pitch: real)
    requires pitch > 0.0 && 0.0 <= cyclePos < 1.0
    ensures var r := Lay(cyclePos, remaining, pitch);
      && 0.0 <= r.cyclePos < 1.0
      && forall i :: 0 <= i < |r.pieces| ==> 0.0 <= r.pieces[i].segStart < r.pieces[i].segEnd <= 1.0
    decreases Measure(cyclePos, remaining, pitch)
  {
    if remaining > Eps {
      var s := NextPiece(cyclePos, remaining, pitch);
      StepDecreases(cyclePos, remaining, pitch);
      LayPiecesInUnit(s.cyclePos, remaining - Added(s.piece, pitch), pitch);
    }
  }

  /** The pieces add up to the distance asked for, short of what is left, and
      what is left lies within [-1e-12 * pitch, 1e-12]. */
  lemma {:induction false} LayCoversDistance(cyclePos: real, remaining: real, pitch: real)
    requires pitch > 0.0 && 0.0 <= cyclePos < 1.0
    ensures var r := Lay(cyclePos, remaining, pitch);
      && Covered(r.pieces, pitch) == remaining - r.remaining
      && r.remaining <= Eps
      && (remaining > Eps ==> r.remaining >= -Eps * pitch)
      && (remaining <= Eps ==> r == Run([], cyclePos, remaining))
    decreases Measure(cyclePos, remaining, pitch)
  {
    if remaining > Eps {
      var s := NextPiece(cyclePos, remaining, pitch);
      StepDecreases(cyclePos, remaining, pitch);
      LayCoversDistance(s.cyclePos, remaining - Added(s.piece, pitch), pitch);
    }
  }

  /** The shape of a run: only the first piece may start inside a cycle (at
      the carried position), only the last may end inside one, and it then
      leaves nothing to lay and carries its end plus 1e-14; a run that ends on
      a whole cycle carries 0. */
  lemma {:induction false} LayShape(cyclePos: real, remaining: real, pitch: real)
    requires pitch > 0.0 && 0.0 <= cyclePos < 1.0
    ensures var r := Lay(cyclePos, remaining, pitch);
      var n := |r.pieces|;
      && (n > 0 <==> remaining > Eps)
      && (n > 0 ==> r.pieces[0].segStart == cyclePos)
      && (forall i :: 0 < i < n ==> r.pieces[i].segStart == 0.0)
      && (forall i :: 0 <= i < n - 1 ==> r.pieces[i].segEnd == 1.0)
      && (n == 0 ==> r.cyclePos == cyclePos)
      && (n > 0 && r.pieces[n - 1].segEnd == 1.0 ==> r.cyclePos == 0.0)
      && (n > 0 && r.pieces[n - 1].segEnd != 1.0 ==>
            r.cyclePos == r.pieces[n - 1].segEnd + Nudge && r.remaining == 0.0)
    decreases Measure(cyclePos, remaining, pitch)
  {
    if remaining > Eps {
      var s := NextPiece(cyclePos, remaining, pitch);
      StepDecreases(cyclePos, remaining, pitch);
      var rest := remaining - Added(s.piece, pitch);
      LayShape(s.cyclePos, rest, pitch);
      if s.piece.segEnd != 1.0 {
        assert rest == 0.0;
        assert Lay(s.cyclePos, rest, pitch) == Run([], s.cyclePos, rest);
      }
    }
  }

  /** A point of the cycle lying in the last piece of one run is never inside
      the first piece of the run that resumes from the carried position. */
  lemma NextRunSkipsSplitPoint(prev: Piece, cyclePos: real, remaining: real, pitch: real, u: real)
    requires pitch > 0.0 && 0.0 <= cyclePos < 1.0
    requires prev.segEnd != 1.0 && cyclePos == prev.segEnd + Nudge
    requires prev.segStart <= u <= prev.segEnd
    ensures var r := Lay(cyclePos, remaining, pitch);
      forall i :: 0 <= i < |r.pieces| ==> !(r.pieces[i].segStart <= u <= r.pieces[i].segEnd) || r.pieces[i].segStart == 0.0
  {
    LayShape(cyclePos, remaining, pitch);
    var r := Lay(cyclePos, remaining, pitch);
    if |r.pieces| > 0 {
      assert r.pieces[0].segStart == cyclePos > u;
    }
  }

  /** A distance of n whole cycles laid from the start of a cycle is laid as
      exactly n whole-cycle pieces, with nothing over and the cycle position
      back at 0. */
  lemma {:induction false} WholeCycles(n: nat, pitch: real)
    requires pitch > Eps
    ensures Lay(0.0, Along(n as real, pitch), pitch) == Run(seq(n, _ => Piece(0.0, 1.0)), 0.0, 0.0)
  {
    var whole := Piece(0.0, 1.0);
    if n > 0 {
      WholeCycleFirst(Along(n as real, pitch), (n - 1) as real, pitch);
      WholeCycles(n - 1, pitch);
      assert seq(n, _ => whole) == [whole] + seq(n - 1, _ => whole);
    } else {
      assert Along(n as real, pitch) == 0.0;
    }
  }

  /** A distance one pitch longer than some whole pitches starts with a whole
      cycle and leaves those pitches. */
  lemma WholeCycleFirst(d: real, k: real, pitch: real)
    requires pitch > Eps && k >= 0.0 && d == Along(k + 1.0, pitch)
    ensures d > Eps && NextPiece(0.0, d, pitch) == Step(Piece(0.0, 1.0), 0.0)
    ensures d - Added(Piece(0.0, 1.0), pitch) == Along(k, pitch)
  {
    assert d == k * pitch + pitch;
    MulMonotone(0.0, k, pitch);
    DivMulCancel(d, pitch);
    MulCancel(d / pitch, k + 1.0, pitch);
  }

  /** The number of pieces that finish a cycle. */
  function Full(ps: seq<Piece>): nat
  {
    if ps == [] then 0 else (if ps[0].segEnd == 1.0 then 1 else 0) + Full(ps[1..])
  }

  /** The fraction of a cycle the pieces occupy together. */
  function Span(ps: seq<Piece>): real
  {
    if ps == [] then 0.0 else (ps[0].segEnd - ps[0].segStart) + Span(ps[1..])
  }

  /** The distance the pieces occupy is their span in cycles times the pitch. */
  lemma {:induction false} CoveredIsSpan(ps: seq<Piece>, pitch: real)
    ensures Covered(ps, pitch) == Span(ps) * pitch
  {
    if ps != [] {
      var width := ps[0].segEnd - ps[0].segStart;
      CoveredIsSpan(ps[1..], pitch);
      assert Covered(ps, pitch) == width * pitch + Span(ps[1..]) * pitch;
      assert Span(ps) == width + Span(ps[1..]);
      Distribute(width, Span(ps[1..]), Span(ps), pitch);
    }
  }

  /** How the loop as written accounts for the distance: the cycles finished
      plus the carried position, less the start position, is the distance
      laid, except that a run ending inside a cycle carries 1e-14 more than
      it laid. */
  lemma {:induction false} LayDrift(cyclePos: real, remaining: real, pitch: real)
    requires pitch > 0.0 && 0.0 <= cyclePos < 1.0
    ensures var r := Lay(cyclePos, remaining, pitch);
      var n := |r.pieces|;
      var gap := if n > 0 && r.pieces[n - 1].segEnd != 1.0 then Nudge else 0.0;
      Span(r.pieces) == Full(r.pieces) as real + r.cyclePos - gap - cyclePos
    decreases Measure(cyclePos, remaining, pitch)
  {
    if remaining > Eps {
      var s := NextPiece(cyclePos, remaining, pitch);
      StepDecreases(cyclePos, remaining, pitch);
      var rest := remaining - Added(s.piece, pitch);
      LayDrift(s.cyclePos, rest, pitch);
      var r := Lay(s.cyclePos, rest, pitch);
      var all := [s.piece] + r.pieces;
      assert Lay(cyclePos, remaining, pitch) == Run(all, r.cyclePos, r.remaining);
      assert all[1..] == r.pieces;
      if s.piece.segEnd != 1.0 {
        assert rest == 0.0;
        assert r == Run([], s.cyclePos, rest);
      } else if r.pieces == [] {
        assert r == Run([], s.cyclePos, rest);
      } else {
        assert all[|all| - 1] == r.pieces[|r.pieces| - 1];
      }
    }
  }

  /** The loop step with the 1e-14 gap left out of the carried position: a
      piece that ends inside the cycle carries its own end. */
  function NextPieceFixed(cyclePos: real, remaining: real, pitch: real): Step
    requires pitch > 0.0
  {
    var s := NextPiece(cyclePos, remaining, pitch);
    Step(s.piece, if s.piece.segEnd == 1.0 then 0.0 else s.piece.segEnd)
  }

  /** The laydown loop with the carried position kept exact. */
  function LayFixed(cyclePos: real, remaining: real, pitch: real): (r: Run)
    requires pitch > 0.0 && 0.0 <= cyclePos < 1.0
    ensures 0.0 <= r.cyclePos < 1.0
    decreases Measure(cyclePos, remaining, pitch)
  {
    if remaining <= Eps then Run([], cyclePos, remaining)
    else
      var s := NextPieceFixed(cyclePos, remaining, pitch);
      StepDecreases(cyclePos, remaining, pitch);
      var r := LayFixed(s.cyclePos, remaining - Added(s.piece, pitch), pitch);
      Run([s.piece] + r.pieces, r.cyclePos, r.remaining)
  }

  /** The corrected loop lays the same pieces as the loop as written up to
      where the gap first differs, and its accounting is exact: the cycles
      finished plus the carried position, less the start position, is the
      distance laid, which is the distance asked for short of what is left. */
  lemma {:induction false} LayFixedAccounts(cyclePos: real, remaining: real, pitch: real)
    requires pitch > 0.0 && 0.0 <= cyclePos < 1.0
    ensures var r := LayFixed(cyclePos, remaining, pitch);
      && Covered(r.pieces, pitch) == remaining - r.remaining
      && Span(r.pieces) == Full(r.pieces) as real + r.cyclePos - cyclePos
      && r.remaining <= Eps
      && (|r.pieces| > 0 <==> remaining > Eps)
      && (|r.pieces| > 0 ==> r.pieces[0].segStart == cyclePos)
    decreases Measure(cyclePos, remaining, pitch)
  {
    if remaining > Eps {
      var s := NextPieceFixed(cyclePos, remaining, pitch);
      StepDecreases(cyclePos, remaining, pitch);
      var rest := remaining - Added(s.piece, pitch);
      LayFixedAccounts(s.cyclePos, rest, pitch);
      var r := LayFixed(s.cyclePos, rest, pitch);
      var all := [s.piece] + r.pieces;
      assert LayFixed(cyclePos, remaining, pitch) == Run(all, r.cyclePos, r.remaining);
      assert all[1..] == r.pieces;
      if s.piece.segEnd != 1.0 {
        assert rest == 0.0;
        assert r == Run([], s.cyclePos, rest);
      }
    }
  }

  /** Where the corrected loop stands after several distances: the carried
      position, the cycles finished, and whether every distance was laid
      with nothing over. */
  datatype Progress = Progress(cyclePos: real, full: nat, exact: bool)

  function Sum(ds: seq<real>): real
  {
    if ds == [] then 0.0 else Sum(ds[..|ds| - 1]) + ds[|ds| - 1]
  }

  /** The cycles a progress stands for, counted from a start position. */
  function Account(p: Progress, start: real): real
  {
    p.full as real + p.cyclePos - start
  }

  /** The distance along the path that a number of cycles occupies. */
  function Along(cycles: real, pitch: real): real
  {
    cycles * pitch
  }

  /** The corrected loop run over one distance after another. */
  function LayAllFixed(cyclePos: real, ds: seq<real>, pitch: real): (p: Progress)
    requires pitch > 0.0 && 0.0 <= cyclePos < 1.0
    ensures 0.0 <= p.cyclePos < 1.0
  {
    if ds == [] then Progress(cyclePos, 0, true)
    else
      var before := LayAllFixed(cyclePos, ds[..|ds| - 1], pitch);
      var r := LayFixed(before.cyclePos, ds[|ds| - 1], pitch);
      Progress(r.cyclePos, before.full + Full(r.pieces), before.exact && r.remaining == 0.0)
  }

  /** Laid with nothing over, the distances add up to the cycles finished
      plus the carried position, less the start position. */
  lemma {:induction false} LayAllAccounts(cyclePos: real, ds: seq<real>, pitch: real)
    requires pitch > 0.0 && 0.0 <= cyclePos < 1.0
    ensures var p := LayAllFixed(cyclePos, ds, pitch);
      p.exact ==> Sum(ds) == Along(Account(p, cyclePos), pitch)
  {
    if ds != [] {
      var n := |ds| - 1;
      LayAllAccounts(cyclePos, ds[..n], pitch);
      LayFixedAccounts(LayAllFixed(cyclePos, ds[..n], pitch).cyclePos, ds[n], pitch);
      AccountStep(Sum(ds[..n]), ds[n], LayAllFixed(cyclePos, ds[..n], pitch),
                  LayFixed(LayAllFixed(cyclePos, ds[..n], pitch).cyclePos, ds[n], pitch),
                  LayAllFixed(cyclePos, ds, pitch), cyclePos, pitch);
    }
  }

  /** One more distance laid exactly adds its span to the account. */
  lemma AccountStep(front: real, last: real, before: Progress, r: Run, p: Progress, start: real, pitch: real)
    requires p == Progress(r.cyclePos, before.full + Full(r.pieces), before.exact && r.remaining == 0.0)
    requires before.exact ==> front == Along(Account(before, start), pitch)
    requires Covered(r.pieces, pitch) == last - r.remaining
    requires Span(r.pieces) == Full(r.pieces) as real + r.cyclePos - before.cyclePos
    ensures p.exact ==> front + last == Along(Account(p, start), pitch)
  {
    if p.exact {
      CoveredIsSpan(r.pieces, pitch);
      Distribute(Account(before, start), Span(r.pieces), Account(p, start), pitch);
    }
  }

  /** Distances adding up to n cycles, laid by the corrected loop from the
      start of a cycle with nothing over, finish exactly n cycles and end on
      a cycle boundary. */
  lemma FixedCompletesCycles(ds: seq<real>, pitch: real, n: int)
    requires pitch > 0.0 && Sum(ds) == Along(n as real, pitch)
    requires LayAllFixed(0.0, ds, pitch).exact
    ensures LayAllFixed(0.0, ds, pitch).cyclePos == 0.0
    ensures LayAllFixed(0.0, ds, pitch).full == n
  {
    LayAllAccounts(0.0, ds, pitch);
    WholeFromAccount(Sum(ds), LayAllFixed(0.0, ds, pitch), n, pitch);
  }

  /** A whole number of cycles accounted as finished cycles plus a position
      inside the cycle leaves that position at 0. */
  lemma WholeFromAccount(total: real, p: Progress, n: int, pitch: real)
    requires pitch > 0.0 && 0.0 <= p.cyclePos < 1.0
    requires total == Along(n as real, pitch) && total == Along(Account(p, 0.0), pitch)
    ensures p.cyclePos == 0.0 && p.full == n
  {
    MulCancel(Account(p, 0.0), n as real, pitch);
    assert p.cyclePos == (n - p.full) as real;
  }

  /** How the corrected design keeps clear of the split point: the drawing
      of a piece that resumes a cycle starts 1e-14 after it. */
  function Drawn(p: Piece): Piece
  {
    if p.segStart > 0.0 then Piece(p.segStart + Nudge, p.segEnd) else p
  }

  /** A point of the last piece of a run that ends inside a cycle is not in
      the drawing of the first piece of the corrected run resuming there. */
  lemma FixedSkipsSplitPoint(prev: Piece, remaining: real, pitch: real, u: real)
    requires pitch > 0.0 && 0.0 < prev.segEnd < 1.0
    requires prev.segStart <= u <= prev.segEnd
    ensures var r := LayFixed(prev.segEnd, remaining, pitch);
      |r.pieces| > 0 ==> u < Drawn(r.pieces[0]).segStart
  {
    LayFixedAccounts(prev.segEnd, remaining, pitch);
  }
}
