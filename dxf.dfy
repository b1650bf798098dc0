/** Reading a path from the entities of a DXF drawing (curvycad/dxf.py).
    Entities are values here: reversing a line in place becomes replacing it
    in the list that holds it. `math.sqrt`, `math.atan` and `math.atan2` are
    the fields of a `MathLib` passed in. */
module Dxf {
  import opened Results
  import opened PathTypes

  datatype Vec3 = Vec3(x: real, y: real, z: real)

  /** An ezdxf Line: its `dxf.start` and `dxf.end`. */
  datatype Line = Line(start: Vec3, end: Vec3)

  /** One LWPolyline vertex, the 5-tuple (x, y, start width, end width, bulge). */
  datatype Vertex = Vertex(x: real, y: real, startWidth: real, endWidth: real, bulge: real)

  /** An LWPolyline; `reversed` records whether `reverse_element` has set the
      `reversed` attribute on it. */
  datatype Polyline = Polyline(vertices: seq<Vertex>, isClosed: bool, reversed: bool)

  datatype Entity =
    | LineEntity(line: Line)
    | ArcEntity(startPoint: Vec3, endPoint: Vec3, radius: real, startAngle: real, endAngle: real)
    | PolylineEntity(polyline: Polyline)
    | OtherEntity

  /** The exceptions the reader raises. */
  datatype DxfError =
    | UnsupportedElement  // ValueError: an entity that is not a Line, Arc or LWPolyline
    | BadInput            // ValueError from get_start / get_end
    | IndexError          // indexing an empty list
    | NotConnected        // ValueError: no remaining element touches the chain
    | ZeroBulge           // ValueError: an arc from a segment with bulge 0
    | ZeroDivision        // ZeroDivisionError
    | NotCallable         // TypeError: `reversed` is a bool, not the builtin

  datatype MathLib = MathLib(sqrt: real -> real, atan: real -> real, atan2: (real, real) -> real)

  /** `get_start`: where an entity begins. */
  function GetStart(e: Entity): (r: Result<Vec3, DxfError>)
    ensures r.Err? <==> e.OtherEntity? || (e.PolylineEntity? && |e.polyline.vertices| == 0)
    ensures r.Err? ==> r.error == (if e.OtherEntity? then BadInput else IndexError)
    ensures e.LineEntity? ==> r == Ok(e.line.start)
    ensures e.ArcEntity? ==> r == Ok(e.startPoint)
    ensures e.PolylineEntity? && r.Ok? ==>
      r.value == Vec3(e.polyline.vertices[0].x, e.polyline.vertices[0].y, 0.0)
  {
    match e
    case LineEntity(line) => Ok(line.start)
    case ArcEntity(startPoint, _, _, _, _) => Ok(startPoint)
    case PolylineEntity(pl) =>
      if |pl.vertices| == 0 then Err(IndexError)
      else Ok(Vec3(pl.vertices[0].x, pl.vertices[0].y, 0.0))
    case OtherEntity => Err(BadInput)
  }

  /** `get_end`: where an entity ends. */
  function GetEnd(e: Entity): (r: Result<Vec3, DxfError>)
    ensures r.Err? <==> e.OtherEntity? || (e.PolylineEntity? && |e.polyline.vertices| == 0)
    ensures r.Err? ==> r.error == (if e.OtherEntity? then BadInput else IndexError)
    ensures e.LineEntity? ==> r == Ok(e.line.end)
    ensures e.ArcEntity? ==> r == Ok(e.endPoint)
    ensures e.PolylineEntity? && r.Ok? ==>
      r.value == Vec3(e.polyline.vertices[|e.polyline.vertices| - 1].x, e.polyline.vertices[|e.polyline.vertices| - 1].y, 0.0)
  {
    match e
    case LineEntity(line) => Ok(line.end)
    case ArcEntity(_, endPoint, _, _, _) => Ok(endPoint)
    case PolylineEntity(pl) =>
      var n := |pl.vertices|;
      if n == 0 then Err(IndexError)
      else Ok(Vec3(pl.vertices[n - 1].x, pl.vertices[n - 1].y, 0.0))
    case OtherEntity => Err(BadInput)
  }

  /** A polyline with a single vertex begins where it ends. */
  lemma SingleVertexEndsWhereItStarts(pl: Polyline)
    requires |pl.vertices| == 1
    ensures GetStart(PolylineEntity(pl)) == GetEnd(PolylineEntity(pl))
  {
  }

  /** `reverse_element` on a Line: start and end swap. */
  function ReverseLine(l: Line): (r: Line)
    ensures r.start == l.end && r.end == l.start
  {
    Line(l.end, l.start)
  }

  lemma ReverseLineTwice(l: Line)
    ensures ReverseLine(ReverseLine(l)) == l
  {
  }

  /** A reversed line begins where the line ended and ends where it began. */
  lemma ReversedLineEnds(l: Line)
    ensures GetStart(LineEntity(ReverseLine(l))) == GetEnd(LineEntity(l))
    ensures GetEnd(LineEntity(ReverseLine(l))) == GetStart(LineEntity(l))
  {
  }

  /** The unordered pair of a line's end points, which reversal keeps. */
  function EndSet(l: Line): set<Vec3>
  {
    {l.start, l.end}
  }

  /** The end points of each line of a list, in order. */
  function Ends(ls: seq<Line>): (r: seq<set<Vec3>>)
    ensures |r| == |ls| && forall i :: 0 <= i < |ls| ==> r[i] == EndSet(ls[i])
  {
    seq(|ls|, i requires 0 <= i < |ls| => EndSet(ls[i]))
  }

  lemma EndsAppend(a: seq<Line>, b: seq<Line>)
    ensures Ends(a + b) == Ends(a) + Ends(b)
  {
    var l, r := Ends(a + b), Ends(a) + Ends(b);
    forall i | 0 <= i < |l|
      ensures l[i] == r[i]
    {
      if i < |a| {
        assert (a + b)[i] == a[i];
      } else {
        assert (a + b)[i] == b[i - |a|];
      }
    }
  }

  /** Consecutive lines share an end point: each ends where the next starts. */
  ghost predicate Chained(ls: seq<Line>)
  {
    forall i :: 0 <= i < |ls| - 1 ==> ls[i].end == ls[i + 1].start
  }

  /** Which branch of the ordering loop a remaining line takes against the
      chain from `start` to `end`, in the order the branches are tried; 0 when
      it touches neither end. */
  function Branch(l: Line, start: Vec3, end: Vec3): (b: int)
    ensures 0 <= b <= 4
    ensures b == 0 <==> l.start != end && l.end != start && l.end != end && l.start != start
  {
    if l.start == end then 1
    else if l.end == start then 2
    else if l.end == end then 3
    else if l.start == start then 4
    else 0
  }

  /** The position of the first remaining line that touches the chain. */
  function FirstMatch(ls: seq<Line>, start: Vec3, end: Vec3): (k: nat)
    ensures k <= |ls|
    ensures forall i :: 0 <= i < k ==> Branch(ls[i], start, end) == 0
    ensures k < |ls| ==> Branch(ls[k], start, end) != 0
  {
    if ls == [] then 0
    else if Branch(ls[0], start, end) != 0 then 0
    else 1 + FirstMatch(ls[1..], start, end)
  }

  lemma FirstMatchUnique(ls: seq<Line>, start: Vec3, end: Vec3, k: nat)
    requires k <= |ls|
    requires forall i :: 0 <= i < k ==> Branch(ls[i], start, end) == 0
    requires k < |ls| ==> Branch(ls[k], start, end) != 0
    ensures FirstMatch(ls, start, end) == k
  {
  }

  /** 1 while the next iteration will reverse a line without moving it. */
  function Pending(ls: seq<Line>, start: Vec3, end: Vec3): (p: nat)
    ensures p <= 1
  {
    var k := FirstMatch(ls, start, end);
    if k < |ls| && Branch(ls[k], start, end) == 4 then 1 else 0
  }

  /** `list.remove` of the element at position j. */
  function RemoveAt(ls: seq<Line>, j: nat): (r: seq<Line>)
    requires j < |ls|
    ensures |r| == |ls| - 1
  {
    ls[..j] + ls[j + 1..]
  }

  /** Removing a line takes exactly its end points out of the list's. */
  lemma RemoveAtEnds(ls: seq<Line>, j: nat)
    requires j < |ls|
    ensures multiset(Ends(ls)) == multiset(Ends(RemoveAt(ls, j))) + multiset{EndSet(ls[j])}
  {
    EndsSplit(ls, j);
    MultisetSplit(Ends(ls[..j]), EndSet(ls[j]), Ends(ls[j + 1..]));
  }

  lemma EndsSplit(ls: seq<Line>, j: nat)
    requires j < |ls|
    ensures Ends(ls) == Ends(ls[..j]) + ([EndSet(ls[j])] + Ends(ls[j + 1..]))
    ensures Ends(RemoveAt(ls, j)) == Ends(ls[..j]) + Ends(ls[j + 1..])
  {
    var front, x, back := ls[..j], ls[j], ls[j + 1..];
    var l, r := Ends(ls), Ends(front) + ([EndSet(x)] + Ends(back));
    forall i | 0 <= i < |l|
      ensures l[i] == r[i]
    {
      if i < j {
        assert front[i] == ls[i];
      } else if i > j {
        assert back[i - j - 1] == ls[i];
      }
    }
    EndsAppend(front, back);
  }

  lemma MultisetSplit<T>(front: seq<T>, x: T, back: seq<T>)
    ensures multiset(front + ([x] + back)) == multiset(front + back) + multiset{x}
  {
    assert multiset([x] + back) == multiset{x} + multiset(back);
  }

  /** A line reversed where it lies leaves the end points of the list alone. */
  lemma ReplaceReversedKeepsEnds(ls: seq<Line>, j: nat)
    requires j < |ls|
    ensures Ends(ls[j := ReverseLine(ls[j])]) == Ends(ls)
  {
    var rev := ReverseLine(ls[j]);
    assert EndSet(rev) == EndSet(ls[j]);
    var l, r := Ends(ls[j := rev]), Ends(ls);
    forall i | 0 <= i < |l|
      ensures l[i] == r[i]
    {
    }
  }

  /** Where the ordering loop stands: a non-empty chain that still starts
      with the first line, and the lines not yet attached, together holding
      the end points of every input line once. */
  ghost predicate Partial(input: seq<Line>, ordered: seq<Line>, elements: seq<Line>)
  {
    && |ordered| >= 1
    && Chained(ordered)
    && |ordered| + |elements| == |input|
    && multiset(Ends(ordered)) + multiset(Ends(elements)) == multiset(Ends(input))
    && input[0] in ordered
  }

  /** Attaching line j (possibly reversed) after the chain's end. */
  lemma AttachAtEnd(input: seq<Line>, ordered: seq<Line>, elements: seq<Line>, j: nat, el: Line)
    requires Partial(input, ordered, elements) && j < |elements|
    requires EndSet(el) == EndSet(elements[j]) && el.start == ordered[|ordered| - 1].end
    ensures Partial(input, ordered + [el], RemoveAt(elements, j))
  {
    RemoveAtEnds(elements, j);
    EndsAppend(ordered, [el]);
    assert Ends([el]) == [EndSet(el)];
    var o := ordered + [el];
    forall i | 0 <= i < |o| - 1
      ensures o[i].end == o[i + 1].start
    {
      if i < |ordered| - 1 {
        assert o[i] == ordered[i] && o[i + 1] == ordered[i + 1];
      }
    }
    assert input[0] in o by {
      var k :| 0 <= k < |ordered| && ordered[k] == input[0];
      assert o[k] == input[0];
    }
  }

  /** Attaching line j before the chain's start. */
  lemma AttachAtStart(input: seq<Line>, ordered: seq<Line>, elements: seq<Line>, j: nat)
    requires Partial(input, ordered, elements) && j < |elements|
    requires elements[j].end == ordered[0].start
    ensures Partial(input, [elements[j]] + ordered, RemoveAt(elements, j))
  {
    var el := elements[j];
    RemoveAtEnds(elements, j);
    EndsAppend([el], ordered);
    assert Ends([el]) == [EndSet(el)];
    var o := [el] + ordered;
    forall i | 0 <= i < |o| - 1
      ensures o[i].end == o[i + 1].start
    {
      if i > 0 {
        assert o[i] == ordered[i - 1] && o[i + 1] == ordered[i];
      }
    }
    assert input[0] in o by {
      var k :| 0 <= k < |ordered| && ordered[k] == input[0];
      assert o[k + 1] == input[0];
    }
  }

  /** Reversing line j where it lies, when it touches only the chain's start
      and only with its own start: the loop stands where it did, and the next
      iteration attaches that same line before the chain. */
  lemma ReverseInPlace(input: seq<Line>, ordered: seq<Line>, elements: seq<Line>, j: nat)
    requires Partial(input, ordered, elements)
    requires var start, end := ordered[0].start, ordered[|ordered| - 1].end;
      && j == FirstMatch(elements, start, end) && j < |elements|
      && Branch(elements[j], start, end) == 4
    ensures var start, end := ordered[0].start, ordered[|ordered| - 1].end;
      var after := elements[j := ReverseLine(elements[j])];
      && Partial(input, ordered, after)
      && after[j] == ReverseLine(elements[j])
      && FirstMatch(after, start, end) == j
      && Branch(after[j], start, end) == 2
      && Pending(elements, start, end) == 1
      && Pending(after, start, end) == 0
  {
    ReplaceReversedKeepsEnds(elements, j);
    ReversePending(elements, ordered[0].start, ordered[|ordered| - 1].end, j);
  }

  /** Reversing the first touching line when it takes the fourth branch
      leaves it first among the touching lines, now taking the second. */
  lemma ReversePending(elements: seq<Line>, start: Vec3, end: Vec3, j: nat)
    requires j == FirstMatch(elements, start, end) && j < |elements|
    requires Branch(elements[j], start, end) == 4
    ensures var after := elements[j := ReverseLine(elements[j])];
      && FirstMatch(after, start, end) == j
      && Branch(after[j], start, end) == 2
      && Pending(elements, start, end) == 1
      && Pending(after, start, end) == 0
  {
    var after := elements[j := ReverseLine(elements[j])];
    assert Branch(after[j], start, end) == 2;
    FirstMatchUnique(after, start, end, j);
  }

  /** Some state the loop's invariant allows has a chain that no remaining
      line touches at either end. This says nothing about which state the
      loop reaches; `OrderFrom` does. */
  ghost predicate Stuck(input: seq<Line>)
  {
    exists ordered, elements :: Partial(input, ordered, elements) && elements != [] && NoneTouches(ordered, elements)
  }

  ghost predicate NoneTouches(ordered: seq<Line>, elements: seq<Line>)
    requires ordered != []
  {
    forall i :: 0 <= i < |elements| ==> Branch(elements[i], ordered[0].start, ordered[|ordered| - 1].end) == 0
  }

  /** The chain so far is a prefix of the input and the remaining lines
      are the rest of it, in order. */
  ghost predicate InOrder(input: seq<Line>, ordered: seq<Line>, elements: seq<Line>)
  {
    |ordered| <= |input| && ordered == input[..|ordered|] && elements == input[|ordered|..]
  }

  /** The `for el in elements` search: the first remaining line that
      touches the chain, or the number of lines when none does. */
  method FindMatch(elements: seq<Line>, start: Vec3, end: Vec3) returns (j: nat)
    ensures j == FirstMatch(elements, start, end)
  {
    j := 0;
    while j < |elements| && Branch(elements[j], start, end) == 0
      invariant 0 <= j <= |elements|
      invariant forall i :: 0 <= i < j ==> Branch(elements[i], start, end) == 0
    {
      j := j + 1;
    }
    FirstMatchUnique(elements, start, end, j);
  }

  /** On a chained input the loop takes the lines in their own order: the
      first of the remaining lines always continues the chain's end. */
  lemma ChainedNext(input: seq<Line>, ordered: seq<Line>, elements: seq<Line>)
    requires Chained(input) && InOrder(input, ordered, elements) && ordered != [] && elements != []
    ensures var start, end := ordered[0].start, ordered[|ordered| - 1].end;
      && FirstMatch(elements, start, end) == 0
      && Branch(elements[0], start, end) == 1
      && InOrder(input, ordered + [elements[0]], RemoveAt(elements, 0))
  {
    var n := |ordered|;
    assert input[n - 1].end == input[n].start;
    assert ordered[n - 1] == input[n - 1] && elements[0] == input[n];
    assert ordered + [elements[0]] == input[..n + 1];
    assert RemoveAt(elements, 0) == input[n + 1..];
  }

  /** A chained input, taken in order to the end, is returned unchanged. */
  lemma InOrderDone(input: seq<Line>, ordered: seq<Line>)
    requires InOrder(input, ordered, [])
    ensures ordered == input
  {
  }

  /** One pass of the ordering loop once line j, the first to touch the
      chain, has been found: the line is attached after the chain's end,
      before its start, or reversed first, and each pass either shortens the
      remaining lines or readies the reversed line for the next pass. */
  method AttachOne(ghost input: seq<Line>, ordered: seq<Line>, elements: seq<Line>, j: nat)
    returns (newOrdered: seq<Line>, newElements: seq<Line>)
    requires Partial(input, ordered, elements)
    requires j == FirstMatch(elements, ordered[0].start, ordered[|ordered| - 1].end) && j < |elements|
    ensures (newOrdered, newElements) == Attach(ordered, elements, j)
    ensures Partial(input, newOrdered, newElements)
    ensures Remaining(newOrdered, newElements) < Remaining(ordered, elements)
    ensures Branch(elements[j], ordered[0].start, ordered[|ordered| - 1].end) == 1 ==>
      newOrdered == ordered + [elements[j]] && newElements == RemoveAt(elements, j)
  {
    var start := ordered[0].start;
    var end := ordered[|ordered| - 1].end;
    var el := elements[j];
    var branch := Branch(el, start, end);
    if branch == 1 {
      AttachAtEnd(input, ordered, elements, j, el);
      newOrdered := ordered + [el];
      newElements := RemoveAt(elements, j);
    } else if branch == 2 {
      AttachAtStart(input, ordered, elements, j);
      newOrdered := [el] + ordered;
      newElements := RemoveAt(elements, j);
    } else if branch == 3 {
      var rev := ReverseLine(el);
      AttachAtEnd(input, ordered, elements, j, rev);
      newOrdered := ordered + [rev];
      newElements := RemoveAt(elements, j);
    } else {
      // reversed in place; the copy inserted at the front is removed again
      ReverseInPlace(input, ordered, elements, j);
      var rev := ReverseLine(el);
      var withRev := [rev] + ordered;
      newOrdered := withRev[1..];
      newElements := elements[j := rev];
    }
  }

  /** The ordering loop's termination measure: two per remaining line, and
      one more while the next pass only reverses a line. */
  function Remaining(ordered: seq<Line>, elements: seq<Line>): nat
    requires ordered != []
  {
    2 * |elements| + Pending(elements, ordered[0].start, ordered[|ordered| - 1].end)
  }

  /** One pass of the ordering loop on its two lists, once line j, the
      first to touch the chain, has been found. */
  function Attach(ordered: seq<Line>, elements: seq<Line>, j: nat): (r: (seq<Line>, seq<Line>))
    requires ordered != [] && j < |elements|
    requires j == FirstMatch(elements, ordered[0].start, ordered[|ordered| - 1].end)
    ensures r.0 != []
    ensures Remaining(r.0, r.1) < Remaining(ordered, elements)
  {
    var start, end := ordered[0].start, ordered[|ordered| - 1].end;
    var el := elements[j];
    var branch := Branch(el, start, end);
    if branch == 1 then (ordered + [el], RemoveAt(elements, j))
    else if branch == 2 then ([el] + ordered, RemoveAt(elements, j))
    else if branch == 3 then (ordered + [ReverseLine(el)], RemoveAt(elements, j))
    else
      ReversePending(elements, start, end, j);
      (ordered, elements[j := ReverseLine(el)])
  }

  /** A pass keeps the loop's invariant. */
  lemma AttachKeepsPartial(input: seq<Line>, ordered: seq<Line>, elements: seq<Line>, j: nat)
    requires Partial(input, ordered, elements) && j < |elements|
    requires j == FirstMatch(elements, ordered[0].start, ordered[|ordered| - 1].end)
    ensures Partial(input, Attach(ordered, elements, j).0, Attach(ordered, elements, j).1)
  {
    var el := elements[j];
    var branch := Branch(el, ordered[0].start, ordered[|ordered| - 1].end);
    if branch == 1 {
      AttachAtEnd(input, ordered, elements, j, el);
    } else if branch == 2 {
      AttachAtStart(input, ordered, elements, j);
    } else if branch == 3 {
      AttachAtEnd(input, ordered, elements, j, ReverseLine(el));
    } else {
      ReverseInPlace(input, ordered, elements, j);
    }
  }

  /** What the ordering loop returns from the chain `ordered` and the lines
      `elements` still to attach: the chain once no line remains, and the
      connection error as soon as no remaining line touches the chain. */
  function OrderFrom(ordered: seq<Line>, elements: seq<Line>): (r: Result<seq<Line>, DxfError>)
    requires ordered != []
    ensures r.Err? ==> r.error == NotConnected
    ensures elements != [] && NoneTouches(ordered, elements) ==> r == Err(NotConnected)
    decreases Remaining(ordered, elements)
  {
    if elements == [] then Ok(ordered)
    else
      var j := FirstMatch(elements, ordered[0].start, ordered[|ordered| - 1].end);
      if j == |elements| then Err(NotConnected)
      else
        var next := Attach(ordered, elements, j);
        OrderFrom(next.0, next.1)
  }

  /** From any state the invariant allows, the loop fails only at a chain
      no remaining line touches, and otherwise returns one chain through
      every input line. */
  lemma {:induction false} OrderFromSound(input: seq<Line>, ordered: seq<Line>, elements: seq<Line>)
    requires Partial(input, ordered, elements)
    ensures OrderFrom(ordered, elements).Err? ==> Stuck(input)
    ensures OrderFrom(ordered, elements).Ok? ==> var v := OrderFrom(ordered, elements).value;
      && Chained(v)
      && |v| == |input|
      && multiset(Ends(v)) == multiset(Ends(input))
      && input[0] in v
    decreases Remaining(ordered, elements)
  {
    if elements == [] {
      assert Ends(elements) == [];
    } else {
      var j := FirstMatch(elements, ordered[0].start, ordered[|ordered| - 1].end);
      if j == |elements| {
        assert Partial(input, ordered, elements) && elements != [] && NoneTouches(ordered, elements);
      } else {
        var next := Attach(ordered, elements, j);
        AttachKeepsPartial(input, ordered, elements, j);
        OrderFromSound(input, next.0, next.1);
      }
    }
  }

  /** On a chained input the loop returns the input itself. */
  lemma {:induction false} OrderFromChained(input: seq<Line>, ordered: seq<Line>, elements: seq<Line>)
    requires Chained(input) && InOrder(input, ordered, elements) && ordered != []
    ensures OrderFrom(ordered, elements) == Ok(input)
    decreases |elements|
  {
    if elements == [] {
      InOrderDone(input, ordered);
    } else {
      ChainedNext(input, ordered, elements);
      OrderFromChained(input, ordered + [elements[0]], RemoveAt(elements, 0));
    }
  }

  /** The Line-only ordering loop of `__read_dxf_elements`: starting from
      the first line, lines touching either end of the chain are attached
      (reversed where their direction disagrees) until none remain. On
      success the result is one chain through every line, each used once in
      one direction or the other, with the first line in its own direction;
      with no line to attach the chain cannot be completed. The result is
      the one `OrderFrom` gives, pass by pass. */
  method OrderLines(input: seq<Line>) returns (r: Result<seq<Line>, DxfError>)
    ensures |input| == 0 <==> r == Err(IndexError)
    ensures r.Err? ==> r.error == IndexError || r.error == NotConnected
    ensures r == Err(NotConnected) ==> Stuck(input)
    ensures r.Ok? ==>
      && Chained(r.value)
      && |r.value| == |input|
      && multiset(Ends(r.value)) == multiset(Ends(input))
      && input[0] in r.value
    ensures |input| > 0 && Chained(input) ==> r == Ok(input)
    ensures |input| > 0 ==> r == OrderFrom([input[0]], input[1..])
  {
    if |input| == 0 {
      return Err(IndexError);
    }
    var ordered := [input[0]];
    var elements := input[1..];
    EndsAppend([input[0]], input[1..]);
    assert input == [input[0]] + input[1..];
    assert Partial(input, ordered, elements);
    OrderFromSound(input, ordered, elements);
    if Chained(input) {
      OrderFromChained(input, ordered, elements);
    }
    while |elements| > 0
      invariant Partial(input, ordered, elements)
      invariant OrderFrom(ordered, elements) == OrderFrom([input[0]], input[1..])
      decreases Remaining(ordered, elements)
    {
      var start := ordered[0].start;
      var end := ordered[|ordered| - 1].end;
      var j := FindMatch(elements, start, end);
      if j == |elements| {
        return Err(NotConnected);
      }
      ordered, elements := AttachOne(input, ordered, elements, j);
    }
    return Ok(ordered);
  }

  /** One pass of the loop, when line j is the first to touch the chain. */
  lemma OrderStep(ordered: seq<Line>, elements: seq<Line>, j: nat, next: (seq<Line>, seq<Line>))
    requires ordered != [] && j < |elements|
    requires forall i :: 0 <= i < j ==> Branch(elements[i], ordered[0].start, ordered[|ordered| - 1].end) == 0
    requires Branch(elements[j], ordered[0].start, ordered[|ordered| - 1].end) != 0
    requires next == Attach(ordered, elements, j)
    ensures next.0 != [] && OrderFrom(ordered, elements) == OrderFrom(next.0, next.1)
  {
    FirstMatchUnique(elements, ordered[0].start, ordered[|ordered| - 1].end, j);
  }

  /** The point (x, y, 0). */
  function At(x: real, y: real): Vec3
  {
    Vec3(x, y, 0.0)
  }

  /** Lines meeting at a junction: A from 0 to 1, B from 1 to 2, C from 1
      to 3 and D from 3 back to 1, along the x axis. Given as A, D, C, B the
      loop reverses D and C and ends with B; given as A, B, C, D it takes B
      first and then no line touches the chain. */
  lemma JunctionOrderDecides()
    ensures var a, b, c, d := Line(At(0.0, 0.0), At(1.0, 0.0)), Line(At(1.0, 0.0), At(2.0, 0.0)),
      Line(At(1.0, 0.0), At(3.0, 0.0)), Line(At(3.0, 0.0), At(1.0, 0.0));
      && OrderFrom([a], [d, c, b]) == Ok([a, ReverseLine(d), ReverseLine(c), b])
      && OrderFrom([a], [b, c, d]) == Err(NotConnected)
  {
    JunctionReversesTwo();
    JunctionStuck();
  }

  lemma JunctionReversesTwo()
    ensures var a, b, c, d := Line(At(0.0, 0.0), At(1.0, 0.0)), Line(At(1.0, 0.0), At(2.0, 0.0)),
      Line(At(1.0, 0.0), At(3.0, 0.0)), Line(At(3.0, 0.0), At(1.0, 0.0));
      OrderFrom([a], [d, c, b]) == Ok([a, ReverseLine(d), ReverseLine(c), b])
  {
    var a, b, c, d := Line(At(0.0, 0.0), At(1.0, 0.0)), Line(At(1.0, 0.0), At(2.0, 0.0)),
      Line(At(1.0, 0.0), At(3.0, 0.0)), Line(At(3.0, 0.0), At(1.0, 0.0));
    var d', c' := ReverseLine(d), ReverseLine(c);
    assert Branch(d, a.start, a.end) == 3 && RemoveAt([d, c, b], 0) == [c, b];
    assert Attach([a], [d, c, b], 0) == ([a] + [d'], [c, b]) && [a] + [d'] == [a, d'];
    OrderStep([a], [d, c, b], 0, ([a, d'], [c, b]));
    assert Branch(c, a.start, d'.end) == 3 && RemoveAt([c, b], 0) == [b];
    assert Attach([a, d'], [c, b], 0) == ([a, d'] + [c'], [b]) && [a, d'] + [c'] == [a, d', c'];
    OrderStep([a, d'], [c, b], 0, ([a, d', c'], [b]));
    assert Branch(b, a.start, c'.end) == 1 && RemoveAt([b], 0) == [];
    assert Attach([a, d', c'], [b], 0) == ([a, d', c'] + [b], []) && [a, d', c'] + [b] == [a, d', c', b];
    OrderStep([a, d', c'], [b], 0, ([a, d', c', b], []));
  }

  lemma JunctionStuck()
    ensures var a, b, c, d := Line(At(0.0, 0.0), At(1.0, 0.0)), Line(At(1.0, 0.0), At(2.0, 0.0)),
      Line(At(1.0, 0.0), At(3.0, 0.0)), Line(At(3.0, 0.0), At(1.0, 0.0));
      OrderFrom([a], [b, c, d]) == Err(NotConnected)
  {
    var a, b, c, d := Line(At(0.0, 0.0), At(1.0, 0.0)), Line(At(1.0, 0.0), At(2.0, 0.0)),
      Line(At(1.0, 0.0), At(3.0, 0.0)), Line(At(3.0, 0.0), At(1.0, 0.0));
    assert Branch(b, a.start, a.end) == 1 && RemoveAt([b, c, d], 0) == [c, d];
    assert Attach([a], [b, c, d], 0) == ([a] + [b], [c, d]) && [a] + [b] == [a, b];
    OrderStep([a], [b, c, d], 0, ([a, b], [c, d]));
    assert NoneTouches([a, b], [c, d]);
  }

  /** The sides of the closed unit square, counter-clockwise from the
      origin. */
  function SquareSide(k: nat): Line
    requires k < 4
  {
    if k == 0 then Line(At(0.0, 0.0), At(1.0, 0.0))
    else if k == 1 then Line(At(1.0, 0.0), At(1.0, 1.0))
    else if k == 2 then Line(At(1.0, 1.0), At(0.0, 1.0))
    else Line(At(0.0, 1.0), At(0.0, 0.0))
  }

  /** The closed unit square a, b, c, d given as a, c, d, b: the loop
      attaches d and then c before a, so the chain starts at c, not at a. */
  lemma ClosedSquareRotates()
    ensures var a, b, c, d := SquareSide(0), SquareSide(1), SquareSide(2), SquareSide(3);
      OrderFrom([a], [c, d, b]) == Ok([c, d, a, b])
  {
    SquareFirstPass();
    SquareSecondPass();
    SquareLastPass();
  }

  lemma SquareFirstPass()
    ensures var a, b, c, d := SquareSide(0), SquareSide(1), SquareSide(2), SquareSide(3);
      OrderFrom([a], [c, d, b]) == OrderFrom([d, a], [c, b])
  {
    var a, b, c, d := SquareSide(0), SquareSide(1), SquareSide(2), SquareSide(3);
    assert Branch(c, a.start, a.end) == 0;
    assert Branch(d, a.start, a.end) == 2 && RemoveAt([c, d, b], 1) == [c, b];
    assert Attach([a], [c, d, b], 1) == ([d] + [a], [c, b]) && [d] + [a] == [d, a];
    OrderStep([a], [c, d, b], 1, ([d, a], [c, b]));
  }

  lemma SquareSecondPass()
    ensures var a, b, c, d := SquareSide(0), SquareSide(1), SquareSide(2), SquareSide(3);
      OrderFrom([d, a], [c, b]) == OrderFrom([c, d, a], [b])
  {
    var a, b, c, d := SquareSide(0), SquareSide(1), SquareSide(2), SquareSide(3);
    assert Branch(c, d.start, a.end) == 2 && RemoveAt([c, b], 0) == [b];
    assert Attach([d, a], [c, b], 0) == ([c] + [d, a], [b]) && [c] + [d, a] == [c, d, a];
    OrderStep([d, a], [c, b], 0, ([c, d, a], [b]));
  }

  lemma SquareLastPass()
    ensures var a, b, c, d := SquareSide(0), SquareSide(1), SquareSide(2), SquareSide(3);
      OrderFrom([c, d, a], [b]) == Ok([c, d, a, b])
  {
    var a, b, c, d := SquareSide(0), SquareSide(1), SquareSide(2), SquareSide(3);
    assert Branch(b, c.start, a.end) == 1 && RemoveAt([b], 0) == [];
    assert Attach([c, d, a], [b], 0) == ([c, d, a] + [b], []) && [c, d, a] + [b] == [c, d, a, b];
    OrderStep([c, d, a], [b], 0, ([c, d, a, b], []));
  }

  /** Keeps the lines of a list of Line entities. */
  function LinesOf(es: seq<Entity>): (ls: seq<Line>)
    requires forall i :: 0 <= i < |es| ==> es[i].LineEntity?
    ensures |ls| == |es| && forall i :: 0 <= i < |es| ==> ls[i] == es[i].line
  {
    seq(|es|, i requires 0 <= i < |es| => es[i].line)
  }

  /** `__read_dxf_elements` for a drawing of lines: any entity other than a
      Line, Arc or LWPolyline is refused; the lines are then ordered. */
  method ReadDxfElements(entities: seq<Entity>) returns (r: Result<seq<Line>, DxfError>)
    requires forall i :: 0 <= i < |entities| ==> !entities[i].ArcEntity? && !entities[i].PolylineEntity?
    ensures (exists i :: 0 <= i < |entities| && entities[i].OtherEntity?) <==> r == Err(UnsupportedElement)
    ensures r.Ok? ==> var lines := LinesOf(entities);
      && |entities| > 0
      && Chained(r.value)
      && |r.value| == |entities|
      && multiset(Ends(r.value)) == multiset(Ends(lines))
      && lines[0] in r.value
    ensures |entities| == 0 ==> r == Err(IndexError)
    ensures r == Err(NotConnected) ==> Stuck(LinesOf(entities))
    ensures (forall i :: 0 <= i < |entities| ==> entities[i].LineEntity?) && |entities| > 0 && Chained(LinesOf(entities)) ==>
      r == Ok(LinesOf(entities))
    ensures (forall i :: 0 <= i < |entities| ==> entities[i].LineEntity?) && |entities| > 0 ==>
      r == OrderFrom([LinesOf(entities)[0]], LinesOf(entities)[1..])
  {
    var elements: seq<Line> := [];
    var i := 0;
    while i < |entities|
      invariant 0 <= i <= |entities|
      invariant forall k :: 0 <= k < i ==> entities[k].LineEntity?
      invariant elements == LinesOf(entities[..i])
    {
      if entities[i].LineEntity? {
        assert entities[..i + 1][..i] == entities[..i];
        LinesOfSnoc(entities[..i], entities[i]);
        assert entities[..i + 1] == entities[..i] + [entities[i]];
        elements := elements + [entities[i].line];
      } else {
        return Err(UnsupportedElement);
      }
      i := i + 1;
    }
    assert entities[..i] == entities;
    r := OrderLines(elements);
  }

  lemma LinesOfSnoc(es: seq<Entity>, e: Entity)
    requires forall i :: 0 <= i < |es| ==> es[i].LineEntity?
    requires e.LineEntity?
    ensures LinesOf(es + [e]) == LinesOf(es) + [e.line]
  {
    var all := es + [e];
    var a, b := LinesOf(all), LinesOf(es) + [e.line];
    forall i | 0 <= i < |a|
      ensures a[i] == b[i]
    {
      if i < |es| {
        assert all[i] == es[i];
      }
    }
  }

  /** The distance between two points of the plane. */
  function PlaneDistance(dx: real, dy: real, m: MathLib): real
  {
    m.sqrt(dx * dx + dy * dy)
  }

  /** `get_start_angle` of a Line: its direction. */
  function LineStartAngle(l: Line, m: MathLib): real
  {
    m.atan2(l.end.y - l.start.y, l.end.x - l.start.x)
  }

  /** The straight a Line becomes: as long as the line's projection on the
      plane. */
  function LineStraight(l: Line, m: MathLib): PathElement
  {
    Straight(PlaneDistance(l.end.x - l.start.x, l.end.y - l.start.y, m))
  }

  /** `read_dxf` for a drawing of lines: a Start at the first line's start
      point, heading along it, then one Straight per line in chain order, as
      long as the line. The ordered chain is returned as a ghost result. */

  method ReadDxf(entities: seq<Entity>, m: MathLib) returns (r: Result<seq<PathElement>, DxfError>, ghost ordered: seq<Line>)
    requires forall i :: 0 <= i < |entities| ==> !entities[i].ArcEntity? && !entities[i].PolylineEntity?
    ensures (exists i :: 0 <= i < |entities| && entities[i].OtherEntity?) <==> r == Err(UnsupportedElement)
    ensures |entities| == 0 ==> r == Err(IndexError)
    ensures r.Ok? ==> var lines := LinesOf(entities);
      && |entities| > 0
      && |ordered| == |entities|
      && Chained(ordered)
      && multiset(Ends(ordered)) == multiset(Ends(lines))
      && lines[0] in ordered
      && |r.value| == |entities| + 1
      && r.value[0] == Start(Point(ordered[0].start.x, ordered[0].start.y), LineStartAngle(ordered[0], m))
      && forall i :: 0 <= i < |ordered| ==> r.value[i + 1] == LineStraight(ordered[i], m)
    ensures r == Err(NotConnected) ==> Stuck(LinesOf(entities))
    ensures (forall i :: 0 <= i < |entities| ==> entities[i].LineEntity?) && |entities| > 0 && Chained(LinesOf(entities)) ==>
      r.Ok? && ordered == LinesOf(entities)
    ensures (forall i :: 0 <= i < |entities| ==> entities[i].LineEntity?) && |entities| > 0 ==>
      var o := OrderFrom([LinesOf(entities)[0]], LinesOf(entities)[1..]);
      && (o.Err? ==> r == Err(o.error))
      && (o.Ok? ==> r.Ok? && ordered == o.value)
  {
    var elements := ReadDxfElements(entities);
    if elements.Err? {
      return Err(elements.error), [];
    }
    ordered := elements.value;
    var path := PathOfLines(elements.value, m);
    return Ok(path), ordered;
  }

  /** The path `read_dxf` builds from the ordered lines: a Start at the
      first line's start point, heading along it, then one Straight per
      line. */
  method PathOfLines(lines: seq<Line>, m: MathLib) returns (path: seq<PathElement>)
    requires |lines| > 0
    ensures |path| == |lines| + 1
    ensures path[0] == Start(Point(lines[0].start.x, lines[0].start.y), LineStartAngle(lines[0], m))
    ensures forall i :: 0 <= i < |lines| ==> path[i + 1] == LineStraight(lines[i], m)
  {
    var first := lines[0];
    path := [Start(Point(first.start.x, first.start.y), LineStartAngle(first, m))];
    var i := 0;
    while i < |lines|
      invariant 0 <= i <= |lines|
      invariant |path| == i + 1
      invariant path[0] == Start(Point(first.start.x, first.start.y), LineStartAngle(first, m))
      invariant forall k :: 0 <= k < i ==> path[k + 1] == LineStraight(lines[k], m)
    {
      path := path + [LineStraight(lines[i], m)];
      i := i + 1;
    }
  }

  /** The arc `arc_from_lwpolyline_points` builds between two polyline
      vertices. */
  datatype PolyArc = PolyArc(startPos: Point, endPos: Point, startAngle: real, endAngle: real, radius: real)

  /** The chord length between two polyline vertices. */
  function Chord(p0: Vertex, p1: Vertex, m: MathLib): real
  {
    PlaneDistance(p1.x - p0.x, p1.y - p0.y, m)
  }

  /** `arc_from_lwpolyline_points`. The bulge is first rescaled to the
      sagitta b = |bulge| * d / 2 of the chord of length d. */
  function ArcFromPoints(p0: Vertex, p1: Vertex, m: MathLib): Result<PolyArc, DxfError>
  {
    var dx := p1.x - p0.x;
    var dy := p1.y - p0.y;
    var d := PlaneDistance(dx, dy, m);
    if p0.bulge == 0.0 then Err(ZeroBulge)
    else
      var bulgeSign := if p0.bulge < 0.0 then -1.0 else 1.0;
      var b := Sagitta(Abs(p0.bulge), d);
      if 2.0 * b == 0.0 then Err(ZeroDivision)
      else
        var arcRadius := RadiusFromSagitta(b, d);
        if 2.0 * (arcRadius - b) == 0.0 then Err(ZeroDivision)
        else
          var arcAngle := 2.0 * m.atan(d / (2.0 * (arcRadius - b)));
          var lineAngle := m.atan2(dy, dx);
          var startAngle := lineAngle + bulgeSign * (Pi / 2.0 - arcAngle / 2.0) + Pi;
          var endAngle := startAngle - bulgeSign * arcAngle;
          Ok(PolyArc(Point(p0.x, p0.y), Point(p1.x, p1.y), startAngle, endAngle, arcRadius))
  }

  /** The sagitta of a chord of length d for a bulge of magnitude a. */
  function Sagitta(a: real, d: real): real
  {
    a * d / 2.0
  }

  /** The radius of the circle through the chord's ends and the sagitta's top. */
  function RadiusFromSagitta(b: real, d: real): real
    requires b != 0.0
  {
    (b * b + d * d / 4.0) / (2.0 * b)
  }

  /** The same radius in closed form: d * (a^2 + 1) / (4 * a). */
  function ClosedRadius(a: real, d: real): real
    requires a != 0.0
  {
    d * (a * a + 1.0) / (4.0 * a)
  }

  /** The argument of the angle's atan in closed form: 2 * a / (1 - a^2). */
  function BulgeArgument(a: real): real
    requires a * a != 1.0
  {
    2.0 * a / (1.0 - a * a)
  }

  /** The angle `arc_from_lwpolyline_points` gives an arc of this bulge. */
  function BulgeAngle(bulge: real, m: MathLib): real
    requires Abs(bulge) != 1.0
  {
    SquareIsOne(Abs(bulge));
    2.0 * m.atan(BulgeArgument(Abs(bulge)))
  }

  lemma PositiveProduct(x: real, y: real)
    requires x > 0.0 && y > 0.0
    ensures x * y > 0.0
  {
  }

  lemma PositiveQuotient(x: real, y: real)
    requires x > 0.0 && y > 0.0
    ensures x / y > 0.0
  {
    assert (x / y) * y == x;
  }

  lemma SquareIsOne(a: real)
    requires a >= 0.0
    ensures a * a == 1.0 <==> a == 1.0
  {
    if a < 1.0 {
      var p, q := 1.0 - a, a + 1.0;
      PositiveProduct(p, q);
      assert p * q == 1.0 - a * a;
    } else if a > 1.0 {
      var p, q := a - 1.0, a + 1.0;
      PositiveProduct(p, q);
      assert p * q == a * a - 1.0;
    }
  }

  /** With a bulge of magnitude a > 0 and a chord of length d != 0, the
      sagitta b = a * d / 2 is not 0, the radius (b^2 + d^2 / 4) / (2 * b)
      is d * (a^2 + 1) / (4 * a), and it exceeds the sagitta by
      d * (1 - a^2) / (4 * a). */
  lemma SagittaRadius(a: real, d: real)
    requires a > 0.0 && d != 0.0
    ensures Sagitta(a, d) != 0.0
    ensures RadiusFromSagitta(Sagitta(a, d), d) == ClosedRadius(a, d)
    ensures RadiusFromSagitta(Sagitta(a, d), d) - Sagitta(a, d) == d * (1.0 - a * a) / (4.0 * a)
  {
    var b := Sagitta(a, d);
    var ad := a * d;
    NonzeroProduct(a, d);
    assert 2.0 * b == ad;
    var k := a * a + 1.0;
    var n := b * b + d * d / 4.0;
    assert b * b == ad * ad / 4.0;
    assert ad * ad == a * a * (d * d);
    assert n == (d * d) * k / 4.0;
    var x := ClosedRadius(a, d);
    assert x * (4.0 * a) == d * k;
    assert x * ad == (x * (4.0 * a)) * d / 4.0;
    assert x * ad == n;
    DivUnique(n, ad, x);
    assert RadiusFromSagitta(b, d) == x;
    assert x - b == d * (1.0 - a * a) / (4.0 * a);
  }

  lemma NonzeroProduct(x: real, y: real)
    requires x != 0.0 && y != 0.0
    ensures x * y != 0.0
  {
  }

  lemma DivUnique(n: real, den: real, x: real)
    requires den != 0.0 && x * den == n
    ensures n / den == x
  {
  }

  /** The closed-form radius has the sign of the chord. */
  lemma ClosedRadiusPositive(a: real, d: real)
    requires a > 0.0 && d > 0.0
    ensures ClosedRadius(a, d) > 0.0
  {
    var p, q := d, a * a + 1.0;
    PositiveProduct(p, q);
    PositiveQuotient(p * q, 4.0 * a);
  }

  /** d / (2 * (radius - b)) is 2 * a / (1 - a^2) when a^2 != 1. */
  lemma AtanArgument(a: real, d: real, excess: real)
    requires a > 0.0 && d != 0.0 && a * a != 1.0
    requires excess == d * (1.0 - a * a) / (4.0 * a)
    ensures 2.0 * excess != 0.0
    ensures d / (2.0 * excess) == 2.0 * a / (1.0 - a * a)
  {
    var k := 1.0 - a * a;
    assert d * k != 0.0;
    assert 2.0 * excess == d * k / (2.0 * a);
    var q := 2.0 * a / k;
    assert q * (d * k / (2.0 * a)) == d;
  }

  /** The sagitta and radius arithmetic of `arc_from_lwpolyline_points` in
      closed form, for a bulge magnitude other than 0 and 1 and a chord
      d != 0. */
  lemma RadiusClosedForm(a: real, d: real)
    requires a > 0.0 && d != 0.0 && a != 1.0
    ensures var b := Sagitta(a, d);
      && a * a != 1.0
      && b != 0.0
      && RadiusFromSagitta(b, d) - b != 0.0
      && RadiusFromSagitta(b, d) == ClosedRadius(a, d)
      && (d > 0.0 ==> RadiusFromSagitta(b, d) > 0.0)
      && d / (2.0 * (RadiusFromSagitta(b, d) - b)) == BulgeArgument(a)
  {
    SquareIsOne(a);
    SagittaRadius(a, d);
    var b := Sagitta(a, d);
    AtanArgument(a, d, RadiusFromSagitta(b, d) - b);
    if d > 0.0 {
      ClosedRadiusPositive(a, d);
    }
  }

  /** The arc is refused for a zero bulge (checked first), for vertices that
      coincide, and for a bulge of +-1 (a half circle, where the angle formula
      divides by zero). */
  lemma ArcFromPointsRefuses(p0: Vertex, p1: Vertex, m: MathLib)
    ensures p0.bulge == 0.0 ==> ArcFromPoints(p0, p1, m) == Err(ZeroBulge)
    ensures p0.bulge != 0.0 && Chord(p0, p1, m) == 0.0 ==> ArcFromPoints(p0, p1, m) == Err(ZeroDivision)
    ensures p0.bulge != 0.0 && Chord(p0, p1, m) != 0.0 && Abs(p0.bulge) == 1.0 ==>
      ArcFromPoints(p0, p1, m) == Err(ZeroDivision)
  {
    var d := Chord(p0, p1, m);
    var a := Abs(p0.bulge);
    if p0.bulge != 0.0 && d != 0.0 && a == 1.0 {
      SagittaRadius(a, d);
      assert d * (1.0 - a * a) == 0.0;
    }
  }

  /** The arc built when neither division is by zero. */
  lemma ArcFromPointsOk(p0: Vertex, p1: Vertex, m: MathLib)
    requires p0.bulge != 0.0
    requires var b := Sagitta(Abs(p0.bulge), Chord(p0, p1, m));
      b != 0.0 && RadiusFromSagitta(b, Chord(p0, p1, m)) - b != 0.0
    ensures var d := Chord(p0, p1, m);
      var b := Sagitta(Abs(p0.bulge), d);
      var radius := RadiusFromSagitta(b, d);
      var arcAngle := 2.0 * m.atan(d / (2.0 * (radius - b)));
      var r := ArcFromPoints(p0, p1, m);
      && r.Ok?
      && r.value.startPos == Point(p0.x, p0.y) && r.value.endPos == Point(p1.x, p1.y)
      && r.value.radius == radius
      && r.value.startAngle - r.value.endAngle == (if p0.bulge < 0.0 then -arcAngle else arcAngle)
  {
  }

  /** Otherwise the arc exists. It joins the two vertices, its radius is
      d * (a^2 + 1) / (4 * a) for the chord length d and a = |bulge|
      (positive when d is), and it turns from its start angle to its end
      angle through the bulge's angle, clockwise for a negative bulge. */
  lemma ArcFromPointsRadius(p0: Vertex, p1: Vertex, m: MathLib)
    requires p0.bulge != 0.0 && Chord(p0, p1, m) != 0.0 && Abs(p0.bulge) != 1.0
    ensures ArcFromPoints(p0, p1, m).Ok?
    ensures ArcFromPoints(p0, p1, m).value.startPos == Point(p0.x, p0.y)
    ensures ArcFromPoints(p0, p1, m).value.endPos == Point(p1.x, p1.y)
    ensures ArcFromPoints(p0, p1, m).value.radius == ClosedRadius(Abs(p0.bulge), Chord(p0, p1, m))
    ensures Chord(p0, p1, m) > 0.0 ==> ArcFromPoints(p0, p1, m).value.radius > 0.0
    ensures var arc := ArcFromPoints(p0, p1, m).value;
      arc.startAngle - arc.endAngle == if p0.bulge < 0.0 then -BulgeAngle(p0.bulge, m) else BulgeAngle(p0.bulge, m)
  {
    var d := Chord(p0, p1, m);
    var a := Abs(p0.bulge);
    RadiusClosedForm(a, d);
    ArcFromPointsOk(p0, p1, m);
    var b := Sagitta(a, d);
    var x := d / (2.0 * (RadiusFromSagitta(b, d) - b));
    assert x == BulgeArgument(a);
  }

  /** Beyond a half circle (|bulge| > 1) the atan argument of the angle is
      negative, so an odd, increasing atan yields a negative arc angle. */
  lemma ArcAngleArgumentBeyondHalfCircle(a: real)
    requires a > 1.0
    ensures a * a != 1.0 && BulgeArgument(a) < 0.0
  {
    SquareIsOne(a);
    var p, q := a - 1.0, a + 1.0;
    PositiveProduct(p, q);
    assert p * q == a * a - 1.0;
    var k := 1.0 - a * a;
    var r := 2.0 * a / k;
    assert r * k == 2.0 * a;
    if r >= 0.0 {
      PositiveProduct(-k, 2.0 * a);
    }
  }

  /** The path element segment i of a polyline becomes: a Straight as long
      as the chord for a zero bulge, otherwise a Curve through the angle
      between the arc's start and end angles, with the arc's radius. */
  function Segment(pl: Polyline, i: nat, m: MathLib): (r: Result<PathElement, DxfError>)
    requires i < |pl.vertices|
    ensures var start := pl.vertices[i];
      var end := pl.vertices[(i + 1) % |pl.vertices|];
      && (start.bulge == 0.0 ==> r == Ok(Straight(PlaneDistance(start.x - end.x, start.y - end.y, m))))
      && (start.bulge != 0.0 ==> (r.Ok? <==> ArcFromPoints(start, end, m).Ok?))
      && (start.bulge != 0.0 && r.Ok? ==>
            var arc := ArcFromPoints(start, end, m).value;
            r.value == Curve(arc.startAngle - arc.endAngle, arc.radius))
  {
    var start := pl.vertices[i];
    var end := pl.vertices[(i + 1) % |pl.vertices|];
    if start.bulge == 0.0 then
      var dx := start.x - end.x;
      var dy := start.y - end.y;
      Ok(Straight(PlaneDistance(dx, dy, m)))
    else
      match ArcFromPoints(start, end, m)
      case Err(e) => Err(e)
      case Ok(arc) => Ok(Curve(arc.startAngle - arc.endAngle, arc.radius))
  }

  /** How many segments `reduce_lw_polyline` visits: one per vertex for a
      closed polyline, one fewer for an open one. */
  function SegmentCount(pl: Polyline): (n: nat)
    ensures pl.isClosed ==> n == |pl.vertices|
    ensures !pl.isClosed ==> n == if |pl.vertices| == 0 then 0 else |pl.vertices| - 1
  {
    if pl.isClosed then |pl.vertices|
    else if |pl.vertices| == 0 then 0
    else |pl.vertices| - 1
  }

  /** `reduce_lw_polyline`. A polyline carrying the `reversed` attribute
      fails, because the flag shadows the builtin `reversed`. */
  method ReduceLwPolyline(pl: Polyline, m: MathLib) returns (r: Result<seq<PathElement>, DxfError>)
    ensures pl.reversed ==> r == Err(NotCallable)
    ensures !pl.reversed ==>
      (r.Ok? <==> forall i :: 0 <= i < SegmentCount(pl) ==> Segment(pl, i, m).Ok?)
    ensures r.Ok? ==>
      && |r.value| == SegmentCount(pl)
      && forall i :: 0 <= i < |r.value| ==> Ok(r.value[i]) == Segment(pl, i, m)
    ensures r.Err? && !pl.reversed ==>
      exists i :: 0 <= i < SegmentCount(pl) && Segment(pl, i, m) == Err(r.error)
  {
    var reversed := pl.reversed;
    var count := SegmentCount(pl);
    if reversed {
      return Err(NotCallable);
    }
    var result: seq<PathElement> := [];
    var i := 0;
    while i < count
      invariant 0 <= i <= count
      invariant |result| == i
      invariant forall k :: 0 <= k < i ==> Ok(result[k]) == Segment(pl, k, m)
    {
      var segment := Segment(pl, i, m);
      if segment.Err? {
        return Err(segment.error);
      }
      result := result + [segment.value];
      i := i + 1;
    }
    return Ok(result);
  }

  /** A reversed open polyline of two vertices joined by a straight segment:
      every segment converts, yet `reduce_lw_polyline` refuses it. */
  lemma ReversedPolylineConverts(m: MathLib)
    ensures var pl := Polyline([Vertex(0.0, 0.0, 0.0, 0.0, 0.0), Vertex(1.0, 0.0, 0.0, 0.0, 0.0)], false, true);
      && pl.reversed
      && SegmentCount(pl) == 1
      && Segment(pl, 0, m) == Ok(Straight(PlaneDistance(-1.0, 0.0, m)))
  {
  }

  /** The segment's path element run the other way: a curve turns back. */
  function Backwards(e: PathElement): (r: PathElement)
    ensures r.Length() == e.Length()
    ensures e.Curve? ==> r == Curve(-e.angle, e.radius)
    ensures !e.Curve? ==> r == e
  {
    if e.Curve? then e.(angle := -e.angle) else e
  }

  /** The segment visited k-th: from the last one back for a reversed
      polyline. */
  function Visit(pl: Polyline, k: nat): (i: nat)
    requires k < SegmentCount(pl)
    ensures i < SegmentCount(pl)
    ensures !pl.reversed ==> i == k
    ensures pl.reversed ==> i == SegmentCount(pl) - 1 - k
  {
    if pl.reversed then SegmentCount(pl) - 1 - k else k
  }

  /** What the k-th visited segment should become. */
  function Converted(pl: Polyline, k: nat, m: MathLib): Result<PathElement, DxfError>
    requires k < SegmentCount(pl)
  {
    var s := Segment(pl, Visit(pl, k), m);
    if s.Ok? && pl.reversed then Ok(Backwards(s.value)) else s
  }

  /** Visiting is its own inverse, so every segment is visited exactly once;
      a visited segment converts exactly when it converts on its own. */
  lemma VisitOnce(pl: Polyline, k: nat, m: MathLib)
    requires k < SegmentCount(pl)
    ensures Visit(pl, Visit(pl, k)) == k
    ensures Converted(pl, k, m).Ok? <==> Segment(pl, Visit(pl, k), m).Ok?
  {
  }

  /** `reduce_lw_polyline` as evidently intended: a reversed polyline is
      walked from its last segment to its first, each curve turning the other
      way; an unreversed one as before. It fails with the error of the first
      visited segment that does not convert. */
  method ReduceLwPolylineCorrected(pl: Polyline, m: MathLib) returns (r: Result<seq<PathElement>, DxfError>)
    ensures r.Ok? <==> forall k :: 0 <= k < SegmentCount(pl) ==> Converted(pl, k, m).Ok?
    ensures r.Ok? ==>
      && |r.value| == SegmentCount(pl)
      && forall k :: 0 <= k < |r.value| ==> Ok(r.value[k]) == Converted(pl, k, m)
    ensures r.Err? ==> exists k :: 0 <= k < SegmentCount(pl) && Converted(pl, k, m) == Err(r.error)
  {
    var count := SegmentCount(pl);
    var result: seq<PathElement> := [];
    var k := 0;
    while k < count
      invariant 0 <= k <= count
      invariant |result| == k
      invariant forall j :: 0 <= j < k ==> Ok(result[j]) == Converted(pl, j, m)
    {
      var segment := Segment(pl, Visit(pl, k), m);
      if segment.Err? {
        assert Converted(pl, k, m) == segment;
        return Err(segment.error);
      }
      result := result + [if pl.reversed then Backwards(segment.value) else segment.value];
      k := k + 1;
    }
    return Ok(result);
  }

  /** For a polyline that is not reversed, the corrected reduction converts
      the same segments in the same order as `reduce_lw_polyline`. */
  lemma CorrectedAgreesUnreversed(pl: Polyline, k: nat, m: MathLib)
    requires !pl.reversed && k < SegmentCount(pl)
    ensures Converted(pl, k, m) == Segment(pl, k, m)
  {
  }

  /** Reading a polyline backwards twice gives its segments back. */
  lemma BackwardsTwice(e: PathElement)
    ensures Backwards(Backwards(e)) == e
  {
  }
}
