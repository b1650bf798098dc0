/** The value types that describe a guide path and one cycle of a pattern
    (curvycad/types.py). */
module PathTypes {

  /** A point of the board plane, in millimetres. */
  datatype Point = Point(x: real, y: real)

  /** A KiCad layer identifier (pcbnew.F_Cu, pcbnew.B_Cu, ...). */
  type Layer = int

  /** `np.pi` and `math.pi` as a double. */
  const Pi: real := 3.141592653589793

  function Abs(x: real): real
  {
    if x < 0.0 then -x else x
  }

  /** One element of a guide path: where it starts, a straight run, or a
      circular arc turning by `angle` radians with the given radius. */
  datatype PathElement =
    | Start(location: Point, theta: real)
    | Straight(length: real)
    | Curve(angle: real, radius: real)
  {
    /** The `length` property of each element class. */
    function Length(): real
    {
      match this
      case Start(_, _) => 0.0
      case Straight(length) => length
      case Curve(angle, radius) => Abs(angle) * radius
    }
  }

  /** The `length` setter of Straight: a plain write of the stored length. */
  function SetLength(s: PathElement, val: real): (r: PathElement)
    requires s.Straight?
    ensures r.Straight?
  {
    s.(length := val)
  }

  /** One element of the repeating pattern. Longitudinal positions are
      fractions of a cycle (nominally 0 to 1), transverse ones are millimetres.
      The constructors store their arguments unchanged and check nothing. */
  datatype PatternElement =
    | ParallelLine(start: real, end: real, offset: real, width: real, layer: Layer)
    | TransverseLine(start: real, end: real, offset: real, width: real, layer: Layer)
    | Via(distance: real, transverse: real, drill: real, pad: real)

  /** The Via constructor with its default drill and pad diameters. */
  function NewVia(distance: real, transverse: real, drill: real := 0.3, pad: real := 0.6): (v: PatternElement)
    ensures v.Via? && v.distance == distance && v.transverse == transverse
    ensures v.drill == drill && v.pad == pad
  {
    Via(distance, transverse, drill, pad)
  }

  lemma StartHasNoLength(location: Point, theta: real)
    ensures Start(location, theta).Length() == 0.0
  {
  }

  /** Reading the length back returns exactly what was last assigned, both
      through the constructor and through the setter. */
  lemma StraightLengthRoundTrip(length: real, val: real)
    ensures Straight(length).Length() == length
    ensures SetLength(Straight(length), val).Length() == val
    ensures SetLength(SetLength(Straight(length), val), length) == Straight(length)
  {
  }

  /** The length of a curve does not depend on its turning direction, and it
      is never negative for a non-negative radius. */
  lemma CurveLengthIgnoresDirection(angle: real, radius: real)
    ensures Curve(angle, radius).Length() == Curve(-angle, radius).Length()
    ensures radius >= 0.0 ==> Curve(angle, radius).Length() >= 0.0
  {
  }

  lemma ViaDefaults(distance: real, transverse: real)
    ensures NewVia(distance, transverse) == Via(distance, transverse, 0.3, 0.6)
  {
  }

  /** A pattern line whose start lies after its end is accepted as given. */
  lemma PatternConstructorsValidateNothing(start: real, end: real, offset: real, width: real, layer: Layer)
    ensures ParallelLine(start, end, offset, width, layer).start == start
    ensures ParallelLine(start, end, offset, width, layer).end == end
    ensures TransverseLine(start, end, offset, width, layer).offset == offset
  {
  }
}
