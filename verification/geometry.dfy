/**
 * Plane points and segments. Coordinates are exact reals; the square root
 * behind a segment's length is avoided by working with squared lengths.
 */
module Geometry {

  datatype Point = Point(x: real, y: real)

  /** A directed segment, such as the drag gesture from press point to pointer. */
  datatype Line = Line(start: Point, end: Point)

  const Origin: Point := Point(0.0, 0.0)

  /** Squared Euclidean distance between two points. */
  function DistSq(a: Point, b: Point): (d: real)
  {
    (b.x - a.x) * (b.x - a.x) + (b.y - a.y) * (b.y - a.y)
  }

  /** Squared length of a segment. */
  function LengthSq(l: Line): (d: real)
  {
    DistSq(l.start, l.end)
  }

  /** A real square is never negative. */
  lemma SquareNonneg(d: real)
    ensures d * d >= 0.0
  {
    if d < 0.0 {
      assert d * d == (-d) * (-d);
    }
  }

  /** A segment's squared length is never negative. */
  lemma LengthSqNonneg(l: Line)
    ensures LengthSq(l) >= 0.0
  {
    SquareNonneg(l.end.x - l.start.x);
    SquareNonneg(l.end.y - l.start.y);
  }

  /** A degenerate segment, one that starts where it ends, has zero length. */
  lemma DegenerateLengthZero(l: Line)
    requires l.start == l.end
    ensures LengthSq(l) == 0.0
  {
    assert LengthSq(l) == 0.0 * 0.0 + 0.0 * 0.0;
  }
}
