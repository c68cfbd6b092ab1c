/**
 * Points, axis-aligned boundaries and quadrants, over exact reals (the
 * source uses doubles).
 */
module Geometry {
  /** The four quadrants, and the successor getNext gives each (NORTHWEST has none). */
  datatype Quadrant = NorthWest | NorthEast | SouthWest | SouthEast

  datatype Step = Last | Then(q: Quadrant)

  function Next(q: Quadrant): (r: Step)
  {
    match q
    case NorthWest => Last
    case NorthEast => Then(NorthWest)
    case SouthWest => Then(NorthEast)
    case SouthEast => Then(SouthWest)
  }

  /** The quadrants after a given one, in getNext order. */
  function After(q: Quadrant): (r: seq<Quadrant>)
    decreases match q case NorthWest => 0 case NorthEast => 1 case SouthWest => 2 case SouthEast => 3
  {
    match Next(q)
    case Last => []
    case Then(n) => [n] + After(n)
  }

  /** Walking getNext from the iteration start visits SOUTHWEST, NORTHEAST, NORTHWEST: SOUTHEAST itself is never visited. */
  lemma IterationStartSkipsSouthEast()
    ensures After(SouthEast) == [SouthWest, NorthEast, NorthWest]
    ensures SouthEast !in After(SouthEast)
  {
  }

  datatype Point = Point(x: real, y: real)

  /** The no-argument Point2D constructor. */
  const Origin := Point(0.0, 0.0)

  /** localize: the point in coordinates whose (0,0) is `origin`. */
  function Localize(p: Point, origin: Point): (r: Point)
    ensures r.x + origin.x == p.x && r.y + origin.y == p.y
  {
    Point(p.x + -1.0 * origin.x, p.y + -1.0 * origin.y)
  }

  /** getQuadrant: a point on an axis goes north (y = 0) and east (x = 0). */
  function QuadrantOf(p: Point): (q: Quadrant)
    ensures q == NorthEast <==> p.y >= 0.0 && p.x >= 0.0
    ensures q == NorthWest <==> p.y >= 0.0 && p.x < 0.0
    ensures q == SouthEast <==> p.y < 0.0 && p.x >= 0.0
    ensures q == SouthWest <==> p.y < 0.0 && p.x < 0.0
  {
    if p.y >= 0.0 then
      if p.x >= 0.0 then NorthEast else NorthWest
    else
      if p.x >= 0.0 then SouthEast else SouthWest
  }

  /** A boundary: centre (x, y), width and height. */
  datatype Boundry = Boundry(x: real, y: real, width: real, height: real)

  /** The no-argument constructor is all zeros; the two-argument one centres at the origin. */
  const EmptyBoundry := Boundry(0.0, 0.0, 0.0, 0.0)

  function CentredBoundry(width: real, height: real): (b: Boundry)
    ensures b.x == 0.0 && b.y == 0.0 && b.width == width && b.height == height
  {
    Boundry(0.0, 0.0, width, height)
  }

  /** getPosition: the centre. */
  function Position(b: Boundry): (p: Point)
    ensures p.x == b.x && p.y == b.y
  {
    Point(b.x, b.y)
  }

  /** contains: closed bounds, half the width and half the height either side of the centre. */
  predicate Contains(b: Boundry, x: real, y: real)
  {
    var halfWidth := b.width / 2.0;
    var halfHeight := b.height / 2.0;
    (x >= b.x - halfWidth && x <= b.x + halfWidth) && (y >= b.y - halfHeight && y <= b.y + halfHeight)
  }

  predicate ContainsPoint(b: Boundry, p: Point)
  {
    Contains(b, p.x, p.y)
  }

  /** Only a boundary with neither dimension negative contains anything; such a boundary contains its centre. */
  lemma ContainsNeedsExtent(b: Boundry, x: real, y: real)
    ensures Contains(b, x, y) ==> b.width >= 0.0 && b.height >= 0.0
    ensures b.width >= 0.0 && b.height >= 0.0 ==> Contains(b, b.x, b.y)
  {
  }

  /** The subtree boundary for a quadrant: half the size, centred a quarter of the parent's size toward it. */
  function SubBoundry(b: Boundry, q: Quadrant): (s: Boundry)
    ensures s.width == b.width / 2.0 && s.height == b.height / 2.0
    ensures s.x == (if q in {NorthEast, SouthEast} then b.x + b.width / 4.0 else b.x - b.width / 4.0)
    ensures s.y == (if q in {NorthEast, NorthWest} then b.y + b.height / 4.0 else b.y - b.height / 4.0)
  {
    var w := b.width / 2.0;
    var h := b.height / 2.0;
    var qw := b.width / 4.0;
    var qh := b.height / 4.0;
    match q
    case NorthEast => Boundry(b.x + qw, b.y + qh, w, h)
    case NorthWest => Boundry(b.x - qw, b.y + qh, w, h)
    case SouthEast => Boundry(b.x + qw, b.y - qh, w, h)
    case SouthWest => Boundry(b.x - qw, b.y - qh, w, h)
  }

  /** Every point of a subtree's boundary lies in its parent's boundary. */
  lemma SubBoundryInside(b: Boundry, q: Quadrant, x: real, y: real)
    requires Contains(SubBoundry(b, q), x, y)
    ensures Contains(b, x, y)
  {
  }

  /**
   * A point the boundary contains lies in the subtree boundary of the
   * quadrant its localized position falls in, so a descent never fails a
   * bounds check below the first.
   */
  lemma QuadrantOfContainedPoint(b: Boundry, x: real, y: real)
    requires Contains(b, x, y)
    ensures Contains(SubBoundry(b, QuadrantOf(Localize(Point(x, y), Position(b)))), x, y)
  {
  }
}
