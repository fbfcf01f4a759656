/** Points of the plane and the orientation (turn-direction) test of the
    monotone-chain hull. The source stores a point as a complex number whose
    real part is x and whose imaginary part is y; here coordinates are exact
    integers, so the orientation test has no rounding. */
module Geometry {

  datatype Point = Point(x: int, y: int)

  /** Vector from b to a (complex subtraction a - b). */
  function Sub(a: Point, b: Point): Point {
    Point(a.x - b.x, a.y - b.y)
  }

  /** Complex conjugate. */
  function Conj(a: Point): Point {
    Point(a.x, -a.y)
  }

  /** Complex product, with x as the real and y as the imaginary part. */
  function Mul(a: Point, b: Point): Point {
    Point(a.x * b.x - a.y * b.y, a.x * b.y + a.y * b.x)
  }

  /** z-component of the cross product u × v. */
  function Cross(u: Point, v: Point): int {
    u.x * v.y - u.y * v.x
  }

  /** The source computes the cross product as the imaginary part of
      conj(u)·v; that is the same number. */
  lemma CrossIsConjugateProduct(u: Point, v: Point)
    ensures Cross(u, v) == Mul(Conj(u), v).y
  {
  }

  /** Cross product of the edge a→b with the following edge b→c: twice the
      signed area of the triangle a, b, c. Positive means a left
      (counter-clockwise) turn, zero a straight line, negative a right turn. */
  function Orientation(a: Point, b: Point, c: Point): int {
    Cross(Sub(b, a), Sub(c, b))
  }

  /** The orientation in coordinates, and the same value measured with both
      edges from a (the usual signed-area form). */
  lemma OrientationIsSignedArea(a: Point, b: Point, c: Point)
    ensures Orientation(a, b, c) == (b.x - a.x) * (c.y - b.y) - (b.y - a.y) * (c.x - b.x)
    ensures Orientation(a, b, c) == Cross(Sub(b, a), Sub(c, a))
  {
  }

  /** The pruning test of the sweep: the turn a→b→c is not strictly left. */
  predicate InvalidOrientation(a: Point, b: Point, c: Point) {
    Orientation(a, b, c) <= 0
  }

  /** Rotating the three points does not change the signed area. */
  lemma OrientationRotate(a: Point, b: Point, c: Point)
    ensures Orientation(a, b, c) == Orientation(b, c, a)
    ensures Orientation(a, b, c) == Orientation(c, a, b)
  {
  }

  /** Swapping two points negates the signed area; so reversing the
      direction of travel turns a left turn into a right turn. */
  lemma OrientationSwap(a: Point, b: Point, c: Point)
    ensures Orientation(a, c, b) == -Orientation(a, b, c)
    ensures Orientation(c, b, a) == -Orientation(a, b, c)
    ensures Orientation(b, a, c) == -Orientation(a, b, c)
  {
  }

  /** Two equal consecutive points make the triple degenerate, hence an
      invalid turn: the sweep pops a point equal to the candidate. */
  lemma RepeatedPointIsInvalid(a: Point, b: Point)
    ensures Orientation(a, a, b) == 0
    ensures Orientation(a, b, b) == 0
  {
    assert Sub(a, a) == Point(0, 0) && Sub(b, b) == Point(0, 0);
    assert Cross(Point(0, 0), Sub(b, a)) == 0;
    assert Cross(Sub(b, a), Point(0, 0)) == 0;
  }

  /** Going from a to b and straight back to a is not a turn. */
  lemma BackTrackIsStraight(a: Point, b: Point)
    ensures Orientation(a, b, a) == 0
  {
    var d := Sub(b, a);
    assert Sub(a, b) == Point(-d.x, -d.y);
  }

  /** Three points on one horizontal or one vertical line make no turn. */
  lemma AxisLineIsStraight(a: Point, b: Point, c: Point)
    requires (a.y == b.y && b.y == c.y) || (a.x == b.x && b.x == c.x)
    ensures Orientation(a, b, c) == 0
  {
  }

  /** Any point c on the line through a and b (b − a and c − a are
      parallel) makes an invalid turn after a, b, whichever side of the
      segment it lies on. */
  lemma CollinearIsInvalid(a: Point, b: Point, c: Point)
    requires Cross(Sub(b, a), Sub(c, a)) == 0
    ensures InvalidOrientation(a, b, c)
  {
    OrientationIsSignedArea(a, b, c);
  }
}
