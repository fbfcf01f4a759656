/** Three-point inputs in general, and the concrete inputs of the source's
    unit tests (float coordinates scaled by ten to integers where needed). */
module HullExamples {
  import opened Geometry
  import opened Ordering
  import opened Chains
  import opened Degeneracy
  import opened Hull

  /** The lower chain of three distinct sorted points keeps the middle point
      only on a left turn. */
  lemma SortedTripleLower(a: Point, b: Point, c: Point)
    requires LexLt(a, b) && LexLt(b, c)
    ensures LowerChain([a, b, c]) == if Orientation(a, b, c) > 0 then [a, b, c] else [a, c]
  {
    var s := [a, b, c];
    assert LowerScan(s, 1) == [a];
    assert LowerScan(s, 2) == [a, b];
    if Orientation(a, b, c) <= 0 {
      assert PopWhileInvalid([a], c, 2) == [a];
    }
  }

  /** After a left turn the upper sweep pushes the middle point, pops it
      again for the right turn back to the start, and drops the closing
      start point. */
  lemma SortedTripleUpperAfterLeftTurn(a: Point, b: Point, c: Point)
    requires LexLt(a, b) && LexLt(b, c) && Orientation(a, b, c) > 0
    ensures UpperChain([a, b, c], [a, b, c]) == [a, b, c]
  {
    var s := [a, b, c];
    OrientationSwap(a, b, c);
    assert UpperScan([a, b, c], s, 1) == [a, b, c, b];
    assert PopWhileInvalid([a, b, c], a, 4) == [a, b, c];
    assert UpperScan([a, b, c], s, 2) == [a, b, c, a];
  }

  /** Without a left turn the middle point goes to the upper chain, where it
      stays on a right turn and is popped on a straight line. */
  lemma SortedTripleUpperOtherwise(a: Point, b: Point, c: Point)
    requires LexLt(a, b) && LexLt(b, c) && Orientation(a, b, c) <= 0
    ensures UpperChain([a, c], [a, b, c]) == if Orientation(a, b, c) < 0 then [a, c, b] else [a, c]
  {
    var s := [a, b, c];
    OrientationSwap(a, b, c);
    assert UpperScan([a, c], s, 1) == [a, c, b];
    if Orientation(a, b, c) < 0 {
      assert UpperScan([a, c], s, 2) == [a, c, b, a];
    } else {
      assert PopWhileInvalid([a, c], a, 3) == [a, c];
      assert UpperScan([a, c], s, 2) == [a, c, a];
    }
  }

  /** The candidate for three distinct sorted points: a left turn keeps all
      three on the lower chain, a right turn sends the middle point to the
      upper chain, and a straight line drops the middle point. */
  lemma SortedTripleCandidate(a: Point, b: Point, c: Point)
    requires LexLt(a, b) && LexLt(b, c)
    ensures Candidate([a, b, c]) ==
      if Orientation(a, b, c) > 0 then [a, b, c]
      else if Orientation(a, b, c) < 0 then [a, c, b]
      else [a, c]
  {
    SortPointsCorrect([a, b, c]);
    SortedUnique(SortPoints([a, b, c]), [a, b, c]);
    SortedTripleLower(a, b, c);
    if Orientation(a, b, c) > 0 {
      SortedTripleUpperAfterLeftTurn(a, b, c);
    } else {
      SortedTripleUpperOtherwise(a, b, c);
    }
  }

  /** The hull of three distinct sorted points. */
  lemma SortedTripleHull(a: Point, b: Point, c: Point)
    requires LexLt(a, b) && LexLt(b, c)
    ensures ConvexHull([a, b, c]) ==
      if Orientation(a, b, c) > 0 then Ok([a, b, c])
      else if Orientation(a, b, c) < 0 then Ok([a, c, b])
      else if a.x == c.x || a.y == c.y then Ok([])
      else Ok([a, c])
  {
    SortedTripleCandidate(a, b, c);
    if Orientation(a, b, c) != 0 {
      TurnIsOffAxis(a, b, c);
    }
  }

  /** Three points that make a turn are on no horizontal or vertical line,
      in either order of the last two. */
  lemma TurnIsOffAxis(a: Point, b: Point, c: Point)
    requires Orientation(a, b, c) != 0
    ensures !AllSameY([a, b, c]) && !AllSameX([a, b, c])
    ensures !AllSameY([a, c, b]) && !AllSameX([a, c, b])
  {
    if a.y == b.y && b.y == c.y {
      AxisLineIsStraight(a, b, c);
    }
    if a.x == b.x && b.x == c.x {
      AxisLineIsStraight(a, b, c);
    }
    assert [a, b, c][1] == b && [a, b, c][2] == c;
    assert [a, c, b][1] == c && [a, c, b][2] == b;
  }

  /** Three points given in any order. Three non-collinear points come back
      as exactly those three points, in counter-clockwise order from the
      first in sweep order. Three distinct collinear points come back as the
      two end points, unless the line is horizontal or vertical. */
  lemma ThreePoints(polygon: seq<Point>, a: Point, b: Point, c: Point)
    requires multiset(polygon) == multiset([a, b, c])
    requires LexLt(a, b) && LexLt(b, c)
    ensures Orientation(a, b, c) > 0 ==> ConvexHull(polygon) == Ok([a, b, c])
    ensures Orientation(a, b, c) < 0 ==> ConvexHull(polygon) == Ok([a, c, b])
    ensures Orientation(a, b, c) == 0 ==>
      ConvexHull(polygon) == if a.x == c.x || a.y == c.y then Ok([]) else Ok([a, c])
  {
    PermutationInvariant(polygon, [a, b, c]);
    SortedTripleHull(a, b, c);
  }

  /** The lower chain of two distinct sorted points, one of them doubled:
      the duplicate is skipped and both points are pushed. */
  lemma SortedPairLower(a: Point, b: Point)
    requires LexLt(a, b)
    ensures LowerChain([a, a, b]) == [a, b]
    ensures LowerChain([a, b, b]) == [a, b]
  {
    assert LowerScan([a, a, b], 1) == [a] && LowerScan([a, b, b], 1) == [a];
    assert PopWhileInvalid([a], b, 2) == [a];
    assert LowerScan([a, a, b], 2) == [a];
    assert LowerScan([a, b, b], 2) == [a, b];
  }

  /** The upper sweep over two distinct sorted points, one of them doubled:
      the floor keeps the lower chain, the lesser point is pushed once and
      dropped again by the final pop. */
  lemma SortedPairUpper(a: Point, b: Point)
    requires LexLt(a, b)
    ensures UpperChain([a, b], [a, a, b]) == [a, b]
    ensures UpperChain([a, b], [a, b, b]) == [a, b]
  {
    assert UpperScan([a, b], [a, a, b], 1) == [a, b, a];
    assert UpperScan([a, b], [a, b, b], 1) == [a, b];
    assert UpperScan([a, b], [a, b, b], 2) == [a, b, a];
  }

  /** The candidate of a sorted doubled pair is the pair itself. */
  lemma SortedPairCandidate(a: Point, b: Point, s: seq<Point>)
    requires LexLt(a, b)
    requires s == [a, a, b] || s == [a, b, b]
    ensures Candidate(s) == [a, b]
  {
    SortPointsCorrect(s);
    SortedUnique(SortPoints(s), s);
    SortedPairLower(a, b);
    SortedPairUpper(a, b);
  }

  /** The hull of a sorted doubled pair: the segment, or the empty hull
      when it is horizontal or vertical. */
  lemma SortedPairHull(a: Point, b: Point, s: seq<Point>)
    requires LexLt(a, b)
    requires s == [a, a, b] || s == [a, b, b]
    ensures ConvexHull(s) == if a.x == b.x || a.y == b.y then Ok([]) else Ok([a, b])
  {
    SortedPairCandidate(a, b, s);
    assert [a, b][1] == b;
  }

  /** Three points of which exactly two are equal, in any order, give the
      segment between the two distinct points, or the empty hull when it is
      horizontal or vertical. */
  lemma RepeatedPair(polygon: seq<Point>, a: Point, b: Point)
    requires multiset(polygon) == multiset([a, a, b]) || multiset(polygon) == multiset([a, b, b])
    requires LexLt(a, b)
    ensures ConvexHull(polygon) == if a.x == b.x || a.y == b.y then Ok([]) else Ok([a, b])
  {
    var s := if multiset(polygon) == multiset([a, a, b]) then [a, a, b] else [a, b, b];
    PermutationInvariant(polygon, s);
    SortedPairHull(a, b, s);
  }

  /** Three equal points: the upper sweep's final pop leaves nothing and
      the collinearity scan reads past the end. */
  lemma ThreeIdentical(a: Point)
    ensures ConvexHull([a, a, a]) == Err(IndexPanic)
  {
    IdenticalPointsPanic([a, a, a]);
  }

  /** The message for a rejected input of 0 points. */
  lemma MessageForZero()
    ensures Message(TooFewPoints(0)) == "only 0 Point(s), should be at least 3"
  {
  }

  /** The message for a rejected input of 1 point. */
  lemma MessageForOne()
    ensures Message(TooFewPoints(1)) == "only 1 Point(s), should be at least 3"
  {
  }

  /** The message for a rejected input of 2 points. */
  lemma MessageForTwo()
    ensures Message(TooFewPoints(2)) == "only 2 Point(s), should be at least 3"
  {
  }

  /** The empty-input test. */
  lemma NoPoint()
    ensures ConvexHull([]) == Err(TooFewPoints(0))
    ensures Message(TooFewPoints(0)) == "only 0 Point(s), should be at least 3"
  {
    MessageForZero();
  }

  /** The one-point test. */
  lemma OnePoint()
    ensures ConvexHull([Point(0, 0)]) == Err(TooFewPoints(1))
    ensures Message(TooFewPoints(1)) == "only 1 Point(s), should be at least 3"
  {
    MessageForOne();
  }

  /** The two-point test, (0, 0) and (0.1, 0) scaled by ten. */
  lemma TwoPoints()
    ensures ConvexHull([Point(0, 0), Point(1, 0)]) == Err(TooFewPoints(2))
    ensures Message(TooFewPoints(2)) == "only 2 Point(s), should be at least 3"
  {
    MessageForTwo();
  }

  /** Three or four points on one horizontal line, at every spacing d, give
      the empty hull. */
  lemma PointsColinearHorizontal(d: int)
    requires d > 0
    ensures ConvexHull([Point(0, 0), Point(d, 0), Point(2 * d, 0)]) == Ok([])
    ensures ConvexHull([Point(0, 0), Point(d, 0), Point(2 * d, 0), Point(3 * d, 0)]) == Ok([])
  {
    var p3 := [Point(0, 0), Point(d, 0), Point(2 * d, 0)];
    var p4 := [Point(0, 0), Point(d, 0), Point(2 * d, 0), Point(3 * d, 0)];
    assert p3[1] != p3[0] && p4[1] != p4[0];
    assert AllSameY(p3) && AllSameY(p4);
    AxisCollinearIsEmpty(p3);
    AxisCollinearIsEmpty(p4);
  }

  /** Three or four points on one vertical line, at every spacing d, give
      the empty hull. */
  lemma PointsColinearVertical(d: int)
    requires d > 0
    ensures ConvexHull([Point(0, 0), Point(0, d), Point(0, 2 * d)]) == Ok([])
    ensures ConvexHull([Point(0, 0), Point(0, d), Point(0, 2 * d), Point(0, 3 * d)]) == Ok([])
  {
    var p3 := [Point(0, 0), Point(0, d), Point(0, 2 * d)];
    var p4 := [Point(0, 0), Point(0, d), Point(0, 2 * d), Point(0, 3 * d)];
    assert p3[1] != p3[0] && p4[1] != p4[0];
    assert AllSameX(p3) && AllSameX(p4);
    AxisCollinearIsEmpty(p3);
    AxisCollinearIsEmpty(p4);
  }

  /** Three points on a diagonal line, (0, 0), (1, 1), (2, 2), at every
      scale d: the collinear middle point is pruned and the two end points
      come back, not the empty hull. */
  lemma DiagonalCollinear(d: int)
    requires d > 0
    ensures ConvexHull([Point(0, 0), Point(d, d), Point(2 * d, 2 * d)]) == Ok([Point(0, 0), Point(2 * d, 2 * d)])
  {
    var a, b, c := Point(0, 0), Point(d, d), Point(2 * d, 2 * d);
    assert Orientation(a, b, c) == d * d - d * d == 0;
    ThreePoints([a, b, c], a, b, c);
  }

  /** Feeding a hull back in need not reproduce it: the two end points of a
      diagonal line are a hull, but two points are rejected. */
  lemma DiagonalNotIdempotent()
    ensures ConvexHull([Point(0, 0), Point(1, 1), Point(2, 2)]) == Ok([Point(0, 0), Point(2, 2)])
    ensures ConvexHull(ConvexHull([Point(0, 0), Point(1, 1), Point(2, 2)]).hull) == Err(TooFewPoints(2))
  {
    DiagonalCollinear(1);
  }

  /** The three-point convex test, (0, 0), (1, 0), (0, 1), at every scale d:
      the right triangle comes back as all three points, counter-clockwise. */
  lemma ThreePointsConvex(d: int)
    requires d > 0
    ensures ConvexHull([Point(0, 0), Point(d, 0), Point(0, d)]) == Ok([Point(0, 0), Point(d, 0), Point(0, d)])
  {
    var a, b, c := Point(0, 0), Point(0, d), Point(d, 0);
    assert multiset([a, c, b]) == multiset([a, b, c]);
    assert Orientation(a, b, c) == -(d * d) < 0;
    ThreePoints([a, c, b], a, b, c);
  }

  /** Three points with distinct first two x and y coordinates are on no
      horizontal or vertical line. */
  lemma TriangleOffAxis(a: Point, b: Point, c: Point)
    requires a.x != b.x && a.y != b.y
    ensures !AllSameY([a, b, c]) && !AllSameX([a, b, c])
  {
    assert [a, b, c][1] == b;
  }

  /** The five-point test, sorted. */
  lemma FivePointsSorted()
    ensures SortPoints([Point(41, -6), Point(-24, -74), Point(-51, -6), Point(73, 17), Point(-30, -34)])
         == [Point(-51, -6), Point(-30, -34), Point(-24, -74), Point(41, -6), Point(73, 17)]
  {
  }

  /** The five-point test, lower sweep: (-30, -34) and then (41, -6) are
      popped for right turns. */
  lemma FivePointsLower()
    ensures LowerChain([Point(-51, -6), Point(-30, -34), Point(-24, -74), Point(41, -6), Point(73, 17)])
         == [Point(-51, -6), Point(-24, -74), Point(73, 17)]
  {
    assert LowerScan([Point(-51, -6), Point(-30, -34), Point(-24, -74), Point(41, -6), Point(73, 17)], 2)
        == [Point(-51, -6), Point(-30, -34)];
    assert PopWhileInvalid([Point(-51, -6), Point(-30, -34)], Point(-24, -74), 2) == [Point(-51, -6)];
    assert LowerScan([Point(-51, -6), Point(-30, -34), Point(-24, -74), Point(41, -6), Point(73, 17)], 3)
        == [Point(-51, -6), Point(-24, -74)];
    assert LowerScan([Point(-51, -6), Point(-30, -34), Point(-24, -74), Point(41, -6), Point(73, 17)], 4)
        == [Point(-51, -6), Point(-24, -74), Point(41, -6)];
    assert PopWhileInvalid([Point(-51, -6), Point(-24, -74), Point(41, -6)], Point(73, 17), 2)
        == [Point(-51, -6), Point(-24, -74)];
  }

  /** The five-point test, upper sweep: both interior points are pushed and
      popped again, and the closing start point is dropped. */
  lemma FivePointsUpper()
    ensures UpperChain([Point(-51, -6), Point(-24, -74), Point(73, 17)],
                       [Point(-51, -6), Point(-30, -34), Point(-24, -74), Point(41, -6), Point(73, 17)])
         == [Point(-51, -6), Point(-24, -74), Point(73, 17)]
  {
    assert UpperScan([Point(-51, -6), Point(-24, -74), Point(73, 17)],
                     [Point(-51, -6), Point(-30, -34), Point(-24, -74), Point(41, -6), Point(73, 17)], 1)
        == [Point(-51, -6), Point(-24, -74), Point(73, 17), Point(41, -6)];
    assert UpperScan([Point(-51, -6), Point(-24, -74), Point(73, 17)],
                     [Point(-51, -6), Point(-30, -34), Point(-24, -74), Point(41, -6), Point(73, 17)], 2)
        == [Point(-51, -6), Point(-24, -74), Point(73, 17), Point(41, -6), Point(-24, -74)];
    assert PopWhileInvalid([Point(-51, -6), Point(-24, -74), Point(73, 17), Point(41, -6), Point(-24, -74)], Point(-30, -34), 4)
        == [Point(-51, -6), Point(-24, -74), Point(73, 17)];
    assert UpperScan([Point(-51, -6), Point(-24, -74), Point(73, 17)],
                     [Point(-51, -6), Point(-30, -34), Point(-24, -74), Point(41, -6), Point(73, 17)], 3)
        == [Point(-51, -6), Point(-24, -74), Point(73, 17), Point(-30, -34)];
    assert PopWhileInvalid([Point(-51, -6), Point(-24, -74), Point(73, 17), Point(-30, -34)], Point(-51, -6), 4)
        == [Point(-51, -6), Point(-24, -74), Point(73, 17)];
    assert UpperScan([Point(-51, -6), Point(-24, -74), Point(73, 17)],
                     [Point(-51, -6), Point(-30, -34), Point(-24, -74), Point(41, -6), Point(73, 17)], 4)
        == [Point(-51, -6), Point(-24, -74), Point(73, 17), Point(-51, -6)];
  }

  /** The five-point test: two points lie inside the triangle of the other
      three, which come back in counter-clockwise order. */
  lemma FivePoints()
    ensures ConvexHull([Point(41, -6), Point(-24, -74), Point(-51, -6), Point(73, 17), Point(-30, -34)])
         == Ok([Point(-51, -6), Point(-24, -74), Point(73, 17)])
  {
    FivePointsSorted();
    FivePointsLower();
    FivePointsUpper();
    assert Candidate([Point(41, -6), Point(-24, -74), Point(-51, -6), Point(73, 17), Point(-30, -34)])
        == [Point(-51, -6), Point(-24, -74), Point(73, 17)];
    TriangleOffAxis(Point(-51, -6), Point(-24, -74), Point(73, 17));
  }
}
