/** The degeneracy detector: recognises a candidate hull whose points all lie
    on one horizontal or one vertical line. */
module Degeneracy {
  import opened Geometry

  /** Every point has the y coordinate of the first one. */
  predicate AllSameY(s: seq<Point>) {
    forall i :: 0 <= i < |s| ==> s[i].y == s[0].y
  }

  /** Every point has the x coordinate of the first one. */
  predicate AllSameX(s: seq<Point>) {
    forall i :: 0 <= i < |s| ==> s[i].x == s[0].x
  }

  /** Scans from the second point and stops at the first one off the
      horizontal line through the first point. The source reads the first
      point unconditionally, so the sequence must not be empty. */
  method IsHorizontalColinear(polygon: seq<Point>) returns (colinear: bool)
    requires |polygon| > 0
    ensures colinear <==> AllSameY(polygon)
    ensures !colinear ==> exists i :: 0 < i < |polygon| && polygon[i].y != polygon[0].y
  {
    var originY := polygon[0].y;
    colinear := true;
    var i := 1;
    while i < |polygon|
      invariant 1 <= i <= |polygon|
      invariant forall j :: 0 <= j < i ==> polygon[j].y == originY
    {
      if polygon[i].y != originY {
        colinear := false;
        break;
      }
      i := i + 1;
    }
  }

  /** The vertical counterpart of IsHorizontalColinear. */
  method IsVerticalColinear(polygon: seq<Point>) returns (colinear: bool)
    requires |polygon| > 0
    ensures colinear <==> AllSameX(polygon)
    ensures !colinear ==> exists i :: 0 < i < |polygon| && polygon[i].x != polygon[0].x
  {
    var originX := polygon[0].x;
    colinear := true;
    var i := 1;
    while i < |polygon|
      invariant 1 <= i <= |polygon|
      invariant forall j :: 0 <= j < i ==> polygon[j].x == originX
    {
      if polygon[i].x != originX {
        colinear := false;
        break;
      }
      i := i + 1;
    }
  }

  /** Lying on one horizontal (or vertical) line is inherited by any sequence
      drawn from the points of another. */
  lemma SameLineInherited(s: seq<Point>, t: seq<Point>)
    requires |s| > 0 && |t| > 0
    requires forall p :: p in s ==> p in t
    ensures AllSameY(t) ==> AllSameY(s)
    ensures AllSameX(t) ==> AllSameX(s)
  {
    if AllSameY(t) {
      forall i | 0 <= i < |s|
        ensures s[i].y == s[0].y
      {
        assert s[i] in t && s[0] in t;
      }
    }
    if AllSameX(t) {
      forall i | 0 <= i < |s|
        ensures s[i].x == s[0].x
      {
        assert s[i] in t && s[0] in t;
      }
    }
  }
}
