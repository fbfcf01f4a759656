/** The public entry point: reject inputs of fewer than three points, sort,
    build the lower and then the upper chain, and replace a candidate that
    lies on one horizontal or vertical line by the empty hull. */
module Hull {
  import opened Geometry
  import opened Ordering
  import opened Chains
  import opened Degeneracy
  import opened Decimal

  /** The smallest input the entry point accepts. */
  const MinPoints: nat := 3

  /** TooFewPoints is the error the source returns. IndexPanic stands for the
      panic of the source when the candidate hull is empty and the
      horizontal-collinearity scan reads its first point. */
  datatype HullError = TooFewPoints(count: nat) | IndexPanic

  datatype Result = Ok(hull: seq<Point>) | Err(error: HullError)

  function Message(e: HullError): string {
    match e
    case TooFewPoints(n) => "only " + DecimalString(n) + " Point(s), should be at least " + DecimalString(MinPoints)
    case IndexPanic => "index out of bounds: the len is 0 but the index is 0"
  }

  /** The hull candidate: the sorted points swept into the lower chain and
      then the upper chain. */
  function Candidate(polygon: seq<Point>): seq<Point>
    requires |polygon| >= MinPoints
  {
    var sorted := SortPoints(polygon);
    SortPointsCorrect(polygon);
    LowerChainProperties(sorted);
    UpperChain(LowerChain(sorted), sorted)
  }

  function ConvexHull(polygon: seq<Point>): Result {
    if |polygon| < MinPoints then Err(TooFewPoints(|polygon|))
    else
      var candidate := Candidate(polygon);
      if |candidate| == 0 then Err(IndexPanic)
      else if AllSameY(candidate) || AllSameX(candidate) then Ok([])
      else Ok(candidate)
  }

  /** Implementation of the entry point with the loop-based sweeps and
      scans; it computes the same result as ConvexHull. */
  method ComputeConvexHull(polygon: seq<Point>) returns (r: Result)
    ensures r == ConvexHull(polygon)
    ensures r.Ok? ==> forall p :: p in r.hull ==> p in polygon
    ensures r.Err? <==> |polygon| < MinPoints || AllEqualFrom(polygon, 0)
  {
    if |polygon| < MinPoints {
      return Err(TooFewPoints(|polygon|));
    }
    IdenticalPointsPanic(polygon);
    CandidateFromInput(polygon);
    var sorted := SortPoints(polygon);
    SortPointsCorrect(polygon);
    var lower := LowerBound(sorted);
    var candidate := UpperBound(lower, sorted);
    if |candidate| == 0 {
      return Err(IndexPanic);
    }
    var horizontal := IsHorizontalColinear(candidate);
    if horizontal {
      return Ok([]);
    }
    var vertical := IsVerticalColinear(candidate);
    if vertical {
      return Ok([]);
    }
    return Ok(candidate);
  }

  // ------------------------------------------------------------ properties

  /** Fewer than three points is the one input-size error, reported with the
      exact count and nothing else computed. */
  lemma TooFewPointsRejected(polygon: seq<Point>)
    ensures |polygon| <= 2 <==> ConvexHull(polygon) == Err(TooFewPoints(|polygon|))
    ensures |polygon| <= 2 ==> ConvexHull(polygon).error.count < MinPoints
    ensures ConvexHull(polygon).Err? && ConvexHull(polygon).error.TooFewPoints? ==> |polygon| <= 2
  {
  }

  /** The message for a rejected size names the count as its single digit
      and the minimum of three. */
  lemma TooFewPointsMessage(n: nat)
    requires n < MinPoints
    ensures Message(TooFewPoints(n)) == "only " + [DigitChar(n)] + " Point(s), should be at least 3"
  {
    assert DecimalString(MinPoints) == "3";
  }

  /** Sorting keeps the input one repeated point exactly when it was one. */
  lemma SortedIdentical(polygon: seq<Point>)
    requires |polygon| > 0
    ensures AllEqualFrom(polygon, 0) <==> AllEqualFrom(SortPoints(polygon), 0)
  {
    var s := SortPoints(polygon);
    SortPointsCorrect(polygon);
    assert forall p :: p in s <==> p in polygon by {
      forall p
        ensures p in s <==> p in polygon
      {
        assert p in s <==> p in multiset(s);
        assert p in polygon <==> p in multiset(polygon);
      }
    }
    if AllEqualFrom(polygon, 0) {
      forall j | 0 <= j < |s|
        ensures s[j] == s[|s| - 1]
      {
        assert s[j] in polygon && s[|s| - 1] in polygon;
      }
    }
    if AllEqualFrom(s, 0) {
      forall j | 0 <= j < |polygon|
        ensures polygon[j] == polygon[0]
      {
        assert polygon[j] in s && polygon[0] in s;
      }
    }
  }

  /** The all-identical input: the lower chain is the single point, the
      upper sweep pushes nothing, its final pop empties the stack, and the
      collinearity scan then reads past the end. This is the only way the
      entry point fails on three or more points. */
  lemma IdenticalPointsPanic(polygon: seq<Point>)
    requires |polygon| >= MinPoints
    ensures ConvexHull(polygon) == Err(IndexPanic) <==> AllEqualFrom(polygon, 0)
    ensures !AllEqualFrom(polygon, 0) ==> ConvexHull(polygon).Ok?
  {
    var s := SortPoints(polygon);
    SortPointsCorrect(polygon);
    var lower := LowerChain(s);
    LowerChainProperties(s);
    UpperChainProperties(lower, s);
    SortedIdentical(polygon);
    if AllEqualFrom(polygon, 0) {
      assert |lower| == 1;
      assert Candidate(polygon) == [];
    }
  }

  /** Every point of the candidate is a point of the input. */
  lemma CandidateFromInput(polygon: seq<Point>)
    requires |polygon| >= MinPoints
    ensures forall p :: p in Candidate(polygon) ==> p in polygon
  {
    var s := SortPoints(polygon);
    SortPointsCorrect(polygon);
    var lower := LowerChain(s);
    LowerChainProperties(s);
    UpperChainProperties(lower, s);
    var idx :| Embeds(idx, lower, s);
    forall p | p in Candidate(polygon)
      ensures p in polygon
    {
      if p in lower {
        var k :| 0 <= k < |lower| && lower[k] == p;
        assert s[idx[k]] == p;
      }
      assert p in s;
      assert p in multiset(s);
    }
  }

  /** No coordinates are synthesised: a hull holds only input points. */
  lemma HullFromInput(polygon: seq<Point>, h: seq<Point>)
    requires ConvexHull(polygon) == Ok(h)
    ensures forall p :: p in h ==> p in polygon
  {
    CandidateFromInput(polygon);
  }

  /** Input on one horizontal or one vertical line (and not a single
      repeated point) yields the empty hull. */
  lemma AxisCollinearIsEmpty(polygon: seq<Point>)
    requires |polygon| >= MinPoints && !AllEqualFrom(polygon, 0)
    requires AllSameY(polygon) || AllSameX(polygon)
    ensures ConvexHull(polygon) == Ok([])
  {
    IdenticalPointsPanic(polygon);
    CandidateFromInput(polygon);
    SameLineInherited(Candidate(polygon), polygon);
  }

  /** On input that is not a single repeated point, the lower chain runs
      from the first to the last input point in sweep order, which differ. */
  lemma LowerChainSpansInput(polygon: seq<Point>)
    requires |polygon| >= MinPoints && !AllEqualFrom(polygon, 0)
    ensures var lower := LowerChain(SortPoints(polygon));
      && 2 <= |lower|
      && StrictlyIncreasing(lower)
      && (forall p :: p in polygon ==> LexLe(lower[0], p) && LexLe(p, Last(lower)))
  {
    var s := SortPoints(polygon);
    SortPointsCorrect(polygon);
    var lower := LowerChain(s);
    LowerChainProperties(s);
    SortedIdentical(polygon);
    if |lower| < 2 {
      SortedSqueeze(s);
      assert false;
    }
    forall p | p in polygon
      ensures LexLe(lower[0], p) && LexLe(p, Last(lower))
    {
      assert p in multiset(s);
      var j :| 0 <= j < |s| && s[j] == p;
      if 0 < j {
        assert LexLe(s[0], s[j]);
      }
      if j < |s| - 1 {
        assert LexLe(s[j], s[|s| - 1]);
      }
    }
  }

  /** The candidate of input that is not a single repeated point begins
      with the whole lower chain, and every corner except the one where the
      upper chain leaves the lower chain is a strict left turn, as is the
      closing corner back to the first point when the upper chain added one. */
  lemma CandidateLeftTurns(polygon: seq<Point>)
    requires |polygon| >= MinPoints && !AllEqualFrom(polygon, 0)
    ensures var lower := LowerChain(SortPoints(polygon));
      var c := Candidate(polygon);
      && |lower| <= |c|
      && c[..|lower|] == lower
      && (forall k :: 0 <= k && k + 2 < |c| && k != |lower| - 2 ==> Orientation(c[k], c[k + 1], c[k + 2]) > 0)
      && (2 <= |c| && |lower| < |c| ==> Orientation(c[|c| - 2], c[|c| - 1], c[0]) > 0)
  {
    var s := SortPoints(polygon);
    SortPointsCorrect(polygon);
    var lower := LowerChain(s);
    var c := Candidate(polygon);
    LowerChainProperties(s);
    UpperChainProperties(lower, s);
    SortedIdentical(polygon);
    forall k | 0 <= k && k + 2 < |c| && k != |lower| - 2
      ensures Orientation(c[k], c[k + 1], c[k + 2]) > 0
    {
      if k + 2 < |lower| {
        assert c[k] == lower[k] && c[k + 1] == lower[k + 1] && c[k + 2] == lower[k + 2];
      }
    }
    CandidateClosingTurn(polygon);
  }

  /** The closing corner of the candidate, for input that is not a single
      repeated point. */
  lemma CandidateClosingTurn(polygon: seq<Point>)
    requires |polygon| >= MinPoints && !AllEqualFrom(polygon, 0)
    ensures var lower := LowerChain(SortPoints(polygon));
      var c := Candidate(polygon);
      2 <= |c| && |lower| < |c| ==> Orientation(c[|c| - 2], c[|c| - 1], c[0]) > 0
  {
    var s := SortPoints(polygon);
    SortPointsCorrect(polygon);
    var lower := LowerChain(s);
    LowerScanShape(s, |s|);
    SortedIdentical(polygon);
    assert Candidate(polygon) == UpperChain(lower, s);
    if |Candidate(polygon)| > |lower| {
      ClosingTurn(lower, s);
    }
  }

  /** The last iteration of the upper sweep prunes against the first sorted
      point before pushing it, and the final pop removes that point again:
      so the corner that closes the polygon back to its first point is a
      strict left turn whenever the upper chain added a point. */
  lemma ClosingTurn(lower: seq<Point>, s: seq<Point>)
    requires |s| >= 2 && |lower| >= 1 && lower[0] == s[0]
    requires !AllEqualFrom(s, 0)
    requires |UpperChain(lower, s)| > |lower|
    ensures var c := UpperChain(lower, s);
      Orientation(c[|c| - 2], c[|c| - 1], c[0]) > 0
  {
    var c := UpperChain(lower, s);
    var stack := UpperScan(lower, s, |s| - 1);
    UpperChainProperties(lower, s);
    UpperScanLeftTurns(lower, s, |s| - 1);
    assert stack == c + [s[0]];
    assert c[0] == lower[0];
    var k := |c| - 2;
    assert stack[k] == c[k] && stack[k + 1] == c[k + 1] && stack[k + 2] == s[0];
  }

  /** The shape of a non-empty hull: it starts at the first input point in
      sweep order, its first |L| points are the lower chain L, which is
      strictly increasing and ends at the last input point in sweep order,
      every corner except the one where the upper chain leaves L is a strict
      left turn, and so is the closing corner back to the first point when
      the upper chain added a point; the points are not on one horizontal or
      vertical line. */
  lemma NonEmptyHullShape(polygon: seq<Point>, h: seq<Point>)
    requires ConvexHull(polygon) == Ok(h) && h != []
    ensures !AllSameY(h) && !AllSameX(h)
    ensures forall p :: p in polygon ==> LexLe(h[0], p)
    ensures var lower := LowerChain(SortPoints(polygon));
      && 2 <= |lower| <= |h|
      && h[..|lower|] == lower
      && StrictlyIncreasing(lower)
      && (forall p :: p in polygon ==> LexLe(p, Last(lower)))
      && (forall k :: 0 <= k && k + 2 < |h| && k != |lower| - 2 ==> Orientation(h[k], h[k + 1], h[k + 2]) > 0)
      && (|lower| < |h| ==> Orientation(h[|h| - 2], h[|h| - 1], h[0]) > 0)
  {
    IdenticalPointsPanic(polygon);
    assert h == Candidate(polygon);
    LowerChainSpansInput(polygon);
    CandidateLeftTurns(polygon);
    var lower := LowerChain(SortPoints(polygon));
    assert h[0] == lower[0];
  }

  /** The hull depends only on the multiset of input points, not on their
      order: the sort erases the order, whichever sorting algorithm is used. */
  lemma PermutationInvariant(p1: seq<Point>, p2: seq<Point>)
    requires multiset(p1) == multiset(p2)
    ensures ConvexHull(p1) == ConvexHull(p2)
  {
    assert |p1| == |multiset(p1)| == |multiset(p2)| == |p2|;
    SortPointsCorrect(p1);
    SortPointsCorrect(p2);
    SortedUnique(SortPoints(p1), SortPoints(p2));
  }
}
