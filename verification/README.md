# rust-convex-hull, modelled in Dafny

The library computes the convex hull of a set of plane points with Andrew's
monotone-chain algorithm (`convex_hull` in `src/lib.rs`):

- an input of fewer than three points is rejected with the message
  `only {n} Point(s), should be at least 3`;
- the points are sorted by x, with ties broken by y;
- a lower chain is swept left to right and an upper chain right to left on
  top of it. Each sweep keeps a stack and pops its top while the top two
  points and the candidate make a turn that is not strictly left
  (`invalid_orientation`);
- a candidate whose points all share one y or one x is replaced by the empty
  hull.

The model uses exact integer coordinates instead of `Complex64`. That makes
the orientation test and the sort order exact, so the invariants the
algorithm relies on can be proved.

Files and modules:

- `geometry.dfy` (`Geometry`): points, the complex-number cross product, the
  orientation test and the invalid-turn predicate.
- `ordering.dfy` (`Ordering`): the lexicographic sweep order and a sort with
  its correctness and uniqueness lemmas.
- `chains.dfy` (`Chains`): the two sweeps. Each is defined as a pure function
  giving the stack after n steps (`LowerScan`, `UpperScan`), which carries
  the properties as lemmas. Each also has a loop implementation
  (`LowerBound`, `UpperBound`) proved equal to its function.
- `degeneracy.dfy` (`Degeneracy`): the horizontal and vertical collinearity
  scans, as loops proved equal to quantified predicates.
- `decimal.dfy` (`Decimal`): rendering of the point count in the error
  message.
- `hull.dfy` (`Hull`): the entry point as a function `ConvexHull`, its loop
  implementation `ComputeConvexHull`, and the end-to-end properties.
- `hull_examples.dfy` (`HullExamples`): the three-point cases in general and
  the unit-test inputs of `tests/unit_tests.rs`. Float test coordinates such
  as 0.1 are scaled to integers. Where the scale does not matter, the lemma
  takes it as a parameter.

Two behaviours of the code are modelled as written:

- One might expect any collinear input to give the empty hull; the code
  does not. For three points on one diagonal line, the invalid-turn rule
  removes the middle point and the two end points come back, because the
  collinearity check only looks at the axes
  (`HullExamples.DiagonalCollinear`). The hull of that result is then a
  rejection, since it has two points (`HullExamples.DiagonalNotIdempotent`).
- Three or more identical points make the code panic. The lower chain is the
  single point, the upper sweep pushes nothing, and its final pop leaves an
  empty vector. `is_horizontal_colinear` then reads element 0 of that
  vector. The model returns `Err(IndexPanic)` here, and
  `Hull.IdenticalPointsPanic` proves that this is the only failure on three
  or more points.

## Model

| member | source | states |
|---|---|---|
| Geometry.CrossIsConjugateProduct | src/lib.rs:6-8 | the imaginary part of conj(u)·v is the planar cross product u.x·v.y − u.y·v.x |
| Geometry.OrientationIsSignedArea | src/lib.rs:10-12 | orientation(a, b, c) = (b.x−a.x)(c.y−b.y) − (b.y−a.y)(c.x−b.x), the same value as the cross product of b−a and c−a (twice the signed area) |
| Geometry.OrientationRotate | src/lib.rs:10-12 | the orientation is unchanged by rotating the three points |
| Geometry.OrientationSwap | src/lib.rs:10-12 | swapping any two of the points negates the orientation, so a left turn read backwards is a right turn |
| Geometry.RepeatedPointIsInvalid | src/lib.rs:14-16 | a triple with two equal consecutive points has orientation 0, so the pruning test treats it as invalid |
| Geometry.BackTrackIsStraight | src/lib.rs:10-12 | going from a to b and back to a has orientation 0 |
| Geometry.AxisLineIsStraight | src/lib.rs:10-12 | three points on one horizontal or one vertical line have orientation 0 |
| Geometry.CollinearIsInvalid | src/lib.rs:14-16 | every point c on the line through a and b (c − a parallel to b − a) is an invalid turn after a, b, on either side of the segment or between its ends |
| Ordering.LexTotal | src/lib.rs:89-94 | the comparator (x, then y; exact here) is total and antisymmetric, and strict order is the negation of the reverse order |
| Ordering.InsertPermutation | src/lib.rs:87-95 | one insertion step adds exactly the inserted point to the contents |
| Ordering.InsertSorted | src/lib.rs:87-95 | inserting into a sorted sequence keeps it sorted |
| Ordering.SortPointsCorrect | src/lib.rs:87-95 | the sort returns a permutation (equal multiset, equal length) of its input that is non-decreasing in (x, then y) |
| Ordering.SortedUnique | src/lib.rs:89 | two sorted sequences with the same contents are equal, so the unstable sort's choice of algorithm cannot change its result |
| Ordering.SortedSqueeze | src/lib.rs:87-95 | in a sorted sequence whose first and last points are equal, every point is that point |
| Chains.PopWhileInvalidShape | src/lib.rs:52-58 | the pruning loop leaves a prefix of the stack; it leaves a stack below the floor untouched and never goes below floor − 1 points; it stops at the floor or at the first strict left turn |
| Chains.PushKeepsLeftTurns | src/lib.rs:52-59 | pruning for q and then pushing q keeps every guarded triple of the stack a strict left turn |
| Chains.LowerScanShape | src/lib.rs:44-63 | the lower stack is empty before the first point; afterwards its first point is polygon[0] (never popped), its top is the last point seen, and every consecutive triple is a strict left turn |
| Chains.LowerScanIncreasing | src/lib.rs:47-60 | on sorted input the lower stack is strictly increasing in sweep order, because skipped duplicates are never pushed |
| Chains.LowerScanEmbedding | src/lib.rs:44-63 | the returned positions embed the lower stack in the input at strictly increasing indices below the number of points seen |
| Chains.LowerChainProperties | src/lib.rs:44-63 | the completed lower chain is a non-empty subsequence of the input from polygon[0] to polygon[size−1], all left turns; on sorted input it is strictly increasing with no two adjacent equal points |
| Chains.LowerBound | src/lib.rs:44-63 | the loop with its skip, pop and push computes the reference sweep LowerChain; its result runs from polygon[0] to polygon[size−1], turns strictly left at every corner, and is strictly increasing on sorted input |
| Chains.UpperScanKeepsLower | src/lib.rs:67-80 | the floor of lower.len()+1 keeps the whole lower chain an unchanged prefix of the stack at every step |
| Chains.UpperScanLeftTurns | src/lib.rs:73-80 | every triple of the upper stack starting at the last lower point or later is a strict left turn |
| Chains.UpperScanMembers | src/lib.rs:65-81 | the upper stack holds only lower-chain points and input points |
| Chains.UpperScanTop | src/lib.rs:68-81 | the upper sweep has pushed something exactly when the points visited so far are not all equal, and then its top is the last point visited |
| Chains.UpperChainProperties | src/lib.rs:65-85 | the upper chain keeps the lower chain as a prefix, is all left turns from the last lower point on, and holds only given points; the final pop removes polygon[0]; on all-equal input it pops the lower chain's only point |
| Chains.UpperBound | src/lib.rs:65-85 | the right-to-left loop with its floor and final pop computes the reference sweep UpperChain; its result keeps the lower chain as a prefix, turns strictly left from the last lower point on, and holds only given points |
| Degeneracy.IsHorizontalColinear | src/lib.rs:18-29 | the scan with its early break returns true exactly when every point has the first point's y, and on false a point with a different y exists |
| Degeneracy.IsVerticalColinear | src/lib.rs:31-42 | the scan with its early break returns true exactly when every point has the first point's x, and on false a point with a different x exists |
| Degeneracy.SameLineInherited | src/lib.rs:110-112 | a sequence drawn from the points of a horizontal (or vertical) set lies on that line too |
| Decimal.DecimalStringWellFormed | src/lib.rs:99-102 | the count is rendered as a non-empty digit string with no leading zero, and it is one digit exactly below ten |
| Decimal.DecimalRoundTrip | src/lib.rs:99-102 | reading the rendered digits back gives the count |
| Hull.ComputeConvexHull | src/lib.rs:97-114 | the implementation (size check, sort, lower and upper loops, collinearity scans) computes the reference function ConvexHull; it fails exactly on fewer than three points or all-identical points, and a success holds only input points |
| Hull.TooFewPointsRejected | src/lib.rs:98-103 | exactly the inputs of at most two points are rejected with their exact count, and no other input gets this error |
| Hull.TooFewPointsMessage | src/lib.rs:98-103 | the rejection message is "only n Point(s), should be at least 3", with n written as one digit |
| Hull.SortedIdentical | src/lib.rs:105 | the sorted input consists of one repeated point exactly when the input does |
| Hull.IdenticalPointsPanic | src/lib.rs:97-114 | on three or more points the entry point fails exactly when all points are identical (the empty-vector index panic), and succeeds otherwise |
| Hull.CandidateFromInput | src/lib.rs:105-108 | every point of the candidate boundary is an input point |
| Hull.HullFromInput | src/lib.rs:97-114 | every point of a successful result is an input point; no coordinates are synthesised |
| Hull.AxisCollinearIsEmpty | src/lib.rs:110-112 | input on one horizontal or one vertical line, not a single repeated point, yields Ok of the empty hull |
| Hull.LowerChainSpansInput | src/lib.rs:105-107 | for input that is not one repeated point, the lower chain has at least two points, is strictly increasing, and runs from the least to the greatest input point in sweep order |
| Hull.CandidateLeftTurns | src/lib.rs:105-108 | the candidate starts with the lower chain; every corner except the one where the upper chain leaves the lower chain is a strict left turn, and so is the closing corner back to the first point when the upper chain added a point |
| Hull.ClosingTurn | src/lib.rs:68-83 | the last upper iteration prunes against polygon[0] before pushing it and the final pop removes it, so the corner closing the upper chain back to its first point is a strict left turn |
| Hull.CandidateClosingTurn | src/lib.rs:105-108 | the closing corner of the candidate is a strict left turn whenever the upper chain added a point |
| Hull.NonEmptyHullShape | src/lib.rs:97-114 | a non-empty result is on no axis line, starts at the least input point, begins with the lower chain up to the greatest input point, and turns strictly left at every corner except the junction and the corner at its first point |
| Hull.PermutationInvariant | src/lib.rs:87-95 | the result depends only on the multiset of input points, not on their order |
| HullExamples.SortedTripleLower | src/lib.rs:44-63 | the lower chain of three sorted distinct points keeps the middle one exactly on a left turn |
| HullExamples.SortedTripleUpperAfterLeftTurn | src/lib.rs:65-85 | after a left turn the upper sweep pushes and pops the middle point, and the final pop drops the start point |
| HullExamples.SortedTripleUpperOtherwise | src/lib.rs:65-85 | without a left turn the upper sweep keeps the middle point on a right turn and pops it on a straight line |
| HullExamples.SortedTripleCandidate | src/lib.rs:105-108 | the candidate of three sorted distinct points is [a, b, c] on a left turn, [a, c, b] on a right turn and [a, c] on a line |
| HullExamples.SortedTripleHull | src/lib.rs:97-114 | the hull of three sorted distinct points, including the empty hull for an axis line |
| HullExamples.ThreePoints | src/lib.rs:97-114 | three distinct points in any order: non-collinear points come back as exactly those three, counter-clockwise from the least; collinear ones give the two end points unless the line is horizontal or vertical |
| HullExamples.SortedPairLower | src/lib.rs:44-63 | the lower chain of a, a, b and of a, b, b (a before b) is a, b: the duplicate is skipped |
| HullExamples.SortedPairUpper | src/lib.rs:65-85 | over a, a, b and a, b, b the upper sweep leaves a, b: the floor keeps the lower chain, a duplicate is skipped, and the pushed a is dropped by the final pop |
| HullExamples.SortedPairCandidate | src/lib.rs:105-108 | the candidate of a sorted doubled pair is the pair a, b |
| HullExamples.SortedPairHull | src/lib.rs:97-114 | the hull of a sorted doubled pair is Ok of a, b, or Ok of the empty hull when a and b share x or y |
| HullExamples.RepeatedPair | src/lib.rs:97-114 | three points of which exactly two are equal, in any order, give the segment between the distinct points, or the empty hull on an axis line |
| HullExamples.ThreeIdentical | src/lib.rs:97-114 | three equal points give the index panic, not a hull |
| HullExamples.NoPoint | tests/unit_tests.rs:34-43 | no points: error "only 0 Point(s), should be at least 3" |
| HullExamples.OnePoint | tests/unit_tests.rs:45-57 | one point: error "only 1 Point(s), should be at least 3" |
| HullExamples.TwoPoints | tests/unit_tests.rs:59-71 | two points: error "only 2 Point(s), should be at least 3" |
| HullExamples.ThreePointsConvex | tests/unit_tests.rs:73-83 | the right triangle (0,0), (d,0), (0,d) comes back as exactly its three points, counter-clockwise |
| HullExamples.PointsColinearHorizontal | tests/unit_tests.rs:85-95 | three or four equally spaced points on a horizontal line give Ok of the empty hull (the four-point case is tests/unit_tests.rs:109-120) |
| HullExamples.PointsColinearVertical | tests/unit_tests.rs:97-107 | three or four equally spaced points on a vertical line give Ok of the empty hull (the four-point case is tests/unit_tests.rs:122-133) |
| HullExamples.DiagonalCollinear | src/lib.rs:110-113 | (0,0), (d,d), (2d,2d) give the two end points, not the empty hull |
| HullExamples.DiagonalNotIdempotent | src/lib.rs:97-114 | the hull (0,0), (2,2) of (0,0), (1,1), (2,2) is itself rejected as too few points, so the hull of a hull is not always the hull |
| HullExamples.FivePointsLower | tests/unit_tests.rs:135-155 | the lower sweep of the five sorted test points pops (-30,-34) and then (41,-6) |
| HullExamples.FivePointsUpper | tests/unit_tests.rs:135-155 | the upper sweep of the five test points pushes and pops both interior points, then drops the closing start point |
| HullExamples.FivePoints | tests/unit_tests.rs:135-155 | the five-point input gives exactly the triangle (-51,-6), (-24,-74), (73,17) |

## Left out

- `src/main.rs` is not part of this model: it only reads points from standard input, parses them and prints the result.
- `Complex64`/`f64` arithmetic is replaced by exact integers. Rounding in the orientation test and overflow to infinity are not modelled.
- The comparator's 1e-9 band on x (src/lib.rs:88-93) is not a consistent total order; the model compares x exactly.
- The `partial_cmp(...).unwrap()` panic on NaN coordinates cannot arise with integers and is not modelled.
- Ordering.SortPoints is an insertion sort, not the standard library's unstable sort. Ordering.SortedUnique shows that every correct sort returns the same sequence.
- Hull.IdenticalPointsPanic models the index panic as the error value `IndexPanic`. Unwinding is not modelled; the message is the one Rust prints for this index.
- Hull.CandidateLeftTurns does not state two corners: the junction where the upper chain leaves the lower chain, and the corner at the first point. The upper sweep's floor stops it from testing the junction (src/lib.rs:74), and no step tests the first point's corner.
- Hull.NonEmptyHullShape leaves out the same two corners.
- Idempotence (the hull of a hull has the same points) is not proved in general; it needs the inside-hull theorem below. HullExamples.DiagonalNotIdempotent shows that it fails for a diagonal line.
- Diagonal collinear input is covered for three points (HullExamples.ThreePoints, HullExamples.DiagonalCollinear); the same end-point result for longer diagonal lines is not stated.
- The theorem that every input point lies inside the returned polygon is not stated; the code promises only the local chain invariants above.
- The `forty_points` test (tests/unit_tests.rs:157-217) depends on specific float literals and has no integer counterpart.
- The test helper `are_polygons_same` (tests/unit_tests.rs:6-32) only compares test results and is not modelled.
- HullExamples.ThreePointsConvex, HullExamples.PointsColinearHorizontal, HullExamples.PointsColinearVertical and HullExamples.DiagonalCollinear use integer points at scale d instead of the tests' 0.1 spacing.
