/** The sweep order of the monotone chain: ascending by x, ties broken by
    ascending y. The source compares floating-point x values with a 1e-9
    tolerance; here the comparison is the exact lexicographic order. */
module Ordering {
  import opened Geometry

  /** a comes no later than b in the sweep order. */
  predicate LexLe(a: Point, b: Point) {
    a.x < b.x || (a.x == b.x && a.y <= b.y)
  }

  /** a comes strictly before b in the sweep order. */
  predicate LexLt(a: Point, b: Point) {
    LexLe(a, b) && a != b
  }

  /** The order is total and antisymmetric: two points it cannot tell apart
      are the same point. */
  lemma LexTotal(a: Point, b: Point)
    ensures LexLe(a, b) || LexLe(b, a)
    ensures LexLe(a, b) && LexLe(b, a) ==> a == b
    ensures LexLt(a, b) <==> !LexLe(b, a)
  {
  }

  predicate Sorted(s: seq<Point>) {
    forall i, j :: 0 <= i < j < |s| ==> LexLe(s[i], s[j])
  }

  /** Inserts p just before the first element that p does not follow. */
  function Insert(p: Point, s: seq<Point>): seq<Point> {
    if |s| == 0 then [p]
    else if LexLe(p, s[0]) then [p] + s
    else [s[0]] + Insert(p, s[1..])
  }

  /** The sort of the input, as an insertion sort. */
  function SortPoints(s: seq<Point>): seq<Point> {
    if |s| == 0 then [] else Insert(s[0], SortPoints(s[1..]))
  }

  /** Insertion adds exactly p to the contents. */
  lemma {:induction false} InsertPermutation(p: Point, s: seq<Point>)
    ensures multiset(Insert(p, s)) == multiset(s) + multiset{p}
  {
    if |s| > 0 && !LexLe(p, s[0]) {
      InsertPermutation(p, s[1..]);
      assert s == [s[0]] + s[1..];
    }
  }

  /** Insertion into a sorted sequence keeps it sorted. */
  lemma {:induction false} InsertSorted(p: Point, s: seq<Point>)
    requires Sorted(s)
    ensures Sorted(Insert(p, s))
  {
    if |s| > 0 && !LexLe(p, s[0]) {
      InsertSorted(p, s[1..]);
      InsertPermutation(p, s[1..]);
      var rest := Insert(p, s[1..]);
      forall k | 0 <= k < |rest|
        ensures LexLe(s[0], rest[k])
      {
        assert rest[k] in multiset(rest);
        if rest[k] != p {
          assert rest[k] in multiset(s[1..]);
          var j :| 0 <= j < |s[1..]| && s[1..][j] == rest[k];
          assert s[j + 1] == rest[k];
        }
      }
    }
  }

  /** The sort returns a permutation of its input in sweep order. */
  lemma {:induction false} SortPointsCorrect(s: seq<Point>)
    ensures Sorted(SortPoints(s))
    ensures multiset(SortPoints(s)) == multiset(s)
    ensures |SortPoints(s)| == |s|
  {
    if |s| > 0 {
      SortPointsCorrect(s[1..]);
      InsertSorted(s[0], SortPoints(s[1..]));
      InsertPermutation(s[0], SortPoints(s[1..]));
      assert s == [s[0]] + s[1..];
      assert |SortPoints(s)| == |multiset(SortPoints(s))| == |multiset(s)| == |s|;
    }
  }

  /** Two sorted arrangements of one non-empty multiset start with the
      same point, its least element. */
  lemma SortedHeadsAgree(a: seq<Point>, b: seq<Point>)
    requires Sorted(a) && Sorted(b) && |a| > 0 && |b| > 0
    requires multiset(a) == multiset(b)
    ensures a[0] == b[0]
  {
    assert a[0] in multiset(b);
    var j :| 0 <= j < |b| && b[j] == a[0];
    assert b[0] in multiset(a);
    var i :| 0 <= i < |a| && a[i] == b[0];
    assert LexLe(b[0], a[0]) && LexLe(a[0], b[0]);
    LexTotal(a[0], b[0]);
  }

  /** Removing the head removes one copy of it from the contents. */
  lemma TailMultiset(s: seq<Point>)
    requires |s| > 0
    ensures multiset(s[1..]) == multiset(s) - multiset{s[0]}
  {
    assert s == [s[0]] + s[1..];
    assert multiset(s) == multiset{s[0]} + multiset(s[1..]);
  }

  /** There is only one sorted arrangement of a multiset of points, so the
      stability of the sort is irrelevant: every sorting algorithm returns
      the same sequence. */
  lemma {:induction false} SortedUnique(a: seq<Point>, b: seq<Point>)
    requires Sorted(a) && Sorted(b)
    requires multiset(a) == multiset(b)
    ensures a == b
    decreases |a|
  {
    assert |a| == |multiset(a)| == |multiset(b)| == |b|;
    if |a| > 0 {
      SortedHeadsAgree(a, b);
      TailMultiset(a);
      TailMultiset(b);
      assert Sorted(a[1..]) && Sorted(b[1..]);
      SortedUnique(a[1..], b[1..]);
      assert a == [a[0]] + a[1..] && b == [b[0]] + b[1..];
    }
  }

  /** All points from index i on equal the last point; from index 0, the
      sequence is one repeated point. */
  predicate AllEqualFrom(polygon: seq<Point>, i: int) {
    forall j :: 0 <= j && i <= j < |polygon| ==> polygon[j] == polygon[|polygon| - 1]
  }

  /** In a sorted sequence, an element equal to both ends forces every
      element between them to be equal too. */
  lemma {:induction false} SortedSqueeze(s: seq<Point>)
    requires Sorted(s) && |s| > 0
    requires s[0] == s[|s| - 1]
    ensures AllEqualFrom(s, 0)
  {
    forall i | 0 <= i < |s|
      ensures s[i] == s[|s| - 1]
    {
      assert LexLe(s[0], s[i]) && LexLe(s[i], s[|s| - 1]);
      LexTotal(s[i], s[0]);
    }
  }
}
