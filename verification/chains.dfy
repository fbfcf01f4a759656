/** The chain builder of the monotone-chain hull: the lower chain is swept
    left to right over the sorted points, the upper chain right to left on
    top of the finished lower chain. Both sweeps keep a stack and pop its top
    while the top two points and the candidate make an invalid turn.

    The sweeps are first defined as pure functions (the stack after the first
    n steps), which carry the properties as lemmas; the methods LowerBound and
    UpperBound are the loop implementations, proved equal to them. */
module Chains {
  import opened Geometry
  import opened Ordering

  function Last(s: seq<Point>): Point
    requires |s| > 0
  {
    s[|s| - 1]
  }

  /** Every consecutive triple of s whose first point sits at index lo or
      later turns strictly left. */
  predicate LeftTurnsFrom(s: seq<Point>, lo: int) {
    forall k :: 0 <= k && lo <= k && k + 2 < |s| ==> Orientation(s[k], s[k + 1], s[k + 2]) > 0
  }

  predicate StrictlyIncreasing(s: seq<Point>) {
    forall i, j :: 0 <= i < j < |s| ==> LexLt(s[i], s[j])
  }

  predicate NoAdjacentDuplicates(s: seq<Point>) {
    forall k :: 0 <= k && k + 1 < |s| ==> s[k] != s[k + 1]
  }

  /** idx picks out r from s at strictly increasing positions. */
  predicate Embeds(idx: seq<int>, r: seq<Point>, s: seq<Point>) {
    && |idx| == |r|
    && (forall k :: 0 <= k < |idx| ==> 0 <= idx[k] < |s| && s[idx[k]] == r[k])
    && (forall k, l :: 0 <= k < l < |idx| ==> idx[k] < idx[l])
  }

  ghost predicate IsSubsequence(r: seq<Point>, s: seq<Point>) {
    exists idx :: Embeds(idx, r, s)
  }

  /** The inner loop of both sweeps: pop the top of the stack while the
      stack holds at least floor points and its top two points and q make an
      invalid turn. The lower sweep uses floor 2; the upper sweep uses the
      length of the lower chain plus one. */
  function PopWhileInvalid(stack: seq<Point>, q: Point, floor: nat): seq<Point>
    requires floor >= 2
    decreases |stack|
  {
    if |stack| >= floor && InvalidOrientation(stack[|stack| - 2], stack[|stack| - 1], q) then
      PopWhileInvalid(stack[..|stack| - 1], q, floor)
    else
      stack
  }

  /** Pruning only pops: it leaves a prefix of the stack, never goes below
      floor - 1 points, leaves a stack shorter than floor untouched, and
      stops at the first valid turn or at the floor. */
  lemma {:induction false} PopWhileInvalidShape(stack: seq<Point>, q: Point, floor: nat)
    requires floor >= 2
    ensures var r := PopWhileInvalid(stack, q, floor);
      && r <= stack
      && (|stack| < floor ==> r == stack)
      && (|stack| >= floor - 1 ==> |r| >= floor - 1)
      && (|r| < floor || !InvalidOrientation(r[|r| - 2], r[|r| - 1], q))
    decreases |stack|
  {
    if |stack| >= floor && InvalidOrientation(stack[|stack| - 2], stack[|stack| - 1], q) {
      var shorter := stack[..|stack| - 1];
      PopWhileInvalidShape(shorter, q, floor);
      var r := PopWhileInvalid(shorter, q, floor);
      assert r == stack[..|r|] by {
        assert r == shorter[..|r|];
      }
    }
  }

  /** Pushing q onto a stack just pruned for q keeps every triple from lo on
      a strict left turn, as long as the pruning floor guards index lo. */
  lemma PushKeepsLeftTurns(stack: seq<Point>, q: Point, floor: nat, lo: int)
    requires floor >= 2 && lo >= floor - 2
    requires LeftTurnsFrom(stack, lo)
    ensures LeftTurnsFrom(PopWhileInvalid(stack, q, floor) + [q], lo)
  {
    var r := PopWhileInvalid(stack, q, floor);
    PopWhileInvalidShape(stack, q, floor);
    assert r == stack[..|r|];
    var s := r + [q];
    forall k | 0 <= k && lo <= k && k + 2 < |s|
      ensures Orientation(s[k], s[k + 1], s[k + 2]) > 0
    {
      if k + 2 < |r| {
        assert s[k] == stack[k] && s[k + 1] == stack[k + 1] && s[k + 2] == stack[k + 2];
        assert Orientation(stack[k], stack[k + 1], stack[k + 2]) > 0;
      } else {
        assert k == |r| - 2 && |r| >= floor;
        assert s[k] == r[|r| - 2] && s[k + 1] == r[|r| - 1] && s[k + 2] == q;
      }
    }
  }

  // ---------------------------------------------------------------- lower

  /** One step of the lower sweep on polygon[i]: skip a point equal to its
      predecessor, otherwise prune the stack and push the point. */
  function LowerStep(stack: seq<Point>, polygon: seq<Point>, i: int): seq<Point>
    requires 0 <= i < |polygon|
  {
    if i > 0 && polygon[i] == polygon[i - 1] then stack
    else PopWhileInvalid(stack, polygon[i], 2) + [polygon[i]]
  }

  /** The lower-sweep stack after the first n points. */
  function LowerScan(polygon: seq<Point>, n: nat): seq<Point>
    requires n <= |polygon|
  {
    if n == 0 then [] else LowerStep(LowerScan(polygon, n - 1), polygon, n - 1)
  }

  function LowerChain(polygon: seq<Point>): seq<Point> {
    LowerScan(polygon, |polygon|)
  }

  /** The lower stack starts at the first point, which is never popped, ends
      at the last point seen, and turns strictly left at every corner. */
  lemma {:induction false} LowerScanShape(polygon: seq<Point>, n: nat)
    requires n <= |polygon|
    ensures n == 0 ==> LowerScan(polygon, n) == []
    ensures n > 0 ==> |LowerScan(polygon, n)| > 0
    ensures n > 0 ==> LowerScan(polygon, n)[0] == polygon[0]
    ensures n > 0 ==> Last(LowerScan(polygon, n)) == polygon[n - 1]
    ensures LeftTurnsFrom(LowerScan(polygon, n), 0)
  {
    if n > 0 {
      var stack := LowerScan(polygon, n - 1);
      LowerScanShape(polygon, n - 1);
      var i := n - 1;
      if !(i > 0 && polygon[i] == polygon[i - 1]) {
        PopWhileInvalidShape(stack, polygon[i], 2);
        PushKeepsLeftTurns(stack, polygon[i], 2, 0);
      }
    }
  }

  /** On sorted input the lower stack is strictly increasing in sweep order:
      a skipped duplicate is never pushed, and every pushed point lies
      strictly after everything already on the stack. */
  lemma {:induction false} LowerScanIncreasing(polygon: seq<Point>, n: nat)
    requires n <= |polygon|
    requires Sorted(polygon)
    ensures StrictlyIncreasing(LowerScan(polygon, n))
  {
    if n > 0 {
      var stack := LowerScan(polygon, n - 1);
      LowerScanIncreasing(polygon, n - 1);
      LowerScanShape(polygon, n - 1);
      var i := n - 1;
      if !(i > 0 && polygon[i] == polygon[i - 1]) {
        var r := PopWhileInvalid(stack, polygon[i], 2);
        PopWhileInvalidShape(stack, polygon[i], 2);
        var s := r + [polygon[i]];
        forall a, b | 0 <= a < b < |s|
          ensures LexLt(s[a], s[b])
        {
          if b < |r| {
            assert s[a] == stack[a] && s[b] == stack[b];
          } else {
            assert s[a] == stack[a];
            assert LexLe(stack[a], Last(stack)) by {
              if a < |stack| - 1 {
                assert LexLt(stack[a], stack[|stack| - 1]);
              }
            }
            assert LexLe(polygon[i - 1], polygon[i]);
            LexTotal(polygon[i - 1], polygon[i]);
          }
        }
      }
    }
  }

  /** Cutting an embedded stack back to m points and pushing the point at a
      later position i keeps it embedded. */
  lemma EmbedsPush(idx: seq<int>, stack: seq<Point>, polygon: seq<Point>, m: nat, i: int)
    requires Embeds(idx, stack, polygon)
    requires m <= |stack|
    requires 0 <= i < |polygon|
    requires forall k :: 0 <= k < |idx| ==> idx[k] < i
    ensures Embeds(idx[..m] + [i], stack[..m] + [polygon[i]], polygon)
  {
    var idx' := idx[..m] + [i];
    var s := stack[..m] + [polygon[i]];
    forall k | 0 <= k < |idx'|
      ensures 0 <= idx'[k] < |polygon| && polygon[idx'[k]] == s[k]
    {
      if k < m {
        assert idx'[k] == idx[k] && s[k] == stack[k];
      }
    }
    forall k, l | 0 <= k < l < |idx'|
      ensures idx'[k] < idx'[l]
    {
      assert idx'[k] == idx[k];
      if l < m {
        assert idx'[l] == idx[l];
      }
    }
  }

  /** The lower stack is a subsequence of the points seen so far; the
      returned positions witness it. */
  lemma {:induction false} LowerScanEmbedding(polygon: seq<Point>, n: nat) returns (idx: seq<int>)
    requires n <= |polygon|
    ensures Embeds(idx, LowerScan(polygon, n), polygon)
    ensures forall k :: 0 <= k < |idx| ==> idx[k] < n
  {
    if n == 0 {
      idx := [];
    } else {
      var stack := LowerScan(polygon, n - 1);
      var prev := LowerScanEmbedding(polygon, n - 1);
      var i := n - 1;
      if i > 0 && polygon[i] == polygon[i - 1] {
        idx := prev;
      } else {
        var r := PopWhileInvalid(stack, polygon[i], 2);
        PopWhileInvalidShape(stack, polygon[i], 2);
        assert r == stack[..|r|];
        EmbedsPush(prev, stack, polygon, |r|, i);
        idx := prev[..|r|] + [i];
      }
    }
  }

  /** The properties of the completed lower chain. */
  lemma LowerChainProperties(polygon: seq<Point>)
    requires |polygon| > 0
    ensures var lower := LowerChain(polygon);
      && |lower| > 0
      && lower[0] == polygon[0]
      && Last(lower) == polygon[|polygon| - 1]
      && LeftTurnsFrom(lower, 0)
      && IsSubsequence(lower, polygon)
    ensures Sorted(polygon) ==> StrictlyIncreasing(LowerChain(polygon))
    ensures Sorted(polygon) ==> NoAdjacentDuplicates(LowerChain(polygon))
  {
    LowerScanShape(polygon, |polygon|);
    var idx := LowerScanEmbedding(polygon, |polygon|);
    if Sorted(polygon) {
      LowerScanIncreasing(polygon, |polygon|);
    }
  }

  /** Implementation of the lower sweep, with the stack as a sequence. */
  method LowerBound(polygon: seq<Point>) returns (result: seq<Point>)
    ensures result == LowerChain(polygon)
    ensures |polygon| > 0 ==> |result| > 0 && result[0] == polygon[0] && Last(result) == polygon[|polygon| - 1]
    ensures LeftTurnsFrom(result, 0)
    ensures Sorted(polygon) ==> StrictlyIncreasing(result)
  {
    result := [];
    for i := 0 to |polygon|
      invariant result == LowerScan(polygon, i)
    {
      if i > 0 && polygon[i] == polygon[i - 1] {
        continue;
      }
      while |result| >= 2 && InvalidOrientation(result[|result| - 2], result[|result| - 1], polygon[i])
        invariant PopWhileInvalid(result, polygon[i], 2) == PopWhileInvalid(LowerScan(polygon, i), polygon[i], 2)
        decreases |result|
      {
        result := result[..|result| - 1];
      }
      result := result + [polygon[i]];
    }
    LowerScanShape(polygon, |polygon|);
    if Sorted(polygon) {
      LowerScanIncreasing(polygon, |polygon|);
    }
  }

  // ---------------------------------------------------------------- upper

  /** One step of the upper sweep on polygon[i], going right to left: skip a
      point equal to its right neighbour, otherwise prune the stack down to
      no less than floor - 1 points and push the point. */
  function UpperStep(stack: seq<Point>, polygon: seq<Point>, i: int, floor: nat): seq<Point>
    requires 0 <= i < |polygon| - 1
    requires floor >= 2
  {
    if polygon[i] == polygon[i + 1] then stack
    else PopWhileInvalid(stack, polygon[i], floor) + [polygon[i]]
  }

  /** The upper-sweep stack after k steps, starting from the lower chain; step
      k visits index |polygon| - 1 - k. */
  function UpperScan(lower: seq<Point>, polygon: seq<Point>, k: nat): seq<Point>
    requires |lower| >= 1 && |polygon| >= 2
    requires k <= |polygon| - 1
  {
    if k == 0 then lower
    else UpperStep(UpperScan(lower, polygon, k - 1), polygon, |polygon| - 1 - k, |lower| + 1)
  }

  /** The finished upper sweep with its last pushed point dropped. */
  function UpperChain(lower: seq<Point>, polygon: seq<Point>): seq<Point>
    requires |lower| >= 1 && |polygon| >= 2
  {
    var stack := UpperScan(lower, polygon, |polygon| - 1);
    if |stack| == 0 then [] else stack[..|stack| - 1]
  }

  /** The upper sweep never pops into the lower chain. */
  lemma {:induction false} UpperScanKeepsLower(lower: seq<Point>, polygon: seq<Point>, k: nat)
    requires |lower| >= 1 && |polygon| >= 2
    requires k <= |polygon| - 1
    ensures |UpperScan(lower, polygon, k)| >= |lower|
    ensures UpperScan(lower, polygon, k)[..|lower|] == lower
  {
    if k > 0 {
      var stack := UpperScan(lower, polygon, k - 1);
      UpperScanKeepsLower(lower, polygon, k - 1);
      var i := |polygon| - 1 - k;
      if polygon[i] != polygon[i + 1] {
        var r := PopWhileInvalid(stack, polygon[i], |lower| + 1);
        PopWhileInvalidShape(stack, polygon[i], |lower| + 1);
        assert r[..|lower|] == stack[..|lower|];
        assert (r + [polygon[i]])[..|lower|] == r[..|lower|];
      }
    }
  }

  /** Every corner the upper sweep adds, from the last lower point on, is a
      strict left turn. */
  lemma {:induction false} UpperScanLeftTurns(lower: seq<Point>, polygon: seq<Point>, k: nat)
    requires |lower| >= 1 && |polygon| >= 2
    requires k <= |polygon| - 1
    ensures LeftTurnsFrom(UpperScan(lower, polygon, k), |lower| - 1)
  {
    if k > 0 {
      var stack := UpperScan(lower, polygon, k - 1);
      UpperScanLeftTurns(lower, polygon, k - 1);
      var i := |polygon| - 1 - k;
      assert UpperScan(lower, polygon, k) == UpperStep(stack, polygon, i, |lower| + 1);
      if polygon[i] != polygon[i + 1] {
        PushKeepsLeftTurns(stack, polygon[i], |lower| + 1, |lower| - 1);
      }
    }
  }

  /** The upper sweep pushes nothing but visited points. */
  lemma {:induction false} UpperScanMembers(lower: seq<Point>, polygon: seq<Point>, k: nat)
    requires |lower| >= 1 && |polygon| >= 2
    requires k <= |polygon| - 1
    ensures forall p :: p in UpperScan(lower, polygon, k) ==> p in lower || p in polygon
  {
    if k > 0 {
      var stack := UpperScan(lower, polygon, k - 1);
      UpperScanMembers(lower, polygon, k - 1);
      var i := |polygon| - 1 - k;
      if polygon[i] != polygon[i + 1] {
        var r := PopWhileInvalid(stack, polygon[i], |lower| + 1);
        PopWhileInvalidShape(stack, polygon[i], |lower| + 1);
        forall p | p in r + [polygon[i]]
          ensures p in lower || p in polygon
        {
          if p in r {
            assert p in stack;
          }
        }
      }
    }
  }

  /** The upper sweep has pushed something exactly when the points visited
      so far are not all equal, and then its top is the point last visited. */
  lemma {:induction false} UpperScanTop(lower: seq<Point>, polygon: seq<Point>, k: nat)
    requires |lower| >= 1 && |polygon| >= 2
    requires k <= |polygon| - 1
    ensures AllEqualFrom(polygon, |polygon| - 1 - k) ==> UpperScan(lower, polygon, k) == lower
    ensures !AllEqualFrom(polygon, |polygon| - 1 - k) ==>
      |UpperScan(lower, polygon, k)| > |lower| && Last(UpperScan(lower, polygon, k)) == polygon[|polygon| - 1 - k]
  {
    if k > 0 {
      var stack := UpperScan(lower, polygon, k - 1);
      UpperScanTop(lower, polygon, k - 1);
      UpperScanKeepsLower(lower, polygon, k - 1);
      var i := |polygon| - 1 - k;
      if polygon[i] != polygon[i + 1] {
        PopWhileInvalidShape(stack, polygon[i], |lower| + 1);
        assert !AllEqualFrom(polygon, i);
      } else {
        assert AllEqualFrom(polygon, i) <==> AllEqualFrom(polygon, i + 1);
      }
    }
  }

  /** The properties of the completed upper chain: the lower chain is kept
      as a prefix and the dropped closing point is the first sorted point;
      only when every point is equal does nothing get pushed, and then the
      final pop eats the last point of the lower chain. */
  lemma UpperChainProperties(lower: seq<Point>, polygon: seq<Point>)
    requires |lower| >= 1 && |polygon| >= 2
    ensures var r := UpperChain(lower, polygon);
      && LeftTurnsFrom(r, |lower| - 1)
      && (forall p :: p in r ==> p in lower || p in polygon)
      && (AllEqualFrom(polygon, 0) ==> r == lower[..|lower| - 1])
      && (!AllEqualFrom(polygon, 0) ==>
            |r| >= |lower| && r[..|lower|] == lower
            && UpperScan(lower, polygon, |polygon| - 1) == r + [polygon[0]])
  {
    var stack := UpperScan(lower, polygon, |polygon| - 1);
    UpperScanKeepsLower(lower, polygon, |polygon| - 1);
    UpperScanLeftTurns(lower, polygon, |polygon| - 1);
    UpperScanMembers(lower, polygon, |polygon| - 1);
    UpperScanTop(lower, polygon, |polygon| - 1);
    var r := UpperChain(lower, polygon);
    assert r == stack[..|stack| - 1];
    assert stack == r + [Last(stack)];
    forall p | p in r
      ensures p in lower || p in polygon
    {
      assert p in stack;
    }
  }

  /** Implementation of the upper sweep, continuing on the lower chain's
      stack. */
  method UpperBound(lower: seq<Point>, polygon: seq<Point>) returns (result: seq<Point>)
    requires |lower| >= 1 && |polygon| >= 2
    ensures result == UpperChain(lower, polygon)
    ensures !AllEqualFrom(polygon, 0) ==> |result| >= |lower| && result[..|lower|] == lower
    ensures LeftTurnsFrom(result, |lower| - 1)
    ensures forall p :: p in result ==> p in lower || p in polygon
  {
    result := lower;
    var floor := |lower| + 1;
    var i := |polygon| - 1;
    while i > 0
      invariant 0 <= i <= |polygon| - 1
      invariant result == UpperScan(lower, polygon, |polygon| - 1 - i)
    {
      i := i - 1;
      if polygon[i] == polygon[i + 1] {
        continue;
      }
      while |result| >= floor && InvalidOrientation(result[|result| - 2], result[|result| - 1], polygon[i])
        invariant PopWhileInvalid(result, polygon[i], floor)
               == PopWhileInvalid(UpperScan(lower, polygon, |polygon| - 2 - i), polygon[i], floor)
        decreases |result|
      {
        result := result[..|result| - 1];
      }
      result := result + [polygon[i]];
    }
    if |result| > 0 {
      result := result[..|result| - 1];
    }
    UpperChainProperties(lower, polygon);
  }
}
