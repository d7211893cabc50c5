/** The recursion: computeSmallHull for ranges of one to three points,
    divideConquer over an index range of the sorted points, and the entry
    point convexHull. */
module Hull {
  import opened Wrappers
  import opened Geometry
  import opened Merge

  /** computeSmallHull on points[left..right]. One or two points are kept in
      input order. Three points are kept when they are not collinear, in the
      counterclockwise order that starts at points[left]; when they are
      collinear only the two end points are kept. */
  function SmallHull(points: seq<Point>, left: nat, right: nat): (hull: seq<Point>)
    requires left <= right < |points| && right - left < 3
    ensures 1 <= |hull| <= 3 && hull[0] == points[left]
    ensures |hull| == 3 ==> Cross(hull[0], hull[1], hull[2]) > 0
    ensures multiset(hull) <= multiset(points[left..right + 1])
  {
    if right - left + 1 == 1 then
      assert points[left..right + 1] == [points[left]];
      [points[left]]
    else if right - left + 1 == 2 then
      assert points[left..right + 1] == [points[left], points[right]];
      [points[left], points[right]]
    else
      var p1, p2, p3 := points[left], points[left + 1], points[right];
      assert points[left..right + 1] == [p1, p2, p3];
      var cp := Cross(p1, p2, p3);
      if cp > 0 then [p1, p2, p3]
      else if cp < 0 then
        CrossAntisymmetric(p1, p2, p3);
        [p1, p3, p2]
      else [p1, p3]
  }

  /** What computeSmallHull keeps of each range: one or two points in input
      order; three non-collinear points all of them; three collinear points
      only the two end points. */
  lemma SmallHullKeeps(points: seq<Point>, left: nat, right: nat)
    requires left <= right < |points| && right - left < 3
    ensures right - left == 0 ==> SmallHull(points, left, right) == [points[left]]
    ensures right - left == 1 ==> SmallHull(points, left, right) == [points[left], points[right]]
    ensures right - left == 2 && Cross(points[left], points[left + 1], points[right]) > 0 ==>
      SmallHull(points, left, right) == [points[left], points[left + 1], points[right]]
    ensures right - left == 2 && Cross(points[left], points[left + 1], points[right]) < 0 ==>
      SmallHull(points, left, right) == [points[left], points[right], points[left + 1]]
    ensures right - left == 2 && Cross(points[left], points[left + 1], points[right]) == 0 ==>
      SmallHull(points, left, right) == [points[left], points[right]]
  {
  }

  /** The three-point hull is pinned down by its contract: a counterclockwise
      ordering of the three points that starts at the first one is exactly
      what computeSmallHull returns. */
  lemma SmallHullDetermined(points: seq<Point>, left: nat, h: seq<Point>)
    requires left + 2 < |points|
    requires |h| == 3 && h[0] == points[left]
    requires multiset(h) == multiset(points[left..left + 3])
    requires Cross(h[0], h[1], h[2]) > 0
    ensures h == SmallHull(points, left, left + 2)
  {
    var p1, p2, p3 := points[left], points[left + 1], points[left + 2];
    assert points[left..left + 3] == [p1, p2, p3];
    assert h[1] in multiset(h) && h[2] in multiset(h);
    CrossDegenerate(p1, h[1]);
    CrossDegenerate(p1, h[2]);
    CrossDegenerate(h[1], h[2]);
    CrossDegenerate(p1, p3);
    assert h[1] != p1 && h[2] != p1 && h[1] != h[2];
    assert h[1] in {p2, p3} && h[2] in {p2, p3};
    CrossAntisymmetric(p1, p2, p3);
    assert h == [p1, p2, p3] || h == [p1, p3, p2];
  }

  /** The split of divideConquer: a range of more than three points is cut at
      mid = (left + right) / 2 into two ranges of at least two points each,
      both strictly shorter than the whole. */
  lemma SplitHalves(left: nat, right: nat)
    requires right - left + 1 > 3
    ensures var mid := (left + right) / 2;
      left < mid + 1 <= right &&
      2 <= mid - left + 1 < right - left + 1 &&
      2 <= right - mid < right - left + 1
  {
  }

  lemma RangeSplit(points: seq<Point>, left: nat, mid: nat, right: nat)
    requires left <= mid < right < |points|
    ensures multiset(points[left..right + 1]) ==
      multiset(points[left..mid + 1]) + multiset(points[mid + 1..right + 1])
  {
    assert points[left..right + 1] == points[left..mid + 1] + points[mid + 1..right + 1];
  }

  lemma SubMultisetOfSum(m: multiset<Point>, a: multiset<Point>, b: multiset<Point>,
                         c: multiset<Point>, d: multiset<Point>)
    requires m <= a + b && a <= c && b <= d
    ensures m <= c + d
  {
  }

  /** divideConquer on points[left..right]: computeSmallHull for at most
      three points, otherwise the merge of the hulls of the two halves split
      at mid = (left + right) / 2. None when a tangent search of some merge
      ran out of fuel. A hull takes each point of its range at most once. */
  function DivideConquer(points: seq<Point>, left: nat, right: nat, fuel: nat): (hull: Option<seq<Point>>)
    requires left <= right < |points|
    ensures right - left + 1 <= 3 ==> hull == Some(SmallHull(points, left, right))
    ensures hull.Some? ==> 0 < |hull.value|
    ensures hull.Some? ==> multiset(hull.value) <= multiset(points[left..right + 1])
    decreases right - left, 1
  {
    if right - left + 1 <= 3 then Some(SmallHull(points, left, right))
    else
      SplitHalves(left, right);
      MergeHalves(points, left, (left + right) / 2, right, fuel)
  }

  /** The recursive step of divideConquer: the hulls of points[left..mid]
      and points[mid + 1..right], merged; None when either half or the
      merge fails. */
  function MergeHalves(points: seq<Point>, left: nat, mid: nat, right: nat, fuel: nat): (hull: Option<seq<Point>>)
    requires left <= mid < right < |points|
    ensures hull.Some? ==> 2 <= |hull.value|
    ensures hull.Some? ==> multiset(hull.value) <= multiset(points[left..right + 1])
    decreases right - left, 0
  {
    var leftHull := DivideConquer(points, left, mid, fuel);
    var rightHull := DivideConquer(points, mid + 1, right, fuel);
    if leftHull.None? || rightHull.None? then None
    else
      var merged := Merge.Merge(leftHull.value, rightHull.value, fuel);
      if merged.None? then None
      else
        RangeSplit(points, left, mid, right);
        SubMultisetOfSum(multiset(merged.value), multiset(leftHull.value), multiset(rightHull.value),
                         multiset(points[left..mid + 1]), multiset(points[mid + 1..right + 1]));
        merged
  }

  /** divideConquer answers the same with any larger budget. */
  lemma {:induction false} DivideConquerMoreFuel(points: seq<Point>, left: nat, right: nat, fuel: nat, more: nat)
    requires left <= right < |points| && DivideConquer(points, left, right, fuel).Some?
    ensures DivideConquer(points, left, right, fuel + more) == DivideConquer(points, left, right, fuel)
    decreases right - left, 1
  {
    if right - left + 1 > 3 {
      SplitHalves(left, right);
      MergeHalvesMoreFuel(points, left, (left + right) / 2, right, fuel, more);
    }
  }

  /** The merge of the two halves answers the same with any larger budget. */
  lemma {:induction false} MergeHalvesMoreFuel(points: seq<Point>, left: nat, mid: nat, right: nat, fuel: nat, more: nat)
    requires left <= mid < right < |points| && MergeHalves(points, left, mid, right, fuel).Some?
    ensures MergeHalves(points, left, mid, right, fuel + more) == MergeHalves(points, left, mid, right, fuel)
    decreases right - left, 0
  {
    var leftHull := DivideConquer(points, left, mid, fuel);
    var rightHull := DivideConquer(points, mid + 1, right, fuel);
    DivideConquerMoreFuel(points, left, mid, fuel, more);
    DivideConquerMoreFuel(points, mid + 1, right, fuel, more);
    MergeMoreFuel(leftHull.value, rightHull.value, fuel, more);
  }

  /** convexHull. Fewer than three points are returned unchanged and
      unsorted; otherwise the recursion runs over `sorted`, the points sorted
      by x and then y. The library sort is not modelled: its result is the
      parameter `sorted`. */
  function ConvexHull(points: seq<Point>, sorted: seq<Point>, fuel: nat): (hull: Option<seq<Point>>)
    requires |points| >= 3 ==> SortedPermutation(sorted, points)
    ensures |points| < 3 ==> hull == Some(points)
    ensures |points| <= 3 ==> hull.Some?
    ensures hull.Some? ==> multiset(hull.value) <= multiset(points)
    ensures hull.Some? && |points| > 0 ==> |hull.value| > 0
  {
    if |points| < 3 then Some(points)
    else
      SortedPermutationLength(sorted, points);
      assert sorted[0..|sorted|] == sorted;
      DivideConquer(sorted, 0, |sorted| - 1, fuel)
  }

  /** From three points on, convexHull is divideConquer over the whole
      sorted sequence. */
  lemma ConvexHullSorts(points: seq<Point>, sorted: seq<Point>, fuel: nat)
    requires |points| >= 3 && SortedPermutation(sorted, points)
    ensures |sorted| == |points|
    ensures ConvexHull(points, sorted, fuel) == DivideConquer(sorted, 0, |points| - 1, fuel)
  {
    SortedPermutationLength(sorted, points);
  }

  /** The hull depends on the points alone: every sorted permutation of them
      gives the same result. */
  lemma ConvexHullIgnoresSortChoice(points: seq<Point>, s1: seq<Point>, s2: seq<Point>, fuel: nat)
    requires |points| >= 3 ==> SortedPermutation(s1, points) && SortedPermutation(s2, points)
    ensures ConvexHull(points, s1, fuel) == ConvexHull(points, s2, fuel)
  {
    if |points| >= 3 {
      SortedPermutationUnique(s1, s2);
    }
  }

  /** convexHull answers the same with any larger budget. */
  lemma ConvexHullMoreFuel(points: seq<Point>, sorted: seq<Point>, fuel: nat, more: nat)
    requires |points| >= 3 ==> SortedPermutation(sorted, points)
    requires ConvexHull(points, sorted, fuel).Some?
    ensures ConvexHull(points, sorted, fuel + more) == ConvexHull(points, sorted, fuel)
  {
    if |points| >= 3 {
      SortedPermutationLength(sorted, points);
      DivideConquerMoreFuel(sorted, 0, |sorted| - 1, fuel, more);
    }
  }
}
