/** Worked inputs: the hull of small concrete point sets, computed by the
    model itself. */
module Scenarios {
  import opened Wrappers
  import opened Geometry
  import opened Hull
  import opened Tangents
  import opened Extremes
  import Cyclic
  import Merge

  /** Two points are returned as given. */
  lemma TwoPointsUnchanged()
    ensures ConvexHull([Point(5, 5), Point(0, 0)], [], 0) == Some([Point(5, 5), Point(0, 0)])
  {
  }

  /** Three collinear points keep only the two ends of the segment. */
  lemma CollinearTriple()
    ensures var pts := [Point(2, 0), Point(0, 0), Point(1, 0)];
      ConvexHull(pts, [Point(0, 0), Point(1, 0), Point(2, 0)], 0) == Some([Point(0, 0), Point(2, 0)])
  {
    var pts := [Point(2, 0), Point(0, 0), Point(1, 0)];
    var sorted := [Point(0, 0), Point(1, 0), Point(2, 0)];
    assert sorted == [pts[1], pts[2], pts[0]];
    assert multiset(sorted) == multiset(pts);
  }

  /** Six points, of which two lie inside the square spanned by the others. */
  const SixInput := [Point(0, 0), Point(2, 2), Point(4, 0), Point(4, 4), Point(2, 1), Point(0, 4)]

  /** The same points sorted by x, then y. */
  const SixSorted := [Point(0, 0), Point(0, 4), Point(2, 1), Point(2, 2), Point(4, 0), Point(4, 4)]

  /** The hulls of the two halves: the first three sorted points turn
      clockwise and are reordered, the last three are kept. */
  const SixLeft := [Point(0, 0), Point(2, 1), Point(0, 4)]
  const SixRight := [Point(2, 2), Point(4, 0), Point(4, 4)]

  /** A sequence whose neighbours are in order is sorted. */
  lemma {:induction false} SortedByNeighbours(s: seq<Point>)
    requires forall i :: 0 <= i < |s| - 1 ==> LexLeq(s[i], s[i + 1])
    ensures Sorted(s)
  {
    if |s| > 1 {
      SortedByNeighbours(s[1..]);
      forall j | 1 <= j < |s|
        ensures LexLeq(s[0], s[j])
      {
        assert LexLeq(s[1], s[j]) || j == 1 by {
          if j > 1 { assert s[1..][0] == s[1] && s[1..][j - 1] == s[j]; }
        }
      }
      forall i, j | 0 <= i < j < |s|
        ensures LexLeq(s[i], s[j])
      {
        if i > 0 { assert s[1..][i - 1] == s[i] && s[1..][j - 1] == s[j]; }
      }
    }
  }

  lemma SixSortedOrder()
    ensures Sorted(SixSorted)
  {
    SortedByNeighbours(SixSorted);
  }

  lemma SixSortedSame()
    ensures multiset(SixSorted) == multiset(SixInput)
  {
    calc {
      multiset(SixSorted);
      multiset{Point(0, 0), Point(0, 4), Point(2, 1), Point(2, 2), Point(4, 0), Point(4, 4)};
      multiset{Point(0, 0), Point(2, 2), Point(4, 0), Point(4, 4), Point(2, 1), Point(0, 4)};
      multiset(SixInput);
    }
  }

  lemma SixSortedSorts()
    ensures SortedPermutation(SixSorted, SixInput)
  {
    SixSortedOrder();
    SixSortedSame();
  }

  lemma SixLeftHull()
    ensures SmallHull(SixSorted, 0, 2) == SixLeft
  {
    assert SixSorted[0] == Point(0, 0) && SixSorted[1] == Point(0, 4) && SixSorted[2] == Point(2, 1);
    assert Cross(Point(0, 0), Point(0, 4), Point(2, 1)) == -8;
    SmallHullKeeps(SixSorted, 0, 2);
  }

  lemma SixRightHull()
    ensures SmallHull(SixSorted, 3, 5) == SixRight
  {
    SmallHullKeeps(SixSorted, 3, 5);
    assert SixSorted[3] == Point(2, 2) && SixSorted[4] == Point(4, 0) && SixSorted[5] == Point(4, 4);
  }

  /** Both searches start at (2, 1), the only left vertex of largest x, and
      at (2, 2), the first right vertex of smallest x. */
  lemma SixStart()
    ensures Rightmost(SixLeft) == 1 && Leftmost(SixRight) == 0
  {
    assert SixLeft[0].x == 0 && SixLeft[1].x == 2 && SixLeft[2].x == 0;
    assert SixRight[0].x == 2 && SixRight[1].x == 4 && SixRight[2].x == 4;
    RightmostUnique(SixLeft, 1);
    LeftmostUnique(SixRight, 0);
  }

  /** The upper search starts at (2, 1) and (2, 2); the left pointer moves
      to (0, 4), the right pointer to (4, 4), and a second pass moves
      neither: the upper tangent joins (0, 4) and (4, 4). */
  lemma SixUpperTangent()
    ensures UpperTangent(SixLeft, SixRight, 2) == Some(Tangent(2, 2))
  {
    SixStart();
    assert Walk(SixLeft, Point(2, 2), 1, Counterclockwise, 2) == Some(Stop(2, 1));
    assert Walk(SixRight, Point(0, 4), 0, Clockwise, 1) == Some(Stop(2, 0));
    assert Stable(SixLeft, SixRight, Tangent(2, 2), Counterclockwise);
  }

  /** The lower search: the right pointer moves to (4, 0), then the left
      pointer to (0, 0): the lower tangent joins (0, 0) and (4, 0). */
  lemma SixLowerTangent()
    ensures LowerTangent(SixLeft, SixRight, 2) == Some(Tangent(0, 1))
  {
    SixStart();
    assert Walk(SixLeft, Point(2, 2), 1, Clockwise, 2) == Some(Stop(1, 2));
    assert Walk(SixRight, Point(2, 1), 0, Counterclockwise, 2) == Some(Stop(1, 1));
    assert Walk(SixLeft, Point(4, 0), 1, Clockwise, 1) == Some(Stop(0, 0));
    assert Walk(SixRight, Point(0, 0), 1, Counterclockwise, 0) == Some(Stop(1, 0));
    assert Stable(SixLeft, SixRight, Tangent(0, 1), Clockwise);
  }

  /** The arcs between the tangents: (0, 4), (0, 0) on the left hull and
      (4, 0), (4, 4) on the right hull. */
  lemma SixStitch()
    ensures Merge.Stitch(SixLeft, SixRight, Tangent(2, 2), Tangent(0, 1)) ==
      [Point(0, 4), Point(0, 0), Point(4, 0), Point(4, 4)]
  {
    assert Cyclic.Arc(SixLeft, 0, 0) == [Point(0, 0)];
    assert Cyclic.Arc(SixLeft, 2, 0) == [Point(0, 4), Point(0, 0)];
    assert Cyclic.Arc(SixRight, 2, 2) == [Point(4, 4)];
    assert Cyclic.Arc(SixRight, 1, 2) == [Point(4, 0), Point(4, 4)];
  }

  lemma SixMerge()
    ensures Merge.Merge(SixLeft, SixRight, 2) == Some([Point(0, 4), Point(0, 0), Point(4, 0), Point(4, 4)])
  {
    SixUpperTangent();
    SixLowerTangent();
    SixStitch();
  }

  /** divideConquer over the sorted points splits them at index 2 and
      merges the two three-point hulls. */
  lemma SixDivideConquer()
    ensures DivideConquer(SixSorted, 0, 5, 2) == Some([Point(0, 4), Point(0, 0), Point(4, 0), Point(4, 4)])
  {
    SixLeftHull();
    SixRightHull();
    SixMerge();
  }

  /** The hull is the four corners of the square, counterclockwise from the
      top-left corner; two units of fuel suffice. */
  lemma SixPoints()
    ensures SortedPermutation(SixSorted, SixInput)
    ensures ConvexHull(SixInput, SixSorted, 2) == Some([Point(0, 4), Point(0, 0), Point(4, 0), Point(4, 4)])
  {
    SixSortedSorts();
    ConvexHullSorts(SixInput, SixSorted, 2);
    SixDivideConquer();
  }
}
