/** Points of the plane and the orientation test, the only geometric
    predicate the hull algorithm consults. */
module Geometry {

  /** A point; coordinates are exact integers, so every orientation test is exact. */
  datatype Point = Point(x: int, y: int)

  /** Twice the signed area of the triangle p1 p2 p3: positive when
      p1 -> p2 -> p3 turns left (counterclockwise), negative when it turns
      right, zero when the three points are collinear. */
  function Cross(p1: Point, p2: Point, p3: Point): int
  {
    (p2.x - p1.x) * (p3.y - p1.y) - (p2.y - p1.y) * (p3.x - p1.x)
  }

  /** Swapping the last two points reverses the orientation. */
  lemma CrossAntisymmetric(p1: Point, p2: Point, p3: Point)
    ensures Cross(p1, p3, p2) == -Cross(p1, p2, p3)
  {
  }

  /** Rotating the triple does not change the orientation. */
  lemma CrossCyclic(p1: Point, p2: Point, p3: Point)
    ensures Cross(p2, p3, p1) == Cross(p1, p2, p3)
    ensures Cross(p3, p1, p2) == Cross(p1, p2, p3)
  {
  }

  /** A triple with a repeated point is collinear. */
  lemma CrossDegenerate(a: Point, b: Point)
    ensures Cross(a, b, b) == 0 && Cross(a, a, b) == 0 && Cross(a, b, a) == 0
  {
  }

  /** The order the input is sorted into: by x, then by y. */
  predicate LexLeq(p: Point, q: Point)
  {
    p.x < q.x || (p.x == q.x && p.y <= q.y)
  }

  predicate Sorted(s: seq<Point>)
  {
    forall i, j :: 0 <= i < j < |s| ==> LexLeq(s[i], s[j])
  }

  /** `sorted` is what a sort by (x, y) makes of `points`. */
  predicate SortedPermutation(sorted: seq<Point>, points: seq<Point>)
  {
    Sorted(sorted) && multiset(sorted) == multiset(points)
  }

  /** A permutation has as many elements as the original. */
  lemma SortedPermutationLength(sorted: seq<Point>, points: seq<Point>)
    requires SortedPermutation(sorted, points)
    ensures |sorted| == |points|
  {
    assert |sorted| == |multiset(sorted)| == |multiset(points)| == |points|;
  }

  /** The first element of a sorted sequence precedes all its elements. */
  lemma SortedHeadLeast(a: seq<Point>, p: Point)
    requires Sorted(a) && p in multiset(a)
    ensures LexLeq(a[0], p)
  {
    var i :| 0 <= i < |a| && a[i] == p;
    if i > 0 {
      assert LexLeq(a[0], a[i]);
    }
  }

  /** The (x, y) order is total on points, so the sorted permutation of a
      sequence is unique: whichever sort produces it, the result is the same. */
  lemma {:induction false} SortedPermutationUnique(a: seq<Point>, b: seq<Point>)
    requires Sorted(a) && Sorted(b) && multiset(a) == multiset(b)
    ensures a == b
  {
    assert |a| == |multiset(a)| == |multiset(b)| == |b|;
    if a != [] {
      SortedHeadLeast(a, b[0]);
      SortedHeadLeast(b, a[0]);
      assert a == [a[0]] + a[1..] && b == [b[0]] + b[1..];
      assert multiset(a[1..]) == multiset(a) - multiset{a[0]};
      assert multiset(b[1..]) == multiset(b) - multiset{b[0]};
      SortedPermutationUnique(a[1..], b[1..]);
    }
  }
}
