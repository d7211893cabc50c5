/** mergeHulls: stitch the left and right hulls together along their upper
    and lower tangents. */
module Merge {
  import opened Wrappers
  import opened Geometry
  import opened Cyclic
  import opened Tangents

  /** The merged hull for given tangents: the counterclockwise arc of the
      left hull from its upper-tangent vertex to its lower-tangent vertex,
      then the counterclockwise arc of the right hull from its lower-tangent
      vertex to its upper-tangent vertex. Each arc visits a vertex at most
      once, so every point of the result is one of the two hulls'. */
  function Stitch(L: seq<Point>, R: seq<Point>, upper: Tangent, lower: Tangent): (m: seq<Point>)
    requires upper.left < |L| && lower.left < |L| && upper.right < |R| && lower.right < |R|
    ensures |m| == Gap(upper.left, lower.left, |L|) + 1 + Gap(lower.right, upper.right, |R|) + 1
    ensures m[0] == L[upper.left] && m[|m| - 1] == R[upper.right]
    ensures multiset(m) <= multiset(L) + multiset(R)
  {
    ArcSubMultiset(L, upper.left, lower.left);
    ArcSubMultiset(R, lower.right, upper.right);
    Arc(L, upper.left, lower.left) + Arc(R, lower.right, upper.right)
  }

  /** The merge of two hulls: defined exactly when both tangent searches
      finish within the budget. */
  function Merge(L: seq<Point>, R: seq<Point>, fuel: nat): (m: Option<seq<Point>>)
    requires |L| > 0 && |R| > 0
    ensures m.Some? ==> 2 <= |m.value| && multiset(m.value) <= multiset(L) + multiset(R)
  {
    match UpperTangent(L, R, fuel)
    case None => None
    case Some(upper) =>
      match LowerTangent(L, R, fuel)
      case None => None
      case Some(lower) => Some(Stitch(L, R, upper, lower))
  }

  /** The stitched hull in the source's terms: its length is the two arc
      lengths in modular form, it starts at the left vertex of the upper
      tangent, ends at the right one, and every point comes from L or R. */
  lemma StitchShape(L: seq<Point>, R: seq<Point>, upper: Tangent, lower: Tangent)
    requires upper.left < |L| && lower.left < |L| && upper.right < |R| && lower.right < |R|
    ensures var m := Stitch(L, R, upper, lower);
      |m| == (lower.left - upper.left) % |L| + 1 + (upper.right - lower.right) % |R| + 1 &&
      m[0] == L[upper.left] && m[|m| - 1] == R[upper.right] &&
      forall i :: 0 <= i < |m| ==> m[i] in L || m[i] in R
  {
    GapIsMod(upper.left, lower.left, |L|);
    GapIsMod(lower.right, upper.right, |R|);
    var a, b := Arc(L, upper.left, lower.left), Arc(R, lower.right, upper.right);
    assert Stitch(L, R, upper, lower) == a + b;
    forall i | 0 <= i < |a + b|
      ensures (a + b)[i] in L || (a + b)[i] in R
    {
      if i < |a| {
        assert (a + b)[i] == L[Shift(upper.left, i, |L|)];
      } else {
        assert (a + b)[i] == R[Shift(lower.right, i - |a|, |R|)];
      }
    }
  }

  /** The merge fails exactly when a tangent search fails; otherwise it is
      the stitch along the two tangents found. */
  lemma MergeIsStitch(L: seq<Point>, R: seq<Point>, fuel: nat)
    requires |L| > 0 && |R| > 0
    ensures Merge(L, R, fuel).Some? <==> UpperTangent(L, R, fuel).Some? && LowerTangent(L, R, fuel).Some?
    ensures Merge(L, R, fuel).Some? ==>
      Merge(L, R, fuel).value == Stitch(L, R, UpperTangent(L, R, fuel).value, LowerTangent(L, R, fuel).value)
  {
  }

  /** The merge answers the same with any larger budget. */
  lemma MergeMoreFuel(L: seq<Point>, R: seq<Point>, fuel: nat, more: nat)
    requires |L| > 0 && |R| > 0 && Merge(L, R, fuel).Some?
    ensures Merge(L, R, fuel + more) == Merge(L, R, fuel)
  {
    SearchMoreFuel(L, R, Extremes.Rightmost(L), Extremes.Leftmost(R), Counterclockwise, fuel, more);
    SearchMoreFuel(L, R, Extremes.Rightmost(L), Extremes.Leftmost(R), Clockwise, fuel, more);
  }

  /** One of the two loops of mergeHulls: append h[from], then advance
      `current` modulo |h| and append each vertex, until h[to] is appended. */
  method AppendArc(merged: seq<Point>, h: seq<Point>, from: nat, to: nat) returns (m: seq<Point>)
    requires from < |h| && to < |h|
    ensures m == merged + Arc(h, from, to)
  {
    var current: nat := from;
    m := merged + [h[current]];
    while current != to
      invariant current < |h|
      invariant Gap(from, current, |h|) <= Gap(from, to, |h|)
      invariant m == merged + Arc(h, from, current)
      decreases Gap(current, to, |h|)
    {
      ArcExtend(h, from, current, to);
      NextIsMod(current, |h|);
      current := (current + 1) % |h|;
      m := m + [h[current]];
    }
  }

  /** mergeHulls: find both tangents, then append the left arc and the right arc. */
  method MergeHulls(L: seq<Point>, R: seq<Point>, fuel: nat) returns (merged: Option<seq<Point>>)
    requires |L| > 0 && |R| > 0
    ensures merged == Merge(L, R, fuel)
  {
    var upperTangent := FindUpperTangent(L, R, fuel);
    var lowerTangent := FindLowerTangent(L, R, fuel);
    if upperTangent.None? || lowerTangent.None? {
      return None;
    }
    var upper, lower := upperTangent.value, lowerTangent.value;
    // Points of the left hull, from the upper to the lower tangent.
    var m := AppendArc([], L, upper.left, lower.left);
    assert m == Arc(L, upper.left, lower.left);
    // Points of the right hull, from the lower to the upper tangent.
    m := AppendArc(m, R, lower.right, upper.right);
    assert m == Stitch(L, R, upper, lower);
    merged := Some(m);
  }
}
