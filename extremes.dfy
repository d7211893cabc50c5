/** The scans that pick the starting vertices of the tangent search:
    getRightmost on the left hull and getLeftmost on the right hull. */
module Extremes {
  import opened Geometry

  /** The index the rightmost scan holds after looking at hull[..n]: the
      first vertex of largest x among them (the comparison is strict, so a
      later vertex with the same x does not replace it). */
  function RightmostIn(hull: seq<Point>, n: nat): (idx: nat)
    requires 0 < n <= |hull|
    ensures idx < n
    ensures forall j :: 0 <= j < n ==> hull[j].x <= hull[idx].x
    ensures forall j :: 0 <= j < idx ==> hull[j].x < hull[idx].x
  {
    if n == 1 then 0
    else
      var k := RightmostIn(hull, n - 1);
      if hull[n - 1].x > hull[k].x then n - 1 else k
  }

  /** The index the leftmost scan holds after looking at hull[..n]: the
      first vertex of smallest x among them. */
  function LeftmostIn(hull: seq<Point>, n: nat): (idx: nat)
    requires 0 < n <= |hull|
    ensures idx < n
    ensures forall j :: 0 <= j < n ==> hull[idx].x <= hull[j].x
    ensures forall j :: 0 <= j < idx ==> hull[idx].x < hull[j].x
  {
    if n == 1 then 0
    else
      var k := LeftmostIn(hull, n - 1);
      if hull[n - 1].x < hull[k].x then n - 1 else k
  }

  /** The result of getRightmost; 0 for an empty hull, where the scan does not run. */
  function Rightmost(hull: seq<Point>): (idx: nat)
    ensures |hull| == 0 ==> idx == 0
    ensures |hull| > 0 ==> idx < |hull|
    ensures forall j :: 0 <= j < |hull| ==> hull[j].x <= hull[idx].x
    ensures forall j :: 0 <= j < idx ==> hull[j].x < hull[idx].x
  {
    if |hull| == 0 then 0 else RightmostIn(hull, |hull|)
  }

  /** The result of getLeftmost; 0 for an empty hull. */
  function Leftmost(hull: seq<Point>): (idx: nat)
    ensures |hull| == 0 ==> idx == 0
    ensures |hull| > 0 ==> idx < |hull|
    ensures forall j :: 0 <= j < |hull| ==> hull[idx].x <= hull[j].x
    ensures forall j :: 0 <= j < idx ==> hull[idx].x < hull[j].x
  {
    if |hull| == 0 then 0 else LeftmostIn(hull, |hull|)
  }

  /** The first vertex of largest x is the only index with both properties,
      so `Rightmost` is determined by them. */
  lemma RightmostUnique(hull: seq<Point>, i: nat)
    requires i < |hull|
    requires forall j :: 0 <= j < |hull| ==> hull[j].x <= hull[i].x
    requires forall j :: 0 <= j < i ==> hull[j].x < hull[i].x
    ensures i == Rightmost(hull)
  {
  }

  /** The first vertex of smallest x is the only index with both properties. */
  lemma LeftmostUnique(hull: seq<Point>, i: nat)
    requires i < |hull|
    requires forall j :: 0 <= j < |hull| ==> hull[i].x <= hull[j].x
    requires forall j :: 0 <= j < i ==> hull[i].x < hull[j].x
    ensures i == Leftmost(hull)
  {
  }

  /** Linear scan for the rightmost vertex, as getRightmost does it. */
  method GetRightmost(hull: seq<Point>) returns (idx: nat)
    ensures idx == Rightmost(hull)
  {
    idx := 0;
    var i := 1;
    while i < |hull|
      invariant 1 <= i
      invariant |hull| > 0 ==> i <= |hull| && idx == RightmostIn(hull, i)
      invariant |hull| == 0 ==> idx == 0
    {
      if hull[i].x > hull[idx].x {
        idx := i;
      }
      i := i + 1;
    }
  }

  /** Linear scan for the leftmost vertex, as getLeftmost does it. */
  method GetLeftmost(hull: seq<Point>) returns (idx: nat)
    ensures idx == Leftmost(hull)
  {
    idx := 0;
    var i := 1;
    while i < |hull|
      invariant 1 <= i
      invariant |hull| > 0 ==> i <= |hull| && idx == LeftmostIn(hull, i)
      invariant |hull| == 0 ==> idx == 0
    {
      if hull[i].x < hull[idx].x {
        idx := i;
      }
      i := i + 1;
    }
  }
}
