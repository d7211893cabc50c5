/** The tangent search: findUpperTangent and findLowerTangent. Each keeps
    one pointer on the left hull and one on the right hull and, pass after
    pass, advances each pointer as far as it can until a whole pass moves
    neither. The original loops need not terminate on arbitrary input, so
    the model counts pointer moves against a `fuel` budget and answers None
    when the budget runs out; the lemmas at the end show that the budget
    only decides whether an answer is reached, never which answer. */
module Tangents {
  import opened Wrappers
  import opened Geometry
  import opened Cyclic
  import opened Extremes

  /** The direction a pointer moves around its hull. */
  datatype Direction = Counterclockwise | Clockwise

  function Step(i: nat, n: nat, d: Direction): (j: nat)
    requires i < n
    ensures j < n
  {
    match d
    case Counterclockwise => Next(i, n)
    case Clockwise => Prev(i, n)
  }

  /** The inner loop's exit test: the pointer at h[i] may not advance in
      direction d as seen from the pivot (the current vertex of the other
      hull). Collinear neighbours stop the pointer. */
  predicate Blocked(h: seq<Point>, pivot: Point, i: nat, d: Direction)
    requires i < |h|
  {
    match d
    case Counterclockwise => Cross(pivot, h[i], h[Next(i, |h|)]) >= 0
    case Clockwise => Cross(pivot, h[i], h[Prev(i, |h|)]) <= 0
  }

  /** Where an inner loop leaves its pointer, and the fuel left over. */
  datatype Stop = Stop(index: nat, fuel: nat)

  /** One inner `while (true)` loop: advance from h[i] in direction d until
      blocked, one unit of fuel per move. */
  function Walk(h: seq<Point>, pivot: Point, i: nat, d: Direction, fuel: nat): (s: Option<Stop>)
    requires i < |h|
    ensures s.Some? ==> s.value.index < |h| && s.value.fuel <= fuel
    ensures s.Some? ==> Blocked(h, pivot, s.value.index, d)
    ensures Blocked(h, pivot, i, d) ==> s == Some(Stop(i, fuel))
    ensures !Blocked(h, pivot, i, d) && s.Some? ==> s.value.fuel < fuel
    decreases fuel
  {
    if Blocked(h, pivot, i, d) then Some(Stop(i, fuel))
    else if fuel == 0 then None
    else Walk(h, pivot, Step(i, |h|, d), d, fuel - 1)
  }

  /** The opposite direction. */
  function Reverse(d: Direction): (e: Direction)
    ensures e != d
  {
    match d
    case Counterclockwise => Clockwise
    case Clockwise => Counterclockwise
  }

  /** A pair of indices, one on the left hull and one on the right hull. */
  datatype Tangent = Tangent(left: nat, right: nat)

  /** Neither pointer of a search can move: the left pointer is blocked in
      direction d, the right pointer in the reverse direction. The upper
      search moves the left pointer counterclockwise, the lower search
      clockwise. */
  predicate Stable(L: seq<Point>, R: seq<Point>, t: Tangent, d: Direction)
    requires t.left < |L| && t.right < |R|
  {
    Blocked(L, R[t.right], t.left, d) && Blocked(R, L[t.left], t.right, Reverse(d))
  }

  /** The outer `while (!done)` loop of a search from (l, r): each pass moves
      the left pointer in direction d, then the right pointer the other way
      (SearchRight); a pass that moves neither ends the search. */
  function Search(L: seq<Point>, R: seq<Point>, l: nat, r: nat, d: Direction, fuel: nat): (t: Option<Tangent>)
    requires l < |L| && r < |R|
    ensures t.Some? ==> t.value.left < |L| && t.value.right < |R| && Stable(L, R, t.value, d)
    ensures Stable(L, R, Tangent(l, r), d) ==> t == Some(Tangent(l, r))
    decreases fuel, 1
  {
    match Walk(L, R[r], l, d, fuel)
    case None => None
    case Some(a) => SearchRight(L, R, a.index, r, d, a.fuel, fuel)
  }

  /** The second half of a pass: the left pointer stopped at l, blocked, with
      f of the pass's initial `fuel` left; move the right pointer, then end
      the search if the whole pass used no fuel, else start the next pass. */
  function SearchRight(L: seq<Point>, R: seq<Point>, l: nat, r: nat, d: Direction, f: nat, fuel: nat): (t: Option<Tangent>)
    requires l < |L| && r < |R| && f <= fuel && Blocked(L, R[r], l, d)
    ensures t.Some? ==> t.value.left < |L| && t.value.right < |R| && Stable(L, R, t.value, d)
    ensures f == fuel && Blocked(R, L[l], r, Reverse(d)) ==> t == Some(Tangent(l, r))
    decreases fuel, 0
  {
    match Walk(R, L[l], r, Reverse(d), f)
    case None => None
    case Some(b) =>
      if b.fuel == fuel then Some(Tangent(l, b.index))
      else Search(L, R, l, b.index, d, b.fuel)
  }

  /** The upper tangent search, started at the rightmost vertex of the left
      hull and the leftmost vertex of the right hull. */
  function UpperTangent(L: seq<Point>, R: seq<Point>, fuel: nat): (t: Option<Tangent>)
    requires |L| > 0 && |R| > 0
    ensures t.Some? ==> t.value.left < |L| && t.value.right < |R| && Stable(L, R, t.value, Counterclockwise)
  {
    Search(L, R, Rightmost(L), Leftmost(R), Counterclockwise, fuel)
  }

  /** The lower tangent search, from the same starting vertices. */
  function LowerTangent(L: seq<Point>, R: seq<Point>, fuel: nat): (t: Option<Tangent>)
    requires |L| > 0 && |R| > 0
    ensures t.Some? ==> t.value.left < |L| && t.value.right < |R| && Stable(L, R, t.value, Clockwise)
  {
    Search(L, R, Rightmost(L), Leftmost(R), Clockwise, fuel)
  }

  /** When the upper search ends at (l, r), in the original's own terms: the
      next left vertex does not lie strictly above the line from R[r]
      through L[l], and the previous right vertex not strictly above the
      line from L[l] through R[r]. */
  lemma UpperTangentExit(L: seq<Point>, R: seq<Point>, fuel: nat)
    requires |L| > 0 && |R| > 0 && UpperTangent(L, R, fuel).Some?
    ensures var t := UpperTangent(L, R, fuel).value;
      t.left < |L| && t.right < |R| &&
      Cross(R[t.right], L[t.left], L[(t.left + 1) % |L|]) >= 0 &&
      Cross(L[t.left], R[t.right], R[(t.right - 1 + |R|) % |R|]) <= 0
  {
    var t := UpperTangent(L, R, fuel).value;
    NextIsMod(t.left, |L|);
    PrevIsMod(t.right, |R|);
  }

  /** When the lower search ends at (l, r): the previous left vertex does not
      lie strictly below the line from R[r] through L[l], and the next right
      vertex not strictly below the line from L[l] through R[r]. */
  lemma LowerTangentExit(L: seq<Point>, R: seq<Point>, fuel: nat)
    requires |L| > 0 && |R| > 0 && LowerTangent(L, R, fuel).Some?
    ensures var t := LowerTangent(L, R, fuel).value;
      t.left < |L| && t.right < |R| &&
      Cross(R[t.right], L[t.left], L[(t.left - 1 + |L|) % |L|]) <= 0 &&
      Cross(L[t.left], R[t.right], R[(t.right + 1) % |R|]) >= 0
  {
    var t := LowerTangent(L, R, fuel).value;
    PrevIsMod(t.left, |L|);
    NextIsMod(t.right, |R|);
  }

  /** An inner loop that moves a pointer counterclockwise (the left pointer
      of the upper search, the right pointer of the lower search) for as
      long as the turn pivot, h[i], h[next] is clockwise. */
  method AdvanceCounterclockwise(h: seq<Point>, pivot: Point, i: nat, fuel: nat) returns (s: Option<Stop>)
    requires i < |h|
    ensures s == Walk(h, pivot, i, Counterclockwise, fuel)
  {
    var idx: nat, f: nat := i, fuel;
    while true
      invariant idx < |h|
      invariant Walk(h, pivot, idx, Counterclockwise, f) == Walk(h, pivot, i, Counterclockwise, fuel)
      decreases f
    {
      var next := (idx + 1) % |h|;
      NextIsMod(idx, |h|);
      if Cross(pivot, h[idx], h[next]) >= 0 {
        return Some(Stop(idx, f));
      }
      if f == 0 {
        return None;
      }
      idx, f := next, f - 1;
    }
  }

  /** An inner loop that moves a pointer clockwise (the right pointer of the
      upper search, the left pointer of the lower search) for as long as the
      turn pivot, h[i], h[prev] is counterclockwise. */
  method AdvanceClockwise(h: seq<Point>, pivot: Point, i: nat, fuel: nat) returns (s: Option<Stop>)
    requires i < |h|
    ensures s == Walk(h, pivot, i, Clockwise, fuel)
  {
    var idx: nat, f: nat := i, fuel;
    while true
      invariant idx < |h|
      invariant Walk(h, pivot, idx, Clockwise, f) == Walk(h, pivot, i, Clockwise, fuel)
      decreases f
    {
      var prev := (idx - 1 + |h|) % |h|;
      PrevIsMod(idx, |h|);
      if Cross(pivot, h[idx], h[prev]) <= 0 {
        return Some(Stop(idx, f));
      }
      if f == 0 {
        return None;
      }
      idx, f := prev, f - 1;
    }
  }

  /** findUpperTangent: passes of the two inner loops until a pass moves
      neither pointer; `fuel` bounds the number of pointer moves. */
  method FindUpperTangent(L: seq<Point>, R: seq<Point>, fuel: nat) returns (t: Option<Tangent>)
    requires |L| > 0 && |R| > 0
    ensures t == UpperTangent(L, R, fuel)
  {
    var leftIdx: nat := GetRightmost(L);
    var rightIdx: nat := GetLeftmost(R);
    var f := fuel;
    var done := false;
    while !done
      invariant leftIdx < |L| && rightIdx < |R|
      invariant !done ==> Search(L, R, leftIdx, rightIdx, Counterclockwise, f) == UpperTangent(L, R, fuel)
      invariant done ==> Some(Tangent(leftIdx, rightIdx)) == UpperTangent(L, R, fuel)
      decreases f, if done then 0 else 1
    {
      var a := AdvanceCounterclockwise(L, R[rightIdx], leftIdx, f);
      if a.None? {
        return None;
      }
      var b := AdvanceClockwise(R, L[a.value.index], rightIdx, a.value.fuel);
      if b.None? {
        return None;
      }
      done := b.value.fuel == f;
      leftIdx, rightIdx, f := a.value.index, b.value.index, b.value.fuel;
    }
    t := Some(Tangent(leftIdx, rightIdx));
  }

  /** findLowerTangent: as the upper search with the directions reversed. */
  method FindLowerTangent(L: seq<Point>, R: seq<Point>, fuel: nat) returns (t: Option<Tangent>)
    requires |L| > 0 && |R| > 0
    ensures t == LowerTangent(L, R, fuel)
  {
    var leftIdx: nat := GetRightmost(L);
    var rightIdx: nat := GetLeftmost(R);
    var f := fuel;
    var done := false;
    while !done
      invariant leftIdx < |L| && rightIdx < |R|
      invariant !done ==> Search(L, R, leftIdx, rightIdx, Clockwise, f) == LowerTangent(L, R, fuel)
      invariant done ==> Some(Tangent(leftIdx, rightIdx)) == LowerTangent(L, R, fuel)
      decreases f, if done then 0 else 1
    {
      var a := AdvanceClockwise(L, R[rightIdx], leftIdx, f);
      if a.None? {
        return None;
      }
      var b := AdvanceCounterclockwise(R, L[a.value.index], rightIdx, a.value.fuel);
      if b.None? {
        return None;
      }
      done := b.value.fuel == f;
      leftIdx, rightIdx, f := a.value.index, b.value.index, b.value.fuel;
    }
    t := Some(Tangent(leftIdx, rightIdx));
  }

  /** More fuel lets a walk stop at the same vertex, with the surplus left over. */
  lemma {:induction false} WalkMoreFuel(h: seq<Point>, pivot: Point, i: nat, d: Direction, fuel: nat, more: nat)
    requires i < |h| && Walk(h, pivot, i, d, fuel).Some?
    ensures Walk(h, pivot, i, d, fuel + more) ==
      Some(Stop(Walk(h, pivot, i, d, fuel).value.index, Walk(h, pivot, i, d, fuel).value.fuel + more))
    decreases fuel
  {
    if !Blocked(h, pivot, i, d) {
      WalkMoreFuel(h, pivot, Step(i, |h|, d), d, fuel - 1, more);
    }
  }

  /** A search answers the same with any larger budget. */
  lemma {:induction false} SearchMoreFuel(L: seq<Point>, R: seq<Point>, l: nat, r: nat, d: Direction, fuel: nat, more: nat)
    requires l < |L| && r < |R| && Search(L, R, l, r, d, fuel).Some?
    ensures Search(L, R, l, r, d, fuel + more) == Search(L, R, l, r, d, fuel)
    decreases fuel, 1
  {
    var a := Walk(L, R[r], l, d, fuel).value;
    WalkMoreFuel(L, R[r], l, d, fuel, more);
    SearchRightMoreFuel(L, R, a.index, r, d, a.fuel, fuel, more);
  }

  /** The second half of a pass answers the same when both budgets grow by
      the same amount. */
  lemma {:induction false} SearchRightMoreFuel(L: seq<Point>, R: seq<Point>, l: nat, r: nat, d: Direction, f: nat, fuel: nat, more: nat)
    requires l < |L| && r < |R| && f <= fuel && Blocked(L, R[r], l, d)
    requires SearchRight(L, R, l, r, d, f, fuel).Some?
    ensures SearchRight(L, R, l, r, d, f + more, fuel + more) == SearchRight(L, R, l, r, d, f, fuel)
    decreases fuel, 0
  {
    var b := Walk(R, L[l], r, Reverse(d), f).value;
    WalkMoreFuel(R, L[l], r, Reverse(d), f, more);
    if b.fuel != fuel {
      SearchMoreFuel(L, R, l, b.index, d, b.fuel, more);
    }
  }
}
