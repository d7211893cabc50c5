/** Index arithmetic on a hull read as a cycle: index n - 1 is followed by
    index 0. The steps are defined by cases; lemmas below show that they are
    the `%` expressions the original writes (all operands there are
    non-negative, so Dafny's `%` agrees with Java's). */
module Cyclic {

  /** One step counterclockwise. */
  function Next(i: nat, n: nat): (j: nat)
    requires i < n
    ensures j < n
  {
    if i + 1 == n then 0 else i + 1
  }

  /** One step clockwise. */
  function Prev(i: nat, n: nat): (j: nat)
    requires i < n
    ensures j < n
  {
    if i == 0 then n - 1 else i - 1
  }

  /** `Next` is the original's `(i + 1) % n`. */
  lemma NextIsMod(i: nat, n: nat)
    requires i < n
    ensures Next(i, n) == (i + 1) % n
  {
  }

  /** `Prev` is the original's `(i - 1 + n) % n`. */
  lemma PrevIsMod(i: nat, n: nat)
    requires i < n
    ensures Prev(i, n) == (i - 1 + n) % n
  {
  }

  /** The index k counterclockwise steps after `from`. */
  function Shift(from: nat, k: nat, n: nat): (j: nat)
    requires from < n && k < n
    ensures j < n
  {
    if from + k < n then from + k else from + k - n
  }

  /** The number of counterclockwise steps from index `from` to index `to`. */
  function Gap(from: nat, to: nat, n: nat): (g: nat)
    requires from < n && to < n
    ensures g < n
    ensures Shift(from, g, n) == to
  {
    if from <= to then to - from else to - from + n
  }

  /** `Gap` is `(to - from) mod n`. */
  lemma GapIsMod(from: nat, to: nat, n: nat)
    requires from < n && to < n
    ensures Gap(from, to, n) == (to - from) % n
  {
  }

  /** The vertices met walking counterclockwise around h from h[from] to
      h[to], both included: what the merge loops append. */
  function Arc<T>(h: seq<T>, from: nat, to: nat): (a: seq<T>)
    requires from < |h| && to < |h|
    ensures |a| == Gap(from, to, |h|) + 1
    ensures forall k :: 0 <= k < |a| ==> a[k] == h[Shift(from, k, |h|)]
    ensures a[0] == h[from] && a[|a| - 1] == h[to]
    decreases Gap(from, to, |h|)
  {
    if from == to then [h[from]]
    else
      var rest := Arc(h, Next(from, |h|), to);
      var a := [h[from]] + rest;
      assert forall k :: 1 <= k < |a| ==> a[k] == rest[k - 1];
      a
  }

  /** Walking one more step, while the end has not been reached, appends the
      next vertex to the arc. */
  lemma ArcExtend<T>(h: seq<T>, from: nat, cur: nat, end: nat)
    requires from < |h| && cur < |h| && end < |h|
    requires Gap(from, cur, |h|) < Gap(from, end, |h|)
    ensures Gap(from, Next(cur, |h|), |h|) == Gap(from, cur, |h|) + 1
    ensures Gap(Next(cur, |h|), end, |h|) < Gap(cur, end, |h|)
    ensures Arc(h, from, Next(cur, |h|)) == Arc(h, from, cur) + [h[Next(cur, |h|)]]
  {
    var a, b := Arc(h, from, cur), Arc(h, from, Next(cur, |h|));
    assert |b| == |a| + 1;
    forall k | 0 <= k < |b|
      ensures b[k] == (a + [h[Next(cur, |h|)]])[k]
    {
    }
  }

  /** An arc is the first part of the rotation of h that starts at `from`. */
  lemma ArcIsRotationPrefix<T>(h: seq<T>, from: nat, to: nat)
    requires from < |h| && to < |h|
    ensures Arc(h, from, to) == (h[from..] + h[..from])[..Gap(from, to, |h|) + 1]
  {
  }

  /** A rotation of h holds the same points as h. */
  lemma RotationMultiset<T>(h: seq<T>, from: nat)
    requires from <= |h|
    ensures multiset(h[from..] + h[..from]) == multiset(h)
  {
    assert h == h[..from] + h[from..];
  }

  /** A prefix holds no point more often than the whole sequence. */
  lemma PrefixSubMultiset<T>(r: seq<T>, g: nat)
    requires g <= |r|
    ensures multiset(r[..g]) <= multiset(r)
  {
    assert r == r[..g] + r[g..];
  }

  /** An arc visits every vertex at most once. */
  lemma ArcSubMultiset<T>(h: seq<T>, from: nat, to: nat)
    requires from < |h| && to < |h|
    ensures multiset(Arc(h, from, to)) <= multiset(h)
  {
    ArcIsRotationPrefix(h, from, to);
    RotationMultiset(h, from);
    PrefixSubMultiset(h[from..] + h[..from], Gap(from, to, |h|) + 1);
  }
}
