# Divide-and-conquer convex hull, modelled in Dafny

This project models `ConvexHullDivideConquer`, a divide-and-conquer convex
hull for points in the plane, and proves properties of the model.

- `convexHull` sorts the points by x and then y, and calls `divideConquer`
  on the whole index range.
- `divideConquer` builds the hull of one to three points directly
  (`computeSmallHull`). Larger ranges are split at `mid = (left + right) / 2`,
  and the two half-hulls are merged with `mergeHulls`.
- `mergeHulls` finds the upper and the lower tangent between the two hulls
  (`findUpperTangent`, `findLowerTangent`). Each tangent search starts at the
  rightmost vertex of the left hull and the leftmost vertex of the right hull
  (`getRightmost`, `getLeftmost`). The merged hull is then read off along two
  counterclockwise arcs, with indices taken modulo the hull size.
- Every decision is the sign of one orientation test, `crossProduct`.

Modules, one per concern of the original:

| file | module | contents |
|---|---|---|
| `wrappers.dfy` | `Wrappers` | `Option`, the result of an operation that may run out of fuel |
| `geometry.dfy` | `Geometry` | `Point`, `Cross`, the (x, y) order and sorted permutations |
| `cyclic.dfy` | `Cyclic` | cyclic index steps, and the arcs the merge walks |
| `extremes.dfy` | `Extremes` | `getRightmost` / `getLeftmost`, as functions and as loops |
| `tangents.dfy` | `Tangents` | the tangent searches, as functions and as nested loops |
| `merge.dfy` | `Merge` | `mergeHulls`, as a function and as two loops |
| `hull.dfy` | `Hull` | `computeSmallHull`, `divideConquer`, `convexHull` |
| `scenarios.dfy` | `Scenarios` | worked inputs, including the six-point example of the driver |

Modelling decisions:

- **Coordinates are integers.** The original uses `double`, but `Cross` only
  adds, subtracts and multiplies, and only its sign is used. With integers
  every orientation test is exact.
- **Pure code is modelled as functions.** This covers `crossProduct`,
  `computeSmallHull`, `divideConquer` and `convexHull`.
- **Loops and index updates are modelled as methods.** This covers
  `getRightmost`, `getLeftmost`, the tangent searches and `mergeHulls`. Each
  method is proved equal to a function (`ensures idx == Rightmost(hull)`,
  `ensures t == UpperTangent(L, R, fuel)`, `ensures merged == Merge(L, R, fuel)`),
  and the lemmas are stated about those functions.
- **The tangent loops carry a fuel budget.** The outer `while (!done)` loops
  and their inner `while (true)` loops are not known to terminate on every
  input. So every pointer move costs one unit of `fuel`, and a search that
  runs out answers `None`; the `None` travels up through `Merge`,
  `DivideConquer` and `ConvexHull`. The `...MoreFuel` lemmas show that more
  fuel never changes an answer once there is one. So the budget only decides
  whether the original would have finished within that many moves.
- **The function behind the tangent loops is split in two.** One pass of the
  outer loop is `Search` (the left pointer's inner loop) followed by
  `SearchRight` (the right pointer's inner loop). The two are mutually
  recursive. A `Direction` parameter gives the upper search
  (`Counterclockwise`) and the lower search (`Clockwise`).
- **The inner loops are separate methods.** The two inner loops of a tangent
  search are `AdvanceCounterclockwise` and `AdvanceClockwise`, and the two
  loops of `mergeHulls` are calls of `AppendArc`. The statements they execute
  are the original's.
- **The sort is a parameter.** `ConvexHull` takes `sorted`, with the
  precondition that it is the input sorted by (x, y). `SortedPermutationUnique`
  shows that only one such sequence exists, so the result does not depend on
  which sort produced it.
- **The split into `DivideConquer` and `MergeHalves`.** `DivideConquer` makes
  the size test. `MergeHalves` recurses on the two halves and merges them.
  Together they are the body of `divideConquer`.

## Model

| member | source | states |
|---|---|---|
| Geometry.CrossAntisymmetric | project2/ConvexHullDivideConquer.java:172-174 | swapping the last two points negates the cross product, which is why `computeSmallHull` may swap p2 and p3 to make a clockwise triple counterclockwise |
| Geometry.CrossCyclic | project2/ConvexHullDivideConquer.java:172-174 | rotating the three points does not change the cross product |
| Geometry.CrossDegenerate | project2/ConvexHullDivideConquer.java:172-174 | a triple with a repeated point has cross product zero |
| Geometry.SortedPermutationLength | project2/ConvexHullDivideConquer.java:29-33 | the sorted copy has as many points as the input |
| Geometry.SortedHeadLeast | project2/ConvexHullDivideConquer.java:29-33 | the first point of a sorted sequence precedes, in the (x, y) order, every point it holds |
| Geometry.SortedPermutationUnique | project2/ConvexHullDivideConquer.java:29-33 | two sequences that are both sorted by (x, y) and hold the same points are equal, so the sorted copy is determined by the input |
| Cyclic.Next | project2/ConvexHullDivideConquer.java:75 | one counterclockwise step stays in range |
| Cyclic.NextIsMod | project2/ConvexHullDivideConquer.java:106 | the step equals the original's `(i + 1) % n` |
| Cyclic.Prev | project2/ConvexHullDivideConquer.java:117 | one clockwise step stays in range |
| Cyclic.PrevIsMod | project2/ConvexHullDivideConquer.java:144 | the step equals the original's `(i - 1 + n) % n` |
| Cyclic.Shift | project2/ConvexHullDivideConquer.java:74-77 | k counterclockwise steps from an index stay in range |
| Cyclic.Gap | project2/ConvexHullDivideConquer.java:74-77 | the number of counterclockwise steps from `from` to `to` is below n, and taking that many steps from `from` lands on `to` |
| Cyclic.GapIsMod | project2/ConvexHullDivideConquer.java:74-77 | that number of steps is `(to - from) mod n` |
| Cyclic.Arc | project2/ConvexHullDivideConquer.java:70-77 | the arc the merge loop appends: it has `Gap + 1` vertices, its k-th vertex is the one k steps after `from`, and it runs from h[from] to h[to] |
| Cyclic.ArcExtend | project2/ConvexHullDivideConquer.java:74-77 | one more loop iteration appends the next vertex to the arc and brings the loop one step closer to `to` |
| Cyclic.ArcIsRotationPrefix | project2/ConvexHullDivideConquer.java:70-77 | an arc is a prefix of the rotation of the hull that starts at `from` |
| Cyclic.RotationMultiset | project2/ConvexHullDivideConquer.java:70-77 | a rotation of the hull holds the same points as the hull |
| Cyclic.PrefixSubMultiset | project2/ConvexHullDivideConquer.java:70-77 | a prefix holds no point more often than the whole sequence |
| Cyclic.ArcSubMultiset | project2/ConvexHullDivideConquer.java:70-77 | an arc holds no vertex more often than the hull does |
| Extremes.RightmostIn | project2/ConvexHullDivideConquer.java:214-222 | after scanning hull[..n] the index is in range, has the largest x of the scanned vertices, and every earlier index has strictly smaller x |
| Extremes.LeftmostIn | project2/ConvexHullDivideConquer.java:227-235 | after scanning hull[..n] the index is in range, has the smallest x, and every earlier index has strictly larger x |
| Extremes.Rightmost | project2/ConvexHullDivideConquer.java:214-222 | on a non-empty hull, an index in range with no vertex of larger x and no earlier vertex of equal x; 0 on an empty hull |
| Extremes.Leftmost | project2/ConvexHullDivideConquer.java:227-235 | on a non-empty hull, an index in range with no vertex of smaller x and no earlier vertex of equal x; 0 on an empty hull |
| Extremes.RightmostUnique | project2/ConvexHullDivideConquer.java:214-222 | any index with these two properties is the one `getRightmost` returns |
| Extremes.LeftmostUnique | project2/ConvexHullDivideConquer.java:227-235 | any index with these two properties is the one `getLeftmost` returns |
| Extremes.GetRightmost | project2/ConvexHullDivideConquer.java:214-222 | the loop with its strict `>` returns `Rightmost(hull)` |
| Extremes.GetLeftmost | project2/ConvexHullDivideConquer.java:227-235 | the loop with its strict `<` returns `Leftmost(hull)` |
| Tangents.Step | project2/ConvexHullDivideConquer.java:106 | a step in either direction stays in range |
| Tangents.Reverse | project2/ConvexHullDivideConquer.java:101-125 | the right pointer moves in the direction opposite to the left pointer's |
| Tangents.Walk | project2/ConvexHullDivideConquer.java:105-113 | an inner loop: when it stops, the index is in range, the pointer is blocked there (its exit test holds), and no more fuel is left than at the start; a pointer already blocked stops at once without spending fuel; a pointer that moves spends fuel |
| Tangents.Search | project2/ConvexHullDivideConquer.java:101-125 | the outer loop from (l, r): a result is in range and neither pointer can move from it; if neither pointer can move from (l, r), the result is (l, r) |
| Tangents.SearchRight | project2/ConvexHullDivideConquer.java:116-125 | the second half of a pass: a result is in range and stable; a pass that moved neither pointer ends the search where it is |
| Tangents.UpperTangent | project2/ConvexHullDivideConquer.java:95-128 | the upper search, started at the rightmost left vertex and the leftmost right vertex, returns in-range indices with neither pointer able to move |
| Tangents.LowerTangent | project2/ConvexHullDivideConquer.java:133-166 | the same for the lower search |
| Tangents.UpperTangentExit | project2/ConvexHullDivideConquer.java:95-128 | on return, `cross(R[r], L[l], L[(l+1)%|L|]) >= 0` and `cross(L[l], R[r], R[(r-1+|R|)%|R|]) <= 0`, with the indices in range |
| Tangents.LowerTangentExit | project2/ConvexHullDivideConquer.java:133-166 | on return, `cross(R[r], L[l], L[(l-1+|L|)%|L|]) <= 0` and `cross(L[l], R[r], R[(r+1)%|R|]) >= 0`, with the indices in range |
| Tangents.AdvanceCounterclockwise | project2/ConvexHullDivideConquer.java:105-113 | the counterclockwise inner loop (also :154-162) computes `Walk` |
| Tangents.AdvanceClockwise | project2/ConvexHullDivideConquer.java:116-124 | the clockwise inner loop (also :143-151) computes `Walk` |
| Tangents.FindUpperTangent | project2/ConvexHullDivideConquer.java:95-128 | the nested loops compute `UpperTangent` |
| Tangents.FindLowerTangent | project2/ConvexHullDivideConquer.java:133-166 | the nested loops compute `LowerTangent` |
| Tangents.WalkMoreFuel | project2/ConvexHullDivideConquer.java:105-113 | with more fuel an inner loop stops at the same vertex, with the surplus left over |
| Tangents.SearchMoreFuel | project2/ConvexHullDivideConquer.java:101-125 | with more fuel a tangent search returns the same tangent |
| Tangents.SearchRightMoreFuel | project2/ConvexHullDivideConquer.java:116-125 | the same for the second half of a pass |
| Merge.Stitch | project2/ConvexHullDivideConquer.java:67-89 | the two arcs joined: its length is the two arc lengths plus one each; it starts at L[upper.left] and ends at R[upper.right]; it holds no point more often than L and R together |
| Merge.StitchShape | project2/ConvexHullDivideConquer.java:67-89 | its length is `((lower.left - upper.left) mod |L|) + 1 + ((upper.right - lower.right) mod |R|) + 1`; it starts at L[upper.left] and ends at R[upper.right]; every point of it is a point of L or of R |
| Merge.Merge | project2/ConvexHullDivideConquer.java:62-90 | a merged hull has at least two points and holds no point more often than the two hulls together |
| Merge.MergeIsStitch | project2/ConvexHullDivideConquer.java:62-90 | the merge answers exactly when both tangent searches do, and then it is the stitch along the two tangents found |
| Merge.MergeMoreFuel | project2/ConvexHullDivideConquer.java:62-90 | with more fuel the merge returns the same hull |
| Merge.AppendArc | project2/ConvexHullDivideConquer.java:70-77 | one merge loop appends exactly `Arc(h, from, to)` (also :80-87) |
| Merge.MergeHulls | project2/ConvexHullDivideConquer.java:62-90 | `mergeHulls` computes `Merge` |
| Hull.SmallHull | project2/ConvexHullDivideConquer.java:179-209 | `computeSmallHull` returns one to three points, starting with points[left]; a three-point result has strictly positive orientation; it holds no point more often than the range |
| Hull.SmallHullKeeps | project2/ConvexHullDivideConquer.java:179-209 | its exact output: [p] for one point; [p1, p2] for two; [p1, p2, p3] if the cross product is positive, [p1, p3, p2] if it is negative, and [p1, p3] if it is zero |
| Hull.SmallHullDetermined | project2/ConvexHullDivideConquer.java:192-205 | any counterclockwise ordering of three points that starts at the first point is the one `computeSmallHull` returns |
| Hull.SplitHalves | project2/ConvexHullDivideConquer.java:50-52 | for a range of more than three points, both halves around `mid = (left + right) / 2` have at least two points and fewer than the whole range |
| Hull.RangeSplit | project2/ConvexHullDivideConquer.java:50-52 | the two halves together hold exactly the points of the range |
| Hull.SubMultisetOfSum | project2/ConvexHullDivideConquer.java:52-55 | if the merge takes no point more often than the two half-hulls, and each half-hull none more often than its half, then the merge takes none more often than the whole range |
| Hull.DivideConquer | project2/ConvexHullDivideConquer.java:41-56 | for at most three points the result is exactly `computeSmallHull`; a result is non-empty and holds no point more often than points[left..right] |
| Hull.MergeHalves | project2/ConvexHullDivideConquer.java:50-55 | the merge of the two halves' hulls has at least two points, all from points[left..right], none more often than there |
| Hull.DivideConquerMoreFuel | project2/ConvexHullDivideConquer.java:41-56 | with more fuel the recursion returns the same hull |
| Hull.MergeHalvesMoreFuel | project2/ConvexHullDivideConquer.java:50-55 | the same for the merge of the two halves |
| Hull.ConvexHull | project2/ConvexHullDivideConquer.java:23-36 | fewer than three points are returned unchanged; up to three points always give a hull; a hull holds no point more often than the input, and is non-empty for non-empty input |
| Hull.ConvexHullSorts | project2/ConvexHullDivideConquer.java:29-35 | from three points on, the result is `divideConquer` over the whole sorted sequence |
| Hull.ConvexHullIgnoresSortChoice | project2/ConvexHullDivideConquer.java:29-35 | any two sorted copies of the input give the same hull |
| Hull.ConvexHullMoreFuel | project2/ConvexHullDivideConquer.java:23-36 | with more fuel `convexHull` returns the same hull |
| Scenarios.TwoPointsUnchanged | project2/ConvexHullDivideConquer.java:24-26 | two points come back unchanged, in input order |
| Scenarios.CollinearTriple | project2/ConvexHullDivideConquer.java:202-205 | for three collinear points only the two ends of the segment are kept |
| Scenarios.SortedByNeighbours | project2/ConvexHullDivideConquer.java:30-33 | a sequence whose neighbours are in (x, y) order is sorted |
| Scenarios.SixSortedOrder | project2/ConvexHullDivideConquer.java:30-33 | the six example points, listed as the sort leaves them, are in (x, y) order |
| Scenarios.SixSortedSame | project2/ConvexHullDivideConquer.java:29 | that list holds exactly the six input points |
| Scenarios.SixSortedSorts | project2/ConvexHullDivideConquer.java:29-33 | it is the sorted copy of the example input |
| Scenarios.SixLeftHull | project2/ConvexHullDivideConquer.java:198-201 | the clockwise triple (0,0), (0,4), (2,1) is reordered to (0,0), (2,1), (0,4) |
| Scenarios.SixRightHull | project2/ConvexHullDivideConquer.java:194-197 | the counterclockwise triple (2,2), (4,0), (4,4) is kept |
| Scenarios.SixStart | project2/ConvexHullDivideConquer.java:96-97 | the searches start at left index 1 and right index 0 |
| Scenarios.SixUpperTangent | project2/ConvexHullDivideConquer.java:95-128 | the upper tangent of the two halves is (2, 2) |
| Scenarios.SixLowerTangent | project2/ConvexHullDivideConquer.java:133-166 | the lower tangent of the two halves is (0, 1) |
| Scenarios.SixStitch | project2/ConvexHullDivideConquer.java:67-89 | the arcs between these tangents are (0,4), (0,0) and (4,0), (4,4) |
| Scenarios.SixMerge | project2/ConvexHullDivideConquer.java:62-90 | merging the two halves gives the four corners |
| Scenarios.SixDivideConquer | project2/ConvexHullDivideConquer.java:41-56 | `divideConquer` over the six sorted points gives the four corners |
| Scenarios.SixPoints | project2/ConvexHullDivideConquer.java:268-282 | the six-point example of the driver, with every coordinate doubled, has the hull (0,4), (0,0), (4,0), (4,4), found with two units of fuel |

## Left out

- `main` and `generateRandomPoints` are not modelled. They print, time the
  runs and draw random points, which is I/O and benchmarking. The one worked
  example in `main` appears as `Scenarios.SixPoints`.
- `Point.toString` is not modelled. It only formats output.
- `double` arithmetic is not modelled. Coordinates are unbounded integers,
  so there is no rounding, no NaN and no −0.0, and `Double.compare` becomes
  integer comparison. The driver's example uses the coordinate 0.5, so the
  scenario doubles every coordinate; this does not change any sign of `Cross`.
- Java's 32-bit `int` index arithmetic is not modelled. All indices are below
  the list size, and overflow would need more than 2^30 points.
- The library sort (`List.sort` with its comparator) is not modelled. Its
  result is the parameter `sorted`, under the precondition
  `SortedPermutation(sorted, points)`.
- Termination of the tangent searches is not proved. The fuel budget stands
  in for it, and `None` means the search had not finished within that many
  pointer moves.
- Tangents.UpperTangent: does not prove that the search terminates, or that
  its result is a geometric tangent; only that neither pointer can move from
  it, which is the exit condition of the loops.
- Tangents.LowerTangent: the same as for the upper search.
- Global properties of the whole hull are not proved: convexity, that every
  input point lies inside, and the absence of collinear triples. The code
  never checks them.
- Methods that mutate a list in place are not modelled. Each `ArrayList` the
  original fills is a `seq` value that the loop reassigns.
