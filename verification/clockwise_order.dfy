/** The `clockwise` helper of the concave generator: points ordered by a
    per-point angle key, largest first, then the first n taken. The angle
    itself (`np.arctan2` around the centroid) is an opaque key. */
module ClockwiseOrder {
  import opened Outcomes
  import opened Geometry

  /** Keys never increase along `s`. */
  predicate NonIncreasing(s: seq<Point>, key: Point -> int) {
    forall i, j :: 0 <= i < j < |s| ==> key(s[i]) >= key(s[j])
  }

  /** Insert `p` into a non-increasing `s`, after every point whose key is at least p's. */
  function Insert(p: Point, s: seq<Point>, key: Point -> int): (r: seq<Point>)
    requires NonIncreasing(s, key)
    ensures NonIncreasing(r, key)
    ensures multiset(r) == multiset(s) + multiset{p}
    ensures |r| == |s| + 1
    ensures forall i :: 0 <= i < |r| ==> r[i] == p || r[i] in s
  {
    if s == [] then [p]
    else if key(s[0]) >= key(p) then
      var rest := Insert(p, s[1..], key);
      assert s == [s[0]] + s[1..];
      assert forall i :: 0 <= i < |rest| ==> key(s[0]) >= key(rest[i]);
      [s[0]] + rest
    else
      [p] + s
  }

  /** `argsort()[::-1]`: the points reordered by non-increasing key. Ties may
      come out in any order in the source; this definition fixes one. */
  function SortDescending(s: seq<Point>, key: Point -> int): (r: seq<Point>)
    ensures NonIncreasing(r, key)
    ensures multiset(r) == multiset(s)
    ensures |r| == |s|
  {
    if s == [] then []
    else
      assert s == [s[0]] + s[1..];
      Insert(s[0], SortDescending(s[1..], key), key)
  }

  /** `clockwise(points)` with `number_of_vertices == n`: reading index n - 1 of
      fewer than n points raises; otherwise the first n sorted points. */
  function Clockwise(points: seq<Point>, n: int, key: Point -> int): (r: Result<seq<Point>, GenError>)
    ensures r.Ok? <==> n <= |points|
    ensures r.Err? ==> r.error == IndexOutOfRange
    ensures r.Ok? ==> |r.value| == RangeLength(n)
    ensures r.Ok? ==> NonIncreasing(r.value, key)
    ensures r.Ok? ==> multiset(r.value) <= multiset(points)
    ensures r.Ok? ==> forall i :: 0 <= i < |r.value| ==> r.value[i] in points
  {
    if n > |points| then Err(IndexOutOfRange)
    else
      var sorted := SortDescending(points, key);
      var m := RangeLength(n);
      PrefixOfPermutation(sorted, points, m);
      Ok(sorted[..m])
  }

  /** A prefix of a reordering of `points` draws only on `points`. */
  lemma PrefixOfPermutation(sorted: seq<Point>, points: seq<Point>, m: nat)
    requires multiset(sorted) == multiset(points)
    requires m <= |sorted|
    ensures multiset(sorted[..m]) <= multiset(points)
    ensures forall i :: 0 <= i < m ==> sorted[i] in points
  {
    assert sorted == sorted[..m] + sorted[m..];
    assert multiset(sorted) == multiset(sorted[..m]) + multiset(sorted[m..]);
    forall i | 0 <= i < m
      ensures sorted[i] in points
    {
      assert sorted[i] in multiset(sorted);
    }
  }

  /** The points `clockwise` keeps have keys at least those of every point it
      drops: it takes the n largest angles. */
  lemma ClockwiseKeepsLargest(points: seq<Point>, n: int, key: Point -> int)
    requires 0 <= n <= |points|
    ensures var sorted := SortDescending(points, key);
      && Clockwise(points, n, key) == Ok(sorted[..n])
      && multiset(sorted) == multiset(points)
      && forall i, j :: 0 <= i < n <= j < |points| ==> key(sorted[i]) >= key(sorted[j])
  {
  }

  /** With n equal to the number of points nothing is dropped: the contour is a
      permutation of the input. */
  lemma ClockwiseAllIsPermutation(points: seq<Point>, key: Point -> int)
    ensures Clockwise(points, |points|, key).Ok?
    ensures multiset(Clockwise(points, |points|, key).value) == multiset(points)
  {
    var sorted := SortDescending(points, key);
    assert sorted[..|points|] == sorted;
  }
}
