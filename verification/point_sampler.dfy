/** The loop of `generate_n_random_points`: n points, x then y drawn per point. */
module PointSampler {
  import opened Outcomes
  import opened Geometry
  import opened RandomOracle

  /** Sampled points and the stream position after the last draw. */
  datatype Sample = Sample(points: seq<Point>, next: nat)

  /** The point the k-th iteration draws when the stream starts at `pos`. */
  function DrawnPoint(draw: nat -> nat, pos: nat, k: nat, xHi: int, yHi: int): Point
    requires 1 <= xHi && 1 <= yHi
  {
    Point(1 + draw(pos + 2 * k) % xHi, 1 + draw(pos + 2 * k + 1) % yHi)
  }

  /** `count` iterations of `randint(1, xHi)` then `randint(1, yHi)`. The
      first draw from an empty range raises; with no iteration nothing is drawn. */
  function SamplePoints(draw: nat -> nat, pos: nat, count: int, xHi: int, yHi: int): (r: Result<Sample, GenError>)
    decreases RangeLength(count)
    ensures r.Ok? <==> count <= 0 || (1 <= xHi && 1 <= yHi)
    ensures r.Err? ==> r.error == EmptyRange
    ensures r.Ok? ==> |r.value.points| == RangeLength(count)
    ensures r.Ok? ==> InBox(r.value.points, xHi, yHi)
    ensures r.Ok? ==> r.value.next == pos + 2 * |r.value.points|
    ensures r.Ok? && count > 0 ==> forall k :: 0 <= k < |r.value.points| ==>
      r.value.points[k] == DrawnPoint(draw, pos, k, xHi, yHi)
  {
    if count <= 0 then Ok(Sample([], pos))
    else
      var x :- RandInt(draw, pos, 1, xHi);
      var y :- RandInt(draw, pos + 1, 1, yHi);
      match SamplePoints(draw, pos + 2, count - 1, xHi, yHi)
      case Err(e) => Err(e)
      case Ok(rest) => Ok(Sample([Point(x, y)] + rest.points, rest.next))
  }

  /** The value a stream must yield at position `k` for the sampler started
      at `pos` to produce exactly `ps`. */
  function StreamValue(ps: seq<Point>, pos: nat, k: nat): nat {
    if pos <= k < pos + 2 * |ps| then
      var p := ps[(k - pos) / 2];
      var v := if (k - pos) % 2 == 0 then p.x - 1 else p.y - 1;
      if v >= 0 then v else 0
    else 0
  }

  function StreamFor(ps: seq<Point>, pos: nat): nat -> nat {
    k => StreamValue(ps, pos, k)
  }

  lemma StreamForAt(ps: seq<Point>, pos: nat, k: nat, xHi: int, yHi: int)
    requires 1 <= xHi && 1 <= yHi
    requires InBox(ps, xHi, yHi)
    requires k < |ps|
    ensures DrawnPoint(StreamFor(ps, pos), pos, k, xHi, yHi) == ps[k]
  {
    assert (pos + 2 * k - pos) / 2 == k;
    assert (pos + 2 * k + 1 - pos) / 2 == k;
    var draw := StreamFor(ps, pos);
    assert draw(pos + 2 * k) == ps[k].x - 1;
    assert draw(pos + 2 * k + 1) == ps[k].y - 1;
    SmallMod(ps[k].x - 1, xHi);
    SmallMod(ps[k].y - 1, yHi);
  }

  lemma SmallMod(a: int, m: int)
    requires 0 <= a < m
    ensures a % m == a
  {
  }

  /** Every list of in-box points is a possible sample: the inclusive bounds
      are exact, in both directions. */
  lemma SampleReaches(ps: seq<Point>, pos: nat, xHi: int, yHi: int)
    requires 1 <= xHi && 1 <= yHi
    requires InBox(ps, xHi, yHi)
    ensures SamplePoints(StreamFor(ps, pos), pos, |ps|, xHi, yHi) == Ok(Sample(ps, pos + 2 * |ps|))
  {
    var r := SamplePoints(StreamFor(ps, pos), pos, |ps|, xHi, yHi);
    if |ps| > 0 {
      forall k | 0 <= k < |ps|
        ensures r.value.points[k] == ps[k]
      {
        StreamForAt(ps, pos, k, xHi, yHi);
      }
    }
    assert r.value.points == ps;
  }
}
