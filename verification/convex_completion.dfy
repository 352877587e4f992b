/** The hull-completion loop of `ConvexPolygonGenerator.draw_polygon`.
    `cv2.convexHull` is an oracle `hull`; the loop's `while True` becomes a
    recursion bounded by `fuel` rounds, since the source loop need not end. */
module ConvexCompletion {
  import opened Outcomes
  import opened Geometry
  import opened PointSampler

  /** The loop's variables: all points so far, their hull, the stream position. */
  datatype Round = Round(points: seq<Point>, hull: seq<Point>, next: nat)

  /** How the loop stands after the rounds it was given. */
  datatype Completion =
    | Exited(last: Round)     // `len(hull) == needed` was reached
    | Running(last: Round)    // the fuel ran out first
    | Raised(error: GenError) // a `randint` raised

  /** The hull kept in a round is the oracle's hull of its points. */
  predicate HullOf(r: Round, hull: seq<Point> -> seq<Point>) {
    r.hull == hull(r.points)
  }

  /** `b` extends `a`'s points with points of the box [1, width] x [1, height]. */
  predicate Extends(a: Round, b: Round, width: int, height: int) {
    && |a.points| <= |b.points|
    && b.points[..|a.points|] == a.points
    && InBox(b.points[|a.points|..], width, height)
  }

  /** One pass of the loop body when `len(hull) != needed`: a short hull gets
      `needed - len(hull)` fresh points from the whole image (bezels are not
      applied) and is recomputed; a long hull is left as it is. */
  function Step(r: Round, needed: int, width: int, height: int,
                draw: nat -> nat, hull: seq<Point> -> seq<Point>): (s: Result<Round, GenError>)
    requires HullOf(r, hull)
    ensures s.Ok? ==> HullOf(s.value, hull) && Extends(r, s.value, width, height)
    ensures s.Ok? && |r.hull| < needed ==>
      |s.value.points| == |r.points| + (needed - |r.hull|)
    ensures |r.hull| >= needed ==> s == Ok(r)
    ensures s.Err? <==> |r.hull| < needed && (width < 1 || height < 1)
  {
    if |r.hull| < needed then
      var extra :- SamplePoints(draw, r.next, needed - |r.hull|, width, height);
      var points := r.points + extra.points;
      assert points[..|r.points|] == r.points;
      assert points[|r.points|..] == extra.points;
      Ok(Round(points, hull(points), extra.next))
    else
      Ok(r)
  }

  /** At most `fuel` passes of `while True`, stopping when `len(hull) == needed`. */
  function Complete(fuel: nat, r: Round, needed: int, width: int, height: int,
                    draw: nat -> nat, hull: seq<Point> -> seq<Point>): (c: Completion)
    requires HullOf(r, hull)
    decreases fuel
    ensures c.Exited? ==> |c.last.hull| == needed
    ensures c.Exited? || c.Running? ==> HullOf(c.last, hull) && Extends(r, c.last, width, height)
    ensures c.Raised? ==> c.error == EmptyRange && (width < 1 || height < 1)
  {
    if |r.hull| == needed then Exited(r)
    else if fuel == 0 then Running(r)
    else
      match Step(r, needed, width, height, draw, hull)
      case Err(e) => Raised(e)
      case Ok(s) =>
        var c := Complete(fuel - 1, s, needed, width, height, draw, hull);
        if c.Exited? || c.Running? then
          ExtendsTransitive(r, s, c.last, width, height);
          c
        else c
  }

  lemma ExtendsTransitive(a: Round, b: Round, c: Round, width: int, height: int)
    requires Extends(a, b, width, height) && Extends(b, c, width, height)
    ensures Extends(a, c, width, height)
  {
    assert c.points[..|b.points|][..|a.points|] == c.points[..|a.points|];
    var tail := c.points[|a.points|..];
    assert tail == b.points[|a.points|..] + c.points[|b.points|..];
    forall i | 0 <= i < |tail|
      ensures 1 <= tail[i].x <= width && 1 <= tail[i].y <= height
    {
      if i < |b.points| - |a.points| {
        assert tail[i] == b.points[|a.points|..][i];
      } else {
        assert tail[i] == c.points[|b.points|..][i - (|b.points| - |a.points|)];
      }
    }
  }

  /** A hull longer than needed is never cut down: no round changes anything,
      so the loop does not exit however many rounds it is given. */
  lemma {:induction false} OvershootNeverExits(fuel: nat, r: Round, needed: int, width: int, height: int,
                                               draw: nat -> nat, hull: seq<Point> -> seq<Point>)
    requires HullOf(r, hull)
    requires |r.hull| > needed
    ensures Complete(fuel, r, needed, width, height, draw, hull) == Running(r)
  {
    if fuel > 0 {
      assert Step(r, needed, width, height, draw, hull) == Ok(r);
      OvershootNeverExits(fuel - 1, r, needed, width, height, draw, hull);
    }
  }

  /** Under the oracle assumption that a hull is made of its input's points,
      an exited loop's hull is made of the original and injected points. */
  lemma ExitedHullFromPoints(fuel: nat, r: Round, needed: int, width: int, height: int,
                             draw: nat -> nat, hull: seq<Point> -> seq<Point>)
    requires HullOf(r, hull)
    requires forall ps: seq<Point>, i :: 0 <= i < |hull(ps)| ==> hull(ps)[i] in ps
    ensures var c := Complete(fuel, r, needed, width, height, draw, hull);
      c.Exited? ==> forall i :: 0 <= i < |c.last.hull| ==>
        c.last.hull[i] in r.points || c.last.hull[i] in c.last.points[|r.points|..]
  {
    var c := Complete(fuel, r, needed, width, height, draw, hull);
    if c.Exited? {
      var ps := c.last.points;
      assert ps == r.points + ps[|r.points|..];
      forall i | 0 <= i < |c.last.hull|
        ensures c.last.hull[i] in r.points || c.last.hull[i] in ps[|r.points|..]
      {
        assert c.last.hull[i] in ps;
      }
    }
  }
}
