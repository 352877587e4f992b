/** The state of a `PolygonGenerator` and its operations, for the base class
    and its convex and concave subclasses. Every method of the source becomes
    a function from the old state to a result holding the new one. */
module PolygonGenerator {
  import opened Outcomes
  import opened Geometry
  import Canvas
  import opened PointSampler
  import ClockwiseOrder
  import ConvexCompletion

  /** Which class the generator is an instance of. */
  datatype Kind = Base | Convex | Concave

  /** `polygon_vertices`: a Python list until `generate_n_random_points`
      converts it into an `(n, 1, 2)` numpy array, which has no `append`. */
  datatype Vertices = Listed(points: seq<Point>) | Packed(points: seq<Point>)

  /** `self.image`: a canvas as `reset_image` leaves it, or that canvas with a
      filled contour drawn on it (the rasterisation is not modelled). */
  datatype Picture =
    | Blank(pixels: Image)
    | Filled(canvas: Image, contour: seq<Point>, ink: Colour)

  datatype Generator = Generator(
    kind: Kind,
    height: int,
    width: int,
    background: Colour,
    shape: Colour,
    heightBezels: int,
    widthBezels: int,
    vertexCount: int,
    vertices: Vertices,
    image: Picture)

  /** The external choices a call depends on: the `randint` stream, the
      `cv2.convexHull` routine, the angle of a point about the centroid of a
      point set, and how many rounds of the hull loop to follow. */
  datatype Oracles = Oracles(
    draw: nat -> nat,
    hull: seq<Point> -> seq<Point>,
    angle: (seq<Point>, Point) -> int,
    fuel: nat)

  /** The configuration fields: everything but the vertices and the image. */
  predicate SameConfig(a: Generator, b: Generator) {
    && a.kind == b.kind
    && a.height == b.height && a.width == b.width
    && a.background == b.background && a.shape == b.shape
    && a.heightBezels == b.heightBezels && a.widthBezels == b.widthBezels
    && a.vertexCount == b.vertexCount
  }

  /** A generator fresh from `reset`: no vertices, a blank canvas of its size. */
  predicate IsReset(g: Generator) {
    && g.vertices == Listed([])
    && g.image.Blank?
    && g.height >= 0 && g.width >= 0
    && Canvas.Uniform(g.image.pixels, g.height, g.width, g.background)
  }

  /** `__init__`: white background, black shape, no bezels, a blank canvas. */
  function Init(kind: Kind, height: int, width: int, vertexCount: int): (r: Result<Generator, GenError>)
    ensures r.Ok? <==> height >= 0 && width >= 0
    ensures r.Err? ==> r.error == NegativeDimensions
    ensures r.Ok? ==> IsReset(r.value) && r.value.kind == kind
    ensures r.Ok? ==> r.value.height == height && r.value.width == width && r.value.vertexCount == vertexCount
    ensures r.Ok? ==> r.value.background == White && r.value.shape == Black
    ensures r.Ok? ==> r.value.heightBezels == 0 && r.value.widthBezels == 0
  {
    var pixels :- Canvas.ResetImage(height, width, White);
    Ok(Generator(kind, height, width, White, Black, 0, 0, vertexCount, Listed([]), Blank(pixels)))
  }

  /** `reset`: a new canvas and an empty vertex list; the configuration stays. */
  function Reset(g: Generator): (r: Result<Generator, GenError>)
    ensures r.Ok? <==> g.height >= 0 && g.width >= 0
    ensures r.Err? ==> r.error == NegativeDimensions
    ensures r.Ok? ==> IsReset(r.value) && SameConfig(g, r.value)
  {
    var pixels :- Canvas.ResetImage(g.height, g.width, g.background);
    Ok(g.(vertices := Listed([]), image := Blank(pixels)))
  }

  /** Resetting twice is resetting once. */
  lemma ResetIdempotent(g: Generator)
    requires g.height >= 0 && g.width >= 0
    ensures Reset(Reset(g).value) == Reset(g)
  {
    var once := Reset(g).value;
    var twice := Reset(once).value;
    Canvas.UniformUnique(once.image.pixels, twice.image.pixels, g.height, g.width, g.background);
  }

  // The setters: each writes one field. The image is not redrawn.

  function SetShapeColour(g: Generator, c: Colour): (r: Generator)
    ensures r.shape == c
    ensures r.kind == g.kind && r.height == g.height && r.width == g.width
    ensures r.background == g.background
    ensures r.heightBezels == g.heightBezels && r.widthBezels == g.widthBezels
    ensures r.vertexCount == g.vertexCount && r.vertices == g.vertices && r.image == g.image
  {
    g.(shape := c)
  }

  function SetBackgroundColour(g: Generator, c: Colour): (r: Generator)
    ensures r.background == c
    ensures r.kind == g.kind && r.height == g.height && r.width == g.width
    ensures r.shape == g.shape
    ensures r.heightBezels == g.heightBezels && r.widthBezels == g.widthBezels
    ensures r.vertexCount == g.vertexCount && r.vertices == g.vertices && r.image == g.image
  {
    g.(background := c)
  }

  function SetNumberOfVertices(g: Generator, n: int): (r: Generator)
    ensures r.vertexCount == n
    ensures r.kind == g.kind && r.height == g.height && r.width == g.width
    ensures r.background == g.background && r.shape == g.shape
    ensures r.heightBezels == g.heightBezels && r.widthBezels == g.widthBezels
    ensures r.vertices == g.vertices && r.image == g.image
  {
    g.(vertexCount := n)
  }

  function SetImageHeight(g: Generator, h: int): (r: Generator)
    ensures r.height == h
    ensures r.kind == g.kind && r.width == g.width
    ensures r.background == g.background && r.shape == g.shape
    ensures r.heightBezels == g.heightBezels && r.widthBezels == g.widthBezels
    ensures r.vertexCount == g.vertexCount && r.vertices == g.vertices && r.image == g.image
  {
    g.(height := h)
  }

  function SetImageWidth(g: Generator, w: int): (r: Generator)
    ensures r.width == w
    ensures r.kind == g.kind && r.height == g.height
    ensures r.background == g.background && r.shape == g.shape
    ensures r.heightBezels == g.heightBezels && r.widthBezels == g.widthBezels
    ensures r.vertexCount == g.vertexCount && r.vertices == g.vertices && r.image == g.image
  {
    g.(width := w)
  }

  function SetHeightBezels(g: Generator, b: int): (r: Generator)
    ensures r.heightBezels == b
    ensures r.kind == g.kind && r.height == g.height && r.width == g.width
    ensures r.background == g.background && r.shape == g.shape
    ensures r.widthBezels == g.widthBezels
    ensures r.vertexCount == g.vertexCount && r.vertices == g.vertices && r.image == g.image
  {
    g.(heightBezels := b)
  }

  function SetWidthBezels(g: Generator, b: int): (r: Generator)
    ensures r.widthBezels == b
    ensures r.kind == g.kind && r.height == g.height && r.width == g.width
    ensures r.background == g.background && r.shape == g.shape
    ensures r.heightBezels == g.heightBezels
    ensures r.vertexCount == g.vertexCount && r.vertices == g.vertices && r.image == g.image
  {
    g.(widthBezels := b)
  }

  /** The `number_of_vertices` argument: omitted (`None`) or given. */
  datatype CountArg = Default | Given(count: int)

  /** `number_of_vertices=None` falls back to the configured count, which a
      setter may change; a given count ignores it. */
  function CountOrDefault(g: Generator, n: CountArg): (r: int)
    ensures n.Given? ==> r == n.count
    ensures n.Default? ==> r == g.vertexCount
  {
    match n
    case Given(k) => k
    case Default => g.vertexCount
  }

  /** An omitted count follows `set_number_of_vertices`; a given one does not. */
  lemma DefaultCountFollowsSetter(g: Generator, n: CountArg, k: int)
    ensures CountOrDefault(SetNumberOfVertices(g, k), n) == (if n.Given? then n.count else k)
  {
  }

  /** The generator after sampling, the array it returns, the stream position. */
  datatype Sampled = Sampled(gen: Generator, points: seq<Point>, next: nat)

  /** `generate_n_random_points`: append the sampled points to the vertex list
      and convert it to an array. Appending to an array raises. */
  function GenerateNRandomPoints(g: Generator, n: CountArg, draw: nat -> nat, pos: nat): (r: Result<Sampled, GenError>)
    ensures var count := CountOrDefault(g, n);
      var xHi := g.width - g.widthBezels;
      var yHi := g.height - g.heightBezels;
      && (r.Ok? <==> count <= 0 || (1 <= xHi && 1 <= yHi && g.vertices.Listed?))
      && (r.Err? ==> r.error == (if xHi < 1 || yHi < 1 then EmptyRange else NoAppend))
      && (r.Ok? ==>
            && r.value.gen == g.(vertices := Packed(r.value.points))
            && |r.value.points| == |g.vertices.points| + RangeLength(count)
            && r.value.points[..|g.vertices.points|] == g.vertices.points
            && InBox(r.value.points[|g.vertices.points|..], xHi, yHi))
    ensures r.Ok? ==>
      var sample := SamplePoints(draw, pos, CountOrDefault(g, n), g.width - g.widthBezels, g.height - g.heightBezels);
      && sample.Ok?
      && r.value.points == g.vertices.points + sample.value.points
      && r.value.next == sample.value.next
  {
    var count := CountOrDefault(g, n);
    var drawn :- SamplePoints(draw, pos, count, g.width - g.widthBezels, g.height - g.heightBezels);
    if count > 0 && g.vertices.Packed? then Err(NoAppend)
    else
      var points := g.vertices.points + drawn.points;
      assert points[..|g.vertices.points|] == g.vertices.points;
      assert points[|g.vertices.points|..] == drawn.points;
      Ok(Sampled(g.(vertices := Packed(points)), points, drawn.next))
  }

  /** From a reset generator the sample is exactly the requested number of
      points, each inside the bezels. */
  lemma SampleFromReset(g: Generator, n: CountArg, draw: nat -> nat, pos: nat)
    requires g.vertices == Listed([])
    requires CountOrDefault(g, n) <= 0 || (g.widthBezels < g.width && g.heightBezels < g.height)
    ensures var r := GenerateNRandomPoints(g, n, draw, pos);
      && r.Ok?
      && |r.value.points| == RangeLength(CountOrDefault(g, n))
      && InBox(r.value.points, g.width - g.widthBezels, g.height - g.heightBezels)
  {
    var r := GenerateNRandomPoints(g, n, draw, pos);
    assert r.value.points[|g.vertices.points|..] == r.value.points;
  }

  /** A finished draw: the generator, its picture, the stream position. */
  datatype Drawn = Drawn(gen: Generator, picture: Picture, next: nat)

  /** `contour` is the hull of `points` extended by further points of the box
      [1, width] x [1, height] drawn from position `pos` on: what the convex
      loop leaves behind when it exits. */
  ghost predicate IsExitHull(contour: seq<Point>, points: seq<Point>, pos: nat, width: int, height: int,
                             hull: seq<Point> -> seq<Point>) {
    exists last: ConvexCompletion.Round ::
      && ConvexCompletion.Extends(ConvexCompletion.Round(points, hull(points), pos), last, width, height)
      && contour == hull(last.points)
  }

  /** How a call that may run the hull loop ends. */
  datatype Outcome =
    | Done(result: Drawn)
    | Failed(error: GenError)
    | Unfinished   // the hull loop had not exited within the given rounds

  /** `draw_polygon`: reset, build the contour by the generator's kind, and
      fill it on the new canvas in the shape colour. */
  function DrawPolygon(g: Generator, points: seq<Point>, n: CountArg, o: Oracles, pos: nat): (r: Outcome)
    ensures r.Done? ==> SameConfig(g, r.result.gen) && r.result.gen.vertices == Listed([])
    ensures r.Done? ==> r.result.gen.image == r.result.picture && r.result.picture.Filled?
    ensures r.Done? ==> r.result.picture.ink == g.shape
    ensures r.Done? ==> g.height >= 0 && g.width >= 0 && Canvas.Uniform(r.result.picture.canvas, g.height, g.width, g.background)
    ensures g.kind == Base ==> r == Failed(NotImplemented)
    ensures g.kind == Concave && g.height >= 0 && g.width >= 0 ==>
      (r.Done? <==> CountOrDefault(g, n) <= |points|)
    ensures r.Done? && g.kind == Concave ==>
      var contour := r.result.picture.contour;
      && |contour| == RangeLength(CountOrDefault(g, n))
      && ClockwiseOrder.NonIncreasing(contour, p => o.angle(points, p))
      && multiset(contour) <= multiset(points)
      && forall i :: 0 <= i < |contour| ==> contour[i] in points
    ensures r.Done? && g.kind == Convex ==>
      |r.result.picture.contour| == CountOrDefault(g, n) + 1
    ensures r.Done? && g.kind == Convex ==>
      IsExitHull(r.result.picture.contour, points, pos, g.width, g.height, o.hull)
  {
    var count := CountOrDefault(g, n);
    match g.kind
    case Base => Failed(NotImplemented)
    case Convex =>
      (match Reset(g)
       case Err(e) => Failed(e)
       case Ok(blank) =>
         var start := ConvexCompletion.Round(points, o.hull(points), pos);
         match ConvexCompletion.Complete(o.fuel, start, count + 1, g.width, g.height, o.draw, o.hull)
         case Raised(e) => Failed(e)
         case Running(_) => Unfinished
         case Exited(last) =>
           var picture := Filled(blank.image.pixels, last.hull, g.shape);
           Done(Drawn(blank.(image := picture), picture, last.next)))
    case Concave =>
      match Reset(g)
      case Err(e) => Failed(e)
      case Ok(blank) =>
        match ClockwiseOrder.Clockwise(points, count, p => o.angle(points, p))
        case Err(e) => Failed(e)
        case Ok(contour) =>
          var picture := Filled(blank.image.pixels, contour, g.shape);
          Done(Drawn(blank.(image := picture), picture, pos))
  }

  /** `generate_polygon`: reset, sample the vertex count's worth of points,
      draw them. */
  function GeneratePolygon(g: Generator, n: CountArg, o: Oracles, pos: nat): (r: Outcome)
    ensures r.Done? ==> SameConfig(g, r.result.gen) && r.result.gen.vertices == Listed([])
    ensures r.Done? ==> r.result.gen.image == r.result.picture && r.result.picture.Filled?
    ensures r.Done? ==> r.result.picture.ink == g.shape
    ensures r.Done? ==> g.height >= 0 && g.width >= 0 && Canvas.Uniform(r.result.picture.canvas, g.height, g.width, g.background)
    ensures g.kind == Base ==> !r.Done?
    ensures r.Done? && g.kind == Concave ==>
      && |r.result.picture.contour| == RangeLength(CountOrDefault(g, n))
      && InBox(r.result.picture.contour, g.width - g.widthBezels, g.height - g.heightBezels)
    ensures r.Done? && g.kind == Convex ==>
      |r.result.picture.contour| == CountOrDefault(g, n) + 1
  {
    match Reset(g)
    case Err(e) => Failed(e)
    case Ok(blank) =>
      match GenerateNRandomPoints(blank, n, o.draw, pos)
      case Err(e) => Failed(e)
      case Ok(s) =>
        var count := CountOrDefault(g, n);
        var d := DrawPolygon(s.gen, s.points, Given(count), o, s.next);
        if d.Done? && g.kind == Concave then
          SampledFromEmpty(blank, n, o.draw, pos);
          MembersInBox(d.result.picture.contour, s.points, g.width - g.widthBezels, g.height - g.heightBezels);
          d
        else d
  }

  /** A finished convex generation fills the hull the completion loop exited
      with, started from the sampled points and continued with points of the
      whole image. */
  lemma ConvexContourIsExitHull(g: Generator, n: CountArg, o: Oracles, pos: nat)
    requires g.kind == Convex
    ensures var r := GeneratePolygon(g, n, o, pos);
      var sample := SamplePoints(o.draw, pos, CountOrDefault(g, n), g.width - g.widthBezels, g.height - g.heightBezels);
      r.Done? ==>
        && sample.Ok?
        && IsExitHull(r.result.picture.contour, sample.value.points, sample.value.next, g.width, g.height, o.hull)
  {
    var r := GeneratePolygon(g, n, o, pos);
    if r.Done? {
      var blank := Reset(g).value;
      var s := GenerateNRandomPoints(blank, n, o.draw, pos).value;
      SampledFromEmpty(blank, n, o.draw, pos);
      assert CountOrDefault(blank, n) == CountOrDefault(g, n);
      assert r == DrawPolygon(s.gen, s.points, Given(CountOrDefault(g, n)), o, s.next);
      assert s.gen.width == g.width && s.gen.height == g.height && s.gen.kind == Convex;
    }
  }

  /** Sampling into an empty vertex list yields exactly the sampler's points
      and stream position. */
  lemma SampledFromEmpty(g: Generator, n: CountArg, draw: nat -> nat, pos: nat)
    requires g.vertices == Listed([])
    ensures var sampled := GenerateNRandomPoints(g, n, draw, pos);
      var sample := SamplePoints(draw, pos, CountOrDefault(g, n), g.width - g.widthBezels, g.height - g.heightBezels);
      sampled.Ok? ==> sample.Ok? && sampled.value.points == sample.value.points && sampled.value.next == sample.value.next
  {
    var sampled := GenerateNRandomPoints(g, n, draw, pos);
    if sampled.Ok? {
      var sample := SamplePoints(draw, pos, CountOrDefault(g, n), g.width - g.widthBezels, g.height - g.heightBezels);
      assert g.vertices.points + sample.value.points == sample.value.points;
    }
  }

  /** Points taken from an in-box sequence are in the box. */
  lemma MembersInBox(sub: seq<Point>, ps: seq<Point>, xHi: int, yHi: int)
    requires InBox(ps, xHi, yHi)
    requires forall i :: 0 <= i < |sub| ==> sub[i] in ps
    ensures InBox(sub, xHi, yHi)
  {
    forall i | 0 <= i < |sub|
      ensures 1 <= sub[i].x <= xHi && 1 <= sub[i].y <= yHi
    {
      var j :| 0 <= j < |ps| && ps[j] == sub[i];
    }
  }

  /** Drawing exactly as many points as requested keeps every one of them. */
  lemma ConcaveDrawKeepsAll(g: Generator, points: seq<Point>, count: int, o: Oracles, pos: nat)
    requires g.kind == Concave
    requires g.height >= 0 && g.width >= 0
    requires |points| == RangeLength(count)
    ensures var r := DrawPolygon(g, points, Given(count), o, pos);
      r.Done? && multiset(r.result.picture.contour) == multiset(points)
  {
    var key := p => o.angle(points, p);
    if count > 0 {
      ClockwiseOrder.ClockwiseAllIsPermutation(points, key);
    } else {
      assert points == [];
    }
  }

  /** A generation whose reset and sampling succeed draws the sampled points,
      and those are the sampler's points: the vertex list starts empty. */
  lemma GenerateDrawsSample(g: Generator, n: CountArg, o: Oracles, pos: nat)
    requires g.height >= 0 && g.width >= 0
    requires CountOrDefault(g, n) <= 0 || (g.widthBezels < g.width && g.heightBezels < g.height)
    ensures var blank := Reset(g).value;
      var sampled := GenerateNRandomPoints(blank, n, o.draw, pos);
      var sample := SamplePoints(o.draw, pos, CountOrDefault(g, n), g.width - g.widthBezels, g.height - g.heightBezels);
      && sampled.Ok? && sample.Ok?
      && sampled.value.points == sample.value.points
      && sampled.value.gen.kind == g.kind && sampled.value.gen.height == g.height && sampled.value.gen.width == g.width
      && GeneratePolygon(g, n, o, pos)
         == DrawPolygon(sampled.value.gen, sampled.value.points, Given(CountOrDefault(g, n)), o, sampled.value.next)
  {
    var blank := Reset(g).value;
    SampledFromEmpty(blank, n, o.draw, pos);
  }

  /** On the concave path the sample has exactly the requested size, so the
      contour never raises and is a reordering of every sampled point. */
  lemma ConcaveContourIsPermutation(g: Generator, n: CountArg, o: Oracles, pos: nat)
    requires g.kind == Concave
    requires g.height >= 0 && g.width >= 0
    requires CountOrDefault(g, n) <= 0 || (g.widthBezels < g.width && g.heightBezels < g.height)
    ensures var r := GeneratePolygon(g, n, o, pos);
      var sample := SamplePoints(o.draw, pos, CountOrDefault(g, n), g.width - g.widthBezels, g.height - g.heightBezels);
      && r.Done? && sample.Ok?
      && multiset(r.result.picture.contour) == multiset(sample.value.points)
  {
    GenerateDrawsSample(g, n, o, pos);
    var s := GenerateNRandomPoints(Reset(g).value, n, o.draw, pos).value;
    ConcaveDrawKeepsAll(s.gen, s.points, CountOrDefault(g, n), o, s.next);
  }

  /** On the convex path an exited loop leaves a hull of `n + 1` points; a
      first hull longer than that makes the call never finish. */
  lemma ConvexOvershootNeverFinishes(g: Generator, points: seq<Point>, n: CountArg, o: Oracles, pos: nat)
    requires g.kind == Convex
    requires g.height >= 0 && g.width >= 0
    requires |o.hull(points)| > CountOrDefault(g, n) + 1
    ensures DrawPolygon(g, points, n, o, pos) == Unfinished
  {
    var start := ConvexCompletion.Round(points, o.hull(points), pos);
    ConvexCompletion.OvershootNeverExits(o.fuel, start, CountOrDefault(g, n) + 1, g.width, g.height, o.draw, o.hull);
  }

  /** `invert_image_colours` on the generator's blank canvas gives the blank
      canvas of the complementary colour, and undoes itself. */
  lemma InvertResetCanvas(g: Generator)
    requires IsReset(g)
    ensures Canvas.Uniform(Canvas.InvertImage(g.image.pixels), g.height, g.width, Canvas.InvertPixel(g.background))
    ensures Canvas.InvertImage(Canvas.InvertImage(g.image.pixels)) == g.image.pixels
  {
    Canvas.InvertUniform(g.image.pixels, g.height, g.width, g.background);
    Canvas.InvertInvolution(g.image.pixels);
  }
}
