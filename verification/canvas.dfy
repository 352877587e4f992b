/** The generator's pixel buffer: filling it with the background colour and
    inverting its colours. */
module Canvas {
  import opened Outcomes
  import opened Geometry

  /** `img` is height rows of width pixels, every pixel equal to `c`. */
  predicate Uniform(img: Image, height: nat, width: nat, c: Colour) {
    && |img| == height
    && (forall i :: 0 <= i < height ==> |img[i]| == width)
    && (forall i, j :: 0 <= i < height && 0 <= j < width ==> img[i][j] == c)
  }

  /** The reference definition of a canvas filled with one colour. */
  function BlankImage(height: nat, width: nat, c: Colour): Image {
    seq(height, _ => seq(width, _ => c))
  }

  lemma BlankImageIsUniform(height: nat, width: nat, c: Colour)
    ensures Uniform(BlankImage(height, width, c), height, width, c)
  {
  }

  /** Uniform images of the same shape and colour are equal: the canvas a
      reset produces does not depend on how it was filled. */
  lemma UniformUnique(a: Image, b: Image, height: nat, width: nat, c: Colour)
    requires Uniform(a, height, width, c) && Uniform(b, height, width, c)
    ensures a == b
  {
    forall i | 0 <= i < height
      ensures a[i] == b[i]
    {
      assert |a[i]| == |b[i]| == width;
      forall j | 0 <= j < width
        ensures a[i][j] == b[i][j]
      {
        assert a[i][j] == c && b[i][j] == c;
      }
    }
  }

  /** `reset_image`'s buffer: `np.zeros((height, width, 3))` fails on a negative
      dimension; otherwise every pixel gets the background channels. */
  function ResetImage(height: int, width: int, background: Colour): (r: Result<Image, GenError>)
    ensures r.Ok? <==> height >= 0 && width >= 0
    ensures r.Err? ==> r.error == NegativeDimensions
    ensures r.Ok? ==> Uniform(r.value, height, width, background)
  {
    if height < 0 || width < 0 then Err(NegativeDimensions)
    else
      BlankImageIsUniform(height, width, background);
      Ok(BlankImage(height, width, background))
  }

  /** The nested loop of `reset_image`: every pixel of a fresh height x width
      buffer has its three channels set to the background channels. */
  method FillBackground(height: nat, width: nat, background: Colour) returns (img: Image)
    ensures Uniform(img, height, width, background)
    ensures img == BlankImage(height, width, background)
  {
    img := [];
    var h := 0;
    while h < height
      invariant 0 <= h <= height
      invariant Uniform(img, h, width, background)
    {
      var row: seq<Colour> := [];
      var w := 0;
      while w < width
        invariant 0 <= w <= width
        invariant |row| == w
        invariant forall j :: 0 <= j < w ==> row[j] == background
      {
        row := row + [Colour(background.c0, background.c1, background.c2)];
        w := w + 1;
      }
      img := img + [row];
      h := h + 1;
    }
    BlankImageIsUniform(height, width, background);
    UniformUnique(img, BlankImage(height, width, background), height, width, background);
  }

  /** `~v` on a `uint8` channel: the bitwise complement, which is 255 - v. */
  function Complement(v: Byte): (r: Byte)
    ensures r as int == 255 - v as int
  {
    !v
  }

  function InvertPixel(p: Colour): Colour {
    Colour(Complement(p.c0), Complement(p.c1), Complement(p.c2))
  }

  /** `invert_image_colours`: every channel of every pixel bitwise-complemented;
      the shape of the buffer is kept. */
  function InvertImage(img: Image): (r: Image)
    ensures |r| == |img|
    ensures forall i :: 0 <= i < |img| ==> |r[i]| == |img[i]|
    ensures forall i, j :: 0 <= i < |img| && 0 <= j < |img[i]| ==>
      && r[i][j].c0 as int == 255 - img[i][j].c0 as int
      && r[i][j].c1 as int == 255 - img[i][j].c1 as int
      && r[i][j].c2 as int == 255 - img[i][j].c2 as int
  {
    seq(|img|, i requires 0 <= i < |img| => seq(|img[i]|, j requires 0 <= j < |img[i]| => InvertPixel(img[i][j])))
  }

  /** Inverting twice gives back the original image. */
  lemma InvertInvolution(img: Image)
    ensures InvertImage(InvertImage(img)) == img
  {
    var r := InvertImage(InvertImage(img));
    assert |r| == |img|;
    forall i | 0 <= i < |img|
      ensures r[i] == img[i]
    {
      assert |r[i]| == |img[i]|;
      forall j | 0 <= j < |img[i]|
        ensures r[i][j] == img[i][j]
      {
      }
    }
  }

  /** A uniform canvas inverts to the uniform canvas of the inverted colour. */
  lemma InvertUniform(img: Image, height: nat, width: nat, c: Colour)
    requires Uniform(img, height, width, c)
    ensures Uniform(InvertImage(img), height, width, InvertPixel(c))
  {
    var r := InvertImage(img);
    forall i, j | 0 <= i < height && 0 <= j < width
      ensures r[i][j] == InvertPixel(c)
    {
      assert img[i][j] == c;
    }
  }
}
