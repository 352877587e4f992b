/** Points, colours and pixel buffers of the polygon generator. */
module Geometry {

  /** One channel of a `np.uint8` image. */
  type Byte = bv8

  /** A colour tuple, channels in the generator's own order (B, G, R for OpenCV). */
  datatype Colour = Colour(c0: Byte, c1: Byte, c2: Byte)

  const White := Colour(255, 255, 255)
  const Black := Colour(0, 0, 0)

  /** An integer vertex `[x, y]`. */
  datatype Point = Point(x: int, y: int)

  /** A height x width x 3 buffer: rows of pixels, each pixel a colour. */
  type Image = seq<seq<Colour>>

  /** Every point lies in the inclusive box [1, xHi] x [1, yHi]. */
  predicate InBox(ps: seq<Point>, xHi: int, yHi: int) {
    forall i :: 0 <= i < |ps| ==> 1 <= ps[i].x <= xHi && 1 <= ps[i].y <= yHi
  }

  /** The number of iterations of Python's `range(n)`. */
  function RangeLength(n: int): nat {
    if n <= 0 then 0 else n
  }
}
