/** Values shared by every part of the engine: colours, logical points, bytes. */
module Pixels {

  /** An RGB colour as the drawing calls receive it; alpha is never part of it. */
  datatype Color = Color(r: int, g: int, b: int)

  /** A logical grid coordinate: `x` is the column, `y` the row. */
  datatype Point = Point(x: int, y: int)

  datatype Option<T> = None | Some(value: T)

  datatype Result<T, E> = Success(value: T) | Failure(error: E)

  /** Bytes per raw pixel: red, green, blue, alpha. */
  const ColorSize: int := 4

  /** Every drawing primitive writes this alpha value. */
  const Opaque: int := 255

  const White := Color(255, 255, 255)
  const Black := Color(0, 0, 0)

  /** What a clamped 8-bit buffer can hold. */
  predicate IsByte(v: int) {
    0 <= v <= 255
  }

  /** The channel values the source passes in are in range, so no clamping ever happens. */
  predicate ValidColor(c: Color) {
    IsByte(c.r) && IsByte(c.g) && IsByte(c.b)
  }

  predicate IsByteSeq(s: seq<int>) {
    forall i :: 0 <= i < |s| ==> IsByte(s[i])
  }

  /** The byte a drawing call writes at channel `ch` of an RGBA quad: the colour, then opaque alpha. */
  function ChannelValue(c: Color, ch: int): int {
    if ch == 0 then c.r
    else if ch == 1 then c.g
    else if ch == 2 then c.b
    else Opaque
  }
}
