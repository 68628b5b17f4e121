/** Value types shared by the viewport fitter, the image fitter and the event loop.
    The viewer's `f32` values are modelled as mathematical reals. */
module Geometry {

  /** An unsigned 32-bit integer (window and texture sizes). */
  type U32 = x: int | 0 <= x < 0x1_0000_0000

  /** A signed 32-bit integer (mouse coordinates). */
  type I32 = x: int | -0x8000_0000 <= x < 0x8000_0000

  /** A 2D vector of floats. */
  datatype Vec2 = Vec2(x: real, y: real) {
    function Plus(other: Vec2): Vec2 {
      Vec2(x + other.x, y + other.y)
    }

    function Negated(): Vec2 {
      Vec2(-x, -y)
    }

    function Scaled(factor: real): Vec2 {
      Vec2(x * factor, y * factor)
    }
  }

  /** A 2D vector of signed 32-bit integers (a pointer position). */
  datatype Vec2i = Vec2i(x: I32, y: I32)

  /** The integer difference of two pointer positions, converted to floats. */
  function Delta(cur: Vec2i, prev: Vec2i): Vec2 {
    Vec2((cur.x - prev.x) as real, (cur.y - prev.y) as real)
  }

  /** A width and a height in pixels. */
  datatype Size = Size(width: U32, height: U32)

  /** An axis-aligned rectangle of floats. */
  datatype Rect = Rect(left: real, top: real, width: real, height: real)
}
