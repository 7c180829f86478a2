// Points, sizes and rectangles as the toolkit uses them, plus the two
// pieces of C++ integer behaviour that the widget code relies on.

module Geometry {

  datatype Point = Point(x: int, y: int)

  datatype Size = Size(w: int, h: int)

  /** A rectangle given by its origin and size; it covers [x, x+w) x [y, y+h). */
  datatype Rect = Rect(x: int, y: int, w: int, h: int) {
    function Origin(): Point { Point(x, y) }

    function GetSize(): Size { Size(w, h) }

    /** Rect::contains: the right and bottom edges are exclusive. */
    predicate Contains(p: Point) {
      x <= p.x < x + w && y <= p.y < y + h
    }
  }

  function RectAt(p: Point, s: Size): Rect {
    Rect(p.x, p.y, s.w, s.h)
  }

  /**
   * C++ `a / 2`, which truncates toward zero (Dafny's `/` is Euclidean
   * and rounds the other way when `a` is negative and odd).
   */
  function Half(a: int): (q: int)
    ensures a >= 0 ==> 0 <= a - 2 * q <= 1
    ensures a < 0 ==> -1 <= a - 2 * q <= 0
  {
    if a >= 0 then a / 2 else -((-a) / 2)
  }
}

/** Keyboard codes as the toolkit passes them (Win32 virtual-key codes). */
module Keys {
  type Key = int

  /** Keys::None, the "no shortcut" value. */
  const None: Key := 0
  /** Keys::Enter (VK_RETURN). */
  const Enter: Key := 0x0D
  /** Keys::Space (VK_SPACE). */
  const Space: Key := 0x20
}
