/** Integer plane geometry used by every transform: points, sizes and rectangles,
    and the transposition that swaps their two axes. */
module Geometry {

  /** A pixel position; coordinates are signed. */
  datatype Point = Point(x: int, y: int)

  /** The extent of a rectangle; both components are unsigned. */
  datatype Size = Size(width: nat, height: nat)

  /** An axis-aligned rectangle; it may have zero area. */
  datatype Rectangle = Rectangle(topLeft: Point, size: Size)

  const Origin := Point(0, 0)

  /** True when `p` lies inside `r` (the right and bottom edges are exclusive). */
  predicate Contains(r: Rectangle, p: Point) {
    && r.topLeft.x <= p.x < r.topLeft.x + r.size.width
    && r.topLeft.y <= p.y < r.topLeft.y + r.size.height
  }

  function TransposePoint(p: Point): Point {
    Point(p.y, p.x)
  }

  function TransposeSize(s: Size): Size {
    Size(s.height, s.width)
  }

  /** Transposes the top-left corner and the size independently. */
  function TransposeRect(r: Rectangle): Rectangle {
    Rectangle(TransposePoint(r.topLeft), TransposeSize(r.size))
  }

  /** Transposition swaps the two components of each kind of value and is its own inverse. */
  lemma TransposeSwapsAndUndoes(p: Point, s: Size, r: Rectangle)
    ensures TransposePoint(p) == Point(p.y, p.x) && TransposePoint(TransposePoint(p)) == p
    ensures TransposeSize(s) == Size(s.height, s.width) && TransposeSize(TransposeSize(s)) == s
    ensures TransposeRect(r).topLeft == Point(r.topLeft.y, r.topLeft.x)
    ensures TransposeRect(r).size == Size(r.size.height, r.size.width)
    ensures TransposeRect(TransposeRect(r)) == r
  {
  }

  /** A point lies in a rectangle exactly when its transpose lies in the transposed rectangle. */
  lemma TransposeKeepsContainment(r: Rectangle, p: Point)
    ensures Contains(r, p) <==> Contains(TransposeRect(r), TransposePoint(p))
  {
  }
}
