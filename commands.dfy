/** The four drawing calls of the display protocol (`draw_iter`, `fill_contiguous`,
    `fill_solid`, `clear`) as values, and how one primitive layer rewrites each of them
    before handing it to its target. */
module Commands {
  import opened Geometry
  import opened Transforms

  datatype Option<T> = None | Some(value: T)

  /** The outcome of a drawing call: success, or the display's own error value. */
  datatype Result<E> = Ok | Err(error: E)

  /** One pixel of a `draw_iter` stream. */
  datatype Pixel<C> = Pixel(position: Point, color: C)

  /** A drawing call together with its arguments. */
  datatype Command<C> =
    | DrawIter(pixels: seq<Pixel<C>>)
    | FillContiguous(area: Rectangle, colors: seq<C>)
    | FillSolid(area: Rectangle, color: C)
    | Clear(color: C)

  /** The points of one row, left to right. */
  function Row(left: int, y: int, width: nat): seq<Point> {
    seq(width, i => Point(left + i, y))
  }

  /** The points of `area` in row-major order (top row first, each row left to right), the
      order in which a contiguous fill assigns its colours. */
  function RowMajor(area: Rectangle): seq<Point>
    decreases area.size.height
  {
    if area.size.height == 0 then []
    else
      var rest := Rectangle(Point(area.topLeft.x, area.topLeft.y + 1),
                            Size(area.size.width, area.size.height - 1));
      Row(area.topLeft.x, area.topLeft.y, area.size.width) + RowMajor(rest)
  }

  function Min(a: nat, b: nat): nat {
    if a <= b then a else b
  }

  /** Pairs points with colours; the shorter of the two streams ends the result. */
  function Zip<C>(points: seq<Point>, colors: seq<C>): seq<Pixel<C>> {
    var n := Min(|points|, |colors|);
    seq(n, i requires 0 <= i < n => Pixel(points[i], colors[i]))
  }

  /** Rewrites the position of every pixel with one primitive, keeping colours and order. */
  function MapPixels<C>(q: Prim, inner: Rectangle, pixels: seq<Pixel<C>>): seq<Pixel<C>> {
    seq(|pixels|, i requires 0 <= i < |pixels| =>
      Pixel(MapPoint(q, inner, pixels[i].position), pixels[i].color))
  }

  /** What one primitive layer hands to its target, given the box its target reports:
      `draw_iter` maps every position; `fill_contiguous` is not specialised and falls back to
      drawing the area's points zipped with the colours; `fill_solid` rewrites the rectangle;
      `clear` is passed on untouched. */
  function Rewrite<C>(q: Prim, inner: Rectangle, cmd: Command<C>): (r: Command<C>)
    ensures !r.FillContiguous?
    ensures cmd.DrawIter? ==> r.DrawIter? && |r.pixels| == |cmd.pixels|
                              && forall i :: 0 <= i < |cmd.pixels| ==> r.pixels[i].color == cmd.pixels[i].color
    ensures cmd.FillContiguous? ==>
              r.DrawIter? && |r.pixels| == Min(cmd.area.size.width * cmd.area.size.height, |cmd.colors|)
    ensures cmd.FillSolid? ==> r.FillSolid? && r.color == cmd.color
                               && r.area.size.width * r.area.size.height == cmd.area.size.width * cmd.area.size.height
    ensures cmd.Clear? ==> r == cmd
  {
    match cmd
    case DrawIter(pixels) => DrawIter(MapPixels(q, inner, pixels))
    case FillContiguous(area, colors) =>
      RowMajorInArea(area);
      DrawIter(MapPixels(q, inner, Zip(RowMajor(area), colors)))
    case FillSolid(area, color) => FillSolid(FillArea(q, inner, area), color)
    case Clear(color) => Clear(color)
  }

  /** The call a chain of primitives hands to the display whose box is `b`. */
  function Lowered<C>(c: seq<Prim>, b: Rectangle, cmd: Command<C>): Command<C> {
    Lower(c, b, Rewrite, cmd)
  }

  /** The pixel stream a chain forwards for `pixels`. */
  function ChainPixels<C>(c: seq<Prim>, b: Rectangle, pixels: seq<Pixel<C>>): seq<Pixel<C>> {
    seq(|pixels|, i requires 0 <= i < |pixels| =>
      Pixel(ChainPoint(c, b, pixels[i].position), pixels[i].color))
  }

  /** Every point listed by `RowMajor` lies in the area, and there are width x height of them. */
  lemma {:induction false} RowMajorInArea(area: Rectangle)
    ensures |RowMajor(area)| == area.size.width * area.size.height
    ensures forall i :: 0 <= i < |RowMajor(area)| ==> Contains(area, RowMajor(area)[i])
    decreases area.size.height
  {
    if area.size.height != 0 {
      var rest := Rectangle(Point(area.topLeft.x, area.topLeft.y + 1),
                            Size(area.size.width, area.size.height - 1));
      RowMajorInArea(rest);
      var row := Row(area.topLeft.x, area.topLeft.y, area.size.width);
      assert RowMajor(area) == row + RowMajor(rest);
      forall i | 0 <= i < |RowMajor(area)|
        ensures Contains(area, RowMajor(area)[i])
      {
        if i >= |row| {
          assert RowMajor(area)[i] == RowMajor(rest)[i - |row|];
        }
      }
    }
  }

  /** Through any chain, `draw_iter` forwards a stream of the same length and order, with the
      same colour at every index and only the positions rewritten by the chain's point map. */
  lemma {:induction false} LoweredDraw<C>(c: seq<Prim>, b: Rectangle, pixels: seq<Pixel<C>>)
    ensures Lowered(c, b, DrawIter(pixels)) == DrawIter(ChainPixels(c, b, pixels))
    ensures |ChainPixels(c, b, pixels)| == |pixels|
    ensures forall i :: 0 <= i < |pixels| ==>
              ChainPixels(c, b, pixels)[i].color == pixels[i].color
              && ChainPixels(c, b, pixels)[i].position == ChainPoint(c, b, pixels[i].position)
    decreases |c|
  {
    if c == [] {
      assert ChainPixels(c, b, pixels) == pixels;
    } else {
      var inner := ChainBox(c[1..], b);
      var mapped := MapPixels(c[0], inner, pixels);
      LoweredDraw(c[1..], b, mapped);
      assert ChainPixels(c[1..], b, mapped) == ChainPixels(c, b, pixels) by {
        forall i | 0 <= i < |pixels|
          ensures ChainPixels(c[1..], b, mapped)[i] == ChainPixels(c, b, pixels)[i]
        {
          assert ChainPoint(c, b, pixels[i].position)
              == ChainPoint(c[1..], b, MapPoint(c[0], inner, pixels[i].position));
        }
      }
    }
  }

  /** Through any chain, `fill_solid` forwards one fill of the chain's rectangle with the same
      colour. */
  lemma {:induction false} LoweredFillSolid<C>(c: seq<Prim>, b: Rectangle, area: Rectangle, color: C)
    ensures Lowered(c, b, FillSolid(area, color)) == FillSolid(ChainFill(c, b, area), color)
    decreases |c|
  {
    if c != [] {
      LoweredFillSolid(c[1..], b, FillArea(c[0], ChainBox(c[1..], b), area), color);
    }
  }

  /** Through any chain, `clear` reaches the display with the same colour. */
  lemma {:induction false} LoweredClear<C>(c: seq<Prim>, b: Rectangle, color: C)
    ensures Lowered(c, b, Clear(color)) == Clear(color)
    decreases |c|
  {
    if c != [] {
      LoweredClear(c[1..], b, color);
    }
  }

  /** Area-fill fallback: with no primitive in the chain, `fill_contiguous` reaches the display
      as it is; through at least one primitive it becomes a `draw_iter` of the area's points in
      row-major order, one colour per point, each point moved by the chain. */
  lemma LoweredFillContiguous<C>(c: seq<Prim>, b: Rectangle, area: Rectangle, colors: seq<C>)
    ensures c == [] ==> Lowered(c, b, FillContiguous(area, colors)) == FillContiguous(area, colors)
    ensures c != [] ==> Lowered(c, b, FillContiguous(area, colors))
                        == DrawIter(ChainPixels(c, b, Zip(RowMajor(area), colors)))
  {
    if c != [] {
      var pixels := Zip(RowMajor(area), colors);
      assert Rewrite(c[0], ChainBox(c[1..], b), FillContiguous(area, colors))
          == Rewrite(c[0], ChainBox(c[1..], b), DrawIter(pixels));
      assert Lowered(c, b, FillContiguous(area, colors)) == Lowered(c, b, DrawIter(pixels));
      LoweredDraw(c, b, pixels);
    }
  }

  /** Nesting chain `a` around chain `d` lowers a call through `a`, then through `d`. */
  lemma LoweredAppend<C>(a: seq<Prim>, d: seq<Prim>, b: Rectangle, cmd: Command<C>)
    ensures Lowered(a + d, b, cmd) == Lowered(d, b, Lowered(a, ChainBox(d, b), cmd))
  {
    LowerAppend(a, d, b, Rewrite, cmd);
  }
}
