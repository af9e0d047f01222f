/** The area a drawing affects: the smallest rectangle holding all of its points. Through
    any chain of primitives, the area affected on the display is the exact image of the
    area the caller drew. */
module Affected {
  import opened Geometry
  import opened Transforms
  import opened Commands

  /** `r` is the smallest rectangle holding every point of `ps`: it contains them all and
      each of its four edges is reached by one of them. */
  predicate Spans(r: Rectangle, ps: seq<Point>) {
    && r.size.width > 0 && r.size.height > 0
    && (forall i :: 0 <= i < |ps| ==> Contains(r, ps[i]))
    && (exists i :: 0 <= i < |ps| && ps[i].x == r.topLeft.x)
    && (exists i :: 0 <= i < |ps| && ps[i].x == r.topLeft.x + r.size.width - 1)
    && (exists i :: 0 <= i < |ps| && ps[i].y == r.topLeft.y)
    && (exists i :: 0 <= i < |ps| && ps[i].y == r.topLeft.y + r.size.height - 1)
  }

  /** The points one primitive sends to its target. */
  function MapAll(q: Prim, inner: Rectangle, ps: seq<Point>): seq<Point> {
    seq(|ps|, i requires 0 <= i < |ps| => MapPoint(q, inner, ps[i]))
  }

  /** The points a chain sends to the display. */
  function ChainAll(c: seq<Prim>, b: Rectangle, ps: seq<Point>): seq<Point> {
    seq(|ps|, i requires 0 <= i < |ps| => ChainPoint(c, b, ps[i]))
  }

  /** The positions of a pixel stream, in order. */
  function Positions<C>(pixels: seq<Pixel<C>>): seq<Point> {
    seq(|pixels|, i requires 0 <= i < |pixels| => pixels[i].position)
  }

  /** The positions of the stream a chain forwards are the chain's images of the positions
      drawn. */
  lemma DrawnPositions<C>(c: seq<Prim>, b: Rectangle, pixels: seq<Pixel<C>>)
    ensures Positions(ChainPixels(c, b, pixels)) == ChainAll(c, b, Positions(pixels))
  {
  }

  /** One primitive maps the points spanning `r` to points spanning the image of `r`. */
  lemma PrimSpans(q: Prim, inner: Rectangle, r: Rectangle, ps: seq<Point>)
    requires Spans(r, ps)
    ensures Spans(ImageArea(q, inner, r), MapAll(q, inner, ps))
  {
    var image, qs := ImageArea(q, inner, r), MapAll(q, inner, ps);
    forall i | 0 <= i < |ps|
      ensures Contains(image, qs[i])
    {
      ImageAreaExact(q, inner, r, ps[i]);
    }
    var left :| 0 <= left < |ps| && ps[left].x == r.topLeft.x;
    var right :| 0 <= right < |ps| && ps[right].x == r.topLeft.x + r.size.width - 1;
    var top :| 0 <= top < |ps| && ps[top].y == r.topLeft.y;
    var bottom :| 0 <= bottom < |ps| && ps[bottom].y == r.topLeft.y + r.size.height - 1;
    match q
    case TransposeXY =>
      assert qs[top].x == image.topLeft.x && qs[bottom].x == image.topLeft.x + image.size.width - 1;
      assert qs[left].y == image.topLeft.y && qs[right].y == image.topLeft.y + image.size.height - 1;
    case MirrorX =>
      assert qs[right].x == image.topLeft.x && qs[left].x == image.topLeft.x + image.size.width - 1;
      assert qs[top].y == image.topLeft.y && qs[bottom].y == image.topLeft.y + image.size.height - 1;
    case MirrorY =>
      assert qs[left].x == image.topLeft.x && qs[right].x == image.topLeft.x + image.size.width - 1;
      assert qs[bottom].y == image.topLeft.y && qs[top].y == image.topLeft.y + image.size.height - 1;
  }

  /** Through any chain, points whose affected area is `r` produce, on the display, the
      affected area `ChainImage(r)`. */
  lemma {:induction false} ChainSpans(c: seq<Prim>, b: Rectangle, r: Rectangle, ps: seq<Point>)
    requires Spans(r, ps)
    ensures Spans(ChainImage(c, b, r), ChainAll(c, b, ps))
    decreases |c|
  {
    if c == [] {
      assert ChainAll(c, b, ps) == ps;
    } else {
      var inner := ChainBox(c[1..], b);
      PrimSpans(c[0], inner, r, ps);
      ChainSpans(c[1..], b, ImageArea(c[0], inner, r), MapAll(c[0], inner, ps));
      assert ChainAll(c[1..], b, MapAll(c[0], inner, ps)) == ChainAll(c, b, ps);
    }
  }

  /** A stream drawn through any chain reaches the display with the exact image of the
      caller's affected area as its affected area. */
  lemma DrawAffects<C>(c: seq<Prim>, b: Rectangle, r: Rectangle, pixels: seq<Pixel<C>>)
    requires Spans(r, Positions(pixels))
    ensures Spans(ChainImage(c, b, r), Positions(ChainPixels(c, b, pixels)))
  {
    ChainSpans(c, b, r, Positions(pixels));
    DrawnPositions(c, b, pixels);
  }
}
