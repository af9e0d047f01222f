/** The three primitive coordinate transforms, their composition into chains, and the
    seven fixed composites (`Rotate0`, `Rotate90`, `Rotate180`, `Rotate270`, `Transpose`,
    `FlipX`, `FlipY`). Everything here is pure geometry; the wrappers that forward
    drawing calls are in module Wrappers. */
module Transforms {
  import opened Geometry

  /** The primitive wrappers `TransposeXY`, `MirrorX` and `MirrorY`. */
  datatype Prim = TransposeXY | MirrorX | MirrorY

  /** The bounding box a primitive reports, given the box its target reports. */
  function Reported(q: Prim, inner: Rectangle): (r: Rectangle)
    ensures r.size.width * r.size.height == inner.size.width * inner.size.height
    ensures Anchored(inner) ==> Anchored(r)
  {
    match q
    case TransposeXY => TransposeRect(inner)
    case MirrorX => inner
    case MirrorY => inner
  }

  /** The position rewrite applied to every pixel by `draw_iter`. A mirror reads its own
      bounding box (which is `inner`, the box of its target) once per call and reflects
      about `size - 1`, counting from 0 whatever the box's top-left corner. Over a box
      anchored at the origin, the points of the reported box are exactly those sent into
      the target's box. */
  function MapPoint(q: Prim, inner: Rectangle, p: Point): (r: Point)
    ensures Anchored(inner) ==> (Contains(Reported(q, inner), p) <==> Contains(inner, r))
  {
    match q
    case TransposeXY => TransposePoint(p)
    case MirrorX => Point((inner.size.width - 1) - p.x, p.y)
    case MirrorY => Point(p.x, (inner.size.height - 1) - p.y)
  }

  /** The rectangle rewrite of `fill_solid`, with the source's arithmetic: a mirror moves the
      leading edge to `(size - 1) - edge - extent`. The size is kept (swapped by transpose);
      a mirrored fill ends just before the image of the area's first column (or row). */
  function FillArea(q: Prim, inner: Rectangle, area: Rectangle): (r: Rectangle)
    ensures r.size == (if q == TransposeXY then TransposeSize(area.size) else area.size)
    ensures q == TransposeXY ==> r.topLeft == TransposePoint(area.topLeft)
    ensures q == MirrorX ==> r.topLeft.y == area.topLeft.y
                             && r.topLeft.x + r.size.width == MapPoint(q, inner, area.topLeft).x
    ensures q == MirrorY ==> r.topLeft.x == area.topLeft.x
                             && r.topLeft.y + r.size.height == MapPoint(q, inner, area.topLeft).y
  {
    match q
    case TransposeXY => TransposeRect(area)
    case MirrorX =>
      Rectangle(Point((inner.size.width - 1) - area.topLeft.x - area.size.width, area.topLeft.y), area.size)
    case MirrorY =>
      Rectangle(Point(area.topLeft.x, (inner.size.height - 1) - area.topLeft.y - area.size.height), area.size)
  }

  /** The rectangle made of exactly the images of the points of `area` under `MapPoint`:
      the fill a mirror is meant to forward (leading edge `size - edge - extent`). */
  function ImageArea(q: Prim, inner: Rectangle, area: Rectangle): Rectangle {
    match q
    case TransposeXY => TransposeRect(area)
    case MirrorX =>
      Rectangle(Point(inner.size.width - area.topLeft.x - area.size.width, area.topLeft.y), area.size)
    case MirrorY =>
      Rectangle(Point(area.topLeft.x, inner.size.height - area.topLeft.y - area.size.height), area.size)
  }

  /** Transpose reports the swapped box and mirrors report it unchanged; either way
      reporting twice gives back the original box. */
  lemma ReportedBox(q: Prim, inner: Rectangle)
    ensures Reported(q, inner) == (if q == TransposeXY then TransposeRect(inner) else inner)
    ensures Reported(q, inner).size.width * Reported(q, inner).size.height == inner.size.width * inner.size.height
    ensures Reported(q, Reported(q, inner)) == inner
  {
  }

  /** Each primitive's point map is undone by the same primitive applied over the box it
      reports (for a mirror: the same extent), in both orders. */
  lemma MapPointUndo(q: Prim, inner: Rectangle, p: Point)
    ensures MapPoint(q, inner, MapPoint(q, Reported(q, inner), p)) == p
    ensures MapPoint(q, Reported(q, inner), MapPoint(q, inner, p)) == p
  {
  }

  /** A mirror keeps the mirrored coordinate inside `[0, size)` exactly when it starts there,
      and leaves the other coordinate alone. */
  lemma MirrorStaysInRange(inner: Rectangle, p: Point)
    ensures 0 <= p.x < inner.size.width <==> 0 <= MapPoint(MirrorX, inner, p).x < inner.size.width
    ensures MapPoint(MirrorX, inner, p).y == p.y
    ensures 0 <= p.y < inner.size.height <==> 0 <= MapPoint(MirrorY, inner, p).y < inner.size.height
    ensures MapPoint(MirrorY, inner, p).x == p.x
  {
  }

  /** `ImageArea` is the exact image: a point lies in `area` exactly when its image lies in
      `ImageArea(area)`. */
  lemma ImageAreaExact(q: Prim, inner: Rectangle, area: Rectangle, p: Point)
    ensures Contains(area, p) <==> Contains(ImageArea(q, inner, area), MapPoint(q, inner, p))
  {
  }

  /** The source's `fill_solid` rectangle agrees with the exact image for transpose, and for
      the mirrors sits one pixel before it along the mirrored axis. */
  lemma FillAreaOffByOne(q: Prim, inner: Rectangle, area: Rectangle)
    ensures q != TransposeXY ==> FillArea(q, inner, area).size == area.size
    ensures q == TransposeXY ==> FillArea(q, inner, area) == ImageArea(q, inner, area)
    ensures q == MirrorX ==> FillArea(q, inner, area).topLeft
                             == Point(ImageArea(q, inner, area).topLeft.x - 1, area.topLeft.y)
    ensures q == MirrorY ==> FillArea(q, inner, area).topLeft
                             == Point(area.topLeft.x, ImageArea(q, inner, area).topLeft.y - 1)
  {
  }

  // ---------------------------------------------------------------------------------------
  // Chains. A chain lists primitives outermost first: a caller's value passes through
  // c[0] first, and c[|c| - 1] talks to the display whose box is `b`.

  /** The bounding box a chain reports over a display whose box is `b`. */
  function ChainBox(c: seq<Prim>, b: Rectangle): Rectangle
    decreases |c|
  {
    if c == [] then b else Reported(c[0], ChainBox(c[1..], b))
  }

  /** Passes `t` through every layer of `c`, outermost first; each layer's rewrite `step`
      is given the box its own target reports. */
  function Lower<T>(c: seq<Prim>, b: Rectangle, step: (Prim, Rectangle, T) -> T, t: T): T
    decreases |c|
  {
    if c == [] then t else Lower(c[1..], b, step, step(c[0], ChainBox(c[1..], b), t))
  }

  /** Where a chain sends a drawn pixel. */
  function ChainPoint(c: seq<Prim>, b: Rectangle, p: Point): Point {
    Lower(c, b, MapPoint, p)
  }

  /** The rectangle a chain's `fill_solid` hands to the display (source arithmetic). */
  function ChainFill(c: seq<Prim>, b: Rectangle, area: Rectangle): Rectangle {
    Lower(c, b, FillArea, area)
  }

  /** The exact image of a rectangle under a chain. */
  function ChainImage(c: seq<Prim>, b: Rectangle, area: Rectangle): Rectangle {
    Lower(c, b, ImageArea, area)
  }

  function Reverse(c: seq<Prim>): seq<Prim>
    decreases |c|
  {
    if c == [] then [] else Reverse(c[1..]) + [c[0]]
  }

  /** Nesting chain `a` around chain `d`: the outer chain reports over the inner chain's box. */
  lemma {:induction false} ChainBoxAppend(a: seq<Prim>, d: seq<Prim>, b: Rectangle)
    ensures ChainBox(a + d, b) == ChainBox(a, ChainBox(d, b))
    decreases |a|
  {
    if a == [] {
      assert a + d == d;
    } else {
      assert (a + d)[1..] == a[1..] + d;
      ChainBoxAppend(a[1..], d, b);
    }
  }

  /** Nesting chain `a` around chain `d` lowers through `a` (over `d`'s box), then through `d`. */
  lemma {:induction false} LowerAppend<T>(a: seq<Prim>, d: seq<Prim>, b: Rectangle,
                                          step: (Prim, Rectangle, T) -> T, t: T)
    ensures Lower(a + d, b, step, t) == Lower(d, b, step, Lower(a, ChainBox(d, b), step, t))
    decreases |a|
  {
    if a == [] {
      assert a + d == d;
    } else {
      assert (a + d)[1..] == a[1..] + d;
      ChainBoxAppend(a[1..], d, b);
      LowerAppend(a[1..], d, b, step, step(a[0], ChainBox(a[1..] + d, b), t));
    }
  }

  /** A one-layer chain is that layer's own rewrite. */
  lemma LowerSingle<T>(q: Prim, b: Rectangle, step: (Prim, Rectangle, T) -> T, t: T)
    ensures ChainBox([q], b) == Reported(q, b)
    ensures Lower([q], b, step, t) == step(q, b, t)
  {
    assert [q][1..] == [];
  }

  /** The reversed chain, placed around `c`, reports the display's own box again. */
  lemma {:induction false} ChainBoxReverse(c: seq<Prim>, b: Rectangle)
    ensures ChainBox(Reverse(c), ChainBox(c, b)) == b
    decreases |c|
  {
    if c != [] {
      var inner := ChainBox(c[1..], b);
      ChainBoxAppend(Reverse(c[1..]), [c[0]], ChainBox(c, b));
      LowerSingle(c[0], ChainBox(c, b), MapPoint, Origin);
      ReportedBox(c[0], inner);
      ChainBoxReverse(c[1..], b);
    }
  }

  /** The reversed chain undoes `c`: a point sent through `Reverse(c)` (wrapped around `c`)
      and then through `c` comes back unchanged. */
  lemma {:induction false} ReverseThenChain(c: seq<Prim>, b: Rectangle, p: Point)
    ensures ChainPoint(c, b, ChainPoint(Reverse(c), ChainBox(c, b), p)) == p
    decreases |c|
  {
    if c != [] {
      var q, inner := c[0], ChainBox(c[1..], b);
      var outer := ChainBox(c, b);
      assert outer == Reported(q, inner);
      LowerAppend(Reverse(c[1..]), [q], outer, MapPoint, p);
      LowerSingle(q, outer, MapPoint, p);
      ReportedBox(q, inner);
      var m := ChainPoint(Reverse(c[1..]), inner, p);
      assert ChainPoint(Reverse(c), outer, p) == MapPoint(q, outer, m);
      MapPointUndo(q, inner, m);
      ReverseThenChain(c[1..], b, p);
    }
  }

  /** `c` is undone by its reverse: a point sent through `c` and then through `Reverse(c)`
      (over the box `c` reports) comes back unchanged. */
  lemma {:induction false} ChainThenReverse(c: seq<Prim>, b: Rectangle, p: Point)
    ensures ChainPoint(Reverse(c), ChainBox(c, b), ChainPoint(c, b, p)) == p
    decreases |c|
  {
    if c != [] {
      var q, inner := c[0], ChainBox(c[1..], b);
      var outer := ChainBox(c, b);
      var m := MapPoint(q, inner, p);
      assert ChainPoint(c, b, p) == ChainPoint(c[1..], b, m);
      LowerAppend(Reverse(c[1..]), [q], outer, MapPoint, ChainPoint(c, b, p));
      LowerSingle(q, outer, MapPoint, ChainPoint(Reverse(c[1..]), inner, ChainPoint(c, b, p)));
      ReportedBox(q, inner);
      ChainThenReverse(c[1..], b, m);
      MapPointUndo(q, inner, p);
    }
  }

  /** Every chain is a bijection on points: its point map is injective, and every point is
      the image of some point. */
  lemma ChainBijective(c: seq<Prim>, b: Rectangle, p1: Point, p2: Point, target: Point)
    ensures ChainPoint(c, b, p1) == ChainPoint(c, b, p2) ==> p1 == p2
    ensures exists p :: ChainPoint(c, b, p) == target
  {
    ChainThenReverse(c, b, p1);
    ChainThenReverse(c, b, p2);
    ReverseThenChain(c, b, target);
  }

  /** Wrapping the reversed chain around `c` gives the identity: same box, same points. */
  lemma ReverseAroundIsIdentity(c: seq<Prim>, b: Rectangle, p: Point)
    ensures ChainBox(Reverse(c) + c, b) == b
    ensures ChainPoint(Reverse(c) + c, b, p) == p
  {
    ChainBoxAppend(Reverse(c), c, b);
    ChainBoxReverse(c, b);
    LowerAppend(Reverse(c), c, b, MapPoint, p);
    ReverseThenChain(c, b, p);
  }

  /** A chain's exact image of a rectangle contains precisely the images of its points. */
  lemma {:induction false} ChainImageExact(c: seq<Prim>, b: Rectangle, area: Rectangle, p: Point)
    ensures Contains(area, p) <==> Contains(ChainImage(c, b, area), ChainPoint(c, b, p))
    decreases |c|
  {
    if c != [] {
      var inner := ChainBox(c[1..], b);
      ImageAreaExact(c[0], inner, area, p);
      ChainImageExact(c[1..], b, ImageArea(c[0], inner, area), MapPoint(c[0], inner, p));
    }
  }

  /** Every point of a chain's image rectangle is the image of a point of the rectangle. */
  lemma ChainImageOnto(c: seq<Prim>, b: Rectangle, area: Rectangle, target: Point)
    requires Contains(ChainImage(c, b, area), target)
    ensures exists p :: Contains(area, p) && ChainPoint(c, b, p) == target
  {
    var p := ChainPoint(Reverse(c), ChainBox(c, b), target);
    ReverseThenChain(c, b, target);
    ChainImageExact(c, b, area, p);
  }

  /** A box whose top-left corner is the origin, as a display reports. */
  predicate Anchored(r: Rectangle) {
    r.topLeft == Origin
  }

  /** Over an anchored display, every chain reports an anchored box whose exact image is
      the display's box. */
  lemma {:induction false} ChainImageOfBox(c: seq<Prim>, b: Rectangle)
    requires Anchored(b)
    ensures Anchored(ChainBox(c, b))
    ensures ChainImage(c, b, ChainBox(c, b)) == b
    decreases |c|
  {
    if c != [] {
      var inner := ChainBox(c[1..], b);
      ChainImageOfBox(c[1..], b);
      assert ImageArea(c[0], inner, ChainBox(c, b)) == inner;
    }
  }

  /** Over an anchored display, a chain maps the points of its reported box onto the
      display's box, and nothing outside it there. */
  lemma ChainKeepsBounds(c: seq<Prim>, b: Rectangle, p: Point)
    requires Anchored(b)
    ensures Contains(ChainBox(c, b), p) <==> Contains(b, ChainPoint(c, b, p))
  {
    ChainImageOfBox(c, b);
    ChainImageExact(c, b, ChainBox(c, b), p);
  }

  // ---------------------------------------------------------------------------------------
  // The fixed composites built by `impl_xform!`.

  datatype Composite = Rotate0 | Rotate90 | Rotate180 | Rotate270 | Transpose | FlipX | FlipY

  /** The primitive chain of each composite, outermost first. Only `Rotate0` has none, no
      primitive appears twice, and a transpose appears exactly where the axes swap. */
  function Chain(k: Composite): (r: seq<Prim>)
    ensures |r| <= 2 && (r == [] <==> k == Rotate0)
    ensures forall i, j :: 0 <= i < j < |r| ==> r[i] != r[j]
    ensures TransposeXY in r <==> SwapsAxes(k)
  {
    match k
    case Rotate0 => []
    case Rotate90 => [MirrorY, TransposeXY]
    case Rotate270 => [TransposeXY, MirrorY]
    case Rotate180 => [MirrorX, MirrorY]
    case Transpose => [TransposeXY]
    case FlipX => [MirrorX]
    case FlipY => [MirrorY]
  }

  predicate SwapsAxes(k: Composite) {
    k == Rotate90 || k == Rotate270 || k == Transpose
  }

  /** `Rotate90`, `Rotate270` and `Transpose` report the display's box transposed; the other
      composites report it unchanged. */
  lemma CompositeBox(k: Composite, b: Rectangle)
    ensures ChainBox(Chain(k), b) == (if SwapsAxes(k) then TransposeRect(b) else b)
  {
    var c := Chain(k);
    if |c| == 2 {
      assert c[1..] == [c[1]];
      LowerSingle(c[1], b, MapPoint, Origin);
      ReportedBox(c[0], Reported(c[1], b));
    } else if |c| == 1 {
      LowerSingle(c[0], b, MapPoint, Origin);
    }
  }

  /** Where each composite sends a pixel, over a display whose box has size W x H. */
  lemma CompositePoints(b: Rectangle, p: Point)
    ensures ChainPoint(Chain(Rotate0), b, p) == p
    ensures ChainPoint(Chain(Rotate90), b, p) == Point(b.size.width - 1 - p.y, p.x)
    ensures ChainPoint(Chain(Rotate180), b, p) == Point(b.size.width - 1 - p.x, b.size.height - 1 - p.y)
    ensures ChainPoint(Chain(Rotate270), b, p) == Point(p.y, b.size.height - 1 - p.x)
    ensures ChainPoint(Chain(Transpose), b, p) == Point(p.y, p.x)
    ensures ChainPoint(Chain(FlipX), b, p) == Point(b.size.width - 1 - p.x, p.y)
    ensures ChainPoint(Chain(FlipY), b, p) == Point(p.x, b.size.height - 1 - p.y)
  {
    LowerSingle(TransposeXY, b, MapPoint, p);
    LowerSingle(MirrorX, b, MapPoint, p);
    LowerSingle(MirrorY, b, MapPoint, p);
  }

  /** `Rotate90` ("rotate right") and `Rotate270` ("rotate left") undo each other when one is
      wrapped around the other, in either order. */
  lemma RotationsUndo(b: Rectangle, p: Point)
    ensures ChainPoint(Chain(Rotate90) + Chain(Rotate270), b, p) == p
    ensures ChainPoint(Chain(Rotate270) + Chain(Rotate90), b, p) == p
  {
    assert Reverse(Chain(Rotate90)) == Chain(Rotate270) by {
      assert Chain(Rotate90)[1..] == [TransposeXY];
      assert Reverse([TransposeXY]) == [TransposeXY] by { assert [TransposeXY][1..] == []; }
    }
    assert Reverse(Chain(Rotate270)) == Chain(Rotate90) by {
      assert Chain(Rotate270)[1..] == [MirrorY];
      assert Reverse([MirrorY]) == [MirrorY] by { assert [MirrorY][1..] == []; }
    }
    ReverseAroundIsIdentity(Chain(Rotate90), b, p);
    ReverseAroundIsIdentity(Chain(Rotate270), b, p);
  }

  /** `Rotate180` wrapped around `Rotate180` gives every point back. */
  lemma Rotate180Undoes(b: Rectangle, p: Point)
    ensures ChainPoint(Chain(Rotate180) + Chain(Rotate180), b, p) == p
  {
    LowerAppend(Chain(Rotate180), Chain(Rotate180), b, MapPoint, p);
    CompositeBox(Rotate180, b);
    CompositePoints(b, p);
    CompositePoints(b, ChainPoint(Chain(Rotate180), b, p));
  }

  /** Each single-primitive composite (`Transpose`, `FlipX`, `FlipY`) undoes itself. */
  lemma SinglesUndo(k: Composite, b: Rectangle, p: Point)
    requires k == Transpose || k == FlipX || k == FlipY
    ensures ChainPoint(Chain(k) + Chain(k), b, p) == p
  {
    var c := Chain(k);
    assert Reverse(c) == c by { assert c[1..] == []; }
    ReverseAroundIsIdentity(c, b, p);
  }
}
