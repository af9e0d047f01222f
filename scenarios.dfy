/** The crate's test scenarios on a 64 x 64 display, the off-by-one in the mirrors'
    `fill_solid`, and clients that drive the wrapper objects end to end. */
module Scenarios {
  import opened Geometry
  import opened Transforms
  import opened Commands
  import opened Surface
  import opened Wrappers
  import opened Facade
  import opened Affected

  /** The box the test display reports. */
  const MockBox := Rectangle(Origin, Size(64, 64))

  /** The test triangle's vertices and the area they span. */
  const Vertices := [Point(0, 10), Point(0, 0), Point(20, 0)]
  const Extent := Rectangle(Origin, Size(21, 11))

  /** `Rotate0` and `FlipY` over the test display report its 64 x 64 box. */
  lemma TestReportedBoxes()
    ensures ChainBox(Chain(Composite.Rotate0), MockBox) == MockBox
    ensures ChainBox(Chain(FlipY), MockBox) == MockBox
  {
    CompositeBox(Composite.Rotate0, MockBox);
    CompositeBox(FlipY, MockBox);
  }

  /** The triangle's vertices span the 21 x 11 extent. */
  lemma VerticesSpanExtent()
    ensures Spans(Extent, Vertices)
  {
    assert Vertices[1].x == Extent.topLeft.x && Vertices[2].x == Extent.topLeft.x + 20;
    assert Vertices[1].y == Extent.topLeft.y && Vertices[0].y == Extent.topLeft.y + 10;
  }

  /** Any stream whose affected area is the triangle's extent (the rasterised triangle is
      one) reaches the 64 x 64 display with the affected area the tests expect under each
      wrapper. */
  lemma TestAffectedAreas(pixels: seq<Pixel<bool>>)
    requires Spans(Extent, Positions(pixels))
    ensures Spans(Rectangle(Point(0, 0), Size(21, 11)),
                  Positions(ChainPixels(Chain(Composite.Rotate0), MockBox, pixels)))
    ensures Spans(Rectangle(Point(0, 53), Size(21, 11)),
                  Positions(ChainPixels(Chain(FlipY), MockBox, pixels)))
    ensures Spans(Rectangle(Point(53, 0), Size(11, 21)),
                  Positions(ChainPixels(Chain(Composite.Rotate90), MockBox, pixels)))
    ensures Spans(Rectangle(Point(0, 43), Size(11, 21)),
                  Positions(ChainPixels(Chain(Composite.Rotate270), MockBox, pixels)))
  {
    DrawAffects(Chain(Composite.Rotate0), MockBox, Extent, pixels);
    DrawAffects(Chain(FlipY), MockBox, Extent, pixels);
    DrawAffects(Chain(Composite.Rotate90), MockBox, Extent, pixels);
    DrawAffects(Chain(Composite.Rotate270), MockBox, Extent, pixels);
    LowerSingle(MirrorY, MockBox, ImageArea, Extent);
    assert ChainImage(Chain(Composite.Rotate90), MockBox, Extent)
        == ImageArea(TransposeXY, MockBox, ImageArea(MirrorY, TransposeRect(MockBox), Extent)) by {
      assert Chain(Composite.Rotate90)[1..] == [TransposeXY];
      LowerSingle(TransposeXY, MockBox, ImageArea, ImageArea(MirrorY, TransposeRect(MockBox), Extent));
    }
    assert ChainImage(Chain(Composite.Rotate270), MockBox, Extent)
        == ImageArea(MirrorY, MockBox, TransposeRect(Extent)) by {
      assert Chain(Composite.Rotate270)[1..] == [MirrorY];
      LowerSingle(MirrorY, MockBox, ImageArea, TransposeRect(Extent));
    }
  }

  /** Where the triangle's vertices land under `Rotate90` and `Rotate270`. */
  lemma TestVertexImages()
    ensures ChainAll(Chain(Composite.Rotate90), MockBox, Vertices) == [Point(53, 0), Point(63, 0), Point(63, 20)]
    ensures ChainAll(Chain(Composite.Rotate270), MockBox, Vertices) == [Point(10, 63), Point(0, 63), Point(0, 43)]
  {
    forall p | p in Vertices
      ensures ChainPoint(Chain(Composite.Rotate90), MockBox, p) == Point(63 - p.y, p.x)
      ensures ChainPoint(Chain(Composite.Rotate270), MockBox, p) == Point(p.y, 63 - p.x)
    {
      CompositePoints(MockBox, p);
    }
  }

  /** `fill_solid` of the rectangle at (1, 1) of size 5 x 10 through each composite, with the
      source's arithmetic. */
  lemma FillScenario(color: bool)
    ensures ChainFill(Chain(FlipX), MockBox, Rectangle(Point(1, 1), Size(5, 10)))
            == Rectangle(Point(57, 1), Size(5, 10))
    ensures ChainFill(Chain(FlipY), MockBox, Rectangle(Point(1, 1), Size(5, 10)))
            == Rectangle(Point(1, 52), Size(5, 10))
    ensures ChainFill(Chain(Composite.Rotate90), MockBox, Rectangle(Point(1, 1), Size(5, 10)))
            == Rectangle(Point(52, 1), Size(10, 5))
    ensures ChainFill(Chain(Composite.Rotate180), MockBox, Rectangle(Point(1, 1), Size(5, 10)))
            == Rectangle(Point(57, 52), Size(5, 10))
    ensures ChainFill(Chain(Composite.Rotate270), MockBox, Rectangle(Point(1, 1), Size(5, 10)))
            == Rectangle(Point(1, 57), Size(10, 5))
  {
    var area := Rectangle(Point(1, 1), Size(5, 10));
    LowerSingle(MirrorX, MockBox, FillArea, area);
    LowerSingle(MirrorY, MockBox, FillArea, area);
    assert Chain(Composite.Rotate90)[1..] == [TransposeXY];
    LowerSingle(TransposeXY, MockBox, FillArea, FillArea(MirrorY, TransposeRect(MockBox), area));
    assert Chain(Composite.Rotate180)[1..] == [MirrorY];
    LowerSingle(MirrorY, MockBox, FillArea, FillArea(MirrorX, MockBox, area));
    assert Chain(Composite.Rotate270)[1..] == [MirrorY];
    LowerSingle(MirrorY, MockBox, FillArea, TransposeRect(area));
  }

  // ---------------------------------------------------------------------------------------
  // The mirrors' fill_solid is one pixel off.

  /** As written, `FlipX` forwards `fill_solid` of its whole bounding box as a fill starting at
      x = -1, so column 63 stays unpainted, although it is the mirror image of column 0 of the
      requested area and `clear` paints it. */
  lemma FlipXFillMissesEdge(color: bool)
    ensures Lowered(Chain(FlipX), MockBox, FillSolid(MockBox, color))
            == FillSolid(Rectangle(Point(-1, 0), Size(64, 64)), color)
    ensures Contains(MockBox, Point(0, 0)) && ChainPoint(Chain(FlipX), MockBox, Point(0, 0)) == Point(63, 0)
    ensures Point(63, 0) !in Painted(map[], MockBox, Lowered(Chain(FlipX), MockBox, FillSolid(MockBox, color)))
    ensures Point(63, 0) in Painted(map[], MockBox, Lowered(Chain(FlipX), MockBox, Clear(color)))
  {
    LoweredFillSolid(Chain(FlipX), MockBox, MockBox, color);
    LowerSingle(MirrorX, MockBox, FillArea, MockBox);
    LowerSingle(MirrorX, MockBox, MapPoint, Point(0, 0));
    LoweredClear(Chain(FlipX), MockBox, color);
    FillRectExact(map[], MockBox, Rectangle(Point(-1, 0), Size(64, 64)), color, Point(63, 0));
    FillRectExact(map[], MockBox, MockBox, color, Point(63, 0));
  }

  /** As written, `FlipY` forwards `fill_solid` of its whole bounding box as a fill starting at
      y = -1, so row 63 stays unpainted, although `clear` paints it. */
  lemma FlipYFillMissesEdge(color: bool)
    ensures Lowered(Chain(FlipY), MockBox, FillSolid(MockBox, color))
            == FillSolid(Rectangle(Point(0, -1), Size(64, 64)), color)
    ensures Contains(MockBox, Point(0, 0)) && ChainPoint(Chain(FlipY), MockBox, Point(0, 0)) == Point(0, 63)
    ensures Point(0, 63) !in Painted(map[], MockBox, Lowered(Chain(FlipY), MockBox, FillSolid(MockBox, color)))
    ensures Point(0, 63) in Painted(map[], MockBox, Lowered(Chain(FlipY), MockBox, Clear(color)))
  {
    LoweredFillSolid(Chain(FlipY), MockBox, MockBox, color);
    LowerSingle(MirrorY, MockBox, FillArea, MockBox);
    LowerSingle(MirrorY, MockBox, MapPoint, Point(0, 0));
    LoweredClear(Chain(FlipY), MockBox, color);
    FillRectExact(map[], MockBox, Rectangle(Point(0, -1), Size(64, 64)), color, Point(0, 63));
    FillRectExact(map[], MockBox, MockBox, color, Point(0, 63));
  }

  /** The mirrors reflect about `size - 1` counting from 0 and never read the box's top-left
      corner: over a display whose box starts at (1, 0), `FlipX` sends (4, 0), a point of the
      box it reports, to (-1, 0), outside the display's box. */
  lemma MirrorIgnoresTopLeft()
    ensures Contains(ChainBox(Chain(FlipX), Rectangle(Point(1, 0), Size(4, 4))), Point(4, 0))
    ensures ChainPoint(Chain(FlipX), Rectangle(Point(1, 0), Size(4, 4)), Point(4, 0)) == Point(-1, 0)
    ensures !Contains(Rectangle(Point(1, 0), Size(4, 4)), Point(-1, 0))
  {
    LowerSingle(MirrorX, Rectangle(Point(1, 0), Size(4, 4)), MapPoint, Point(4, 0));
  }

  /** Over a display whose box starts at the origin, with the exact image as the forwarded
      rectangle, filling any wrapper's whole bounding box paints the display exactly as
      `clear` does. */
  lemma IntendedFillOfBoxIsClear<C>(c: seq<Prim>, b: Rectangle, m: map<Point, C>, color: C)
    requires Anchored(b)
    ensures Painted(m, b, FillSolid(ChainImage(c, b, ChainBox(c, b)), color))
            == Painted(m, b, Lowered(c, b, Clear(color)))
  {
    ChainImageOfBox(c, b);
    LoweredClear(c, b, color);
  }

  /** Through transposes alone the source's fill is already exact. */
  lemma {:induction false} TransposeFillExact(c: seq<Prim>, b: Rectangle, area: Rectangle)
    requires forall i :: 0 <= i < |c| ==> c[i] == TransposeXY
    ensures ChainFill(c, b, area) == ChainImage(c, b, area)
    decreases |c|
  {
    if c != [] {
      var inner := ChainBox(c[1..], b);
      assert FillArea(c[0], inner, area) == ImageArea(c[0], inner, area);
      TransposeFillExact(c[1..], b, FillArea(c[0], inner, area));
    }
  }

  // ---------------------------------------------------------------------------------------
  // Clients of the wrapper objects.

  /** The triangle's vertices as a pixel stream, all in the same colour. */
  const Corners := [Pixel(Point(0, 10), true), Pixel(Point(0, 0), true), Pixel(Point(20, 0), true)]

  /** `Rotate90` sends the vertices to the corners of the rotated triangle, in order. */
  lemma Rotate90MovesCorners()
    ensures ChainPixels(Chain(Composite.Rotate90), MockBox, Corners)
            == [Pixel(Point(53, 0), true), Pixel(Point(63, 0), true), Pixel(Point(63, 20), true)]
  {
    var sent := ChainPixels(Chain(Composite.Rotate90), MockBox, Corners);
    var expected := [Pixel(Point(53, 0), true), Pixel(Point(63, 0), true), Pixel(Point(63, 20), true)];
    forall i | 0 <= i < 3
      ensures sent[i] == expected[i]
    {
      CompositePoints(MockBox, Corners[i].position);
    }
  }

  /** Painting the three rotated corners on a blank display. */
  lemma CornersPaint()
    ensures Paint(map[], MockBox, [Pixel(Point(53, 0), true), Pixel(Point(63, 0), true), Pixel(Point(63, 20), true)])
            == map[Point(53, 0) := true, Point(63, 0) := true, Point(63, 20) := true]
  {
    var ps := [Pixel(Point(53, 0), true), Pixel(Point(63, 0), true), Pixel(Point(63, 20), true)];
    assert ps[1..][1..][1..] == [];
  }

  /** Drawing the triangle's three vertices through `Rotate90` paints them where the test
      expects the rotated triangle's corners. */
  method Rotate90PaintsCorners() returns (r: Result<string>, painted: map<Point, bool>)
    ensures r == Ok
    ensures painted == map[Point(53, 0) := true, Point(63, 0) := true, Point(63, 20) := true]
  {
    var display := new Display<bool, string>(MockBox, None);
    var rotated := new Wrapped(Composite.Rotate90, Bare(display));
    assert rotated.lowering == Chain(Composite.Rotate90) by {
      assert Chain(Composite.Rotate90) + [] == Chain(Composite.Rotate90);
    }
    r := rotated.DrawIter(Corners);
    painted := display.pixels;
    Rotate90MovesCorners();
    CornersPaint();
  }

  /** A display fault comes back from every wrapper unchanged, and nothing is painted. */
  method FaultIsForwarded(e: string, rot: Rotation) returns (r: Result<string>, painted: map<Point, bool>)
    ensures r == Err(e)
    ensures painted == map[]
  {
    var display := new Display<bool, string>(MockBox, Some(e));
    var facade := new Rotate(rot, Bare(display));
    r := facade.Clear(true);
    painted := display.pixels;
  }

  /** `Rotate90` wrapped around `Rotate270` hands every pixel to the display unmoved. */
  method NestedRotationsCancel(p: Point, color: bool) returns (received: seq<Command<bool>>)
    ensures received == [DrawIter([Pixel(p, color)])]
  {
    var display := new Display<bool, string>(MockBox, None);
    var left := new Wrapped(Composite.Rotate270, Bare(display));
    var right := new Wrapped(Composite.Rotate90, Nested(left));
    var _ := right.DrawIter([Pixel(p, color)]);
    received := display.received;
    assert Chain(Composite.Rotate270) + [] == Chain(Composite.Rotate270);
    RotationsUndo(MockBox, p);
    assert ChainPixels(Chain(Composite.Rotate90) + Chain(Composite.Rotate270), MockBox, [Pixel(p, color)])
        == [Pixel(p, color)];
  }

  /** The facade built for `rot` and the fixed composite `rot` selects leave two identical
      displays in identical states after the same calls, with identical answers. */
  method FacadeMatchesFixed(rot: Rotation, bounds: Rectangle, fault: Option<string>,
                            pixels: seq<Pixel<bool>>, area: Rectangle, colors: seq<bool>)
    returns (same: bool)
    ensures same
  {
    var d1 := new Display<bool, string>(bounds, fault);
    var d2 := new Display<bool, string>(bounds, fault);
    var facade := new Rotate(rot, Bare(d1));
    var fixed := new Wrapped(Fixed(rot), Bare(d2));
    var r1 := facade.DrawIter(pixels);
    var r2 := fixed.DrawIter(pixels);
    same := r1 == r2;
    r1 := facade.FillContiguous(area, colors);
    r2 := fixed.FillContiguous(area, colors);
    same := same && r1 == r2;
    r1 := facade.FillSolid(area, true);
    r2 := fixed.FillSolid(area, true);
    same := same && r1 == r2;
    r1 := facade.Clear(false);
    r2 := fixed.Clear(false);
    same := same && r1 == r2 && d1.Snapshot() == d2.Snapshot() && facade.Selected() == rot;
  }
}
