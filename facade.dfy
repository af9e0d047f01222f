/** The runtime rotation facade `Rotate`: it builds one of the four rotation composites,
    chosen once by a `Rotation` value, stores it under a tag, and dispatches every call to
    it by matching on that tag. */
module Facade {
  import opened Geometry
  import opened Transforms
  import opened Commands
  import opened Surface
  import opened Wrappers

  /** Rotation direction and amount. */
  datatype Rotation = Rotate0 | Rotate90 | Rotate180 | Rotate270

  /** The fixed composite each rotation selects: always a rotation, swapping the axes
      exactly for 90 and 270 degrees. */
  function Fixed(rot: Rotation): (k: Composite)
    ensures k != Transpose && k != FlipX && k != FlipY
    ensures SwapsAxes(k) <==> rot == Rotation.Rotate90 || rot == Rotation.Rotate270
  {
    match rot
    case Rotate0 => Composite.Rotate0
    case Rotate90 => Composite.Rotate90
    case Rotate180 => Composite.Rotate180
    case Rotate270 => Composite.Rotate270
  }

  /** The stored composite, tagged by which rotation built it. */
  datatype RotateInner<C, E> =
    | Inner0(wrapped: Wrapped<C, E>)
    | Inner90(wrapped: Wrapped<C, E>)
    | Inner180(wrapped: Wrapped<C, E>)
    | Inner270(wrapped: Wrapped<C, E>)
  {
    /** The rotation a tag stands for. */
    function Tag(): Rotation {
      match this
      case Inner0(_) => Rotation.Rotate0
      case Inner90(_) => Rotation.Rotate90
      case Inner180(_) => Rotation.Rotate180
      case Inner270(_) => Rotation.Rotate270
    }
  }

  /** The four rotations select four different composites; 90 and 270 degrees report the
      display's box transposed, 0 and 180 degrees report it unchanged. */
  lemma RotationBoxes(rot: Rotation, other: Rotation, b: Rectangle)
    ensures Fixed(rot) == Fixed(other) ==> rot == other
    ensures ChainBox(Chain(Fixed(rot)), b)
            == (if rot == Rotation.Rotate90 || rot == Rotation.Rotate270 then TransposeRect(b) else b)
  {
    CompositeBox(Fixed(rot), b);
  }

  class Rotate<C, E> {
    const target: RotateInner<C, E>

    ghost const display: Display<C, E>
    ghost const lowering: seq<Prim>
    /** What the facade was built around. */
    ghost const origin: Target<C, E>

    ghost predicate Valid() {
      && target.wrapped.Valid()
      && target.wrapped.kind == Fixed(target.Tag())
      && target.wrapped.target == origin
      && display == target.wrapped.display
      && lowering == target.wrapped.lowering
    }

    /** The rotation chosen at construction; no operation can change it. */
    function Selected(): Rotation {
      target.Tag()
    }

    /** Builds the composite `rot` selects around `inner`. */
    constructor (rot: Rotation, inner: Target<C, E>)
      requires ValidTarget(inner)
      ensures Valid() && Selected() == rot && origin == inner
      ensures display == Base(inner) && lowering == Chain(Fixed(rot)) + Lowering(inner)
    {
      var w := new Wrapped(Fixed(rot), inner);
      target := match rot
        case Rotate0 => Inner0(w)
        case Rotate90 => Inner90(w)
        case Rotate180 => Inner180(w)
        case Rotate270 => Inner270(w);
      display := w.display;
      lowering := w.lowering;
      origin := inner;
    }

    /** Gives back what the facade was built around. */
    function IntoInner(): (t: Target<C, E>)
      requires Valid()
      ensures t == origin
    {
      match target
      case Inner0(w) => w.IntoInner()
      case Inner90(w) => w.IntoInner()
      case Inner180(w) => w.IntoInner()
      case Inner270(w) => w.IntoInner()
    }

    function BoundingBox(): (r: Rectangle)
      requires Valid()
      reads display
      ensures r == ChainBox(lowering, display.bounds)
    {
      match target
      case Inner0(w) => w.BoundingBox()
      case Inner90(w) => w.BoundingBox()
      case Inner180(w) => w.BoundingBox()
      case Inner270(w) => w.BoundingBox()
    }

    method DrawIter(pixels: seq<Pixel<C>>) returns (r: Result<E>)
      requires Valid()
      modifies display
      ensures display.Snapshot()
              == Step(old(display.Snapshot()), Command.DrawIter(ChainPixels(lowering, old(display.bounds), pixels)))
      ensures r == Reply(old(display.Snapshot()))
    {
      match target
      case Inner0(w) => r := w.DrawIter(pixels);
      case Inner90(w) => r := w.DrawIter(pixels);
      case Inner180(w) => r := w.DrawIter(pixels);
      case Inner270(w) => r := w.DrawIter(pixels);
    }

    method FillContiguous(area: Rectangle, colors: seq<C>) returns (r: Result<E>)
      requires Valid()
      modifies display
      ensures lowering == [] ==>
                display.Snapshot() == Step(old(display.Snapshot()), Command.FillContiguous(area, colors))
      ensures lowering != [] ==>
                display.Snapshot()
                == Step(old(display.Snapshot()),
                        Command.DrawIter(ChainPixels(lowering, old(display.bounds), Zip(RowMajor(area), colors))))
      ensures r == Reply(old(display.Snapshot()))
    {
      match target
      case Inner0(w) => r := w.FillContiguous(area, colors);
      case Inner90(w) => r := w.FillContiguous(area, colors);
      case Inner180(w) => r := w.FillContiguous(area, colors);
      case Inner270(w) => r := w.FillContiguous(area, colors);
    }

    method FillSolid(area: Rectangle, color: C) returns (r: Result<E>)
      requires Valid()
      modifies display
      ensures display.Snapshot()
              == Step(old(display.Snapshot()), Command.FillSolid(ChainFill(lowering, old(display.bounds), area), color))
      ensures r == Reply(old(display.Snapshot()))
    {
      match target
      case Inner0(w) => r := w.FillSolid(area, color);
      case Inner90(w) => r := w.FillSolid(area, color);
      case Inner180(w) => r := w.FillSolid(area, color);
      case Inner270(w) => r := w.FillSolid(area, color);
    }

    method Clear(color: C) returns (r: Result<E>)
      requires Valid()
      modifies display
      ensures display.Snapshot() == Step(old(display.Snapshot()), Command.Clear(color))
      ensures r == Reply(old(display.Snapshot()))
    {
      match target
      case Inner0(w) => r := w.Clear(color);
      case Inner90(w) => r := w.Clear(color);
      case Inner180(w) => r := w.Clear(color);
      case Inner270(w) => r := w.Clear(color);
    }
  }
}
