/** The fixed composite wrappers (`Rotate0`, `Rotate90`, ..., `FlipY`) as objects. A wrapper
    owns its target, which is either a display or another wrapper; it never changes its own
    fields, and every drawing call goes through its chain of primitive layers, outermost
    first, and then to its target. Only the innermost display changes state. */
module Wrappers {
  import opened Geometry
  import opened Transforms
  import opened Commands
  import opened Surface

  /** What a wrapper owns: the display itself, or another wrapper around it. */
  datatype Target<C, E> = Bare(display: Display<C, E>) | Nested(wrapper: Wrapped<C, E>)

  /** The innermost display behind a target. */
  ghost function Base<C, E>(t: Target<C, E>): Display<C, E> {
    match t
    case Bare(d) => d
    case Nested(w) => w.display
  }

  /** The primitives a target applies before the display, outermost first. */
  ghost function Lowering<C, E>(t: Target<C, E>): seq<Prim> {
    match t
    case Bare(_) => []
    case Nested(w) => w.lowering
  }

  ghost predicate ValidTarget<C, E>(t: Target<C, E>) {
    t.Nested? ==> t.wrapper.Valid()
  }

  class Wrapped<C, E> {
    /** Which composite this is. */
    const kind: Composite
    const target: Target<C, E>

    ghost const depth: nat
    /** The innermost display, the only object any call changes. */
    ghost const display: Display<C, E>
    /** Every primitive between a caller and the display, outermost first. */
    ghost const lowering: seq<Prim>

    ghost predicate Valid()
      decreases depth
    {
      match target
      case Bare(d) => display == d && lowering == Chain(kind)
      case Nested(w) =>
        && w.depth < depth && w.Valid()
        && display == w.display && lowering == Chain(kind) + w.lowering
    }

    /** Wraps `target`, taking it over; nothing is drawn. */
    constructor (kind: Composite, target: Target<C, E>)
      requires ValidTarget(target)
      ensures Valid() && this.kind == kind && this.target == target
      ensures IntoInner() == target
      ensures display == Base(target) && lowering == Chain(kind) + Lowering(target)
    {
      this.kind := kind;
      this.target := target;
      match target {
        case Bare(d) =>
          depth := 0;
          display := d;
          lowering := Chain(kind);
        case Nested(w) =>
          depth := w.depth + 1;
          display := w.display;
          lowering := Chain(kind) + w.lowering;
      }
    }

    /** The full lowering is this composite's own chain followed by the target's. */
    lemma LoweringSplits()
      requires Valid()
      ensures lowering == Chain(kind) + Lowering(target)
    {
      if target.Bare? {
        assert Chain(kind) + [] == Chain(kind);
      }
    }

    /** Gives back the target this wrapper was built around: it leads to the same display
        and carries the rest of the stack. */
    function IntoInner(): (t: Target<C, E>)
      requires Valid()
      ensures t == target
      ensures Base(t) == display && lowering == Chain(kind) + Lowering(t)
    {
      LoweringSplits();
      target
    }

    /** The bounding box the target reports. */
    function TargetBox(): (r: Rectangle)
      requires Valid()
      reads display
      ensures r == ChainBox(Lowering(target), display.bounds)
      decreases depth, 0
    {
      match target
      case Bare(d) => d.BoundingBox()
      case Nested(w) => w.BoundingBox()
    }

    /** The bounding box this wrapper reports: the target's box passed through the
        composite's primitives. */
    function BoundingBox(): (r: Rectangle)
      requires Valid()
      reads display
      ensures r == ChainBox(lowering, display.bounds)
      decreases depth, 1
    {
      ChainBoxAppend(Chain(kind), Lowering(target), display.bounds);
      ChainBox(Chain(kind), TargetBox())
    }

    /** One call through the primitive layers `layers` (a suffix of this composite's chain):
        the outermost layer reads the box its target reports once, rewrites the call, and
        hands it on; when no layer is left the call goes to this wrapper's target. The
        display's answer is returned unchanged. */
    method Forward(layers: seq<Prim>, cmd: Command<C>) returns (r: Result<E>)
      requires Valid()
      modifies display
      ensures display.Snapshot()
              == Step(old(display.Snapshot()), Lowered(layers + Lowering(target), old(display.bounds), cmd))
      ensures r == Reply(old(display.Snapshot()))
      decreases depth, |layers|
    {
      if layers == [] {
        assert layers + Lowering(target) == Lowering(target);
        match target
        case Bare(d) =>
          r := d.Execute(cmd);
        case Nested(w) =>
          w.LoweringSplits();
          r := w.Forward(Chain(w.kind), cmd);
      } else {
        var inner := ChainBox(layers[1..], TargetBox());
        ghost var below := layers[1..] + Lowering(target);
        assert (layers + Lowering(target))[1..] == below;
        assert (layers + Lowering(target))[0] == layers[0];
        ChainBoxAppend(layers[1..], Lowering(target), display.bounds);
        assert inner == ChainBox(below, display.bounds);
        r := Forward(layers[1..], Rewrite(layers[0], inner, cmd));
      }
    }

    /** `draw_iter`: the display receives one stream of the same length and order, with the
        same colours and every position moved by the wrapper's point map. */
    method DrawIter(pixels: seq<Pixel<C>>) returns (r: Result<E>)
      requires Valid()
      modifies display
      ensures display.Snapshot()
              == Step(old(display.Snapshot()), Command.DrawIter(ChainPixels(lowering, old(display.bounds), pixels)))
      ensures |ChainPixels(lowering, old(display.bounds), pixels)| == |pixels|
      ensures r == Reply(old(display.Snapshot()))
    {
      LoweringSplits();
      r := Forward(Chain(kind), Command.DrawIter(pixels));
      LoweredDraw(lowering, old(display.bounds), pixels);
    }

    /** `fill_contiguous`: with no primitive between the caller and the display the call is
        passed on as it is; otherwise it falls back to drawing the area's points in row-major
        order, one colour per point, through the point map. */
    method FillContiguous(area: Rectangle, colors: seq<C>) returns (r: Result<E>)
      requires Valid()
      modifies display
      ensures lowering == [] ==>
                display.Snapshot() == Step(old(display.Snapshot()), Command.FillContiguous(area, colors))
      ensures lowering != [] ==>
                display.Snapshot()
                == Step(old(display.Snapshot()),
                        Command.DrawIter(ChainPixels(lowering, old(display.bounds), Zip(RowMajor(area), colors))))
      ensures r == Reply(old(display.Snapshot()))
    {
      LoweringSplits();
      r := Forward(Chain(kind), Command.FillContiguous(area, colors));
      LoweredFillContiguous(lowering, old(display.bounds), area, colors);
    }

    /** `fill_solid`: the display receives one solid fill of the chain's rectangle in the
        same colour. */
    method FillSolid(area: Rectangle, color: C) returns (r: Result<E>)
      requires Valid()
      modifies display
      ensures display.Snapshot()
              == Step(old(display.Snapshot()), Command.FillSolid(ChainFill(lowering, old(display.bounds), area), color))
      ensures r == Reply(old(display.Snapshot()))
    {
      LoweringSplits();
      r := Forward(Chain(kind), Command.FillSolid(area, color));
      LoweredFillSolid(lowering, old(display.bounds), area, color);
    }

    /** `clear`: the display is cleared to the same colour. */
    method Clear(color: C) returns (r: Result<E>)
      requires Valid()
      modifies display
      ensures display.Snapshot() == Step(old(display.Snapshot()), Command.Clear(color))
      ensures r == Reply(old(display.Snapshot()))
    {
      LoweringSplits();
      r := Forward(Chain(kind), Command.Clear(color));
      LoweredClear(lowering, old(display.bounds), color);
    }
  }
}
