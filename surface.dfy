/** The display the wrappers own: an in-memory frame buffer standing for the wrapped
    display. It reports a bounding box, paints what it is sent (ignoring pixels outside its
    box), keeps a log of every call it received, and, when it has a fault, answers every
    drawing call with that error. Its fills behave as the protocol's default
    implementations do: a solid fill paints every point of the area, and `clear` fills the
    whole bounding box. */
module Surface {
  import opened Geometry
  import opened Commands

  /** The observable state of a display. */
  datatype State<C, E> = State(bounds: Rectangle, pixels: map<Point, C>,
                               received: seq<Command<C>>, fault: Option<E>)

  /** Paints a stream in order (a later pixel overwrites an earlier one at the same
      position); positions outside `bounds` are ignored. */
  function Paint<C>(m: map<Point, C>, bounds: Rectangle, pixels: seq<Pixel<C>>): map<Point, C>
    decreases |pixels|
  {
    if pixels == [] then m
    else
      var p := pixels[0];
      Paint(if Contains(bounds, p.position) then m[p.position := p.color] else m, bounds, pixels[1..])
  }

  /** The points that lie both in `area` and in `bounds`. */
  function Covered(bounds: Rectangle, area: Rectangle): set<Point> {
    set x: int, y: int
      | && bounds.topLeft.x <= x < bounds.topLeft.x + bounds.size.width
        && bounds.topLeft.y <= y < bounds.topLeft.y + bounds.size.height
        && Contains(area, Point(x, y))
      :: Point(x, y)
  }

  /** Paints every point of `area` that lies in `bounds` with `color`. */
  function FillRect<C>(m: map<Point, C>, bounds: Rectangle, area: Rectangle, color: C): map<Point, C> {
    map p | p in m.Keys + Covered(bounds, area)
      :: if p in Covered(bounds, area) then color else m[p]
  }

  /** What a call does to the painted pixels. */
  function Painted<C>(m: map<Point, C>, bounds: Rectangle, cmd: Command<C>): map<Point, C> {
    match cmd
    case DrawIter(pixels) => Paint(m, bounds, pixels)
    case FillContiguous(area, colors) => Paint(m, bounds, Zip(RowMajor(area), colors))
    case FillSolid(area, color) => FillRect(m, bounds, area, color)
    case Clear(color) => FillRect(m, bounds, bounds, color)
  }

  /** The display's new state after a call: the call is logged, and painted unless the
      display has a fault. */
  function Step<C, E>(s: State<C, E>, cmd: Command<C>): State<C, E> {
    if s.fault.Some? then s.(received := s.received + [cmd])
    else s.(received := s.received + [cmd], pixels := Painted(s.pixels, s.bounds, cmd))
  }

  /** The display's answer to a drawing call. */
  function Reply<C, E>(s: State<C, E>): Result<E> {
    match s.fault
    case None => Ok
    case Some(e) => Err(e)
  }

  /** A solid fill paints exactly the points of the area inside the box, and nothing else
      changes. */
  lemma FillRectExact<C>(m: map<Point, C>, bounds: Rectangle, area: Rectangle, color: C, p: Point)
    ensures p in FillRect(m, bounds, area, color) <==> p in m || (Contains(area, p) && Contains(bounds, p))
    ensures Contains(area, p) && Contains(bounds, p) ==> FillRect(m, bounds, area, color)[p] == color
    ensures !(Contains(area, p) && Contains(bounds, p)) && p in m ==> FillRect(m, bounds, area, color)[p] == m[p]
  {
    assert p in Covered(bounds, area) <==> Contains(area, p) && Contains(bounds, p);
  }

  /** A display that receives a pixel stream, a fill or a clear. */
  class Display<C, E> {
    var bounds: Rectangle
    var pixels: map<Point, C>
    var received: seq<Command<C>>
    var fault: Option<E>

    function Snapshot(): State<C, E>
      reads this
    {
      State(bounds, pixels, received, fault)
    }

    constructor (bounds: Rectangle, fault: Option<E>)
      ensures Snapshot() == State(bounds, map[], [], fault)
    {
      this.bounds := bounds;
      this.pixels := map[];
      this.received := [];
      this.fault := fault;
    }

    function BoundingBox(): Rectangle
      reads this
    {
      bounds
    }

    method DrawIter(pixels: seq<Pixel<C>>) returns (r: Result<E>)
      modifies this
      ensures Snapshot() == Step(old(Snapshot()), Command.DrawIter(pixels))
      ensures r == Reply(old(Snapshot()))
    {
      received := received + [Command.DrawIter(pixels)];
      if fault.None? {
        this.pixels := Paint(this.pixels, bounds, pixels);
      }
      r := Reply(Snapshot());
    }

    method FillContiguous(area: Rectangle, colors: seq<C>) returns (r: Result<E>)
      modifies this
      ensures Snapshot() == Step(old(Snapshot()), Command.FillContiguous(area, colors))
      ensures r == Reply(old(Snapshot()))
    {
      received := received + [Command.FillContiguous(area, colors)];
      if fault.None? {
        pixels := Paint(pixels, bounds, Zip(RowMajor(area), colors));
      }
      r := Reply(Snapshot());
    }

    method FillSolid(area: Rectangle, color: C) returns (r: Result<E>)
      modifies this
      ensures Snapshot() == Step(old(Snapshot()), Command.FillSolid(area, color))
      ensures r == Reply(old(Snapshot()))
    {
      received := received + [Command.FillSolid(area, color)];
      if fault.None? {
        pixels := FillRect(pixels, bounds, area, color);
      }
      r := Reply(Snapshot());
    }

    method Clear(color: C) returns (r: Result<E>)
      modifies this
      ensures Snapshot() == Step(old(Snapshot()), Command.Clear(color))
      ensures r == Reply(old(Snapshot()))
    {
      received := received + [Command.Clear(color)];
      if fault.None? {
        pixels := FillRect(pixels, bounds, bounds, color);
      }
      r := Reply(Snapshot());
    }

    /** Hands a call to the matching operation. */
    method Execute(cmd: Command<C>) returns (r: Result<E>)
      modifies this
      ensures Snapshot() == Step(old(Snapshot()), cmd)
      ensures r == Reply(old(Snapshot()))
    {
      match cmd
      case DrawIter(ps) => r := DrawIter(ps);
      case FillContiguous(area, colors) => r := FillContiguous(area, colors);
      case FillSolid(area, color) => r := FillSolid(area, color);
      case Clear(color) => r := Clear(color);
    }
  }
}
