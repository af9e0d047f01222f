# embedded-graphics-transform, modelled in Dafny

The crate wraps an embedded-graphics display (a `DrawTarget`) in coordinate transforms, so
that a picture drawn on the wrapper is rotated or mirrored on the device. It is built from
three primitive wrappers:

- `TransposeXY` swaps x and y, and reports its target's box transposed.
- `MirrorX` maps x to `(W - 1) - x`.
- `MirrorY` maps y to `(H - 1) - y`.

Each mirror reports its target's box unchanged. The crate then stacks them into seven fixed
composites: `Rotate0`, `Rotate90`, `Rotate180`, `Rotate270`, `Transpose`, `FlipX` and `FlipY`.
A runtime facade, `Rotate`, picks one of the four rotations from a `Rotation` value.

Every wrapper passes each drawing call to its target:

- `draw_iter` maps every pixel's position.
- `fill_solid` maps the rectangle.
- `clear` is forwarded unchanged.
- `fill_contiguous` is not overridden by the primitives. It falls back to drawing the area's
  points in row-major order, one colour per point.

Modules:

- `Geometry` holds points, sizes, rectangles and transposition.
- `Transforms` holds the three primitives and chains of them. A chain is listed outermost
  first. Each layer reads the box its own target reports. The module also holds the seven
  composites, with their closed forms and inverses.
- `Commands` holds the four `DrawTarget` calls as values and how one layer rewrites each.
- `Surface` is an in-memory display that stands in for the wrapped display `D`. It has a
  box, painted pixels, a log of received calls and an optional fault.
- `Wrappers` has the class `Wrapped`, a fixed composite owning a display or another wrapper.
  It forwards each call layer by layer.
- `Facade` holds `Rotation`, `RotateInner` and the class `Rotate`.
- `Affected` holds the smallest rectangle spanned by the drawn points, and how it moves
  through a chain.
- `Scenarios` holds the crate's test values, the `fill_solid` counterexamples and clients
  that drive the objects.

The mirrors reflect about `size - 1` counted from 0. They read only the size of the box their
target reports, never its top-left corner (src/lib.rs:439, 449, 507, 517). A display box
that starts at the origin, as displays report, is mapped onto itself. Over a box that starts
elsewhere, a mirror sends some points of its own reported box outside the display's box
(`Scenarios.MirrorIgnoresTopLeft`). The results about whole boxes are therefore stated for
boxes anchored at the origin.

Integers are unbounded. Wrapper objects never change their own fields. Only the innermost
display changes, so each method states the display's new state as a function of its old
state (`Surface.Step`). The lemmas about those functions carry the properties.

## Model

| member | source | states |
|---|---|---|
| Geometry.TransposeSwapsAndUndoes | src/lib.rs:310-338 | transposing a point, a size or a rectangle swaps the two components, and transposing twice gives the original back |
| Geometry.TransposeKeepsContainment | src/lib.rs:330-338 | a point lies in a rectangle iff its transpose lies in the transposed rectangle |
| Transforms.Reported | src/lib.rs:366-370 | a primitive reports a box of the same area as its target's (transposed for TransposeXY, unchanged for the mirrors at 424-429 and 492-497), anchored at the origin whenever the target's box is |
| Transforms.MapPoint | src/lib.rs:439-445 | the per-pixel map of TransposeXY (380-384), MirrorX and MirrorY (507-513): over a box anchored at the origin, a point lies in the primitive's reported box iff its image lies in the target's box |
| Transforms.FillArea | src/lib.rs:448-457 | the `fill_solid` rectangle as written (also 387-390 and 516-525): the size is kept (swapped by transpose), and a mirrored fill ends just before the image of the area's first column or row |
| Transforms.ReportedBox | src/lib.rs:366-370 | the box a primitive reports is its target's box, transposed for TransposeXY and unchanged for the mirrors; the area is kept; applying the box map twice restores it |
| Transforms.MapPointUndo | src/lib.rs:435-446 | each primitive's pixel map is undone by the same primitive over the reported box, in both orders |
| Transforms.MirrorStaysInRange | src/lib.rs:439-444 | MirrorX keeps x inside `[0, W)` exactly when it starts there and leaves y alone; MirrorY does the same for y and the height (507-512) |
| Transforms.ImageAreaExact | src/lib.rs:448-457 | the corrected forwarded rectangle contains a mapped point iff the requested rectangle contains the original point |
| Transforms.FillAreaOffByOne | src/lib.rs:516-525 | as written, a mirror's forwarded rectangle keeps the size but starts one pixel before the exact image on the mirrored axis; for a transpose it is the exact image |
| Transforms.ChainBoxAppend | src/lib.rs:32-37 | the box reported by a stack of wrappers is the outer part's box map applied to the inner part's box |
| Transforms.LowerAppend | src/lib.rs:39-46 | lowering through a stack equals lowering through the outer part, then through the inner part, with each part seeing the box beneath it |
| Transforms.LowerSingle | src/lib.rs:376-390 | a single-layer stack reports and rewrites exactly as its primitive does |
| Transforms.ChainBoxReverse | src/lib.rs:13 | the reversed stack over the composed box reports the display's box again |
| Transforms.ReverseThenChain | src/lib.rs:13 | any stack's point map undoes the reversed stack's map |
| Transforms.ChainThenReverse | src/lib.rs:13 | the reversed stack undoes any stack's point map |
| Transforms.ChainBijective | src/lib.rs:13 | every stack's point map is injective and onto |
| Transforms.ReverseAroundIsIdentity | src/lib.rs:13 | wrapping a stack in its reverse gives the identity, both in box and in points |
| Transforms.ChainImageExact | src/lib.rs:448-457 | through any stack, the corrected rectangle contains a mapped point iff the requested rectangle contains the point |
| Transforms.ChainImageOnto | src/lib.rs:516-525 | every point of the corrected rectangle is the image of a point of the requested rectangle |
| Transforms.ChainImageOfBox | src/lib.rs:107-112 | over a display box anchored at the origin, a stack reports an anchored box whose corrected image is the display's box |
| Transforms.ChainKeepsBounds | src/lib.rs:503-514 | over a display box anchored at the origin, a point lies in the box a stack reports iff its image lies in the display's box |
| Transforms.Chain | src/lib.rs:148-166 | the primitives of each composite, outermost first: only Rotate0 has none, none repeats, and a transpose appears exactly in Rotate90, Rotate270 and Transpose |
| Transforms.CompositeBox | src/lib.rs:107-112 | Rotate90, Rotate270 and Transpose report the display's box transposed; the others report it unchanged |
| Transforms.CompositePoints | src/lib.rs:148-166 | closed forms of all seven composites' point maps, e.g. Rotate90 sends (x,y) to (W-1-y, x) |
| Transforms.RotationsUndo | src/lib.rs:152-156 | Rotate90 around Rotate270 and Rotate270 around Rotate90 are the identity |
| Transforms.Rotate180Undoes | src/lib.rs:157-158 | Rotate180 twice is the identity |
| Transforms.SinglesUndo | src/lib.rs:160-165 | Transpose, FlipX and FlipY are each their own inverse |
| Commands.RowMajorInArea | src/lib.rs:15-18 | the generic fill_contiguous fallback enumerates width*height points, all inside the area |
| Commands.Rewrite | src/lib.rs:372-396 | what one primitive hands its target: draw_iter keeps length and colours; fill_contiguous, which the primitives do not override (15-18), becomes a draw of min(width*height, colours) pixels; fill_solid keeps the colour and the area; clear is unchanged; fill_contiguous is never forwarded as such |
| Commands.LoweredDraw | src/lib.rs:376-385 | draw_iter reaches the display as one stream of the same length and order, with the same colours, each position moved by the stack's point map |
| Commands.LoweredFillSolid | src/lib.rs:387-390 | fill_solid reaches the display as one solid fill of the stack's rectangle, in the same colour |
| Commands.LoweredClear | src/lib.rs:460-463 | clear reaches the display unchanged |
| Commands.LoweredFillContiguous | src/lib.rs:15-20 | fill_contiguous is passed on as it is with no primitive in between; otherwise it becomes a draw of the row-major points paired with the colours, through the point map |
| Commands.LoweredAppend | src/lib.rs:39-46 | lowering a call through stacked layers composes |
| Affected.PrimSpans | src/lib.rs:435-446 | one primitive maps points spanning a rectangle to points spanning its exact image |
| Affected.ChainSpans | src/tests.rs:157-166 | through any stack, the drawn points' affected area becomes the exact image of the affected area the caller drew |
| Affected.DrawnPositions | src/lib.rs:118-125 | the positions of the stream a stack forwards are the stack's images of the positions drawn, in order |
| Affected.DrawAffects | src/tests.rs:71-80 | a stream drawn through any stack reaches the display with the exact image of the caller's affected area as its affected area |
| Wrappers.Wrapped.constructor | src/lib.rs:64-71 | `new` takes the target over and draws nothing; the stack is the composite's own chain followed by the target's |
| Wrappers.Wrapped.IntoInner | src/lib.rs:73-76 | gives back the target the wrapper was built around, which leads to the same display and carries the rest of the stack |
| Wrappers.Wrapped.LoweringSplits | src/lib.rs:32-37 | a wrapper's full stack is its own chain followed by its target's |
| Wrappers.Wrapped.BoundingBox | src/lib.rs:107-112 | the reported box is the display's box through the whole stack |
| Wrappers.Wrapped.Forward | src/lib.rs:114-144 | a call is rewritten layer by layer, reaches the display once, and the display's answer comes back unchanged |
| Wrappers.Wrapped.DrawIter | src/lib.rs:118-125 | the display's new state is the old state after one draw of the mapped stream; the stream keeps its length; the display's result is returned |
| Wrappers.Wrapped.FillContiguous | src/lib.rs:127-133 | the display receives the fill unchanged with no layer, otherwise the row-major fallback draw; the display's result is returned |
| Wrappers.Wrapped.FillSolid | src/lib.rs:134-137 | the display receives one solid fill of the stack's rectangle; the display's result is returned |
| Wrappers.Wrapped.Clear | src/lib.rs:139-142 | the display is cleared in the same colour; the display's result is returned |
| Facade.Fixed | src/lib.rs:228-236 | each rotation selects a rotation composite, which swaps the axes exactly for 90 and 270 degrees |
| Facade.RotationBoxes | src/lib.rs:168-186 | distinct rotations select distinct composites; 90 and 270 degrees report the box transposed, 0 and 180 unchanged |
| Facade.Rotate.constructor | src/lib.rs:228-236 | `new` builds the composite the rotation selects around the target and remembers the rotation |
| Facade.Rotate.IntoInner | src/lib.rs:239-241 | gives back exactly the target the facade was built around |
| Facade.Rotate.BoundingBox | src/lib.rs:270-274 | dispatches to the selected composite's box |
| Facade.Rotate.DrawIter | src/lib.rs:276-285 | behaves as the selected composite's draw_iter |
| Facade.Rotate.FillContiguous | src/lib.rs:287-292 | behaves as the selected composite's fill_contiguous |
| Facade.Rotate.FillSolid | src/lib.rs:294-296 | behaves as the selected composite's fill_solid |
| Facade.Rotate.Clear | src/lib.rs:298-300 | behaves as the selected composite's clear |
| Scenarios.TestReportedBoxes | src/tests.rs:14-23 | Rotate0 and FlipY over the 64x64 display report (0,0) 64x64 |
| Scenarios.VerticesSpanExtent | src/tests.rs:4-8 | the test triangle's vertices span (0,0) 21x11 |
| Scenarios.TestAffectedAreas | src/tests.rs:71-80 | a pixel stream spanning (0,0) 21x11 reaches the display with the affected area (0,0) 21x11 under Rotate0, (0,53) 21x11 under FlipY, (53,0) 11x21 under Rotate90 and (0,43) 11x21 under Rotate270 |
| Scenarios.TestVertexImages | src/tests.rs:200-209 | where the three vertices land under Rotate90 and Rotate270 |
| Scenarios.FillScenario | src/lib.rs:448-457 | as written, fill_solid of (1,1) 5x10 reaches the display as FlipX (57,1), FlipY (1,52), Rotate90 (52,1) 10x5, Rotate180 (57,52), Rotate270 (1,57) 10x5 |
| Scenarios.FlipXFillMissesEdge | src/lib.rs:448-457 | as written, FlipX fills (-1,0) for its whole box, so (63,0), the image of (0,0), stays unpainted while clear paints it |
| Scenarios.FlipYFillMissesEdge | src/lib.rs:516-525 | as written, FlipY fills (0,-1) for its whole box, so (0,63) stays unpainted while clear paints it |
| Scenarios.MirrorIgnoresTopLeft | src/lib.rs:439-445 | over a display box starting at (1,0), FlipX sends (4,0), a point of its reported box, to (-1,0), outside the display's box |
| Scenarios.IntendedFillOfBoxIsClear | src/lib.rs:19-20 | over a display box anchored at the origin, with the corrected rectangle, filling any stack's whole box paints the display as clear does |
| Scenarios.TransposeFillExact | src/lib.rs:387-390 | through transposes alone, the as-written fill is already the exact image |
| Scenarios.Rotate90PaintsCorners | src/tests.rs:151-166 | drawing the three vertices through Rotate90 succeeds and paints exactly (53,0), (63,0) and (63,20) |
| Scenarios.FaultIsForwarded | src/lib.rs:298-300 | a display error comes back from the facade unchanged, and nothing is painted |
| Scenarios.NestedRotationsCancel | src/lib.rs:13 | Rotate90 wrapped around Rotate270 hands each pixel to the display at its own position |
| Scenarios.FacadeMatchesFixed | src/lib.rs:188-194 | the facade for a rotation and the fixed composite leave identical displays in identical states, with identical results, after the same calls |

## Left out

- `Deref`, `DerefMut`, `AsRef` and `AsMut` (src/lib.rs:79-105, 244-268): these only give access to the display. The model exposes the display as a ghost field instead.
- The macros `xform_type!`, `xform_new!`, `impl_as_ref!` and `rotate_impl!` are not modelled as macros. Their expansion is: a stack of primitives (`Transforms.Chain`), nesting (`Wrappers.Target`) and dispatch by match (`Facade.Rotate`).
- The display `D` and embedded-graphics itself are not part of this model. `Surface.Display` stands in for `D`. Its fills behave as the protocol's default implementations do. Colours are a type parameter.
- The test display's pattern checks and the triangle rasteriser are not modelled. The affected areas are proved for any drawing whose points span the triangle's extent, and for the three vertices.
- Integer width: `size.width as i32` and i32 overflow in `(W-1) - x` are not modelled. Integers are unbounded.
- Iterators are modelled as finite sequences. Laziness and consuming a stream part-way on error are not modelled: a call reaches the display whole.
- Ownership and moves (`new` consuming `D`, `into_inner` consuming the wrapper) are not modelled. Wrapped targets are shared references that only the innermost display's state changes through.
- The facade `Rotate` can itself wrap any `D` in the crate, including another `Rotate`. In the model a `Rotate` facade may wrap a display or a `Wrapped` composite, but not another facade.

## Findings

| source | as written | input that shows it | evidently intended | confidence | as-written member | corrected member |
|---|---|---|---|---|---|---|
| src/lib.rs:448-457 | `MirrorX::fill_solid` forwards x as `(W-1) - x - w` | FlipX over a 64x64 display, `fill_solid` of (0,0) 64x64: forwarded as (-1,0) 64x64, so column 63 (the image of column 0) is never painted | `W - x - w`, the exact mirror image of the area, consistent with `draw_iter` | high (proved; not executed) | Scenarios.FlipXFillMissesEdge | Transforms.ImageAreaExact |
| src/lib.rs:516-525 | `MirrorY::fill_solid` forwards y as `(H-1) - y - h` | FlipY over a 64x64 display, `fill_solid` of (0,0) 64x64: forwarded as (0,-1) 64x64, so row 63 is never painted | `H - y - h`, the exact mirror image of the area | high (proved; not executed) | Scenarios.FlipYFillMissesEdge | Transforms.ChainImageExact |

The wrapper objects keep the arithmetic as written (`Transforms.FillArea`), so that their
contracts describe the crate as it behaves. The corrected rectangle (`Transforms.ImageArea`,
`Transforms.ChainImage`) is the one the affected-area results and
`Scenarios.IntendedFillOfBoxIsClear` use.
