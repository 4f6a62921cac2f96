# text-test glyph mesh builder, in Dafny

This project models the part of text-test that turns font outlines into GPU
meshes, and the transform stack used to draw them.

- **Font.h / Font.cpp: the glyph mesh builder.**
  - A `Font` owns a map from characters to glyphs and three append-only
    build buffers, shared by every glyph of the font:
    - `points`: vec4 vertices;
    - `fan`: 16-bit indices for the triangle-fan interior;
    - `triangles`: 16-bit indices for the curve-correction triangles.
  - `AddContour`, `AddLine` and `AddCurve` append to these buffers, and close
    and store fan ranges.
  - `CreateGlyph` and `FinishGlyph` bracket one glyph's build.
  - `FillBuffers` uploads the buffers once and clears them.
  - `Print` lays out the glyphs of a string along a baseline:
    - first a curve pass, one triangle draw per glyph that has curves;
    - then a fan pass, one fan draw per stored range;
    - both passes work under the renderer's model-matrix stack.
- **TextTest.cpp: the outline callbacks and `Load`.**
  - `moveTo`, `lineTo` and `conicTo` pass the flag `t` to the builder, then
    flip it. `cubicTo` is fatal.
  - `Load` builds each character of a string once, then freezes the font.
  - `tof` converts font units, dividing by 64.
- **Renderer.h: the transform stack.** `Push`, `Pop` and `Multiply` change
  the stack of model matrices. `Model` and `Projection` read the state.

## Files

- `transform.dfy` (module `Transform`):
  - matrices as symbolic terms, where `Mul` builds a product node;
  - the stack operations as functions on sequences;
  - class `Renderer`, whose methods change the stack in place.
- `mesh.dfy` (module `Mesh`):
  - the value types of Font.h: `Vertex`, `DrawParams` with 16-bit fields, and
    `Glyph`;
  - the build state `Atlas`: glyph map, points, fan and triangles;
  - the builder steps as functions: `Create`, `Contour`, `Line`, `Curve`,
    `Finish`;
  - the build invariant `Good`, and lemmas proving that each step keeps it.
  - `Good` says that:
    - every index is below `|points|`;
    - `triangles` is a sequence of whole correction triangles, each being an
      on-curve vertex, a control vertex, then an on-curve vertex;
    - every stored range lies inside its buffer;
    - every stored fan range has more than 2 indices;
    - each glyph's fan ranges are ordered and do not overlap.
- `font.dfy` (module `Fonts`):
  - class `Font`, whose fields are updated in place by the builder methods;
  - each method is proved equal to its `Mesh` function and to keep `Good`;
  - `Print` and the two draw passes, specified by the functions `CurvePass`,
    `FanPass` and `Pen`.
- `text_test.dfy` (module `TextTest`):
  - outline events and `Tof`;
  - the callbacks and the decomposition as pure functions (`Step`,
    `Decompose`), then one glyph (`BuildGlyph`), then the loop of `Load`
    (`LoadAll`);
  - lemmas about these functions;
  - class `DecompositionHelper`, whose methods are the callbacks;
  - the methods `DecomposeOutline`, `LoadGlyph` and `Load`, proved equal to
    the functions.

FreeType is replaced by its result:
- `FT_Load_Char` becomes a map `face` from characters to a `FaceGlyph`, which
  holds the advance and the outline events. A character missing from the map
  is a load failure.
- `FT_Outline_Decompose` becomes `DecomposeOutline`, which feeds the events
  to the helper in order.

The fatal `exit(-1)` paths are modelled as error results:
- `Fatal(LoadCharFailed(c))` when the face has no glyph for `c`;
- `Fatal(CubicUnsupported(c))` when the outline of `c` has a cubic event.

The model is proved to stop at the first such error, as `exit` does.

**Which contours are dropped:** a contour's closed fan range is stored only
when it holds more than 2 fan indices (Font.cpp:92, 130). A contour's indices
are the pivot, the first vertex and one index per segment. So a contour of a
`MoveTo` and a single `LineTo` has 3 indices and is kept; only a bare `MoveTo`
is dropped. The model states this rule as follows:
- `TextTest.SingleContourGlyph` proves this rule for a contour with k
  segments;
- `Mesh.KeepWithin` states it for any range.

## Model

| member | source | states |
|---|---|---|
| Transform.Pushed | Renderer.h:48-51 | push adds one entry; all old entries are kept below it; the new top equals the old top |
| Transform.Popped | Renderer.h:53-56 | pop removes one entry; the entry below the old top becomes the top; lower entries are unchanged |
| Transform.Multiplied | Renderer.h:43-46 | only the top changes, to `top * m`; depth and the other entries are unchanged |
| Transform.PushThenPop | Renderer.h:48-56 | a push followed by a pop gives back the original stack |
| Transform.ScopedMultiply | Renderer.h:43-56 | push, multiply, pop gives back the original stack, so a translation scoped this way leaves no trace |
| Transform.Renderer.constructor | Renderer.cpp:58-66 | the stack starts as exactly one identity entry; the projection is the identity; width and height are 0 |
| Transform.Renderer.Projection | Renderer.h:33-36 | returns the stored projection matrix; it reads the state and changes nothing |
| Transform.Renderer.Model | Renderer.h:38-41 | the current model matrix is the top of the stack; it reads the state and changes nothing |
| Transform.Renderer.Multiply | Renderer.h:43-46 | the stack becomes `Multiplied(old stack, m)`; projection and size are unchanged |
| Transform.Renderer.Push | Renderer.h:48-51 | the stack becomes `Pushed(old stack)`; projection and size are unchanged |
| Transform.Renderer.Pop | Renderer.h:53-56 | with at least two entries, the stack becomes `Popped(old stack)`; projection and size are unchanged |
| Transform.Renderer.BeginFrame | Renderer.cpp:99-128 | on a change to a non-zero size, it stores the size and sets the projection to the centred orthographic projection of that size; otherwise nothing changes |
| Mesh.Closed | Font.cpp:89-91 | the closed range starts at `params.start` and ends at the current fan size |
| Mesh.Create | Font.cpp:136-147 | glyph c is added with its advance, no fans and an empty triangle range at the end of `triangles`; the cursor is `(|fan|, 0)`; other glyphs and all buffers are unchanged |
| Mesh.Keep | Font.cpp:91-93 | the fan list grows by one entry exactly when the closed range holds more than 2 indices; the old ranges stay first and the new one is that range |
| Mesh.ContourAppends | Font.cpp:86-101 | points gain the pivot (0,0,0,0) at n = old size and the vertex (x,y,t,0) at n + 1; fan gains n and n + 1; triangles are unchanged; glyph c's fans become `Keep(fans, closed range)` and no other glyph changes; the new cursor starts at the old fan size |
| Mesh.LineAppends | Font.cpp:103-110 | points gain (x,y,t,0) at n = old size; fan gains n; triangles, glyphs and cursor are unchanged |
| Mesh.CurveAppends | Font.cpp:112-124 | points gain the control (px,py,0,1) at n and the end (x,y,t,0) at n + 1; fan gains n + 1; triangles gain n - 1, n, n + 1; glyphs and cursor are unchanged |
| Mesh.FinishCloses | Font.cpp:126-134 | the buffers are unchanged; glyph c's fans become `Keep(fans, closed range)`; its triangle range keeps its start and ends at the triangle buffer's size; no other glyph changes |
| Mesh.KeepWithin | Font.cpp:91-93 | a closed range is stored iff it has more than 2 indices; when it is stored after ranges that end before it, the list stays in bounds and ordered |
| Mesh.CreateKeepsGood | Font.cpp:136-147 | CreateGlyph keeps the build invariant and opens glyph c with an empty triangle range |
| Mesh.ContourKeepsGood | Font.cpp:86-101 | AddContour keeps the invariant: indices stay below `|points|`; the closed range is stored after the glyph's other ranges; the new contour opens at the old fan end |
| Mesh.LineKeepsGood | Font.cpp:103-110 | AddLine keeps the invariant and keeps glyph c open |
| Mesh.CurveKeepsGood | Font.cpp:112-124 | AddCurve keeps the invariant: the new triangle is a whole correction triangle whose indices are below `|points|` |
| Mesh.FinishKeepsGood | Font.cpp:126-134 | FinishGlyph keeps the invariant: the last range is stored by the same rule, and the triangle range covers whole triangles inside the buffer |
| Mesh.CurveCorner | Font.cpp:112-124 | AddCurve appends the triangle (n-1, n, n+1): the previously appended on-curve vertex, the control vertex (px,py,0,1), then the end vertex (x,y,t,0) |
| Fonts.FanDraws | Font.cpp:226-227 | one fan draw per stored range, in order, each covering exactly that range |
| Fonts.PenStays | Font.cpp:191-204 | a string none of whose characters has a glyph leaves the pen at its start |
| Fonts.CurvePassShape | Font.cpp:191-204 | the curve pass draws at most once per character, and each draw is a non-empty triangle draw |
| Fonts.FanPassShape | Font.cpp:217-230 | the fan pass issues only fan draws, and none when no glyph of the string has a fan range |
| Fonts.PresentFilters | Font.cpp:191-194 | the characters kept by Print's glyph test are exactly those of the string that have a glyph; there are at most as many as in the string; all are kept when all have glyphs |
| Fonts.PresentAppend | Font.cpp:191-194 | the test keeps the string's order: filtering a concatenation concatenates the filtered parts |
| Fonts.SkipsAbsent | Font.cpp:191-230 | a character without a glyph adds no draw and does not move the pen; both passes and the pen equal those of the string without such characters |
| Fonts.PassesWithin | Font.cpp:191-230 | every curve draw is a non-empty triangle draw inside the triangle buffer, and every fan draw is a non-empty fan draw inside the fan buffer |
| Fonts.Font.constructor | Font.cpp:69-80 | a new font has no glyphs, empty buffers, and is in the build phase |
| Fonts.Font.HasGlyph | Font.cpp:149-152 | true iff c is a key of the glyph map; no state changes |
| Fonts.Font.CreateGlyph | Font.cpp:136-147 | the new state and cursor are `Create(old state, c, advance)`; the invariant holds; glyph c is open |
| Fonts.Font.AddContour | Font.cpp:86-101 | the new state and cursor are `Contour(old state, c, x, y, t)`; the invariant holds; glyph c stays open |
| Fonts.Font.AddLine | Font.cpp:103-110 | the new state is `Line(old state, x, y, t)`; the glyphs are unchanged; the invariant holds |
| Fonts.Font.AddCurve | Font.cpp:112-124 | the new state is `Curve(old state, px, py, x, y, t)`; the invariant holds |
| Fonts.Font.FinishGlyph | Font.cpp:126-134 | the new state is `Finish(old state, c)`; the invariant holds |
| Fonts.Font.FillBuffers | Font.cpp:154-168 | the uploaded copies are the old buffers; the CPU buffers are empty; the glyph map is unchanged; the font is frozen |
| Fonts.Font.Print | Font.cpp:170-234 | the draws are the curve pass then the fan pass, both from the model top times `translate(x, y, 0)`; the model stack, projection, width and height all end as they started; when frozen, every draw lies inside the uploaded buffers |
| Fonts.Font.DrawCurves | Font.cpp:191-204 | the draws are `CurvePass(str)`; the stack top ends at `Pen(str)`; lower entries, projection, width and height are unchanged |
| Fonts.Font.DrawFans | Font.cpp:217-230 | the draws are `FanPass(str)`; the stack top ends at `Pen(str)`; lower entries, projection, width and height are unchanged |
| TextTest.Tof | TextTest.cpp:30-33 | the result times 64 is the input, in font units |
| TextTest.Step | TextTest.cpp:43-73 | move, line and conic events succeed and cubic fails; on success t flips; points grow by 2, 1 or 2; triangles grow by 3 only for a conic; only glyph c's fan list may change |
| TextTest.Decompose | TextTest.cpp:153-166 | after a successful decomposition, points grow by the outline's cost, triangles by 3 per conic event, and only glyph c's fan list changed |
| TextTest.DecomposeAlternates | TextTest.cpp:43-65 | after n events t is its start value when n is even and flipped when n is odd, across contour boundaries |
| TextTest.DecomposeFails | TextTest.cpp:67-73 | decomposition fails iff the outline contains a cubic event |
| TextTest.DecomposeKeepsGood | TextTest.cpp:43-65 | the callbacks keep the build invariant and keep the glyph open |
| TextTest.OneContour | Font.cpp:86-110 | a MoveTo and k segments leave the stored fans unchanged and an open range of k + 2 indices starting at the old fan end |
| TextTest.BuildGlyph | TextTest.cpp:149-168 | a built glyph has the face's advance; its triangle range covers 3 indices per conic event; other glyphs are untouched; a failure is `CubicUnsupported(c)` |
| TextTest.LoadAll | TextTest.cpp:136-169 | on success the glyph keys are exactly the old keys plus the characters of the string, and the points and triangles grow by exactly the needs of the characters built: each new, distinct character counted once |
| TextTest.LoadNext | TextTest.cpp:136-166 | one turn of the loop: a character already in the font is skipped, one the face lacks is fatal, otherwise it is built, and its outline then fits the 16-bit index space |
| TextTest.LoadKeepsExisting | TextTest.cpp:136-139 | glyphs the font had before Load are unchanged |
| TextTest.LoadOnce | TextTest.cpp:136-139 | a repeated character changes nothing: it is built exactly once |
| TextTest.LoadedGlyphs | TextTest.cpp:149-168 | each new character gets the face's advance converted by `Tof`, and a triangle range of 3 times its conic count |
| TextTest.LoadFailure | TextTest.cpp:141-166 | Load fails only on a new character missing from the face, or on one whose outline holds a cubic event |
| TextTest.LoadSuccess | TextTest.cpp:136-166 | Load succeeds iff every character of the string that the font lacks is in the face and its outline has no cubic event |
| TextTest.LoadFailureFinal | TextTest.cpp:141-166 | once Load fails, the rest of the string does not change the outcome |
| TextTest.SingleContourGlyph | TextTest.cpp:149-168 | a one-contour glyph with k segments has one fan range of k + 2 indices at the old fan end when k >= 1, no range when k = 0, and 3 triangle indices per conic |
| TextTest.Square | TextTest.cpp:149-168 | the square outline in an empty font gives the fan range (0, 5), the triangle range (0, 0) and the face's advance |
| TextTest.DecompositionHelper.constructor | TextTest.cpp:149-163 | the helper holds the font, the glyph and the cursor from CreateGlyph, with t = 0 |
| TextTest.DecompositionHelper.MoveTo | TextTest.cpp:43-49 | the helper's new state is `Step(old state, MoveTo(to))` |
| TextTest.DecompositionHelper.LineTo | TextTest.cpp:51-57 | the helper's new state is `Step(old state, LineTo(to))` |
| TextTest.DecompositionHelper.ConicTo | TextTest.cpp:59-65 | the helper's new state is `Step(old state, ConicTo(control, to))` |
| TextTest.Dispatch | TextTest.cpp:153-158 | each event goes to its callback; a cubic event reports failure and changes nothing |
| TextTest.DecomposeOutline | TextTest.cpp:165-166 | succeeds iff `Decompose` does, and then leaves the helper in the state `Decompose` computes |
| TextTest.LoadGlyph | TextTest.cpp:149-168 | CreateGlyph, the outline, then FinishGlyph; the result matches `BuildGlyph` |
| TextTest.Load | TextTest.cpp:122-175 | on success: status Loaded, font frozen, the uploaded atlas equals `LoadAll`'s result, CPU buffers empty; otherwise `Fatal` with `LoadAll`'s error; Loaded iff every character the font lacks is in the face and has no cubic event |

## Left out

- OpenGL is not modelled: buffer uploads, uniforms, shaders and draws. `FillBuffers` records the uploaded buffers in ghost fields. `Print` returns its draw calls as values.
- Instancing is not modelled: Print's `colors`, `samples` and `count` parameters are dropped.
- The GLSL shaders, the jitter and colour tables, and the resolve pass are floating-point GPU code and are not modelled.
- FreeType is not modelled: it becomes a map from characters to advances and outline events. The "not an outline font" message prints and changes nothing, so it is not modelled.
- GLFW, `main`'s frame loop, `showFPS` and the input callbacks are not modelled.
- glm arithmetic and floats are not modelled:
  - matrices are symbolic product terms;
  - coordinates are reals, and `Tof` is exact division by 64, with no float rounding.
- Fonts.Font.CreateGlyph: requires that `|fan|` and `|triangles|` are below 65536, so that the `GLushort` casts are exact. The source truncates silently.
- Fonts.Font.AddContour: requires room for two more vertices below 65536; the source would wrap the indices.
- Fonts.Font.AddLine: requires room for one more vertex below 65536; the source would wrap the index.
- Fonts.Font.AddCurve: requires room for two more vertices below 65536, and at least one vertex already present. The second always holds after a `MoveTo`.
- Fonts.Font.FinishGlyph: requires `|fan|` and `|triangles|` below 65536. It does not model the write of the last range's length back into the caller's `params`, which no caller reads afterwards.
- Fonts.Font.FillBuffers: requires that the font is not yet frozen. A second call would upload from empty vectors.
- Fonts.Font.Print: the bounds guarantee is stated only for a frozen font. Before freezing, the draws read the buffers of the last upload.
- TextTest.Load: requires that the glyphs it builds fit in 16-bit indices (`Loadable`). Only characters the font lacks are counted, each distinct character once. It also requires that each outline starts with a `MoveTo`, as FreeType emits them.
- TextTest.Load: on a fatal error the model returns with the failing glyph half built: its map entry and buffer growth stay in the font. The source calls `exit(-1)` at that point, so no later code sees that state.
- Fonts.Font.CreateGlyph, Fonts.Font.AddContour, Fonts.Font.AddLine, Fonts.Font.AddCurve, Fonts.Font.FinishGlyph and TextTest.Load require a font that is not frozen. The source accepts these calls after `FillBuffers` too, and would fill CPU buffers that are never uploaded again. No call site does this.
- Character types: Dafny `char` stands for C++ `char`, so characters outside 8 bits are not excluded. Strings are sequences, so the `strlen` cut at an embedded NUL is not modelled.
- Resources: the FreeType library and face handles, and their release, are not modelled.
