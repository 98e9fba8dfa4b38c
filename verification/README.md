# GraphicLabs rasterizer and scene model in Dafny

This project models two parts of the GraphicLabs repository.

The first is the character-grid rasterizer `StreamHandler`. It keeps a
`height` by `width` grid of characters and has two constructors, `clear`,
`at` and `put`. It draws lines with a floating-point error accumulator that
swaps axes for steep lines. Triangles are three lines. Circles use a
midpoint walk over one octant, mirrored eight ways. `flush` and
`flush_ansi` write the grid out row by row.

The second is the scene logic of the OpenGL program:

- the triangle-fan builders for rectangles, polygons and ellipses;
- the drawing context's coordinate transforms, including the `min` macro
  that binds the scale factor to one branch only;
- the phase updates of the two animations;
- the stage's removal of objects whose update failed;
- the concatenation of every object's vertices into one list, and the
  per-object draw calls over that list.

Modules:

- `Grid` (grid.dfy) holds the grid state, the constructors, `clear`, `at`
  and `put`. `PutAll` folds `put` over a sequence of integer points, and
  every draw operation is proved equal to `PutAll` over a reference
  sequence of points.
- `Flush` (flush.dfy) builds the text `flush` and `flush_ansi` write.
- `Line` (line.dfy) models `draw_line` as methods that follow the
  source's loops. They use an exact real-valued error and are proved equal
  to the integer reference `LineCells`.
- `LineProps` (line_props.dfy) proves what `LineCells` puts: the closed
  form, the error bounds, the endpoints, the special cases and endpoint
  symmetry.
- `Shapes` (shapes.dfy) models `draw_triangle` and `draw_circle`, with
  symmetry and distance bounds for the circle.
- `Fan` (fan.dfy) models `draw_filled_rect`, `draw_filled_poly` and
  `draw_filled_ellipse`.
- `Scene` (scene.dfy) models `DrawingContext`, the two animations'
  `update`, `Stage::update`, `Stage::draw` and the draw-call loop of
  `draw()`.

## Model

| member | source | states |
|---|---|---|
| Grid.Round | lab0/stream_utils.hpp:67-68 | The result is the nearest integer, and halves round away from zero. |
| Grid.Clamp | lab0/stream_utils.hpp:67-68 | The result lies in `[lo, hi]`; it is the input when already inside, and the nearer bound otherwise. |
| Grid.NewBuffer | lab0/stream_utils.hpp:19-21 | Construction succeeds exactly when both dimensions are non-negative, and a negative size is a length error. On success the grid is `height` rows of `width` blanks with ratio 1. |
| Grid.NewBufferWithRatio | lab0/stream_utils.hpp:23-31 | The width is `height / koef` rounded. Construction succeeds exactly when height and width are non-negative. On success the grid is all blanks and keeps `koef`. |
| Grid.Clear | lab0/stream_utils.hpp:38-44 | Every cell becomes the fill character, and the dimensions and ratio are unchanged. |
| Grid.Target | lab0/stream_utils.hpp:66-68 | The written cell is always inside the grid. Each axis is clamped on its own: a rounded coordinate below 0 becomes 0, one past the last column or row becomes the last, and one inside is kept. |
| Grid.Put | lab0/stream_utils.hpp:66-70 | Exactly one cell, the target, takes the colour. Every other cell and the dimensions stay as they were. |
| Grid.PutAllCells | lab0/stream_utils.hpp:66-70 | After a series of puts, a cell holds the colour exactly when some put's target lands on it; otherwise it keeps its old value. |
| Grid.FootprintMembers | lab0/stream_utils.hpp:66-70 | Every put's target is in the set of written cells, and every written cell is some put's target. |
| Grid.ClearDiscardsPuts | lab0/stream_utils.hpp:38-44 | Clearing after any puts gives the same grid as clearing before them. |
| Grid.PutAllByFootprint | lab0/stream_utils.hpp:66-70 | Two series of puts that reach the same cells give the same grid, whatever their order or repetition. |
| Flush.Render | lab0/stream_utils.hpp:46-50 | The text has `height * (width + 1)` characters. Splitting it into line-break-terminated lines of `width` characters gives back exactly the grid's rows. |
| Flush.LinesRoundTrip | lab0/stream_utils.hpp:46-50 | Reading back rows written one per line recovers the rows: encode and decode round trip. |
| Flush.RenderCell | lab0/stream_utils.hpp:46-50 | Character `y * (width + 1) + x` of the text is cell `(x, y)`, and each row ends in a line break. |
| Flush.RenderAnsi | lab0/stream_utils.hpp:51-56 | The text is the three characters ESC, `[`, `3` followed by exactly the text of `flush`. |
| Line.Span | lab0/stream_utils.hpp:103-116 | A `v != to + dir` loop visits the inclusive run from `from` to `to`, stepping by the sign of the difference. It visits nothing when the two ends are equal. |
| Line.Settled | lab0/stream_utils.hpp:141-144 | The inner carry loop leaves a scaled error of at most `run`, and the error stays positive if it was positive. |
| Line.Normalized | lab0/stream_utils.hpp:73-85 | Unless `flipped`, each coordinate is clamped into the grid; when `flipped`, the raw coordinates are kept. The two endpoints are then swapped exactly when the first x exceeds the second, so `x0 <= x1`. |
| Line.SlopeMagnitude | lab0/stream_utils.hpp:118-127 | `de` is `abs(dy / dx)` exactly, and it exceeds 1 exactly when the short axis spans more than the long one. |
| Line.ScaledError | lab0/stream_utils.hpp:140-143 | For the real error and its integer scaled form, the tests `error > 1`, `error > 0` and `error >= 0` agree. |
| Line.PutColumn | lab0/stream_utils.hpp:103-109 | The vertical-case loop puts the cells of the inclusive run of rows, in loop order. |
| Line.PutRow | lab0/stream_utils.hpp:110-116 | The horizontal-case loop puts the cells of the inclusive run of columns, in loop order. |
| Line.SettleError | lab0/stream_utils.hpp:141-144 | The real-valued carry loop lands on the same short coordinate and scaled error as the integer reference `Settled`. |
| Line.PassStep | lab0/stream_utils.hpp:137-146 | One iteration of the general pass puts the next cell of the reference pass and keeps the scaled-error correspondence. |
| Line.GeneralPass | lab0/stream_utils.hpp:134-146 | The float-accumulator pass puts exactly the cells of the integer reference `Pass`, in order. |
| Line.DrawLine | lab0/stream_utils.hpp:72-147 | `draw_line` puts exactly the cells of `LineCells`, in order. This covers clamping, ordering, both special cases and the steep recursion. |
| Line.DrawSegment | lab0/stream_utils.hpp:87-146 | The part after normalisation puts exactly the cells of `SegmentCells`. |
| LineProps.ErrorBounds | lab0/stream_utils.hpp:137-146 | After each step the accumulated error lies in `[0, 1]`, and it is positive once a step has been taken. |
| LineProps.SettledClosed | lab0/stream_utils.hpp:141-144 | From a positive error the carry loop runs `(e - 1) / run` times, in closed form. |
| LineProps.PassShape | lab0/stream_utils.hpp:134-146 | The general pass puts one cell per long-axis coordinate from `x0` to `x1`. Step `k` is `Carries(k)` short-axis steps from `y0`. |
| LineProps.ShortAxisStep | lab0/stream_utils.hpp:137-146 | With slope at most 1, the short axis moves by 0 or 1 between consecutive cells. |
| LineProps.PassEnds | lab0/stream_utils.hpp:137-146 | In exact arithmetic the pass starts at `(x0, y0)` and ends at `(x1, y1 - sign)`, so it never puts the far endpoint `(x1, y1)`. |
| LineProps.SpanMembers | lab0/stream_utils.hpp:105 | A non-empty run contains exactly the integers between its ends. |
| LineProps.ZeroLengthLine | lab0/stream_utils.hpp:94-109 | A line from a point to itself puts no cell. |
| LineProps.VerticalLine | lab0/stream_utils.hpp:103-109 | An in-grid vertical line puts exactly the rows between its ends, both included, walked from the first to the second. |
| LineProps.HorizontalLine | lab0/stream_utils.hpp:110-116 | An in-grid horizontal line puts exactly the columns between its ends, both included, left to right. |
| LineProps.SteepLine | lab0/stream_utils.hpp:127-131 | A steep slanted line recurses once on swapped axes. There its slope is below 1, so the general pass runs and nothing recurses further. |
| LineProps.GentleLine | lab0/stream_utils.hpp:134-146 | A slanted line of slope at most 1 is the general pass on its clamped, ordered endpoints. |
| LineProps.LineSymmetric | lab0/stream_utils.hpp:72-147 | Drawing A to B and drawing B to A leave the same grid. |
| LineProps.DiagonalMissesCorner | lab0/stream_utils.hpp:137-146 | On a 10 by 10 grid, the diagonal from (0, 0) to (9, 9) puts ten cells. The second is (1, 0), the last is (9, 8), and (9, 9) is never put. |
| Shapes.DrawTriangle | lab0/stream_utils.hpp:150-159 | `draw_triangle` puts the cells of its three edges, in drawing order. |
| Shapes.TriangleIsUnionOfEdges | lab0/stream_utils.hpp:150-159 | A cell ends as the colour exactly when one of the three edges reaches it. |
| Shapes.CircleNext | lab0/stream_utils.hpp:184-199 | Each iteration raises `x` by at most one and lowers `y` by at most one, and does at least one of the two. |
| Shapes.PutEightWay | lab0/stream_utils.hpp:175-182 | One iteration puts the eight reflections of the octant point, in source order. |
| Shapes.CircleStep | lab0/stream_utils.hpp:184-199 | The branch-and-continue update computes the reference octant step. |
| Shapes.DrawCircle | lab0/stream_utils.hpp:161-202 | `draw_circle` puts exactly the cells of the reference `CircleCells`, in order. |
| Shapes.CircleFromBounds | lab0/stream_utils.hpp:174-199 | Every point put lies within `R` of the centre on both axes. |
| Shapes.CircleSymmetric | lab0/stream_utils.hpp:175-182 | For a circle inside the grid, the written cells are closed under the mirrorings about both axes and the diagonal. |
| Shapes.CircleInvariantStep | lab0/stream_utils.hpp:184-199 | The walk keeps `delta == (x+1)^2 + y^2 - R^2 - 2R`. While it runs, it also keeps `delta - 2x` in `[2 - 4R, 1]`. |
| Shapes.EightWayDist | lab0/stream_utils.hpp:175-182 | All eight reflections lie at squared distance `x^2 + y^2` from the centre. |
| Shapes.CircleNearRadius | lab0/stream_utils.hpp:161-202 | For `R >= 1`, every cell put is at squared distance at least `(R-1)^2` and below `(R+1)^2` from the centre. |
| Shapes.ZeroRadius | lab0/stream_utils.hpp:168-182 | With radius 0, the circle is the single centre cell. |
| Shapes.NegativeRadius | lab0/stream_utils.hpp:174 | With a negative radius, nothing is put. |
| Fan.FilledRect | lab2/main2.cpp:109-130 | The fan is six vertices in one colour: the centre, the four corners anticlockwise from `point`, and `point` again. The centre is the midpoint of opposite corners. |
| Fan.FilledPoly | lab2/main2.cpp:134-161 | Fewer than three points give an empty fan. Otherwise the fan is the centroid, the points in order, then the first point again, all in one colour. |
| Fan.SumTranslate | lab2/main2.cpp:140-144 | Translating every point by `d` adds `n * d` to the coordinate sum. |
| Fan.CentroidTranslate | lab2/main2.cpp:140-146 | Translating the polygon translates its fan centre by the same vector. |
| Fan.FilledEllipse | lab2/main2.cpp:85-105 | The fan is the centre followed by rim points 0 to `shapeness` inclusive, in one colour. A negative `shapeness` gives the centre alone. |
| Fan.FullTurn | lab2/main2.cpp:88-96 | The first rim angle is 0 and the last is exactly 2pi. |
| Fan.EllipseRimCloses | lab2/main2.cpp:95-100 | When `cos` and `sin` agree at 0 and 2pi, the last rim point equals the first, so the fan closes. |
| Scene.TransformIsShiftedScale | lab2/main2.cpp:175-192 | `transform` is `scale` shifted by `lefttop`, and `scale` is `transform_x` and `transform_y` side by side. The unit square maps onto the window. |
| Scene.TransformTranslates | lab2/main2.cpp:175-181 | Moving a point by `d` moves its transform by `scale(d)`. |
| Scene.TransformLength | lab2/main2.cpp:169-185 | As written, the result is the window height when the window is wider than tall, and `size.x * k` otherwise. |
| Scene.TransformLengthIntended | lab2/main2.cpp:169-185 | The intended result is the smaller side's `transform_x` or `transform_y` of `k`. |
| Scene.IntendedIsLinear | lab2/main2.cpp:183-185 | The intended length is additive and homogeneous in `k`. |
| Scene.MacroAgreement | lab2/main2.cpp:169-185 | The macro result equals the intended one exactly when the window is not wider than tall or `size.y * k == size.y`. |
| Scene.MacroCounterexample | lab2/main2.cpp:169-185 | On a 1200 by 700 window with `k = 0.1`, the code gives 700 where 70 is intended. |
| Scene.ColorUpdate | lab2/main2.cpp:405-416 | After the update the phase lies in `[0, 1]`. A move strictly inside `(0, 1)` is taken unchanged. A move reaching 1 or beyond stops at 1 and turns the direction to -1; a move reaching 0 or below stops at 0 and turns it to +1. The direction stays a unit step, and the object is always kept. |
| Scene.ColorRunInRange | lab2/main2.cpp:405-416 | Over any run of frames the phase stays in `[0, 1]` and the direction stays +1 or -1. |
| Scene.RotateUpdate | lab2/main2.cpp:371-375 | The angle ends at most 2pi and differs from `offset + dt * speed` by whole turns. It is unchanged when already at most 2pi, and positive when it had to wrap. The object is always kept. |
| Scene.Failed | lab2/main2.cpp:222-227 | The objects collected for removal are drawn from the list: as a multiset they fit inside it. |
| Scene.FirstIndex | lab2/main2.cpp:230-232 | The position `find_if` finds holds the object, and no earlier position does. |
| Scene.RemoveFirst | lab2/main2.cpp:228-235 | When the object is present, its first occurrence is removed and the elements before and after it keep their order; as a multiset, exactly one copy goes. When it is absent, the list is unchanged. |
| Scene.CollectFailed | lab2/main2.cpp:222-227 | The first loop collects, in list order, the objects whose update returned false. |
| Scene.EraseEach | lab2/main2.cpp:228-235 | The erase loop removes exactly one occurrence per collected object. |
| Scene.StageUpdate | lab2/main2.cpp:221-238 | The remaining objects are the list minus the failed ones, as a multiset. When no object is listed twice, they are exactly the successful ones in their original order. The stage reports true. |
| Scene.EraseAllDistinct | lab2/main2.cpp:228-235 | In a list without repeats, erasing the collected objects removes exactly them and keeps the order of the rest. |
| Scene.FailedWithoutSurvivors | lab2/main2.cpp:221-238 | Removing the failed objects from a list without repeats leaves exactly the successful ones. |
| Scene.StageDraw | lab2/main2.cpp:240-264 | The result is every object's vertices and colours concatenated in list order. Each vertex count is appended to the global list. One colour per vertex in every object gives one colour per vertex in the result. |
| Scene.DrawCalls | lab2/main2.cpp:588-614 | Nothing is drawn when either list is empty. Otherwise call `i` starts at the sum of the earlier counts and draws `count[i]` vertices. |
| Scene.DrawRangesPartition | lab2/main2.cpp:240-264 | The draw ranges partition the concatenated list. Range `i` covers exactly object `i`'s vertices, and its colours too when colours are paired. The ranges start at 0 and end at the list's end. |

## Left out

- Floating point is not modelled. Coordinates and errors are exact reals or integers, and the draw operations take integer endpoints, centres and radii. With integer endpoints the line's slope `de` is exact in the model. In IEEE `float` it may be rounded, and then even short lines can differ at the last cell. For (0,0) to (10,1), ten additions of `0.1f` give 1.0000001, which triggers a carry, so the code puts the far endpoint (10,1) where the model puts (10,0). A slope that is exact in `float`, such as 1 or 1/2, behaves as in the model.
- Grid.Put: requires a grid with at least one row and one column. On an empty grid `std::clamp(v, 0, -1)` is undefined, and the write would be out of range.
- Grid.NewBufferWithRatio: requires `koef != 0`. A zero ratio makes `height / koef` infinite or NaN, and converting that to `int` is undefined.
- Integer width limits are not modelled: `int` overflow in the line loops, `size_t` and `GLsizei` in the draw calls, and the `float` range of coordinates.
- The output stream is not modelled. `flush` and `flush_ansi` are modelled as the text they write; stream failure states and `std::flush` buffering are left out.
- `koef()` and the destructor carry no logic and are not modelled.
- Fan.FilledEllipse: requires `shapeness != 0`. At 0 the source divides by zero and pushes one NaN rim point; NaN has no real-number counterpart.
- `cos` and `sin` are parameters of the ellipse builder. No property of them is assumed beyond the one `EllipseRimCloses` states.
- Each object's own `update` and `draw` are inputs to `StageUpdate` and `StageDraw`: a sequence of results and a sequence of returned fans. The virtual dispatch and `shared_ptr` identity become a list of values compared with `==`.
- Several `draw` overrides are not modelled: `Polygon::draw`, `Rectangle::draw`, `Circle::draw`, `Meteor`, `RotatingAnimation::draw`, and the colour blending in `ColorChangingAnimation::draw`. They only compose the modelled transforms and fan builders.
- The OpenGL and GLUT calls in `draw()` are not modelled: buffer upload, client state, swapping and redisplay. Only the guard and the offset and count of each `glDrawArrays` call are.
- The animation timing loop, the scene setup in `main` and the window-size bookkeeping are not modelled.

Behaviours of the code the model keeps as written:

- In exact arithmetic the general pass never puts its far endpoint. It
  stops one short on the short axis (`PassEnds`, `DiagonalMissesCorner`).
  The `float` rounding described above can add the final carry.
- A zero-length line puts no cell (`ZeroLengthLine`).
- `flush_ansi` writes the three characters ESC `[` `3` verbatim before
  the grid (`RenderAnsi`).
- Zero dimensions are accepted, and `NewBuffer` builds an empty grid.

## Findings

| source | as written | input that shows it | evidently intended | confidence | as-written member | corrected member |
|---|---|---|---|---|---|---|
| lab2/main2.cpp:169-185 | The `min(a, b)` macro has no outer parentheses, so `min(size.x, size.y)*k` parses as `size.x > size.y ? size.y : size.x*k`. When the window is wider than tall, the factor is dropped. | `size = (1200, 700)`, `k = 0.1`: 700 instead of 70 (`Scene.MacroCounterexample`) | Going by the macro's name and the other lengths, `min(size.x, size.y) * k`, linear in `k`. The only caller, the sun and moon orbit at lines 383 and 493-507, is tuned to the as-written value: at 70 px the orbit would stay under the ground disk drawn over it (lines 516-527), and at 700 px it arcs across the sky. A correction would need the orbit radius retuned. | parse: high; intent: low; not executed | Scene.TransformLength | Scene.TransformLengthIntended |
