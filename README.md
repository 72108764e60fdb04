# ShapeDrawingApp drawing model, in Dafny

This project models the drawing model of the `ShapeDrawingApp` component
(`src/Components/Canva.js`) of a small React vector-drawing app. The user picks
a tool (select, rect, circle, line, pencil, eraser). Then they press, drag and
release the pointer on a canvas to create, stretch, move or erase shapes, and
they restyle the selected shape.

The model has five modules:

- `Shapes` (`shapes.dfy`): the data model. `Shape` is a datatype with the
  variants `Rect`, `Circle`, `Line` and `Pencil`, each carrying an id and a
  `Style` (stroke, fill, stroke width, dash). The module also holds the tools,
  the gesture `Mode`, and `NewShape`, the object literal a press builds.
- `HitTest` (`hit_test.dfy`): the callback given to `shapes.find` as a
  predicate (`Contains`) and as methods (`ShapeHit`, and `StrokeHit`, the
  pencil's index loop), plus the first-match search (`FindIndex`, `Find`,
  `FindHit`).
- `Gestures` (`gestures.dfy`): what the handlers do to the shape list.
  `Drawn` stretches the shape being drawn. `Moved` and `GrabOffset` handle a
  select-tool move. `Dragged` and `DragOffset` give handleMouseMove's map and its
  mid-map `setOffset`. `Without` is the eraser's filter, and `Restyle` is
  updateStyle's map. The module also has the lemmas about these functions.
- `Canvas` (`canvas.dfy`): the class `ShapeDrawingApp`, with the component's
  state as fields and the handlers as methods. A handler reads the state as it
  was when the event arrived and assigns the new state at its end. This
  mirrors React, which applies queued `set...` calls after the handler
  returns. The class invariant `Valid()` says that ids are unique, radii are
  non-negative and pencil strokes have even length of at least 2. Every
  handler preserves it.
- `Scenarios` (`scenarios.dfy`): client methods that step through worked gestures
  (draw a rectangle, draw a 3-4-5 circle, grab and move, miss, erase,
  restyle) through the handlers' contracts.

Modelling choices:

- Coordinates are `real`. JavaScript's `NaN` and `Infinity` are not modelled.
- `distanceFromLineSegment` comes from `./helper`, which is not part of this
  model. It is a parameter of type `SegmentDistance`: a function of three
  points whose only known property is that it is non-negative. The class keeps
  it as the constant field `dist`.
- The circle hit test `Math.sqrt(dx*dx + dy*dy) <= radius` is stated as
  `radius >= 0 && dx*dx + dy*dy <= radius*radius`. Over the reals this is
  exactly the same condition.
- The drawn radius `Math.sqrt(dx*dx + dy*dy)` is the parameter `r` of
  `HandleMouseMove`. The method requires `r >= 0`, and `r*r == dx*dx + dy*dy`
  for the selected circle in draw mode.
- The id `Date.now()` is the parameter `freshId` of `HandleMouseDown`. The
  method requires that no existing shape has that id.
- A line's `points` array always holds two endpoints in the source, so it is
  four fields `x1, y1, x2, y2`.
- Two quirks of the source are kept as written, though a reader might expect
  otherwise:
  - The rectangle test does not normalise a negative width or height, so a
    rectangle dragged left or up is never hit (`DrawnRectHitAtPointer`).
  - `find` returns the first match in storage order, not the top-most painted
    shape (`FirstMatchWins`).
- A press with the select or eraser tool that hits nothing appends no shape.
  It still selects the fresh id and enters draw mode. So the selected id need
  not name an existing shape, and `Valid()` does not claim that it does.
- The pencil loop runs `i` from 0 while `i < pts.length - 2`, stepping by 2. A
  segment whose last coordinate would lie past the end of the list counts as
  not near. That can only happen for an odd-length list, which the class
  invariant rules out.

## Model

| member | source | states |
|---|---|---|
| Shapes.NewShape | src/Components/Canva.js:111-131 | A creation tool yields one shape with the fresh id, the default style (black, transparent, 2, no dash) and zero-sized geometry at the pointer, of the tool's own variant. The select and eraser tools yield no shape. |
| HitTest.Contains | src/Components/Canva.js:66-92 | A hit on a rectangle implies width and height are non-negative, so flipped rectangles are never hit. A hit on a circle implies its radius is non-negative. A pencil stroke of one point is never hit. |
| HitTest.FindIndex | src/Components/Canva.js:65-93 | The result is the first position, in storage order, whose shape contains the point, and no earlier shape contains it. The result is None exactly when no shape contains the point. |
| HitTest.Find | src/Components/Canva.js:65-93 | The found shape is in the drawing, contains the point, and sits at a position before which no shape contains it. None means that no shape contains it. |
| HitTest.FirstMatchWins | src/Components/Canva.js:65 | When two shapes overlap at the point, the search stops at or before the one stored first, not at the one painted on top. |
| HitTest.FindIndexOnlyHits | src/Components/Canva.js:65-93 | The search depends only on which positions contain the point. |
| HitTest.NewShapeHits | src/Components/Canva.js:121-131 | A new rectangle is hit exactly at its anchor. A new circle is hit at its anchor. A new pencil stroke is never hit. |
| HitTest.StrokeHit | src/Components/Canva.js:75-90 | The loop over consecutive point pairs, stepping two coordinates at a time, returns true exactly when some segment is within distance 5 of the pointer. |
| HitTest.ShapeHit | src/Components/Canva.js:66-92 | The find callback returns exactly `Contains` for every variant. |
| HitTest.FindHit | src/Components/Canva.js:65-93 | Scanning the drawing in order returns exactly the first shape that contains the point, or None. |
| Gestures.Drawn | src/Components/Canva.js:144-156 | Id, style and variant are kept. A rectangle keeps its origin and its far corner goes to the pointer. A circle keeps its centre and takes the given radius. A line keeps its first endpoint and its second becomes the pointer. A stroke grows by exactly two coordinates, the pointer, with the old points as prefix. Well-formedness is kept. |
| Gestures.DrawnRectHitAtPointer | src/Components/Canva.js:68 | A stretched rectangle is hit at the pointer exactly when it was dragged right and down. Dragged left or up, it is never hit. |
| Gestures.DrawnCircleThroughPointer | src/Components/Canva.js:147-150 | With the radius equal to the distance to the pointer, the circle contains the pointer. It contains exactly the points no farther from the centre than the pointer. |
| Gestures.Translate | src/Components/Canva.js:175-177 | The coordinate list keeps its length. Every even index moves by dx and every odd index by dy. |
| Gestures.TranslateZero | src/Components/Canva.js:175-177 | Translating by zero is the identity. |
| Gestures.TranslateTwice | src/Components/Canva.js:171-178 | Two translations equal one translation by the summed displacement. |
| Gestures.Translated | src/Components/Canva.js:157-179 | The reference rigid translation keeps id, style, variant and well-formedness. |
| Gestures.TranslatedTwice | src/Components/Canva.js:157-179 | Two rigid translations equal one by the summed displacement. |
| Gestures.Moved | src/Components/Canva.js:157-179 | A moved rectangle or circle is placed at pointer minus offset. A moved line or stroke is shifted by pointer minus offset. In every case the result is a rigid translation (`Translated`) that keeps id, style, variant, size and point count. |
| Gestures.GrabOffset | src/Components/Canva.js:105-109 | The offset a select press records is the pointer for a line or stroke, and the pointer relative to the position for a rectangle or circle. A press followed by a move to the same pointer leaves the shape where it was. |
| Gestures.NextOffset | src/Components/Canva.js:165-174 | The offset after a move step is exactly the offset a fresh press on the moved shape at the same pointer would record. |
| Gestures.GrabThenMove | src/Components/Canva.js:105-109 | Pressing at p and moving to q translates any shape by exactly q - p. The offset recorded for a line or stroke becomes the new grab point. |
| Gestures.MoveTwice | src/Components/Canva.js:157-179 | Two successive move steps give the same shape and offset as one step to the second pointer position. |
| Gestures.Step | src/Components/Canva.js:143-181 | The map callback keeps id, style and variant. A shape that is not selected, or any shape with no gesture, is returned unchanged. The selected shape becomes `Drawn` in draw mode and `Moved` in a select-tool move, and stays unchanged in a move with any other tool. Well-formedness is kept. |
| Gestures.Dragged | src/Components/Canva.js:142-183 | handleMouseMove's map keeps length, ids, styles and variants. Every shape whose id is not the selected one is unchanged. A selected shape becomes `Drawn` in draw mode and `Moved` in a select-tool move. With no mode, or with a move under any tool other than select, nothing changes. Unique ids and well-formedness are kept. |
| Gestures.DragOffset | src/Components/Canva.js:165-174 | The offset after handleMouseMove stays unchanged unless a select-tool move reaches a shape carrying the selected id. With unique ids it is the selected shape's `NextOffset`. |
| Gestures.MovesCompose | src/Components/Canva.js:157-179 | With unique ids, two select-tool move events leave the shape list and the offset as one event to the second position would, so incremental moves do not drift. |
| Gestures.Without | src/Components/Canva.js:96 | No shape carrying the erased id is left, and the list does not grow. |
| Gestures.WithoutMembers | src/Components/Canva.js:96 | The filter keeps exactly the shapes whose id differs from the erased one. |
| Gestures.WithoutKeepsInvariant | src/Components/Canva.js:96 | The filter keeps unique ids and well-formed geometry. |
| Gestures.WithoutAppend | src/Components/Canva.js:96 | The filter distributes over concatenation, so the kept shapes stay in their original order. |
| Gestures.WithoutAbsent | src/Components/Canva.js:96 | Filtering out an id that no shape carries changes nothing. |
| Gestures.WithoutSplit | src/Components/Canva.js:96 | When only `x` carries its id, filtering that id out of `before + [x] + after` gives `before + after`. |
| Gestures.WithoutExactlyOne | src/Components/Canva.js:95-98 | With unique ids, erasing the shape at position k gives exactly the list without position k. |
| Gestures.Restyled | src/Components/Canva.js:203 | The edited property takes the new value and the other three style properties keep theirs. |
| Gestures.Restyle | src/Components/Canva.js:202-204 | Length and order are kept. Every shape differs from before only in its style. Shapes without the id are unchanged. Shapes with the id get the edited style. Unique ids and well-formedness are kept. |
| Gestures.RestyleIdempotent | src/Components/Canva.js:200-205 | Applying the same style edit twice equals applying it once. |
| Gestures.RestyleKeepsHits | src/Components/Canva.js:200-205 | Restyling never changes which shape a later press hits. |
| Canvas.ShapeDrawingApp.constructor | src/Components/Canva.js:7-12 | The initial state is no shapes, the rect tool, no start point, no selection, no mode and offset (0, 0). |
| Canvas.ShapeDrawingApp.HandleMouseDown | src/Components/Canva.js:63-137 | Eraser on a hit: the list without exactly the hit shape, selection cleared, all else unchanged. Other tools on a hit: shapes unchanged and the hit id selected; the select tool also enters move mode with the grab offset. No hit: the created shape (if any) is appended, the fresh id is selected, the start point is set and the mode is draw. The invariant is kept. |
| Canvas.ShapeDrawingApp.HandleMouseMove | src/Components/Canva.js:139-184 | With no mode, nothing changes. Otherwise the shapes become Dragged of the old list. The offset becomes the pointer exactly when a select-tool move shifts a line or stroke. A drawn circle's radius is the distance to the pointer. Tool, selection, mode and start point are unchanged, and the invariant is kept. |
| Canvas.ShapeDrawingApp.HandleMouseUp | src/Components/Canva.js:186-189 | Mode and start point are cleared. Shapes, selection, tool and offset are unchanged. |
| Canvas.ShapeDrawingApp.UpdateStyle | src/Components/Canva.js:200-205 | With no selection, nothing changes. Otherwise the shapes become Restyle for the selected id. All other state is unchanged and the invariant is kept. |
| Canvas.ShapeDrawingApp.SetTool | src/Components/Canva.js:227 | The tool is replaced and nothing else changes. |

## Left out

- Canvas rendering (`src/Components/Canva.js:14-53`): canvas API calls with no effect on the model's state.
- `getMouse` (`src/Components/Canva.js:55-61`): DOM geometry. The handlers take the pointer already in canvas coordinates.
- `saveDrawing` and `loadDrawing` (`src/Components/Canva.js:207-216`): browser `localStorage`, `JSON.stringify` and `JSON.parse`, and toast notifications, all I/O. Shapes with malformed geometry or duplicate ids, which only a load could bring in, are therefore not modelled either. Two presses that read the same `Date.now()` value could also duplicate an id; `HandleMouseDown` requires a fresh id instead.
- `distanceFromLineSegment`: `./helper` is not part of this model. The distance is an abstract non-negative parameter.
- `Math.sqrt`, `Date.now()` and IEEE floating point: they become the parameter `r`, the parameter `freshId` and reals, as described above.
- HitTest.NewShapeHits: for a new circle it states only that the anchor is hit, not that no other point is. The nonlinear step `dx*dx + dy*dy <= 0 ==> dx == 0 && dy == 0` is not proved here.
- The style value of `updateStyle("strokeWidth", parseInt(...))` is modelled as an integer. A `NaN` from a non-numeric input is not modelled. The property name is one of the four the style controls pass, not an arbitrary key.
- Removing the selected shape and drag-and-drop repositioning appear only in the react-konva files (`src/Components/Toolbar.js`, `src/Components/ShapeRenderer.js`, `src/Components/CanvasStage.js`, `src/pages/index.js`). Their controller logic is in a file that is not part of this model. Those components are presentational, and so are the tool list and markup of `src/Components/Canva.js:191-305`.
