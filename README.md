# Canvas shape editor: picking, gestures and copy-on-write updates

A model of the interaction engine of a small React canvas editor. Users add
text boxes to a canvas, select them, drag them, resize them from the corner
handle, edit their text in an overlay, and edit their fields in a style form.

The model covers:

- **Picking** (`findTouchedShape`). Keep the shapes the pointer hits, then reduce
  them to the one with the largest `index`. Among equal indices the later one in
  collection order wins. With no hit the result is `None`.
- **Gesture state machine.** The `ShapeState` record (`activatedId`, `dragged`,
  `touchedX`, `touchedY`), the separate `resized` flag and the shape collection
  are the fields of the class `App.CanvasApp`. It has one method per handler
  (`onClick`, `onDoubleClick`, `onMouseDown`, `onMouseMove`, `onMouseUp`), plus the
  text overlay's blur, the add button and the style form.
- **Copy-on-write collection** (`useArray`). `add` appends and `replace` maps an
  updater over every element. Every shape change is a replace-by-id updater that
  passes other ids through unchanged.

Modules:

- `Wrappers`: `Option`.
- `ArrayHooks`: `Add`, `Replace`.
- `Shapes`: the `Shape` value, `Point`, and `HitTests`. `HitTests` holds the two
  hit predicates, which the model takes as given functions.
- `Picking`: `findTouchedShape` and its specification `IsTopmostAt`.
- `ShapeUpdates`: the updaters, the index rule for new shapes, the lookup of the
  activated shape, and the style-form edits.
- `App`: the class `CanvasApp`.

Coordinates, extents and indices are integers. A `Number(...)` parse is an
`Option<int>`, where `None` stands for NaN. The pointer position given to each
handler is already in canvas-local coordinates.

Two behaviours of the code that the model keeps as written:

- Mouse-down tests the resize handle of the shape it picked (src/App.tsx:110),
  not of the activated shape. The resize moves that follow then change the activated shape,
  which may be a different one (src/App.tsx:132; `App.CanvasApp.OnMouseDown`,
  `App.CanvasApp.OnMouseMove`).
- `dragged` and `resized` are two independent flags. Both can be set when a
  mouse-down arrives while a drag flag is still set, for example after a release
  outside the canvas that the handler never saw. A move then drags, because the
  drag branch comes first. From the idle state, one mouse-down sets at most one
  flag.

## Model

| member | source | states |
|---|---|---|
| `ArrayHooks.Add` | src/hooks/arrayHooks.ts:14 | the new array is one longer, ends with the item, and keeps every old element at its position |
| `ArrayHooks.Replace` | src/hooks/arrayHooks.ts:15 | same length, and element i of the result is the updater applied to old element i |
| `ArrayHooks.ReplaceIdentity` | src/hooks/arrayHooks.ts:15 | replacing with the identity updater gives an equal array |
| `Picking.Candidates` | src/App.tsx:49-50 | the `filter` step with predicate `Picking.Touched` (line 50): a shape is in the filtered list iff it is in the collection and is hit: a body hit, or also a handle hit when resize-aware |
| `Picking.Topmost` | src/App.tsx:51-54 | the `reduce` from `undefined` with reducer `Picking.KeepTopmost` (lines 52-53): it gives none iff there are no candidates; otherwise a candidate whose index is at least every candidate's |
| `Picking.FindTouchedShape` | src/App.tsx:48-55 | none iff no shape is hit; otherwise a hit shape of the collection with maximal index among hit shapes |
| `Picking.FindTouchedShapeIsLastTopmost` | src/App.tsx:48-55 | the picked shape stands at a position where it is hit, no hit shape has a larger index, and every later hit shape has a strictly smaller one (the "<=" tie-break: last wins) |
| `Picking.TopmostPositionUnique` | src/App.tsx:51-54 | at most one position meets that specification |
| `Picking.FindTouchedShapeAt` | src/App.tsx:48-55 | conversely, any position meeting the specification holds the shape that is returned |
| `Picking.HigherIndexWins` | src/App.tsx:51-54 | of two hit shapes with indices 1 and 2, index 2 is picked in either collection order |
| `Picking.EqualIndexLaterWins` | src/App.tsx:53 | of two hit shapes with equal index, the later one is picked |
| `Picking.BodyPickWithoutResizeHits` | src/App.tsx:50 | when no resize handle is hit, the resize-aware pick equals the body-only pick |
| `ShapeUpdates.Drag` | src/App.tsx:121-127 | only the shape with the activated id changes, and only its anchor, which becomes pointer minus touch offset |
| `ShapeUpdates.Resize` | src/App.tsx:131-137 | only the shape with the activated id changes, and only its extent, which becomes pointer minus its own anchor |
| `ShapeUpdates.StartEditing` | src/App.tsx:95-101 | only a text box with the picked id changes, and only its editing flag, which becomes true |
| `ShapeUpdates.CommitText` | src/App.tsx:156-163 | only a text box with the given id changes: it takes the new text and leaves editing; the font colour is kept |
| `ShapeUpdates.ReplaceWith` | src/App.tsx:186-188 | elements with the edited shape's id become the edited shape; all others pass through; ids are kept |
| `ShapeUpdates.ReplaceByIdKeepsOthers` | src/App.tsx:121-123 | a replace whose updater passes through other ids leaves every element with another id equal to its old value |
| `ShapeUpdates.DragKeepsOthers` | src/App.tsx:121-127 | a drag move leaves every shape whose id is not the activated one unchanged |
| `ShapeUpdates.DragFollowsPointer` | src/App.tsx:28-34 | with the offset taken at the press (lines 32-33), a move shifts the anchor by exactly the pointer's delta (lines 124-125) |
| `ShapeUpdates.MaxIndex` | src/App.tsx:180 | the result is at least 0 and at least every index, and it is 0 or some shape's index |
| `ShapeUpdates.NextIndex` | src/App.tsx:180 | the new index is at least 1 and above every existing index, and it is exactly one above the largest index or 1 |
| `ShapeUpdates.NewTextBox` | src/App.tsx:181 | the added shape is a text box with empty text, not editing, carrying the computed index |
| `ShapeUpdates.IndicesFromEmpty` | src/App.tsx:179-182 | three adds to an empty collection give indices 1, 2, 3 in creation order |
| `ShapeUpdates.FindById` | src/App.tsx:185 | none iff no shape has the id; otherwise a shape of the collection with that id |
| `ShapeUpdates.FindByIdFirst` | src/App.tsx:185 | the shape found is the first one with that id |
| `ShapeUpdates.ApplyStyleEdit` | src/App.tsx:211-276 | nothing is handed on iff the number parsed to NaN, or a text-box field was edited on a non-text shape; otherwise exactly the edited field changes |
| `App.CanvasApp.constructor` | src/App.tsx:20 | starts with no shapes, nothing activated, no drag, zero offset and no resize |
| `App.CanvasApp.Click` | src/App.tsx:25-27 | selects the shape and changes no other field |
| `App.CanvasApp.DragStart` | src/App.tsx:28-35 | selects the shape, sets dragged, and records the touch offset pointer minus anchor |
| `App.CanvasApp.DragEnd` | src/App.tsx:36-43 | clears dragged and zeroes the offset, and keeps the selection |
| `App.CanvasApp.OnClick` | src/App.tsx:80-88 | a body hit selects the topmost shape; a miss keeps the selection; shapes unchanged |
| `App.CanvasApp.OnDoubleClick` | src/App.tsx:89-103 | a hit selects the shape and starts editing it if it is a text box; a miss changes nothing |
| `App.CanvasApp.OnMouseDown` | src/App.tsx:104-118 | a miss changes nothing; with a selection and the picked shape's handle hit, sets resized and keeps the selection and drag state; otherwise starts a drag on the picked shape; from idle at most one flag ends up set |
| `App.CanvasApp.OnMouseMove` | src/App.tsx:119-139 | dragging moves the activated shape; else resizing resizes it; else nothing changes; the state fields never change |
| `App.CanvasApp.OnMouseUp` | src/App.tsx:140-147 | clears both flags; zeroes the offset only if a drag was running; keeps the selection |
| `App.CanvasApp.OnTextBlur` | src/App.tsx:155-164 | commits the text into the text box with that id and leaves every other shape unchanged |
| `App.CanvasApp.AddTextBox` | src/App.tsx:179-182 | appends one text box whose index is above every existing index, and keeps the old shapes in place |
| `App.CanvasApp.OnStyleEdit` | src/App.tsx:185-188 | without a selected shape, or when the edit hands nothing on (NaN), shapes are unchanged; otherwise the edited copy replaces by id |
| `App.CanvasApp.DragGesture` | src/App.tsx:104-147 | press, move, release on a shape: the shape is selected and its anchor moves by the pointer delta; other ids are unchanged; no gesture is left running |
| `App.CanvasApp.ResizeGesture` | src/App.tsx:104-147 | press on a handle with a selection, move, release: only the activated shape's width and height change, to pointer minus anchor; its anchor and all other shapes are unchanged |

## Left out

- Hit-test geometry. `isTouchedIn` and `isTouchedResizePoint` come from a version of src/shape.ts that is not part of this model. They are given functions of shape and point (`Shapes.HitTests`).
- Rendering: the `draw` calls, the canvas clearing in src/hooks/canvasHooks.ts, the JSX layout and the overlay's positioning. None of these changes the state.
- Pointer conversion (`clientX - offsetLeft`) and the `getBoundingClientRect` guards. Each handler receives the canvas-local point.
- `Number(...)` parsing and floating point. Coordinates are integers, and a parse is an optional integer.
- React mechanics: hooks, memoisation, batching of setters and stale closures. Each handler runs atomically on the current state.
- The `TextBox` constructor's id generation and default colours. `App.CanvasApp.AddTextBox` takes them as parameters. The constructor is not part of this model, so the argument order of `new TextBox('', 10, 10, 150, 50, maxIndex)` is assumed to be text, x, y, width, height, index (`ShapeUpdates.NewTextBox`).
- `CircleBox` and its clamped extents. No circle shape appears in the code this model covers.
