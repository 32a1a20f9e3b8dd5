/**
 * The pure pieces of src/App.tsx that compute new shape values: the
 * replace-by-id updaters the handlers pass to `replace`, the index rule of
 * the "TextBox" button, the lookup of the activated shape, and the edits of
 * the `ShapeStyle` form.
 */
module ShapeUpdates {
  import opened Wrappers
  import opened Shapes
  import opened ArrayHooks

  // ---------------------------------------------------------------------------
  // Updaters passed to `replace`

  /** Drag move (src/App.tsx:121-127): the shape with id `id` gets its anchor at pointer minus touch offset. */
  function Drag(s: Shape, id: string, p: Point, touchedX: int, touchedY: int): (r: Shape)
    ensures s.id != id ==> r == s
    ensures s.id == id ==> r.x == p.x - touchedX && r.y == p.y - touchedY
    ensures r.(x := s.x, y := s.y) == s
  {
    if s.id != id then s else s.(x := p.x - touchedX, y := p.y - touchedY)
  }

  /** Resize move (src/App.tsx:131-137): the shape with id `id` stretches from its own anchor to the pointer. */
  function Resize(s: Shape, id: string, p: Point): (r: Shape)
    ensures s.id != id ==> r == s
    ensures s.id == id ==> r.width == p.x - s.x && r.height == p.y - s.y
    ensures r.(width := s.width, height := s.height) == s
  {
    if s.id != id then s else s.(width := p.x - s.x, height := p.y - s.y)
  }

  /** Double-click (src/App.tsx:95-101): only a text box with id `id` enters editing. */
  function StartEditing(s: Shape, id: string): (r: Shape)
    ensures (s.kind.TextBox? && s.id == id) ==> r.kind.TextBox? && r.kind.isEditing
    ensures !(s.kind.TextBox? && s.id == id) ==> r == s
    ensures r.kind.TextBox? ==> r.(kind := r.kind.(isEditing := s.kind.isEditing)) == s
  {
    if !s.kind.TextBox? then s
    else if s.id != id then s
    else s.(kind := s.kind.(isEditing := true))
  }

  /** Text-area blur (src/App.tsx:156-163): the text box with id `id` takes the text and leaves editing. */
  function CommitText(s: Shape, id: string, value: string): (r: Shape)
    ensures (s.kind.TextBox? && s.id == id) ==> r.kind == TextBox(value, s.kind.fontColor, false)
    ensures !(s.kind.TextBox? && s.id == id) ==> r == s
    ensures r.(kind := s.kind) == s
  {
    if !s.kind.TextBox? then s
    else if s.id != id then s
    else s.(kind := s.kind.(text := value, isEditing := false))
  }

  /** `changeShape` (src/App.tsx:186-188): every element with the edited shape's id becomes the edited shape. */
  function ReplaceWith(s: Shape, shape: Shape): (r: Shape)
    ensures s.id != shape.id ==> r == s
    ensures s.id == shape.id ==> r == shape
    ensures r.id == s.id
  {
    if shape.id == s.id then shape else s
  }

  /**
   * A replace whose updater passes through every shape whose id is not the
   * target leaves those shapes as they were, at their positions.
   */
  lemma ReplaceByIdKeepsOthers(shapes: seq<Shape>, id: string, f: Shape -> Shape)
    requires forall s: Shape :: s.id != id ==> f(s) == s
    ensures |Replace(shapes, f)| == |shapes|
    ensures forall i :: 0 <= i < |shapes| && shapes[i].id != id ==> Replace(shapes, f)[i] == shapes[i]
  {
  }

  /** A drag never alters the shapes whose id differs from the activated one. */
  lemma DragKeepsOthers(shapes: seq<Shape>, id: string, p: Point, touchedX: int, touchedY: int)
    ensures var r := Replace(shapes, s => Drag(s, id, p, touchedX, touchedY));
      |r| == |shapes| && forall i :: 0 <= i < |shapes| && shapes[i].id != id ==> r[i] == shapes[i]
  {
    ReplaceByIdKeepsOthers(shapes, id, s => Drag(s, id, p, touchedX, touchedY));
  }

  /**
   * The touch offset taken at the press makes the drag follow the pointer:
   * pressing at `press` on a shape and moving to `move` shifts its anchor by
   * exactly `move - press`, with no snap of the anchor to the pointer.
   */
  lemma DragFollowsPointer(s: Shape, press: Point, move: Point)
    ensures Drag(s, s.id, move, press.x - s.x, press.y - s.y)
         == s.(x := s.x + (move.x - press.x), y := s.y + (move.y - press.y))
  {
  }

  // ---------------------------------------------------------------------------
  // Index of a new shape (src/App.tsx:180)

  /** `Math.max(...shapes.map(b => b.index), 0)`. */
  function MaxIndex(shapes: seq<Shape>): (m: int)
    ensures m >= 0
    ensures forall s :: s in shapes ==> s.index <= m
    ensures m == 0 || exists s :: s in shapes && s.index == m
  {
    if shapes == [] then 0
    else
      var rest := MaxIndex(shapes[1..]);
      assert forall s :: s in shapes[1..] ==> s in shapes;
      if shapes[0].index > rest then shapes[0].index else rest
  }

  /** The index a new shape receives: one above every existing index, and at least 1. */
  function NextIndex(shapes: seq<Shape>): (r: int)
    ensures r >= 1
    ensures forall s :: s in shapes ==> s.index < r
    ensures r == 1 || exists s :: s in shapes && s.index == r - 1
  {
    MaxIndex(shapes) + 1
  }

  /**
   * The shape the "TextBox" button adds (src/App.tsx:181): empty text at
   * (10, 10), 150 by 50. Its id and colours come from the `TextBox`
   * constructor, which is not part of this model, so they are parameters.
   */
  function NewTextBox(id: string, color: string, fontColor: string, index: int): (r: Shape)
    ensures r.index == index && r.kind.TextBox? && !r.kind.isEditing && r.kind.text == ""
  {
    Shape(id, 10, 10, 150, 50, index, color, TextBox("", fontColor, false))
  }

  /** Adding three text boxes to an empty collection gives indices 1, 2 and 3 in creation order. */
  lemma IndicesFromEmpty(id1: string, id2: string, id3: string, color: string, fontColor: string)
    ensures var s1 := Add([], NewTextBox(id1, color, fontColor, NextIndex([])));
            var s2 := Add(s1, NewTextBox(id2, color, fontColor, NextIndex(s1)));
            var s3 := Add(s2, NewTextBox(id3, color, fontColor, NextIndex(s2)));
            s3[0].index == 1 && s3[1].index == 2 && s3[2].index == 3
  {
  }

  // ---------------------------------------------------------------------------
  // The activated shape shown in the style form (src/App.tsx:185)

  /** `shapes.find(b => b.id === id)`. */
  function FindById(shapes: seq<Shape>, id: string): (r: Option<Shape>)
    ensures r.None? <==> forall s :: s in shapes ==> s.id != id
    ensures r.Some? ==> r.value in shapes && r.value.id == id
  {
    if shapes == [] then None
    else if shapes[0].id == id then Some(shapes[0])
    else
      assert forall s :: s in shapes[1..] ==> s in shapes;
      FindById(shapes[1..], id)
  }

  /** `find` returns the first shape with the id, not just any. */
  lemma {:induction false} FindByIdFirst(shapes: seq<Shape>, id: string)
    ensures FindById(shapes, id).Some? ==>
      exists k :: 0 <= k < |shapes| && shapes[k] == FindById(shapes, id).value
                  && forall j :: 0 <= j < k ==> shapes[j].id != id
  {
    if shapes != [] && shapes[0].id != id && FindById(shapes, id).Some? {
      FindByIdFirst(shapes[1..], id);
      var k :| 0 <= k < |shapes[1..]| && shapes[1..][k] == FindById(shapes[1..], id).value
               && forall j :: 0 <= j < k ==> shapes[1..][j].id != id;
      assert shapes[k + 1] == FindById(shapes, id).value;
      assert forall j :: 0 <= j < k + 1 ==> shapes[j].id != id by {
        forall j | 0 <= j < k + 1 ensures shapes[j].id != id {
          if j > 0 { assert shapes[j] == shapes[1..][j - 1]; }
        }
      }
    } else if shapes != [] && shapes[0].id == id {
      assert shapes[0] == FindById(shapes, id).value;
    }
  }

  // ---------------------------------------------------------------------------
  // The style form (`ShapeStyle`, src/App.tsx:201-280)

  datatype NumericField = X | Y | Width | Height

  function NumericValue(s: Shape, f: NumericField): int
  {
    match f
    case X => s.x
    case Y => s.y
    case Width => s.width
    case Height => s.height
  }

  /**
   * One change event of the form. A numeric field carries the outcome of
   * `Number(...)` on the typed text: `None` when it is NaN.
   */
  datatype StyleEdit =
    | EditText(text: string)
    | EditFontColor(fontColor: string)
    | EditNumber(field: NumericField, parsed: Option<int>)
    | EditColor(color: string)

  /**
   * The shape handed to `changeShape`, or `None` when nothing is handed on:
   * the numeric input parsed to NaN, or a text-box field was edited on a shape
   * that is not a text box (the form shows those inputs only for text boxes).
   */
  function ApplyStyleEdit(s: Shape, edit: StyleEdit): (r: Option<Shape>)
    ensures r.None? <==>
      (edit.EditNumber? && edit.parsed.None?) || ((edit.EditText? || edit.EditFontColor?) && !s.kind.TextBox?)
    ensures r.Some? ==> r.value.id == s.id && r.value.index == s.index
    ensures r.Some? && edit.EditNumber? ==>
      && NumericValue(r.value, edit.field) == edit.parsed.value
      && (forall f :: f != edit.field ==> NumericValue(r.value, f) == NumericValue(s, f))
      && r.value.color == s.color && r.value.kind == s.kind
    ensures r.Some? && edit.EditColor? ==> r.value == s.(color := edit.color)
    ensures r.Some? && edit.EditText? ==> r.value == s.(kind := s.kind.(text := edit.text))
    ensures r.Some? && edit.EditFontColor? ==> r.value == s.(kind := s.kind.(fontColor := edit.fontColor))
  {
    match edit
    case EditText(text) =>
      if s.kind.TextBox? then Some(s.(kind := s.kind.(text := text))) else None
    case EditFontColor(fontColor) =>
      if s.kind.TextBox? then Some(s.(kind := s.kind.(fontColor := fontColor))) else None
    case EditNumber(field, parsed) =>
      if parsed.None? then None
      else
        var v := parsed.value;
        Some(match field
             case X => s.(x := v)
             case Y => s.(y := v)
             case Width => s.(width := v)
             case Height => s.(height := v))
    case EditColor(color) => Some(s.(color := color))
  }
}
