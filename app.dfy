/**
 * The canvas editor of src/App.tsx as a state machine. The fields are the
 * `ShapeState` record of `useShapeState` (activatedId, dragged, touchedX,
 * touchedY), the separate `resized` flag, and the shape collection held by
 * `useArray`. Each handler is one method; a handler runs to completion
 * before the next event, so React's batching of the setters is not modelled.
 */
module App {
  import opened Wrappers
  import opened Shapes
  import opened ArrayHooks
  import opened Picking
  import opened ShapeUpdates

  class CanvasApp {
    const hits: HitTests
    var shapes: seq<Shape>
    var activatedId: string
    var dragged: bool
    var touchedX: int
    var touchedY: int
    var resized: bool

    /** The initial state: no shapes, nothing activated, no gesture. */
    constructor(hits: HitTests)
      ensures this.hits == hits
      ensures shapes == [] && activatedId == ""
      ensures !dragged && touchedX == 0 && touchedY == 0 && !resized
    {
      this.hits := hits;
      shapes := [];
      activatedId := "";
      dragged := false;
      touchedX, touchedY := 0, 0;
      resized := false;
    }

    // -------------------------------------------------------------------------
    // The transitions of `useShapeState` (src/App.tsx:25-43)

    /** `click`: select the shape, nothing else changes. */
    method Click(shape: Shape)
      modifies this`activatedId
      ensures activatedId == shape.id
    {
      activatedId := shape.id;
    }

    /** `dragStart`: select the shape and remember where on it the pointer went down. */
    method DragStart(p: Point, shape: Shape)
      modifies this`activatedId, this`dragged, this`touchedX, this`touchedY
      ensures activatedId == shape.id && dragged
      ensures touchedX == p.x - shape.x && touchedY == p.y - shape.y
    {
      activatedId := shape.id;
      dragged := true;
      touchedX := p.x - shape.x;
      touchedY := p.y - shape.y;
    }

    /** `dragEnd`: stop dragging and zero the offset; the selection stays. */
    method DragEnd()
      modifies this`dragged, this`touchedX, this`touchedY
      ensures !dragged && touchedX == 0 && touchedY == 0
    {
      dragged := false;
      touchedX, touchedY := 0, 0;
    }

    // -------------------------------------------------------------------------
    // The canvas handlers (src/App.tsx:80-147)

    /** `onClick`: a body hit selects the topmost shape; a click on the background changes nothing. */
    method OnClick(p: Point)
      modifies this`activatedId
      ensures var t := FindTouchedShape(shapes, p, false, hits);
        activatedId == if t.Some? then t.value.id else old(activatedId)
    {
      var touchedBox := FindTouchedShape(shapes, p, false, hits);
      if touchedBox.Some? {
        Click(touchedBox.value);
      }
    }

    /** `onDoubleClick`: as a click, and the picked shape, if a text box, enters editing. */
    method OnDoubleClick(p: Point)
      modifies this`activatedId, this`shapes
      ensures var t := FindTouchedShape(old(shapes), p, false, hits);
        && activatedId == (if t.Some? then t.value.id else old(activatedId))
        && (t.None? ==> shapes == old(shapes))
        && (t.Some? ==> |shapes| == |old(shapes)|
                        && forall i :: 0 <= i < |shapes| ==> shapes[i] == StartEditing(old(shapes)[i], t.value.id))
    {
      var touchedBox := FindTouchedShape(shapes, p, false, hits);
      if touchedBox.Some? {
        Click(touchedBox.value);
        var id := touchedBox.value.id;
        shapes := Replace(shapes, s => StartEditing(s, id));
      }
    }

    /**
     * `onMouseDown`: pick with resize handles included. With a shape already
     * activated and the pointer on the PICKED shape's handle, start resizing
     * (the activated shape, whichever it is); otherwise start dragging the
     * picked shape. No pick changes nothing.
     */
    method OnMouseDown(p: Point)
      modifies this`activatedId, this`dragged, this`touchedX, this`touchedY, this`resized
      ensures var t := FindTouchedShape(shapes, p, true, hits);
        && (t.None? ==> unchanged(this))
        && (t.Some? && old(activatedId) != "" && hits.isTouchedResizePoint(t.value, p) ==>
              && resized
              && activatedId == old(activatedId) && dragged == old(dragged)
              && touchedX == old(touchedX) && touchedY == old(touchedY))
        && (t.Some? && !(old(activatedId) != "" && hits.isTouchedResizePoint(t.value, p)) ==>
              && activatedId == t.value.id && dragged
              && touchedX == p.x - t.value.x && touchedY == p.y - t.value.y
              && resized == old(resized))
      ensures !old(dragged) && !old(resized) ==> !(dragged && resized)
    {
      var touchedBox := FindTouchedShape(shapes, p, true, hits);
      if touchedBox.None? {
        return;
      }
      if activatedId != "" && hits.isTouchedResizePoint(touchedBox.value, p) {
        resized := true;
        return;
      }
      DragStart(p, touchedBox.value);
    }

    /**
     * `onMouseMove`: while dragging, the activated shape's anchor follows the
     * pointer minus the touch offset; else while resizing, its extent becomes
     * pointer minus its anchor; with neither flag set nothing changes. Drag
     * takes precedence over resize.
     */
    method OnMouseMove(p: Point)
      modifies this`shapes
      ensures |shapes| == |old(shapes)|
      ensures dragged ==>
        forall i :: 0 <= i < |shapes| ==> shapes[i] == Drag(old(shapes)[i], activatedId, p, touchedX, touchedY)
      ensures !dragged && resized ==>
        forall i :: 0 <= i < |shapes| ==> shapes[i] == Resize(old(shapes)[i], activatedId, p)
      ensures !dragged && !resized ==> shapes == old(shapes)
    {
      if dragged {
        var id, tx, ty := activatedId, touchedX, touchedY;
        shapes := Replace(shapes, s => Drag(s, id, p, tx, ty));
        return;
      }
      if resized {
        var id := activatedId;
        shapes := Replace(shapes, s => Resize(s, id, p));
      }
    }

    /** `onMouseUp`: end a drag (zeroing the offset) and clear the resize flag; the selection stays. */
    method OnMouseUp()
      modifies this`dragged, this`touchedX, this`touchedY, this`resized
      ensures !dragged && !resized
      ensures old(dragged) ==> touchedX == 0 && touchedY == 0
      ensures !old(dragged) ==> touchedX == old(touchedX) && touchedY == old(touchedY)
    {
      if dragged {
        DragEnd();
      }
      if resized {
        resized := false;
      }
    }

    // -------------------------------------------------------------------------
    // Text overlay, add button and style form

    /** The overlay text area of the text box `id` loses focus holding `value` (src/App.tsx:155-164). */
    method OnTextBlur(id: string, value: string)
      modifies this`shapes
      ensures |shapes| == |old(shapes)|
      ensures forall i :: 0 <= i < |shapes| ==> shapes[i] == CommitText(old(shapes)[i], id, value)
    {
      shapes := Replace(shapes, s => CommitText(s, id, value));
    }

    /** The "TextBox" button (src/App.tsx:179-182): append a text box above every existing shape. */
    method AddTextBox(id: string, color: string, fontColor: string)
      modifies this`shapes
      ensures |shapes| == |old(shapes)| + 1
      ensures shapes[..|old(shapes)|] == old(shapes)
      ensures shapes[|old(shapes)|] == NewTextBox(id, color, fontColor, NextIndex(old(shapes)))
      ensures forall s :: s in old(shapes) ==> s.index < shapes[|old(shapes)|].index
    {
      var maxIndex := NextIndex(shapes);
      shapes := Add(shapes, NewTextBox(id, color, fontColor, maxIndex));
    }

    /**
     * One change in the style form of the activated shape (src/App.tsx:185-188
     * and 201-280). Without an activated shape in the collection there is no
     * form; an edit that hands nothing on (NaN, or a text field of a non-text
     * shape) changes nothing; otherwise the edited shape replaces every
     * element with its id.
     */
    method OnStyleEdit(edit: StyleEdit)
      modifies this`shapes
      ensures var shown := FindById(old(shapes), activatedId);
              var r := if shown.Some? then ApplyStyleEdit(shown.value, edit) else None;
        && (r.None? ==> shapes == old(shapes))
        && (r.Some? ==> |shapes| == |old(shapes)|
                        && forall i :: 0 <= i < |shapes| ==> shapes[i] == ReplaceWith(old(shapes)[i], r.value))
    {
      var shape := FindById(shapes, activatedId);
      if shape.None? {
        return;
      }
      var edited := ApplyStyleEdit(shape.value, edit);
      if edited.Some? {
        var changed := edited.value;
        shapes := Replace(shapes, s => ReplaceWith(s, changed));
      }
    }

    // -------------------------------------------------------------------------
    // Whole gestures

    /**
     * Press at `press` on a shape (not on a resize handle of an activated
     * state), move to `move`, release: every shape carrying the picked id
     * ends at the picked shape's anchor shifted by `move - press`, the picked
     * shape stays selected, and no gesture is left running.
     */
    method DragGesture(press: Point, move: Point)
      requires !dragged && !resized
      requires FindTouchedShape(shapes, press, true, hits).Some?
      requires activatedId == "" || !hits.isTouchedResizePoint(FindTouchedShape(shapes, press, true, hits).value, press)
      modifies this`activatedId, this`dragged, this`touchedX, this`touchedY, this`resized, this`shapes
      ensures var t := FindTouchedShape(old(shapes), press, true, hits).value;
        && activatedId == t.id && !dragged && !resized
        && |shapes| == |old(shapes)|
        && (forall i :: 0 <= i < |shapes| && old(shapes)[i].id != t.id ==> shapes[i] == old(shapes)[i])
        && (forall i :: 0 <= i < |shapes| && old(shapes)[i].id == t.id ==>
              shapes[i] == old(shapes)[i].(x := t.x + (move.x - press.x), y := t.y + (move.y - press.y)))
    {
      OnMouseDown(press);
      OnMouseMove(move);
      OnMouseUp();
    }

    /**
     * Press on a resize handle with a shape activated, move, release: only
     * the activated shape's extent changes, to pointer minus its anchor; its
     * anchor and every other shape stay as they were.
     */
    method ResizeGesture(press: Point, move: Point)
      requires !dragged && !resized && activatedId != ""
      requires FindTouchedShape(shapes, press, true, hits).Some?
      requires hits.isTouchedResizePoint(FindTouchedShape(shapes, press, true, hits).value, press)
      modifies this`activatedId, this`dragged, this`touchedX, this`touchedY, this`resized, this`shapes
      ensures activatedId == old(activatedId) && !dragged && !resized
      ensures |shapes| == |old(shapes)|
      ensures forall i :: 0 <= i < |shapes| && old(shapes)[i].id != activatedId ==> shapes[i] == old(shapes)[i]
      ensures forall i :: 0 <= i < |shapes| && old(shapes)[i].id == activatedId ==>
        && shapes[i].x == old(shapes)[i].x && shapes[i].y == old(shapes)[i].y
        && shapes[i].width == move.x - old(shapes)[i].x && shapes[i].height == move.y - old(shapes)[i].y
        && shapes[i].(width := old(shapes)[i].width, height := old(shapes)[i].height) == old(shapes)[i]
    {
      OnMouseDown(press);
      OnMouseMove(move);
      OnMouseUp();
    }
  }
}
