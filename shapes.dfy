/**
 * The shape values the editor works on. In the source a `Shape` or a
 * `TextBox` object is never changed while the collection holds it: every
 * change clones it and replaces the clone by id, so a shape is a value here.
 * Coordinates, extents and indices are JavaScript numbers in the source and
 * integers here.
 */
module Shapes {

  /** What a shape is beyond its geometry: a plain `Shape`, or a `TextBox`. */
  datatype Kind =
    | Plain
    | TextBox(text: string, fontColor: string, isEditing: bool)

  datatype Shape = Shape(
    id: string,
    x: int,
    y: int,
    width: int,
    height: int,
    index: int,  // z-order used for picking; painting follows collection order
    color: string,
    kind: Kind)

  /** A pointer position in canvas-local coordinates. */
  datatype Point = Point(x: int, y: int)

  /**
   * The two hit tests of a shape, `isTouchedIn` and `isTouchedResizePoint`.
   * Their geometry lives in a version of src/shape.ts that is not part of
   * this model, so they are given, not defined.
   */
  datatype HitTests = HitTests(
    isTouchedIn: (Shape, Point) -> bool,
    isTouchedResizePoint: (Shape, Point) -> bool)
}
