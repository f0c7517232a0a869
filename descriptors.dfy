/** The abstract diagram description handed to the slide renderer: shapes, verb text
    boxes and the failures a policy run can end with. Lengths are python-pptx English
    Metric Units (EMU), 914400 to the inch, so all grid and strip arithmetic is exact. */
module Descriptors {

  const EmuPerInch: int := 914400

  // Node size shared by the diagonal and the grid layouts: Inches(2) x Inches(0.8).
  const NodeWidth: int := 1828800
  const NodeHeight: int := 731520

  // Wrapping grid: Inches(0.5) left margin, Inches(1.0) top margin, Inches(10) right bound.
  const GridLeftMargin: int := 457200
  const GridTopMargin: int := 914400
  const GridRightBound: int := 9144000

  // Verb strip: Inches(0.5) left margin and bottom margin, boxes Inches(1.0) x Inches(0.5).
  const StripLeftMargin: int := 457200
  const StripBottomMargin: int := 457200
  const BoxWidth: int := 914400
  const BoxHeight: int := 457200

  // Verbs per strip group.
  const ChunkSize: nat := 5

  datatype Kind = Oval | RoundedRect

  datatype Fill = Green | Red | White

  /** Where a shape is anchored: an exact EMU point (grid layout), or one of the seven
      diagonal slots whose coordinates depend on the canvas (diagonal layout). */
  datatype Anchor = Point(left: int, top: int) | Slot(index: nat)

  datatype Shape = Shape(kind: Kind, at: Anchor, width: int, height: int, fill: Fill, text: string)

  datatype TextBox = TextBox(left: int, top: int, width: int, height: int, text: string)

  /** One slide: the shapes in the order they were added, then the verb strip. */
  datatype Slide = Slide(shapes: seq<Shape>, boxes: seq<TextBox>)

  /** Why a policy run stopped: a row the policy indexes is absent (IndexError), the first
      row of the slice has no cells (ZeroDivisionError in the unused step computation),
      a labelled column has no first word (IndexError from `split()[0]`), or the tagger raised. */
  datatype Failure = MissingRow | EmptyFirstRow | BlankLabel(column: nat) | TaggerFailed
}
