/** The part of the external usvg document tree that the SVG loader reads:
    the direct children of the root node, each either a path (its segment
    list and optional fill) or some other kind of node. Parsing a file into
    this tree happens outside the model. */
module Usvg {
  import opened Common

  datatype PathSegment =
    | MoveTo(x: real, y: real)
    | LineTo(x: real, y: real)
    | CurveTo(x1: real, y1: real, x2: real, y2: real, x: real, y: real)
    | ClosePath

  /** A solid color, or a reference to a paint server (a gradient or a pattern). */
  datatype Paint = Color(red: u8, green: u8, blue: u8) | Link(id: string)

  /** Fill opacity and fill rule are not read by the loader and are left out. */
  datatype Fill = Fill(paint: Paint)

  datatype PathNode = PathNode(data: seq<PathSegment>, fill: Option<Fill>)

  /** `Other` stands for every non-path node kind (groups, images, text, ...). */
  datatype NodeKind = Path(path: PathNode) | Other

  /** Why reading or parsing the document failed. */
  datatype Error = Error(reason: string)
}
