/** The vector document, as the client edits it and the server stores it
    (packages/editor/src/document/types.ts, server/internal/document/document.go).

    Strings are sequences of Unicode characters, so a length is a rune count.  Numbers are reals,
    or not finite. */
module Drawing {
  import opened Wrappers

  type Id = string
  type Color = string

  datatype Num = Finite(value: real) | NonFinite

  datatype Point = Point(x: Num, y: Num)

  datatype FreehandPoint = FreehandPoint(x: Num, y: Num, pressure: Num)

  datatype Brush = Brush(
    size: Num, thinning: Num, smoothing: Num, streamline: Num, simulatePressure: bool,
    taperStart: Num, taperEnd: Num)

  datatype Shape =
    | Freehand(color: Color, freehand: seq<FreehandPoint>, brush: Brush)
    | Line(points: seq<Point>, lineColor: Color, lineWidth: Num, cap: Option<string>, join: Option<string>)
    | Polygon(points: seq<Point>,
              fill: Option<Color>, stroke: Option<Color>, strokeWidth: Option<Num>, join: Option<string>)
    | Rect(x: Num, y: Num, width: Num, height: Num, cornerRadius: Option<Num>,
           fill: Option<Color>, stroke: Option<Color>, strokeWidth: Option<Num>)
    | Ellipse(cx: Num, cy: Num, rx: Num, ry: Num, fill: Option<Color>, stroke: Option<Color>, strokeWidth: Option<Num>)

  datatype Stroke = Stroke(id: Id, composite: string, shape: Shape)

  datatype LayerValue = LayerValue(id: Id, name: string, visible: bool, opacity: Num, strokes: seq<Stroke>)

  datatype Document = Document(
    version: int, width: int, height: int, background: Option<Color>, layers: seq<LayerValue>)

  // one operation of an AI proposal
  datatype Op =
    | AddLayerOp(id: Id, name: string)
    | AddStrokeOp(layerId: Id, stroke: Stroke)
}
