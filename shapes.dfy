/** The data model of the drawing surface: shapes, their style, the tools and
    the gesture mode of ShapeDrawingApp. */
module Shapes {

  datatype Option<T> = None | Some(value: T)

  /** A pointer position in canvas coordinates. */
  datatype Point = Point(x: real, y: real)

  /** The style attributes every shape carries. */
  datatype Style = Style(stroke: string, fill: string, strokeWidth: int, dash: seq<int>)

  /** The style a freshly drawn shape gets. */
  const DefaultStyle: Style := Style("black", "transparent", 2, [])

  /** One shape of the drawing. A line's `points` array always holds exactly
      two endpoints, so it is kept as four coordinates; a pencil stroke keeps
      its flat coordinate list `[x0, y0, x1, y1, ...]`. */
  datatype Shape =
    | Rect(id: int, style: Style, x: real, y: real, width: real, height: real)
    | Circle(id: int, style: Style, x: real, y: real, radius: real)
    | Line(id: int, style: Style, x1: real, y1: real, x2: real, y2: real)
    | Pencil(id: int, style: Style, points: seq<real>)

  /** The six tools of the tool palette. */
  datatype Tool = SelectTool | RectTool | CircleTool | LineTool | PencilTool | EraserTool

  /** The gesture in progress: none, drawing a new shape, or moving one. */
  datatype Mode = Idle | Draw | Move

  /** Two shapes have the same variant tag. */
  predicate SameKind(a: Shape, b: Shape) {
    a.Rect? == b.Rect? && a.Circle? == b.Circle? && a.Line? == b.Line? && a.Pencil? == b.Pencil?
  }

  /** The geometry the handlers always produce: a non-negative radius and a
      stroke of at least one whole point. */
  predicate WellFormed(s: Shape) {
    match s
    case Circle(_, _, _, _, radius) => radius >= 0.0
    case Pencil(_, _, points) => |points| >= 2 && |points| % 2 == 0
    case _ => true
  }

  predicate AllWellFormed(shapes: seq<Shape>) {
    forall i :: 0 <= i < |shapes| ==> WellFormed(shapes[i])
  }

  predicate UniqueIds(shapes: seq<Shape>) {
    forall i, j :: 0 <= i < j < |shapes| ==> shapes[i].id != shapes[j].id
  }

  /** No shape of the drawing carries `id`. */
  predicate FreshId(shapes: seq<Shape>, id: int) {
    forall i :: 0 <= i < |shapes| ==> shapes[i].id != id
  }

  /** The tools that create a shape on a press that hits nothing. */
  predicate CreatesShape(tool: Tool) {
    tool.RectTool? || tool.CircleTool? || tool.LineTool? || tool.PencilTool?
  }

  /** A zero-sized shape anchored at `p`. */
  predicate Degenerate(s: Shape, p: Point) {
    match s
    case Rect(_, _, x, y, width, height) => x == p.x && y == p.y && width == 0.0 && height == 0.0
    case Circle(_, _, x, y, radius) => x == p.x && y == p.y && radius == 0.0
    case Line(_, _, x1, y1, x2, y2) => x1 == p.x && y1 == p.y && x2 == p.x && y2 == p.y
    case Pencil(_, _, points) => points == [p.x, p.y]
  }

  /** The shape a press with `tool` creates at `p`, if the tool creates any. */
  function NewShape(tool: Tool, id: int, p: Point): (r: Option<Shape>)
    ensures r.Some? <==> CreatesShape(tool)
    ensures r.Some? ==> r.value.id == id && r.value.style == DefaultStyle
    ensures r.Some? ==> Degenerate(r.value, p) && WellFormed(r.value)
    ensures r.Some? ==> (r.value.Rect? <==> tool.RectTool?) && (r.value.Circle? <==> tool.CircleTool?)
    ensures r.Some? ==> (r.value.Line? <==> tool.LineTool?) && (r.value.Pencil? <==> tool.PencilTool?)
  {
    match tool
    case RectTool => Some(Rect(id, DefaultStyle, p.x, p.y, 0.0, 0.0))
    case CircleTool => Some(Circle(id, DefaultStyle, p.x, p.y, 0.0))
    case LineTool => Some(Line(id, DefaultStyle, p.x, p.y, p.x, p.y))
    case PencilTool => Some(Pencil(id, DefaultStyle, [p.x, p.y]))
    case _ => None
  }
}
