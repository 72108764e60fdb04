/** The hit test of ShapeDrawingApp.handleMouseDown: which shape, if any, lies
    under the pointer. */
module HitTest {
  import opened Shapes

  /** How close, in pixels, the pointer must come to a line or a pencil
      segment to hit it. */
  const Tolerance: real := 5.0

  /** `distanceFromLineSegment(px, py, x1, y1, x2, y2)`: the distance from the
      point (px, py) to the segment from (x1, y1) to (x2, y2), here taking the
      three points as points. Its definition is not part of this model; all
      that is assumed is that a distance is never negative. */
  type SegmentDistance = f: (Point, Point, Point) -> real
    | forall q, a, b :: f(q, a, b) >= 0.0
    witness ZeroDistance

  /** The distance that deems every point to lie on every segment. */
  function ZeroDistance(q: Point, a: Point, b: Point): real {
    0.0
  }

  /** The pointer is within tolerance of the segment (x1, y1)-(x2, y2). */
  predicate Near(dist: SegmentDistance, q: Point, x1: real, y1: real, x2: real, y2: real) {
    dist(q, Point(x1, y1), Point(x2, y2)) <= Tolerance
  }

  /** The pointer is within tolerance of the k-th segment of a stroke, the one
      from point k to point k + 1. A segment whose end point is missing from
      the list (an odd-length list) is never near. */
  predicate SegmentNear(dist: SegmentDistance, pts: seq<real>, k: nat, q: Point) {
    2 * k + 3 < |pts| && Near(dist, q, pts[2 * k], pts[2 * k + 1], pts[2 * k + 2], pts[2 * k + 3])
  }

  /** The pointer is within tolerance of some consecutive pair of a stroke. */
  predicate StrokeNear(dist: SegmentDistance, pts: seq<real>, q: Point) {
    exists k: nat | k < |pts| :: SegmentNear(dist, pts, k, q)
  }

  /** The geometry of `s` contains the pointer `q`. A rectangle's bounds are
      taken as stored, so one with a negative width or height contains no
      point. A circle contains `q` when the distance from its centre is at
      most its radius, that is when the radius is non-negative and the
      squared distance is at most the squared radius. */
  predicate Contains(dist: SegmentDistance, s: Shape, q: Point)
    ensures Contains(dist, s, q) && s.Rect? ==> s.width >= 0.0 && s.height >= 0.0
    ensures Contains(dist, s, q) && s.Circle? ==> s.radius >= 0.0
    ensures s.Pencil? && |s.points| <= 2 ==> !Contains(dist, s, q)
  {
    match s
    case Rect(_, _, x, y, width, height) =>
      x <= q.x <= x + width && y <= q.y <= y + height
    case Circle(_, _, x, y, radius) =>
      radius >= 0.0 && (q.x - x) * (q.x - x) + (q.y - y) * (q.y - y) <= radius * radius
    case Line(_, _, x1, y1, x2, y2) =>
      Near(dist, q, x1, y1, x2, y2)
    case Pencil(_, _, points) =>
      StrokeNear(dist, points, q)
  }

  /** The position of the first shape, in storage order, that contains `q`. */
  function FindIndex(dist: SegmentDistance, shapes: seq<Shape>, q: Point): (r: Option<nat>)
    ensures r.Some? ==> r.value < |shapes| && Contains(dist, shapes[r.value], q)
    ensures r.Some? ==> forall j :: 0 <= j < r.value ==> !Contains(dist, shapes[j], q)
    ensures r.None? <==> forall j :: 0 <= j < |shapes| ==> !Contains(dist, shapes[j], q)
  {
    if |shapes| == 0 then None
    else if Contains(dist, shapes[0], q) then Some(0)
    else match FindIndex(dist, shapes[1..], q)
      case None => None
      case Some(k) => Some(k + 1)
  }

  /** `shapes.find(...)`: the first shape, in storage order, under `q`. */
  function Find(dist: SegmentDistance, shapes: seq<Shape>, q: Point): (r: Option<Shape>)
    ensures r.Some? ==> r.value in shapes && Contains(dist, r.value, q)
    ensures r.Some? ==> exists i | 0 <= i < |shapes| :: shapes[i] == r.value && forall j :: 0 <= j < i ==> !Contains(dist, shapes[j], q)
    ensures r.None? <==> forall j :: 0 <= j < |shapes| ==> !Contains(dist, shapes[j], q)
  {
    match FindIndex(dist, shapes, q)
    case None => None
    case Some(i) => Some(shapes[i])
  }

  /** The first match wins: when two shapes overlap at `q`, the one stored
      first is found, even though the one stored later is painted on top. */
  lemma {:induction false} FirstMatchWins(dist: SegmentDistance, shapes: seq<Shape>, q: Point, i: nat, j: nat)
    requires i < j < |shapes|
    requires Contains(dist, shapes[i], q) && Contains(dist, shapes[j], q)
    ensures FindIndex(dist, shapes, q).Some? && FindIndex(dist, shapes, q).value <= i < j
  {
  }

  /** The hit test looks only at which shapes contain the point: two drawings
      that agree on that, position by position, give the same answer. */
  lemma FindIndexOnlyHits(dist: SegmentDistance, a: seq<Shape>, b: seq<Shape>, q: Point)
    requires |a| == |b|
    requires forall i :: 0 <= i < |a| ==> Contains(dist, a[i], q) == Contains(dist, b[i], q)
    ensures FindIndex(dist, a, q) == FindIndex(dist, b, q)
  {
  }

  /** A shape just created by a press is degenerate: a new rectangle is hit
      at its anchor and nowhere else, a new circle (radius 0) is hit at its
      anchor, a new pencil stroke (a single point) is hit nowhere. */
  lemma NewShapeHits(dist: SegmentDistance, tool: Tool, id: int, p: Point, q: Point)
    requires CreatesShape(tool)
    ensures tool.RectTool? ==> (Contains(dist, NewShape(tool, id, p).value, q) <==> q == p)
    ensures tool.CircleTool? ==> Contains(dist, NewShape(tool, id, p).value, p)
    ensures tool.PencilTool? ==> !Contains(dist, NewShape(tool, id, p).value, q)
  {
  }

  /** The pencil branch of the hit test: the loop over consecutive point
      pairs, stepping two coordinates at a time. */
  method StrokeHit(dist: SegmentDistance, pts: seq<real>, q: Point) returns (hit: bool)
    ensures hit == StrokeNear(dist, pts, q)
  {
    var i := 0;
    while i < |pts| - 2
      invariant 0 <= i <= |pts| && i % 2 == 0
      invariant forall k: nat :: 2 * k < i ==> !SegmentNear(dist, pts, k, q)
    {
      if i + 3 < |pts| && dist(q, Point(pts[i], pts[i + 1]), Point(pts[i + 2], pts[i + 3])) <= Tolerance {
        assert SegmentNear(dist, pts, i / 2, q);
        return true;
      }
      i := i + 2;
    }
    return false;
  }

  /** The callback given to `shapes.find`: does `s` lie under `q`? This is
      the executable form of `Contains`; the pencil branch runs the loop of
      `StrokeHit`. */
  method ShapeHit(dist: SegmentDistance, s: Shape, q: Point) returns (hit: bool)
    ensures hit == Contains(dist, s, q)
  {
    match s
    case Rect(_, _, x, y, width, height) =>
      hit := q.x >= x && q.x <= x + width && q.y >= y && q.y <= y + height;
    case Circle(_, _, x, y, radius) =>
      hit := radius >= 0.0 && (q.x - x) * (q.x - x) + (q.y - y) * (q.y - y) <= radius * radius;
    case Line(_, _, x1, y1, x2, y2) =>
      hit := dist(q, Point(x1, y1), Point(x2, y2)) <= Tolerance;
    case Pencil(_, _, points) =>
      hit := StrokeHit(dist, points, q);
  }

  /** `shapes.find(...)` run over the drawing. */
  method FindHit(dist: SegmentDistance, shapes: seq<Shape>, q: Point) returns (hit: Option<Shape>)
    ensures hit == Find(dist, shapes, q)
  {
    var i := 0;
    while i < |shapes|
      invariant 0 <= i <= |shapes|
      invariant forall j :: 0 <= j < i ==> !Contains(dist, shapes[j], q)
    {
      var h := ShapeHit(dist, shapes[i], q);
      if h {
        return Some(shapes[i]);
      }
      i := i + 1;
    }
    return None;
  }
}
