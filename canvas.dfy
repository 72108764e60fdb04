/** The component state of ShapeDrawingApp and its event handlers. */
module Canvas {
  import opened Shapes
  import opened HitTest
  import opened Gestures

  /** The state hooks of ShapeDrawingApp. Each handler reads the state as it
      was when the event arrived and assigns the new values at its end, as
      React applies the queued `set...` calls after the handler returns. */
  class ShapeDrawingApp {
    var shapes: seq<Shape>
    var tool: Tool
    var startPoint: Option<Point>
    var selectedId: Option<int>
    var mode: Mode
    var offset: Point

    /** `distanceFromLineSegment`, imported from the helper module. */
    const dist: SegmentDistance

    /** Shape ids are unique, circles have a non-negative radius and every
        pencil stroke holds at least one whole point. */
    predicate Valid()
      reads this
    {
      UniqueIds(shapes) && AllWellFormed(shapes)
    }

    /** The initial state: no shapes, the rectangle tool, no gesture. */
    constructor (dist: SegmentDistance)
      ensures Valid() && this.dist == dist
      ensures shapes == [] && tool == RectTool && startPoint == None
      ensures selectedId == None && mode == Idle && offset == Point(0.0, 0.0)
    {
      this.dist := dist;
      shapes := [];
      tool := RectTool;
      startPoint := None;
      selectedId := None;
      mode := Idle;
      offset := Point(0.0, 0.0);
    }

    /** handleMouseDown at pointer `p`. `freshId` is the `Date.now()` value the
        handler takes as the id of a shape it creates.
        - eraser on a hit: the hit shape is filtered out, the selection cleared;
        - other tool on a hit: the shape is selected; with the select tool a
          move starts, recording the grab offset;
        - no hit: the creation tools append a zero-sized shape at `p`; with
          every tool the fresh id is selected and a draw gesture starts. */
    method HandleMouseDown(p: Point, freshId: int)
      requires Valid() && FreshId(shapes, freshId)
      modifies this
      ensures Valid() && tool == old(tool)
      ensures var hit := FindIndex(dist, old(shapes), p);
        old(tool) == EraserTool && hit.Some? ==>
          shapes == Without(old(shapes), old(shapes)[hit.value].id) &&
          shapes == old(shapes)[..hit.value] + old(shapes)[hit.value + 1..] &&
          selectedId == None &&
          mode == old(mode) && offset == old(offset) && startPoint == old(startPoint)
      ensures var hit := FindIndex(dist, old(shapes), p);
        old(tool) != EraserTool && hit.Some? ==>
          shapes == old(shapes) && selectedId == Some(old(shapes)[hit.value].id) &&
          startPoint == old(startPoint) &&
          (old(tool) == SelectTool ==> mode == Move && offset == GrabOffset(old(shapes)[hit.value], p)) &&
          (old(tool) != SelectTool ==> mode == old(mode) && offset == old(offset))
      ensures FindIndex(dist, old(shapes), p).None? ==>
          var created := NewShape(old(tool), freshId, p);
          shapes == (if created.Some? then old(shapes) + [created.value] else old(shapes)) &&
          selectedId == Some(freshId) && startPoint == Some(p) && mode == Draw &&
          offset == old(offset)
    {
      var hit := FindHit(dist, shapes, p);
      if tool == EraserTool && hit.Some? {
        WithoutExactlyOne(shapes, FindIndex(dist, shapes, p).value);
        WithoutKeepsInvariant(shapes, hit.value.id);
        shapes := Without(shapes, hit.value.id);
        selectedId := None;
        return;
      }
      if hit.Some? {
        selectedId := Some(hit.value.id);
        if tool == SelectTool {
          mode := Move;
          if hit.value.Line? || hit.value.Pencil? {
            offset := p;
          } else {
            offset := Point(p.x - hit.value.x, p.y - hit.value.y);
          }
        }
      } else {
        var created := NewShape(tool, freshId, p);
        if created.Some? {
          shapes := shapes + [created.value];
        }
        selectedId := Some(freshId);
        startPoint := Some(p);
        mode := Draw;
      }
    }

    /** handleMouseMove at pointer `p`. `r` is the value of
        `Math.sqrt(dx * dx + dy * dy)` for the selected circle being drawn,
        (dx, dy) being the pointer relative to its centre. With no gesture
        nothing changes; otherwise only the selected shape changes, and the
        offset becomes the pointer when a select-tool move shifts a line or a
        stroke. The map reads the offset of the event's start throughout. */
    method HandleMouseMove(p: Point, r: real)
      requires Valid() && r >= 0.0
      requires mode == Draw ==> forall i :: 0 <= i < |shapes| && selectedId == Some(shapes[i].id) && shapes[i].Circle? ==>
        r * r == (p.x - shapes[i].x) * (p.x - shapes[i].x) + (p.y - shapes[i].y) * (p.y - shapes[i].y)
      modifies this
      ensures Valid()
      ensures tool == old(tool) && selectedId == old(selectedId) && mode == old(mode) && startPoint == old(startPoint)
      ensures old(mode) == Idle ==> shapes == old(shapes) && offset == old(offset)
      ensures shapes == Dragged(old(shapes), selectedId, mode, tool, old(offset), p, r)
      ensures offset == DragOffset(old(shapes), selectedId, mode, tool, old(offset), p)
      ensures mode == Draw ==> forall i :: 0 <= i < |shapes| && selectedId == Some(shapes[i].id) && shapes[i].Circle? ==>
        shapes[i].radius >= 0.0 &&
        shapes[i].radius * shapes[i].radius == (p.x - shapes[i].x) * (p.x - shapes[i].x) + (p.y - shapes[i].y) * (p.y - shapes[i].y)
    {
      if mode == Idle {
        return;
      }
      var updated: seq<Shape> := [];
      var nextOffset := offset;
      var i := 0;
      while i < |shapes|
        invariant 0 <= i <= |shapes| && |updated| == i
        invariant forall j :: 0 <= j < i ==> updated[j] == Step(shapes[j], selectedId, mode, tool, offset, p, r)
        invariant nextOffset == if exists j | 0 <= j < i :: ResetsOffset(shapes[j], selectedId, mode, tool) then p else offset
      {
        var s := shapes[i];
        var t := s;
        if selectedId == Some(s.id) {
          if mode == Draw {
            t := Drawn(s, p, r);
          } else if mode == Move && tool == SelectTool {
            t := Moved(s, offset, p);
            if s.Line? || s.Pencil? {
              nextOffset := p;
            }
          }
        }
        assert ResetsOffset(s, selectedId, mode, tool) ==> nextOffset == p;
        updated := updated + [t];
        i := i + 1;
      }
      shapes := updated;
      offset := nextOffset;
    }

    /** handleMouseUp: the gesture ends; the shapes and the selection stay. */
    method HandleMouseUp()
      requires Valid()
      modifies this
      ensures Valid()
      ensures mode == Idle && startPoint == None
      ensures shapes == old(shapes) && selectedId == old(selectedId) && tool == old(tool) && offset == old(offset)
    {
      startPoint := None;
      mode := Idle;
    }

    /** updateStyle: with a selection, every shape carrying the selected id
        gets the edited property; without one nothing changes. */
    method UpdateStyle(e: StyleEdit)
      requires Valid()
      modifies this
      ensures Valid()
      ensures old(selectedId) == None ==> shapes == old(shapes)
      ensures old(selectedId).Some? ==> shapes == Restyle(old(shapes), old(selectedId).value, e)
      ensures tool == old(tool) && selectedId == old(selectedId) && mode == old(mode)
      ensures offset == old(offset) && startPoint == old(startPoint)
    {
      if selectedId == None {
        return;
      }
      shapes := Restyle(shapes, selectedId.value, e);
    }

    /** setTool: the tool is replaced; nothing else changes. */
    method SetTool(t: Tool)
      requires Valid()
      modifies this
      ensures Valid()
      ensures tool == t
      ensures shapes == old(shapes) && selectedId == old(selectedId) && mode == old(mode)
      ensures offset == old(offset) && startPoint == old(startPoint)
    {
      tool := t;
    }
  }
}
