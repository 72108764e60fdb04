/** What the pointer handlers of ShapeDrawingApp do to the shape list: the
    per-shape updates of handleMouseMove, the eraser's filter and the
    restyling map of updateStyle. */
module Gestures {
  import opened Shapes
  import opened HitTest

  // ---------------------------------------------------------------------
  // Drawing: the shape being drawn follows the pointer.
  // ---------------------------------------------------------------------

  /** The shape being drawn, stretched to the pointer `p`. A rectangle's far
      corner and a line's second endpoint go to `p`, a pencil stroke gains
      `p` as its last point, and a circle takes the radius `r`, which the
      caller computes as the distance from the centre to `p`. */
  function Drawn(s: Shape, p: Point, r: real): (t: Shape)
    ensures t.id == s.id && t.style == s.style && SameKind(s, t)
    ensures t.Rect? ==> t.x == s.x && t.y == s.y && t.x + t.width == p.x && t.y + t.height == p.y
    ensures t.Circle? ==> t.x == s.x && t.y == s.y && t.radius == r
    ensures t.Line? ==> t.x1 == s.x1 && t.y1 == s.y1 && t.x2 == p.x && t.y2 == p.y
    ensures t.Pencil? ==> |t.points| == |s.points| + 2 && t.points[..|s.points|] == s.points
    ensures t.Pencil? ==> t.points[|s.points|] == p.x && t.points[|s.points| + 1] == p.y
    ensures WellFormed(s) && r >= 0.0 ==> WellFormed(t)
  {
    match s
    case Rect(id, style, x, y, _, _) => Rect(id, style, x, y, p.x - x, p.y - y)
    case Circle(id, style, x, y, _) => Circle(id, style, x, y, r)
    case Line(id, style, x1, y1, _, _) => Line(id, style, x1, y1, p.x, p.y)
    case Pencil(id, style, points) => Pencil(id, style, points + [p.x, p.y])
  }

  /** A rectangle stretched to the pointer is hit there exactly when it was
      dragged right and down: dragged left or up, its width or height is
      negative and the hit test never finds it. */
  lemma DrawnRectHitAtPointer(dist: SegmentDistance, s: Shape, p: Point, r: real)
    requires s.Rect?
    ensures Contains(dist, Drawn(s, p, r), p) <==> s.x <= p.x && s.y <= p.y
    ensures p.x < s.x || p.y < s.y ==> forall q :: !Contains(dist, Drawn(s, p, r), q)
  {
  }

  /** A circle stretched to the pointer passes through it: it contains exactly
      the points no farther from its centre than the pointer. */
  lemma DrawnCircleThroughPointer(dist: SegmentDistance, s: Shape, p: Point, r: real, q: Point)
    requires s.Circle? && r >= 0.0
    requires r * r == (p.x - s.x) * (p.x - s.x) + (p.y - s.y) * (p.y - s.y)
    ensures Contains(dist, Drawn(s, p, r), p)
    ensures Contains(dist, Drawn(s, p, r), q) <==>
      (q.x - s.x) * (q.x - s.x) + (q.y - s.y) * (q.y - s.y) <= (p.x - s.x) * (p.x - s.x) + (p.y - s.y) * (p.y - s.y)
  {
  }

  // ---------------------------------------------------------------------
  // Moving: the selected shape follows the pointer.
  // ---------------------------------------------------------------------

  /** A flat coordinate list with `dx` added to every x and `dy` to every y. */
  function Translate(pts: seq<real>, dx: real, dy: real): (r: seq<real>)
    ensures |r| == |pts|
    ensures forall i :: 0 <= i < |pts| ==> r[i] - pts[i] == if i % 2 == 0 then dx else dy
  {
    seq(|pts|, i requires 0 <= i < |pts| => if i % 2 == 0 then pts[i] + dx else pts[i] + dy)
  }

  lemma TranslateZero(pts: seq<real>)
    ensures Translate(pts, 0.0, 0.0) == pts
  {
    assert forall i :: 0 <= i < |pts| ==> Translate(pts, 0.0, 0.0)[i] == pts[i];
  }

  lemma TranslateTwice(pts: seq<real>, dx1: real, dy1: real, dx2: real, dy2: real)
    ensures Translate(Translate(pts, dx1, dy1), dx2, dy2) == Translate(pts, dx1 + dx2, dy1 + dy2)
  {
    var a := Translate(Translate(pts, dx1, dy1), dx2, dy2);
    var b := Translate(pts, dx1 + dx2, dy1 + dy2);
    assert forall i :: 0 <= i < |pts| ==> a[i] == b[i];
  }

  /** The reference rigid translation of a shape by (dx, dy): every point of
      its geometry moves by the same displacement, nothing else changes. */
  function Translated(s: Shape, dx: real, dy: real): (t: Shape)
    ensures t.id == s.id && t.style == s.style && SameKind(s, t)
    ensures WellFormed(s) ==> WellFormed(t)
  {
    match s
    case Rect(id, style, x, y, width, height) => Rect(id, style, x + dx, y + dy, width, height)
    case Circle(id, style, x, y, radius) => Circle(id, style, x + dx, y + dy, radius)
    case Line(id, style, x1, y1, x2, y2) => Line(id, style, x1 + dx, y1 + dy, x2 + dx, y2 + dy)
    case Pencil(id, style, points) => Pencil(id, style, Translate(points, dx, dy))
  }

  lemma TranslatedTwice(s: Shape, dx1: real, dy1: real, dx2: real, dy2: real)
    ensures Translated(Translated(s, dx1, dy1), dx2, dy2) == Translated(s, dx1 + dx2, dy1 + dy2)
  {
    if s.Pencil? {
      TranslateTwice(s.points, dx1, dy1, dx2, dy2);
    }
  }

  /** The offset a press on `s` at `p` records: the pointer itself for a line
      or a pencil stroke, the pointer relative to the shape's position for a
      rectangle or a circle. */
  function GrabOffset(s: Shape, p: Point): (o: Point)
    ensures s.Line? || s.Pencil? ==> o == p
    ensures s.Rect? || s.Circle? ==> s.x + o.x == p.x && s.y + o.y == p.y
    ensures Moved(s, o, p) == s
  {
    if s.Line? || s.Pencil? then p else Point(p.x - s.x, p.y - s.y)
  }

  /** One move step of the selected shape to the pointer `p` with the
      recorded offset `off`: a rectangle or circle is placed at `p - off`, a
      line or stroke is shifted by `p - off` (`off` being the last pointer
      position). Either way the shape is translated rigidly. */
  function Moved(s: Shape, off: Point, p: Point): (t: Shape)
    ensures t.id == s.id && t.style == s.style && SameKind(s, t)
    ensures s.Rect? || s.Circle? ==> t.x == p.x - off.x && t.y == p.y - off.y
    ensures s.Rect? || s.Circle? ==> t == Translated(s, p.x - off.x - s.x, p.y - off.y - s.y)
    ensures s.Line? || s.Pencil? ==> t == Translated(s, p.x - off.x, p.y - off.y)
    ensures WellFormed(s) ==> WellFormed(t)
  {
    match s
    case Rect(id, style, _, _, width, height) => Rect(id, style, p.x - off.x, p.y - off.y, width, height)
    case Circle(id, style, _, _, radius) => Circle(id, style, p.x - off.x, p.y - off.y, radius)
    case Line(id, style, x1, y1, x2, y2) =>
      var dx, dy := p.x - off.x, p.y - off.y;
      Line(id, style, x1 + dx, y1 + dy, x2 + dx, y2 + dy)
    case Pencil(id, style, points) =>
      Pencil(id, style, Translate(points, p.x - off.x, p.y - off.y))
  }

  /** The offset after a move step: a line or stroke records the pointer, a
      rectangle or circle keeps its offset. */
  function NextOffset(s: Shape, off: Point, p: Point): (o: Point)
    ensures o == GrabOffset(Moved(s, off, p), p)
  {
    if s.Line? || s.Pencil? then p else off
  }

  /** Pressing on a shape at `p` and then moving the pointer to `q` translates
      the shape by exactly the pointer's displacement `q - p`. */
  lemma GrabThenMove(s: Shape, p: Point, q: Point)
    ensures Moved(s, GrabOffset(s, p), q) == Translated(s, q.x - p.x, q.y - p.y)
    ensures NextOffset(s, GrabOffset(s, p), q) == GrabOffset(Moved(s, GrabOffset(s, p), q), q)
  {
  }

  /** Moves compose: two move steps, to `p1` and then to `p2`, leave the shape
      and the offset exactly where one step straight to `p2` leaves them, so
      repeated incremental steps do not drift. */
  lemma {:induction false} MoveTwice(s: Shape, off: Point, p1: Point, p2: Point)
    ensures Moved(Moved(s, off, p1), NextOffset(s, off, p1), p2) == Moved(s, off, p2)
    ensures NextOffset(Moved(s, off, p1), NextOffset(s, off, p1), p2) == NextOffset(s, off, p2)
  {
    if s.Pencil? {
      TranslateTwice(s.points, p1.x - off.x, p1.y - off.y, p2.x - p1.x, p2.y - p1.y);
    }
  }

  // ---------------------------------------------------------------------
  // handleMouseMove's map over the shape list.
  // ---------------------------------------------------------------------

  /** What the map callback of handleMouseMove returns for `s`: only the
      selected shape changes; it is stretched while drawing and moved while
      moving with the select tool. */
  function Step(s: Shape, sel: Option<int>, mode: Mode, tool: Tool, off: Point, p: Point, r: real): (t: Shape)
    ensures t.id == s.id && t.style == s.style && SameKind(s, t)
    ensures sel != Some(s.id) || mode == Idle ==> t == s
    ensures sel == Some(s.id) && mode == Draw ==> t == Drawn(s, p, r)
    ensures sel == Some(s.id) && mode == Move && tool == SelectTool ==> t == Moved(s, off, p)
    ensures mode == Move && tool != SelectTool ==> t == s
    ensures WellFormed(s) && r >= 0.0 ==> WellFormed(t)
  {
    if sel != Some(s.id) then s
    else if mode == Draw then Drawn(s, p, r)
    else if mode == Move && tool == SelectTool then Moved(s, off, p)
    else s
  }

  /** `shapes.map(...)` of handleMouseMove. */
  function Dragged(shapes: seq<Shape>, sel: Option<int>, mode: Mode, tool: Tool, off: Point, p: Point, r: real): (res: seq<Shape>)
    ensures |res| == |shapes|
    ensures forall i :: 0 <= i < |shapes| ==> res[i].id == shapes[i].id && res[i].style == shapes[i].style && SameKind(res[i], shapes[i])
    ensures forall i :: 0 <= i < |shapes| && sel != Some(shapes[i].id) ==> res[i] == shapes[i]
    ensures forall i :: 0 <= i < |shapes| && sel == Some(shapes[i].id) && mode == Draw ==> res[i] == Drawn(shapes[i], p, r)
    ensures forall i :: 0 <= i < |shapes| && sel == Some(shapes[i].id) && mode == Move && tool == SelectTool ==> res[i] == Moved(shapes[i], off, p)
    ensures mode == Idle || (mode == Move && tool != SelectTool) ==> res == shapes
    ensures UniqueIds(shapes) ==> UniqueIds(res)
    ensures AllWellFormed(shapes) && r >= 0.0 ==> AllWellFormed(res)
  {
    seq(|shapes|, i requires 0 <= i < |shapes| => Step(shapes[i], sel, mode, tool, off, p, r))
  }

  /** The map callback calls setOffset with the pointer for the selected line
      or stroke in a select-tool move. */
  predicate ResetsOffset(s: Shape, sel: Option<int>, mode: Mode, tool: Tool) {
    sel == Some(s.id) && mode == Move && tool == SelectTool && (s.Line? || s.Pencil?)
  }

  /** The offset after handleMouseMove: the pointer if the callback called
      setOffset for some shape, the old offset otherwise. */
  function DragOffset(shapes: seq<Shape>, sel: Option<int>, mode: Mode, tool: Tool, off: Point, p: Point): (o: Point)
    ensures mode != Move || tool != SelectTool || sel.None? || FreshId(shapes, sel.value) ==> o == off
    ensures UniqueIds(shapes) && mode == Move && tool == SelectTool ==>
      forall k :: 0 <= k < |shapes| && sel == Some(shapes[k].id) ==> o == NextOffset(shapes[k], off, p)
  {
    if exists i | 0 <= i < |shapes| :: ResetsOffset(shapes[i], sel, mode, tool) then p else off
  }

  /** Two select-tool move events in a row leave the drawing and the offset as
      one move event straight to the second pointer position would. */
  lemma MovesCompose(shapes: seq<Shape>, id: int, off: Point, p1: Point, p2: Point)
    requires UniqueIds(shapes)
    ensures
      var sel := Some(id);
      var s1 := Dragged(shapes, sel, Move, SelectTool, off, p1, 0.0);
      var o1 := DragOffset(shapes, sel, Move, SelectTool, off, p1);
      Dragged(s1, sel, Move, SelectTool, o1, p2, 0.0) == Dragged(shapes, sel, Move, SelectTool, off, p2, 0.0) &&
      DragOffset(s1, sel, Move, SelectTool, o1, p2) == DragOffset(shapes, sel, Move, SelectTool, off, p2)
  {
    var sel := Some(id);
    var s1 := Dragged(shapes, sel, Move, SelectTool, off, p1, 0.0);
    var o1 := DragOffset(shapes, sel, Move, SelectTool, off, p1);
    var a := Dragged(s1, sel, Move, SelectTool, o1, p2, 0.0);
    var b := Dragged(shapes, sel, Move, SelectTool, off, p2, 0.0);
    forall i | 0 <= i < |shapes|
      ensures a[i] == b[i]
    {
      if shapes[i].id == id {
        assert o1 == NextOffset(shapes[i], off, p1) by {
          if shapes[i].Line? || shapes[i].Pencil? {
            assert ResetsOffset(shapes[i], sel, Move, SelectTool);
          } else {
            forall j | 0 <= j < |shapes|
              ensures !ResetsOffset(shapes[j], sel, Move, SelectTool)
            {
              if j != i {
                assert shapes[j].id != shapes[i].id;
              }
            }
          }
        }
        MoveTwice(shapes[i], off, p1, p2);
      }
    }
    assert a == b;
    assert forall j :: 0 <= j < |shapes| ==>
      (ResetsOffset(s1[j], sel, Move, SelectTool) <==> ResetsOffset(shapes[j], sel, Move, SelectTool));
  }

  // ---------------------------------------------------------------------
  // The eraser: `prev.filter((s) => s.id !== hit.id)`.
  // ---------------------------------------------------------------------

  /** The shapes whose id is not `id`, in their original order. */
  function Without(shapes: seq<Shape>, id: int): (r: seq<Shape>)
    ensures |r| <= |shapes| && FreshId(r, id)
  {
    if |shapes| == 0 then []
    else
      var rest := Without(shapes[1..], id);
      if shapes[0].id == id then rest else [shapes[0]] + rest
  }

  /** The filter keeps exactly the shapes whose id is not `id`. */
  lemma {:induction false} WithoutMembers(shapes: seq<Shape>, id: int)
    ensures forall s :: s in Without(shapes, id) <==> s in shapes && s.id != id
  {
    if |shapes| > 0 {
      WithoutMembers(shapes[1..], id);
      assert shapes == [shapes[0]] + shapes[1..];
    }
  }

  /** The filter keeps the class invariant: unique ids and well-formed
      geometry. */
  lemma {:induction false} WithoutKeepsInvariant(shapes: seq<Shape>, id: int)
    requires UniqueIds(shapes) && AllWellFormed(shapes)
    ensures UniqueIds(Without(shapes, id)) && AllWellFormed(Without(shapes, id))
  {
    if |shapes| > 0 {
      var tail := shapes[1..];
      assert UniqueIds(tail) by {
        forall i, j | 0 <= i < j < |tail| ensures tail[i].id != tail[j].id {
          assert tail[i] == shapes[i + 1] && tail[j] == shapes[j + 1];
        }
      }
      assert AllWellFormed(tail) by {
        forall i | 0 <= i < |tail| ensures WellFormed(tail[i]) {
          assert tail[i] == shapes[i + 1];
        }
      }
      WithoutKeepsInvariant(tail, id);
      WithoutMembers(tail, id);
      var rest := Without(tail, id);
      if shapes[0].id != id {
        var r := [shapes[0]] + rest;
        forall i, j | 0 <= i < j < |r| ensures r[i].id != r[j].id {
          if i == 0 {
            assert r[j] in rest;
            assert r[j] in tail;
            var m :| 0 <= m < |tail| && tail[m] == r[j];
            assert tail[m] == shapes[m + 1];
          } else {
            assert r[i] == rest[i - 1] && r[j] == rest[j - 1];
          }
        }
        forall i | 0 <= i < |r| ensures WellFormed(r[i]) {
          if i > 0 {
            assert r[i] == rest[i - 1];
          }
        }
      }
    }
  }

  /** The filter distributes over concatenation, so it keeps the relative
      order of the shapes it keeps. */
  lemma {:induction false} WithoutAppend(a: seq<Shape>, b: seq<Shape>, id: int)
    ensures Without(a + b, id) == Without(a, id) + Without(b, id)
  {
    if |a| == 0 {
      assert a + b == b;
    } else {
      assert (a + b)[1..] == a[1..] + b;
      WithoutAppend(a[1..], b, id);
    }
  }

  /** Filtering out an id nobody carries changes nothing. */
  lemma {:induction false} WithoutAbsent(shapes: seq<Shape>, id: int)
    requires FreshId(shapes, id)
    ensures Without(shapes, id) == shapes
  {
    if |shapes| > 0 {
      WithoutAbsent(shapes[1..], id);
    }
  }

  /** With unique ids, erasing the shape at position `k` removes exactly that
      shape and keeps every other one, in order. */
  lemma WithoutExactlyOne(shapes: seq<Shape>, k: nat)
    requires UniqueIds(shapes) && k < |shapes|
    ensures Without(shapes, shapes[k].id) == shapes[..k] + shapes[k + 1..]
  {
    var before, after := shapes[..k], shapes[k + 1..];
    assert shapes == before + [shapes[k]] + after;
    FreshBefore(shapes, k);
    FreshAfter(shapes, k);
    WithoutSplit(before, shapes[k], after);
  }

  /** Filtering the id of `x` out of `before + [x] + after`, where nothing
      else carries that id, leaves `before + after`. */
  lemma WithoutSplit(before: seq<Shape>, x: Shape, after: seq<Shape>)
    requires FreshId(before, x.id) && FreshId(after, x.id)
    ensures Without(before + [x] + after, x.id) == before + after
  {
    var id := x.id;
    assert Without([x], id) == [] by {
      assert [x][1..] == [];
    }
    calc {
      Without(before + [x] + after, id);
      { WithoutAppend(before + [x], after, id); }
      Without(before + [x], id) + Without(after, id);
      { WithoutAppend(before, [x], id); }
      Without(before, id) + Without([x], id) + Without(after, id);
      { WithoutAbsent(before, id); WithoutAbsent(after, id); }
      before + [] + after;
      { assert before + [] == before; }
      before + after;
    }
  }

  lemma FreshBefore(shapes: seq<Shape>, k: nat)
    requires UniqueIds(shapes) && k < |shapes|
    ensures FreshId(shapes[..k], shapes[k].id)
  {
    forall i | 0 <= i < k ensures shapes[..k][i].id != shapes[k].id {
      assert shapes[..k][i] == shapes[i];
    }
  }

  lemma FreshAfter(shapes: seq<Shape>, k: nat)
    requires UniqueIds(shapes) && k < |shapes|
    ensures FreshId(shapes[k + 1..], shapes[k].id)
  {
    var after := shapes[k + 1..];
    forall i | 0 <= i < |after| ensures after[i].id != shapes[k].id {
      assert after[i] == shapes[k + 1 + i];
    }
  }

  // ---------------------------------------------------------------------
  // updateStyle: `prev.map((s) => (s.id === selectedId ? { ...s, [prop]: value } : s))`.
  // ---------------------------------------------------------------------

  /** The four style controls: line colour, fill colour, stroke width and the
      dash toggle. */
  datatype StyleEdit =
    | SetStroke(color: string)
    | SetFill(color: string)
    | SetStrokeWidth(width: int)
    | SetDash(pattern: seq<int>)

  /** `{ ...style, [prop]: value }`: the edited property takes the new value,
      the other three keep theirs. */
  function Restyled(st: Style, e: StyleEdit): (r: Style)
    ensures r.stroke == if e.SetStroke? then e.color else st.stroke
    ensures r.fill == if e.SetFill? then e.color else st.fill
    ensures r.strokeWidth == if e.SetStrokeWidth? then e.width else st.strokeWidth
    ensures r.dash == if e.SetDash? then e.pattern else st.dash
  {
    match e
    case SetStroke(c) => st.(stroke := c)
    case SetFill(c) => st.(fill := c)
    case SetStrokeWidth(w) => st.(strokeWidth := w)
    case SetDash(d) => st.(dash := d)
  }

  /** The shape list with edit `e` applied to the shapes carrying `id`. Only
      their style changes: length, order, variant and geometry stay. */
  function Restyle(shapes: seq<Shape>, id: int, e: StyleEdit): (r: seq<Shape>)
    ensures |r| == |shapes|
    ensures forall i :: 0 <= i < |shapes| ==> r[i].(style := shapes[i].style) == shapes[i]
    ensures forall i :: 0 <= i < |shapes| && shapes[i].id != id ==> r[i] == shapes[i]
    ensures forall i :: 0 <= i < |shapes| && shapes[i].id == id ==> r[i].style == Restyled(shapes[i].style, e)
    ensures UniqueIds(shapes) ==> UniqueIds(r)
    ensures AllWellFormed(shapes) ==> AllWellFormed(r)
  {
    seq(|shapes|, i requires 0 <= i < |shapes| =>
      if shapes[i].id == id then shapes[i].(style := Restyled(shapes[i].style, e)) else shapes[i])
  }

  /** Applying the same style edit twice is the same as applying it once. */
  lemma RestyleIdempotent(shapes: seq<Shape>, id: int, e: StyleEdit)
    ensures Restyle(Restyle(shapes, id, e), id, e) == Restyle(shapes, id, e)
  {
    var once := Restyle(shapes, id, e);
    var twice := Restyle(once, id, e);
    forall i | 0 <= i < |shapes|
      ensures twice[i] == once[i]
    {
      if shapes[i].id == id {
        assert twice[i].style == once[i].style;
        assert twice[i].(style := once[i].style) == once[i];
      }
    }
  }

  /** Style does not affect hit testing, so restyling changes no later hit. */
  lemma RestyleKeepsHits(dist: SegmentDistance, shapes: seq<Shape>, id: int, e: StyleEdit, q: Point)
    ensures FindIndex(dist, Restyle(shapes, id, e), q) == FindIndex(dist, shapes, q)
  {
    var r := Restyle(shapes, id, e);
    forall i | 0 <= i < |shapes|
      ensures Contains(dist, r[i], q) == Contains(dist, shapes[i], q)
    {
      assert r[i].(style := shapes[i].style) == shapes[i];
    }
    FindIndexOnlyHits(dist, r, shapes, q);
  }
}
