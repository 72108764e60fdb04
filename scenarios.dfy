/** Gestures on ShapeDrawingApp worked through from the handlers' contracts
    alone. */
module Scenarios {
  import opened Shapes
  import opened HitTest
  import opened Gestures
  import opened Canvas

  /** Press at (10, 10) with the rectangle tool, drag to (50, 40), release:
      one rectangle with origin (10, 10), width 40 and height 30. */
  method DrawRectangle(dist: SegmentDistance) {
    var app := new ShapeDrawingApp(dist);
    app.HandleMouseDown(Point(10.0, 10.0), 1);
    assert app.shapes == [Rect(1, DefaultStyle, 10.0, 10.0, 0.0, 0.0)];
    app.HandleMouseMove(Point(50.0, 40.0), 0.0);
    app.HandleMouseUp();
    assert app.shapes == [Rect(1, DefaultStyle, 10.0, 10.0, 40.0, 30.0)];
    assert app.selectedId == Some(1) && app.mode == Idle;
  }

  /** Press at (100, 100) with the circle tool and drag to (103, 104): the
      radius is 5, the 3-4-5 triangle's hypotenuse. */
  method DrawCircle(dist: SegmentDistance) {
    var app := new ShapeDrawingApp(dist);
    app.SetTool(CircleTool);
    app.HandleMouseDown(Point(100.0, 100.0), 7);
    assert app.shapes == [Circle(7, DefaultStyle, 100.0, 100.0, 0.0)];
    app.HandleMouseMove(Point(103.0, 104.0), 5.0);
    assert app.shapes == [Circle(7, DefaultStyle, 100.0, 100.0, 5.0)];
  }

  /** With the select tool, a press at (25, 25) grabs the rectangle at
      (10, 10) of size 40 x 30 and records the offset (15, 15). */
  method GrabRectangle(app: ShapeDrawingApp)
    requires app.Valid() && app.tool == SelectTool
    requires app.shapes == [Rect(1, DefaultStyle, 10.0, 10.0, 40.0, 30.0)]
    modifies app
  {
    assert Contains(app.dist, app.shapes[0], Point(25.0, 25.0));
    app.HandleMouseDown(Point(25.0, 25.0), 2);
    assert app.mode == Move && app.offset == Point(15.0, 15.0) && app.selectedId == Some(1);
  }

  /** Two drags of the grabbed rectangle move it by the pointer's total
      displacement from the press, (15, 25). */
  method MoveRectangle(app: ShapeDrawingApp)
    requires app.Valid() && app.tool == SelectTool && app.mode == Move
    requires app.offset == Point(15.0, 15.0) && app.selectedId == Some(1)
    requires app.shapes == [Rect(1, DefaultStyle, 10.0, 10.0, 40.0, 30.0)]
    modifies app
  {
    app.HandleMouseMove(Point(35.0, 45.0), 0.0);
    assert app.shapes == [Rect(1, DefaultStyle, 20.0, 30.0, 40.0, 30.0)];
    assert app.offset == Point(15.0, 15.0);
    app.HandleMouseMove(Point(40.0, 50.0), 0.0);
    assert app.shapes == [Rect(1, DefaultStyle, 25.0, 35.0, 40.0, 30.0)];
  }

  /** A select-tool press at (5, 5) misses the rectangle: no shape is added,
      yet the fresh id is selected and a draw gesture starts. */
  method PressOnNothing(app: ShapeDrawingApp)
    requires app.Valid() && app.tool == SelectTool
    requires app.shapes == [Rect(1, DefaultStyle, 10.0, 10.0, 40.0, 30.0)]
    modifies app
  {
    assert !Contains(app.dist, app.shapes[0], Point(5.0, 5.0));
    app.HandleMouseDown(Point(5.0, 5.0), 3);
    assert app.shapes == [Rect(1, DefaultStyle, 10.0, 10.0, 40.0, 30.0)];
    assert app.selectedId == Some(3) && app.mode == Draw;
  }

  /** The eraser removes the shape under the pointer, keeps the other and
      clears the selection. */
  method Erase(app: ShapeDrawingApp)
    requires app.Valid() && app.tool == EraserTool
    requires app.shapes == [Rect(1, DefaultStyle, 0.0, 0.0, 10.0, 10.0), Rect(2, DefaultStyle, 20.0, 20.0, 10.0, 10.0)]
    modifies app
  {
    assert !Contains(app.dist, app.shapes[0], Point(25.0, 25.0));
    assert Contains(app.dist, app.shapes[1], Point(25.0, 25.0));
    app.HandleMouseDown(Point(25.0, 25.0), 3);
    assert app.shapes == [Rect(1, DefaultStyle, 0.0, 0.0, 10.0, 10.0)];
    assert app.selectedId == None;
  }

  /** A style edit reaches only the selected shape. */
  method RestyleSelected(app: ShapeDrawingApp)
    requires app.Valid() && app.selectedId == Some(2)
    requires app.shapes == [Rect(1, DefaultStyle, 0.0, 0.0, 10.0, 10.0), Rect(2, DefaultStyle, 20.0, 20.0, 10.0, 10.0)]
    modifies app
  {
    app.UpdateStyle(SetStroke("red"));
    assert app.shapes[1] == Rect(2, DefaultStyle.(stroke := "red"), 20.0, 20.0, 10.0, 10.0);
    assert app.shapes[0] == Rect(1, DefaultStyle, 0.0, 0.0, 10.0, 10.0);
  }
}
