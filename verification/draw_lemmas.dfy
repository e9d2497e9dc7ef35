/** Properties of whole gestures and input traces of the drawing state
    machine: what a drag commits, how freehand segments chain, how panning
    accumulates, and how every local append is matched by one envelope. */
module DrawLemmas {
  import opened Options
  import opened Draw

  /** The mouse-move events for a sequence of pointer positions. */
  function Moves(ps: seq<Point>): (es: seq<Event>)
    ensures |es| == |ps|
    ensures forall k :: 0 <= k < |ps| ==> es[k] == MouseMove(ps[k])
  {
    seq(|ps|, k requires 0 <= k < |ps| => MouseMove(ps[k]))
  }

  /** Events handled locally: everything except socket messages and the
      history fetch. */
  predicate IsLocal(e: Event) {
    !e.SocketMessage? && !e.HistoryLoaded?
  }

  /** The shapes received from the socket in a trace, in arrival order. */
  function Received(es: seq<Event>): seq<Shape>
    decreases |es|
  {
    if es == [] then []
    else Delivered(es[0]) + Received(es[1..])
  }

  /** The shape a socket message delivers to the list, if any. */
  function Delivered(e: Event): seq<Shape> {
    if e.SocketMessage? && e.msg.msgType == "chat" && e.msg.shape.Some? then [e.msg.shape.value] else []
  }

  /** The tool chosen by the last tool selection of a trace, if any. */
  function LastSelected(es: seq<Event>): Option<Tool>
    decreases |es|
  {
    if es == [] then None
    else
      match LastSelected(es[1..])
      case Some(t) => Some(t)
      case None => if es[0].SelectTool? then Some(es[0].tool) else None
  }

  /** Whether the last mouse-down or mouse-up of a trace was a mouse-down. */
  function LastPressed(es: seq<Event>): Option<bool>
    decreases |es|
  {
    if es == [] then None
    else
      match LastPressed(es[1..])
      case Some(b) => Some(b)
      case None =>
        if es[0].MouseDown? then Some(true)
        else if es[0].MouseUp? then Some(false)
        else None
  }

  /** The freehand stroke through `ps` starting at `s`: one segment per
      pointer position, each from the previous position to the next. */
  function Segments(s: Point, ps: seq<Point>): seq<Shape>
    decreases |ps|
  {
    if ps == [] then []
    else [PencilShape(s.x, s.y, ps[0].x, ps[0].y)] + Segments(ps[0], ps[1..])
  }

  /** Consecutive pencil segments share an endpoint. */
  predicate Chained(segs: seq<Shape>) {
    && (forall k :: 0 <= k < |segs| ==> segs[k].PencilShape?)
    && (forall k :: 0 <= k < |segs| - 1 ==>
          segs[k].endX == segs[k + 1].startX && segs[k].endY == segs[k + 1].startY)
  }

  lemma ShapesOfConcat(a: seq<Outgoing>, b: seq<Outgoing>)
    ensures ShapesOf(a + b) == ShapesOf(a) + ShapesOf(b)
  {
  }

  lemma AppendsCompose(s0: seq<Shape>, s1: seq<Shape>, s2: seq<Shape>, o1: seq<Outgoing>, o2: seq<Outgoing>)
    requires s1 == s0 + ShapesOf(o1) && s2 == s1 + ShapesOf(o2)
    ensures s2 == s0 + ShapesOf(o1 + o2)
  {
    ShapesOfConcat(o1, o2);
  }

  lemma MovesTail(ps: seq<Point>)
    requires ps != []
    ensures Moves(ps)[1..] == Moves(ps[1..])
  {
  }

  lemma RunSingle(g: Game, e: Event)
    ensures Run(g, [e]) == Step(g, e)
  {
    assert [e][1..] == [];
  }

  /** `Run` with the step function as a parameter, so that facts about the
      shape of the fold can be proved without looking inside `Step`. */
  function Fold(step: (Game, Event) -> Reaction, g: Game, es: seq<Event>): Reaction
    decreases |es|
  {
    if es == [] then Reaction(g, [])
    else
      var first := step(g, es[0]);
      var rest := Fold(step, first.game, es[1..]);
      Reaction(rest.game, first.outbox + rest.outbox)
  }

  lemma {:induction false} RunIsFold(g: Game, es: seq<Event>)
    ensures Run(g, es) == Fold((h, e) => Step(h, e), g, es)
    decreases |es|
  {
    if es != [] {
      RunIsFold(Step(g, es[0]).game, es[1..]);
    }
  }

  lemma {:induction false} FoldConcat(step: (Game, Event) -> Reaction, g: Game, a: seq<Event>, b: seq<Event>)
    ensures var ra := Fold(step, g, a);
            var rb := Fold(step, ra.game, b);
            Fold(step, g, a + b) == Reaction(rb.game, ra.outbox + rb.outbox)
    decreases |a|
  {
    if a == [] {
      assert a + b == b;
    } else {
      var first := step(g, a[0]);
      assert (a + b)[0] == a[0] && (a + b)[1..] == a[1..] + b;
      FoldConcat(step, first.game, a[1..], b);
      var ra' := Fold(step, first.game, a[1..]);
      var rb := Fold(step, ra'.game, b);
      assert first.outbox + (ra'.outbox + rb.outbox) == (first.outbox + ra'.outbox) + rb.outbox;
    }
  }

  /** Handling `a` then `b` is handling `a + b`. */
  lemma RunConcat(g: Game, a: seq<Event>, b: seq<Event>)
    ensures var ra := Run(g, a);
            var rb := Run(ra.game, b);
            Run(g, a + b) == Reaction(rb.game, ra.outbox + rb.outbox)
  {
    RunIsFold(g, a + b);
    RunIsFold(g, a);
    RunIsFold(Run(g, a).game, b);
    FoldConcat((h, e) => Step(h, e), g, a, b);
  }

  /** Each segment of a stroke runs from the previous pointer position (the
      start point for the first one) to the next pointer position, so the
      segments chain. */
  lemma {:induction false} SegmentsChain(s: Point, ps: seq<Point>)
    ensures |Segments(s, ps)| == |ps|
    ensures Chained(Segments(s, ps))
    ensures |ps| > 0 ==> Segments(s, ps)[0] == PencilShape(s.x, s.y, ps[0].x, ps[0].y)
    ensures forall k :: 0 <= k < |ps| ==>
              Segments(s, ps)[k].endX == ps[k].x && Segments(s, ps)[k].endY == ps[k].y
    decreases |ps|
  {
    if ps != [] {
      SegmentsChain(ps[0], ps[1..]);
      var segs := Segments(s, ps);
      var tail := Segments(ps[0], ps[1..]);
      assert segs == [PencilShape(s.x, s.y, ps[0].x, ps[0].y)] + tail;
      forall k | 0 <= k < |ps|
        ensures segs[k].endX == ps[k].x && segs[k].endY == ps[k].y
      {
        if k > 0 {
          assert segs[k] == tail[k - 1];
        }
      }
      forall k | 0 <= k < |segs| - 1
        ensures segs[k].endX == segs[k + 1].startX && segs[k].endY == segs[k + 1].startY
      {
        if k > 0 {
          assert segs[k] == tail[k - 1] && segs[k + 1] == tail[k];
        }
      }
    }
  }

  /** While a rectangle or circle drag (or an eraser press) is in progress,
      any number of mouse moves change nothing and send nothing. */
  lemma {:induction false} PreviewMovesArePure(g: Game, ps: seq<Point>)
    requires g.clicked && g.tool in {Rect, Circle, Eraser}
    ensures Run(g, Moves(ps)) == Reaction(g, [])
    decreases |ps|
  {
    if ps != [] {
      MovesTail(ps);
      PreviewMovesArePure(g, ps[1..]);
    }
  }

  /** Mouse moves while the button is up change nothing and send nothing. */
  lemma {:induction false} ReleasedMovesAreInert(g: Game, ps: seq<Point>)
    requires !g.clicked
    ensures Run(g, Moves(ps)) == Reaction(g, [])
    decreases |ps|
  {
    if ps != [] {
      MovesTail(ps);
      ReleasedMovesAreInert(g, ps[1..]);
    }
  }

  /** A freehand drag appends one segment per mouse move, sends each one to
      the room in the same order, and leaves the start point at the last
      pointer position. */
  lemma {:induction false} PencilStroke(g: Game, ps: seq<Point>)
    requires g.clicked && g.tool == Pencil
    ensures var r := Run(g, Moves(ps));
            && r.game.shapes == g.shapes + Segments(g.start, ps)
            && ShapesOf(r.outbox) == Segments(g.start, ps)
            && r.game.start == (if ps == [] then g.start else ps[|ps| - 1])
            && r.game.(shapes := g.shapes, start := g.start) == g
    decreases |ps|
  {
    if ps != [] {
      var first := Step(g, MouseMove(ps[0]));
      MovesTail(ps);
      PencilStroke(first.game, ps[1..]);
      var rest := Run(first.game, Moves(ps[1..]));
      ShapesOfConcat(first.outbox, rest.outbox);
    }
  }

  /** A pan drag moves the viewport by the total pointer displacement from
      the press point to the last position; intermediate positions cancel.
      Shapes and the zoom factor stay, and nothing is sent. */
  lemma {:induction false} PanDrag(g: Game, ps: seq<Point>)
    requires g.clicked && g.tool == Pan && ps != []
    ensures var r := Run(g, Moves(ps));
            var last := ps[|ps| - 1];
            && r.outbox == []
            && r.game.viewport == Viewport(g.viewport.x + (last.x - g.previous.x),
                                           g.viewport.y + (last.y - g.previous.y),
                                           g.viewport.scale)
            && r.game.previous == last
            && r.game.(viewport := g.viewport, previous := g.previous) == g
    decreases |ps|
  {
    MovesTail(ps);
    var first := Step(g, MouseMove(ps[0]));
    if |ps| == 1 {
      assert Moves(ps)[1..] == [];
    } else {
      PanDrag(first.game, ps[1..]);
    }
  }

  /** A complete rectangle or circle gesture commits exactly the shape
      dragged from the press point to the release point, sends it once, and
      ends released; the moves in between only preview. */
  lemma DragGesture(g: Game, p: Point, ps: seq<Point>, q: Point)
    requires g.tool in {Rect, Circle}
    ensures var r := Run(g, [MouseDown(p)] + Moves(ps) + [MouseUp(q)]);
            var shape := if g.tool == Rect then RectFromDrag(p, q) else CircleFromDrag(p, q);
            && r.game.shapes == g.shapes + [shape]
            && r.outbox == [ChatMessage(shape, g.roomId)]
            && !r.game.clicked
            && r.game.tool == g.tool
            && r.game.viewport == g.viewport
  {
    var down := MouseDownHandler(g, p);
    RunSingle(g, MouseDown(p));
    RunConcat(g, [MouseDown(p)], Moves(ps));
    PreviewMovesArePure(down, ps);
    RunConcat(g, [MouseDown(p)] + Moves(ps), [MouseUp(q)]);
    RunSingle(down, MouseUp(q));
  }

  /** A complete freehand gesture leaves exactly the chained stroke from the
      press point through every move position, sent in order; the release
      adds nothing. */
  lemma PencilGesture(g: Game, p: Point, ps: seq<Point>, q: Point)
    requires g.tool == Pencil
    ensures var r := Run(g, [MouseDown(p)] + Moves(ps) + [MouseUp(q)]);
            && r.game.shapes == g.shapes + Segments(p, ps)
            && ShapesOf(r.outbox) == Segments(p, ps)
            && Chained(ShapesOf(r.outbox))
            && !r.game.clicked
  {
    var down := MouseDownHandler(g, p);
    RunSingle(g, MouseDown(p));
    RunConcat(g, [MouseDown(p)], Moves(ps));
    PencilStroke(down, ps);
    var mid := Run(down, Moves(ps));
    assert Run(g, [MouseDown(p)] + Moves(ps)) == Reaction(mid.game, [] + mid.outbox);
    RunConcat(g, [MouseDown(p)] + Moves(ps), [MouseUp(q)]);
    RunSingle(mid.game, MouseUp(q));
    var up := MouseUpHandler(mid.game, q);
    assert up.outbox == [];
    assert Run(g, [MouseDown(p)] + Moves(ps) + [MouseUp(q)]) == Reaction(up.game, mid.outbox + []);
    assert mid.outbox + [] == mid.outbox;
    SegmentsChain(p, ps);
  }

  /** In a trace of local inputs the shape list grows by exactly the shapes
      sent, in the order they were sent. */
  lemma {:induction false} LocalAppendsMatchOutbox(g: Game, es: seq<Event>)
    requires forall k :: 0 <= k < |es| ==> IsLocal(es[k])
    ensures Run(g, es).game.shapes == g.shapes + ShapesOf(Run(g, es).outbox)
    decreases |es|
  {
    if es != [] {
      var first := Step(g, es[0]);
      var rest := Run(first.game, es[1..]);
      assert IsLocal(es[0]);
      LocalAppendsMatchOutbox(first.game, es[1..]);
      AppendsCompose(g.shapes, first.game.shapes, rest.game.shapes, first.outbox, rest.outbox);
    }
  }

  /** Without a history fetch, earlier shapes are never changed or removed,
      and every shape added is either one this client sent or one it
      received from the socket. */
  lemma {:induction false} ShapeAccounting(g: Game, es: seq<Event>)
    requires forall k :: 0 <= k < |es| ==> !es[k].HistoryLoaded?
    ensures var r := Run(g, es);
            && g.shapes <= r.game.shapes
            && multiset(r.game.shapes) == multiset(g.shapes) + multiset(ShapesOf(r.outbox)) + multiset(Received(es))
            && |r.game.shapes| == |g.shapes| + |r.outbox| + |Received(es)|
    decreases |es|
  {
    if es != [] {
      var first := Step(g, es[0]);
      var rest := Run(first.game, es[1..]);
      assert !es[0].HistoryLoaded?;
      ShapeAccounting(first.game, es[1..]);
      StepAccounting(g, es[0]);
      ShapesOfConcat(first.outbox, rest.outbox);
      AccountingCompose(g.shapes, first.game.shapes, rest.game.shapes,
                        ShapesOf(first.outbox), ShapesOf(rest.outbox),
                        Delivered(es[0]), Received(es[1..]));
    }
  }

  lemma StepAccounting(g: Game, e: Event)
    requires !e.HistoryLoaded?
    ensures Step(g, e).game.shapes == g.shapes + ShapesOf(Step(g, e).outbox) + Delivered(e)
  {
    if e.SocketMessage? {
      var r := OnSocketMessage(g, e.msg);
      assert ShapesOf([]) == [];
      if Delivered(e) == [] {
        assert r.shapes == g.shapes;
      } else {
        assert r.shapes == g.shapes + Delivered(e);
      }
    }
  }

  lemma AccountingCompose(s0: seq<Shape>, s1: seq<Shape>, s2: seq<Shape>,
                          a1: seq<Shape>, a2: seq<Shape>, r1: seq<Shape>, r2: seq<Shape>)
    requires s1 == s0 + a1 + r1
    requires s1 <= s2
    requires multiset(s2) == multiset(s1) + multiset(a2) + multiset(r2)
    requires |s2| == |s1| + |a2| + |r2|
    ensures s0 <= s2
    ensures multiset(s2) == multiset(s0) + multiset(a1 + a2) + multiset(r1 + r2)
    ensures |s2| == |s0| + |a1 + a2| + |r1 + r2|
  {
    assert s0 <= s1;
  }

  /** The selected tool after a trace is the one chosen last, or the initial
      one when the trace selects none. */
  lemma {:induction false} ToolIsLastSelected(g: Game, es: seq<Event>)
    ensures Run(g, es).game.tool == LastSelected(es).GetOr(g.tool)
    decreases |es|
  {
    if es != [] {
      ToolIsLastSelected(Step(g, es[0]).game, es[1..]);
    }
  }

  /** The pressed flag after a trace follows the last press or release. */
  lemma {:induction false} PressedIsLastButton(g: Game, es: seq<Event>)
    ensures Run(g, es).game.clicked == LastPressed(es).GetOr(g.clicked)
    decreases |es|
  {
    if es != [] {
      PressedIsLastButton(Step(g, es[0]).game, es[1..]);
    }
  }

  /** The preview drawn during a rectangle or circle drag is exactly the
      stroke the committed shape gets once the button is released there. */
  lemma PreviewMatchesCommit(g: Game, p: Point)
    requires g.clicked && g.tool in {Rect, Circle}
    ensures Preview(g, p) == Some(DrawShape(MouseUpHandler(g, p).outbox[0].shape))
    ensures Render(MouseUpHandler(g, p).game).calls
              == Render(g).calls + [Preview(g, p).value]
  {
    var up := MouseUpHandler(g, p);
    var a := Render(up.game).calls;
    var b := Render(g).calls + [Preview(g, p).value];
    assert |a| == |b|;
    forall k | 0 <= k < |a| ensures a[k] == b[k] {
      if k < |g.shapes| {
        assert up.game.shapes[k] == g.shapes[k];
      }
    }
  }

  /** A stroke call determines the shape it draws, except for the sign of a
      circle's radius, which the redraw drops. */
  lemma DrawShapeLosesOnlyRadiusSign(a: Shape, b: Shape)
    ensures DrawShape(a) == DrawShape(b) <==>
              || a == b
              || (&& a.CircleShape? && b.CircleShape?
                  && a.centerX == b.centerX && a.centerY == b.centerY && a.radius == -b.radius)
  {
  }

  /** A freshly opened board shows the fetched history, in order, with the
      identity transform: no pan offset and zoom factor 1. */
  lemma FreshBoardShowsHistory(roomId: string, history: seq<Shape>)
    ensures var f := Render(Run(NewGame(roomId), [HistoryLoaded(history)]).game);
            && f.transform == Viewport(0.0, 0.0, 1.0)
            && |f.calls| == |history|
            && forall k :: 0 <= k < |history| ==> f.calls[k] == DrawShape(history[k])
  {
    RunSingle(NewGame(roomId), HistoryLoaded(history));
  }

  /** A history fetch that resolves after other input replaces the whole
      list: shapes drawn or received before it are dropped locally, although
      the envelopes already sent stay sent. */
  lemma LateHistoryReplacesShapes(g: Game, es: seq<Event>, history: seq<Shape>)
    ensures Run(g, es + [HistoryLoaded(history)]).game.shapes == history
    ensures Run(g, es + [HistoryLoaded(history)]).outbox == Run(g, es).outbox
  {
    RunConcat(g, es, [HistoryLoaded(history)]);
    RunSingle(Run(g, es).game, HistoryLoaded(history));
    assert Run(g, es).outbox + [] == Run(g, es).outbox;
  }

  /** The server echoes a committed shape back to its author, and the client
      appends the echo as a second copy: nothing de-duplicates it. */
  lemma EchoIsAppendedAgain(g: Game, q: Point)
    requires g.tool in {Rect, Circle}
    ensures var up := MouseUpHandler(g, q);
            var s := up.outbox[0].shape;
            OnSocketMessage(up.game, Incoming("chat", Some(s))).shapes == g.shapes + [s, s]
  {
  }

  /** Dragging a circle from (0,0) to (40,0) gives radius 20 centred at
      (20,20). */
  lemma CircleDragExample()
    ensures var r := Run(NewGame("42"), [MouseDown(Point(0.0, 0.0)), MouseUp(Point(40.0, 0.0))]);
            r.game.shapes == [CircleShape(20.0, 20.0, 20.0)]
            && r.outbox == [ChatMessage(CircleShape(20.0, 20.0, 20.0), "42")]
  {
    var g := NewGame("42");
    var p, q := Point(0.0, 0.0), Point(40.0, 0.0);
    var es := [MouseDown(p), MouseUp(q)];
    var c := CircleShape(20.0, 20.0, 20.0);
    var down := MouseDownHandler(g, p);
    assert CircleFromDrag(p, q) == c;
    var up := Commit(down.(clicked := false), c);
    assert Step(g, es[0]) == Reaction(down, []);
    assert es[1..] == [MouseUp(q)];
    RunSingle(down, MouseUp(q));
    assert Run(down, es[1..]) == up;
    assert Run(g, es) == Reaction(up.game, [] + up.outbox);
  }

  lemma FreehandExample()
    ensures var g := SetTool(MouseDownHandler(NewGame("42"), Point(0.0, 0.0)), Pencil);
            var r := Run(g, [MouseMove(Point(5.0, 5.0)), MouseMove(Point(10.0, 10.0))]);
            var segs := [PencilShape(0.0, 0.0, 5.0, 5.0), PencilShape(5.0, 5.0, 10.0, 10.0)];
            r.game.shapes == segs && ShapesOf(r.outbox) == segs
  {
    var g := SetTool(MouseDownHandler(NewGame("42"), Point(0.0, 0.0)), Pencil);
    var ps := [Point(5.0, 5.0), Point(10.0, 10.0)];
    PencilStroke(g, ps);
    assert Moves(ps) == [MouseMove(Point(5.0, 5.0)), MouseMove(Point(10.0, 10.0))];
    assert Segments(Point(5.0, 5.0), ps[1..]) == [PencilShape(5.0, 5.0, 10.0, 10.0)];
  }
}
