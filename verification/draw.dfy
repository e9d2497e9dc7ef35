/** The client drawing state machine (`Game` in the front end's draw module).
    Every handler is a pure function from the current state and one input to
    the next state and the `chat` envelopes the client sends; canvas drawing
    is reduced to the list of stroke calls a redraw would issue. */
module Draw {
  import opened Options

  /** The tool selector; `Circle` is the initial selection. */
  datatype Tool = Circle | Rect | Pencil | Eraser | Pan

  /** A pointer position: the raw `clientX`/`clientY` of a mouse event. */
  datatype Point = Point(x: real, y: real)

  datatype Shape =
    | RectShape(x: real, y: real, width: real, height: real)
    | CircleShape(centerX: real, centerY: real, radius: real)
    | PencilShape(startX: real, startY: real, endX: real, endY: real)

  /** The pan offset and zoom factor applied when the canvas is redrawn. */
  datatype Viewport = Viewport(x: real, y: real, scale: real)

  datatype Game = Game(
    roomId: string,
    shapes: seq<Shape>,
    clicked: bool,
    start: Point,
    previous: Point,
    tool: Tool,
    viewport: Viewport)

  /** `{type: "chat", message: JSON.stringify({shape}), roomId}`. */
  datatype Outgoing = ChatMessage(shape: Shape, roomId: string)

  /** A decoded socket message: its `type` and, when the nested `message`
      decodes to an object with a `shape`, that shape. */
  datatype Incoming = Incoming(msgType: string, shape: Option<Shape>)

  datatype Event =
    | MouseDown(at: Point)
    | MouseMove(at: Point)
    | MouseUp(at: Point)
    | SelectTool(tool: Tool)
    | SocketMessage(msg: Incoming)
    | HistoryLoaded(history: seq<Shape>)

  /** The state after one input and the envelopes sent while handling it. */
  datatype Reaction = Reaction(game: Game, outbox: seq<Outgoing>)

  function Max(a: real, b: real): real {
    if a >= b then a else b
  }

  function Abs(a: real): real {
    if a >= 0.0 then a else -a
  }

  function ShapesOf(out: seq<Outgoing>): (r: seq<Shape>)
    ensures |r| == |out|
    ensures forall k :: 0 <= k < |out| ==> r[k] == out[k].shape
  {
    seq(|out|, k requires 0 <= k < |out| => out[k].shape)
  }

  /** The state a freshly constructed game starts in, before the history fetch. */
  function NewGame(roomId: string): (g: Game)
    ensures g.roomId == roomId && g.shapes == [] && !g.clicked
    ensures g.start == g.previous == Point(0.0, 0.0)
    ensures g.tool == Circle
    ensures g.viewport == Viewport(0.0, 0.0, 1.0)
  {
    Game(roomId, [], false, Point(0.0, 0.0), Point(0.0, 0.0), Circle, Viewport(0.0, 0.0, 1.0))
  }

  /** The rectangle dragged from `s` to `p`: corner `s`, signed extent. */
  function RectFromDrag(s: Point, p: Point): (r: Shape)
    ensures r.RectShape?
    ensures r.x == s.x && r.y == s.y
    ensures r.x + r.width == p.x && r.y + r.height == p.y
  {
    RectShape(s.x, s.y, p.x - s.x, p.y - s.y)
  }

  /** The circle dragged from `s` to `p`: its diameter is the larger signed
      extent of the drag and its bounding square has `s` as a corner. */
  function CircleFromDrag(s: Point, p: Point): (r: Shape)
    ensures r.CircleShape?
    ensures 2.0 * r.radius == Max(p.x - s.x, p.y - s.y)
    ensures r.centerX - r.radius == s.x && r.centerY - r.radius == s.y
    ensures r.centerX + r.radius == p.x || r.centerY + r.radius == p.y
  {
    var radius := Max(p.x - s.x, p.y - s.y) / 2.0;
    CircleShape(s.x + radius, s.y + radius, radius)
  }

  /** Append a locally created shape and send it to the room: the one
      envelope carries exactly the shape that lands at the end of the list,
      and nothing but the list changes. */
  function Commit(g: Game, shape: Shape): (r: Reaction)
    ensures |r.outbox| == 1 && r.outbox[0].roomId == g.roomId
    ensures r.game.shapes == g.shapes + ShapesOf(r.outbox)
    ensures r.game.shapes[|g.shapes|] == shape
    ensures r.game.(shapes := g.shapes) == g
  {
    Reaction(g.(shapes := g.shapes + [shape]), [ChatMessage(shape, g.roomId)])
  }

  /** `setTool`: only the selected tool changes. */
  function SetTool(g: Game, t: Tool): (r: Game)
    ensures r.tool == t
    ensures r.(tool := g.tool) == g
  {
    g.(tool := t)
  }

  /** `init`: the fetched history replaces the shape list. */
  function LoadHistory(g: Game, history: seq<Shape>): (r: Game)
    ensures r.shapes == history
    ensures r.(shapes := g.shapes) == g
  {
    g.(shapes := history)
  }

  /** `updatePanning`: the pointer's movement since the previous point is
      added to the pan offset, and the pointer becomes the previous point. */
  function UpdatePanning(g: Game, p: Point): (r: Game)
    ensures r.viewport.x - g.viewport.x == p.x - g.previous.x
    ensures r.viewport.y - g.viewport.y == p.y - g.previous.y
    ensures r.viewport.scale == g.viewport.scale
    ensures r.previous == p
    ensures r.(viewport := g.viewport, previous := g.previous) == g
  {
    var dx := p.x - g.previous.x;
    var dy := p.y - g.previous.y;
    g.(viewport := g.viewport.(x := g.viewport.x + dx, y := g.viewport.y + dy), previous := p)
  }

  /** `mouseDownHandler`: the drag starts; both the start and the previous
      point are the pointer, and nothing else changes. */
  function MouseDownHandler(g: Game, p: Point): (r: Game)
    ensures r.clicked
    ensures r.start == p && r.previous == p
    ensures r.(clicked := g.clicked, start := g.start, previous := g.previous) == g
  {
    g.(clicked := true, start := p, previous := p)
  }

  /** `mouseMoveHandler`. Rectangle and circle tools only draw a preview,
      the pan tool moves the viewport, the pencil tool commits one segment
      from the start point to the pointer and moves the start point there,
      and the eraser does nothing. */
  function MouseMoveHandler(g: Game, p: Point): (r: Reaction)
    ensures !g.clicked ==> r == Reaction(g, [])
    ensures g.clicked && g.tool in {Rect, Circle, Eraser} ==> r == Reaction(g, [])
    ensures g.clicked && g.tool == Pan ==>
              r.outbox == [] && r.game == UpdatePanning(g, p)
    ensures g.clicked && g.tool == Pencil ==>
              var seg := PencilShape(g.start.x, g.start.y, p.x, p.y);
              && r.game.shapes == g.shapes + [seg]
              && r.outbox == [ChatMessage(seg, g.roomId)]
              && r.game.start == p
              && r.game.(shapes := g.shapes, start := g.start) == g
  {
    if !g.clicked then Reaction(g, [])
    else
      match g.tool
      case Pan => Reaction(UpdatePanning(g, p), [])
      case Pencil =>
        var c := Commit(g, PencilShape(g.start.x, g.start.y, p.x, p.y));
        Reaction(c.game.(start := p), c.outbox)
      case _ => Reaction(g, [])
  }

  /** `mouseUpHandler`. The drag always ends; the rectangle and circle tools
      commit the shape dragged from the start point to the pointer, every
      other tool commits nothing. */
  function MouseUpHandler(g: Game, p: Point): (r: Reaction)
    ensures !r.game.clicked
    ensures r.game.(shapes := g.shapes, clicked := g.clicked) == g
    ensures r.game.shapes == g.shapes + ShapesOf(r.outbox)
    ensures |r.outbox| == (if g.tool in {Rect, Circle} then 1 else 0)
    ensures forall k :: 0 <= k < |r.outbox| ==> r.outbox[k].roomId == g.roomId
    ensures g.tool == Rect ==> r.outbox[0].shape == RectFromDrag(g.start, p)
    ensures g.tool == Circle ==> r.outbox[0].shape == CircleFromDrag(g.start, p)
  {
    var released := g.(clicked := false);
    match g.tool
    case Rect => Commit(released, RectFromDrag(g.start, p))
    case Circle => Commit(released, CircleFromDrag(g.start, p))
    case _ => Reaction(released, [])
  }

  /** `socket.onmessage`: a `chat` message carrying a shape appends it to the
      end of the list; every other message leaves the state alone. */
  function OnSocketMessage(g: Game, m: Incoming): (r: Game)
    ensures r.(shapes := g.shapes) == g
    ensures g.shapes <= r.shapes
    ensures |r.shapes| == |g.shapes| + (if m.msgType == "chat" && m.shape.Some? then 1 else 0)
    ensures |r.shapes| > |g.shapes| ==> r.shapes[|g.shapes|] == m.shape.value
  {
    if m.msgType == "chat" && m.shape.Some? then g.(shapes := g.shapes + [m.shape.value]) else g
  }

  /** One input. */
  function Step(g: Game, e: Event): (r: Reaction)
    ensures r.game.roomId == g.roomId
    ensures r.game.viewport.scale == g.viewport.scale
    ensures forall k :: 0 <= k < |r.outbox| ==> r.outbox[k].roomId == g.roomId
    ensures !e.SelectTool? ==> r.game.tool == g.tool
    ensures !e.MouseMove? && !e.MouseUp? ==> r.outbox == []
    ensures !e.SocketMessage? && !e.HistoryLoaded? ==>
              r.game.shapes == g.shapes + ShapesOf(r.outbox)
  {
    match e
    case MouseDown(p) => Reaction(MouseDownHandler(g, p), [])
    case MouseMove(p) => MouseMoveHandler(g, p)
    case MouseUp(p) => MouseUpHandler(g, p)
    case SelectTool(t) => Reaction(SetTool(g, t), [])
    case SocketMessage(m) => Reaction(OnSocketMessage(g, m), [])
    case HistoryLoaded(h) => Reaction(LoadHistory(g, h), [])
  }

  /** A sequence of inputs, handled one at a time; the envelopes are sent in
      order. The room never changes, the zoom factor never changes, and every
      envelope is addressed to the game's room. */
  function Run(g: Game, es: seq<Event>): (r: Reaction)
    ensures r.game.roomId == g.roomId
    ensures r.game.viewport.scale == g.viewport.scale
    ensures forall k :: 0 <= k < |r.outbox| ==> r.outbox[k].roomId == g.roomId
    decreases |es|
  {
    if es == [] then Reaction(g, [])
    else
      var first := Step(g, es[0]);
      var rest := Run(first.game, es[1..]);
      Reaction(rest.game, first.outbox + rest.outbox)
  }

  /** One stroke call of a redraw. */
  datatype DrawCall =
    | StrokeRect(x: real, y: real, w: real, h: real)
    | Arc(cx: real, cy: real, r: real)
    | Line(x1: real, y1: real, x2: real, y2: real)

  /** A redrawn canvas: the transform applied and the strokes in order. */
  datatype Frame = Frame(transform: Viewport, calls: seq<DrawCall>)

  /** The stroke a redraw issues for one stored shape; circles are drawn
      with the absolute value of their radius. */
  function DrawShape(s: Shape): (c: DrawCall)
    ensures s.RectShape? <==> c.StrokeRect?
    ensures s.RectShape? ==> c == StrokeRect(s.x, s.y, s.width, s.height)
    ensures s.CircleShape? ==> c.Arc? && c.cx == s.centerX && c.cy == s.centerY
    ensures s.CircleShape? ==> c.r >= 0.0 && (c.r == s.radius || c.r == -s.radius)
    ensures s.PencilShape? ==> c == Line(s.startX, s.startY, s.endX, s.endY)
  {
    match s
    case RectShape(x, y, w, h) => StrokeRect(x, y, w, h)
    case CircleShape(cx, cy, r) => Arc(cx, cy, Abs(r))
    case PencilShape(x1, y1, x2, y2) => Line(x1, y1, x2, y2)
  }

  /** `clearCanvas`: the viewport transform is applied and every stored shape
      is stroked, in list order. */
  function Render(g: Game): (f: Frame)
    ensures f.transform == g.viewport
    ensures |f.calls| == |g.shapes|
    ensures forall k :: 0 <= k < |g.shapes| ==> f.calls[k] == DrawShape(g.shapes[k])
  {
    Frame(g.viewport, seq(|g.shapes|, k requires 0 <= k < |g.shapes| => DrawShape(g.shapes[k])))
  }

  /** The ephemeral stroke a mouse move draws over the redrawn canvas, written
      with the move handler's own arithmetic. */
  function Preview(g: Game, p: Point): (r: Option<DrawCall>)
    ensures r.Some? <==> g.clicked && g.tool in {Rect, Circle}
    ensures r.Some? && g.tool == Rect ==>
              && r.value.StrokeRect?
              && r.value.x == g.start.x && r.value.y == g.start.y
              && r.value.x + r.value.w == p.x && r.value.y + r.value.h == p.y
    ensures r.Some? && g.tool == Circle ==>
              && r.value.Arc?
              && r.value.cx - g.start.x == r.value.cy - g.start.y
              && r.value.r == Abs(r.value.cx - g.start.x)
    ensures g.clicked && g.tool == Circle ==> r == Some(DrawShape(CircleFromDrag(g.start, p)))
  {
    if !g.clicked then None
    else if g.tool == Rect then
      Some(StrokeRect(g.start.x, g.start.y, p.x - g.start.x, p.y - g.start.y))
    else if g.tool == Circle then
      var radius := Max(p.x - g.start.x, p.y - g.start.y) / 2.0;
      Some(Arc(g.start.x + radius, g.start.y + radius, Abs(radius)))
    else None
  }
}
