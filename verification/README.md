# Collaborative drawing: real-time sync core in Dafny

This project models the three pieces of sequential logic that carry the
behaviour of the collaborative drawing app:

- **the client drawing state machine** (`Game` in the front end's draw
  module). It holds the shape list of the open room, the pressed flag, the
  start and previous pointer positions, the selected tool and the
  pan/zoom viewport. It turns mouse input, tool changes, the history fetch
  and incoming socket messages into a new state plus the `chat` envelopes the
  client sends. Modules `Draw` (draw.dfy) and `DrawLemmas` (draw_lemmas.dfy).
- **the WebSocket room relay** (the ws back end's connection handler). It
  admits a socket when its token yields a user id, keeps the `users` registry
  of `{socket, rooms, userId}` entries, edits room lists on `join_room` and
  `leave_room`, and runs a `chat` through room lookup, membership check,
  insert and broadcast. Modules `Relay` (relay.dfy) and `RelayLemmas`
  (relay_lemmas.dfy).
- **the HTTP auth middleware.** It strips a `Bearer ` prefix from the
  `authorization` header and ends every request in exactly one of: `next()`
  with `req.userId` set, 401, or 403. Module `HttpAuth` (http_auth.dfy).
  `AuthAgreement` (auth_agreement.dfy) compares it with the socket admission
  check.

Shared pieces:
- `Options` (options.dfy) holds `Option`, for values that may be absent.
- `Js` (js.dfy) holds JavaScript scalar values, truthiness and `Number(...)`.
- `Jwt` (jwt.dfy) holds the three outcomes of `jwt.verify`, and
  `RejectsEmpty`: the library throws on the empty token.

Every handler is a pure function. Foreign calls are parameters:
- `jwt.verify` is a `Verifier`, an uninterpreted function from token to
  `Throws | StringPayload | ObjectPayload(userId?)`.
- The two Prisma calls are the `findRoom` and `createChat` functions of a
  `Relay.Backend`. Each returns a result or a throw.
- The history fetch is the `HistoryLoaded` event.
- Canvas drawing is reduced to the list of stroke calls a redraw issues
  (`Draw.Render`, `Draw.Preview`).

The model keeps these behaviours of the code as written:
- `join_room` appends even when the room is already listed.
- `leave_room` *keeps* the entries equal to the message's `room` field and
  drops all others. Leaving "1" from ["1", "2"] therefore leaves ["1"]. A
  message that carries `roomId` but no `room` keeps only the `undefined`
  entries, so it empties any list of real room ids. A `join_room` without
  `roomId` does list `undefined`, which such a leave then keeps.
- The room check looks the room up by `Number(roomId)`. The membership check
  compares the raw `roomId` with `includes`. So a socket that joined "42" is
  refused a chat addressed to the number 42.
- Entries are never removed from the registry, because the source installs
  no close handler.
- Pointer coordinates are the raw `clientX`/`clientY`. No screen-to-world
  conversion is applied.
- The zoom factor is never changed.
- The eraser tool does nothing. There is no hit-testing in the code.
- A client appends the server's echo of its own shape as a second copy.

## Model

| member | source | states |
|---|---|---|
| `Draw.RectFromDrag` | apps/excelidraw-frontend/draw/Game.ts:159-168 | the committed rectangle has the press point as corner and its signed width/height reach exactly the release point |
| `Draw.CircleFromDrag` | apps/excelidraw-frontend/draw/Game.ts:169-178 | the circle's diameter is the larger signed drag extent, its bounding square has the press point as corner, and its far edge touches the release point on the dominant axis |
| `Draw.SetTool` | apps/excelidraw-frontend/draw/Game.ts:69-71 | selecting a tool changes the selected tool and nothing else |
| `Draw.LoadHistory` | apps/excelidraw-frontend/draw/Game.ts:74-77 | the history fetch replaces the shape list and leaves the rest of the state alone |
| `Draw.UpdatePanning` | apps/excelidraw-frontend/draw/Game.ts:130-141 | the pan offset moves by the pointer's displacement from the previous point, the pointer becomes the previous point, the zoom factor and shapes stay |
| `Draw.MouseDownHandler` | apps/excelidraw-frontend/draw/Game.ts:144-150 | a press sets the pressed flag and both start and previous point to the pointer; shapes, tool and viewport are unchanged |
| `Draw.MouseMoveHandler` | apps/excelidraw-frontend/draw/Game.ts:191-234 | with the button up, or with the rectangle, circle or eraser tool, a move changes nothing and sends nothing; with pan it pans; with pencil it appends and sends exactly one segment from the start point to the pointer and moves the start point there |
| `Draw.MouseUpHandler` | apps/excelidraw-frontend/draw/Game.ts:152-189 | a release always clears the pressed flag; rectangle and circle tools append exactly one shape (the dragged one) and send exactly that shape to the room; pan, pencil and eraser append and send nothing |
| `Draw.OnSocketMessage` | apps/excelidraw-frontend/draw/Game.ts:81-90 | a `chat` message with a shape appends that shape at the end and keeps every earlier shape; any other message leaves the list unchanged |
| `Draw.Step` | apps/excelidraw-frontend/draw/Game.ts:80-241 | no input changes the room or the zoom factor; only a tool selection changes the tool; only moves and releases send; every local input appends exactly the shapes it sends |
| `Draw.Run` | apps/excelidraw-frontend/draw/Game.ts:80-241 | over any trace the room and zoom factor stay fixed and every envelope is addressed to the game's room |
| `Draw.Render` | apps/excelidraw-frontend/draw/Game.ts:94-127 | a redraw applies the current viewport and strokes every stored shape once, in list order |
| `Draw.DrawShape` | apps/excelidraw-frontend/draw/Game.ts:110-126 | a rectangle is stroked as its corner and signed extent, a circle as an arc at its centre whose radius is the stored radius or its negation and never negative, a pencil segment as a line between its endpoints |
| `Draw.NewGame` | apps/excelidraw-frontend/draw/Game.ts:27-59 | a new board for a room starts with no shapes, the button up, start and previous point at the origin, the circle tool and the identity viewport (0, 0, 1) |
| `Draw.Commit` | apps/excelidraw-frontend/draw/Game.ts:183-188 | committing a shape sends one envelope to the game's room, appends exactly the sent shape at the end of the list, and changes nothing else |
| `Draw.Preview` | apps/excelidraw-frontend/draw/Game.ts:199-215 | a move draws a preview only while the button is down with the rectangle or circle tool; the rectangle preview has the press point as corner and reaches the pointer, the circle preview is centred on the diagonal from the press point with a radius equal to that offset's absolute value, and is the stroke of the circle dragged from the press point to the pointer |
| `DrawLemmas.DrawShapeLosesOnlyRadiusSign` | apps/excelidraw-frontend/draw/Game.ts:110-126 | two shapes give the same stroke call exactly when they are equal or are circles that differ only in the sign of the radius |
| `DrawLemmas.FreshBoardShowsHistory` | apps/excelidraw-frontend/draw/Game.ts:47-77 | a new board that receives its history draws every fetched shape, in order, with no pan offset and zoom factor 1 |
| `DrawLemmas.SegmentsChain` | apps/excelidraw-frontend/draw/Game.ts:216-233 | a freehand stroke has one segment per move; the first starts at the press point, each ends at its pointer position, and each ends where the next starts |
| `DrawLemmas.PencilStroke` | apps/excelidraw-frontend/draw/Game.ts:216-233 | any run of pencil moves appends exactly the chained stroke, sends the same segments in the same order, and leaves the start point at the last pointer position |
| `DrawLemmas.PreviewMovesArePure` | apps/excelidraw-frontend/draw/Game.ts:199-215 | any number of rectangle/circle preview moves leave the whole state unchanged and send nothing |
| `DrawLemmas.ReleasedMovesAreInert` | apps/excelidraw-frontend/draw/Game.ts:191-192 | any number of moves with the button up leave the whole state unchanged and send nothing |
| `DrawLemmas.PanDrag` | apps/excelidraw-frontend/draw/Game.ts:194-197 | a pan drag moves the viewport by the total displacement from the press point to the last position (intermediate positions cancel), keeps the zoom factor and the shapes, and sends nothing |
| `DrawLemmas.DragGesture` | apps/excelidraw-frontend/draw/Game.ts:144-189 | a full press/moves/release gesture with the rectangle or circle tool appends and sends exactly the shape dragged from press point to release point, once, and ends released |
| `DrawLemmas.PencilGesture` | apps/excelidraw-frontend/draw/Game.ts:144-234 | a full freehand gesture stores and sends exactly the chained stroke from the press point through every move; the release adds nothing |
| `DrawLemmas.LocalAppendsMatchOutbox` | apps/excelidraw-frontend/draw/Game.ts:183-188 | over any trace of local inputs the shape list grows by exactly the shapes sent, in the order sent |
| `DrawLemmas.ShapeAccounting` | apps/excelidraw-frontend/draw/Game.ts:80-91 | without a history fetch, earlier shapes are never changed or removed, and every added shape was either sent by this client or received from the socket |
| `DrawLemmas.ToolIsLastSelected` | apps/excelidraw-frontend/draw/Game.ts:69-71 | after any trace the selected tool is the last one selected, or the initial one |
| `DrawLemmas.PressedIsLastButton` | apps/excelidraw-frontend/draw/Game.ts:144-153 | after any trace the pressed flag follows the last press or release |
| `DrawLemmas.PreviewMatchesCommit` | apps/excelidraw-frontend/draw/Game.ts:199-215 | the preview stroke drawn at a pointer equals the stroke of the shape a release there commits, and the redraw after the release is the old redraw plus that stroke |
| `DrawLemmas.LateHistoryReplacesShapes` | apps/excelidraw-frontend/draw/Game.ts:74-77 | a history fetch that resolves after any other input leaves exactly the fetched list, dropping shapes drawn or received before it, while the envelopes already sent stay sent |
| `DrawLemmas.EchoIsAppendedAgain` | apps/excelidraw-frontend/draw/Game.ts:81-90 | the server's echo of a shape this client just committed is appended as a second copy |
| `DrawLemmas.CircleDragExample` | apps/excelidraw-frontend/draw/Game.ts:169-178 | dragging a circle from (0,0) to (40,0) gives radius 20 at centre (20,20) |
| `DrawLemmas.FreehandExample` | apps/excelidraw-frontend/draw/Game.ts:216-233 | freehand through (5,5) and (10,10) from (0,0) stores and sends (0,0)-(5,5) then (5,5)-(10,10) |
| `Js.ToNumber` | apps/ws-backend/src/index.ts:90 | `Number` of a numeric value is that number, of a digit string its decimal value, of `true` 1, of `undefined` and of any other string NaN, of `null`, `false` and `""` 0 |
| `Js.StringAndNumberCoerceAlike` | apps/ws-backend/src/index.ts:118 | a room id and its decimal string coerce to the same number but are different values |
| `Js.ParseDecimalInverse` | apps/ws-backend/src/index.ts:90 | reading the decimal spelling of a natural number gives the number back |
| `Relay.CheckUser` | apps/ws-backend/src/index.ts:16-33 | a user id is returned exactly when verification returns an object whose `userId` is truthy, and it is that `userId`; throwing, a string payload, or a missing or falsy claim give none |
| `Relay.FindUser` | apps/ws-backend/src/index.ts:64 | the lookup returns the first entry of the socket, or none when no entry has it |
| `Relay.KeepEqual` | apps/ws-backend/src/index.ts:76 | the `leave_room` filter keeps every copy of the `room` value and nothing else |
| `Relay.FanOut` | apps/ws-backend/src/index.ts:127-137 | the broadcast sends only copies of the one chat message, at most one per entry; every send goes to the socket of an entry that lists the room id, and every such entry's socket gets a send |
| `Relay.IsMember` | apps/ws-backend/src/index.ts:104-105 | the membership test holds only if some entry of the sender lists the room id, and never for a socket without an entry |
| `Relay.HandleChat` | apps/ws-backend/src/index.ts:83-147 | a missing room, a non-member sender, or a throw gives exactly one error to the sender and stores nothing; an accepted chat stores its row first and then broadcasts |
| `Relay.Connect` | apps/ws-backend/src/index.ts:35-53 | a token yielding no user id closes the socket and leaves the registry unchanged; otherwise exactly one entry with that user id and no rooms is appended |
| `Relay.Step` | apps/ws-backend/src/index.ts:35-149 | one event never removes an entry or changes an entry's socket or user id; a connection issues one fresh socket id and adds at most one entry, a message adds none, and a message on a socket without an entry does nothing |
| `Relay.HandleMessage` | apps/ws-backend/src/index.ts:55-149 | `join_room` appends the room id to the sender's list only; `leave_room` leaves the sender only the copies of `room`; other entries and every socket and user id are unchanged; `chat` never changes the registry |
| `Relay.Run` | apps/ws-backend/src/index.ts:8-14 | over any trace no entry is removed and no entry's socket or user id changes |
| `RelayLemmas.FanOutReachesEachMemberOnce` | apps/ws-backend/src/index.ts:126-137 | with distinct sockets, each socket in the room receives exactly one broadcast and every other socket none |
| `RelayLemmas.MembershipIsInRoom` | apps/ws-backend/src/index.ts:103-113 | with distinct sockets, the handler's membership test holds exactly when some entry of the sender lists the room |
| `RelayLemmas.ChatDelivery` | apps/ws-backend/src/index.ts:83-147 | an accepted chat stores one row before any send and then reaches every room member, sender included, exactly once with the same message, room id, user id and chat id; a rejected chat stores nothing and reaches only the sender, once |
| `RelayLemmas.JoinTwiceListsRoomTwice` | apps/ws-backend/src/index.ts:63-69 | joining the same room twice lists it twice |
| `RelayLemmas.LeaveKeepsOnlyTheNamedRoom` | apps/ws-backend/src/index.ts:71-78 | leaving "1" from ["1","2"] leaves ["1"]; a leave message without `room` empties ["1","2"] |
| `RelayLemmas.LeaveWithoutRoomKeepsUndefined` | apps/ws-backend/src/index.ts:63-78 | after a `join_room` without `roomId`, a `leave_room` without `room` leaves exactly [`undefined`] |
| `RelayLemmas.NumericRoomIdFailsMembership` | apps/ws-backend/src/index.ts:88-113 | a socket that joined "42" passes the room check for the number 42 and is then told it is not a member, while a chat for "42" is stored and broadcast |
| `RelayLemmas.RunPreservesWellFormed` | apps/ws-backend/src/index.ts:49-53 | over any trace socket identities in the registry stay distinct |
| `RelayLemmas.RunKeepsRoomsRequested` | apps/ws-backend/src/index.ts:63-78 | over any trace a room list only holds ids its socket asked for with `join_room` |
| `RelayLemmas.FromStartRoomsAreRequested` | apps/ws-backend/src/index.ts:35-78 | from a fresh server, every listed room was asked for by a `join_room` on that socket, and sockets are distinct |
| `HttpAuth.ExtractToken` | apps/http-backend/src/middleware.ts:13-15 | the token is the header minus a leading `Bearer `, or the whole header when it has no such prefix |
| `HttpAuth.ExtractBearerRoundTrip` | apps/http-backend/src/middleware.ts:13-15 | `Bearer ` followed by a token extracts back to exactly that token; only one prefix is removed |
| `HttpAuth.Middleware` | apps/http-backend/src/middleware.ts:6-47 | an empty token is 401 "No token provided", a throwing verifier 401 "Invalid token", an object with a `userId` property passes with that value, anything else 403 "Unauthorized"; a user id exists only on pass |
| `HttpAuth.EmptyBearerIsNoToken` | apps/http-backend/src/middleware.ts:7-25 | a missing header, an empty header and the header `Bearer ` all get 401 "No token provided" |
| `AuthAgreement.SocketAdmissionImpliesHttpPass` | apps/http-backend/src/middleware.ts:27-34 | a non-empty token that opens a socket passes the middleware as `Bearer <token>` with the same user id |
| `AuthAgreement.HttpIsMoreLenient` | apps/http-backend/src/middleware.ts:31 | a payload whose `userId` is empty passes HTTP but is refused a socket |
| `AuthAgreement.EmptyTokenIsRefusedByBoth` | apps/ws-backend/src/index.ts:39-47 | with a verifier that throws on the empty token, as `jwt.verify` does, a socket with no or an empty `token` is closed and not registered, and HTTP answers 401 "No token provided" |

## Left out

- Canvas side effects: the model omits `clearRect`, the background fill and
  stroke styles. A redraw is the transform plus the stroke list.
- `destroy()` and listener registration: these are DOM wiring.
- `JSON.parse` and `JSON.stringify`: messages are datatypes. A malformed
  payload would make the source throw inside the handler; that path is not
  modelled. An incoming `shape` is assumed to be a well-formed shape.
- URL and query parsing: a connection carries only "has a URL" and the
  `token` query parameter.
- Concurrency: each handler is one atomic step. The source awaits the room
  lookup and the insert, so other messages can interleave there. The race
  between the history fetch and live input is modelled only at handler
  granularity: `HistoryLoaded` may occur anywhere in a trace, and
  `DrawLemmas.LateHistoryReplacesShapes` shows a late fetch drops every
  shape added before it.
- Transport failures of `ws.send` and `socket.send` are not modelled, and
  neither is logging.
- Coordinates are mathematical reals, not IEEE-754 doubles.
- Eraser hit-testing, zoom, focal-point math, screen-to-world conversion and
  echo de-duplication do not exist in the code, so the model has none.
- The React pages and components, the auth pages and the CRUD routes are
  outside the core. Only the `Tool` union is taken from them.
- Js.ToNumber: reads only plain decimal digit strings. Signs, fractions,
  exponents, hex and surrounding whitespace give NaN here, unlike
  JavaScript's `Number`. JSON numbers are integers. Field values are scalars,
  not objects or arrays.
- Relay.Run: the backend functions are fixed for a whole trace. The same
  insert request gets the same answer, so fresh chat ids are not modelled.
