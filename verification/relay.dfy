/** The WebSocket room relay (the ws back end's connection handler).
    The module-level `users` array becomes a `Registry` value; each handler
    is one atomic step that returns the new registry and the effects it
    caused, in order. Token verification, the room lookup and the chat insert
    are foreign calls, given as the uninterpreted functions of a `Backend`. */
module Relay {
  import opened Options
  import opened Js
  import opened Jwt

  /** Socket identity (`ws` compared with `===`). */
  type ConnId = nat

  /** A registry entry: the socket, the rooms it joined in join order
      (repeats kept), and the user id its token carried. */
  datatype User = User(conn: ConnId, rooms: seq<Value>, userId: Value)

  /** The `users` array, plus the identity the next accepted socket gets:
      every connection is a fresh socket object. */
  datatype Registry = Registry(users: seq<User>, nextConn: ConnId)

  /** The fields of a parsed client message that the handler reads; an
      absent field is `Undefined`. */
  datatype ClientMsg = ClientMsg(msgType: Value, roomId: Value, room: Value, message: Value)

  /** What a foreign call threw: an `Error` with a message, or anything else. */
  datatype Thrown = ErrorObject(message: string) | NonError

  /** `prisma.room.findUnique({where: {id: Number(roomId)}})`. */
  datatype RoomLookup = Found | NotFound | LookupThrows(err: Thrown)

  /** The data of `prisma.chat.create`. */
  datatype ChatRow = ChatRow(roomId: Number, message: Value, userId: Value)

  /** The result of `prisma.chat.create`: the new row's id, or a throw. */
  datatype Created = Created(id: int) | CreateThrows(err: Thrown)

  datatype Backend = Backend(
    verify: Verifier,
    findRoom: Number -> RoomLookup,
    createChat: ChatRow -> Created)

  /** Messages the server sends to a socket. Both error kinds travel as
      `{type: "error", message: reason, ...}`. */
  datatype ServerMsg =
    | ChatOut(message: Value, roomId: Value, userId: Value, chatId: int)
    | RoomError(reason: string, roomId: Value)
    | SendFailure(reason: string, error: string)

  /** Observable effects of a step, in the order they happen. */
  datatype Effect =
    | Close(conn: ConnId)
    | Persist(row: ChatRow)
    | Send(to: ConnId, msg: ServerMsg)

  /** A new socket (whether its request had a URL, and the `token` query
      parameter), or a message arriving on an existing socket. */
  datatype Event =
    | Connection(hasUrl: bool, token: Option<string>)
    | Receive(conn: ConnId, data: ClientMsg)

  datatype Outcome = Outcome(registry: Registry, effects: seq<Effect>)

  const RoomNotFound := "Room not found"
  const NotAMember := "You are not a member of this room"
  const FailedToSend := "Failed to send message"
  const UnknownError := "Unknown error"

  const EmptyRegistry := Registry([], 0)

  /** `checkUser`: the token's user id when verification returns an object
      whose `userId` is truthy; nothing when verification throws, returns a
      string, or the claim is absent or falsy. */
  function CheckUser(verify: Verifier, token: string): (r: Option<Value>)
    ensures r.Some? <==>
              && verify(token).ObjectPayload?
              && verify(token).userId.Some?
              && Truthy(verify(token).userId.value)
    ensures r.Some? ==> verify(token) == ObjectPayload(Some(r.value))
  {
    match verify(token)
    case Throws => None
    case StringPayload(_) => None
    case ObjectPayload(claim) =>
      if claim.None? || !Truthy(claim.value) then None else Some(claim.value)
  }

  /** `users.find(x => x.ws === ws)`: the first entry of the socket. */
  function FindUser(users: seq<User>, conn: ConnId): (r: Option<nat>)
    ensures r.Some? ==> r.value < |users| && users[r.value].conn == conn
    ensures r.Some? ==> forall j :: 0 <= j < r.value ==> users[j].conn != conn
    ensures r.None? ==> forall j :: 0 <= j < |users| ==> users[j].conn != conn
    decreases |users|
  {
    if users == [] then None
    else if users[0].conn == conn then Some(0)
    else
      match FindUser(users[1..], conn)
      case None => None
      case Some(i) => Some(i + 1)
  }

  /** The membership test the chat handler uses: the socket's entry lists
      the room id, compared with `includes` (no coercion). */
  function IsMember(users: seq<User>, conn: ConnId, roomId: Value): (b: bool)
    ensures b ==> exists j :: 0 <= j < |users| && users[j].conn == conn && roomId in users[j].rooms
    ensures (forall j :: 0 <= j < |users| ==> users[j].conn != conn) ==> !b
  {
    match FindUser(users, conn)
    case None => false
    case Some(i) => roomId in users[i].rooms
  }

  /** `rooms.filter(x => x === room)`: the entries equal to `room`, which is
      every copy of `room` and nothing else. */
  function KeepEqual(rooms: seq<Value>, room: Value): (r: seq<Value>)
    ensures forall k :: 0 <= k < |r| ==> r[k] == room
    ensures |r| == multiset(rooms)[room]
    decreases |rooms|
  {
    if rooms == [] then []
    else
      assert rooms == [rooms[0]] + rooms[1..];
      (if rooms[0] == room then [rooms[0]] else []) + KeepEqual(rooms[1..], room)
  }

  /** The broadcast loop: one send per entry, in registry order, to every
      entry whose room list includes `roomId`. */
  function FanOut(users: seq<User>, roomId: Value, msg: ServerMsg): (r: seq<Effect>)
    ensures forall k :: 0 <= k < |r| ==> r[k].Send? && r[k].msg == msg
    ensures forall k :: 0 <= k < |r| ==>
              exists j :: 0 <= j < |users| && roomId in users[j].rooms && r[k].to == users[j].conn
    ensures forall j :: 0 <= j < |users| && roomId in users[j].rooms ==> Send(users[j].conn, msg) in r
    ensures |r| <= |users|
    decreases |users|
  {
    if users == [] then []
    else
      (if roomId in users[0].rooms then [Send(users[0].conn, msg)] else [])
      + FanOut(users[1..], roomId, msg)
  }

  function ErrorText(t: Thrown): string {
    match t
    case ErrorObject(m) => m
    case NonError => UnknownError
  }

  /** Whether a chat gets through: the room lookup finds the room, the sender
      is a member, and the insert succeeds. */
  predicate Accepted(users: seq<User>, sender: ConnId, userId: Value, data: ClientMsg, backend: Backend) {
    && backend.findRoom(ToNumber(data.roomId)) == Found
    && IsMember(users, sender, data.roomId)
    && backend.createChat(ChatRow(ToNumber(data.roomId), data.message, userId)).Created?
  }

  /** The `chat` branch: room lookup, membership check, insert, broadcast.
      A rejected chat costs exactly one message, to the sender, and nothing
      is stored; an accepted chat is stored once, before anything is sent,
      and then broadcast. */
  function HandleChat(users: seq<User>, sender: ConnId, userId: Value, data: ClientMsg, backend: Backend)
    : (effects: seq<Effect>)
    ensures var lookup := backend.findRoom(ToNumber(data.roomId));
            var row := ChatRow(ToNumber(data.roomId), data.message, userId);
            && (lookup.LookupThrows? ==>
                  effects == [Send(sender, SendFailure(FailedToSend, ErrorText(lookup.err)))])
            && (lookup.NotFound? ==>
                  effects == [Send(sender, RoomError(RoomNotFound, data.roomId))])
            && (lookup.Found? && !IsMember(users, sender, data.roomId) ==>
                  effects == [Send(sender, RoomError(NotAMember, data.roomId))])
            && (lookup.Found? && IsMember(users, sender, data.roomId) && backend.createChat(row).CreateThrows? ==>
                  effects == [Send(sender, SendFailure(FailedToSend, ErrorText(backend.createChat(row).err)))])
            && (Accepted(users, sender, userId, data, backend) ==>
                  && |effects| >= 1
                  && effects[0] == Persist(row)
                  && effects[1..] == FanOut(users, data.roomId,
                       ChatOut(data.message, data.roomId, userId, backend.createChat(row).id)))
    ensures !Accepted(users, sender, userId, data, backend) ==>
              |effects| == 1 && effects[0].Send? && effects[0].to == sender && !effects[0].msg.ChatOut?
  {
    var roomId := data.roomId;
    match backend.findRoom(ToNumber(roomId))
    case LookupThrows(e) => [Send(sender, SendFailure(FailedToSend, ErrorText(e)))]
    case NotFound => [Send(sender, RoomError(RoomNotFound, roomId))]
    case Found =>
      if !IsMember(users, sender, roomId) then
        [Send(sender, RoomError(NotAMember, roomId))]
      else
        var row := ChatRow(ToNumber(roomId), data.message, userId);
        match backend.createChat(row)
        case CreateThrows(e) => [Send(sender, SendFailure(FailedToSend, ErrorText(e)))]
        case Created(id) => [Persist(row)] + FanOut(users, roomId, ChatOut(data.message, roomId, userId, id))
  }

  /** The `connection` handler. Every connection consumes a fresh socket
      identity. Without a request URL nothing else happens; a token that
      yields no user id closes the socket; otherwise exactly one entry with
      no rooms is appended. */
  function Connect(reg: Registry, hasUrl: bool, token: Option<string>, verify: Verifier): (r: Outcome)
    ensures r.registry.nextConn == reg.nextConn + 1
    ensures var u := CheckUser(verify, token.GetOr(""));
            && (!hasUrl ==> r.registry.users == reg.users && r.effects == [])
            && (hasUrl && u.None? ==> r.registry.users == reg.users && r.effects == [Close(reg.nextConn)])
            && (hasUrl && u.Some? ==>
                  r.registry.users == reg.users + [User(reg.nextConn, [], u.value)] && r.effects == [])
  {
    var conn := reg.nextConn;
    var next := reg.(nextConn := conn + 1);
    if !hasUrl then Outcome(next, [])
    else
      match CheckUser(verify, token.GetOr(""))
      case None => Outcome(next, [Close(conn)])
      case Some(userId) => Outcome(next.(users := reg.users + [User(conn, [], userId)]), [])
  }

  /** The `message` handler of a registered socket. A socket with no entry
      never had a handler installed, so its messages do nothing. */
  function HandleMessage(reg: Registry, conn: ConnId, data: ClientMsg, backend: Backend): (r: Outcome)
    ensures FindUser(reg.users, conn).None? ==> r == Outcome(reg, [])
    ensures r.registry.nextConn == reg.nextConn
    ensures |r.registry.users| == |reg.users|
    ensures forall j :: 0 <= j < |reg.users| ==>
              r.registry.users[j].conn == reg.users[j].conn && r.registry.users[j].userId == reg.users[j].userId
    ensures forall j :: 0 <= j < |reg.users| && FindUser(reg.users, conn) != Some(j) ==>
              r.registry.users[j] == reg.users[j]
    ensures data.msgType != Str("join_room") && data.msgType != Str("leave_room") ==> r.registry == reg
    ensures data.msgType != Str("chat") ==> r.effects == []
    ensures FindUser(reg.users, conn).Some? ==>
              var i := FindUser(reg.users, conn).value;
              var before := reg.users[i].rooms;
              var after := r.registry.users[i].rooms;
              && (data.msgType == Str("join_room") ==> after == before + [data.roomId])
              && (data.msgType == Str("leave_room") ==>
                    (forall k :: 0 <= k < |after| ==> after[k] == data.room)
                    && |after| == multiset(before)[data.room])
              && (data.msgType == Str("chat") ==>
                    r.effects == HandleChat(reg.users, conn, reg.users[i].userId, data, backend))
  {
    match FindUser(reg.users, conn)
    case None => Outcome(reg, [])
    case Some(i) =>
      var u := reg.users[i];
      if data.msgType == Str("join_room") then
        Outcome(reg.(users := reg.users[i := u.(rooms := u.rooms + [data.roomId])]), [])
      else if data.msgType == Str("leave_room") then
        Outcome(reg.(users := reg.users[i := u.(rooms := KeepEqual(u.rooms, data.room))]), [])
      else if data.msgType == Str("chat") then
        Outcome(reg, HandleChat(reg.users, conn, u.userId, data, backend))
      else
        Outcome(reg, [])
  }

  /** One event: a new socket is admitted or refused, a message is handled. */
  function Step(reg: Registry, e: Event, backend: Backend): (r: Outcome)
    ensures Extends(reg, r.registry)
    ensures e.Connection? ==> r.registry.nextConn == reg.nextConn + 1 && |r.registry.users| <= |reg.users| + 1
    ensures e.Receive? ==> r.registry.nextConn == reg.nextConn && |r.registry.users| == |reg.users|
    ensures e.Receive? && FindUser(reg.users, e.conn).None? ==> r == Outcome(reg, [])
  {
    match e
    case Connection(hasUrl, token) => Connect(reg, hasUrl, token, backend.verify)
    case Receive(conn, data) => HandleMessage(reg, conn, data, backend)
  }

  /** The entries of `reg` are still at the front of `reg'`, with the same
      socket and user id: the relay never removes an entry. */
  predicate Extends(reg: Registry, reg': Registry) {
    && |reg.users| <= |reg'.users|
    && reg.nextConn <= reg'.nextConn
    && forall j :: 0 <= j < |reg.users| ==>
         reg'.users[j].conn == reg.users[j].conn && reg'.users[j].userId == reg.users[j].userId
  }

  /** Events handled one at a time; effects are concatenated in order. */
  function Run(reg: Registry, es: seq<Event>, backend: Backend): (r: Outcome)
    ensures Extends(reg, r.registry)
    decreases |es|
  {
    if es == [] then Outcome(reg, [])
    else
      var first := Step(reg, es[0], backend);
      var rest := Run(first.registry, es[1..], backend);
      Outcome(rest.registry, first.effects + rest.effects)
  }
}
