/** Properties of the relay over single messages and whole event traces:
    who receives a chat, that rejections reach the sender only, that socket
    identities stay distinct, and that a room list only ever holds ids the
    socket asked to join. */
module RelayLemmas {
  import opened Options
  import opened Js
  import opened Jwt
  import opened Relay

  predicate UniqueConns(users: seq<User>) {
    forall i, j :: 0 <= i < j < |users| ==> users[i].conn != users[j].conn
  }

  /** Socket identities in the registry are distinct and all already issued. */
  predicate WellFormed(reg: Registry) {
    && UniqueConns(reg.users)
    && forall j :: 0 <= j < |reg.users| ==> reg.users[j].conn < reg.nextConn
  }

  /** Some entry of socket `c` lists `roomId`: the set of sockets the room
      "has", independent of how the handler looks entries up. */
  predicate InRoom(users: seq<User>, c: ConnId, roomId: Value) {
    exists j :: 0 <= j < |users| && users[j].conn == c && roomId in users[j].rooms
  }

  /** How many messages the effects send to socket `c`. */
  function SendsTo(effs: seq<Effect>, c: ConnId): nat
    decreases |effs|
  {
    if effs == [] then 0
    else (if effs[0].Send? && effs[0].to == c then 1 else 0) + SendsTo(effs[1..], c)
  }

  /** How many chat rows the effects store. */
  function Persists(effs: seq<Effect>): nat
    decreases |effs|
  {
    if effs == [] then 0
    else (if effs[0].Persist? then 1 else 0) + Persists(effs[1..])
  }

  /** The (socket, room id) pairs that `join_room` messages of a trace asked for. */
  function Joins(es: seq<Event>): set<(ConnId, Value)>
    decreases |es|
  {
    if es == [] then {}
    else
      (if es[0].Receive? && es[0].data.msgType == Str("join_room")
       then {(es[0].conn, es[0].data.roomId)} else {})
      + Joins(es[1..])
  }

  /** Every room id in every entry is one the entry's socket asked to join. */
  predicate RoomsRequested(reg: Registry, asked: set<(ConnId, Value)>) {
    forall j, v :: 0 <= j < |reg.users| && v in reg.users[j].rooms ==> (reg.users[j].conn, v) in asked
  }

  lemma {:induction false} SendsToConcat(a: seq<Effect>, b: seq<Effect>, c: ConnId)
    ensures SendsTo(a + b, c) == SendsTo(a, c) + SendsTo(b, c)
    decreases |a|
  {
    if a == [] {
      assert a + b == b;
    } else {
      assert (a + b)[1..] == a[1..] + b;
      SendsToConcat(a[1..], b, c);
    }
  }

  /** Effects that are all sends store no chat row. */
  lemma {:induction false} SendsStoreNothing(effs: seq<Effect>)
    requires forall k :: 0 <= k < |effs| ==> effs[k].Send?
    ensures Persists(effs) == 0
    decreases |effs|
  {
    if effs != [] {
      SendsStoreNothing(effs[1..]);
    }
  }

  lemma FanOutStoresNothing(users: seq<User>, roomId: Value, msg: ServerMsg)
    ensures Persists(FanOut(users, roomId, msg)) == 0
  {
    SendsStoreNothing(FanOut(users, roomId, msg));
  }

  /** With distinct socket identities, the broadcast sends exactly one
      message to each socket in the room and none to any other socket. */
  lemma {:induction false} FanOutReachesEachMemberOnce(users: seq<User>, roomId: Value, msg: ServerMsg, c: ConnId)
    requires UniqueConns(users)
    ensures SendsTo(FanOut(users, roomId, msg), c) == if InRoom(users, c, roomId) then 1 else 0
    decreases |users|
  {
    if users != [] {
      var head := if roomId in users[0].rooms then [Send(users[0].conn, msg)] else [];
      var tail := FanOut(users[1..], roomId, msg);
      assert FanOut(users, roomId, msg) == head + tail;
      SendsToConcat(head, tail, c);
      if head != [] {
        assert head[1..] == [];
      }
      InRoomCons(users, c, roomId);
      FanOutReachesEachMemberOnce(users[1..], roomId, msg, c);
    }
  }

  /** Membership split at the first entry: with distinct sockets, a socket
      is in the room through its first entry or through the rest, never both. */
  lemma InRoomCons(users: seq<User>, c: ConnId, roomId: Value)
    requires UniqueConns(users) && users != []
    ensures UniqueConns(users[1..])
    ensures InRoom(users, c, roomId) <==>
              (users[0].conn == c && roomId in users[0].rooms) || InRoom(users[1..], c, roomId)
    ensures users[0].conn == c ==> !InRoom(users[1..], c, roomId)
  {
    forall i, j | 0 <= i < j < |users[1..]| ensures users[1..][i].conn != users[1..][j].conn {
      assert users[1..][i] == users[i + 1] && users[1..][j] == users[j + 1];
    }
    if InRoom(users, c, roomId) {
      var j :| 0 <= j < |users| && users[j].conn == c && roomId in users[j].rooms;
      if j > 0 {
        assert users[1..][j - 1] == users[j];
      }
    }
    if InRoom(users[1..], c, roomId) {
      var j :| 0 <= j < |users[1..]| && users[1..][j].conn == c && roomId in users[1..][j].rooms;
      assert users[j + 1] == users[1..][j];
    }
  }

  /** With distinct socket identities, the handler's lookup-based membership
      test agrees with `InRoom`. */
  lemma MembershipIsInRoom(users: seq<User>, c: ConnId, roomId: Value)
    requires UniqueConns(users)
    ensures IsMember(users, c, roomId) <==> InRoom(users, c, roomId)
  {
    if InRoom(users, c, roomId) {
      var j :| 0 <= j < |users| && users[j].conn == c && roomId in users[j].rooms;
      var i := FindUser(users, c).value;
      assert i == j;
    }
  }

  /** A chat message from a registered socket never changes the registry.
      An accepted chat stores one row before its first send and then reaches
      every socket in the room, the sender included, exactly once, always
      with the same message, room id, sender's user id and new chat id. A
      rejected chat stores nothing and sends one message, to the sender. */
  lemma ChatDelivery(reg: Registry, conn: ConnId, data: ClientMsg, backend: Backend)
    requires WellFormed(reg)
    requires data.msgType == Str("chat")
    requires FindUser(reg.users, conn).Some?
    ensures var r := HandleMessage(reg, conn, data, backend);
            var userId := reg.users[FindUser(reg.users, conn).value].userId;
            var row := ChatRow(ToNumber(data.roomId), data.message, userId);
            && r.registry == reg
            && (Accepted(reg.users, conn, userId, data, backend) ==>
                  && r.effects[0] == Persist(row)
                  && Persists(r.effects) == 1
                  && (forall k :: 1 <= k < |r.effects| ==>
                        r.effects[k].Send? &&
                        r.effects[k].msg == ChatOut(data.message, data.roomId, userId, backend.createChat(row).id))
                  && SendsTo(r.effects, conn) == 1
                  && (forall c :: SendsTo(r.effects, c) == if InRoom(reg.users, c, data.roomId) then 1 else 0))
            && (!Accepted(reg.users, conn, userId, data, backend) ==>
                  && Persists(r.effects) == 0
                  && (forall c :: SendsTo(r.effects, c) == if c == conn then 1 else 0))
  {
    var r := HandleMessage(reg, conn, data, backend);
    var i := FindUser(reg.users, conn).value;
    var userId := reg.users[i].userId;
    var row := ChatRow(ToNumber(data.roomId), data.message, userId);
    assert r.effects == HandleChat(reg.users, conn, userId, data, backend);
    if Accepted(reg.users, conn, userId, data, backend) {
      var msg := ChatOut(data.message, data.roomId, userId, backend.createChat(row).id);
      assert r.effects == [Persist(row)] + FanOut(reg.users, data.roomId, msg);
      MembershipIsInRoom(reg.users, conn, data.roomId);
      StoreThenBroadcast(reg.users, data.roomId, row, msg, conn);
    } else {
      assert r.effects[1..] == [];
    }
  }

  /** The effects of an accepted chat: the row is stored once, first, and
      the broadcast then reaches each socket in the room once. */
  lemma StoreThenBroadcast(users: seq<User>, roomId: Value, row: ChatRow, msg: ServerMsg, sender: ConnId)
    requires UniqueConns(users)
    requires InRoom(users, sender, roomId)
    ensures var effs := [Persist(row)] + FanOut(users, roomId, msg);
            && effs[0] == Persist(row)
            && Persists(effs) == 1
            && (forall k :: 1 <= k < |effs| ==> effs[k].Send? && effs[k].msg == msg)
            && SendsTo(effs, sender) == 1
            && (forall c :: SendsTo(effs, c) == if InRoom(users, c, roomId) then 1 else 0)
  {
    var fan := FanOut(users, roomId, msg);
    var effs := [Persist(row)] + fan;
    assert effs[1..] == fan;
    FanOutStoresNothing(users, roomId, msg);
    forall c
      ensures SendsTo(effs, c) == if InRoom(users, c, roomId) then 1 else 0
    {
      FanOutReachesEachMemberOnce(users, roomId, msg, c);
    }
  }

  /** Lookups depend only on the socket identities of the entries. */
  lemma {:induction false} FindUserDependsOnConns(a: seq<User>, b: seq<User>, c: ConnId)
    requires |a| == |b|
    requires forall j :: 0 <= j < |a| ==> a[j].conn == b[j].conn
    ensures FindUser(a, c) == FindUser(b, c)
    decreases |a|
  {
    if a != [] {
      FindUserDependsOnConns(a[1..], b[1..], c);
    }
  }

  /** `join_room` is not idempotent: joining the same room twice lists it
      twice. */
  lemma JoinTwiceListsRoomTwice(reg: Registry, conn: ConnId, roomId: Value, backend: Backend)
    requires FindUser(reg.users, conn).Some?
    ensures var msg := ClientMsg(Str("join_room"), roomId, Undefined, Undefined);
            var once := HandleMessage(reg, conn, msg, backend);
            var twice := HandleMessage(once.registry, conn, msg, backend);
            var i := FindUser(reg.users, conn).value;
            twice.registry.users[i].rooms == reg.users[i].rooms + [roomId, roomId]
  {
    var msg := ClientMsg(Str("join_room"), roomId, Undefined, Undefined);
    var once := HandleMessage(reg, conn, msg, backend);
    FindUserDependsOnConns(reg.users, once.registry.users, conn);
  }

  /** `leave_room` keeps the entries equal to the message's `room` field and
      drops the rest: leaving room "1" from ["1", "2"] leaves ["1"], and a
      message carrying only `roomId` (no `room`) empties the list. */
  lemma LeaveKeepsOnlyTheNamedRoom(backend: Backend)
    ensures var reg := Registry([User(0, [Str("1"), Str("2")], Str("u"))], 1);
            var r := HandleMessage(reg, 0, ClientMsg(Str("leave_room"), Undefined, Str("1"), Undefined), backend);
            r.registry.users[0].rooms == [Str("1")]
    ensures var reg := Registry([User(0, [Str("1"), Str("2")], Str("u"))], 1);
            var r := HandleMessage(reg, 0, ClientMsg(Str("leave_room"), Str("1"), Undefined, Undefined), backend);
            r.registry.users[0].rooms == []
  {
    var rooms := [Str("1"), Str("2")];
    assert rooms[1..][1..] == [];
    assert KeepEqual(rooms, Str("1")) == [Str("1")];
    assert KeepEqual(rooms, Undefined) == [];
  }

  /** A `join_room` without `roomId` lists `undefined`, and a `leave_room`
      without `room` keeps exactly that entry: the filter compares every
      entry with `undefined`. */
  lemma LeaveWithoutRoomKeepsUndefined(backend: Backend)
    ensures var reg := Registry([User(0, [Str("1"), Str("2")], Str("u"))], 1);
            var joined := HandleMessage(reg, 0, ClientMsg(Str("join_room"), Undefined, Undefined, Undefined), backend);
            var r := HandleMessage(joined.registry, 0, ClientMsg(Str("leave_room"), Str("1"), Undefined, Undefined), backend);
            r.registry.users[0].rooms == [Undefined]
  {
    var u := User(0, [Str("1"), Str("2")], Str("u"));
    var reg := Registry([u], 1);
    var rooms := [Str("1"), Str("2"), Undefined];
    assert FindUser(reg.users, 0) == Some(0);
    var joined := HandleMessage(reg, 0, ClientMsg(Str("join_room"), Undefined, Undefined, Undefined), backend);
    assert u.rooms + [Undefined] == rooms;
    assert [u][0 := u.(rooms := rooms)] == [u.(rooms := rooms)];
    assert joined.registry == Registry([u.(rooms := rooms)], 1);
    assert FindUser(joined.registry.users, 0) == Some(0);
    assert rooms[1..] == [Str("2"), Undefined] && rooms[1..][1..] == [Undefined];
    assert rooms[1..][1..][1..] == [];
    assert KeepEqual(rooms, Undefined) == [Undefined];
  }

  /** The room check coerces the id with `Number` but the membership check
      compares it raw: a socket that joined "42" and sends a chat for the
      number 42 passes the room check and is then told it is not a member,
      while the same chat for "42" is broadcast. */
  lemma NumericRoomIdFailsMembership(message: Value, id: int)
    ensures var backend := Backend(
              (t: string) => ObjectPayload(Some(Str("u"))),
              (n: Number) => if n == Finite(42) then Found else NotFound,
              (row: ChatRow) => Created(id));
            var reg := Registry([User(0, [Str("42")], Str("u"))], 1);
            && HandleMessage(reg, 0, ClientMsg(Str("chat"), Num(42), Undefined, message), backend).effects
                 == [Send(0, RoomError(NotAMember, Num(42)))]
            && HandleMessage(reg, 0, ClientMsg(Str("chat"), Str("42"), Undefined, message), backend).effects
                 == [Persist(ChatRow(Finite(42), message, Str("u"))),
                     Send(0, ChatOut(message, Str("42"), Str("u"), id))]
  {
    StringAndNumberCoerceAlike(42);
    assert Decimal(42) == "42";
    var reg := Registry([User(0, [Str("42")], Str("u"))], 1);
    assert reg.users[1..] == [];
  }

  lemma StepPreservesWellFormed(reg: Registry, e: Event, backend: Backend)
    requires WellFormed(reg)
    ensures WellFormed(Step(reg, e, backend).registry)
  {
  }

  /** Socket identities stay distinct over any trace. */
  lemma {:induction false} RunPreservesWellFormed(reg: Registry, es: seq<Event>, backend: Backend)
    requires WellFormed(reg)
    ensures WellFormed(Run(reg, es, backend).registry)
    decreases |es|
  {
    if es != [] {
      StepPreservesWellFormed(reg, es[0], backend);
      RunPreservesWellFormed(Step(reg, es[0], backend).registry, es[1..], backend);
    }
  }

  lemma StepKeepsRoomsRequested(reg: Registry, e: Event, backend: Backend, asked: set<(ConnId, Value)>)
    requires RoomsRequested(reg, asked)
    ensures RoomsRequested(Step(reg, e, backend).registry,
                           asked + (if e.Receive? && e.data.msgType == Str("join_room")
                                    then {(e.conn, e.data.roomId)} else {}))
  {
    var extra := if e.Receive? && e.data.msgType == Str("join_room") then {(e.conn, e.data.roomId)} else {};
    var r := Step(reg, e, backend).registry;
    forall j, v | 0 <= j < |r.users| && v in r.users[j].rooms
      ensures (r.users[j].conn, v) in asked + extra
    {
      if e.Receive? && FindUser(reg.users, e.conn) == Some(j) {
        var before := reg.users[j].rooms;
        var after := r.users[j].rooms;
        var k :| 0 <= k < |after| && after[k] == v;
        if e.data.msgType == Str("leave_room") {
          assert v == e.data.room;
          assert multiset(before)[v] > 0;
          assert v in before;
        } else if e.data.msgType == Str("join_room") {
          assert after == before + [e.data.roomId];
          assert v in before || v == e.data.roomId;
        } else {
          assert after == before;
        }
      } else if j < |reg.users| {
        assert r.users[j] == reg.users[j];
      }
    }
  }

  /** A room list only ever holds ids its socket asked for with
      `join_room`: leaving never adds one. */
  lemma {:induction false} RunKeepsRoomsRequested(reg: Registry, es: seq<Event>, backend: Backend, asked: set<(ConnId, Value)>)
    requires RoomsRequested(reg, asked)
    ensures RoomsRequested(Run(reg, es, backend).registry, asked + Joins(es))
    decreases |es|
  {
    if es != [] {
      var e := es[0];
      var extra := if e.Receive? && e.data.msgType == Str("join_room") then {(e.conn, e.data.roomId)} else {};
      StepKeepsRoomsRequested(reg, e, backend, asked);
      RunKeepsRoomsRequested(Step(reg, e, backend).registry, es[1..], backend, asked + extra);
      assert asked + extra + Joins(es[1..]) == asked + Joins(es);
    }
  }

  /** From a fresh server, every room in every entry was asked for by a
      `join_room` on that entry's socket. */
  lemma FromStartRoomsAreRequested(es: seq<Event>, backend: Backend)
    ensures RoomsRequested(Run(EmptyRegistry, es, backend).registry, Joins(es))
    ensures WellFormed(Run(EmptyRegistry, es, backend).registry)
  {
    RunKeepsRoomsRequested(EmptyRegistry, es, backend, {});
    assert {} + Joins(es) == Joins(es);
    RunPreservesWellFormed(EmptyRegistry, es, backend);
  }
}
