/** The room server: one process-wide table of rooms that the administrative
    HTTP handlers and the socket event handlers update in place. Every emit and
    every save request is appended, in order, to an outbound effect log. */
module Server {
  import opened Rooms
  import opened Store

  datatype NotFoundReason = RoomIdRequired | NoSuchRoom

  /** Outbound socket events with their payloads. */
  datatype Event =
    | UpdatePlayers(players: seq<Player>)
    | RoomNotFound(reason: NotFoundReason)
    | RoomFull
    | RoomDeleted
    | RollDiceResult(roll: int)
    | OpenModal(category: string)
    | CloseModal
    | FlipImage(category: string, newSrc: string, flipped: bool)

  /** An emit to the sending connection only, an emit to every connection in a
      room, or a save request carrying the table it serialises. */
  datatype Effect =
    | ToSender(conn: string, event: Event)
    | ToRoom(roomId: string, event: Event)
    | SaveRequested(snapshot: Table)

  datatype CreateReply = CreateForbidden | Created(roomId: string)

  datatype DeleteReply = DeleteForbidden | DeleteNotFound | Deleted

  /** JavaScript falsiness of the `roomId` a client sends to `joinRoom`:
      absent (undefined or null) or the empty string. */
  predicate MissingId(roomId: Option<string>)
  {
    roomId == None || roomId == Some("")
  }

  /** The administrative check is a strict comparison of the request's password
      with the configured one; either may be absent. */
  predicate Authorized(password: Option<string>, adminPassword: Option<string>)
  {
    password == adminPassword
  }

  class RoomEngine {
    var rooms: Table
    var log: seq<Effect>

    /** No room ever holds more players than there are colors. */
    ghost predicate Valid()
      reads this
    {
      WithinCapacity(rooms)
    }

    /** Startup: load the table from the store, or start empty if that fails. */
    constructor (store: BlobStore, downloadOk: bool)
      ensures Valid()
      ensures rooms == (if downloadOk && store.blob.Some? then Cleared(store.blob.value) else map[])
      ensures log == []
    {
      var loaded := store.Load(downloadOk);
      log := [];
      match loaded
      case Loaded(t) =>
        ClearedRooms(store.blob.value);
        rooms := t;
      case LoadFailed =>
        rooms := map[];
    }

    /** Request that the current table be written to the store. */
    method SaveRoomsToFile()
      modifies this
      ensures rooms == old(rooms)
      ensures log == old(log) + [SaveRequested(rooms)]
    {
      log := log + [SaveRequested(rooms)];
    }

    /** `GET /check-room`: whether the id is a key of the table. */
    method CheckRoom(roomId: string) returns (found: bool)
      ensures found <==> roomId in rooms
    {
      found := roomId in rooms;
    }

    /** `POST /create-room`: insert an empty room under the fresh id, with no
        check that the id is unused, and request a save. */
    method CreateRoom(password: Option<string>, adminPassword: Option<string>, freshId: string, now: Timestamp)
      returns (reply: CreateReply)
      requires Valid()
      modifies this
      ensures Valid()
      ensures !Authorized(password, adminPassword) ==>
        reply == CreateForbidden && rooms == old(rooms) && log == old(log)
      ensures Authorized(password, adminPassword) ==>
        && reply == Created(freshId)
        && rooms == old(rooms)[freshId := Room([], now)]
        && log == old(log) + [SaveRequested(rooms)]
    {
      if !Authorized(password, adminPassword) {
        return CreateForbidden;
      }
      rooms := rooms[freshId := Room([], now)];
      SaveRoomsToFile();
      reply := Created(freshId);
    }

    /** `DELETE /delete-room`: notify the room, then remove its key, then
        request a save. */
    method DeleteRoom(password: Option<string>, adminPassword: Option<string>, roomId: string)
      returns (reply: DeleteReply)
      requires Valid()
      modifies this
      ensures Valid()
      ensures !Authorized(password, adminPassword) ==>
        reply == DeleteForbidden && rooms == old(rooms) && log == old(log)
      ensures Authorized(password, adminPassword) && roomId !in old(rooms) ==>
        reply == DeleteNotFound && rooms == old(rooms) && log == old(log)
      ensures Authorized(password, adminPassword) && roomId in old(rooms) ==>
        && reply == Deleted
        && rooms == old(rooms) - {roomId}
        && log == old(log) + [ToRoom(roomId, RoomDeleted), SaveRequested(rooms)]
    {
      if !Authorized(password, adminPassword) {
        return DeleteForbidden;
      }
      if roomId !in rooms {
        return DeleteNotFound;
      }
      log := log + [ToRoom(roomId, RoomDeleted)];
      rooms := rooms - {roomId};
      SaveRoomsToFile();
      reply := Deleted;
    }

    /** Socket event `joinRoom`: refuse a missing id, an unknown room or a full
        room with a notice to the sender; otherwise append the new player, take
        color and start slot from the roster length, request a save and send
        the whole roster to the room. */
    method JoinRoom(conn: string, roomId: Option<string>)
      requires Valid()
      modifies this
      ensures Valid()
      ensures MissingId(roomId) ==>
        rooms == old(rooms) && log == old(log) + [ToSender(conn, RoomNotFound(RoomIdRequired))]
      ensures !MissingId(roomId) && roomId.value !in old(rooms) ==>
        rooms == old(rooms) && log == old(log) + [ToSender(conn, RoomNotFound(NoSuchRoom))]
      ensures !MissingId(roomId) && roomId.value in old(rooms)
              && |old(rooms)[roomId.value].players| >= MaxPlayers ==>
        rooms == old(rooms) && log == old(log) + [ToSender(conn, RoomFull)]
      ensures !MissingId(roomId) && roomId.value in old(rooms)
              && |old(rooms)[roomId.value].players| < MaxPlayers ==>
        var id := roomId.value;
        var before := old(rooms)[id];
        && rooms == old(rooms)[id := before.(players := before.players + [NewPlayer(conn, |before.players|)])]
        && log == old(log) + [SaveRequested(rooms), ToRoom(id, UpdatePlayers(rooms[id].players))]
    {
      if MissingId(roomId) {
        log := log + [ToSender(conn, RoomNotFound(RoomIdRequired))];
        return;
      }
      var id := roomId.value;
      if id !in rooms {
        log := log + [ToSender(conn, RoomNotFound(NoSuchRoom))];
        return;
      }
      var room := rooms[id];
      if |room.players| >= |PlayerColors| {
        log := log + [ToSender(conn, RoomFull)];
        return;
      }
      var player := NewPlayer(conn, |room.players|);
      rooms := rooms[id := room.(players := room.players + [player])];
      SaveRoomsToFile();
      log := log + [ToRoom(id, UpdatePlayers(rooms[id].players))];
    }

    /** Socket event `movePlayer`: the first player of the sender in the room
        takes the given percentages as its position and the room gets the whole
        roster; no save is requested. */
    method MovePlayer(conn: string, roomId: string, xPercent: real, yPercent: real)
      requires Valid()
      modifies this
      ensures Valid()
      ensures roomId !in old(rooms) ==>
        rooms == old(rooms) && log == old(log) + [ToSender(conn, RoomNotFound(NoSuchRoom))]
      ensures roomId in old(rooms) && FirstIndexOf(old(rooms)[roomId].players, conn).None? ==>
        rooms == old(rooms) && log == old(log)
      ensures roomId in old(rooms) && FirstIndexOf(old(rooms)[roomId].players, conn).Some? ==>
        var before := old(rooms)[roomId];
        var i := FirstIndexOf(before.players, conn).value;
        && rooms == old(rooms)[roomId := before.(players :=
             before.players[i := before.players[i].(position := Pct(xPercent, yPercent))])]
        && log == old(log) + [ToRoom(roomId, UpdatePlayers(rooms[roomId].players))]
    {
      if roomId !in rooms {
        log := log + [ToSender(conn, RoomNotFound(NoSuchRoom))];
        return;
      }
      var room := rooms[roomId];
      match FirstIndexOf(room.players, conn)
      case None =>
      case Some(i) =>
        var moved := room.players[i].(position := Pct(xPercent, yPercent));
        rooms := rooms[roomId := room.(players := room.players[i := moved])];
        log := log + [ToRoom(roomId, UpdatePlayers(rooms[roomId].players))];
    }

    /** Shared shape of the four relay events: an unknown room gets a notice to
        the sender, a known one gets the event; the table never changes. */
    method Relay(conn: string, roomId: string, event: Event)
      modifies this
      ensures rooms == old(rooms)
      ensures roomId !in rooms ==> log == old(log) + [ToSender(conn, RoomNotFound(NoSuchRoom))]
      ensures roomId in rooms ==> log == old(log) + [ToRoom(roomId, event)]
    {
      if roomId !in rooms {
        log := log + [ToSender(conn, RoomNotFound(NoSuchRoom))];
      } else {
        log := log + [ToRoom(roomId, event)];
      }
    }

    /** Socket event `rollDice`: relay the client's roll to the room. */
    method RollDice(conn: string, roomId: string, roll: int)
      modifies this
      ensures rooms == old(rooms)
      ensures roomId !in rooms ==> log == old(log) + [ToSender(conn, RoomNotFound(NoSuchRoom))]
      ensures roomId in rooms ==> log == old(log) + [ToRoom(roomId, RollDiceResult(roll))]
    {
      Relay(conn, roomId, RollDiceResult(roll));
    }

    /** Socket event `openModal`: relay the category to the room. */
    method OpenModalEvent(conn: string, roomId: string, category: string)
      modifies this
      ensures rooms == old(rooms)
      ensures roomId !in rooms ==> log == old(log) + [ToSender(conn, RoomNotFound(NoSuchRoom))]
      ensures roomId in rooms ==> log == old(log) + [ToRoom(roomId, OpenModal(category))]
    {
      Relay(conn, roomId, OpenModal(category));
    }

    /** Socket event `closeModal`: relay a payload-free close to the room. */
    method CloseModalEvent(conn: string, roomId: string)
      modifies this
      ensures rooms == old(rooms)
      ensures roomId !in rooms ==> log == old(log) + [ToSender(conn, RoomNotFound(NoSuchRoom))]
      ensures roomId in rooms ==> log == old(log) + [ToRoom(roomId, CloseModal)]
    {
      Relay(conn, roomId, CloseModal);
    }

    /** Socket event `flipImage`: relay the card flip to the room. */
    method FlipImageEvent(conn: string, roomId: string, category: string, newSrc: string, flipped: bool)
      modifies this
      ensures rooms == old(rooms)
      ensures roomId !in rooms ==> log == old(log) + [ToSender(conn, RoomNotFound(NoSuchRoom))]
      ensures roomId in rooms ==> log == old(log) + [ToRoom(roomId, FlipImage(category, newSrc, flipped))]
    {
      Relay(conn, roomId, FlipImage(category, newSrc, flipped));
    }

    /** Socket event `disconnect`: walk every room of the table, drop the
        connection's players and send each room its roster, whether or not it
        ever held the connection. `order` is the order the walk visited the
        rooms in: each room exactly once. No save is requested. */
    method Disconnect(conn: string) returns (ghost order: seq<string>)
      requires Valid()
      modifies this
      ensures Valid()
      ensures rooms.Keys == old(rooms).Keys
      ensures forall id :: id in rooms ==>
        rooms[id] == old(rooms)[id].(players := WithoutPlayer(old(rooms)[id].players, conn))
      ensures forall id, p :: id in rooms && p in rooms[id].players ==> p.id != conn
      ensures forall id :: id in rooms ==> IsSubsequence(rooms[id].players, old(rooms)[id].players)
      ensures forall id :: id in order <==> id in rooms
      ensures forall i, j :: 0 <= i < j < |order| ==> order[i] != order[j]
      ensures |log| == |old(log)| + |order| && log[..|old(log)|] == old(log)
      ensures forall i :: 0 <= i < |order| ==>
        log[|old(log)| + i] == ToRoom(order[i], UpdatePlayers(rooms[order[i]].players))
    {
      var todo := rooms.Keys;
      order := [];
      while todo != {}
        invariant todo <= old(rooms).Keys && rooms.Keys == old(rooms).Keys
        invariant forall id :: id in todo ==> rooms[id] == old(rooms)[id]
        invariant forall id :: id in rooms && id !in todo ==>
          rooms[id] == old(rooms)[id].(players := WithoutPlayer(old(rooms)[id].players, conn))
        invariant forall id :: id in order <==> id in rooms && id !in todo
        invariant forall i, j :: 0 <= i < j < |order| ==> order[i] != order[j]
        invariant |log| == |old(log)| + |order| && log[..|old(log)|] == old(log)
        invariant forall i :: 0 <= i < |order| ==>
          log[|old(log)| + i] == ToRoom(order[i], UpdatePlayers(rooms[order[i]].players))
        invariant Valid()
        decreases todo
      {
        var id :| id in todo;
        var room := rooms[id];
        rooms := rooms[id := room.(players := WithoutPlayer(room.players, conn))];
        log := log + [ToRoom(id, UpdatePlayers(rooms[id].players))];
        order := order + [id];
        todo := todo - {id};
      }
      forall id | id in rooms
        ensures forall p :: p in rooms[id].players ==> p.id != conn
        ensures IsSubsequence(rooms[id].players, old(rooms)[id].players)
      {
        WithoutPlayerMembers(old(rooms)[id].players, conn);
        WithoutPlayerKeepsOrder(old(rooms)[id].players, conn);
      }
    }
  }
}
