/**
 * The event router of the lobby server: the socket handlers for
 * `create-room`, `join-room`, `remove-player`, `start-game` and `disconnect`,
 * reduced to what they do to the room dictionary and which event they send.
 */
module EventRouter {
  import opened RoomStore

  /** The per-connection error events. */
  datatype ErrorKind = JoinError | RemoveError | StartError

  const NoSuchRoomMessage := "Room does not exist"

  /**
   * What a handler sends. `RoomUpdate` and `GameStarted` go to every socket
   * in the room; `Reply` goes to the sending socket only; `Deleted` records
   * that the room was removed and nothing was sent for it; `Uncaught` is an
   * exception that escapes the handler.
   */
  datatype Event =
    | RoomUpdate(roomId: string)
    | GameStarted(roomId: string)
    | Reply(kind: ErrorKind, message: string)
    | Deleted(roomId: string)
    | Uncaught(message: string)

  /** The dictionary after a handler, and the event it sent. */
  datatype Step = Step(rooms: map<string, Room>, event: Event)

  /**
   * What holds between handlers: every room is valid for the store, was
   * created with capacity ten, and has at least one player.
   */
  ghost predicate Inv(rooms: map<string, Room>)
  {
    forall id | id in rooms ::
      ValidRoom(rooms[id]) && rooms[id].maxCapacity == Capacity && rooms[id].players != []
  }

  /** Every entry other than `roomId` is the same before and after. */
  ghost predicate SameExcept(before: map<string, Room>, after: map<string, Room>, roomId: string)
  {
    forall id | id != roomId ::
      (id in before <==> id in after) && (id in before ==> after[id] == before[id])
  }

  /** A room that has started is never moved back to the lobby. */
  ghost predicate StaysStarted(before: map<string, Room>, after: map<string, Room>)
  {
    forall id | id in before && id in after && before[id].state == Started :: after[id].state == Started
  }

  /** Some entry of `players` does not carry `name`, so filtering `name` out leaves someone. */
  predicate HasOtherThan(players: seq<Player>, name: string)
  {
    exists i | 0 <= i < |players| :: players[i].name != name
  }

  /** `create-room`: the store's throw escapes the handler; otherwise the new room is announced. */
  function CreateStep(rooms: map<string, Room>, roomId: string, player: Player): (s: Step)
    ensures roomId in rooms ==> s == Step(rooms, Uncaught(RoomExistsMessage))
    ensures roomId !in rooms ==>
              s.event == RoomUpdate(roomId) && roomId in s.rooms &&
              s.rooms[roomId].players == [player] && s.rooms[roomId].host == player.name &&
              s.rooms[roomId].state == Lobby && s.rooms[roomId].maxCapacity == Capacity
    ensures SameExcept(rooms, s.rooms, roomId)
    ensures StaysStarted(rooms, s.rooms)
    ensures Inv(rooms) ==> Inv(s.rooms)
  {
    if roomId in rooms then Step(rooms, Uncaught(RoomExistsMessage))
    else Step(rooms[roomId := NewRoom(player)], RoomUpdate(roomId))
  }

  /** `join-room`: an absent room and the store's error both reply `join-error` and change nothing. */
  function JoinStep(rooms: map<string, Room>, roomId: string, player: Player): (s: Step)
    ensures roomId !in rooms ==> s == Step(rooms, Reply(JoinError, NoSuchRoomMessage))
    ensures s.event.Reply? ==> s.rooms == rooms && s.event.kind == JoinError
    ensures roomId in rooms && HasName(rooms[roomId].players, player.name) ==>
              s.event == Reply(JoinError, DuplicateNameMessage)
    ensures roomId in rooms && !HasName(rooms[roomId].players, player.name) &&
            |rooms[roomId].players| >= rooms[roomId].maxCapacity ==>
              s.event == Reply(JoinError, RoomFullMessage)
    ensures s.event == RoomUpdate(roomId) <==>
              roomId in rooms && !HasName(rooms[roomId].players, player.name) &&
              |rooms[roomId].players| < rooms[roomId].maxCapacity
    ensures s.event == RoomUpdate(roomId) ==>
              s.rooms == rooms[roomId := rooms[roomId].(players := rooms[roomId].players + [player])]
    ensures SameExcept(rooms, s.rooms, roomId)
    ensures StaysStarted(rooms, s.rooms)
    ensures Inv(rooms) ==> Inv(s.rooms)
  {
    if roomId !in rooms then Step(rooms, Reply(JoinError, NoSuchRoomMessage))
    else
      var (room, result) := Join(rooms[roomId], player);
      match result
      case Failure(message) => Step(rooms, Reply(JoinError, message))
      case Success => Step(rooms[roomId := room], RoomUpdate(roomId))
  }

  /**
   * `remove-player`, with the removal done by `removePlayerByName`: the named
   * entries leave the room, and a room left without players is deleted.
   */
  function RemoveStep(rooms: map<string, Room>, roomId: string, playerId: string): (s: Step)
    ensures roomId !in rooms ==> s == Step(rooms, Reply(RemoveError, NoSuchRoomMessage))
    ensures roomId in rooms ==>
              (roomId in s.rooms <==> HasOtherThan(rooms[roomId].players, playerId)) &&
              (roomId in s.rooms ==> s.event == RoomUpdate(roomId)) &&
              (roomId !in s.rooms ==> s.event == Deleted(roomId))
    ensures roomId in s.rooms ==>
              s.rooms[roomId] == rooms[roomId].(players := Without(rooms[roomId].players, playerId))
    ensures SameExcept(rooms, s.rooms, roomId)
    ensures StaysStarted(rooms, s.rooms)
    ensures Inv(rooms) ==> Inv(s.rooms)
  {
    if roomId !in rooms then Step(rooms, Reply(RemoveError, NoSuchRoomMessage))
    else
      var players := rooms[roomId].players;
      var kept := Without(players, playerId);
      assert kept == [] <==> !HasOtherThan(players, playerId) by {
        if HasOtherThan(players, playerId) {
          var i :| 0 <= i < |players| && players[i].name != playerId;
          assert players[i] in kept;
        }
        if kept != [] {
          assert kept[0] in players;
        }
      }
      if kept == [] then Step(rooms - {roomId}, Deleted(roomId))
      else
        assert ValidRoom(rooms[roomId]) ==> NamesDistinct(kept) by {
          if ValidRoom(rooms[roomId]) { WithoutKeepsDistinct(players, playerId); }
        }
        Step(rooms[roomId := rooms[roomId].(players := kept)], RoomUpdate(roomId))
  }

  /** `start-game`: an existing room is marked started and told so. */
  function StartStep(rooms: map<string, Room>, roomId: string): (s: Step)
    ensures roomId !in rooms ==> s == Step(rooms, Reply(StartError, NoSuchRoomMessage))
    ensures roomId in rooms ==>
              s.event == GameStarted(roomId) && roomId in s.rooms &&
              s.rooms[roomId].state == Started &&
              s.rooms[roomId] == rooms[roomId].(state := Started)
    ensures SameExcept(rooms, s.rooms, roomId)
    ensures StaysStarted(rooms, s.rooms)
    ensures Inv(rooms) ==> Inv(s.rooms)
  {
    if roomId in rooms then Step(rooms[roomId := rooms[roomId].(state := Started)], GameStarted(roomId))
    else Step(rooms, Reply(StartError, NoSuchRoomMessage))
  }

  /**
   * The dictionary after `disconnect` has visited every room: `name` is
   * filtered out of each room, and the rooms left without players are gone.
   */
  function Disconnected(rooms: map<string, Room>, name: string): (after: map<string, Room>)
    ensures DisconnectedFrom(rooms, name, after)
    ensures StaysStarted(rooms, after)
    ensures Inv(rooms) ==> Inv(after)
  {
    var after := map id | id in rooms && Without(rooms[id].players, name) != [] ::
                   rooms[id].(players := Without(rooms[id].players, name));
    assert forall id | id in rooms :: id in after <==> HasOtherThan(rooms[id].players, name) by {
      forall id | id in rooms
        ensures id in after <==> HasOtherThan(rooms[id].players, name)
      {
        KeptIffOther(rooms[id].players, name);
      }
    }
    assert Inv(rooms) ==> Inv(after) by {
      if Inv(rooms) {
        forall id | id in after
          ensures ValidRoom(after[id])
        {
          WithoutKeepsDistinct(rooms[id].players, name);
        }
      }
    }
    after
  }

  /** The event `disconnect` sends for one room it visited. */
  function DisconnectEvent(after: map<string, Room>, roomId: string): Event
  {
    if roomId in after then RoomUpdate(roomId) else Deleted(roomId)
  }

  /** Filtering `name` out leaves someone exactly when someone else is there. */
  lemma KeptIffOther(players: seq<Player>, name: string)
    ensures Without(players, name) != [] <==> HasOtherThan(players, name)
  {
    if HasOtherThan(players, name) {
      var i :| 0 <= i < |players| && players[i].name != name;
      assert players[i] in Without(players, name);
    }
    if Without(players, name) != [] {
      assert Without(players, name)[0] in players;
    }
  }

  /** `after` is what visiting every room of `before` with `name` leaves, room by room. */
  ghost predicate DisconnectedFrom(before: map<string, Room>, name: string, after: map<string, Room>)
  {
    && after.Keys <= before.Keys
    && forall id | id in before ::
         && (id in after <==> HasOtherThan(before[id].players, name))
         && (id in after ==> after[id] == before[id].(players := Without(before[id].players, name)))
  }

  /**
   * How far `disconnect` has got with the dictionary: the rooms still
   * `pending` are as they were `before`, the visited ones are as in `after`.
   */
  ghost predicate RoomsProgress(before: map<string, Room>, after: map<string, Room>, pending: set<string>,
                                current: map<string, Room>)
  {
    && pending <= before.Keys
    && current.Keys <= before.Keys
    && (forall id | id in pending :: id in current && current[id] == before[id])
    && (forall id | id in before && id !in pending ::
          (id in current <==> id in after) && (id in after ==> current[id] == after[id]))
  }

  /**
   * How far `disconnect` has got with its events: `order` lists the rooms
   * visited so far, each once, and `events` holds the event of each, in
   * visiting order.
   */
  ghost predicate EventsProgress(before: map<string, Room>, after: map<string, Room>, pending: set<string>,
                                 events: seq<Event>, order: seq<string>)
  {
    && |order| + |pending| == |before|
    && |events| == |order|
    && (forall k | 0 <= k < |order| ::
          order[k] in before && order[k] !in pending && events[k] == DisconnectEvent(after, order[k]))
    && (forall i, j | 0 <= i < j < |order| :: order[i] != order[j])
  }

  /** Visiting one pending room keeps `RoomsProgress` and tells which event it sends. */
  lemma RoomsProgressStep(before: map<string, Room>, name: string, after: map<string, Room>, pending: set<string>,
                          current: map<string, Room>, roomId: string)
    requires DisconnectedFrom(before, name, after)
    requires RoomsProgress(before, after, pending, current) && roomId in pending
    ensures var s := RemoveStep(current, roomId, name);
            RoomsProgress(before, after, pending - {roomId}, s.rooms) && s.event == DisconnectEvent(after, roomId)
  {
    var s := RemoveStep(current, roomId, name);
    var rest := pending - {roomId};
    assert current[roomId] == before[roomId];
    assert roomId in s.rooms <==> roomId in after;
    forall id | id in rest
      ensures id in s.rooms && s.rooms[id] == before[id]
    {
      assert id != roomId;
    }
    forall id | id in before && id !in rest
      ensures (id in s.rooms <==> id in after) && (id in after ==> s.rooms[id] == after[id])
    {
      if id != roomId {
        assert id !in pending;
      }
    }
  }

  /** Recording the event of one pending room keeps `EventsProgress`. */
  lemma EventsProgressStep(before: map<string, Room>, after: map<string, Room>, pending: set<string>,
                           events: seq<Event>, order: seq<string>, roomId: string)
    requires pending <= before.Keys
    requires EventsProgress(before, after, pending, events, order) && roomId in pending
    ensures EventsProgress(before, after, pending - {roomId}, events + [DisconnectEvent(after, roomId)], order + [roomId])
  {
    var rest := pending - {roomId};
    assert |rest| == |pending| - 1;
    var order', events' := order + [roomId], events + [DisconnectEvent(after, roomId)];
    forall k | 0 <= k < |order'|
      ensures order'[k] in before && order'[k] !in rest && events'[k] == DisconnectEvent(after, order'[k])
    {
      if k < |order| {
        assert order'[k] == order[k] && events'[k] == events[k];
      }
    }
  }

  /** Once nothing is pending, the dictionary is `after`. */
  lemma ProgressDone(before: map<string, Room>, after: map<string, Room>, current: map<string, Room>)
    requires after.Keys <= before.Keys
    requires RoomsProgress(before, after, {}, current)
    ensures current == after
  {
    assert current.Keys == after.Keys;
    assert forall id | id in current :: current[id] == after[id];
  }

  /** Starting a game twice is the same as starting it once. */
  lemma StartIdempotent(rooms: map<string, Room>, roomId: string)
    ensures StartStep(StartStep(rooms, roomId).rooms, roomId) ==
            (if roomId in rooms then StartStep(rooms, roomId) else Step(rooms, Reply(StartError, NoSuchRoomMessage)))
  {
  }

  /**
   * A successful `join-room` followed by `remove-player` of the same name
   * gives back the dictionary it started from.
   */
  lemma {:induction false} JoinThenRemoveRestores(rooms: map<string, Room>, roomId: string, player: Player)
    requires Inv(rooms)
    requires JoinStep(rooms, roomId, player).event == RoomUpdate(roomId)
    ensures RemoveStep(JoinStep(rooms, roomId, player).rooms, roomId, player.name) == Step(rooms, RoomUpdate(roomId))
  {
    var room := rooms[roomId];
    var joinedRoom := room.(players := room.players + [player]);
    var joined := JoinStep(rooms, roomId, player).rooms;
    assert joined == rooms[roomId := joinedRoom];
    JoinThenRemove(room, player);
    assert Without(joinedRoom.players, player.name) == room.players;
    assert HasOtherThan(joinedRoom.players, player.name) by {
      assert room.players[0] in room.players;
      assert joinedRoom.players[0] == room.players[0];
    }
    var s := RemoveStep(joined, roomId, player.name);
    assert s.rooms[roomId] == room;
    assert s.rooms.Keys == rooms.Keys;
  }

  /** Removing a name that is not in the room keeps the room as it is and announces it. */
  lemma {:induction false} RemoveAbsentName(rooms: map<string, Room>, roomId: string, name: string)
    requires Inv(rooms) && roomId in rooms
    requires !HasName(rooms[roomId].players, name)
    ensures RemoveStep(rooms, roomId, name) == Step(rooms, RoomUpdate(roomId))
  {
    WithoutAbsent(rooms[roomId].players, name);
    var players := rooms[roomId].players;
    assert players[0].name != name;
    assert HasOtherThan(players, name);
    assert rooms[roomId].(players := players) == rooms[roomId];
  }

  /**
   * A `disconnect` whose id is no player's name changes no room; every room
   * only receives a `room-update`.
   */
  lemma {:induction false} DisconnectUnknownKeepsRooms(rooms: map<string, Room>, name: string)
    requires Inv(rooms)
    requires forall id | id in rooms :: !HasName(rooms[id].players, name)
    ensures Disconnected(rooms, name) == rooms
    ensures forall id | id in rooms :: DisconnectEvent(Disconnected(rooms, name), id) == RoomUpdate(id)
  {
    UnknownNameKeepsRooms(rooms, name, Disconnected(rooms, name));
  }

  /** The room-by-room form of `DisconnectUnknownKeepsRooms`. */
  lemma {:induction false} UnknownNameKeepsRooms(rooms: map<string, Room>, name: string, after: map<string, Room>)
    requires Inv(rooms) && DisconnectedFrom(rooms, name, after)
    requires forall id | id in rooms :: !HasName(rooms[id].players, name)
    ensures after == rooms
  {
    forall id | id in rooms
      ensures id in after && after[id] == rooms[id]
    {
      var players := rooms[id].players;
      WithoutAbsent(players, name);
      assert players[0].name != name;
      assert HasOtherThan(players, name);
      assert rooms[id].(players := players) == rooms[id];
    }
    assert after.Keys == rooms.Keys;
  }

  /**
   * The scenario of a short session: Alice creates "R1", Bob joins, Alice
   * leaves, Bob leaves. The room is gone afterwards, and joining or starting
   * it is refused.
   */
  lemma LobbyScenario(level: Level)
    ensures var alice, bob := Player("Alice", level), Player("Bob", level);
            var s1 := CreateStep(map[], "R1", alice);
            var s2 := JoinStep(s1.rooms, "R1", bob);
            var s3 := RemoveStep(s2.rooms, "R1", "Alice");
            var s4 := RemoveStep(s3.rooms, "R1", "Bob");
            && s1.rooms == map["R1" := Room("Alice", [alice], Lobby, Capacity)]
            && s2.rooms == map["R1" := Room("Alice", [alice, bob], Lobby, Capacity)]
            && s3 == Step(map["R1" := Room("Alice", [bob], Lobby, Capacity)], RoomUpdate("R1"))
            && s4 == Step(map[], Deleted("R1"))
            && JoinStep(s4.rooms, "R1", alice).event == Reply(JoinError, NoSuchRoomMessage)
            && StartStep(s4.rooms, "R1").event == Reply(StartError, NoSuchRoomMessage)
  {
    var alice, bob := Player("Alice", level), Player("Bob", level);
    var s1 := CreateStep(map[], "R1", alice);
    assert s1.rooms == map["R1" := Room("Alice", [alice], Lobby, Capacity)];
    assert !HasName([alice], "Bob");
    assert JoinStep(s1.rooms, "R1", bob).event == RoomUpdate("R1");
    assert [alice] + [bob] == [alice, bob];
    var s2 := JoinStep(s1.rooms, "R1", bob);
    assert s2.rooms == map["R1" := Room("Alice", [alice, bob], Lobby, Capacity)];
    assert [alice, bob][1..] == [bob] && [bob][1..] == [];
    assert Without([alice, bob], "Alice") == [bob];
    assert [alice, bob][1].name != "Alice";
    var s3 := RemoveStep(s2.rooms, "R1", "Alice");
    assert s3 == Step(map["R1" := Room("Alice", [bob], Lobby, Capacity)], RoomUpdate("R1"));
    assert Without([bob], "Bob") == [];
    var s4 := RemoveStep(s3.rooms, "R1", "Bob");
    assert s4.rooms == map[];
  }

  /** One inbound socket event, with the payload the handler reads. */
  datatype Inbound =
    | CreateRoomIn(roomId: string, player: Player)
    | JoinRoomIn(roomId: string, player: Player)
    | RemovePlayerIn(roomId: string, playerId: string)
    | StartGameIn(roomId: string)
    | DisconnectIn(socketId: string)

  /** The dictionary after one handler has run. */
  function Handle(rooms: map<string, Room>, msg: Inbound): (after: map<string, Room>)
    ensures Inv(rooms) ==> Inv(after)
    ensures StaysStarted(rooms, after)
  {
    match msg
    case CreateRoomIn(roomId, player) => CreateStep(rooms, roomId, player).rooms
    case JoinRoomIn(roomId, player) => JoinStep(rooms, roomId, player).rooms
    case RemovePlayerIn(roomId, playerId) => RemoveStep(rooms, roomId, playerId).rooms
    case StartGameIn(roomId) => StartStep(rooms, roomId).rooms
    case DisconnectIn(socketId) => Disconnected(rooms, socketId)
  }

  /** The dictionary after the handlers for `msgs` have run one after another. */
  function Run(rooms: map<string, Room>, msgs: seq<Inbound>): map<string, Room>
    decreases |msgs|
  {
    if msgs == [] then rooms else Run(Handle(rooms, msgs[0]), msgs[1..])
  }

  /**
   * Whatever events arrive, in whatever order, every room stays within its
   * capacity, keeps distinct names and has at least one player.
   */
  lemma {:induction false} RunKeepsInv(rooms: map<string, Room>, msgs: seq<Inbound>)
    requires Inv(rooms)
    ensures Inv(Run(rooms, msgs))
    decreases |msgs|
  {
    if msgs != [] {
      RunKeepsInv(Handle(rooms, msgs[0]), msgs[1..]);
    }
  }

  /** A server that starts with no rooms satisfies the invariant after any run. */
  lemma {:induction false} ReachableRoomsSatisfyInv(msgs: seq<Inbound>)
    ensures Inv(Run(map[], msgs))
  {
    RunKeepsInv(map[], msgs);
  }

  /**
   * The module-level state of the server: the one `rooms` dictionary that
   * every connection's handlers share. Handlers run one at a time.
   */
  class Router {
    const table: RoomTable

    ghost predicate Valid()
      reads this, table
    {
      table.Valid() && Inv(table.rooms)
    }

    /** `let rooms = {}`. */
    constructor ()
      ensures Valid() && fresh(table) && table.rooms == map[]
    {
      table := new RoomTable();
    }

    method OnCreateRoom(roomId: string, player: Player) returns (ev: Event)
      requires Valid()
      modifies table
      ensures Valid()
      ensures Step(table.rooms, ev) == CreateStep(old(table.rooms), roomId, player)
    {
      var c := table.CreateRoom(roomId, player);
      if c.Throw? {
        return Uncaught(c.message);
      }
      ev := RoomUpdate(roomId);
    }

    method OnJoinRoom(roomId: string, player: Player) returns (ev: Event)
      requires Valid()
      modifies table
      ensures Valid()
      ensures Step(table.rooms, ev) == JoinStep(old(table.rooms), roomId, player)
    {
      if roomId !in table.rooms {
        return Reply(JoinError, NoSuchRoomMessage);
      }
      var result := table.JoinRoom(roomId, player);
      if result.Failure? {
        ev := Reply(JoinError, result.error);
      } else {
        ev := RoomUpdate(roomId);
      }
    }

    /** The handler calls the store's `removePlayerByName` with the `playerId` it receives. */
    method OnRemovePlayer(roomId: string, playerId: string) returns (ev: Event)
      requires Valid()
      modifies table
      ensures Valid()
      ensures Step(table.rooms, ev) == RemoveStep(old(table.rooms), roomId, playerId)
    {
      if roomId !in table.rooms {
        return Reply(RemoveError, NoSuchRoomMessage);
      }
      ev := RemoveAndSettle(roomId, playerId);
    }

    /**
     * The part `remove-player` and `disconnect` share: filter the name out
     * of an existing room, then delete the room if it is empty or announce it.
     */
    method RemoveAndSettle(roomId: string, name: string) returns (ev: Event)
      requires Valid() && roomId in table.rooms
      modifies table
      ensures Valid()
      ensures Step(table.rooms, ev) == RemoveStep(old(table.rooms), roomId, name)
    {
      table.RemovePlayerByName(roomId, name);
      if |table.rooms[roomId].players| == 0 {
        table.rooms := table.rooms - {roomId};
        ev := Deleted(roomId);
      } else {
        ev := RoomUpdate(roomId);
      }
    }

    method OnStartGame(roomId: string) returns (ev: Event)
      requires Valid()
      modifies table
      ensures Valid()
      ensures Step(table.rooms, ev) == StartStep(old(table.rooms), roomId)
    {
      if roomId in table.rooms {
        table.rooms := table.rooms[roomId := table.rooms[roomId].(state := Started)];
        ev := GameStarted(roomId);
      } else {
        ev := Reply(StartError, NoSuchRoomMessage);
      }
    }

    /**
     * `disconnect`: visit every room once, filter the socket id out of its
     * players, then delete the room or announce it. The order of the visits
     * is left open; the result does not depend on it.
     */
    method OnDisconnect(socketId: string) returns (events: seq<Event>, ghost order: seq<string>)
      requires Valid()
      modifies table
      ensures Valid()
      ensures table.rooms == Disconnected(old(table.rooms), socketId)
      ensures |order| == |old(table.rooms)| && forall k | 0 <= k < |order| :: order[k] in old(table.rooms)
      ensures forall i, j | 0 <= i < j < |order| :: order[i] != order[j]
      ensures |events| == |order|
      ensures forall k | 0 <= k < |order| :: events[k] == DisconnectEvent(table.rooms, order[k])
    {
      ghost var before := table.rooms;
      ghost var after := Disconnected(before, socketId);
      var pending := table.rooms.Keys;
      events, order := [], [];
      while pending != {}
        invariant Valid()
        invariant RoomsProgress(before, after, pending, table.rooms)
        invariant EventsProgress(before, after, pending, events, order)
        decreases pending
      {
        var roomId :| roomId in pending;
        RoomsProgressStep(before, socketId, after, pending, table.rooms, roomId);
        EventsProgressStep(before, after, pending, events, order, roomId);
        var ev := RemoveAndSettle(roomId, socketId);
        events, order := events + [ev], order + [roomId];
        pending := pending - {roomId};
      }
      ProgressDone(before, after, table.rooms);
    }
  }
}
