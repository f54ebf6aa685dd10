/**
 * The handlers as the server's code has them, where that differs from what
 * it evidently means. The rest of the model uses the corrected handlers of
 * EventRouter; each definition here is set beside its corrected one.
 */
module AsWritten {
  import opened RoomStore
  import opened EventRouter

  /** What calling the name `removePlayer`, which the store module never exports, raises. */
  const NotAFunctionMessage := "removePlayer is not a function"

  /** What reading `players` of something that is not a room record and then calling `.some` raises. */
  const NoPlayersMessage := "Cannot read properties of undefined (reading 'some')"

  /**
   * `remove-player` as written: the existence check passes, and the call of
   * the unbound `removePlayer` throws before anything changes.
   */
  function RemoveStepAsWritten(rooms: map<string, Room>, roomId: string, playerId: string): (s: Step)
    ensures s.rooms == rooms
    ensures roomId !in rooms ==> s == RemoveStep(rooms, roomId, playerId)
    ensures roomId in rooms ==> s.event == Uncaught(NotAFunctionMessage)
  {
    if roomId !in rooms then Step(rooms, Reply(RemoveError, NoSuchRoomMessage))
    else Step(rooms, Uncaught(NotAFunctionMessage))
  }

  /**
   * `disconnect` as written: the first room the loop visits throws, so no
   * room changes and nothing is sent unless there are no rooms at all.
   */
  function DisconnectAsWritten(rooms: map<string, Room>, socketId: string): (out: (map<string, Room>, seq<Event>))
    ensures out.0 == rooms
    ensures out.1 == [] <==> rooms == map[]
    ensures forall e | e in out.1 :: e == Uncaught(NotAFunctionMessage)
  {
    if rooms == map[] then (rooms, []) else (rooms, [Uncaught(NotAFunctionMessage)])
  }

  /**
   * With Alice and Bob in room "R1", removing Alice throws as written and
   * leaves her in the room; the corrected handler leaves Bob alone in it.
   */
  lemma RemoveAsWrittenKeepsPlayer(level: Level)
    ensures var alice, bob := Player("Alice", level), Player("Bob", level);
            var rooms := map["R1" := Room("Alice", [alice, bob], Lobby, Capacity)];
            && RemoveStepAsWritten(rooms, "R1", "Alice").event == Uncaught(NotAFunctionMessage)
            && RemoveStepAsWritten(rooms, "R1", "Alice").rooms["R1"].players == [alice, bob]
            && RemoveStep(rooms, "R1", "Alice") ==
               Step(map["R1" := Room("Alice", [bob], Lobby, Capacity)], RoomUpdate("R1"))
  {
    var alice, bob := Player("Alice", level), Player("Bob", level);
    var players := [alice, bob];
    assert players[1..] == [bob];
    assert [bob][1..] == [];
    assert Without(players, "Alice") == [bob];
    assert HasOtherThan(players, "Alice") by {
      assert players[1].name != "Alice";
    }
  }

  /**
   * With Alice in room "R1", a disconnect throws as written and changes
   * nothing; the corrected loop filters the id out of every room and deletes
   * the rooms it empties.
   */
  lemma DisconnectAsWrittenThrows(level: Level)
    ensures var rooms := map["R1" := Room("Alice", [Player("Alice", level)], Lobby, Capacity)];
            && DisconnectAsWritten(rooms, "Alice") == (rooms, [Uncaught(NotAFunctionMessage)])
            && Disconnected(rooms, "Alice") == map[]
  {
    var rooms := map["R1" := Room("Alice", [Player("Alice", level)], Lobby, Capacity)];
    assert rooms != map[] by {
      assert "R1" in rooms;
    }
    assert !HasOtherThan([Player("Alice", level)], "Alice");
    assert Disconnected(rooms, "Alice").Keys == {};
  }

  /**
   * Names every plain object inherits from `Object.prototype`. Reading one
   * of them from the dictionary `{}` gives a method or the prototype, which
   * is truthy.
   */
  const InheritedNames: set<string> := {
    "constructor", "hasOwnProperty", "isPrototypeOf", "propertyIsEnumerable",
    "toLocaleString", "toString", "valueOf", "__proto__",
    "__defineGetter__", "__defineSetter__", "__lookupGetter__", "__lookupSetter__"
  }

  /** The test `rooms[roomId]` as written: true for every room and for every inherited name. */
  predicate LooksLikeRoom(rooms: map<string, Room>, roomId: string)
  {
    roomId in rooms || roomId in InheritedNames
  }

  /** `create-room` as written: an inherited name is taken for an existing room and throws. */
  function CreateStepAsWritten(rooms: map<string, Room>, roomId: string, player: Player): (s: Step)
    ensures LooksLikeRoom(rooms, roomId) ==> s == Step(rooms, Uncaught(RoomExistsMessage))
    ensures !LooksLikeRoom(rooms, roomId) ==> s == CreateStep(rooms, roomId, player)
  {
    if LooksLikeRoom(rooms, roomId) then Step(rooms, Uncaught(RoomExistsMessage))
    else CreateStep(rooms, roomId, player)
  }

  /**
   * `join-room` as written: an inherited name passes the existence check,
   * and `joinRoom` then throws on the missing player list.
   */
  function JoinStepAsWritten(rooms: map<string, Room>, roomId: string, player: Player): (s: Step)
    ensures roomId !in rooms && roomId in InheritedNames ==> s == Step(rooms, Uncaught(NoPlayersMessage))
    ensures roomId in rooms || roomId !in InheritedNames ==> s == JoinStep(rooms, roomId, player)
  {
    if roomId in rooms then JoinStep(rooms, roomId, player)
    else if roomId in InheritedNames then Step(rooms, Uncaught(NoPlayersMessage))
    else JoinStep(rooms, roomId, player)
  }

  /**
   * On a server with no rooms, "toString" cannot be created as written and
   * joining it throws; the corrected handlers create it, and refuse the join
   * with `join-error` while it does not exist.
   */
  lemma InheritedNameIsNotARoom(player: Player)
    ensures var empty: map<string, Room> := map[];
            && CreateStepAsWritten(empty, "toString", player) == Step(empty, Uncaught(RoomExistsMessage))
            && CreateStep(empty, "toString", player).event == RoomUpdate("toString")
            && JoinStepAsWritten(empty, "toString", player).event == Uncaught(NoPlayersMessage)
            && JoinStep(empty, "toString", player).event == Reply(JoinError, NoSuchRoomMessage)
  {
    assert "toString" in InheritedNames;
  }
}
