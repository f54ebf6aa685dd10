/**
 * The room store of the lobby server: room records kept in one shared
 * dictionary keyed by room id, and the three operations that change that
 * dictionary and the player lists inside it in place.
 */
module RoomStore {

  /** The `level` a client sends with a player. The server copies it and never
      looks inside it, so the model keeps it as an opaque token. */
  datatype Level = Level(token: string)

  /** One entry of a room's player list: `{ name, level }`. */
  datatype Player = Player(name: string, level: Level)

  /** The two values the server ever stores in a room's `state`:
      "Lobby" when the room is created and "Game Started" once started. */
  datatype RoomState = Lobby | Started

  datatype Room = Room(host: string, players: seq<Player>, state: RoomState, maxCapacity: int)

  /** Every room is created with room for ten players. */
  const Capacity: int := 10

  const RoomExistsMessage := "Room already exists"
  const DuplicateNameMessage := "Player name already exists in this room"
  const RoomFullMessage := "Room is full"

  /** How a store call ends: it returns normally, or it throws an `Error`. */
  datatype Completion = Normal | Throw(message: string)

  /** The value `joinRoom` returns: `{ success: true }` or `{ error: message }`. */
  datatype JoinResult = Success | Failure(error: string)

  /** Some entry of `players` carries `name` (the `players.some(...)` test). */
  predicate HasName(players: seq<Player>, name: string)
  {
    exists i | 0 <= i < |players| :: players[i].name == name
  }

  /** No two entries of `players` share a name. */
  predicate NamesDistinct(players: seq<Player>)
  {
    forall i, j | 0 <= i < j < |players| :: players[i].name != players[j].name
  }

  /** What the store keeps true of every room: the player list fits the
      capacity and holds each name at most once. */
  predicate ValidRoom(room: Room)
  {
    |room.players| <= room.maxCapacity && NamesDistinct(room.players)
  }

  /** The record `createRoom` stores for a fresh room. */
  function NewRoom(player: Player): (room: Room)
    ensures ValidRoom(room) && |room.players| == 1 && room.players[0].name == room.host
  {
    Room(player.name, [Player(player.name, player.level)], Lobby, Capacity)
  }

  /**
   * `joinRoom` on one room record: the room after the call and the value
   * returned. A duplicate name is rejected before capacity is looked at.
   */
  function Join(room: Room, player: Player): (out: (Room, JoinResult))
    ensures out.1 == Success <==> !HasName(room.players, player.name) && |room.players| < room.maxCapacity
    ensures HasName(room.players, player.name) ==> out.1 == Failure(DuplicateNameMessage)
    ensures !HasName(room.players, player.name) && |room.players| >= room.maxCapacity ==>
              out.1 == Failure(RoomFullMessage)
    ensures out.1 != Success ==> out.0 == room
    ensures out.1 == Success ==> out.0 == room.(players := room.players + [player])
    ensures ValidRoom(room) ==> ValidRoom(out.0)
  {
    if HasName(room.players, player.name) then
      (room, Failure(DuplicateNameMessage))
    else if |room.players| >= room.maxCapacity then
      (room, Failure(RoomFullMessage))
    else
      (room.(players := room.players + [Player(player.name, player.level)]), Success)
  }

  /** `players.filter((p) => p.name !== name)`. */
  function Without(players: seq<Player>, name: string): (kept: seq<Player>)
    ensures |kept| <= |players|
    ensures !HasName(kept, name)
    ensures forall p :: p in kept <==> p in players && p.name != name
  {
    if players == [] then []
    else if players[0].name != name then [players[0]] + Without(players[1..], name)
    else Without(players[1..], name)
  }

  /** The filter keeps the order of what it keeps: it distributes over concatenation. */
  lemma {:induction false} WithoutConcat(a: seq<Player>, b: seq<Player>, name: string)
    ensures Without(a + b, name) == Without(a, name) + Without(b, name)
  {
    if a == [] {
      assert a + b == b;
    } else {
      assert (a + b)[0] == a[0];
      assert (a + b)[1..] == a[1..] + b;
      WithoutConcat(a[1..], b, name);
    }
  }

  /** Removing a name nobody carries leaves the list exactly as it was. */
  lemma {:induction false} WithoutAbsent(players: seq<Player>, name: string)
    requires !HasName(players, name)
    ensures Without(players, name) == players
  {
    if players != [] {
      assert players[0].name != name;
      assert !HasName(players[1..], name) by {
        forall i | 0 <= i < |players[1..]|
          ensures players[1..][i].name != name
        {
          assert players[1..][i] == players[i + 1];
        }
      }
      WithoutAbsent(players[1..], name);
      assert players == [players[0]] + players[1..];
    }
  }

  /** Removing the same name twice is the same as removing it once. */
  lemma {:induction false} WithoutIdempotent(players: seq<Player>, name: string)
    ensures Without(Without(players, name), name) == Without(players, name)
  {
    WithoutAbsent(Without(players, name), name);
  }

  /** A list has distinct names exactly when its head's name is not in its tail and its tail has distinct names. */
  lemma DistinctCons(players: seq<Player>)
    requires players != []
    ensures NamesDistinct(players) <==>
              !HasName(players[1..], players[0].name) && NamesDistinct(players[1..])
  {
    var rest := players[1..];
    if !HasName(rest, players[0].name) && NamesDistinct(rest) {
      forall i, j | 0 <= i < j < |players|
        ensures players[i].name != players[j].name
      {
        assert players[j] == rest[j - 1];
        if i > 0 {
          assert players[i] == rest[i - 1];
        }
      }
    }
    if NamesDistinct(players) {
      forall k | 0 <= k < |rest| ensures rest[k].name != players[0].name {
        assert rest[k] == players[k + 1];
      }
      forall i, j | 0 <= i < j < |rest| ensures rest[i].name != rest[j].name {
        assert rest[i] == players[i + 1] && rest[j] == players[j + 1];
      }
    }
  }

  /** The filter brings in no name the list did not have. */
  lemma WithoutNoNewName(players: seq<Player>, name: string, other: string)
    requires !HasName(players, other)
    ensures !HasName(Without(players, name), other)
  {
    var kept := Without(players, name);
    forall k | 0 <= k < |kept| ensures kept[k].name != other {
      assert kept[k] in players;
    }
  }

  /** The filter never creates a duplicate name. */
  lemma {:induction false} WithoutKeepsDistinct(players: seq<Player>, name: string)
    requires NamesDistinct(players)
    ensures NamesDistinct(Without(players, name))
  {
    if players != [] {
      var rest := players[1..];
      DistinctCons(players);
      WithoutKeepsDistinct(rest, name);
      if players[0].name != name {
        var kept := [players[0]] + Without(rest, name);
        WithoutNoNewName(rest, name, players[0].name);
        assert kept[1..] == Without(rest, name);
        DistinctCons(kept);
      }
    }
  }

  /** In a list with distinct names, removing a present name drops exactly one entry. */
  lemma {:induction false} WithoutDropsOne(players: seq<Player>, name: string)
    requires NamesDistinct(players) && HasName(players, name)
    ensures |Without(players, name)| == |players| - 1
  {
    var i :| 0 <= i < |players| && players[i].name == name;
    var before, after := players[..i], players[i + 1..];
    assert players == before + [players[i]] + after;
    assert !HasName(before, name) by {
      forall k | 0 <= k < |before| ensures before[k].name != name {
        assert before[k] == players[k];
      }
    }
    assert !HasName(after, name) by {
      forall k | 0 <= k < |after| ensures after[k].name != name {
        assert after[k] == players[i + 1 + k];
      }
    }
    WithoutConcat(before + [players[i]], after, name);
    WithoutConcat(before, [players[i]], name);
    WithoutAbsent(before, name);
    WithoutAbsent(after, name);
    assert Without([players[i]], name) == [] by {
      assert [players[i]][1..] == [];
    }
  }

  /** A successful join followed by removing the joined name restores the player list. */
  lemma {:induction false} JoinThenRemove(room: Room, player: Player)
    requires Join(room, player).1 == Success
    ensures Without(Join(room, player).0.players, player.name) == room.players
  {
    var joined := Join(room, player).0.players;
    assert joined == room.players + [Player(player.name, player.level)];
    WithoutConcat(room.players, [Player(player.name, player.level)], player.name);
    WithoutAbsent(room.players, player.name);
    assert [Player(player.name, player.level)][1..] == [];
  }

  /**
   * The shared `rooms` dictionary: one object that `createRoom`, `joinRoom`
   * and `removePlayerByName` receive and change in place.
   */
  class RoomTable {
    var rooms: map<string, Room>

    /** Every room in the table satisfies the store's room invariant. */
    ghost predicate Valid()
      reads this
    {
      forall id | id in rooms :: ValidRoom(rooms[id])
    }

    /** The empty dictionary `{}`. */
    constructor ()
      ensures Valid() && rooms == map[]
    {
      rooms := map[];
    }

    /** `createRoom`: throws when the id is taken, otherwise inserts a fresh room. */
    method CreateRoom(roomId: string, player: Player) returns (c: Completion)
      requires Valid()
      modifies this
      ensures Valid()
      ensures roomId in old(rooms) ==> c == Throw(RoomExistsMessage) && rooms == old(rooms)
      ensures roomId !in old(rooms) ==>
                c == Normal &&
                rooms == old(rooms)[roomId := Room(player.name, [player], Lobby, Capacity)]
    {
      if roomId in rooms {
        return Throw(RoomExistsMessage);
      }
      rooms := rooms[roomId := NewRoom(player)];
      c := Normal;
    }

    /** `joinRoom`: the room must exist; duplicate names and a full room are refused. */
    method JoinRoom(roomId: string, player: Player) returns (result: JoinResult)
      requires Valid() && roomId in rooms
      modifies this
      ensures Valid()
      ensures result == Join(old(rooms)[roomId], player).1
      ensures rooms == old(rooms)[roomId := Join(old(rooms)[roomId], player).0]
      ensures result.Failure? ==> rooms == old(rooms)
    {
      var room := rooms[roomId];
      if HasName(room.players, player.name) {
        return Failure(DuplicateNameMessage);
      }
      if |room.players| >= room.maxCapacity {
        return Failure(RoomFullMessage);
      }
      rooms := rooms[roomId := room.(players := room.players + [Player(player.name, player.level)])];
      result := Success;
    }

    /** `removePlayerByName`: the room must exist; it is kept even when it ends up empty. */
    method RemovePlayerByName(roomId: string, playerName: string)
      requires Valid() && roomId in rooms
      modifies this
      ensures Valid()
      ensures rooms.Keys == old(rooms).Keys
      ensures rooms == old(rooms)[roomId := old(rooms)[roomId].(players := Without(old(rooms)[roomId].players, playerName))]
    {
      var room := rooms[roomId];
      WithoutKeepsDistinct(room.players, playerName);
      rooms := rooms[roomId := room.(players := Without(room.players, playerName))];
    }
  }
}
