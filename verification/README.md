# Room membership of the tournament lobby server, in Dafny

The server keeps every lobby in one process-wide dictionary, `rooms`, from
room id to a room record: `host` (the creator's name), `players` (a list of
`{ name, level }`), `state` (`"Lobby"`, later `"Game Started"`) and
`maxCapacity` (always 10). `room.js` holds the three store operations that
change that dictionary in place, and `index.js` holds the socket handlers.
Each handler checks that the room exists, calls the store, deletes a room
that has lost its last player, and then answers the sender or broadcasts to
the room.

The model has three modules:

- `RoomStore` (`room.dfy`) covers `room.js`. Its datatypes are `Player`,
  `Room` and `RoomState`, and `Level` stands for the opaque `level`. The
  class `RoomTable` is the shared dictionary object, with a
  `rooms: map<string, Room>` field. `CreateRoom`, `JoinRoom` and
  `RemovePlayerByName` are its methods, each specified through the pure
  functions `NewRoom`, `Join` and `Without` (the filter). Lemmas about the
  filter come with them: order kept, no-op on an absent name, idempotent,
  uniqueness kept, exactly one entry dropped, and join-then-remove round
  trip.
- `EventRouter` (`router.dfy`) covers `index.js`. The class `Router` is the
  module-level state. Its methods `OnCreateRoom`, `OnJoinRoom`,
  `OnRemovePlayer`, `OnStartGame` and `OnDisconnect` each return the abstract
  event they send: `RoomUpdate`, `GameStarted`, `Reply` (an error to the
  sender only), `Deleted` (room removed, nothing sent) or `Uncaught` (an
  exception escapes the handler). Each method is proved equal to a pure step
  function (`CreateStep`, `JoinStep`, `RemoveStep`, `StartStep`,
  `Disconnected`). These functions state the error cases, the rooms left
  untouched and the delete-when-empty rule. They also keep the invariant
  `Inv`: every room fits its capacity, has distinct names and at least one
  player. `RunKeepsInv` extends `Inv` to any sequence of inbound events.
- `AsWritten` (`findings.dfy`) models the code as written where it departs
  from what it evidently means (see Findings).

Where the specification of the system and the code disagree, the model
follows the code:

- There are no spectators and no redirect to spectating. A full room is the
  hard error `"Room is full"`.
- No handler validates an empty or missing name.
- A duplicate `create-room` id throws `"Room already exists"`. The handler
  does not catch it, so there is no `create-error`.
- The started state is the string `"Game Started"` (`RoomState.Started`).
- `remove-player` reads `playerId`, not `name`, and has no acknowledgement.
- `check-room`, `update-room` and `join-spectator-room` do not exist.
- The router keeps no map from connection to participant. `disconnect`
  filters every room by the connection's `socket.id` used as a player
  name. Players are stored without any connection id: the extra `socket.id`
  argument at index.js:29 and index.js:39 is ignored by room.js. So a
  disconnect removes a player only if that player's name equals the socket
  id. `DisconnectUnknownKeepsRooms` proves that otherwise every room is kept
  unchanged and only gets a `room-update`.
- `index.js:5` imports `removePlayer`, which `room.js:43` does not export.
  The corrected model calls `removePlayerByName` with the `playerId` or
  `socket.id` argument. The code as written is in `AsWritten`.

## Model

| member | source | states |
|---|---|---|
| `RoomStore.NewRoom` | room.js:4-9 | A fresh room is valid, has exactly one player, and that player's name is the host. |
| `RoomStore.Join` | room.js:14-27 | Success exactly when the name is new and the room is below capacity. A duplicate name fails with its message even in a full room. A full room fails with "Room is full". Any failure leaves the room unchanged. Success appends exactly the player at the end. Validity (capacity, distinct names) is preserved. |
| `RoomStore.Without` | room.js:33 | The filter never lengthens the list and leaves no entry with the name. An entry is kept exactly when it was present and has another name. |
| `RoomStore.WithoutConcat` | room.js:33 | Filtering distributes over concatenation, so the kept entries stay in their original order. |
| `RoomStore.WithoutAbsent` | room.js:33 | Removing a name nobody carries leaves the list identical. |
| `RoomStore.WithoutIdempotent` | room.js:33 | Removing a name twice equals removing it once. |
| `RoomStore.WithoutKeepsDistinct` | room.js:33 | Filtering keeps player names pairwise distinct. |
| `RoomStore.WithoutDropsOne` | room.js:33 | With distinct names, removing a present name drops exactly one entry. |
| `RoomStore.JoinThenRemove` | room.js:25-33 | Removing the name a successful join added gives back the original player list. |
| `RoomStore.RoomTable.CreateRoom` | room.js:1-12 | A taken id throws "Room already exists" and changes nothing. Otherwise exactly one entry is added: host = name, players = [player], state Lobby, capacity 10. Validity is kept. |
| `RoomStore.RoomTable.JoinRoom` | room.js:14-27 | Needs the room to exist. The result and the new dictionary are those of `Join` on that room. Nothing changes on an error. Validity is kept. |
| `RoomStore.RoomTable.RemovePlayerByName` | room.js:29-41 | Needs the room to exist. The room's players become the filtered list. No key is deleted, even when the list is empty. Validity is kept. |
| `EventRouter.CreateStep` | index.js:28-32 | A taken id gives an uncaught throw and no change. Otherwise the new room is announced with its fields set, and every other room is untouched. The invariant is kept, and started rooms stay started. |
| `EventRouter.JoinStep` | index.js:34-46 | A missing room and every store error reply `join-error` with the right message and leave the dictionary unchanged. A `room-update` happens exactly when the join is allowed, and it appends the player. Only that room changes, and the invariant is kept. |
| `EventRouter.RemoveStep` | index.js:48-59 | A missing room replies `remove-error` with no change. Otherwise the room survives exactly when some player has another name: the survivor is filtered and announced, and otherwise the room is deleted. Other rooms are untouched, and the invariant is kept. |
| `EventRouter.StartStep` | index.js:61-68 | An existing room gets state "Game Started" and `game-started` is sent, with nothing else changed. A missing room replies `start-error` with no change. |
| `EventRouter.Disconnected` | index.js:70-80 | After the loop, each room is filtered by the id. A room is present exactly when someone with another name remained. No room is added, started rooms stay started, and the invariant is kept. |
| `EventRouter.StartIdempotent` | index.js:61-68 | Starting a game twice gives the same dictionary and event as starting it once. |
| `EventRouter.JoinThenRemoveRestores` | index.js:34-59 | A successful `join-room` followed by `remove-player` of that name restores the original dictionary and sends `room-update`. |
| `EventRouter.RemoveAbsentName` | index.js:48-59 | Removing an absent name from an existing room changes nothing and sends `room-update`. |
| `EventRouter.DisconnectUnknownKeepsRooms` | index.js:70-80 | A disconnect whose id is no player's name leaves every room unchanged, and each room gets `room-update`. |
| `EventRouter.LobbyScenario` | index.js:28-67 | Create R1 with Alice, join Bob, remove Alice, remove Bob: the players are [Alice], then [Alice, Bob], then [Bob], and then R1 is gone. Joining or starting R1 afterwards is refused. |
| `EventRouter.Handle` | index.js:28-80 | Every handler keeps the invariant and never moves a started room back to the lobby. |
| `EventRouter.RunKeepsInv` | index.js:28-80 | Any sequence of handler runs keeps the invariant: capacity respected, names distinct, no empty room. |
| `EventRouter.ReachableRoomsSatisfyInv` | index.js:23-80 | Every dictionary reachable from `{}` satisfies the invariant. |
| `EventRouter.Router.constructor` | index.js:23 | The server starts with an empty dictionary that satisfies the invariant. |
| `EventRouter.Router.OnCreateRoom` | index.js:28-32 | The new dictionary and the event are those of `CreateStep`, and the invariant is kept. |
| `EventRouter.Router.OnJoinRoom` | index.js:34-46 | The new dictionary and the event are those of `JoinStep`, and the invariant is kept. |
| `EventRouter.Router.OnRemovePlayer` | index.js:48-59 | The new dictionary and the event are those of `RemoveStep`, and the invariant is kept. |
| `EventRouter.Router.RemoveAndSettle` | index.js:53-58 | On an existing room, filter the name, then delete the room or announce it, as `RemoveStep` says. |
| `EventRouter.Router.OnStartGame` | index.js:61-68 | The new dictionary and the event are those of `StartStep`, and the invariant is kept. |
| `EventRouter.Router.OnDisconnect` | index.js:70-80 | Every room is visited exactly once. The final dictionary is `Disconnected` of the old one. The k-th event is the `room-update` or deletion of the k-th room visited. The invariant is kept. |
| `AsWritten.RemoveStepAsWritten` | index.js:53 | As written, `remove-player` on an existing room throws "removePlayer is not a function" and changes nothing. |
| `AsWritten.RemoveAsWrittenKeepsPlayer` | index.js:53 | With Alice and Bob in R1, removing Alice as written leaves both players in the room. The corrected handler leaves [Bob]. |
| `AsWritten.DisconnectAsWritten` | index.js:72-79 | As written, a disconnect while any room exists throws on the first room and changes nothing. |
| `AsWritten.DisconnectAsWrittenThrows` | index.js:73 | As written, a disconnect with Alice alone in R1 throws, while the corrected loop deletes R1. |
| `AsWritten.CreateStepAsWritten` | room.js:2 | As written, an id inherited from `Object.prototype` counts as taken, so `create-room` throws "Room already exists". |
| `AsWritten.JoinStepAsWritten` | index.js:35-39 | As written, an inherited id passes the existence check, and `joinRoom` then throws on the missing player list. |
| `AsWritten.InheritedNameIsNotARoom` | index.js:35 | On an empty server, "toString" cannot be created and joining it throws. The corrected handlers create it, or reply `join-error` while it is absent. |

## Findings

| source | as written | input that shows it | evidently intended | confidence | as-written member | corrected member |
|---|---|---|---|---|---|---|
| index.js:5 | `remove-player` calls `removePlayer`, which room.js does not export, so the call throws a TypeError once the room exists | `remove-player` {roomId: "R1", playerId: "Alice"} with Alice and Bob in R1 | call `removePlayerByName`, then delete or announce the room | high; not executed | `AsWritten.RemoveAsWrittenKeepsPlayer` | `EventRouter.RemoveStep` |
| index.js:73 | `disconnect` calls the same unbound `removePlayer` on the first room, so it throws whenever any room exists | a disconnect while room R1 holds Alice | filter every room and delete the emptied ones | high; not executed | `AsWritten.DisconnectAsWrittenThrows` | `EventRouter.Disconnected` |
| room.js:2 | the check `rooms[roomId]` on the plain object `{}` is also true for names inherited from `Object.prototype` | `create-room` {roomId: "toString"} on a server with no rooms throws "Room already exists" | test only the dictionary's own keys | high; not executed | `AsWritten.InheritedNameIsNotARoom` | `EventRouter.CreateStep` |
| index.js:35 | the same truthiness check lets an inherited name through to `joinRoom`, which throws reading `players` | `join-room` {roomId: "toString"} on a server with no rooms | reply `join-error` "Room does not exist" | high; not executed | `AsWritten.JoinStepAsWritten` | `EventRouter.JoinStep` |

## Left out

- The Express app, the health-check route, `server.listen`, the port and
  dotenv configuration, and CORS are process bootstrap and transport policy.
- socket.io delivery is left out: `socket.join`, `socket.emit` and
  `io.to(roomId).emit` become the returned `Event` values. `RoomUpdate(id)`
  carries only the id. The snapshot it broadcasts is that room in the
  dictionary after the handler.
- `console.log` diagnostics are left out.
- Concurrency is left out. The handlers run one at a time on the event loop
  and are modelled as sequential calls.
- `level` is an opaque token (`Level`) that the server passes through
  unread.
- Non-string room ids and payloads without `player` or `name` are left out.
  In JavaScript these are coerced or read as `undefined`; the model types
  ids and names as strings.
- What the process does after an uncaught exception is left out. The model
  records the exception as `Uncaught` and the unchanged dictionary.
- Other uses of inherited names are not modelled as written:
  `remove-player` and `start-game` on an id like "toString", and assignment
  to `rooms["__proto__"]`. The corrected handlers test own keys only.
- Room records are values in the map rather than shared objects. No room
  object is reachable from two keys in the source, so updating a record in
  place and replacing the map entry agree.
- EventRouter.Router.OnDisconnect: the rooms are visited in an unspecified
  order, not the insertion order of `for…in`. The final dictionary does not
  depend on the order. Only the order of the events does, and the contract
  ties the k-th event to the k-th room visited.
