# Board-game room server, modelled in Dafny

The server keeps one process-wide table from room id to room (`players`, `createdAt`).
Two administrative HTTP handlers create and delete rooms behind an admin password, and a
third reports whether a room exists. Socket handlers let a connection join a room, move
its token, and relay dice rolls, modal open/close and card flips to the room. On
disconnect the server sweeps the connection's players out of every room. After each
mutating administrative action and after each successful join, the whole table is
uploaded to a blob store. That store is a single object overwritten on every save.
`supabase.js` provides a loader that reads the table back with every roster cleared.
Note that `server.js` imports its store functions from `"./ supabase"`, with a leading
space. That path names a second file, ` supabase.js`. Its loader returns `{}` on a
download error and returns the stored rosters without clearing them, and its save logs
an upload error instead of throwing it. The model's startup uses the clearing loader of
`supabase.js` (see "## Left out").

Files:

- `rooms.dfy` (module `Rooms`): the data model (rooms, players, positions), the color
  palette and start positions, the capacity invariant, and the two roster operations the
  handlers use. These are the first-match lookup (`find`) and the filter that drops a
  connection's players (`filter`).
- `store.dfy` (module `Store`): the restore-time reset of every roster, as a loop proved
  against `Cleared`, and the single-key store as a class `BlobStore` with `Save`
  (upsert) and `Load`.
- `server.dfy` (module `Server`): class `RoomEngine` holds the table (`rooms`) and an
  ordered outbound log (`log`), with one method per handler. An emit is either
  `ToSender(conn, event)` (only the requesting socket) or `ToRoom(roomId, event)` (every
  socket in the room). A save request is `SaveRequested(snapshot)`. The snapshot is the
  table at the moment of the call, because the upload serialises it synchronously before
  its first `await`. Keeping emits and saves in one log keeps their order: a join saves
  and then broadcasts, and a delete notifies the room, then removes the key, then saves.
- `scenarios.dfy` (module `Scenarios`): concrete request sequences proved from the
  handlers' contracts alone.

Inputs the code takes from outside become parameters:

- the socket id of the sender (`conn`);
- the fresh room id that `uuidv4()` would produce (`freshId`);
- the creation time (`now`);
- the configured `ADMIN_PASSWORD` (`adminPassword`, absent when unset);
- whether an upload or download succeeded (`uploadOk`, `downloadOk`).

The admin check is a strict comparison of two possibly-absent values. So when
`ADMIN_PASSWORD` is unset, a request without a password is admitted.

The model follows the code as written:

- The start slot is `startPositions[n]` and the color is `playerColors[n]`, with `n` the
  roster length. There is no search for a free slot and no random fallback. After a
  disconnect, the next joiner can therefore get the same color and start position as a
  player who is still in the room (`Scenarios.RejoinReusesColor`).
- A connection that joins twice holds two entries (`Scenarios.DoubleJoin`).
- Create overwrites an existing key without checking.
- Disconnect sends `updatePlayers` to every room in the table, not only to the rooms that
  held the connection.

## Model

| member | source | states |
|---|---|---|
| `Rooms.NewPlayerByJoinOrder` | server.js:119-124 | below capacity, two different join positions (roster lengths) never get the same color or the same start position |
| `Rooms.FirstIndexOf` | server.js:140 | returns the index of the first player with the sender's id, no earlier player has that id, and None holds exactly when no player has it |
| `Rooms.WithoutPlayer` | server.js:186 | the filtered roster is never longer than the original |
| `Rooms.WithoutPlayerMembers` | server.js:186 | a player remains after the filter if and only if it was in the roster and belongs to another connection |
| `Rooms.WithoutPlayerCounts` | server.js:186 | every player of another connection survives the filter with its number of occurrences, including identical duplicate entries, and no player of the connection survives |
| `Rooms.WithoutPlayerKeepsOrder` | server.js:186 | the remaining players are a subsequence of the roster, so their relative order is kept |
| `Rooms.WithoutAbsentPlayer` | server.js:185-188 | the sweep leaves a roster that never held the connection unchanged |
| `Store.ClearedRooms` | supabase.js:51-53 | after the reset: the same room ids, every roster empty, every `createdAt` kept, and the capacity invariant holds |
| `Store.ClearedIdempotent` | supabase.js:51-53 | clearing the rosters twice gives the same table as clearing once |
| `Store.ResetPlayers` | supabase.js:51-53 | the in-place loop over the parsed table returns exactly the cleared table |
| `Store.BlobStore.Save` | supabase.js:16-29 | a successful upload replaces the stored object with the whole table (upsert); a failed one leaves it unchanged |
| `Store.BlobStore.Load` | supabase.js:32-56 | a download error or a missing object fails with no table; otherwise returns the stored table with every roster cleared |
| `Store.LoadAfterSave` | supabase.js:21-53 | whatever was stored before, a load after a successful save returns the saved table with its rosters emptied |
| `Server.RoomEngine.constructor` | server.js:21-31 | startup loads the table through the clearing loader, or starts with an empty table when the load fails; the capacity invariant holds |
| `Server.RoomEngine.SaveRoomsToFile` | server.js:54-61 | a save request records the current table and changes nothing else |
| `Server.RoomEngine.CheckRoom` | server.js:63-66 | answers whether the id is a key of the table, and changes nothing |
| `Server.RoomEngine.CreateRoom` | server.js:69-79 | a wrong password gives Forbidden and changes nothing; otherwise the fresh id is set to an empty room (overwriting any existing entry), a save is requested and the id is returned |
| `Server.RoomEngine.DeleteRoom` | server.js:82-96 | a wrong password gives Forbidden and an absent room gives NotFound, both with no change; otherwise `roomDeleted` is sent to the room, then only that key is removed, then a save of the smaller table is requested |
| `Server.RoomEngine.JoinRoom` | server.js:103-131 | a missing id, an unknown room or a full room gets one notice to the sender, with the table unchanged and no save; otherwise exactly one player is appended, with the sender's id and the color and start slot of the prior roster length; all other players and rooms are unchanged; a save is requested, then the new roster is sent to the room; no room exceeds five players |
| `Server.RoomEngine.MovePlayer` | server.js:134-145 | an unknown room gets `roomNotFound` to the sender; a sender with no player in the room changes nothing and emits nothing; otherwise only the first matching player's position becomes the given percentages and the roster is sent to the room, with no save |
| `Server.RoomEngine.Relay` | server.js:147-181 | the shared shape of the four relay events: the table never changes, an unknown room gets `roomNotFound` to the sender, and a known room gets the event |
| `Server.RoomEngine.RollDice` | server.js:147-154 | relays the client's roll to the room as `rollDiceResult`, or sends `roomNotFound` to the sender; never changes the table |
| `Server.RoomEngine.OpenModalEvent` | server.js:157-163 | relays `openModal` with its category to the room, or sends `roomNotFound` to the sender; never changes the table |
| `Server.RoomEngine.CloseModalEvent` | server.js:166-172 | relays `closeModal` to the room, or sends `roomNotFound` to the sender; never changes the table |
| `Server.RoomEngine.FlipImageEvent` | server.js:175-181 | relays `flipImage` with category, new source and flipped flag to the room, or sends `roomNotFound` to the sender; never changes the table |
| `Server.RoomEngine.Disconnect` | server.js:184-189 | the set of room ids is unchanged; each roster becomes the filtered roster, so by `WithoutPlayerMembers`, `WithoutPlayerCounts` and `WithoutPlayerKeepsOrder` it loses exactly the connection's players and keeps every other entry, with its number of occurrences, in order; no room holds the connection afterwards; one `updatePlayers` with the new roster is sent to every room, each room once; no save is requested |
| `Scenarios.JoinMoveLeave` | server.js:103-189 | create, two joins (red at (100,100), blue at (200,200)), a move of the first that is broadcast, and a disconnect that leaves only the second player |
| `Scenarios.RejoinReusesColor` | server.js:119-126 | after the first of two players leaves, a new joiner gets the same color and start position as the player who stayed |
| `Scenarios.DoubleJoin` | server.js:103-189 | a connection that joins twice holds two entries, a move changes only the first, and a disconnect removes both |
| `Scenarios.SixthJoinRefused` | server.js:114-117 | a sixth join gets `roomFull` to its sender and leaves the five-player roster unchanged |

## Left out

- Server.RoomEngine.constructor: startup uses the clearing loader of `supabase.js:32-56`, not the loader in ` supabase.js` (leading space) that the import at `server.js:9` actually names. That loader returns `{}` instead of failing on a download error and does not clear rosters. Under it, saved players come back as ghost entries. For example, a room saved with five players refuses every later join. The model does not capture this, and its capacity invariant would not hold for a table loaded that way. For the same reason, `BlobStore.Save` models the throwing save of `supabase.js`, not the logging one.

- HTTP plumbing (status codes, request/response objects, static files, `listen`): the handlers return `CreateReply` / `DeleteReply` values instead.
- The socket.io transport, `socket.join` room membership, and delivery, acknowledgement and fan-out: emits are entries in the outbound log.
- `uuidv4()` and `new Date()`: the fresh id and the creation time are parameters, and `createdAt` is an opaque integer.
- The Supabase client, environment checks, `JSON.stringify` / `JSON.parse` and `data.text()`: serialisation is taken to be the identity on tables. In particular, the real code turns the `Date` into a string.
- The synchronous load of `rooms.json` at startup: it is file I/O and does not clear rosters. A table loaded this way could break the capacity invariant that the engine's methods require.
- The asynchronous startup and its race with the file load, and the fact that saves are fire-and-forget: a save is recorded as a request carrying its snapshot, and whether it reaches the store is `BlobStore.Save`'s `uploadOk`.
- Console logging.
- Inherited JavaScript object properties (for example a room id of `"constructor"`) and room ids of other JSON types: room ids are strings, and membership is membership of the map's keys.
- Payload validation: a missing `roomId` in `movePlayer` and the relay events (which JavaScript would look up as the key `"undefined"`) is not modelled. A missing payload object, which would throw on destructuring, is not modelled either. Coordinates are reals, the roll is an integer, and category, image source and flag are a string, a string and a boolean.
- `Server.RoomEngine.Disconnect`: it does not fix the order in which the sweep visits rooms (JavaScript property order). It states only that every room is visited exactly once, in the order given by its ghost result `order`.
