# Chat-room presence registry and event routing, in Dafny

This project models the server core of a small multi-room chat relay. The
core has two parts.

- **The presence registry** (`src/utils/users.js`). An in-memory array of
  `{ id, username, room }` records keyed by socket id, with four operations:
  `addUSer` (normalise, validate, reject a duplicate name in the room, append),
  `removeUser` (splice out the first record with an id), `getUser` (find by
  id) and `getUsersInRoom` (filter by normalised room).
- **The socket event handlers** (`src/index.js`). These are `join`,
  `disconnect`, `sendMessage` and `sendLocation`. Each is a decision procedure
  over the registry. It either acknowledges an error and emits nothing, or
  emits a fixed, ordered list of events to recipient sets derived from room
  membership, then acknowledges success.

Files:

- `wrappers.dfy`: `Option` and `Result`.
- `text.dfy`: module `Text`, the `trim()` / `toLowerCase()` normalisation and
  its fixed-point and idempotence lemmas.
- `users.dfy`: module `Users`. It holds the `User` record, the specification
  functions (`FirstIndex`, `InRoom`, `NameTaken`, the invariants), the lemmas
  about them, the linear scans (`FindName`, `FindIndex`, `Filter`) as loop
  methods, and the `Registry` class. The class's `users: seq<User>` field is
  the module-level array, which `push` and `splice` replace.
- `server.dfy`: module `Server`. It holds the emitted events, the
  acknowledgements, the map link and the four handlers as methods over a
  `Registry`.
- `scenario.dfy`: module `Scenario`. It is a client of the handlers: two
  sockets join one room, one talks, one leaves. Names are symbolic; each
  step's assertions follow from the handlers' contracts alone.

Modelling choices:

- **Recipients.** An emitted event carries the set of socket ids that receive
  it. The set is computed from the registry, not from Socket.IO's room
  bookkeeping. `{socket}` stands for `socket.emit`. `Members(users, room) -
  {socket}` stands for `socket.broadcast.to(room)`. `Members(users, room)`
  stands for `io.to(room)`.
- **Acknowledgements.** `Acked` is `callback()`. `Refused(e)` is
  `callback(e)`. `Threw` covers `sendMessage` and `sendLocation` when the
  socket has no record. There `getUser` returns `undefined`, `user.room`
  throws a `TypeError`, and nothing is emitted or acknowledged.
- **Profanity filter.** It is the parameter `isProfane: string -> bool`.
- **Timestamps.** The `createdAt` stamped by `generateMessage` and
  `generateLocationMessage` is the parameter `now`.
- **Coordinates.** They are modelled by their text, which is what the
  template literal interpolates. A number's text is never `''`, so
  `lat === ''` is the same as the text being empty.
- **Registry invariant.** `Registry.Valid()` says two things. Every stored
  name and room is non-empty and normal: trimming and lower-casing leave it
  unchanged. And no two records share both room and name. Every operation
  preserves it.

Two behaviours of the code worth knowing:

- The `roomData` roster is the list of records `getUsersInRoom` returns,
  `id` included.
- `join` has no guard against a second join on the same socket. It succeeds
  whenever the name is free in the target room, leaving two records with one
  id. The model does the same, which is why the removal lemmas assume
  `IdsDistinct`.

## Model

| member | source | states |
|---|---|---|
| Text.TrimStart | src/utils/users.js:6-7 | the leading-whitespace strip: the result is no longer than the input and does not start with whitespace |
| Text.TrimEnd | src/utils/users.js:6-7 | the trailing-whitespace strip: the result is no longer than the input, does not end with whitespace, and keeps the input's first character |
| Text.TrimStartDrops | src/utils/users.js:6-7 | `TrimStart` keeps a suffix of the input and everything it drops is whitespace |
| Text.TrimEndDrops | src/utils/users.js:6-7 | `TrimEnd` keeps a prefix of the input and everything it drops is whitespace |
| Text.Trim | src/utils/users.js:6-7 | `trim()` leaves no whitespace at either edge |
| Text.TrimEmpty | src/utils/users.js:10 | trimming yields `''` exactly when the input is all whitespace |
| Text.TrimFixpoint | src/utils/users.js:6-7 | trimming changes nothing exactly when there is no whitespace at an edge (both directions) |
| Text.LowerChar | src/utils/users.js:6-7 | a lowered character is not upper case, is whitespace exactly when the input is, only upper-case letters change, and an upper-case `A`–`Z` becomes the lower-case letter at the same alphabet position |
| Text.Lower | src/utils/users.js:6-7 | `toLowerCase()` keeps the length and lowers each character in place |
| Text.Normalize | src/utils/users.js:6-7 | `trim().toLowerCase()` yields a normal string: no whitespace at the edges, no upper-case letter |
| Text.NormalizeEmpty | src/utils/users.js:10-14 | a name normalises to `''`, the falsy value the validation rejects, exactly when it is all whitespace |
| Text.NormalizeFixpoint | src/utils/users.js:6-7 | the normal strings are exactly the fixed points of normalisation (both directions) |
| Text.NormalizeIdempotent | src/utils/users.js:6-7 | normalising an already-normalised value changes nothing |
| Text.TrimStartUpToCase | src/utils/users.js:6-7 | stripping leading whitespace from two strings that differ only in the case of ASCII letters leaves two such strings |
| Text.TrimEndUpToCase | src/utils/users.js:6-7 | the same for stripping trailing whitespace |
| Text.LowerUpToCase | src/utils/users.js:6-7 | two strings that differ only in the case of ASCII letters lower to the same string |
| Text.NormalizeIgnoresCase | src/utils/users.js:6-19 | names (or rooms) that differ only in the case of ASCII letters normalise alike, so they count as the same name in the duplicate check |
| Users.FirstIndex | src/utils/users.js:37 | `findIndex`: `Some(k)` is a matching index with no match before it; `None` exactly when no record has the id |
| Users.FirstIndexUnique | src/utils/users.js:37 | a matching index with no match before it is the one `FirstIndex` returns |
| Users.InRoom | src/utils/users.js:52 | `filter`: every listed record is in the registry and in the room, and there are no more records than in the registry |
| Users.InRoomComplete | src/utils/users.js:52 | every record of the room is listed |
| Users.InRoomIsSubsequence | src/utils/users.js:52 | the listing is an order-preserving subsequence of the registry |
| Users.InRoomAppend | src/utils/users.js:28 | listing a room distributes over concatenation, so after a `push` the room's list gains exactly the new record at its end |
| Users.AddKeepsInvariants | src/utils/users.js:19-28 | appending a normal record whose (room, name) pair is not taken keeps (room, name) pairs unique and names normal |
| Users.RemoveKeepsInvariants | src/utils/users.js:39 | splicing out one record keeps both invariants |
| Users.RemoveTwiceFindsNothing | src/utils/users.js:37-39 | with distinct socket ids, once a socket's record is spliced out no record with that id remains, so a second remove finds nothing |
| Users.RemovedIsNoMember | src/utils/users.js:37-39 | with distinct socket ids, the removed socket is no member of any room afterwards |
| Users.FindName | src/utils/users.js:19-20 | the `find` scan for the room and name reports a match exactly when the pair is taken |
| Users.FindIndex | src/utils/users.js:37 | the `findIndex` loop returns `FirstIndex` |
| Users.Filter | src/utils/users.js:52 | the `filter` loop returns `InRoom` |
| Users.Registry.constructor | src/utils/users.js:1 | the registry starts empty and valid |
| Users.Registry.AddUser | src/utils/users.js:4-32 | an empty normalised name or room gives `'Username and room are required'`; a (room, name) pair already present gives `'Username is in use!'`; in both cases `users` is unchanged. Otherwise the record `{id, name, room}` with normalised values is appended as the one new last element and returned. The invariant is preserved |
| Users.Registry.RemoveUser | src/utils/users.js:35-40 | with no record for the id, returns nothing and leaves `users` unchanged; otherwise returns the first such record and removes exactly that one, keeping the others in order. The invariant is preserved |
| Users.Registry.GetUser | src/utils/users.js:43-46 | returns the first record with the id, or nothing; changes nothing |
| Users.Registry.GetUsersInRoom | src/utils/users.js:49-53 | returns exactly the records whose room equals the normalised argument, as an order-preserving subsequence; changes nothing |
| Server.WelcomeText | src/index.js:58 | the welcome starts with the user's name, has the length of name, fixed text and room with their separators, and ends with the room and a full stop |
| Server.JoinedText | src/index.js:61 | the notice is the user's name followed by exactly `' joined room.'` |
| Server.LeftText | src/index.js:79 | the notice is the user's name followed by exactly `' left room!'` |
| Server.NoticesNameTheUser | src/index.js:61-79 | different users get different "joined" notices and different "left" notices, and no "joined" notice equals a "left" notice |
| Server.MapUrl | src/index.js:118 | the link starts with `https://google.com/maps?q=` and holds exactly the two coordinates and one separating comma after it |
| Server.MapUrlRoundTrip | src/index.js:118 | `https://google.com/maps?q=<lat>,<lon>` gives back both coordinates when the latitude holds no comma; the parse (`ParseMapUrl`, with its helper `FirstComma`) is the model's own inverse, not code of the source |
| Server.Join | src/index.js:46-71 | a failed add acknowledges the registry's error, emits nothing and leaves the registry (so the socket's membership) unchanged. On success: the welcome goes to the joiner only, then "joined room." to the room minus the joiner, then `roomData` with the full roster to the whole room including the joiner. The roster is the old one plus the joiner at the end. The acknowledgement is empty. The invariant is preserved |
| Server.Disconnect | src/index.js:74-87 | with no record for the socket, nothing is emitted and nothing changes. Otherwise the record is removed, then "left room!" and then `roomData` with the remaining roster go to the remaining members of its room. With distinct socket ids, the departed socket receives neither |
| Server.SendMessage | src/index.js:92-105 | a profane text is refused with `'Profanity is not allowed!'` and emits nothing. Otherwise an unregistered sender throws and emits nothing, and a registered one's text goes to its whole room, sender included, under its name, then is acknowledged |
| Server.SendLocation | src/index.js:111-120 | a blank latitude or longitude is refused with `'Unidentified location'` and emits nothing. Otherwise an unregistered sender throws, and a registered one's `locationMessage` with the map link goes to its whole room, sender included |
| Server.SenderRoom | src/index.js:103 | `io.to(user.room)` for a registered sender is its room's members and includes the sender |
| Scenario.FirstJoin | src/index.js:46-71 | the first joiner of an empty room receives the welcome and is not among the notice's recipients |
| Scenario.SecondJoin | src/index.js:55-67 | a second joiner: the first member gets the notice, the joiner does not, and both get the roster in join order |
| Scenario.CopycatRefused | src/utils/users.js:19-24 | the same name in the same room is refused with no emits and no change |
| Scenario.FirstTalks | src/index.js:92-120 | a clean message reaches both members; a profane one and a blank location reach no one |
| Scenario.SecondLeaves | src/index.js:74-87 | the leaver's departure and the shrunken roster reach the one who stays, not the leaver; a second disconnect is silent |

## Left out

- Text.Lower: only the ASCII letters `A`–`Z` are lowered. Unicode case mapping (which can also change a string's length) is not modelled. `trim()` is modelled exactly: ECMAScript's WhiteSpace and LineTerminator code points.
- Server.Join, Server.Disconnect: one `now` stamps every message of a handler. The real `generateMessage` reads the clock at each call. `src/utils/messages.js` is not part of this model.
- Server.Disconnect: that departed sockets receive nothing is proved only when socket ids are distinct. After a double `join` (see above), the socket's second record stays in the registry, and the socket is still named as a recipient of that room's events.
- Socket.IO itself is not modelled: `socket.join`, delivery of events, and the server-side acknowledgement callback. Recipient sets stand for delivery.
- The Express static server, the HTTP server, `server.listen`, `dotenv` and the console logging are I/O and are left out.
- The `bad-words` filter is a foreign library. It is an uninterpreted parameter `isProfane`.
- `public/js/chat.js` is client-side rendering and geolocation, and is left out.
- JavaScript's dynamic typing of the payloads is not modelled. For example, a `join` whose `username` is not a string would make `trim` throw. The model takes names, text and coordinates as strings.
