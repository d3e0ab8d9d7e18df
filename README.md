# Presence relay and drawing client of a collaborative canvas

The application is a shared drawing canvas. Each browser draws rectangles,
squares and circles on a shared shape array, and sees coloured cursor markers
for the other connected users. Shapes are synchronised by a CRDT document
library over one WebSocket per page. Presence goes over a second WebSocket
of the same page, as small JSON control messages: `init`, `cursor`,
`user-joined`, `existing-users` and `user-left`. A Node server accepts both
sockets and relays these messages. The server's model is per connection:
each socket is one client, whichever of the two it is.

This project models two parts of it:

- **The server's presence relay** (`server.js`), in `relay.dfy` and
  `palette.dfy`.
  - `Relay.Server` is a class. Its fields are the registry `activeUsers` (with
    `order`, the registry's key insertion order), the client set `clients`
    (each socket with its id and whether it is OPEN), and `outbox`, every
    control message sent, in order.
  - Each event handler is one method: connection, each inbound message
    type, and close. `broadcast` and `broadcastToOthers` are loops, proved
    against the fan-out function `Relay.Fanout`.
  - The server's invariant `Valid` says:
    - the client set holds each id once;
    - the registry holds only live ids, each under its own id;
    - every client's first control message is its own `init`.
- **The browser client** (`public/app.js`), in `client.dfy` and `shapes.dfy`.
  - `Client.PresenceView` holds the local identity, the roster
    `otherUsers`, the cursor indicators and the displayed user count.
  - `Client.Board` holds the tool, the drag state, the local shape list, and
    the operations the client issues on the shared array.
  - `Shapes.CreateShape` is the pure geometry that turns a drag into a
    shape.

`protocol.dfy` defines the shared vocabulary:
- presence records;
- inbound messages as the server classifies them;
- notices the server sends;
- JavaScript's `a || b` on optional strings and `slice(0, n)`.

`scenario.dfy` calls the server's methods in order for a first
connection's arrival and announcement on a fresh server, checked against
their contracts alone. It also works out what a second connection's
announcement sends, and that a page's own document connection is sent its
presence socket's announcement.

Randomness is passed in. The palette pick takes the value `u` of
`Math.random()`, and a connection id is a parameter, with the precondition
that it has not been used before. The shape id and the page's input values
are parameters too. The canvas's position on the page is also a parameter.

Three behaviours of the code are easy to misread:
- A `cursor` or `user-joined` message *replaces* the sender's record; it
  does not merge into it.
  - After a `cursor` message the record has no name.
  - After a `user-joined` message it has no cursor.
  - `Relay.Server.OnCursor` and `Relay.Server.OnUserJoined` state this.
- The `existing-users` list sent to a joining connection *includes that
  connection's own record*. The first connection to join is sent a
  one-element list holding itself (`Scenario.FirstUserJoins`).
- The record stored on `user-joined` gets a colour drawn anew, because the
  client sends no colour. In general this is not the colour announced in
  `init`. A later `cursor` message, once `init` has arrived, replaces it
  with the colour the client was given in `init`. Before `init` the client
  sends `#3498db`.

## Model

| member | source | states |
|---|---|---|
| Protocol.Or | server.js:35 | `a \|\| b` on an optional string: `a` when it is present and non-empty, `b` otherwise; never empty when `b` is not |
| Protocol.Prefix | server.js:43 | `slice(0, n)`: a prefix of the input, of length `n` or the whole input when it is shorter |
| Protocol.DefaultName | server.js:43 | the default name is `"User "` followed by a prefix of at most 4 characters of the id; exactly 4 when the id has 4 or more, and the whole id when it is shorter |
| Palette.Index | server.js:115 | the index drawn by `u` in [0, 1) is a valid palette index, and it is the floor of `12u` |
| Palette.RandomColor | server.js:109-116 | the colour picked for any `u` in [0, 1) is one of the palette's colours |
| Palette.ColorsDistinct | server.js:110-114 | the palette holds exactly 12 colours, pairwise distinct |
| Palette.RandomColorPicks | server.js:115 | `u` in the k-th twelfth of [0, 1) picks the k-th colour |
| Relay.Fanout | server.js:87-103 | one pass over the client set sends at most one message per socket; `Relay.FanoutReaches` and `Relay.FanoutOnce` say which sockets |
| Relay.FanoutReaches | server.js:87-103 | a delivery is in a fan-out if and only if it carries the notice to an OPEN client that is not the excluded sender |
| Relay.FanoutDeliveries | server.js:87-103 | every delivery of a fan-out carries the notice to an OPEN client id of the client set, never to the excluded sender |
| Relay.FanoutOnce | server.js:87-103 | with distinct client ids, each OPEN non-excluded client receives the notice exactly once and every other id zero times |
| Relay.SenderNeverEchoed | server.js:96-103 | `broadcastToOthers` never sends anything to the sender |
| Relay.Direct | server.js:53-56 | `ws.send` on one socket delivers only while that socket is OPEN, and then delivers exactly the one message |
| Relay.Values | server.js:55 | `Array.from(activeUsers.values())`: one record per key, the i-th being the record under the i-th key in insertion order |
| Relay.ExistingUsersExact | server.js:55 | the `existing-users` snapshot has one entry per registered id: as many entries as the registry, distinct ids, exactly the registry's records |
| Relay.OutboxWelcomes | server.js:79-84 | once a fresh connection is sent its `init`, every client's first control message is its own `init` |
| Relay.OutboxFanout | server.js:87-103 | a fan-out over the client set keeps the outbox invariant: messages only to assigned ids, each client's first is its `init` |
| Relay.AppendKeepsInitFirst | server.js:79-84 | sending further messages never changes which control message a client received first |
| Relay.ClientsConnect | server.js:18-19 | adding a socket with a fresh id keeps client ids distinct and adds exactly that id |
| Relay.RegistryStore | server.js:32-36 | `activeUsers.set` for a live id keeps the registry invariant, a new key going to the end of the iteration order |
| Relay.RegistryForget | server.js:69-71 | deleting a closed socket's id keeps the registry invariant over the remaining sockets |
| Relay.LeaverNotNotified | server.js:69-77 | the departing client is never sent its own `user-left` |
| Relay.Detach | server.js:69 | the client set after the socket is deleted is never longer; `Relay.DetachSpec` gives its exact contents |
| Relay.MarkClosing | server.js:90 | the socket leaving OPEN keeps every position and id of the client set and clears the OPEN flag of exactly that id |
| Relay.Remove | server.js:71 | `Map.delete` on the key order never lengthens it and leaves it as it was when the key is absent |
| Relay.Enrol | server.js:32 | `Map.set` on the key order keeps the old order as a prefix; it grows by one, the new key last, exactly when the key was absent |
| Relay.DetachSpec | server.js:69 | deleting a socket from the client set keeps exactly the other sockets, ids distinct |
| Relay.RemoveSpec | server.js:71 | `Map.delete` keeps exactly the other keys, each once |
| Relay.Server.constructor | server.js:15 | the server starts with an empty registry, no clients and nothing sent |
| Relay.Server.Broadcast | server.js:87-94 | the loop appends exactly `Fanout(clients, None, n)` to what was sent |
| Relay.Server.BroadcastToOthers | server.js:96-103 | the loop appends exactly `Fanout(clients, Some(sender), n)` to what was sent |
| Relay.Server.Send | server.js:80-84 | a direct send appends `Direct(clients, to, n)` |
| Relay.Server.Store | server.js:32-36 | `Map.set` replaces the record under its id; only a new key extends the iteration order |
| Relay.Server.Register | server.js:32-36 | storing a live connection's record replaces the record under its id, extends the key order only for a new key, and keeps the invariant |
| Relay.Server.Forward | server.js:38-44 | `broadcastToOthers` from a handler appends `Fanout(clients, Some(sender), n)`, keeps the invariant, and everything it sends is attributed to the sender or to no one |
| Relay.Server.Announce | server.js:52-61 | the sender is sent the whole registry in iteration order, then every other OPEN client its record; the invariant is kept and everything sent is attributed to the sender or to no one |
| Relay.Server.Connect | server.js:18-19 | a fresh socket is added OPEN, is sent `init` with its id and a palette colour, the invariant is kept and the registry untouched |
| Relay.Server.BeginClose | server.js:90 | a socket leaves the OPEN state with the client set's ids unchanged and the invariant kept |
| Relay.Server.Close | server.js:69-77 | the socket is gone from the client set, its record and key are deleted, `user-left` goes to every remaining OPEN client, the invariant is kept |
| Relay.Server.OnCursor | server.js:30-44 | the record is replaced by id, cursor and colour (the sent colour, or a palette colour); the cursor with the stored colour and the name or default name goes to every other OPEN client, and nothing sent is attributed to anyone else |
| Relay.Server.OnUserJoined | server.js:45-62 | the record is replaced by id, name or default name, and colour; the sender is sent the whole registry in iteration order, then the others are sent its record, and nothing sent is attributed to anyone else |
| Relay.Server.OnMessage | server.js:26-67 | dispatch on the type; a frame that does not parse, or of another type, changes nothing and sends nothing; everything sent is attributed to the sender or to no one |
| Shapes.CreateShape | public/app.js:195-226 | no shape if and only if the drag is under 2 on some axis; otherwise the shape is well formed, copies the tool, style, id and author, its top-left is the smaller corner, a rectangle or circle spans the drag box, and a square stays inside it and reaches its far side on one axis |
| Shapes.CornersSwap | public/app.js:205-211 | dragging from either end of a diagonal gives the same shape |
| Shapes.DiagonalsAgree | public/app.js:205-211 | dragging along the other diagonal of the same box gives the same shape |
| Client.Label | public/app.js:329 | the indicator's label is the name when non-empty, otherwise a prefix of at most 6 characters of the id |
| Client.Offset | public/app.js:334-336 | the page position minus the canvas origin is the canvas-local cursor |
| Client.Track | public/app.js:319-337 | the indicator of the id exists afterwards, every other indicator is unchanged; a new one takes the colour and label, an existing one keeps them; the position is the canvas origin plus the cursor, or unchanged when the notice has no cursor |
| Client.TrackIdempotent | public/app.js:319-337 | a repeated cursor notice leaves the indicators as the first one did |
| Client.TrackKeepsIdentity | public/app.js:322-332 | a later cursor notice with another colour or name moves the indicator but keeps its first colour and caption |
| Client.LastWith | public/app.js:112-116 | the user found is listed, has the asked id, and no later listed user has that id |
| Client.LastWithNone | public/app.js:112-116 | no user is found exactly when no listed user has that id |
| Client.MergeRoster | public/app.js:111-116 | walking the `existing-users` list keeps every id of the roster and adds at most one entry per listed user; `Client.MergeRosterAt` gives each entry |
| Client.MergeRosterAt | public/app.js:111-118 | after `existing-users`, the roster holds under each id other than the local user's the last listed user with that id, and otherwise what it held before |
| Client.MergeRosterKeys | public/app.js:111-118 | the merged roster's ids are the old ones plus every listed id but the local user's |
| Client.MergeRosterIdempotent | public/app.js:111-118 | processing the same `existing-users` list twice gives the roster of processing it once |
| Client.RosterAfter | public/app.js:98-118 | `init` and `cursor` leave the roster alone; a join of another user sets its record and keeps every other entry's record; a join naming the local user, or with no user, changes nothing; a leave deletes exactly that id and keeps every other record; no notice but a leave drops an id |
| Client.CountsUsers | public/app.js:98-118 | the count is rewritten on every leave and every `existing-users`, on a join exactly when it names another user, and never on `init` or `cursor` |
| Client.RosterExcludesSelf | public/app.js:98-118 | no notice puts the local user into the roster |
| Client.RosterIdempotent | public/app.js:98-118 | a notice delivered twice leaves the roster as one delivery does, so repeated joins add nothing |
| Client.RosterSize | public/app.js:98-109 | a join adds at most one roster entry; a leave removes one exactly when the id was present; other notices leave the roster alone |
| Client.PresenceView.constructor | public/app.js:7-11 | the page starts with no id, the colour `#3498db`, an empty roster, no indicators and no count written |
| Client.PresenceView.UpdateActiveUsersCount | public/app.js:346-349 | the shown count is the roster's size plus one |
| Client.PresenceView.UpdateOtherUserCursor | public/app.js:319-337 | the indicators become `Track` of the old ones |
| Client.PresenceView.RemoveUserCursor | public/app.js:339-344 | the indicator of the id, if any, is deleted and nothing else |
| Client.PresenceView.MergeExisting | public/app.js:111-116 | the loop leaves the roster equal to `MergeRoster` of the old roster and the whole list |
| Client.PresenceView.JoinUser | public/app.js:98-103 | the roster becomes `RosterAfter` of the join, the count is rewritten exactly when `CountsUsers` says so, the invariant is kept and the local user stays out of the roster |
| Client.PresenceView.LeaveUser | public/app.js:107-108 | the roster becomes `RosterAfter` of the leave, the count is rewritten, the invariant is kept and the local user stays out of the roster |
| Client.PresenceView.ExistingUsersArrive | public/app.js:111-118 | the roster becomes `RosterAfter` of the list, the count is rewritten, the invariant is kept and the local user stays out of the roster |
| Client.PresenceView.Handle | public/app.js:85-120 | `init` sets the identity; the roster follows `RosterAfter`; `cursor` tracks, `user-left` removes the indicator; the count is rewritten exactly on roster notices and is always the roster size plus one; anything else changes nothing; the local user stays out of the roster |
| Client.Board.constructor | public/app.js:122-131 | the board starts with the select tool, no drag, the shared array's shapes at load time and no operations issued |
| Client.Board.SelectTool | public/app.js:46-50 | a tool button sets the current tool |
| Client.Board.MouseDown | public/app.js:155-162 | with a drawing tool, a drag starts at the canvas-local point; with the select tool nothing changes |
| Client.Board.MouseUp | public/app.js:176-193 | with a drag in progress and a drawing tool, the drag ends and `CreateShape`'s shape, if any, is appended locally and pushed to the shared array; every shape pushed is well formed; otherwise nothing changes |
| Client.Board.ClearCanvas | public/app.js:309-317 | on confirmation the local shapes are emptied and a delete-all is issued; otherwise nothing changes |
| Client.Board.OnRemoteChange | public/app.js:122-126 | a remote change of the shared array changes neither the local shapes nor the tool nor the drag state |
| Scenario.FirstUserConnects | server.js:79-84 | a connection to a fresh server is its only client, the registry is empty, and it has been sent only its `init` with the first palette colour |
| Scenario.AloneHearsItself | server.js:52-61 | a client alone on the server that announces itself is sent only the list holding its own record, and no one else is sent anything |
| Scenario.FirstUserJoins | server.js:18-85 | after connecting with any id and announcing any non-empty name, the first connection is registered alone and has been sent exactly two messages: its `init` with the first palette colour, then an `existing-users` list holding only its own record |
| Scenario.SecondJoinSends | server.js:52-62 | for any two distinct ids, the second connection to announce itself is sent both records in join order, and the first connection is sent the second's record |
| Scenario.PageHearsItsOwnJoin | server.js:96-103 | a page's document connection is sent the `user-joined` of the same page's presence socket, because `broadcastToOthers` skips only the sending socket |

## Left out

- Document synchronisation (the CRDT frames of the provider's connection, and `setupWSConnection`). They appear only as opaque inbound frames that fail to parse, which the presence handlers ignore. The library may send sync frames before the `init` message, so "first message is `init`" holds among control messages only.
- Each page is two connections. Only the presence connection announces itself. The document provider's connection is a client of the server like any other: it is sent its own `init` and every broadcast, but it never registers. The model has no notion of a page, so that pairing is stated only by `Scenario.PageHearsItsOwnJoin`.
- The HTTP server, static file serving, the port, and console logging. They are outside the presence logic.
- JSON encoding and decoding. Messages are datatypes. A field that is present but not a string is not modelled: `||` is modelled for absent and string values only.
- Id generation, `Math.random()` and `Date.now()`. They are parameters, and `Relay.Server.Connect` requires a fresh id, so random id collisions are not modelled.
- The exact order of events across sockets. Each handler is one atomic method; the interleaving is left to the caller.
- Client: the DOM text (`You: …`, the status line, and the initial count text, modelled as no count written).
- Client: the automatic reconnect after a close.
- Client: the messages it sends (`user-joined` on open, `cursor` on mouse move).
- Client: the drawing of shapes and of the drag preview (`drawShape`, `drawPreview`, `redrawCanvas`, `handleMouseMove`), which only paint.
- `Shapes.CreateShape`: numbers are exact reals, so NaN and infinities are not modelled, including the NaN that `parseInt` gives for an empty stroke-width input. The stroke width is an integer parameter.
- `Client.Board.OnRemoteChange`: the local `shapes` list is a copy of the shared array taken at load time. Remote shapes are not added to it, and that is what the model states. The shared array itself is not modelled, only the operations this client issues on it.
- `Client.PresenceView.Handle`: the local user stays out of the roster for every notice except `init`. An `init` whose id is already in the roster would leave it there; the server never reuses an id.
- `Scenario.SecondJoinSends`: the second connection's join is stated over the fan-out functions, starting from a two-user registry, not through calls of the server's methods.
- `Client.PresenceView.Handle`: a roster notice that arrives before `init` compares listed users against a null id, so it would add this browser's own record. The model states this through `old(currentId)`. It does not combine the client with the server to show that this cannot happen, although the server sends `init` first (`Relay.OutboxWelcomes`).
