# SketchIt WebSocket room relay — a Dafny model

This project models the real-time relay of SketchIt (`apps/ws-backend/src/index.ts`).
The relay accepts WebSocket connections and authenticates each by a JWT carried in the
URL's `token` parameter. It keeps a module-level registry `users` of
`{ws, rooms, userId}` entries and handles three kinds of inbound frames:

- `join_room` appends the frame's `roomId` to the sender's rooms.
- `leave_room` reassigns the sender's rooms with a filter.
- `chat` finds or creates the room by slug in the Prisma store, appends a chat record,
  and then sends `{type: "chat", message, roomId}` to every registry entry that has
  joined the slug.

The model has two layers.

- **Values** (`Auth`, `Sessions`, `Router`, `Persistence`, `RelaySpec`). `checkUser` is a
  function over an abstract verification outcome. Each handler step is a function on a
  `World` value: registry, rooms, chat records, the sends made (the outbox) and the
  sockets closed. The lemmas about these functions state what the source promises.
- **State** (`Relay`). `Relay.Store` is a class over the rooms and chat records. Its
  `FindRoomBySlug`, `CreateRoom` and `AppendChat` may each throw. `Relay.Server` holds the
  `users` registry, the outbox and the closed sockets, and runs the two handlers in place.
  It is proved against the `RelaySpec` step functions (`Model() == Connect(old(Model()), …)`
  and `Model() == OnMessage(old(Model()), …)`). The `forEach` broadcast loop is proved
  against `Router.Deliveries`.

The model follows the code AS WRITTEN, including its two defects:

- `leave_room` keeps only the rooms *equal* to the frame's `room` field. The protocol
  names the room in `roomId`.
- The broadcast sits inside the same `try` as the store calls, so a store failure
  suppresses the relay.

Corrected definitions stand beside the as-written ones, with the intended properties
proved about them (see "## Findings"). The relay itself does not use them.

Facts about the code that the model keeps:

- `join_room` does not de-duplicate: joining a joined room adds it again.
- There is no close handler, so entries are never removed from the registry.
- A missing token is passed to the verifier as `""`.
- The relay waits for persistence, and does not happen when persistence fails.

External inputs:

- `jwt.verify` is the parameter `verify: string -> VerifyOutcome`.
- The `token` query parameter and the URL are inputs, taken as already extracted.
- Inbound frames are inputs taken after `JSON.parse` (`Json.Frame`).
- Which store calls throw is the input `Persistence.Faults`.
- Socket sends are recorded in the outbox, and `ws.close()` in `closed`.

## Model

| member | source | states |
|---|---|---|
| Auth.CheckUser | apps/ws-backend/src/index.ts:16-33 | a user id is returned exactly when verification yields an object payload whose `userId` is present and non-empty (truthy), and it is that `userId`; otherwise null |
| Auth.CheckUserRejects | apps/ws-backend/src/index.ts:16-33 | the three null cases: verify throws, the payload is a string, the payload lacks a truthy `userId` |
| Auth.TokenOf | apps/ws-backend/src/index.ts:41 | no contract of its own; specified by Auth.MissingTokenIsEmptyToken and Auth.TokenPassedThrough |
| Auth.Authenticate | apps/ws-backend/src/index.ts:41-42 | the gate only ever admits a non-empty user id |
| Auth.MissingTokenIsEmptyToken | apps/ws-backend/src/index.ts:41-42 | a missing `token` parameter and an empty one are both verified as the empty string |
| Auth.TokenPassedThrough | apps/ws-backend/src/index.ts:41-42 | a non-empty token reaches the verifier unchanged |
| Sessions.FindIndex | apps/ws-backend/src/index.ts:64 | `users.find` by socket: the index of the FIRST entry bound to `ws`, or none exactly when no entry is bound to it |
| Sessions.KeepEqual | apps/ws-backend/src/index.ts:73 | the leave filter as written: every kept room equals the frame's `room`, and it keeps all of them (`multiset` count) |
| Sessions.Join | apps/ws-backend/src/index.ts:63-66 | no contract of its own; specified by Sessions.JoinAppendsExactlyOne |
| Sessions.JoinAppendsExactlyOne | apps/ws-backend/src/index.ts:63-66 | join appends the room to the first matching entry's rooms (one more occurrence even if already joined); no entry, no change; every other entry and all handles and ids unchanged |
| Sessions.Leave | apps/ws-backend/src/index.ts:68-74 | no contract of its own; specified by Sessions.LeaveKeepsOnlyEqualRooms |
| Sessions.LeaveKeepsOnlyEqualRooms | apps/ws-backend/src/index.ts:68-74 | leave as written: the matching entry keeps only rooms equal to `room`; no entry, no change; other entries unchanged |
| Sessions.RemoveRoom | apps/ws-backend/src/index.ts:73 | intended leave filter: the named room is gone, every other room keeps its multiplicity |
| Router.Members | apps/ws-backend/src/index.ts:111-112 | the member entries of a room: strictly increasing indices, each one joined, every joined entry listed |
| Router.Deliveries | apps/ws-backend/src/index.ts:111-121 | no contract of its own; specified by Router.DeliveriesFollowMembers, Router.DeliveriesOnlyToMembers and Router.ExactlyOncePerMember against Router.Members |
| Router.DeliveriesFollowMembers | apps/ws-backend/src/index.ts:110-121 | the broadcast makes one send per member entry, in registry order, each carrying the frame |
| Router.DeliveriesOnlyToMembers | apps/ws-backend/src/index.ts:111-120 | every send goes to a connection whose entry joined the slug, with the chat frame |
| Router.SendsCountJoinedEntries | apps/ws-backend/src/index.ts:111-121 | the sends to a connection number the registry entries of that connection that have joined |
| Router.ExactlyOncePerMember | apps/ws-backend/src/index.ts:111-121 | with one entry per connection: a joined connection (the sender included) gets exactly one frame, any other connection none |
| Persistence.FirstWithSlug | apps/ws-backend/src/index.ts:85-89 | `findFirst` by slug returns a stored room with that slug, or none exactly when no stored room has it |
| Persistence.AppendChat | apps/ws-backend/src/index.ts:102-108 | no contract of its own; specified through Persistence.PersistChat's lemmas |
| Persistence.PersistChat | apps/ws-backend/src/index.ts:83-108 | no contract of its own; specified by Persistence.PersistOkIff, PersistOnlyAppends, PersistExistingRoom, PersistUnknownRoom and PersistKeepsConsistent |
| Persistence.PersistOkIff | apps/ws-backend/src/index.ts:83-124 | the `try` block reaches the broadcast iff no store call it reaches throws (the create only being reached for an unknown slug) |
| Persistence.PersistOnlyAppends | apps/ws-backend/src/index.ts:84-108 | the store only grows: at most the new room, and exactly one chat record iff the block succeeds |
| Persistence.PersistExistingRoom | apps/ws-backend/src/index.ts:84-108 | a known slug creates no room; the record `{room.id, message, userId}` is appended unless the append throws |
| Persistence.PersistUnknownRoom | apps/ws-backend/src/index.ts:91-108 | an unknown slug creates exactly one room with that slug and `adminId = userId`, and the record is filed under its id |
| Persistence.PersistKeepsConsistent | apps/ws-backend/src/index.ts:84-108 | find-or-create keeps ids sequential, slugs unique and records pointing at rooms; a stored record belongs to the one room of its slug |
| RelaySpec.Connect | apps/ws-backend/src/index.ts:35-53 | no contract of its own; specified by RelaySpec.ConnectOutcomes and RelaySpec.ConnectKeepsConsistent |
| RelaySpec.ConnectOutcomes | apps/ws-backend/src/index.ts:35-53 | no URL: nothing changes; rejected token: the socket is closed and nothing registered; accepted: exactly one entry `{ws, [], userId}` appended, earlier entries unchanged |
| RelaySpec.OnMessage | apps/ws-backend/src/index.ts:55-126 | no contract of its own; specified by RelaySpec.OnMessageKeepsIdentities, OnMessageKeepsConsistent and ChatRelaysToMembers |
| RelaySpec.OnMessageKeepsIdentities | apps/ws-backend/src/index.ts:55-126 | no frame changes the registry's length, handles or user ids, or closes a socket |
| RelaySpec.RegistryNeverShrinks | apps/ws-backend/src/index.ts:14-53 | no step removes an entry: frames keep the length, connections keep the old registry as a prefix |
| RelaySpec.Chat | apps/ws-backend/src/index.ts:79-125 | no contract of its own; specified by RelaySpec.ChatRelaysToMembers and RelaySpec.ChatReachesEachMemberOnce |
| RelaySpec.ChatRelaysToMembers | apps/ws-backend/src/index.ts:79-125 | a chat sends the chat frame to the room's members in registry order when persistence succeeds and nothing when it fails; registry unchanged |
| RelaySpec.OnMessageKeepsConsistent | apps/ws-backend/src/index.ts:55-126 | every frame keeps the relay invariant (unique connections, consistent store) |
| RelaySpec.ConnectKeepsConsistent | apps/ws-backend/src/index.ts:35-53 | a connection event for a new socket keeps the relay invariant |
| RelaySpec.ChatReachesEachMemberOnce | apps/ws-backend/src/index.ts:110-121 | in a consistent relay a successful chat reaches every joined connection exactly once and no other |
| RelaySpec.LeaveClearsAllRooms | apps/ws-backend/src/index.ts:68-74 | as written, a protocol-conformant leave (room in `roomId`) empties the sender's rooms |
| RelaySpec.LeaveCounterexample | apps/ws-backend/src/index.ts:73 | a member of "a" and "b" that leaves "a" is left in no room |
| RelaySpec.LeaveIntendedRemovesOnlyThatRoom | apps/ws-backend/src/index.ts:68-74 | the intended leave removes exactly the named room and changes nothing else |
| RelaySpec.LeaveIntendedThenNoDelivery | apps/ws-backend/src/index.ts:68-74 | after the intended leave, a broadcast to that room sends nothing to the leaver |
| RelaySpec.StoreFailureSuppressesRelay | apps/ws-backend/src/index.ts:83-124 | as written, when the chat append throws, the room's members receive nothing |
| RelaySpec.ChatIntendedRelayIgnoresFaults | apps/ws-backend/src/index.ts:83-124 | intended chat: the relay is the same whatever the store does, and persistence is the as-written one |
| RelaySpec.ScenarioChatInRoom | apps/ws-backend/src/index.ts:63-121 | two members join "demo"; one chat from U1 reaches U1 then U2, creates room "demo" with admin U1 and stores one record |
| RelaySpec.ScenarioInvalidToken | apps/ws-backend/src/index.ts:40-47 | a token the verifier rejects (missing and empty tokens verified as `""`) closes the socket and registers nothing |
| Relay.Store.FindRoomBySlug | apps/ws-backend/src/index.ts:85-89 | it throws exactly when told to; otherwise it returns the first stored room with the slug, or none when there is none |
| Relay.Store.CreateRoom | apps/ws-backend/src/index.ts:93-98 | it throws when told to or when the slug is taken (unique constraint), leaving rooms unchanged; otherwise it appends and returns the new room with the next id |
| Relay.Store.AppendChat | apps/ws-backend/src/index.ts:102-108 | it throws exactly when told to, leaving records unchanged; otherwise it appends and returns the record |
| Relay.Server.OnConnection | apps/ws-backend/src/index.ts:35-53 | the connection handler updates the registry and closed sockets exactly as `RelaySpec.Connect` |
| Relay.Server.OnMessage | apps/ws-backend/src/index.ts:55-126 | the message handler updates registry, store and outbox exactly as `RelaySpec.OnMessage` |
| Relay.Server.Broadcast | apps/ws-backend/src/index.ts:110-121 | the `forEach` loop appends exactly `Deliveries(users, slug, f)` to the outbox and changes nothing else |

## Left out

- Auth.CheckUser: the `userId` claim is modelled as an optional string. A truthy non-string claim, such as a number, is not modelled.
- JWT cryptography: `jwt.verify` is an abstract parameter returning the three outcomes.
- `URLSearchParams` decoding: the URL and its `token` parameter are independent inputs.
- `JSON.parse` of frames: frames are inputs already decoded to objects.
  - A frame that fails to parse, and the document `null` (reading its `type` throws), make the handler throw before any change.
  - A document that is some other non-object (a number, a string) changes nothing.
  - The model covers object frames only.
- Field values that are floating-point numbers, objects or arrays are left out. `Json.Value` covers absent fields, null, booleans, integers and strings.
- Persistence.FirstWithSlug: `findFirst` without `orderBy` has no specified order. The model takes the first room in creation order, which is the only one while slugs are unique.
- Prisma treats `where: {slug: undefined}` as no filter, and it validates value types. Neither is modelled; a store call that throws for such reasons is covered by the `Faults` input.
- Room ids are taken to be assigned in sequence (1, 2, …). The store's schema is not part of this model.
- Async interleavings between and within connections are left out: the handler is `async`, so a later frame from the same sender (a `join_room` or `leave_room`) can run while its `chat` awaits the store, and the broadcast then reads the updated registry. The model also leaves out the check-then-create race between `findFirst` and `create`. Each handler step runs alone, so the unique-slug conflict of `CreateRoom` never fires on the relay's path.
- Relay.Server.Broadcast: a send is recorded whether or not the socket is still open. Delivery and transport errors of `ws.send` are not modelled.
- Console logging (including the `catch` block's log) is left out.
- The HTTP backend, its middleware, and the frontend pages and components are not part of this model.

## Findings

| source | as written | input that shows it | evidently intended | confidence | as-written member | corrected member |
|---|---|---|---|---|---|---|
| apps/ws-backend/src/index.ts:73 | leave keeps the rooms equal to the frame's `room` field, which the protocol's leave frame does not carry | a member of "a" and "b" sends `leave_room` with `roomId` "a" and ends in no room | remove the room named by `roomId` and keep the others | high (not executed) | RelaySpec.LeaveCounterexample | RelaySpec.LeaveIntendedRemovesOnlyThatRoom |
| apps/ws-backend/src/index.ts:83-124 | the broadcast runs only after all store calls succeed, inside the same `try` | two members of "demo"; a chat to "demo" whose record append throws sends nothing | relay to the members whatever persistence does | medium (not executed) | RelaySpec.StoreFailureSuppressesRelay | RelaySpec.ChatIntendedRelayIgnoresFaults |
