# zed: message protocol, server relay and client state, modelled in Dafny

zed is a small networked top-down game. A **server** keeps a `clients` list of UDP addresses.
It greets each new address with a sequential player id and relays every packet payload, byte
for byte, to all clients. A **client** sends a greeting when it starts. It then sends its own
position and heading every tick, and applies the statuses relayed back to it to a table of
remote players. Both ends use one **protocol**, `SimpleProtocol`. Each message kind is
registered and gets a `usize` discriminant. A frame is that discriminant followed by the
bincode encoding of the message. On receipt the discriminant selects the decoder, and the
decoded value is dispatched to the application.

This project models the following:

- the three message records and their bincode 1.x wire layout: fixed-width little-endian
  integers, `usize` as 8 bytes, `bool` as one byte 0/1, and `String` as a u64 length followed
  by well-formed UTF-8;
- the protocol's registry, its framing, and its failure cases;
- the server's event loop;
- the two-way `Mapping`;
- the `Button` edge detector and `Controller`;
- the client's `Net::poll`, its handlers for received values, `send_player_pos` and the key
  handlers.

Files, one module each:

| file | module | models |
|---|---|---|
| `wrappers.dfy` | `Wrappers` | `Option`, `Result` |
| `octets.dfy` | `Octets` | byte ↔ number conversions |
| `utf8.dfy` | `Utf8` | the UTF-8 well-formedness check `String::from_utf8` performs (Unicode Standard, table 3-7) |
| `wire.dfy` | `Wire` | bincode's encodings of `u64`/`usize`, `u8`, `bool`, `f64` and `String` |
| `message.dfy` | `Message` | `Greeting`, `GreetingResponse`, `PlayerStatus` and their encode/decode |
| `transport.dfy` | `Transport` | laminar's `SocketAddr`, `Packet`, `SocketEvent`; the crossbeam sender and receiver as classes |
| `protocol.dfy` | `Protocol` | the `Registry` value and the `SimpleProtocol` class over it, `register_messages` |
| `server.dfy` | `Server` | the relay as a state machine (`Step`, `Run`) and the imperative loop proved against it |
| `mapping.dfy` | `Mapping` | the two-way map, as a value (`Table`) and as the class that mutates it |
| `controller.dfy` | `Controller` | `Button`, `Direction`, `Controller` |
| `client.dfy` | `Client` | the client's game state (`Game`), `Net` and `Main` |

Several design choices run through the model:

- Each imperative source entity is a class, and its methods are proved equal to a value-level
  function of the old state. Those functions are then related to one another by lemmas.
- Panics are explicit outcomes: `Panicked(cause)` from a method, and `Err(cause)` or the status
  `Crashed(cause)` in the specifications.
- The foreign `bottles::Dispatcher` is an append-only log `dispatched` of `(kind, value)`
  entries, kept inside `SimpleProtocol`. The client's `Queue` is a cursor `delivered` into that
  log.
- Floating-point values are opaque 64-bit words, `F64(bits)`. The client's `atan2`, `cos` and
  `sin` are given as the parameter `FloatMath`.

Behaviours of the code that the model keeps as written:

- A Connect from an address already in `clients` executes `break` (`zed-server/src/main.rs:52-54`):
  the loop ends, the model's status is `Stopped`, and later events are never taken.
- Every `unwrap` in the protocol panics; a bad frame is never rejected and recovered from. In
  the model one bad frame is a `Panic`.
- Registering a kind twice is not an error. It appends a second decoder and rebinds the kind's
  send id (`Protocol.ReRegisterRebinds`).

## Model

| member | source | states |
|---|---|---|
| Wire.U64RoundTrip | zed-shared/src/protocol.rs:48 | decoding an encoded `usize`/`u64` gives it back and leaves exactly the following bytes |
| Wire.U64Inverse | zed-shared/src/protocol.rs:76 | any successful `u64` decode consumed exactly the encoding of the value it returned |
| Wire.StrRoundTrip | zed-shared/src/message.rs:5-7 | a `String` encodes as its 8-byte length and its bytes, and decodes back unchanged |
| Wire.StrInverse | zed-shared/src/message.rs:5-7 | a successful `String` decode consumed exactly the encoding of the string it returned |
| Wire.StrRejectsShortBody | zed-shared/src/protocol.rs:64 | a length prefix larger than the remaining bytes fails with `UnexpectedEof` |
| Wire.StrRejectsMalformedBody | zed-shared/src/protocol.rs:64 | a body that is not well-formed UTF-8 fails with `InvalidUtf8Encoding` |
| Wire.BoolRoundTrip | zed-shared/src/message.rs:31 | `bool` is one byte, 1 or 0, and decodes back |
| Wire.BoolRejectsOtherTags | zed-shared/src/message.rs:31 | any other byte in a `bool` position fails with `InvalidBoolEncoding` carrying that byte |
| Wire.U8RoundTrip | zed-shared/src/message.rs:28-30 | a colour channel is one byte and decodes back |
| Wire.F64RoundTrip | zed-shared/src/message.rs:25-27 | an `f64` travels as its 64-bit word and decodes back bit for bit |
| Wire.DecodeEncodeLE | zed-shared/src/protocol.rs:48 | the little-endian encoding of a number below 256^w decodes back to that number |
| Wire.EncodeDecodeLE | zed-shared/src/protocol.rs:76 | re-encoding what was decoded gives the same bytes, so the encoding is unique |
| Utf8.AsciiIsValid | zed-client/src/zed/app.rs:399-403 | every ASCII byte string is well-formed UTF-8, so the greeting name is a valid `String` |
| Utf8.InvalidLeads | zed-shared/src/protocol.rs:64 | a continuation byte or C0, C1, F5..FF never starts well-formed UTF-8 |
| Message.RoundTrip | zed-shared/src/message.rs:4-32 | decoding the encoding of any record yields the same record, field for field, with the following bytes left over |
| Message.DecodeInverse | zed-shared/src/message.rs:4-32 | any successful decode of kind `k` returns a record of kind `k` and consumed exactly its encoding |
| Message.PlayerStatusLayout | zed-shared/src/message.rs:23-32 | a PlayerStatus encodes in declaration order as 36 bytes: id, x, y and angle as 8 bytes each, then r, g, b and holster as one byte each |
| Message.ShortRecordsLayout | zed-shared/src/message.rs:5-7 | a GreetingResponse is exactly the 8-byte id; a Greeting is the 8-byte name length followed by the name |
| Message.PlayerStatusNeedsAllBytes | zed-shared/src/message.rs:23-32 | fewer than 36 bytes never decode as a PlayerStatus |
| Message.PlayerStatusRejectsBadHolster | zed-shared/src/message.rs:31 | a holster byte other than 0 or 1 makes the PlayerStatus decode fail |
| Protocol.Frame | zed-shared/src/protocol.rs:46-52 | a send frame is the 8-byte little-endian discriminant followed by the payload encoding, and nothing else |
| Protocol.Registry.Register | zed-shared/src/protocol.rs:60-71 | registering keeps the registry consistent: every id names a decoder of its kind, and every decoder's kind has an id |
| Protocol.RegisterAll | zed-shared/src/protocol.rs:60-71 | the registry after any sequence of `register` calls on a new protocol is consistent, and its decoders are those kinds in call order |
| Protocol.RegisterAllAssigns | zed-shared/src/protocol.rs:67-70 | after n registrations there are n decoders in call order; exactly the registered kinds have ids; each kind's id is the index of its last registration |
| Protocol.DistinctKindsGetTheirIndex | zed-shared/src/protocol.rs:67-70 | when no kind repeats, the i-th registered kind gets discriminant i |
| Protocol.StandardIsThreeRegistrations | zed-shared/src/protocol.rs:95-97 | the standard registry is the one three `register` calls build, in the `register_messages` order |
| Protocol.StandardIds | zed-shared/src/protocol.rs:95-97 | `register_messages` gives Greeting 0, GreetingResponse 1, PlayerStatus 2, with decoders in that order |
| Protocol.StandardHasStandardIds | zed-shared/src/protocol.rs:88-98 | the standard registry maps every kind to its fixed discriminant |
| Protocol.StandardSend | zed-shared/src/protocol.rs:46-52 | under those ids every message is sent as the frame with its kind's fixed discriminant |
| Protocol.ReRegisterRebinds | zed-shared/src/protocol.rs:67-70 | re-registering K appends a decoder and rebinds K to the newest index; the older index still decodes K; other ids are unchanged |
| Protocol.UnregisteredSendPanics | zed-shared/src/protocol.rs:48 | preparing a send buffer fails exactly when the kind was never registered, and the failure names that kind |
| Protocol.FrameRoundTrip | zed-shared/src/protocol.rs:63-66 | a frame sent for value v of a registered kind is received, even with trailing bytes, as exactly v tagged with its kind, by any registry with the same decoders |
| Protocol.ShortFramePanics | zed-shared/src/protocol.rs:76 | a frame of fewer than 8 bytes panics (`Truncated`) |
| Protocol.UnknownDiscriminantPanics | zed-shared/src/protocol.rs:77 | a discriminant of at least `decoders.len()` panics, naming the discriminant |
| Protocol.PayloadDecodeFailurePanics | zed-shared/src/protocol.rs:64 | a payload the selected decoder rejects panics with that decoder's kind and error |
| Protocol.ReceivedValuesCameFromFrames | zed-shared/src/protocol.rs:73-78 | whatever `receive` dispatches has the kind its discriminant selects, and the frame starts with exactly that value's frame |
| Protocol.SimpleProtocol.constructor | zed-shared/src/protocol.rs:38-44 | a new protocol has no decoders, no ids and an empty dispatch log |
| Protocol.SimpleProtocol.Register | zed-shared/src/protocol.rs:60-71 | the new state is the old registry with one more registration; the dispatch log is unchanged |
| Protocol.SimpleProtocol.PrepareSendBuffer | zed-shared/src/protocol.rs:46-52 | the buffer is the registry's send frame: the kind's id, then the payload; an unregistered kind is a panic |
| Protocol.SimpleProtocol.SendReliableUnordered | zed-shared/src/protocol.rs:80-85 | exactly one packet, to `addr`, carrying the frame, or a panic (unregistered kind, or sender closed) with nothing sent |
| Protocol.SimpleProtocol.Receive | zed-shared/src/protocol.rs:73-78 | the registry is unchanged; on success exactly one entry is appended to the dispatch log; on a panic nothing is |
| Protocol.RegisterMessages | zed-shared/src/protocol.rs:88-98 | three registrations in order; on a new protocol the result is the standard registry |
| Server.Step | zed-server/src/main.rs:50-77 | one event only appends to `clients` and to what was sent; a client is added exactly when the event is a Connect from an unseen address, and then it gets the Greet with id = previous count |
| Server.Run | zed-server/src/main.rs:48-79 | the loop consumes events until it leaves; while still running, no event remains |
| Server.HandshakeIsStandardSend | zed-server/src/main.rs:28 | the server's GreetingResponse frame is discriminant 1 followed by the id, as `register_messages` fixes |
| Server.ConnectFromNewAddress | zed-server/src/main.rs:56-62 | a Connect from an unseen address appends it and sends exactly one GreetingResponse with id = previous `clients.len()` to it |
| Server.ConnectFromKnownAddressStops | zed-server/src/main.rs:52-54 | a Connect from a known address leaves the loop, with no id, no reply and `clients` unchanged |
| Server.TimeoutChangesNothing | zed-server/src/main.rs:64-66 | a Timeout, and an event the loop does not match, change nothing and send nothing |
| Server.PacketIsRelayedToAll | zed-server/src/main.rs:67-75 | a packet, from whatever address, is forwarded unchanged to every client in connection order; `clients` is unchanged; with no clients nothing is sent |
| Server.SenderLossCrashes | zed-server/src/main.rs:60-62 | with the sender gone, greeting a new client or relaying to anyone panics with nothing sent |
| Server.LeftLoopIsFinal | zed-server/src/main.rs:48 | once the loop has been left, no further event is processed |
| Server.RunKeepsClientsDistinct | zed-server/src/main.rs:52-58 | `clients` never holds an address twice |
| Server.RunOnlyAppends | zed-server/src/main.rs:57-58 | no run removes or reorders clients or sent packets, so ids are never reused |
| Server.RunGreetsEachNewClient | zed-server/src/main.rs:57-62 | with the sender up, the client at index i was sent the GreetingResponse with id i |
| Server.TwoClientsHandshake | zed-server/src/main.rs:51-63 | two fresh addresses connecting in turn get ids 0 and 1 |
| Server.StatusRelayedToBoth | zed-server/src/main.rs:67-75 | a status packet from client A reaches A and B unmodified |
| Server.ReconnectLeavesLoop | zed-server/src/main.rs:52-54 | a second Connect from A stops the loop, and the Connect from B queued behind it is never taken |
| Server.FanoutOnWire | zed-server/src/main.rs:69-74 | the relayed packets carry the payload unchanged, one per client, in connection order |
| Server.PacketsAppend | zed-server/src/main.rs:70-73 | the packets of two logs, one after the other, are the packets of each log in turn |
| Server.Broadcast | zed-server/src/main.rs:69-74 | the `for` loop hands the sender exactly one unchanged packet per client, in order, or panics at the first send when the sender is gone |
| Server.Admit | zed-server/src/main.rs:56-62 | push the address, then one GreetingResponse with the previous count as id, or a panic |
| Server.HandleEvent | zed-server/src/main.rs:50-77 | the loop body does exactly what `Step` specifies, and the sender holds the packets of the new log |
| Server.EventLoop | zed-server/src/main.rs:48-79 | the loop ends in the state `Run` specifies from the queued events, and the sender received exactly that run's packets |
| Mapping.NewAnswersNone | zed-shared/src/mapping.rs:12-17 | a new mapping answers `None` to every lookup in both directions |
| Mapping.InsertThenLookup | zed-shared/src/mapping.rs:35-38 | after `insert(l, r)`, `by_left(l)` is `Some(r)` and `by_right(r)` is `Some(l)` |
| Mapping.InsertLeavesOthers | zed-shared/src/mapping.rs:35-38 | `insert(l, r)` leaves every other left and right lookup unchanged |
| Mapping.StaleEntrySurvives | zed-shared/src/mapping.rs:35-38 | after `insert(l, r1)` and then `insert(l, r2)`, `by_right(r1)` still answers `Some(l)` |
| Mapping.InsertAllKeys | zed-shared/src/mapping.rs:35-38 | only inserted values are ever keys of either side |
| Mapping.InjectiveInsertsAreInverse | zed-shared/src/mapping.rs:35-38 | when no left and no right value is inserted twice, `by_left` and `by_right` are mutual inverses |
| Mapping.Mapping.constructor | zed-shared/src/mapping.rs:12-17 | a new mapping holds the empty table |
| Mapping.Mapping.ByLeft | zed-shared/src/mapping.rs:19-25 | the answer is the table's left lookup |
| Mapping.Mapping.ByRight | zed-shared/src/mapping.rs:27-33 | the answer is the table's right lookup |
| Mapping.Mapping.Insert | zed-shared/src/mapping.rs:35-38 | the table afterwards is the old table with both directions written |
| Controller.Button.constructor | app/src/controller.rs:20-25 | a new button is not pressed and shows neither edge |
| Controller.Button.Update | app/src/controller.rs:27-30 | `previous` takes the old `pressed`; `rising` holds iff the update went false→true, `falling` iff it went true→false |
| Controller.Button.Rising | app/src/controller.rs:36-42 | a button never shows both edges at once |
| Controller.Controller.constructor | app/src/controller.rs:66-75 | four distinct, fresh, released buttons and direction (0, 0) |
| Controller.Edges | app/src/controller.rs:27-42 | along any input sequence, each update's edges are rising iff the input went up and falling iff it went down |
| Controller.EdgesOfTestSequence | app/src/controller.rs:91-117 | driving a `Button` through the unit test's eight updates with `Edges` yields exactly the test's expected (rising, falling) pairs |
| Client.NewGame | zed-client/src/zed/app.rs:161-195 | the new game is consistent, has no id and no remote players, and holds exactly one entity: the local player at (16, 16) with the chosen colour |
| Client.OnPlayerStatus | zed-client/src/zed/app.rs:334-384 | handling a status keeps the game consistent: one local entity, and every remote-table entry names an existing, non-local entity with that player's id |
| Client.OwnStatusIgnored | zed-client/src/zed/app.rs:337-340 | a status carrying this client's own id changes nothing |
| Client.UnsetIdFiltersNothing | zed-client/src/zed/app.rs:337-340 | while no id is assigned, every status lands in the remote-player table |
| Client.NewRemotePlayer | zed-client/src/zed/app.rs:342-363 | an unseen id gets exactly one new entity and one table entry; its position, colour, holster and id come from the message, its direction is (0, 0), and its model is the `guy_static`/`guy_blend` sprite at 20 by 20 with frame (1, 1); nothing else changes |
| Client.KnownRemotePlayer | zed-client/src/zed/app.rs:364-382 | a known id has its position, direction (from the angle) and colour overwritten; the rest of its record (holster, id, textures, size, frame), the table and the other entities are unchanged |
| Client.OwnEchoIgnored | zed-client/src/zed/app.rs:300-340 | the status this client sends about itself is ignored when the server relays it back |
| Client.LastGreetingResponseWins | zed-client/src/zed/app.rs:329-332 | a GreetingResponse sets the id, overwriting any earlier one |
| Client.ToggleTwiceRestores | zed-client/src/zed/app.rs:421-425 | H flips the holster of exactly the local players, so two presses restore every holster |
| Client.FrameMatchesHolster | zed-client/src/zed/app.rs:238-240 | after the frame rule, `frame.0` is 1 iff the holster is set, and `frame.1` is untouched |
| Client.OnlyLocalEntity | zed-client/src/zed/app.rs:309 | the local-player query finds exactly one entity |
| Client.ConsistentAfterMap | zed-client/src/zed/app.rs:421-432 | per-entity updates that keep tags and ids keep the game consistent |
| Client.NonPacketsDispatchNothing | zed-client/src/zed/app.rs:139-148 | Connect, Timeout and other events dispatch nothing |
| Client.FramesDispatchInOrder | zed-client/src/zed/app.rs:137-150 | packets carrying the frames of values `ms` dispatch exactly `ms`, in arrival order, each tagged with its kind |
| Client.Net.constructor | zed-client/src/zed/app.rs:111-119 | the net keeps the given channels, address and protocol with nothing undelivered |
| Client.Net.Send | zed-client/src/zed/app.rs:133-135 | one frame with the kind's fixed discriminant to the server, or a panic with nothing sent |
| Client.Net.Drain | zed-client/src/zed/app.rs:138-150 | drain the event channel: every Packet payload goes to `receive` in order and the log grows by exactly what those packets dispatch; on the first bad frame, a panic |
| Client.Main.constructor | zed-client/src/zed/app.rs:161-195 | the state is the new game; the controller's buttons are released |
| Client.Main.Init | zed-client/src/zed/app.rs:388-404 | exactly one Greeting named "Marcin Szymczak" is sent with discriminant 0, or a panic |
| Client.Main.ReceiveGreetingResponse | zed-client/src/zed/app.rs:329-332 | the state becomes the id-assigned game |
| Client.Main.ReceivePlayerStatus | zed-client/src/zed/app.rs:334-384 | the state becomes what `OnPlayerStatus` specifies |
| Client.Main.DeliverPending | zed-client/src/zed/app.rs:153-156 | every undelivered value reaches its handler, oldest first, and the cursor reaches the log's end |
| Client.Main.Poll | zed-client/src/zed/app.rs:137-157 | drain, then deliver: the log grows by exactly the newly received values, every logged value is then delivered (nothing is left undelivered), and the state is the old one with all undelivered and newly received values applied in order; a bad frame panics |
| Client.Main.SendPlayerPos | zed-client/src/zed/app.rs:300-323 | nothing is sent before an id is assigned; afterwards exactly one status, carrying that id and the local player's position, heading, colour and holster |
| Client.Main.UpdateEach | zed-client/src/zed/app.rs:421-432 | a per-entity loop leaves every entity updated once and the other fields unchanged |
| Client.Main.KeyPressed | zed-client/src/zed/app.rs:414-435 | A, D, S, W press left, right, down, up; H toggles and C recolours the local players; other keys change nothing |
| Client.Main.KeyReleased | zed-client/src/zed/app.rs:437-445 | A, D, S, W release left, right, down, up; the other buttons keep their state |
| Client.Main.SyncHolsterFrames | zed-client/src/zed/app.rs:238-240 | every entity's frame column follows its holster |
| Client.Main.Update | zed-client/src/zed/app.rs:406-412 | frames, then this client's status, then the network; the state stays valid |

## Left out

- Sockets, threads, the signal handler, `AtomicBool`, sleeping, CLI arguments and every `println!`/`dbg!`: these are I/O and concurrency. The socket's queues are the `pending` and `sent` sequences of the channel classes.
- The server's blocking `recv` is modelled as taking the queued events; the loop ends when none is left. `recv` errors cannot happen while the socket thread holds its end.
- `usize` overflow: registering or connecting 2^64 - 1 times is excluded by a precondition rather than modelled as a capacity panic.
- Floating point: `f64` values are carried as opaque words. `Direction::angle`/`set_angle` use `atan2`, `cos` and `sin`, which are taken from the `FloatMath` parameter. `control_player`'s movement and mouse aiming, `draw_models` and `calculate_frame_from_angle` are float arithmetic and rendering, and are not modelled.
- `Transport.PacketSender.disconnected` is fixed for a run: the receiving end lives as long as the socket thread, which stops only at shutdown, so a loss of the channel mid-run is not modelled.
- Wire.StrRejectsShortBody: the panic cause is modelled as `UnexpectedEof` whatever the prefix's size; a reader that reserves the declared length first would instead fail on capacity overflow or allocation for a huge prefix, which the model does not distinguish (the receive panics either way).
- `Message.Kind` is a closed set of the three message records, so the generic `register::<T>` exists in the model only for those three; other payload types, such as the protocol test's `Msg { a: i32 }` (`zed-shared/src/protocol.rs:114-133`), cannot be expressed.
- `bottles::Dispatcher` and `Queue` are foreign. Dispatch is an append-only log. `Queue::poll` is assumed to deliver log entries in log order. The real `Queue` keeps values per message type, so across kinds its order can differ from `DeliverAll`'s single arrival order, and the order matters for a status followed by a `GreetingResponse` for the same id. One server run cannot put such a pair in a single poll, because the client sends statuses under its own id only after the response. `Net::register` and `Net::subscribe` only set up that foreign queue, so they have no counterpart.
- legion's ECS is a map from entity numbers to records. Query order is not modelled; the local-player query only ever finds one entity. The `others` mutex is left out because the client is single-threaded.
- `SocketAddr` is an opaque address (bytes and a port); only equality is used. laminar's reliable-unordered delivery guarantees belong to the transport and are not modelled.
- SDL colour has no alpha channel here. The C key draws one fresh colour per press, given as a parameter, where the source calls `random()` three times per local entity; with one local entity the two coincide.
- Client.Main.Update: states only that validity is kept. The effect of each of its three steps is stated by `SyncHolsterFrames`, `SendPlayerPos` and `Poll`.
- Protocol.SimpleProtocol.Receive: a decoder's `deserialize_from` may leave bytes after the value unread; the model likewise ignores trailing bytes and does not model the `Cursor` position.
