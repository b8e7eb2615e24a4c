# tcp-messenger client session engine, in Dafny

This project models the networking core of the tcp-messenger desktop chat
client (`src-tauri/src/lib.rs`). The client dials a relay server, creates or
joins a room, sends chat messages and receives the messages the server pushes
into the room. The model covers:

- the four tagged wire enums (`ClientRequest`, `ServerResponse`,
  `RoomRequest`, `RoomResponse`). Each is a datatype with a `Tag` function,
  plus an encoder to a JSON object (`map<string, Value>`) and a decoder from
  one (module `Wire`, `wire.dfy`);
- the shared `AppState`: the optional socket, the optional room address and
  the client id. The four commands `create_room`, `connect_room`,
  `disconnect_room` and `send_message` are specified as functions of the
  state and of the outcomes of their socket calls (module `Session`,
  `session.dfy`). They are implemented as methods that update the fields of
  class `App.AppState` in place (`app_state.dfy`), and each method is proved
  to match its function;
- the background listener loop of `start_message_listener`, as the method
  `Listener.Listen` over a sequence of read outcomes (`listener.dfy`);
- the two library behaviours the commands depend on. `String::len` is the
  UTF-8 byte length (`utf8.dfy`). `i64::to_string` is the decimal text that
  becomes a message id (`decimal.dfy`).

Every socket call becomes an input, in module `Net`: the dial, the write and
flush, the read of one reply, and `try_clone`. So do the UUID the client
generates and the current time. A reply is one read, which gives one of:
- a chunk that holds a JSON object;
- any other chunk (text that is not JSON, or a JSON value other than an object), which the model treats as undecodable;
- a zero-length read;
- an I/O error.

The session invariant `Session.Inv` says that a live connection belongs to a
room. The class states it on its fields as `AppState.Valid`, and every
command keeps it. `SessionLemmas.RunKeepsInv` shows that any sequence of
commands keeps it, whatever the socket answers. Hence every state reachable
from start-up satisfies it, and a listener is only ever started in a session
that has a room (`SessionLemmas.ReachableSessionsHaveRoom`).

Command errors are the datatype `Session.CommandError`:
- `TooLong` is the string "Message too long";
- `NoConnection` is "No active connection";
- `Transport` carries the text of an I/O error;
- `Protocol` stands for the JSON decoder's error.

## Behaviour of the code worth noting

The model follows the code in each of these points:

- `create_room` does not check whether a session already exists. A confirmed
  creation replaces a live connection and its room (`CreateReplacesSession`).
  The new client id is stored as soon as the dial succeeds, even if the
  exchange then fails.
- `connect_room` takes the socket out of its slot. It puts the socket back
  only when the reply is `ok` and the clone succeeds. Any other outcome drops
  the connection, so the caller cannot retry the join
  (`FailedJoinDropsConnection`). Its `addr` argument is sent to the server
  but not stored: `room_addr` keeps the address from `create_room`.
- `disconnect_room` clears the room address only when a reply was read and
  decoded, whatever that reply says. The socket slot is emptied in every
  case.
- Nothing prevents a second join on a joined connection. Two `ok` replies
  start two listeners on the same connection (`RejoinStartsSecondListener`).
- A pushed `send` frame must carry an `id` member; a push without one is
  dropped with neither a message nor an acknowledgement
  (`PushWithoutIdIsDropped`).
- The message limit counts UTF-8 bytes, not characters. A message of exactly
  1024 bytes is accepted.

## Model

| member | source | states |
|---|---|---|
| Utf8.Length | src-tauri/src/lib.rs:155 | the byte length of a message is between its character count and four times it, and is zero only for the empty message |
| Utf8.LengthAppend | src-tauri/src/lib.rs:155 | the byte length of a concatenation is the sum of the byte lengths |
| Utf8.AsciiLength | src-tauri/src/lib.rs:155 | byte length equals character count exactly when the text is ASCII |
| Decimal.NatString | src-tauri/src/lib.rs:198 | the digits of a number: non-empty, decimal digits only, a leading zero only for 0, one digit exactly below 10 |
| Decimal.Show | src-tauri/src/lib.rs:198 | the decimal text of an integer starts with '-' exactly when it is negative |
| Decimal.ParseShow | src-tauri/src/lib.rs:198 | the decimal text of an integer parses back to that integer |
| Decimal.ShowInjective | src-tauri/src/lib.rs:198 | two integers have the same decimal text only if they are equal |
| Wire.EncodeClientRequest | src-tauri/src/lib.rs:9-20 | a request is written with its variant's "type" tag and decodes back to the same request |
| Wire.DecodeClientRequestExactly | src-tauri/src/lib.rs:9-20 | an object decodes to a request exactly when it contains every member of that request's encoding; extra members are ignored |
| Wire.EncodeServerResponse | src-tauri/src/lib.rs:22-31 | a response is written with its "type" tag and decodes back to the same response |
| Wire.DecodeServerResponseExactly | src-tauri/src/lib.rs:22-31 | an object decodes to a response exactly when it contains that response's encoding |
| Wire.ServerResponseOfExactly | src-tauri/src/lib.rs:73-74 | a chunk decodes to a given response exactly when it parses as a JSON object containing every member of that response's encoding |
| Wire.EncodeRoomRequest | src-tauri/src/lib.rs:33-38 | a push is written with tag "send" and all four fields, and decodes back to the same push |
| Wire.DecodeRoomRequestExactly | src-tauri/src/lib.rs:33-38 | an object decodes to a push exactly when it contains that push's encoding |
| Wire.RoomRequestOfExactly | src-tauri/src/lib.rs:195 | a chunk decodes to a given push exactly when it parses as a JSON object containing every member of that push's encoding |
| Wire.EncodeRoomResponse | src-tauri/src/lib.rs:40-47 | an acknowledgement is written with its "type" tag and decodes back to itself |
| Wire.DecodeRoomResponseExactly | src-tauri/src/lib.rs:40-47 | an object decodes to an acknowledgement exactly when it contains that acknowledgement's encoding |
| Session.Init | src-tauri/src/lib.rs:229-233 | the initial state has no socket and no room, and satisfies the session invariant |
| Session.Reply | src-tauri/src/lib.rs:108-111 | a read error is a transport error carrying its text; a zero-length read is a decode error; a chunk that is read never gives a transport error; a response returned is one whose encoding the chunk contains |
| Session.ReplyExactly | src-tauri/src/lib.rs:108-111 | a read yields a given response exactly when it delivers a JSON object containing every member of that response's encoding |
| Session.CreateRoom | src-tauri/src/lib.rs:56-84 | a failed dial returns its I/O error and changes nothing; after a successful dial the client id is the new UUID and `create` is sent with it; a failed write returns its I/O error; after a successful write the result is exactly the reply's outcome (the decoded response, the read error, or the decode error); it never fails for any other reason; socket and room are set to the new connection and the returned address exactly when the reply is `create` with status "ok", and are otherwise untouched; the invariant is kept |
| Session.ConnectRoom | src-tauri/src/lib.rs:87-120 | it fails with NoConnection exactly when there is no socket, and then changes nothing; otherwise a failed write returns its I/O error, an `ok` reply with a failed clone returns the clone's I/O error, and in every other case after the write the result is exactly the reply's outcome; the socket is back in its slot exactly when the write succeeded, the reply decoded as `ok` and the clone succeeded, and is empty in every other case; a listener starts on that connection exactly when the socket is back; room and client id never change; `connect` carries the current id and the given address |
| Session.DisconnectRoom | src-tauri/src/lib.rs:123-148 | it fails with NoConnection exactly when there is no socket, and then changes nothing; otherwise the socket slot is always left empty; a failed write returns its I/O error, and after a successful write the result is exactly the reply's outcome; on success the room is cleared, on failure it is untouched; `disconnect` carries the current id |
| Session.SendMessage | src-tauri/src/lib.rs:151-187 | the state never changes; the result is TooLong exactly when the message is over 1024 UTF-8 bytes, and nothing is sent then; NoConnection exactly when within the limit there is no socket; a failed clone returns its I/O error with nothing sent; after a successful clone `send` is sent with the current id, the message and the given time; a failed write returns its I/O error, a successful one the reply's outcome |
| SessionLemmas.RequestsCarryClientId | src-tauri/src/lib.rs:99-101 | every request any command writes carries the client id the session holds after the command (the new UUID for `create`, the unchanged id for the others) |
| SessionLemmas.FailedJoinDropsConnection | src-tauri/src/lib.rs:92-117 | after a join that is not answered `ok` or whose clone fails, the next message within the limit fails with NoConnection |
| SessionLemmas.NothingAfterDisconnect | src-tauri/src/lib.rs:124-129 | after a disconnect on a live connection, whatever its outcome, connect, disconnect and send all fail with NoConnection |
| SessionLemmas.RejoinStartsSecondListener | src-tauri/src/lib.rs:113-117 | two successful joins in a row each start a listener on the same connection and leave the state as it was |
| SessionLemmas.RunKeepsInv | src-tauri/src/lib.rs:56-187 | any sequence of commands, with any socket outcomes, keeps a live connection inside a room |
| SessionLemmas.ReachableSessionsHaveRoom | src-tauri/src/lib.rs:76-81 | every state reachable from start-up has a room whenever it has a connection, and a listener is only started in a session that has a room |
| SessionLemmas.CreateReplacesSession | src-tauri/src/lib.rs:76-81 | a confirmed creation replaces a live connection, its room and the client id |
| App.AppState.constructor | src-tauri/src/lib.rs:229-233 | the state starts as Session.Init with the given UUID, no requests written and no listener started |
| App.AppState.CreateRoom | src-tauri/src/lib.rs:56-84 | updating the fields in place gives the state, result and request of Session.CreateRoom and keeps the invariant |
| App.AppState.ConnectRoom | src-tauri/src/lib.rs:87-120 | taking the socket out and putting it back in place gives the state, result, request and started listener of Session.ConnectRoom |
| App.AppState.DisconnectRoom | src-tauri/src/lib.rs:123-148 | taking the socket out in place gives the state, result and request of Session.DisconnectRoom |
| App.AppState.SendMessage | src-tauri/src/lib.rs:151-187 | gives the result and request of Session.SendMessage and leaves the fields unchanged |
| Listener.OkAck | src-tauri/src/lib.rs:206-209 | the acknowledgement frame decodes as RoomResponse `ok` |
| Listener.ToMessage | src-tauri/src/lib.rs:196-202 | the message carries the push's text as content, its `id` member as sender and its date as timestamp |
| Listener.MessageIdIsSeconds | src-tauri/src/lib.rs:198 | a message id parses back to the whole seconds of the push's date, and two messages share an id exactly when their pushes fall in the same second |
| Listener.ReceiveOne | src-tauri/src/lib.rs:194-210 | what the listener does with one chunk is what Delivery prescribes for the pushes that chunk alone accounts for |
| Listener.ReceiveExactly | src-tauri/src/lib.rs:194-210 | a chunk containing a push's encoding produces that push's message followed by one `ok` acknowledgement; a chunk containing no push's encoding produces nothing, and conversely |
| Listener.Handle | src-tauri/src/lib.rs:195-210 | handling one non-empty chunk (decode, emit, then acknowledge) produces what Delivery prescribes for the at most one push the chunk carries |
| Listener.Stop | src-tauri/src/lib.rs:192-214 | the listener reads chunks until the first zero-length read or read error |
| Listener.Listen | src-tauri/src/lib.rs:189-217 | the loop stops at the first zero-length read or read error, and its emitted messages and written acknowledgements are Trace of the reads |
| Listener.Delivery | src-tauri/src/lib.rs:197-209 | the events prescribed for a list of pushes are two per push |
| Listener.TraceIsDelivery | src-tauri/src/lib.rs:192-215 | what the listener does equals Delivery of the pushes that decode before the first close or error: one message and one `ok` for each, in order |
| Listener.TraceIsMessagesAndAcks | src-tauri/src/lib.rs:192-215 | for each push that decodes before the first close or error, in order, the listener emits exactly one message built from it and then writes exactly one `ok`; nothing else |
| Listener.NothingAfterClose | src-tauri/src/lib.rs:212-213 | once a zero-length read or an error ends the loop, later data on the socket is never read, emitted or acknowledged |
| Scenario.CreateJoinSend | src-tauri/src/lib.rs:56-187 | from the initial state: create answered `create ok R1`, then join answered `ok` with one listener, then "hello" answered `ok`, then a 1025-byte message rejected as too long with nothing sent |
| Scenario.ReceiveOnePush | src-tauri/src/lib.rs:189-217 | a push of "hi" followed by a close yields one message with content "hi" and one `ok` acknowledgement |
| Scenario.PushWithoutIdIsDropped | src-tauri/src/lib.rs:33-38 | a `send` push without an `id` member yields no message and no acknowledgement |

## Left out

- TCP I/O: connect, read, write_all, flush and try_clone are inputs to each command, not calls. The 1024-byte read buffer and the lack of framing appear only as the chunk a read delivers: a reply split across reads, or longer than the buffer, is a chunk that does not decode.
- Threads and the `Mutex` locks: the commands run one at a time on one object. The listener runs as a separate method over its own sequence of reads, and its interleaving with the commands is not modelled. After a join, the listener reads a clone of the very socket from which `send_message`, `disconnect_room` and a second `connect_room` read their replies (`src-tauri/src/lib.rs:159-166`, `:182`, `:141` and `:109` against `:193`). Whichever thread reads first gets the chunk: the listener can swallow a command's reply, and the command can then read a push it cannot decode as a response. The model does not pick the winner. It allows both outcomes because each command's reply and each listener read is an arbitrary input. `AppState.Listeners` records only which connection each listener was started on.
- Socket lifetime: the model does not record which connections are closed. A socket dropped by a failed create, a failed join or a disconnect is closed; a listener's clone keeps its connection open.
- JSON text: an object is a map from member names to values. A value is a string, a date, or `Other` for a number, boolean, null, array or nested object, which the decoders accept as an ignored extra member and reject where a field is expected. The array form of a tagged enum that the JSON decoder also accepts (for example `["ok"]` as the `ok` response) is not modelled: such a chunk counts as one that does not parse. The RFC 3339 text of a date is not modelled: a date is a `Value.Time` holding whole seconds and nanoseconds. Serialising a request cannot fail for these types, so that error path is absent.
- The JSON decoder's error text: `CommandError.Protocol` keeps a `DecodeError` reason instead. The model checks the fields in declaration order and names the first one that is missing or has the wrong type. The real decoder reports a member of the wrong type as soon as it meets it in the text, and it reports missing fields only after the whole object, in declaration order. So when a field is missing and another has the wrong type, the two name different members. For example, a `send` push without `id` and with a number as `msg` is reported as missing `id` by the model and as an invalid `msg` by the real decoder. Two members of the wrong type are named in text order by the real decoder and in declaration order by the model.
- UUID generation and `Utc::now` are inputs.
- The Tauri host: `emit` of the "new-message" event, `AppHandle` and command registration are left out. The `expect`/`unwrap` panics in the listener, which end the listener thread when an emit or an acknowledgement write fails, are also left out: the model assumes both succeed.
- Timestamps are unbounded integers, not `i64`; every real date fits in `i64`.
- The React UI (`src/pages/Chat.tsx`, `src/components/main-form.tsx`, `src/components/chat-message.tsx`, `src/App.tsx`) and the TypeScript declarations in `src/types/types.ts` are not part of this model.
