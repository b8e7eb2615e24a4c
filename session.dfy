/** The session engine as a specification: each of the four commands is a
    function from the session state and the outcomes of its socket calls to
    the new state, the value the command returns, the request it writes and
    the listener it starts. The class AppState implements these commands by
    updating its fields in place. */
module Session {
  import opened Wrappers
  import opened Wire
  import opened Net
  import Utf8

  /** Longest message, in UTF-8 bytes, that `send_message` accepts. */
  const MaxMessageBytes := 1024

  /** Why a command fails. The command returns these as strings: TooLong is
      "Message too long", NoConnection is "No active connection", Transport
      carries the I/O error's text, Protocol stands for the JSON decoder's
      error text. */
  datatype CommandError =
    | TooLong
    | NoConnection
    | Transport(detail: string)
    | Protocol(cause: DecodeError)

  type Outcome = Result<ServerResponse, CommandError>

  /** The three slots of the shared session state. */
  datatype State = State(stream: Option<ConnId>, roomAddr: Option<string>, clientId: string)

  /** Everything one command does: the state it leaves, what it returns, the
      request it writes (if it gets that far) and the connection whose clone
      it hands to a new listener (if any). */
  datatype Step = Step(after: State, result: Outcome, request: Option<ClientRequest>, listener: Option<ConnId>)

  /** A live connection always belongs to a room. */
  predicate Inv(s: State) {
    s.stream.Some? ==> s.roomAddr.Some?
  }

  /** The state the application starts in: no socket, no room, a fresh id. */
  function Init(uuid: string): (s: State)
    ensures Inv(s)
    ensures s.stream.None? && s.roomAddr.None?
  {
    State(None, None, uuid)
  }

  /** The reply to a request: one read, decoded as a ServerResponse. A
      zero-length read gives the decoder no input, which it rejects. */
  function Reply(read: Read): (r: Outcome)
    ensures r.Success? ==>
              read.Data? && read.payload.Json? && Extends(read.payload.members, EncodeServerResponse(r.value))
    ensures read.Data? && r.Failure? ==> r.error.Protocol?
    ensures read.ReadFailed? ==> r == Failure(Transport(read.detail))
    ensures read.Eof? ==> r == Failure(Protocol(NotJson))
  {
    match read
    case ReadFailed(detail) => Failure(Transport(detail))
    case Eof => Failure(Protocol(NotJson))
    case Data(p) =>
      match ServerResponseOf(p)
      case Success(response) =>
        ServerResponseOfExactly(p, response);
        Success(response)
      case Failure(e) => Failure(Protocol(e))
  }

  /** A read yields the reply `x` exactly when it delivers a JSON object
      carrying every member of `x`'s encoding. */
  lemma ReplyExactly(read: Read, x: ServerResponse)
    ensures Reply(read) == Success(x) <==>
              read.Data? && read.payload.Json? && Extends(read.payload.members, EncodeServerResponse(x))
  {
    if read.Data? {
      ServerResponseOfExactly(read.payload, x);
    }
  }

  /** The server confirmed the creation of a room. */
  predicate RoomCreated(r: Outcome) {
    r.Success? && r.value.Create? && r.value.status == "ok"
  }

  /** `create_room`: dial the relay, take a fresh client id, send `create`
      and wait for one reply. */
  function CreateRoom(s: State, dial: Dial, uuid: string, write: Write, reply: Read): (r: Step)
    ensures dial.DialFailed? ==> r == Step(s, Failure(Transport(dial.detail)), None, None)
    ensures dial.Connected? ==> r.after.clientId == uuid && r.request == Some(ClientRequest.Create(uuid))
    ensures RoomCreated(r.result) ==>
              r.after.stream == Some(dial.conn) && r.after.roomAddr == Some(r.result.value.addr)
    ensures !RoomCreated(r.result) ==> r.after.stream == s.stream && r.after.roomAddr == s.roomAddr
    ensures r.result.Success? ==> dial.Connected? && write.Written? && r.result == Reply(reply)
    ensures dial.Connected? && write.WriteFailed? ==> r.result == Failure(Transport(write.detail))
    ensures dial.Connected? && write.Written? ==> r.result == Reply(reply)
    ensures r.result.Failure? ==> r.result.error.Transport? || r.result.error.Protocol?
    ensures dial.Connected? && write.Written? && RoomCreated(Reply(reply)) ==>
              r.after.stream == Some(dial.conn) && r.after.roomAddr == Some(Reply(reply).value.addr)
    ensures r.listener.None?
    ensures Inv(s) ==> Inv(r.after)
  {
    match dial
    case DialFailed(detail) => Step(s, Failure(Transport(detail)), None, None)
    case Connected(conn) =>
      var s1 := s.(clientId := uuid);
      var request := ClientRequest.Create(uuid);
      match write
      case WriteFailed(detail) => Step(s1, Failure(Transport(detail)), Some(request), None)
      case Written =>
        match Reply(reply)
        case Failure(e) => Step(s1, Failure(e), Some(request), None)
        case Success(response) =>
          var s2 :=
            if response.Create? && response.status == "ok"
            then s1.(stream := Some(conn), roomAddr := Some(response.addr))
            else s1;
          Step(s2, Success(response), Some(request), None)
  }

  /** `connect_room`: take the socket out of its slot, send `connect` and
      wait for one reply; on `ok`, clone the socket, put it back and start a
      listener on the clone. Every other outcome leaves the slot empty. */
  function ConnectRoom(s: State, addr: string, write: Write, reply: Read, clone: Clone): (r: Step)
    ensures s.stream.None? ==> r == Step(s, Failure(NoConnection), None, None)
    ensures s.stream.Some? ==>
              (r.after.stream.Some? <==> write.Written? && Reply(reply) == Success(ServerResponse.Ok) && clone.Cloned?)
    ensures r.after.stream.Some? ==> r.after.stream == s.stream
    ensures r.listener == (if s.stream.Some? then r.after.stream else None)
    ensures r.after.roomAddr == s.roomAddr && r.after.clientId == s.clientId
    ensures s.stream.Some? ==> r.request == Some(ClientRequest.Connect(s.clientId, addr))
    ensures r.result.Success? ==> s.stream.Some? && write.Written? && r.result == Reply(reply)
    ensures r.result == Failure(NoConnection) <==> s.stream.None?
    ensures s.stream.Some? && write.WriteFailed? ==> r.result == Failure(Transport(write.detail))
    ensures (s.stream.Some? && write.Written? && Reply(reply) == Success(ServerResponse.Ok)
             && clone.CloneFailed?) ==> r.result == Failure(Transport(clone.detail))
    ensures (s.stream.Some? && write.Written?
             && !(Reply(reply) == Success(ServerResponse.Ok) && clone.CloneFailed?)) ==> r.result == Reply(reply)
    ensures Inv(s) ==> Inv(r.after)
  {
    match s.stream
    case None => Step(s, Failure(NoConnection), None, None)
    case Some(conn) =>
      var s1 := s.(stream := None);
      var request := ClientRequest.Connect(s.clientId, addr);
      match write
      case WriteFailed(detail) => Step(s1, Failure(Transport(detail)), Some(request), None)
      case Written =>
        match Reply(reply)
        case Failure(e) => Step(s1, Failure(e), Some(request), None)
        case Success(response) =>
          if response.Ok? then
            match clone
            case CloneFailed(detail) => Step(s1, Failure(Transport(detail)), Some(request), None)
            case Cloned => Step(s, Success(response), Some(request), Some(conn))
          else
            Step(s1, Success(response), Some(request), None)
  }

  /** `disconnect_room`: take the socket out of its slot for good, send
      `disconnect`, wait for one reply and forget the room once a reply has
      been decoded. */
  function DisconnectRoom(s: State, write: Write, reply: Read): (r: Step)
    ensures s.stream.None? ==> r == Step(s, Failure(NoConnection), None, None)
    ensures r.after.stream.None?
    ensures s.stream.Some? ==> (r.result.Success? <==> write.Written? && Reply(reply).Success?)
    ensures r.result == Failure(NoConnection) <==> s.stream.None?
    ensures s.stream.Some? && write.WriteFailed? ==> r.result == Failure(Transport(write.detail))
    ensures s.stream.Some? && write.Written? ==> r.result == Reply(reply)
    ensures r.result.Success? ==> r.after.roomAddr.None? && r.result == Reply(reply)
    ensures r.result.Failure? ==> r.after.roomAddr == s.roomAddr
    ensures r.after.clientId == s.clientId
    ensures s.stream.Some? ==> r.request == Some(ClientRequest.Disconnect(s.clientId))
    ensures r.listener.None?
    ensures Inv(r.after)
  {
    match s.stream
    case None => Step(s, Failure(NoConnection), None, None)
    case Some(_) =>
      var s1 := s.(stream := None);
      var request := ClientRequest.Disconnect(s.clientId);
      match write
      case WriteFailed(detail) => Step(s1, Failure(Transport(detail)), Some(request), None)
      case Written =>
        match Reply(reply)
        case Failure(e) => Step(s1, Failure(e), Some(request), None)
        case Success(response) => Step(s1.(roomAddr := None), Success(response), Some(request), None)
  }

  /** `send_message`: reject text over the limit, clone the socket, send
      `send` stamped with the current time and return the decoded reply. */
  function SendMessage(s: State, msg: string, clone: Clone, now: Instant, write: Write, reply: Read): (r: Step)
    ensures r.after == s && r.listener.None?
    ensures r.result == Failure(TooLong) <==> Utf8.Length(msg) > MaxMessageBytes
    ensures Utf8.Length(msg) > MaxMessageBytes ==> r.request.None?
    ensures Utf8.Length(msg) <= MaxMessageBytes && s.stream.None? ==>
              r.result == Failure(NoConnection) && r.request.None?
    ensures r.result == Failure(NoConnection) <==> Utf8.Length(msg) <= MaxMessageBytes && s.stream.None?
    ensures Utf8.Length(msg) <= MaxMessageBytes && s.stream.Some? && clone.CloneFailed? ==>
              r.result == Failure(Transport(clone.detail)) && r.request.None?
    ensures Utf8.Length(msg) <= MaxMessageBytes && s.stream.Some? && clone.Cloned? && write.WriteFailed? ==>
              r.result == Failure(Transport(write.detail))
    ensures r.request.Some? ==> r.request == Some(ClientRequest.Send(s.clientId, msg, now))
    ensures Utf8.Length(msg) <= MaxMessageBytes && s.stream.Some? && clone.Cloned? ==>
              r.request == Some(ClientRequest.Send(s.clientId, msg, now))
    ensures Utf8.Length(msg) <= MaxMessageBytes && s.stream.Some? && clone.Cloned? && write.Written? ==>
              r.result == Reply(reply)
    ensures r.result.Success? ==>
              Utf8.Length(msg) <= MaxMessageBytes && s.stream.Some? && clone.Cloned? && write.Written?
              && r.result == Reply(reply)
  {
    if Utf8.Length(msg) > MaxMessageBytes then Step(s, Failure(TooLong), None, None)
    else if s.stream.None? then Step(s, Failure(NoConnection), None, None)
    else
      match clone
      case CloneFailed(detail) => Step(s, Failure(Transport(detail)), None, None)
      case Cloned =>
        var request := ClientRequest.Send(s.clientId, msg, now);
        match write
        case WriteFailed(detail) => Step(s, Failure(Transport(detail)), Some(request), None)
        case Written => Step(s, Reply(reply), Some(request), None)
  }
}

