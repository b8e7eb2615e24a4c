/** The tagged wire messages exchanged with the relay server. Each enum is
    serialised as one JSON object whose "type" member names the variant and
    whose other members are the variant's fields. A JSON object is modelled as
    a map from member names to values; the JSON text itself is not. */
module Wire {
  import opened Wrappers

  type Nanos = n: nat | n < 1_000_000_000

  /** A UTC instant (chrono's `DateTime<Utc>`): whole seconds since the Unix
      epoch and the nanoseconds past that second. */
  datatype Instant = Instant(secs: int, nanos: Nanos)

  /** A member value: text, an instant (which chrono writes as RFC 3339
      text), or any other JSON value (a number, a boolean, null, an array or
      a nested object), whose content no message of this protocol reads. */
  datatype Value = Text(text: string) | Time(time: Instant) | Other

  type Object = map<string, Value>

  /** What one read of the socket hands to the JSON decoder: a JSON object,
      or anything else, which the model treats as undecodable: text that is
      not JSON (truncated, malformed, empty) or a JSON value other than an
      object. */
  datatype Payload = Json(members: Object) | Malformed

  /** Why a payload is not the message expected. */
  datatype DecodeError =
    | NotJson
    | MissingTag
    | UnknownTag(tag: string)
    | MissingField(name: string)
    | BadField(name: string)

  /** Requests from this client to the server. */
  datatype ClientRequest =
    | Create(id: string)
    | Connect(id: string, addr: string)
    | Disconnect(id: string)
    | Send(id: string, msg: string, date: Instant)
  {
    function Tag(): string {
      match this
      case Create(_) => "create"
      case Connect(_, _) => "connect"
      case Disconnect(_) => "disconnect"
      case Send(_, _, _) => "send"
    }
  }

  /** Replies from the server to a request. */
  datatype ServerResponse =
    | Ok
    | Error
    | Create(status: string, addr: string)
  {
    function Tag(): string {
      match this
      case Ok => "ok"
      case Error => "error"
      case Create(_, _) => "create"
    }
  }

  /** Messages the server pushes into a joined room. */
  datatype RoomRequest = Send(id: string, msg: string, addr: string, date: Instant)
  {
    function Tag(): string {
      "send"
    }
  }

  /** Acknowledgements the client writes back for a push. */
  datatype RoomResponse = Ok | Error
  {
    function Tag(): string {
      match this
      case Ok => "ok"
      case Error => "error"
    }
  }

  /** `o` holds every member of `part` with the same value (and maybe more). */
  ghost predicate Extends(o: Object, part: Object) {
    forall k :: k in part ==> k in o && o[k] == part[k]
  }

  // Reading members ---------------------------------------------------------

  function TagOf(o: Object): (r: Result<string, DecodeError>)
    ensures r.Success? <==> "type" in o && o["type"].Text?
    ensures r.Success? ==> o["type"] == Text(r.value)
  {
    if "type" !in o then Failure(MissingTag)
    else match o["type"]
      case Text(t) => Success(t)
      case _ => Failure(BadField("type"))
  }

  function TextField(o: Object, name: string): (r: Result<string, DecodeError>)
    ensures r.Success? <==> name in o && o[name].Text?
    ensures r.Success? ==> o[name] == Text(r.value)
  {
    if name !in o then Failure(MissingField(name))
    else match o[name]
      case Text(t) => Success(t)
      case _ => Failure(BadField(name))
  }

  function TimeField(o: Object, name: string): (r: Result<Instant, DecodeError>)
    ensures r.Success? <==> name in o && o[name].Time?
    ensures r.Success? ==> o[name] == Time(r.value)
  {
    if name !in o then Failure(MissingField(name))
    else match o[name]
      case Time(t) => Success(t)
      case _ => Failure(BadField(name))
  }

  // ClientRequest -----------------------------------------------------------

  function EncodeClientRequest(r: ClientRequest): (o: Object)
    ensures "type" in o && o["type"] == Text(r.Tag())
    ensures DecodeClientRequest(o) == Success(r)
  {
    match r
    case Create(id) => map["type" := Text(r.Tag()), "id" := Text(id)]
    case Connect(id, addr) => map["type" := Text(r.Tag()), "id" := Text(id), "addr" := Text(addr)]
    case Disconnect(id) => map["type" := Text(r.Tag()), "id" := Text(id)]
    case Send(id, msg, date) =>
      map["type" := Text(r.Tag()), "id" := Text(id), "msg" := Text(msg), "date" := Time(date)]
  }

  function DecodeClientRequest(o: Object): Result<ClientRequest, DecodeError>
  {
    var tag :- TagOf(o);
    if tag == "create" then
      var id :- TextField(o, "id");
      Success(ClientRequest.Create(id))
    else if tag == "connect" then
      var id :- TextField(o, "id");
      var addr :- TextField(o, "addr");
      Success(ClientRequest.Connect(id, addr))
    else if tag == "disconnect" then
      var id :- TextField(o, "id");
      Success(ClientRequest.Disconnect(id))
    else if tag == "send" then
      var id :- TextField(o, "id");
      var msg :- TextField(o, "msg");
      var date :- TimeField(o, "date");
      Success(ClientRequest.Send(id, msg, date))
    else
      Failure(UnknownTag(tag))
  }

  /** A JSON object decodes to `r` exactly when it carries every member of
      `r`'s encoding; members the variant does not name are ignored. */
  lemma DecodeClientRequestExactly(o: Object, r: ClientRequest)
    ensures DecodeClientRequest(o) == Success(r) <==> Extends(o, EncodeClientRequest(r))
  {
    var e := EncodeClientRequest(r);
    if Extends(o, e) {
      assert o["type"] == e["type"];
    }
  }

  // ServerResponse ----------------------------------------------------------

  function EncodeServerResponse(r: ServerResponse): (o: Object)
    ensures "type" in o && o["type"] == Text(r.Tag())
    ensures DecodeServerResponse(o) == Success(r)
  {
    match r
    case Ok => map["type" := Text(r.Tag())]
    case Error => map["type" := Text(r.Tag())]
    case Create(status, addr) =>
      map["type" := Text(r.Tag()), "status" := Text(status), "addr" := Text(addr)]
  }

  function DecodeServerResponse(o: Object): Result<ServerResponse, DecodeError>
  {
    var tag :- TagOf(o);
    if tag == "ok" then
      Success(ServerResponse.Ok)
    else if tag == "error" then
      Success(ServerResponse.Error)
    else if tag == "create" then
      var status :- TextField(o, "status");
      var addr :- TextField(o, "addr");
      Success(ServerResponse.Create(status, addr))
    else
      Failure(UnknownTag(tag))
  }

  lemma DecodeServerResponseExactly(o: Object, r: ServerResponse)
    ensures DecodeServerResponse(o) == Success(r) <==> Extends(o, EncodeServerResponse(r))
  {
    var e := EncodeServerResponse(r);
    if Extends(o, e) {
      assert o["type"] == e["type"];
    }
  }

  /** Decoding of a reply as the client reads it from the socket. */
  function ServerResponseOf(p: Payload): Result<ServerResponse, DecodeError>
  {
    match p
    case Malformed => Failure(NotJson)
    case Json(o) => DecodeServerResponse(o)
  }

  /** A chunk read from the socket decodes to the reply `r` exactly when it
      is a JSON object carrying every member of `r`'s encoding. */
  lemma ServerResponseOfExactly(p: Payload, r: ServerResponse)
    ensures ServerResponseOf(p) == Success(r) <==> p.Json? && Extends(p.members, EncodeServerResponse(r))
  {
    if p.Json? {
      DecodeServerResponseExactly(p.members, r);
    }
  }

  // RoomRequest -------------------------------------------------------------

  function EncodeRoomRequest(r: RoomRequest): (o: Object)
    ensures "type" in o && o["type"] == Text(r.Tag())
    ensures DecodeRoomRequest(o) == Success(r)
  {
    map["type" := Text(r.Tag()), "id" := Text(r.id), "msg" := Text(r.msg),
        "addr" := Text(r.addr), "date" := Time(r.date)]
  }

  function DecodeRoomRequest(o: Object): Result<RoomRequest, DecodeError>
  {
    var tag :- TagOf(o);
    if tag == "send" then
      var id :- TextField(o, "id");
      var msg :- TextField(o, "msg");
      var addr :- TextField(o, "addr");
      var date :- TimeField(o, "date");
      Success(RoomRequest.Send(id, msg, addr, date))
    else
      Failure(UnknownTag(tag))
  }

  lemma DecodeRoomRequestExactly(o: Object, r: RoomRequest)
    ensures DecodeRoomRequest(o) == Success(r) <==> Extends(o, EncodeRoomRequest(r))
  {
    var e := EncodeRoomRequest(r);
    if Extends(o, e) {
      assert o["type"] == e["type"];
    }
  }

  /** Decoding of a push as the listener reads it from the socket. */
  function RoomRequestOf(p: Payload): Result<RoomRequest, DecodeError>
  {
    match p
    case Malformed => Failure(NotJson)
    case Json(o) => DecodeRoomRequest(o)
  }

  /** A chunk read from the socket decodes to the push `r` exactly when it
      is a JSON object carrying every member of `r`'s encoding. */
  lemma RoomRequestOfExactly(p: Payload, r: RoomRequest)
    ensures RoomRequestOf(p) == Success(r) <==> p.Json? && Extends(p.members, EncodeRoomRequest(r))
  {
    if p.Json? {
      DecodeRoomRequestExactly(p.members, r);
    }
  }

  // RoomResponse ------------------------------------------------------------

  function EncodeRoomResponse(r: RoomResponse): (o: Object)
    ensures "type" in o && o["type"] == Text(r.Tag())
    ensures DecodeRoomResponse(o) == Success(r)
  {
    map["type" := Text(r.Tag())]
  }

  function DecodeRoomResponse(o: Object): Result<RoomResponse, DecodeError>
  {
    var tag :- TagOf(o);
    if tag == "ok" then Success(RoomResponse.Ok)
    else if tag == "error" then Success(RoomResponse.Error)
    else Failure(UnknownTag(tag))
  }

  lemma DecodeRoomResponseExactly(o: Object, r: RoomResponse)
    ensures DecodeRoomResponse(o) == Success(r) <==> Extends(o, EncodeRoomResponse(r))
  {
    var e := EncodeRoomResponse(r);
    if Extends(o, e) {
      assert o["type"] == e["type"];
    }
  }
}
