/** A complete session, end to end: create a room, join it, send a short and
    an over-long message, and receive one push. */
module Scenario {
  import opened Wrappers
  import opened Wire
  import opened Net
  import opened Session
  import Listener
  import Decimal
  import Utf8

  function Answer(r: ServerResponse): Read {
    Data(Json(EncodeServerResponse(r)))
  }

  lemma CreateJoinSend(firstId: string, uuid: string, conn: ConnId, now: Instant)
    ensures var created := CreateRoom(Init(firstId), Connected(conn), uuid, Written,
                                      Answer(ServerResponse.Create("ok", "R1")));
            && created.result == Success(ServerResponse.Create("ok", "R1"))
            && created.after == State(Some(conn), Some("R1"), uuid)
            && var joined := ConnectRoom(created.after, "R1", Written, Answer(ServerResponse.Ok), Cloned);
            && joined.result == Success(ServerResponse.Ok)
            && joined.listener == Some(conn)
            && joined.after == created.after
            && var sent := SendMessage(joined.after, "hello", Cloned, now, Written, Answer(ServerResponse.Ok));
            && sent.result == Success(ServerResponse.Ok)
            && sent.request == Some(ClientRequest.Send(uuid, "hello", now))
            && var tooLong := SendMessage(joined.after, seq(1025, _ => 'a'), Cloned, now, Written,
                                          Answer(ServerResponse.Ok));
            && tooLong.result == Failure(TooLong)
            && tooLong.request.None?
  {
    var big: string := seq(1025, _ => 'a');
    Utf8.AsciiLength("hello");
    Utf8.AsciiLength(big);
  }

  /** The instant 2024-01-01T00:00:00Z. */
  const NewYear2024 := Instant(1704067200, 0)

  /** A push carrying text "hi" produces one message with that text and one
      `ok` acknowledgement, and the listener stops when the peer closes. */
  lemma ReceiveOnePush(sender: string)
    ensures var push := map["type" := Text("send"), "id" := Text(sender), "msg" := Text("hi"),
                            "addr" := Text("R1"), "date" := Time(NewYear2024)];
            Listener.Trace([Data(Json(push)), Eof])
              == [Listener.Emitted(Listener.Message(Decimal.Show(1704067200), "hi", sender, NewYear2024)),
                  Listener.Acked(Listener.OkAck())]
  {
    var push := map["type" := Text("send"), "id" := Text(sender), "msg" := Text("hi"),
                    "addr" := Text("R1"), "date" := Time(NewYear2024)];
    var request := RoomRequest.Send(sender, "hi", "R1", NewYear2024);
    assert push == EncodeRoomRequest(request);
    var rs := [Data(Json(push)), Eof];
    assert rs[1..] == [Eof];
  }

  /** A `send` push with no `id` member: the client's decoder requires one,
      so such a push is dropped without a message or an acknowledgement. */
  lemma PushWithoutIdIsDropped()
    ensures var push := map["type" := Text("send"), "msg" := Text("hi"),
                            "addr" := Text("R1"), "date" := Time(NewYear2024)];
            Listener.Trace([Data(Json(push)), Eof]) == []
  {
  }
}
