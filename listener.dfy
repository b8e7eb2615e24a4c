/** The background listener started after a successful join: it reads the
    cloned socket until the peer closes it or a read fails, turns every pushed
    `send` frame into a chat message for the UI and acknowledges it with
    `ok`. Frames that do not decode are skipped without an acknowledgement. */
module Listener {
  import opened Wrappers
  import opened Wire
  import opened Net
  import Decimal

  /** The chat message handed to the UI as a "new-message" event. */
  datatype Message = Message(id: string, content: string, sender: string, timestamp: Instant)

  /** What the listener does, in order: emit a message to the UI, or write a
      frame back on the socket. */
  datatype Event = Emitted(message: Message) | Acked(frame: Object)

  /** The acknowledgement written for every delivered push. */
  function OkAck(): (o: Object)
    ensures DecodeRoomResponse(o) == Success(RoomResponse.Ok)
  {
    EncodeRoomResponse(RoomResponse.Ok)
  }

  /** The message built from a push: its text, its sender, its time, and as
      id the decimal text of the time's whole seconds. */
  function ToMessage(push: RoomRequest): (m: Message)
    ensures m.content == push.msg && m.sender == push.id && m.timestamp == push.date
  {
    Message(Decimal.Show(push.date.secs), push.msg, push.id, push.date)
  }

  /** A message id reads back as the whole seconds of the push's time, so
      pushes from different seconds get different ids. */
  lemma MessageIdIsSeconds(push: RoomRequest, other: RoomRequest)
    ensures Decimal.Parse(ToMessage(push).id) == Some(push.date.secs)
    ensures ToMessage(push).id == ToMessage(other).id <==> push.date.secs == other.date.secs
  {
    Decimal.ParseShow(push.date.secs);
    Decimal.ShowInjective(push.date.secs, other.date.secs);
  }

  /** What the listener does with one non-empty read. */
  function Receive(p: Payload): seq<Event>
  {
    match RoomRequestOf(p)
    case Success(push) => [Emitted(ToMessage(push)), Acked(OkAck())]
    case Failure(_) => []
  }

  /** Number of reads the listener performs before the one that ends it (a
      zero-length read or an error): the position of that read, or the
      number of reads if none ends it. */
  function Stop(rs: seq<Read>): (k: nat)
    ensures k <= |rs|
    ensures forall i :: 0 <= i < k ==> rs[i].Data?
    ensures k < |rs| ==> !rs[k].Data?
  {
    if rs == [] || !rs[0].Data? then 0 else 1 + Stop(rs[1..])
  }

  /** Everything the listener does when its reads return `rs` in order. */
  function Trace(rs: seq<Read>): seq<Event>
  {
    if rs == [] then []
    else match rs[0]
      case Data(p) => Receive(p) + Trace(rs[1..])
      case Eof => []
      case ReadFailed(_) => []
  }

  /** The pushes among `frames` that decode, in order. */
  function Accepted(frames: seq<Read>): (pushes: seq<RoomRequest>)
    ensures |pushes| <= |frames|
  {
    if frames == [] then []
    else
      var last := frames[|frames| - 1];
      Accepted(frames[..|frames| - 1])
        + (if last.Data? && RoomRequestOf(last.payload).Success? then [RoomRequestOf(last.payload).value] else [])
  }

  /** The pushes the listener delivers: those that decode among the reads
      before the first zero-length read or error. */
  function Pushes(rs: seq<Read>): seq<RoomRequest>
  {
    Accepted(rs[..Stop(rs)])
  }

  /** The body of the loop for one non-empty read: decode it as a push and,
      if that succeeds, emit its message and then write the `ok`
      acknowledgement. */
  method Handle(p: Payload) returns (produced: seq<Event>)
    ensures produced == Delivery(Accepted([Data(p)]))
  {
    produced := [];
    var decoded := RoomRequestOf(p);
    if decoded.Success? {
      produced := produced + [Emitted(ToMessage(decoded.value))];
      produced := produced + [Acked(EncodeRoomResponse(RoomResponse.Ok))];
    }
  }

  /** The listener loop of `start_message_listener`, with the reads the
      socket answers given as a sequence. */
  method Listen(rs: seq<Read>) returns (events: seq<Event>, consumed: nat)
    ensures consumed == Stop(rs)
    ensures events == Trace(rs)
  {
    events := [];
    var i := 0;
    while i < |rs| && rs[i].Data?
      invariant 0 <= i <= |rs|
      invariant i <= Stop(rs)
      invariant events + Trace(rs[i..]) == Trace(rs)
      decreases |rs| - i
    {
      ghost var before := events;
      var produced := Handle(rs[i].payload);
      ReceiveOne(rs[i].payload);
      events := events + produced;
      TraceStep(rs, i, before, events);
      i := i + 1;
    }
    if i < |rs| {
      assert Trace(rs[i..]) == [];
    }
    consumed := i;
  }

  /** One more non-empty read handled: what the loop has done so far plus
      what the rest of the reads produce is still the whole trace. */
  lemma TraceStep(rs: seq<Read>, i: nat, before: seq<Event>, events: seq<Event>)
    requires i < |rs| && rs[i].Data?
    requires before + Trace(rs[i..]) == Trace(rs)
    requires events == before + Receive(rs[i].payload)
    ensures events + Trace(rs[i + 1..]) == Trace(rs)
  {
    assert rs[i..][1..] == rs[i + 1..];
    var rest := Trace(rs[i + 1..]);
    assert Trace(rs[i..]) == Receive(rs[i].payload) + rest;
    assert before + (Receive(rs[i].payload) + rest) == (before + Receive(rs[i].payload)) + rest;
  }

  lemma {:induction false} AcceptedAppend(a: seq<Read>, b: seq<Read>)
    ensures Accepted(a + b) == Accepted(a) + Accepted(b)
    decreases |b|
  {
    if b == [] {
      assert a + b == a;
    } else {
      var b' := b[..|b| - 1];
      assert (a + b)[..|a + b| - 1] == a + b';
      assert (a + b)[|a + b| - 1] == b[|b| - 1];
      AcceptedAppend(a, b');
    }
  }

  /** What the listener should do for `pushes`: for each in order, emit the
      message built from it and then write an `ok` acknowledgement. */
  function Delivery(pushes: seq<RoomRequest>): (events: seq<Event>)
    ensures |events| == 2 * |pushes|
  {
    if pushes == [] then []
    else [Emitted(ToMessage(pushes[0])), Acked(OkAck())] + Delivery(pushes[1..])
  }

  lemma {:induction false} DeliveryAppend(p1: seq<RoomRequest>, p2: seq<RoomRequest>)
    ensures Delivery(p1 + p2) == Delivery(p1) + Delivery(p2)
  {
    if p1 == [] {
      assert p1 + p2 == p2;
    } else {
      var head := [Emitted(ToMessage(p1[0])), Acked(OkAck())];
      assert (p1 + p2)[0] == p1[0];
      assert (p1 + p2)[1..] == p1[1..] + p2;
      DeliveryAppend(p1[1..], p2);
      calc {
        Delivery(p1 + p2);
        head + Delivery(p1[1..] + p2);
        head + (Delivery(p1[1..]) + Delivery(p2));
        (head + Delivery(p1[1..])) + Delivery(p2);
        Delivery(p1) + Delivery(p2);
      }
    }
  }

  lemma {:induction false} DeliveryAt(pushes: seq<RoomRequest>, k: nat)
    requires k < |pushes|
    ensures Delivery(pushes)[2 * k] == Emitted(ToMessage(pushes[k]))
    ensures Delivery(pushes)[2 * k + 1] == Acked(OkAck())
  {
    if k > 0 {
      DeliveryAt(pushes[1..], k - 1);
    }
  }

  /** One frame accounts for at most one delivered push, and for the message
      and acknowledgement the listener produces for it. */
  lemma ReceiveOne(p: Payload)
    ensures Receive(p) == Delivery(Accepted([Data(p)]))
  {
    assert [Data(p)][..0] == [];
  }

  /** A frame carrying every member of some push's encoding gets that push's
      message and an `ok` acknowledgement; a frame carrying no push's
      encoding gets nothing at all. */
  lemma ReceiveExactly(p: Payload, push: RoomRequest)
    ensures p.Json? && Extends(p.members, EncodeRoomRequest(push)) ==>
              Receive(p) == [Emitted(ToMessage(push)), Acked(OkAck())]
    ensures Receive(p) == [] <==>
              !exists x :: p.Json? && Extends(p.members, EncodeRoomRequest(x))
  {
    RoomRequestOfExactly(p, push);
    match RoomRequestOf(p)
    case Success(x) =>
      RoomRequestOfExactly(p, x);
    case Failure(_) =>
      forall x | p.Json? && Extends(p.members, EncodeRoomRequest(x))
        ensures false
      {
        RoomRequestOfExactly(p, x);
      }
  }

  lemma PushesCons(rs: seq<Read>)
    requires rs != [] && rs[0].Data?
    ensures Pushes(rs) == Accepted([rs[0]]) + Pushes(rs[1..])
  {
    var tail := rs[1..];
    assert rs[..Stop(rs)] == [rs[0]] + tail[..Stop(tail)];
    AcceptedAppend([rs[0]], tail[..Stop(tail)]);
  }

  /** The listener does exactly what Delivery prescribes for the pushes that
      decode before the first close or error. */
  lemma {:induction false} TraceIsDelivery(rs: seq<Read>)
    ensures Trace(rs) == Delivery(Pushes(rs))
  {
    if rs != [] && rs[0].Data? {
      TraceIsDelivery(rs[1..]);
      ReceiveOne(rs[0].payload);
      PushesCons(rs);
      DeliveryAppend(Accepted([rs[0]]), Pushes(rs[1..]));
    } else {
      assert rs[..Stop(rs)] == [];
    }
  }

  /** The listener's actions are, for each delivered push in order, one
      message carrying that push's text, sender and time followed by one
      `ok` acknowledgement; nothing else. */
  lemma TraceIsMessagesAndAcks(rs: seq<Read>)
    ensures |Trace(rs)| == 2 * |Pushes(rs)|
    ensures forall k :: 0 <= k < |Pushes(rs)| ==>
              Trace(rs)[2 * k] == Emitted(ToMessage(Pushes(rs)[k]))
              && Trace(rs)[2 * k + 1] == Acked(OkAck())
  {
    TraceIsDelivery(rs);
    forall k | 0 <= k < |Pushes(rs)|
      ensures Trace(rs)[2 * k] == Emitted(ToMessage(Pushes(rs)[k]))
      ensures Trace(rs)[2 * k + 1] == Acked(OkAck())
    {
      DeliveryAt(Pushes(rs), k);
    }
  }

  /** Once a read ends the listener, nothing the socket would deliver later
      is read, emitted or acknowledged. */
  lemma {:induction false} NothingAfterClose(rs: seq<Read>, later: seq<Read>)
    requires Stop(rs) < |rs|
    ensures Trace(rs + later) == Trace(rs)
    ensures Stop(rs + later) == Stop(rs)
    ensures Pushes(rs + later) == Pushes(rs)
  {
    assert (rs + later)[0] == rs[0];
    if rs[0].Data? {
      assert (rs + later)[1..] == rs[1..] + later;
      NothingAfterClose(rs[1..], later);
    }
    assert (rs + later)[..Stop(rs)] == rs[..Stop(rs)];
  }
}
