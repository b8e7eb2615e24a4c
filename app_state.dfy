/** The shared session state of the chat client and its four commands, with
    the socket slot, the room address and the client id as fields updated in
    place. Each command is proved to do what the matching function of module
    Session specifies. */
module App {
  import opened Wrappers
  import opened Wire
  import opened Net
  import Session
  import Utf8

  /** Present the optional request or listener of a step as a sequence. */
  function Log<T>(o: Option<T>): (xs: seq<T>)
    ensures o.None? ==> xs == []
    ensures o.Some? ==> xs == [o.value]
  {
    match o
    case None => []
    case Some(x) => [x]
  }

  class AppState {
    var stream: Option<ConnId>
    var roomAddr: Option<string>
    var clientId: string
    /** Connections on whose clone a listener was started, in order. */
    ghost var Listeners: seq<ConnId>
    /** Requests the commands tried to write to the socket, in order,
        including those whose write failed. */
    ghost var Requests: seq<ClientRequest>

    function View(): Session.State
      reads this
    {
      Session.State(stream, roomAddr, clientId)
    }

    ghost predicate Valid()
      reads this
    {
      Session.Inv(View())
    }

    /** The state `run` installs: no socket, no room, a fresh UUID. */
    constructor (uuid: string)
      ensures Valid()
      ensures View() == Session.Init(uuid)
      ensures Listeners == [] && Requests == []
    {
      stream := None;
      roomAddr := None;
      clientId := uuid;
      Listeners := [];
      Requests := [];
    }

    method CreateRoom(dial: Dial, uuid: string, write: Write, reply: Read) returns (result: Session.Outcome)
      requires Valid()
      modifies this
      ensures Valid()
      ensures var step := Session.CreateRoom(old(View()), dial, uuid, write, reply);
              && View() == step.after
              && result == step.result
              && Requests == old(Requests) + Log(step.request)
              && Listeners == old(Listeners)
    {
      if dial.DialFailed? {
        return Failure(Session.Transport(dial.detail));
      }
      clientId := uuid;
      var request := ClientRequest.Create(clientId);
      Requests := Requests + [request];
      if write.WriteFailed? {
        return Failure(Session.Transport(write.detail));
      }
      result := Session.Reply(reply);
      if result.Success? {
        var response := result.value;
        if response.Create? && response.status == "ok" {
          roomAddr := Some(response.addr);
          stream := Some(dial.conn);
        }
      }
    }

    method ConnectRoom(addr: string, write: Write, reply: Read, clone: Clone) returns (result: Session.Outcome)
      requires Valid()
      modifies this
      ensures Valid()
      ensures var step := Session.ConnectRoom(old(View()), addr, write, reply, clone);
              && View() == step.after
              && result == step.result
              && Requests == old(Requests) + Log(step.request)
              && Listeners == old(Listeners) + Log(step.listener)
    {
      var taken := stream;
      stream := None;
      if taken.None? {
        return Failure(Session.NoConnection);
      }
      var conn := taken.value;
      var request := ClientRequest.Connect(clientId, addr);
      Requests := Requests + [request];
      if write.WriteFailed? {
        return Failure(Session.Transport(write.detail));
      }
      result := Session.Reply(reply);
      if result.Success? && result.value.Ok? {
        if clone.CloneFailed? {
          return Failure(Session.Transport(clone.detail));
        }
        stream := Some(conn);
        Listeners := Listeners + [conn];
      }
    }

    method DisconnectRoom(write: Write, reply: Read) returns (result: Session.Outcome)
      requires Valid()
      modifies this
      ensures Valid()
      ensures var step := Session.DisconnectRoom(old(View()), write, reply);
              && View() == step.after
              && result == step.result
              && Requests == old(Requests) + Log(step.request)
              && Listeners == old(Listeners)
    {
      var taken := stream;
      stream := None;
      if taken.None? {
        return Failure(Session.NoConnection);
      }
      var request := ClientRequest.Disconnect(clientId);
      Requests := Requests + [request];
      if write.WriteFailed? {
        return Failure(Session.Transport(write.detail));
      }
      result := Session.Reply(reply);
      if result.Success? {
        roomAddr := None;
      }
    }

    method SendMessage(msg: string, clone: Clone, now: Instant, write: Write, reply: Read)
      returns (result: Session.Outcome)
      requires Valid()
      modifies this
      ensures Valid()
      ensures var step := Session.SendMessage(old(View()), msg, clone, now, write, reply);
              && View() == step.after
              && result == step.result
              && Requests == old(Requests) + Log(step.request)
              && Listeners == old(Listeners)
    {
      if Utf8.Length(msg) > Session.MaxMessageBytes {
        return Failure(Session.TooLong);
      }
      if stream.None? {
        return Failure(Session.NoConnection);
      }
      if clone.CloneFailed? {
        return Failure(Session.Transport(clone.detail));
      }
      var request := ClientRequest.Send(clientId, msg, now);
      Requests := Requests + [request];
      if write.WriteFailed? {
        return Failure(Session.Transport(write.detail));
      }
      result := Session.Reply(reply);
    }
  }
}
