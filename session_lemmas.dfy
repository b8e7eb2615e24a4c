/** Properties of sequences of commands. */
module SessionLemmas {
  import opened Wrappers
  import opened Wire
  import opened Net
  import opened Session
  import Utf8

  /** Every request a command writes carries the client id the session holds
      when the command returns; only `create_room` changes that id, and it
      does so before it builds its request. */
  lemma RequestsCarryClientId(s: State, dial: Dial, uuid: string, addr: string, msg: string,
                              clone: Clone, now: Instant, write: Write, reply: Read)
    ensures var r := CreateRoom(s, dial, uuid, write, reply);
            r.request.Some? ==> r.request.value.id == r.after.clientId == uuid
    ensures var r := ConnectRoom(s, addr, write, reply, clone);
            r.request.Some? ==> r.request.value.id == r.after.clientId == s.clientId
    ensures var r := DisconnectRoom(s, write, reply);
            r.request.Some? ==> r.request.value.id == r.after.clientId == s.clientId
    ensures var r := SendMessage(s, msg, clone, now, write, reply);
            r.request.Some? ==> r.request.value.id == r.after.clientId == s.clientId
  {
  }

  /** A join that is not answered `ok` (or whose socket cannot be cloned)
      drops the connection: the next message finds no connection. */
  lemma FailedJoinDropsConnection(s: State, addr: string, write: Write, reply: Read, clone: Clone,
                                  msg: string, clone2: Clone, now: Instant, write2: Write, reply2: Read)
    requires s.stream.Some?
    requires !(write.Written? && Reply(reply) == Success(ServerResponse.Ok) && clone.Cloned?)
    requires Utf8.Length(msg) <= MaxMessageBytes
    ensures var joined := ConnectRoom(s, addr, write, reply, clone);
            SendMessage(joined.after, msg, clone2, now, write2, reply2).result == Failure(NoConnection)
  {
  }

  /** After `disconnect_room` on a live connection, whatever its outcome,
      every further command except `create_room` reports no connection. */
  lemma NothingAfterDisconnect(s: State, write: Write, reply: Read, addr: string, msg: string,
                               clone: Clone, now: Instant, write2: Write, reply2: Read)
    requires s.stream.Some?
    requires Utf8.Length(msg) <= MaxMessageBytes
    ensures var left := DisconnectRoom(s, write, reply).after;
            && ConnectRoom(left, addr, write2, reply2, clone).result == Failure(NoConnection)
            && DisconnectRoom(left, write2, reply2).result == Failure(NoConnection)
            && SendMessage(left, msg, clone, now, write2, reply2).result == Failure(NoConnection)
  {
  }

  /** Nothing stops a second join on a joined connection: two `ok` replies
      start two listeners reading the same connection. */
  lemma RejoinStartsSecondListener(s: State, addr: string, write: Write, reply: Read, clone: Clone)
    requires s.stream.Some? && write.Written? && Reply(reply) == Success(ServerResponse.Ok) && clone.Cloned?
    ensures var first := ConnectRoom(s, addr, write, reply, clone);
            var second := ConnectRoom(first.after, addr, write, reply, clone);
            first.listener == second.listener == s.stream && second.after == s
  {
  }

  /** `create_room` does not look at the current session: a confirmed
      creation replaces a live connection and its room. */
  lemma CreateReplacesSession(s: State, conn: ConnId, uuid: string, reply: Read, room: string)
    requires s.stream.Some?
    requires Reply(reply) == Success(ServerResponse.Create("ok", room))
    ensures CreateRoom(s, Connected(conn), uuid, Written, reply).after == State(Some(conn), Some(room), uuid)
  {
  }

  /** One command with the outcomes of its socket calls. */
  datatype Command =
    | CreateCmd(dial: Dial, uuid: string, write: Write, reply: Read)
    | ConnectCmd(addr: string, write: Write, reply: Read, clone: Clone)
    | DisconnectCmd(write: Write, reply: Read)
    | SendCmd(msg: string, clone: Clone, now: Instant, write: Write, reply: Read)

  function Apply(s: State, c: Command): Step
  {
    match c
    case CreateCmd(dial, uuid, write, reply) => CreateRoom(s, dial, uuid, write, reply)
    case ConnectCmd(addr, write, reply, clone) => ConnectRoom(s, addr, write, reply, clone)
    case DisconnectCmd(write, reply) => DisconnectRoom(s, write, reply)
    case SendCmd(msg, clone, now, write, reply) => SendMessage(s, msg, clone, now, write, reply)
  }

  /** The state after running `cmds` one after another from `s`. */
  function Run(s: State, cmds: seq<Command>): State
    decreases |cmds|
  {
    if cmds == [] then s else Run(Apply(s, cmds[0]).after, cmds[1..])
  }

  /** Whatever the commands and whatever the socket answers, a session that
      starts with a live connection only inside a room keeps that shape. */
  lemma {:induction false} RunKeepsInv(s: State, cmds: seq<Command>)
    requires Inv(s)
    ensures Inv(Run(s, cmds))
    decreases |cmds|
  {
    if cmds != [] {
      RunKeepsInv(Apply(s, cmds[0]).after, cmds[1..]);
    }
  }

  /** In every session reachable from start-up, a live connection belongs to
      a room, and a listener is only ever started for a session that has a
      room. */
  lemma ReachableSessionsHaveRoom(uuid: string, cmds: seq<Command>, next: Command)
    ensures Inv(Run(Init(uuid), cmds))
    ensures var r := Apply(Run(Init(uuid), cmds), next);
            r.listener.Some? ==> r.after.roomAddr.Some?
  {
    RunKeepsInv(Init(uuid), cmds);
  }
}
