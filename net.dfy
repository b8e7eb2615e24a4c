/** What the operating system answers to the socket calls the client makes.
    The session receives these outcomes as parameters instead of performing
    the calls. */
module Net {
  import opened Wire

  /** Identity of one TCP connection to the relay server. */
  type ConnId = nat

  /** `TcpStream::connect` to the relay. */
  datatype Dial = Connected(conn: ConnId) | DialFailed(detail: string)

  /** `write_all` of a request followed by `flush`. */
  datatype Write = Written | WriteFailed(detail: string)

  /** One `read` into the 1024-byte buffer: a non-empty chunk, a zero-length
      read (the peer closed the connection), or an I/O error. */
  datatype Read = Data(payload: Payload) | Eof | ReadFailed(detail: string)

  /** `TcpStream::try_clone`. */
  datatype Clone = Cloned | CloneFailed(detail: string)
}
