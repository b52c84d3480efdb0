/** The browser WebSocket as the dashboard uses it: each socket has the URL
    it was opened with and its readyState. Network behaviour is not
    modelled; the transport's events are left to the caller. */
module Transport {
  import opened Basics

  datatype ReadyState = Connecting | Open | Closing | Closed

  datatype Socket = Socket(url: string, state: ReadyState)

  /** A socket that is OPEN or CONNECTING. */
  predicate Live(s: Socket) { s.state == Connecting || s.state == Open }

  /** ws.close(): an OPEN or CONNECTING socket starts its closing handshake;
      on a CLOSING or CLOSED socket the call does nothing. */
  function CloseCalled(s: Socket): (r: Socket)
    ensures r.url == s.url && !Live(r)
    ensures Live(s) ==> r.state == Closing
    ensures !Live(s) ==> r == s
  {
    if Live(s) then s.(state := Closing) else s
  }

  /** At most one socket is live, and it is the one the variable ws holds. */
  predicate OnlyCurrentLive(sockets: seq<Socket>, ws: Option<nat>) {
    forall i :: 0 <= i < |sockets| && Live(sockets[i]) ==> ws == Some(i)
  }

}
