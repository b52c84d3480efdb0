/** The connection manager of JS/websocket.js: one module-level socket
    variable ws, the reconnect interval, the manual-disconnect flag, the
    last URL and the registered callbacks. Every socket ever created is
    kept in `sockets`, because the handlers a socket was given keep firing
    for that socket after ws has moved on to another one. The transport's
    events and the firing of the interval are methods the environment
    calls; the callbacks the manager invokes are recorded in `calls`. */
module WebSocketClient {
  import opened Basics
  import opened JsonValue
  import opened Transport
  import WsUrl

  /** Identity of a callback function; 0 stands for the initial () => {}. */
  type HandlerId = nat

  datatype Callbacks = Callbacks(onOpen: HandlerId, onMessage: HandlerId, onClose: HandlerId, onError: HandlerId)

  /** The argument of configure: which callbacks it names. */
  datatype CallbackOptions = CallbackOptions(
    onOpen: Option<HandlerId>, onMessage: Option<HandlerId>,
    onClose: Option<HandlerId>, onError: Option<HandlerId>)

  /** Object.assign(callbacks, options) on the four callback slots. */
  function Assign(cb: Callbacks, opts: CallbackOptions): (r: Callbacks)
  {
    Callbacks(
      if opts.onOpen.Some? then opts.onOpen.value else cb.onOpen,
      if opts.onMessage.Some? then opts.onMessage.value else cb.onMessage,
      if opts.onClose.Some? then opts.onClose.value else cb.onClose,
      if opts.onError.Some? then opts.onError.value else cb.onError)
  }

  /** Options naming nothing change nothing. */
  lemma AssignNothing(cb: Callbacks)
    ensures Assign(cb, CallbackOptions(None, None, None, None)) == cb
  {
  }

  /** Two configure calls amount to one whose options let the later call
      win on every slot both name. */
  lemma AssignTwice(cb: Callbacks, a: CallbackOptions, b: CallbackOptions)
    ensures Assign(Assign(cb, a), b) == Assign(cb, CallbackOptions(
      if b.onOpen.Some? then b.onOpen else a.onOpen,
      if b.onMessage.Some? then b.onMessage else a.onMessage,
      if b.onClose.Some? then b.onClose else a.onClose,
      if b.onError.Some? then b.onError else a.onError))
  {
  }

  /** What a callback was invoked with. */
  datatype Event = Opened | Message(data: Json) | CloseEvent(code: int) | ErrorText(message: string)

  datatype Call = Call(handler: HandlerId, event: Event)

  const SocketErrorText: string := "Ocorreu um erro na conexão WebSocket."

  function ParseErrorText(raw: string): string { "Erro ao parsear mensagem: " + raw }

  /** getConnectionState() for the socket variable ws. An absent socket
      reads as closed; otherwise the socket's readyState is reported. */
  function ConnectionState(sockets: seq<Socket>, ws: Option<nat>): (r: ReadyState)
    requires ws.Some? ==> ws.value < |sockets|
    ensures ws.None? ==> r == Closed
    ensures ws.Some? ==> r == sockets[ws.value].state
  {
    if ws.None? then Closed else sockets[ws.value].state
  }

  /** When only the socket in ws may be live, the reported state is open
      or connecting exactly when some socket is live. */
  lemma StateReflectsTransport(sockets: seq<Socket>, ws: Option<nat>)
    requires ws.Some? ==> ws.value < |sockets|
    requires OnlyCurrentLive(sockets, ws)
    ensures ConnectionState(sockets, ws) in {Open, Connecting}
        <==> exists i :: 0 <= i < |sockets| && Live(sockets[i])
  {
    if ws.Some? && Live(sockets[ws.value]) {
      assert Live(sockets[ws.value]);
    }
  }

  class Manager {
    var sockets: seq<Socket>
    var ws: Option<nat>
    var reconnectInterval: Option<nat>
    var isManuallyDisconnected: bool
    var currentUrl: string
    var callbacks: Callbacks
    /** The handle the next setInterval returns. */
    var nextHandle: nat
    /** Interval handles that were set and not yet cleared. */
    ghost var armed: set<nat>
    /** Callback invocations, oldest first. */
    ghost var calls: seq<Call>

    ghost predicate Valid()
      reads this
    {
      && (ws.Some? ==> ws.value < |sockets|)
      // at most one retry is pending, and it is the one reconnectInterval holds
      && armed == (if reconnectInterval.Some? then {reconnectInterval.value} else {})
      && (reconnectInterval.Some? ==> reconnectInterval.value < nextHandle)
      // after a manual disconnect nothing is pending
      && (isManuallyDisconnected ==> reconnectInterval.None?)
    }

    /** ws is OPEN or CONNECTING: connect returns at once. */
    predicate Busy()
      reads this
      requires ws.Some? ==> ws.value < |sockets|
    {
      ws.Some? && Live(sockets[ws.value])
    }

    /** The module's initial state. */
    constructor ()
      ensures Valid()
      ensures sockets == [] && ws == None && reconnectInterval == None
      ensures !isManuallyDisconnected && currentUrl == ""
      ensures callbacks == Callbacks(0, 0, 0, 0) && armed == {} && calls == []
    {
      sockets := [];
      ws := None;
      reconnectInterval := None;
      isManuallyDisconnected := false;
      currentUrl := "";
      callbacks := Callbacks(0, 0, 0, 0);
      nextHandle := 0;
      armed := {};
      calls := [];
    }

    function GetConnectionState(): (r: ReadyState)
      reads this
      requires Valid()
    {
      ConnectionState(sockets, ws)
    }

    /** configure(options). */
    method Configure(opts: CallbackOptions)
      requires Valid()
      modifies this
      ensures Valid()
      ensures callbacks == Assign(old(callbacks), opts)
      ensures sockets == old(sockets) && ws == old(ws) && reconnectInterval == old(reconnectInterval)
      ensures isManuallyDisconnected == old(isManuallyDisconnected) && currentUrl == old(currentUrl)
      ensures nextHandle == old(nextHandle) && armed == old(armed) && calls == old(calls)
    {
      callbacks := Assign(callbacks, opts);
    }

    /** Cancels the pending retry timer, if any, and forgets it. */
    method ClearReconnect()
      modifies this
      requires armed == (if reconnectInterval.Some? then {reconnectInterval.value} else {})
      ensures reconnectInterval == None && armed == {}
      ensures sockets == old(sockets) && ws == old(ws) && callbacks == old(callbacks)
      ensures isManuallyDisconnected == old(isManuallyDisconnected) && currentUrl == old(currentUrl)
      ensures nextHandle == old(nextHandle) && calls == old(calls)
    {
      if reconnectInterval.Some? {
        armed := armed - {reconnectInterval.value};
      }
      reconnectInterval := None;
    }

    /** The state connect(url) leaves when ws was not live: the URL, the
        flag and the interval are reset, and the WebSocket constructor
        either makes a connecting socket that ws then holds or, rejected,
        throws (as for a port above 65535) and leaves ws as it was. */
    twostate predicate ConnectStarted(url: string, rejected: bool)
      reads this
    {
      && currentUrl == url && !isManuallyDisconnected
      && reconnectInterval == None && armed == {}
      && sockets == old(sockets) + (if rejected then [] else [Socket(url, Connecting)])
      && ws == (if rejected then old(ws) else Some(|old(sockets)|))
      && callbacks == old(callbacks) && nextHandle == old(nextHandle) && calls == old(calls)
    }

    /** The state disconnect() leaves when ws held a socket: the flag is
        set, the interval cleared and close() called on that socket. */
    twostate predicate Disconnected()
      reads this
    {
      && old(ws).Some? && old(ws).value < |old(sockets)|
      && isManuallyDisconnected && reconnectInterval == None && armed == {}
      && sockets == old(sockets)[old(ws).value := CloseCalled(old(sockets)[old(ws).value])]
      && ws == old(ws)
      && currentUrl == old(currentUrl) && callbacks == old(callbacks)
      && nextHandle == old(nextHandle) && calls == old(calls)
    }

    /** connect(url). rejected says whether the browser's WebSocket
        constructor throws for url; the exception leaves connect after
        the URL, the flag and the interval have been reset. */
    method Connect(url: string, rejected: bool)
      requires Valid()
      modifies this
      ensures Valid()
      ensures old(Busy()) ==> unchanged(this)
      ensures !old(Busy()) ==> ConnectStarted(url, rejected)
      ensures old(OnlyCurrentLive(sockets, ws)) ==> OnlyCurrentLive(sockets, ws)
    {
      if Busy() {
        return;
      }
      currentUrl := url;
      isManuallyDisconnected := false;
      ClearReconnect();
      if rejected {
        return;
      }
      sockets := sockets + [Socket(url, Connecting)];
      ws := Some(|sockets| - 1);
    }

    /** disconnect(). */
    method Disconnect()
      requires Valid()
      modifies this
      ensures Valid()
      ensures old(ws).None? ==> unchanged(this)
      ensures old(ws).Some? ==> Disconnected()
      ensures old(OnlyCurrentLive(sockets, ws)) ==> OnlyCurrentLive(sockets, ws)
    {
      if ws.Some? {
        isManuallyDisconnected := true;
        ClearReconnect();
        sockets := sockets[ws.value := CloseCalled(sockets[ws.value])];
      }
    }

    /** Socket s reports open (its onopen handler). */
    method TransportOpen(s: nat)
      requires Valid()
      requires s < |sockets| && sockets[s].state == Connecting
      modifies this
      ensures Valid()
      ensures sockets == old(sockets)[s := Socket(old(sockets)[s].url, Open)]
      ensures reconnectInterval == None && armed == {}
      ensures calls == old(calls) + [Call(old(callbacks).onOpen, Opened)]
      ensures ws == old(ws) && isManuallyDisconnected == old(isManuallyDisconnected)
      ensures currentUrl == old(currentUrl) && callbacks == old(callbacks) && nextHandle == old(nextHandle)
      ensures old(OnlyCurrentLive(sockets, ws)) ==> OnlyCurrentLive(sockets, ws)
    {
      sockets := sockets[s := sockets[s].(state := Open)];
      ClearReconnect();
      calls := calls + [Call(callbacks.onOpen, Opened)];
    }

    /** A message arrives on socket s (its onmessage handler). parsed is
        what JSON.parse made of raw (None: it threw); handlerThrows says
        whether the onMessage callback threw, which the same catch reports. */
    method TransportMessage(s: nat, raw: string, parsed: Option<Json>, handlerThrows: bool)
      requires Valid()
      requires s < |sockets| && sockets[s].state == Open
      modifies this
      ensures calls == old(calls) +
        match parsed
        case None => [Call(old(callbacks).onError, ErrorText(ParseErrorText(raw)))]
        case Some(d) =>
          [Call(old(callbacks).onMessage, Message(d))]
          + (if handlerThrows then [Call(old(callbacks).onError, ErrorText(ParseErrorText(raw)))] else [])
      ensures sockets == old(sockets) && ws == old(ws) && reconnectInterval == old(reconnectInterval)
      ensures isManuallyDisconnected == old(isManuallyDisconnected) && currentUrl == old(currentUrl)
      ensures callbacks == old(callbacks) && nextHandle == old(nextHandle) && armed == old(armed)
      ensures Valid()
    {
      match parsed
      case None =>
        calls := calls + [Call(callbacks.onError, ErrorText(ParseErrorText(raw)))];
      case Some(d) =>
        calls := calls + [Call(callbacks.onMessage, Message(d))];
        if handlerThrows {
          calls := calls + [Call(callbacks.onError, ErrorText(ParseErrorText(raw)))];
        }
    }

    /** Socket s reports an error (its onerror handler). */
    method TransportError(s: nat)
      requires Valid()
      requires s < |sockets| && sockets[s].state != Closed
      modifies this
      ensures Valid()
      ensures calls == old(calls) + [Call(old(callbacks).onError, ErrorText(SocketErrorText))]
      ensures sockets == old(sockets) && ws == old(ws) && reconnectInterval == old(reconnectInterval)
      ensures isManuallyDisconnected == old(isManuallyDisconnected) && currentUrl == old(currentUrl)
      ensures callbacks == old(callbacks) && nextHandle == old(nextHandle) && armed == old(armed)
    {
      calls := calls + [Call(callbacks.onError, ErrorText(SocketErrorText))];
    }

    /** The peer starts the closing handshake on open socket s; no handler runs. */
    method TransportClosing(s: nat)
      requires Valid()
      requires s < |sockets| && sockets[s].state == Open
      modifies this
      ensures Valid()
      ensures sockets == old(sockets)[s := Socket(old(sockets)[s].url, Closing)]
      ensures ws == old(ws) && reconnectInterval == old(reconnectInterval) && calls == old(calls)
      ensures isManuallyDisconnected == old(isManuallyDisconnected) && currentUrl == old(currentUrl)
      ensures callbacks == old(callbacks) && nextHandle == old(nextHandle) && armed == old(armed)
      ensures old(OnlyCurrentLive(sockets, ws)) ==> OnlyCurrentLive(sockets, ws)
    {
      sockets := sockets[s := sockets[s].(state := Closing)];
    }

    /** The retry step of the onclose handler: set the interval when the
        close was not manual and none is pending. */
    method ScheduleRetry()
      requires Valid()
      modifies this
      ensures Valid()
      ensures if !old(isManuallyDisconnected) && old(reconnectInterval).None? then
          reconnectInterval == Some(old(nextHandle)) && armed == {old(nextHandle)}
          && nextHandle == old(nextHandle) + 1
        else
          reconnectInterval == old(reconnectInterval) && armed == old(armed) && nextHandle == old(nextHandle)
      ensures sockets == old(sockets) && ws == old(ws) && calls == old(calls)
      ensures isManuallyDisconnected == old(isManuallyDisconnected) && currentUrl == old(currentUrl)
      ensures callbacks == old(callbacks)
    {
      if !isManuallyDisconnected && reconnectInterval.None? {
        reconnectInterval := Some(nextHandle);
        armed := armed + {nextHandle};
        nextHandle := nextHandle + 1;
      }
    }

    /** Socket s closes (its onclose handler, as written): ws is cleared
        whichever socket closed, onClose runs, and a retry is scheduled
        unless the close was manual or one is already pending. */
    method TransportClose(s: nat, code: int)
      requires Valid()
      requires s < |sockets| && sockets[s].state != Closed
      modifies this
      ensures Valid()
      ensures sockets == old(sockets)[s := Socket(old(sockets)[s].url, Closed)]
      ensures ws == None && GetConnectionState() == Closed
      ensures calls == old(calls) + [Call(old(callbacks).onClose, CloseEvent(code))]
      ensures if !old(isManuallyDisconnected) && old(reconnectInterval).None? then
          reconnectInterval == Some(old(nextHandle)) && armed == {old(nextHandle)}
          && nextHandle == old(nextHandle) + 1
        else
          reconnectInterval == old(reconnectInterval) && armed == old(armed) && nextHandle == old(nextHandle)
      ensures isManuallyDisconnected == old(isManuallyDisconnected) && currentUrl == old(currentUrl)
      ensures callbacks == old(callbacks)
      ensures old(OnlyCurrentLive(sockets, ws)) && old(ws) == Some(s) ==> OnlyCurrentLive(sockets, ws)
    {
      sockets := sockets[s := sockets[s].(state := Closed)];
      ws := None;
      calls := calls + [Call(callbacks.onClose, CloseEvent(code))];
      ScheduleRetry();
    }

    /** The onclose handler as evidently intended: only the close of the
        socket ws holds clears ws. Everything else is as in TransportClose. */
    method TransportCloseGuarded(s: nat, code: int)
      requires Valid()
      requires s < |sockets| && sockets[s].state != Closed
      modifies this
      ensures Valid()
      ensures sockets == old(sockets)[s := Socket(old(sockets)[s].url, Closed)]
      ensures ws == if old(ws) == Some(s) then None else old(ws)
      ensures calls == old(calls) + [Call(old(callbacks).onClose, CloseEvent(code))]
      ensures if !old(isManuallyDisconnected) && old(reconnectInterval).None? then
          reconnectInterval == Some(old(nextHandle)) && armed == {old(nextHandle)}
          && nextHandle == old(nextHandle) + 1
        else
          reconnectInterval == old(reconnectInterval) && armed == old(armed) && nextHandle == old(nextHandle)
      ensures isManuallyDisconnected == old(isManuallyDisconnected) && currentUrl == old(currentUrl)
      ensures callbacks == old(callbacks)
      ensures old(OnlyCurrentLive(sockets, ws)) ==> OnlyCurrentLive(sockets, ws)
    {
      sockets := sockets[s := sockets[s].(state := Closed)];
      if ws == Some(s) {
        ws := None;
      }
      calls := calls + [Call(callbacks.onClose, CloseEvent(code))];
      ScheduleRetry();
    }

    /** The pending interval h fires: connect(currentUrl). An interval keeps
        firing until something clears it; rejected is as for Connect. */
    method TimerFire(h: nat, rejected: bool)
      requires Valid()
      requires h in armed
      modifies this
      ensures Valid()
      ensures old(Busy()) ==> unchanged(this)
      ensures !old(Busy()) ==> ConnectStarted(old(currentUrl), rejected)
      ensures old(OnlyCurrentLive(sockets, ws)) ==> OnlyCurrentLive(sockets, ws)
    {
      Connect(currentUrl, rejected);
    }
  }

  // -----------------------------------------------------------------------
  // Scenarios

  /** connect, open, disconnect: the reported state is closed once the
      close arrives, and nothing is left that could reconnect. */
  method ManualDisconnectScenario() returns (reported: ReadyState, retryPending: bool)
    ensures reported == Closed && !retryPending
  {
    var m := new Manager();
    m.Connect("ws://host/a", false);
    assert m.GetConnectionState() == Connecting;
    m.TransportOpen(0);
    assert m.GetConnectionState() == Open;
    m.Connect("ws://host/a", false);
    assert |m.sockets| == 1;
    m.Disconnect();
    assert m.GetConnectionState() == Closing && m.isManuallyDisconnected;
    m.TransportClose(0, 1000);
    reported := m.GetConnectionState();
    retryPending := m.reconnectInterval.Some?;
  }

  /** connect, open, abnormal close: a retry is pending, and when it fires
      exactly one new attempt to the same URL is made and nothing is left
      pending. */
  method UnexpectedCloseScenario() returns (afterClose: ReadyState, attempts: nat, retried: Socket, stillPending: bool)
    ensures afterClose == Closed && attempts == 2
    ensures retried == Socket("ws://host/a", Connecting) && !stillPending
  {
    var m := new Manager();
    m.Connect("ws://host/a", false);
    m.TransportOpen(0);
    m.TransportClose(0, 1006);
    afterClose := m.GetConnectionState();
    assert m.reconnectInterval.Some? && |m.armed| == 1;
    var h := m.reconnectInterval.value;
    m.TimerFire(h, false);
    attempts := |m.sockets|;
    retried := m.sockets[1];
    stillPending := m.reconnectInterval.Some?;
  }

  /** connect, open, disconnect, connect again while the first socket is
      still closing, then the first socket's close arrives: ws is cleared
      although the second socket is connecting, a retry is scheduled, and
      when it fires a third socket is opened beside the second. */
  method StaleCloseTrace() returns (reported: ReadyState, secondLive: bool, thirdLive: bool)
    ensures reported == Closed && secondLive && thirdLive
  {
    var m := new Manager();
    m.Connect("ws://host/a", false);
    m.TransportOpen(0);
    m.Disconnect();
    m.Connect("ws://host/a", false);
    assert m.ws == Some(1) && Live(m.sockets[1]);
    assert OnlyCurrentLive(m.sockets, m.ws);
    m.TransportClose(0, 1000);
    reported := m.GetConnectionState();
    assert !OnlyCurrentLive(m.sockets, m.ws);
    var h := m.reconnectInterval.value;
    m.TimerFire(h, false);
    secondLive, thirdLive := Live(m.sockets[1]), Live(m.sockets[2]);
  }

  /** The same trace with the guarded close handler keeps ws on the
      second socket, the only live one; the retry the close schedules
      finds it busy and opens no third socket. */
  method StaleCloseGuardedTrace() returns (reported: ReadyState, onlyCurrent: bool, socketsAfterRetry: nat)
    ensures reported == Connecting && onlyCurrent && socketsAfterRetry == 2
  {
    var m := new Manager();
    m.Connect("ws://host/a", false);
    m.TransportOpen(0);
    m.Disconnect();
    m.Connect("ws://host/a", false);
    m.TransportCloseGuarded(0, 1000);
    reported := m.GetConnectionState();
    onlyCurrent := OnlyCurrentLive(m.sockets, m.ws);
    var h := m.reconnectInterval.value;
    m.TimerFire(h, false);
    socketsAfterRetry := |m.sockets|;
  }

  /** connect to a URL the validator accepts but the WebSocket
      constructor rejects (its port is above 65535): no socket is made,
      the reported state stays closed and no retry is ever scheduled,
      although currentUrl already names the rejected URL. */
  method RejectedConnectScenario() returns (reported: ReadyState, attempts: nat, pending: bool, url: string)
    ensures WsUrl.IsValidWebSocketUrl(url)
    ensures reported == Closed && attempts == 0 && !pending && url == "ws://host:99999/a"
  {
    var m := new Manager();
    m.Connect("ws://host:99999/a", true);
    reported := m.GetConnectionState();
    attempts := |m.sockets|;
    pending := m.reconnectInterval.Some?;
    url := m.currentUrl;
    WsUrl.PortAboveRangeAccepted(url);
  }
}
