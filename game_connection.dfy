/**
 * The client's connection to the lobby (the current wrapper): one socket at
 * a time, four listener sets, and a flag that lets `lobby:host` out at most
 * once until the next explicit disconnect.
 *
 * The socket library is outside the model: opening a socket appends
 * `SocketOpened` to the log, emitting appends `Emitted`, and the transport's
 * own events (connected, a state or error message arriving, dropped) are
 * methods the environment calls.
 */
module GameConnection {
  import opened Wrappers
  import opened JsStrings
  import opened Lists
  import opened Protocol
  import opened Listeners

  const LocalServer: string := "http://localhost:3000"

  /**
   * The address `connect` opens: a caller-supplied server first; else a
   * join code falls back to the local server; else the production build
   * uses its own origin ("/") and a development build the local server.
   */
  function ServerUrl(joinCode: Option<string>, serverUrl: Option<string>, isProd: bool): (url: string)
    ensures Truthy(serverUrl) ==> url == serverUrl.value
    ensures !Truthy(serverUrl) ==> url == LocalServer || url == "/"
    ensures !Truthy(serverUrl) && url == "/" <==> !Truthy(serverUrl) && !Truthy(joinCode) && isProd
    ensures url != ""
  {
    if Truthy(serverUrl) then serverUrl.value
    else if Truthy(joinCode) then LocalServer
    else if isProd then "/"
    else LocalServer
  }

  class Connection {
    var socket: Option<Socket>
    var stateListeners: ListenerSet
    var connectListeners: ListenerSet
    var disconnectListeners: ListenerSet
    var errorListeners: ListenerSet
    /** Set by the first `host` call; cleared only by `disconnect`. */
    var hostEmitted: bool
    /** What the wrapper has done so far. */
    var log: seq<LogEntry>
    /** Whether this is a production build. */
    const isProd: bool

    function Subs(): Subscribers
      reads this
    {
      Subscribers(stateListeners, connectListeners, disconnectListeners, errorListeners)
    }

    /**
     * Listener sets hold no duplicates, and since the last closed socket at
     * most one `lobby:host` went out, and none while the flag is down.
     */
    ghost predicate Valid()
      reads this
    {
      SubscribersValid(Subs()) && HostsSinceClose(log) <= (if hostEmitted then 1 else 0)
    }

    function IsConnected(): (b: bool)
      reads this
      ensures b ==> socket.Some?
    {
      socket.Some? && socket.value.connected
    }

    /** `socket?.id ?? null`. */
    function SocketId(): (id: Option<ConnId>)
      reads this
      ensures socket.None? ==> id.None?
    {
      if socket.Some? then socket.value.id else None
    }

    /** What `socket?.emit(e)` leaves in the log: nothing without a socket. */
    function Sent(e: ClientEvent): seq<LogEntry>
      reads this
    {
      if socket.Some? then [Emitted(e)] else []
    }

    constructor (isProd: bool)
      ensures Valid() && socket.None? && !hostEmitted && log == []
      ensures Subs() == Subscribers([], [], [], []) && this.isProd == isProd
    {
      socket := None;
      stateListeners, connectListeners, disconnectListeners, errorListeners := [], [], [], [];
      hostEmitted := false;
      log := [];
      this.isProd := isProd;
    }

    /** Opens a socket unless one is already held. */
    method Connect(joinCode: Option<string>, serverUrl: Option<string>)
      requires Valid()
      modifies this
      ensures Valid() && Subs() == old(Subs()) && hostEmitted == old(hostEmitted)
      ensures old(socket).Some? ==> socket == old(socket) && log == old(log)
      ensures old(socket).None? ==>
        && socket == Some(Socket(ServerUrl(joinCode, serverUrl, isProd), false, None))
        && log == old(log) + [SocketOpened(ServerUrl(joinCode, serverUrl, isProd))]
    {
      if socket.Some? {
        return;
      }
      var url := ServerUrl(joinCode, serverUrl, isProd);
      socket := Some(Socket(url, false, None));
      HostsSinceCloseQuiet(log, [SocketOpened(url)]);
      log := log + [SocketOpened(url)];
    }

    method OnState(l: ListenerId) returns (remover: Remover)
      requires Valid()
      modifies this
      ensures Valid() && socket == old(socket) && hostEmitted == old(hostEmitted) && log == old(log)
      ensures Subs() == old(Subs()).(state := Subscribe(old(stateListeners), l))
      ensures remover == Remove(StateListeners, l)
    {
      stateListeners := Subscribe(stateListeners, l);
      remover := Remove(StateListeners, l);
    }

    method OnError(l: ListenerId) returns (remover: Remover)
      requires Valid()
      modifies this
      ensures Valid() && socket == old(socket) && hostEmitted == old(hostEmitted) && log == old(log)
      ensures Subs() == old(Subs()).(error := Subscribe(old(errorListeners), l))
      ensures remover == Remove(ErrorListeners, l)
    {
      errorListeners := Subscribe(errorListeners, l);
      remover := Remove(ErrorListeners, l);
    }

    method OnConnect(l: ListenerId) returns (remover: Remover)
      requires Valid()
      modifies this
      ensures Valid() && socket == old(socket) && hostEmitted == old(hostEmitted) && log == old(log)
      ensures Subs() == old(Subs()).(connect := Subscribe(old(connectListeners), l))
      ensures remover == Remove(ConnectListeners, l)
    {
      connectListeners := Subscribe(connectListeners, l);
      remover := Remove(ConnectListeners, l);
    }

    method OnDisconnect(l: ListenerId) returns (remover: Remover)
      requires Valid()
      modifies this
      ensures Valid() && socket == old(socket) && hostEmitted == old(hostEmitted) && log == old(log)
      ensures Subs() == old(Subs()).(disconnect := Subscribe(old(disconnectListeners), l))
      ensures remover == Remove(DisconnectListeners, l)
    {
      disconnectListeners := Subscribe(disconnectListeners, l);
      remover := Remove(DisconnectListeners, l);
    }

    /** Calls a remover: deletes exactly the listener it was made for, from the set it was made for. */
    method RunRemover(remover: Remover)
      requires Valid()
      modifies this
      ensures Valid() && socket == old(socket) && hostEmitted == old(hostEmitted) && log == old(log)
      ensures remover.NoOp? ==> Subs() == old(Subs())
      ensures remover.Remove? && remover.kind == StateListeners ==>
        Subs() == old(Subs()).(state := Unsubscribe(old(stateListeners), remover.id))
      ensures remover.Remove? && remover.kind == ConnectListeners ==>
        Subs() == old(Subs()).(connect := Unsubscribe(old(connectListeners), remover.id))
      ensures remover.Remove? && remover.kind == DisconnectListeners ==>
        Subs() == old(Subs()).(disconnect := Unsubscribe(old(disconnectListeners), remover.id))
      ensures remover.Remove? && remover.kind == ErrorListeners ==>
        Subs() == old(Subs()).(error := Unsubscribe(old(errorListeners), remover.id))
    {
      match remover
      case NoOp =>
      case Remove(kind, id) =>
        match kind {
          case StateListeners => stateListeners := Unsubscribe(stateListeners, id);
          case ConnectListeners => connectListeners := Unsubscribe(connectListeners, id);
          case DisconnectListeners => disconnectListeners := Unsubscribe(disconnectListeners, id);
          case ErrorListeners => errorListeners := Unsubscribe(errorListeners, id);
        }
    }

    /**
     * Runs `cb` now if the socket is connected, handing back a remover that
     * does nothing; otherwise subscribes it to every later connect. The
     * subscription is not dropped after it first fires.
     */
    method RunWhenConnected(cb: ListenerId) returns (remover: Remover)
      requires Valid()
      modifies this
      ensures Valid() && socket == old(socket) && hostEmitted == old(hostEmitted)
      ensures old(IsConnected()) ==> remover == NoOp && log == old(log) + [Ran(cb)] && Subs() == old(Subs())
      ensures !old(IsConnected()) ==>
        && remover == Remove(ConnectListeners, cb) && log == old(log)
        && Subs() == old(Subs()).(connect := Subscribe(old(connectListeners), cb))
    {
      if IsConnected() {
        HostsSinceCloseQuiet(log, [Ran(cb)]);
        log := log + [Ran(cb)];
        return NoOp;
      }
      remover := OnConnect(cb);
    }

    /** Closes the socket, tells the disconnect listeners, forgets the socket and lowers the host flag. */
    method Disconnect()
      requires Valid()
      modifies this
      ensures Valid() && Subs() == old(Subs())
      ensures old(socket).None? ==> socket.None? && log == old(log) && hostEmitted == old(hostEmitted)
      ensures old(socket).Some? ==>
        && socket.None? && !hostEmitted
        && log == old(log) + [SocketClosed] + DisconnectRuns(disconnectListeners, old(socket).value.connected)
    {
      if socket.None? {
        return;
      }
      var runs := DisconnectRuns(disconnectListeners, socket.value.connected);
      HostsSinceCloseReset(log, runs);
      log := log + [SocketClosed] + runs;
      socket := None;
      hostEmitted := false;
      assert SubscribersValid(Subs());
    }

    /** Emits `lobby:host` unless it was already asked for since the last disconnect; asking without a socket still counts. */
    method Host(name: string)
      requires Valid()
      modifies this
      ensures Valid() && Subs() == old(Subs()) && socket == old(socket) && hostEmitted
      ensures old(hostEmitted) ==> log == old(log)
      ensures !old(hostEmitted) ==> log == old(log) + old(Sent(HostEvent(Some(name))))
    {
      if hostEmitted {
        return;
      }
      hostEmitted := true;
      if socket.Some? {
        var e := Emitted(HostEvent(Some(name)));
        assert (log + [e])[..|log|] == log;
        assert HostsSinceClose(log + [e]) == HostsSinceClose(log) + 1;
        log := log + [e];
      }
    }

    /** Sends an event other than `lobby:host` if a socket is held. */
    method Emit(e: ClientEvent)
      requires Valid() && !e.HostEvent?
      modifies this
      ensures Valid() && Subs() == old(Subs()) && socket == old(socket) && hostEmitted == old(hostEmitted)
      ensures log == old(log) + old(Sent(e))
    {
      HostsSinceCloseQuiet(log, Sent(e));
      log := log + Sent(e);
    }

    /** `lobby:join` with `{ name, code: joinCode || null }`. */
    method Join(name: string, joinCode: Option<string>)
      requires Valid()
      modifies this
      ensures Valid() && Subs() == old(Subs()) && socket == old(socket) && hostEmitted == old(hostEmitted)
      ensures log == old(log) + old(Sent(JoinEvent(WithCode(Some(name), OrNull(joinCode)))))
    {
      Emit(JoinEvent(WithCode(Some(name), OrNull(joinCode))));
    }

    method SetName(name: string)
      requires Valid()
      modifies this
      ensures Valid() && Subs() == old(Subs()) && socket == old(socket) && hostEmitted == old(hostEmitted)
      ensures log == old(log) + old(Sent(SetNameEvent(Some(name))))
    {
      Emit(SetNameEvent(Some(name)));
    }

    method SetFaction(faction: Option<string>)
      requires Valid()
      modifies this
      ensures Valid() && Subs() == old(Subs()) && socket == old(socket) && hostEmitted == old(hostEmitted)
      ensures log == old(log) + old(Sent(SetFactionEvent(faction)))
    {
      Emit(SetFactionEvent(faction));
    }

    method SetDeck(deckId: Option<string>)
      requires Valid()
      modifies this
      ensures Valid() && Subs() == old(Subs()) && socket == old(socket) && hostEmitted == old(hostEmitted)
      ensures log == old(log) + old(Sent(SetDeckEvent(deckId)))
    {
      Emit(SetDeckEvent(deckId));
    }

    method StartRequest()
      requires Valid()
      modifies this
      ensures Valid() && Subs() == old(Subs()) && socket == old(socket) && hostEmitted == old(hostEmitted)
      ensures log == old(log) + old(Sent(StartRequestEvent))
    {
      Emit(StartRequestEvent);
    }

    /** Emits `lobby:leave`, then (after a short delay, here only its order) disconnects. */
    method Leave()
      requires Valid()
      modifies this
      ensures Valid() && Subs() == old(Subs()) && socket.None?
      ensures old(socket).None? ==> log == old(log) && hostEmitted == old(hostEmitted)
      ensures old(socket).Some? ==>
        && log == old(log) + [Emitted(LeaveEvent), SocketClosed] + DisconnectRuns(disconnectListeners, old(socket).value.connected)
        && !hostEmitted
    {
      if socket.None? {
        // Without a socket both the emit and the disconnect do nothing.
        return;
      }
      ghost var runs := DisconnectRuns(disconnectListeners, socket.value.connected);
      Emit(LeaveEvent);
      assert log == old(log) + [Emitted(LeaveEvent)];
      Disconnect();
      assert log == old(log) + [Emitted(LeaveEvent)] + [SocketClosed] + runs;
      assert [Emitted(LeaveEvent)] + [SocketClosed] == [Emitted(LeaveEvent), SocketClosed];
    }

    /** The transport reports the socket connected with id `id`: the connect listeners run. */
    method TransportConnected(id: ConnId)
      requires Valid() && socket.Some?
      modifies this
      ensures Valid() && Subs() == old(Subs()) && hostEmitted == old(hostEmitted)
      ensures socket == Some(old(socket).value.(connected := true, id := Some(id)))
      ensures IsConnected() && SocketId() == Some(id)
      ensures log == old(log) + Fire(connectListeners)
    {
      socket := Some(socket.value.(connected := true, id := Some(id)));
      HostsSinceCloseQuiet(log, Fire(connectListeners));
      log := log + Fire(connectListeners);
    }

    /** A `lobby:state` message arrives: every state listener receives it. */
    method TransportState(state: LobbySnapshot)
      requires Valid() && socket.Some?
      modifies this
      ensures Valid() && Subs() == old(Subs()) && socket == old(socket) && hostEmitted == old(hostEmitted)
      ensures log == old(log) + FireWithState(stateListeners, state)
    {
      HostsSinceCloseQuiet(log, FireWithState(stateListeners, state));
      log := log + FireWithState(stateListeners, state);
    }

    /** A `lobby:joinError` message arrives: every error listener receives it. */
    method TransportJoinError(error: string)
      requires Valid() && socket.Some?
      modifies this
      ensures Valid() && Subs() == old(Subs()) && socket == old(socket) && hostEmitted == old(hostEmitted)
      ensures log == old(log) + FireWithError(errorListeners, error)
    {
      HostsSinceCloseQuiet(log, FireWithError(errorListeners, error));
      log := log + FireWithError(errorListeners, error);
    }

    /**
     * The transport drops: the disconnect listeners run, but the wrapper
     * keeps its socket and its host flag.
     */
    method TransportDropped()
      requires Valid() && socket.Some?
      modifies this
      ensures Valid() && Subs() == old(Subs()) && hostEmitted == old(hostEmitted)
      ensures socket == Some(old(socket).value.(connected := false, id := None))
      ensures log == old(log) + Fire(disconnectListeners)
    {
      socket := Some(socket.value.(connected := false, id := None));
      HostsSinceCloseQuiet(log, Fire(disconnectListeners));
      log := log + Fire(disconnectListeners);
    }
  }
}
