/**
 * The older client's connection wrapper: the same socket and listener
 * handling as the current one, but no join-error listeners, no choice of
 * server beyond the build mode, no guard on `lobby:host`, and a join that
 * sends the bare name.
 */
module LegacyGameConnection {
  import opened Wrappers
  import opened Lists
  import opened Protocol
  import opened Listeners

  /** The production build talks to its own origin, a development build to the local server. */
  function ServerUrl(isProd: bool): (url: string)
    ensures url == "/" <==> isProd
    ensures url != ""
  {
    if isProd then "/" else "http://localhost:3000"
  }

  class Connection {
    var socket: Option<Socket>
    var stateListeners: ListenerSet
    var connectListeners: ListenerSet
    var disconnectListeners: ListenerSet
    var log: seq<LogEntry>
    const isProd: bool

    function Subs(): Subscribers
      reads this
    {
      Subscribers(stateListeners, connectListeners, disconnectListeners, [])
    }

    ghost predicate Valid()
      reads this
    {
      SubscribersValid(Subs())
    }

    function IsConnected(): (b: bool)
      reads this
      ensures b ==> socket.Some?
    {
      socket.Some? && socket.value.connected
    }

    function SocketId(): (id: Option<ConnId>)
      reads this
      ensures socket.None? ==> id.None?
    {
      if socket.Some? then socket.value.id else None
    }

    function Sent(e: ClientEvent): seq<LogEntry>
      reads this
    {
      if socket.Some? then [Emitted(e)] else []
    }

    constructor (isProd: bool)
      ensures Valid() && socket.None? && log == []
      ensures Subs() == Subscribers([], [], [], []) && this.isProd == isProd
    {
      socket := None;
      stateListeners, connectListeners, disconnectListeners := [], [], [];
      log := [];
      this.isProd := isProd;
    }

    method Connect()
      requires Valid()
      modifies this
      ensures Valid() && Subs() == old(Subs())
      ensures old(socket).Some? ==> socket == old(socket) && log == old(log)
      ensures old(socket).None? ==>
        socket == Some(Socket(ServerUrl(isProd), false, None)) && log == old(log) + [SocketOpened(ServerUrl(isProd))]
    {
      if socket.Some? {
        return;
      }
      socket := Some(Socket(ServerUrl(isProd), false, None));
      log := log + [SocketOpened(ServerUrl(isProd))];
    }

    method OnState(l: ListenerId) returns (remover: Remover)
      requires Valid()
      modifies this
      ensures Valid() && socket == old(socket) && log == old(log)
      ensures Subs() == old(Subs()).(state := Subscribe(old(stateListeners), l))
      ensures remover == Remove(StateListeners, l)
    {
      stateListeners := Subscribe(stateListeners, l);
      remover := Remove(StateListeners, l);
    }

    method OnConnect(l: ListenerId) returns (remover: Remover)
      requires Valid()
      modifies this
      ensures Valid() && socket == old(socket) && log == old(log)
      ensures Subs() == old(Subs()).(connect := Subscribe(old(connectListeners), l))
      ensures remover == Remove(ConnectListeners, l)
    {
      connectListeners := Subscribe(connectListeners, l);
      remover := Remove(ConnectListeners, l);
    }

    method OnDisconnect(l: ListenerId) returns (remover: Remover)
      requires Valid()
      modifies this
      ensures Valid() && socket == old(socket) && log == old(log)
      ensures Subs() == old(Subs()).(disconnect := Subscribe(old(disconnectListeners), l))
      ensures remover == Remove(DisconnectListeners, l)
    {
      disconnectListeners := Subscribe(disconnectListeners, l);
      remover := Remove(DisconnectListeners, l);
    }

    /** Calls a remover handed out by this wrapper (which has no error listeners). */
    method RunRemover(remover: Remover)
      requires Valid()
      modifies this
      ensures Valid() && socket == old(socket) && log == old(log)
      ensures remover.NoOp? || remover.kind == ErrorListeners ==> Subs() == old(Subs())
      ensures remover.Remove? && remover.kind == StateListeners ==>
        Subs() == old(Subs()).(state := Unsubscribe(old(stateListeners), remover.id))
      ensures remover.Remove? && remover.kind == ConnectListeners ==>
        Subs() == old(Subs()).(connect := Unsubscribe(old(connectListeners), remover.id))
      ensures remover.Remove? && remover.kind == DisconnectListeners ==>
        Subs() == old(Subs()).(disconnect := Unsubscribe(old(disconnectListeners), remover.id))
    {
      match remover
      case NoOp =>
      case Remove(kind, id) =>
        match kind {
          case StateListeners => stateListeners := Unsubscribe(stateListeners, id);
          case ConnectListeners => connectListeners := Unsubscribe(connectListeners, id);
          case DisconnectListeners => disconnectListeners := Unsubscribe(disconnectListeners, id);
          case ErrorListeners =>
        }
    }

    method RunWhenConnected(cb: ListenerId) returns (remover: Remover)
      requires Valid()
      modifies this
      ensures Valid() && socket == old(socket)
      ensures old(IsConnected()) ==> remover == NoOp && log == old(log) + [Ran(cb)] && Subs() == old(Subs())
      ensures !old(IsConnected()) ==>
        && remover == Remove(ConnectListeners, cb) && log == old(log)
        && Subs() == old(Subs()).(connect := Subscribe(old(connectListeners), cb))
    {
      if IsConnected() {
        log := log + [Ran(cb)];
        return NoOp;
      }
      remover := OnConnect(cb);
    }

    method Disconnect()
      requires Valid()
      modifies this
      ensures Valid() && Subs() == old(Subs()) && socket.None?
      ensures old(socket).None? ==> log == old(log)
      ensures old(socket).Some? ==> log == old(log) + [SocketClosed] + DisconnectRuns(disconnectListeners, old(socket).value.connected)
    {
      if socket.None? {
        return;
      }
      log := log + [SocketClosed] + DisconnectRuns(disconnectListeners, socket.value.connected);
      socket := None;
    }

    /** Sends `e` if a socket is held; `lobby:host` included, as often as asked. */
    method Emit(e: ClientEvent)
      requires Valid()
      modifies this
      ensures Valid() && Subs() == old(Subs()) && socket == old(socket)
      ensures log == old(log) + old(Sent(e))
    {
      log := log + Sent(e);
    }

    /** Every call with a socket emits `lobby:host`: this wrapper has no guard. */
    method Host(name: string)
      requires Valid()
      modifies this
      ensures Valid() && Subs() == old(Subs()) && socket == old(socket)
      ensures log == old(log) + old(Sent(HostEvent(Some(name))))
    {
      Emit(HostEvent(Some(name)));
    }

    /** `lobby:join` with the bare name, which the host process reads as a name without a code. */
    method Join(name: string)
      requires Valid()
      modifies this
      ensures Valid() && Subs() == old(Subs()) && socket == old(socket)
      ensures log == old(log) + old(Sent(JoinEvent(BareName(name))))
    {
      Emit(JoinEvent(BareName(name)));
    }

    method SetName(name: string)
      requires Valid()
      modifies this
      ensures Valid() && Subs() == old(Subs()) && socket == old(socket)
      ensures log == old(log) + old(Sent(SetNameEvent(Some(name))))
    {
      Emit(SetNameEvent(Some(name)));
    }

    method SetFaction(faction: Option<string>)
      requires Valid()
      modifies this
      ensures Valid() && Subs() == old(Subs()) && socket == old(socket)
      ensures log == old(log) + old(Sent(SetFactionEvent(faction)))
    {
      Emit(SetFactionEvent(faction));
    }

    method SetDeck(deckId: Option<string>)
      requires Valid()
      modifies this
      ensures Valid() && Subs() == old(Subs()) && socket == old(socket)
      ensures log == old(log) + old(Sent(SetDeckEvent(deckId)))
    {
      Emit(SetDeckEvent(deckId));
    }

    method StartRequest()
      requires Valid()
      modifies this
      ensures Valid() && Subs() == old(Subs()) && socket == old(socket)
      ensures log == old(log) + old(Sent(StartRequestEvent))
    {
      Emit(StartRequestEvent);
    }

    method Leave()
      requires Valid()
      modifies this
      ensures Valid() && Subs() == old(Subs()) && socket.None?
      ensures old(socket).None? ==> log == old(log)
      ensures old(socket).Some? ==>
        log == old(log) + [Emitted(LeaveEvent), SocketClosed] + DisconnectRuns(disconnectListeners, old(socket).value.connected)
    {
      Emit(LeaveEvent);
      Disconnect();
    }

    method TransportConnected(id: ConnId)
      requires Valid() && socket.Some?
      modifies this
      ensures Valid() && Subs() == old(Subs())
      ensures socket == Some(old(socket).value.(connected := true, id := Some(id)))
      ensures log == old(log) + Fire(connectListeners)
    {
      socket := Some(socket.value.(connected := true, id := Some(id)));
      log := log + Fire(connectListeners);
    }

    method TransportState(state: LobbySnapshot)
      requires Valid() && socket.Some?
      modifies this
      ensures Valid() && Subs() == old(Subs()) && socket == old(socket)
      ensures log == old(log) + FireWithState(stateListeners, state)
    {
      log := log + FireWithState(stateListeners, state);
    }

    method TransportDropped()
      requires Valid() && socket.Some?
      modifies this
      ensures Valid() && Subs() == old(Subs())
      ensures socket == Some(old(socket).value.(connected := false, id := None))
      ensures log == old(log) + Fire(disconnectListeners)
    {
      socket := Some(socket.value.(connected := false, id := None));
      log := log + Fire(disconnectListeners);
    }
  }

  /** Two hosts in a row from the older client both reach the socket. */
  method HostTwice(c: Connection, name: string)
    requires c.Valid() && c.socket.Some?
    modifies c
    ensures c.log == old(c.log) + [Emitted(HostEvent(Some(name))), Emitted(HostEvent(Some(name)))]
  {
    c.Host(name);
    c.Host(name);
  }
}
