/**
 * The lobby that the desktop host process keeps for one match: a host seat,
 * a guest seat, a started flag and the join code, changed by the handlers
 * of the clients' socket events. A handler either changes nothing and says
 * nothing, answers only its caller (a bad join code), or changes the lobby
 * and broadcasts the whole new snapshot.
 *
 * Each handler is a pure step over snapshots, which the lemmas below reason
 * about, and a method of `Lobby` that updates the record in place.
 */
module LobbyServer {
  import opened Wrappers
  import opened JsStrings
  import opened Protocol

  /** What the host process sends. */
  datatype ServerMessage =
    | StateMessage(state: LobbySnapshot)
    | StartedMessage(hostDeckId: string, guestDeckId: string)
    | JoinErrorMessage(error: string)

  /** `io.emit` reaches every connection; `socket.emit` only the caller. */
  datatype Delivery = Broadcast(message: ServerMessage) | ToCaller(conn: ConnId, message: ServerMessage)

  /** The lobby after one handler, and what the handler sent. */
  datatype Step = Step(next: LobbySnapshot, out: seq<Delivery>)

  /** The invariants every handler keeps: no guest without a host, no started game without a host. */
  predicate Inv(s: LobbySnapshot) {
    (s.guest.Some? ==> s.host.Some?) && (s.host.None? ==> !s.started)
  }

  /** The lobby at start-up: both seats empty, not started. */
  function Initial(code: string): (s: LobbySnapshot)
    ensures Inv(s) && s.code == code
  {
    LobbySnapshot(None, None, false, code)
  }

  /** `emitState()`: the snapshot goes to everyone. */
  function Announce(s: LobbySnapshot): seq<Delivery> {
    [Broadcast(StateMessage(s))]
  }

  /** A changed lobby, announced. */
  function Changed(s: LobbySnapshot): Step {
    Step(s, Announce(s))
  }

  /** A new connection is sent the current snapshot; nothing changes. */
  function ConnectStep(s: LobbySnapshot): (r: Step)
    ensures r.next == s && r.out == [Broadcast(StateMessage(s))]
  {
    Changed(s)
  }

  /** `lobby:host`: the first caller takes the host seat; later calls are ignored while a host exists. */
  function HostStep(s: LobbySnapshot, conn: ConnId, name: Option<string>): (r: Step)
    ensures s.host.Some? ==> r == Step(s, [])
    ensures s.host.None? ==>
      && r.next.host == Some(PlayerSlot(conn, TrimmedOr(name, "Host"), None, None))
      && r.next.guest == s.guest && !r.next.started
      && r.out == Announce(r.next)
    ensures r.next.code == s.code
    ensures Inv(s) ==> Inv(r.next)
    ensures s.host.None? ==> RoleOf(r.next, Some(conn)) == Some(HostRole)
  {
    if s.host.Some? then Step(s, [])
    else Changed(s.(host := Some(PlayerSlot(conn, TrimmedOr(name, "Host"), None, None)), started := false))
  }

  /** The name a join asks for before trimming: a bare string as is, else the payload's name or "Guest". */
  function JoinName(p: JoinPayload): string {
    match p
    case BareName(n) => n
    case WithCode(n, _) => if Truthy(n) then n.value else "Guest"
    case NoPayload => "Guest"
  }

  /** The code a join carries: none for a bare string or a missing payload. */
  function JoinCode(p: JoinPayload): Option<string> {
    match p
    case BareName(_) => None
    case WithCode(_, c) => c
    case NoPayload => None
  }

  /** A join code that is present and non-empty but not this lobby's. */
  predicate WrongCode(s: LobbySnapshot, p: JoinPayload) {
    Truthy(JoinCode(p)) && JoinCode(p).value != s.code
  }

  /**
   * `lobby:join`: without a host, or with the guest seat taken, nothing
   * happens and nobody is told. A wrong code is reported to the caller alone.
   * Otherwise the caller takes the guest seat.
   */
  function JoinStep(s: LobbySnapshot, conn: ConnId, p: JoinPayload): (r: Step)
    ensures s.host.None? || s.guest.Some? ==> r == Step(s, [])
    ensures s.host.Some? && s.guest.None? && WrongCode(s, p) ==>
      r == Step(s, [ToCaller(conn, JoinErrorMessage("Invalid join code"))])
    ensures s.host.Some? && s.guest.None? && !WrongCode(s, p) ==>
      && r.next.guest == Some(PlayerSlot(conn, TrimmedOr(Some(JoinName(p)), "Guest"), None, None))
      && r.next.host == s.host && r.next.started == s.started
      && r.out == Announce(r.next)
    ensures r.next.code == s.code
    ensures Inv(s) ==> Inv(r.next)
  {
    if s.host.None? || s.guest.Some? then Step(s, [])
    else if WrongCode(s, p) then Step(s, [ToCaller(conn, JoinErrorMessage("Invalid join code"))])
    else Changed(s.(guest := Some(PlayerSlot(conn, TrimmedOr(Some(JoinName(p)), "Guest"), None, None))))
  }

  /** `lobby:setName`: the caller's own seat gets the trimmed name; a blank name keeps the old one. */
  function SetNameStep(s: LobbySnapshot, conn: ConnId, name: Option<string>): (r: Step)
    ensures RoleOf(s, Some(conn)).None? ==> r == Step(s, [])
    ensures RoleOf(s, Some(conn)) == Some(HostRole) ==>
      && r.next.host == Some(s.host.value.(name := TrimmedOr(name, s.host.value.name)))
      && r.next.guest == s.guest && r.out == Announce(r.next)
    ensures RoleOf(s, Some(conn)) == Some(GuestRole) ==>
      && r.next.guest == Some(s.guest.value.(name := TrimmedOr(name, s.guest.value.name)))
      && r.next.host == s.host && r.out == Announce(r.next)
    ensures r.next.started == s.started && r.next.code == s.code
    ensures Inv(s) ==> Inv(r.next)
  {
    match RoleOf(s, Some(conn))
    case None => Step(s, [])
    case Some(role) =>
      var who := SlotOf(s, role).value;
      Changed(WithSlot(s, role, who.(name := TrimmedOr(name, who.name))))
  }

  /** `lobby:setFaction`: the caller's seat gets the faction (a falsy one becomes `null`) and loses its deck. */
  function SetFactionStep(s: LobbySnapshot, conn: ConnId, faction: Option<string>): (r: Step)
    ensures RoleOf(s, Some(conn)).None? ==> r == Step(s, [])
    ensures RoleOf(s, Some(conn)) == Some(HostRole) ==>
      && r.next.host == Some(s.host.value.(faction := OrNull(faction), deckId := None))
      && r.next.guest == s.guest && r.out == Announce(r.next)
    ensures RoleOf(s, Some(conn)) == Some(GuestRole) ==>
      && r.next.guest == Some(s.guest.value.(faction := OrNull(faction), deckId := None))
      && r.next.host == s.host && r.out == Announce(r.next)
    ensures r.next.started == s.started && r.next.code == s.code
    ensures Inv(s) ==> Inv(r.next)
  {
    match RoleOf(s, Some(conn))
    case None => Step(s, [])
    case Some(role) =>
      var who := SlotOf(s, role).value;
      Changed(WithSlot(s, role, who.(faction := OrNull(faction), deckId := None)))
  }

  /** `lobby:setDeck`: the caller's seat gets the deck id (a falsy one becomes `null`). */
  function SetDeckStep(s: LobbySnapshot, conn: ConnId, deckId: Option<string>): (r: Step)
    ensures RoleOf(s, Some(conn)).None? ==> r == Step(s, [])
    ensures RoleOf(s, Some(conn)) == Some(HostRole) ==>
      && r.next.host == Some(s.host.value.(deckId := OrNull(deckId)))
      && r.next.guest == s.guest && r.out == Announce(r.next)
    ensures RoleOf(s, Some(conn)) == Some(GuestRole) ==>
      && r.next.guest == Some(s.guest.value.(deckId := OrNull(deckId)))
      && r.next.host == s.host && r.out == Announce(r.next)
    ensures r.next.started == s.started && r.next.code == s.code
    ensures Inv(s) ==> Inv(r.next)
  {
    match RoleOf(s, Some(conn))
    case None => Step(s, [])
    case Some(role) =>
      var who := SlotOf(s, role).value;
      Changed(WithSlot(s, role, who.(deckId := OrNull(deckId))))
  }

  /** The lobby once `conn` has gone: a departing host empties both seats and stops the game. */
  function Vacate(s: LobbySnapshot, conn: ConnId): (r: LobbySnapshot)
    ensures RoleOf(s, Some(conn)) == Some(HostRole) ==> r == s.(host := None, guest := None, started := false)
    ensures RoleOf(s, Some(conn)) == Some(GuestRole) ==> r == s.(guest := None)
    ensures RoleOf(s, Some(conn)).None? ==> r == s
    ensures Inv(s) ==> Inv(r)
  {
    match RoleOf(s, Some(conn))
    case Some(HostRole) => s.(host := None, guest := None, started := false)
    case Some(GuestRole) => s.(guest := None)
    case None => s
  }

  /** `lobby:leave`: a seated caller is removed and the lobby announced; anyone else changes nothing and hears nothing. */
  function LeaveStep(s: LobbySnapshot, conn: ConnId): (r: Step)
    ensures r.next == Vacate(s, conn)
    ensures r.out == if RoleOf(s, Some(conn)).None? then [] else Announce(r.next)
    ensures RoleOf(r.next, Some(conn)).None?
  {
    if RoleOf(s, Some(conn)).None? then Step(s, []) else Changed(Vacate(s, conn))
  }

  /** `disconnect`: seats are vacated as on leave, and the snapshot is announced in every case. */
  function DisconnectStep(s: LobbySnapshot, conn: ConnId): (r: Step)
    ensures r.next == Vacate(s, conn) && r.out == Announce(r.next)
    ensures RoleOf(r.next, Some(conn)).None?
  {
    Changed(Vacate(s, conn))
  }

  /** Whether a start request from `conn` is honoured: the host asks, and both seats have a deck. */
  predicate CanStartFrom(s: LobbySnapshot, conn: ConnId) {
    && s.host.Some? && s.host.value.socketId == conn
    && Truthy(s.host.value.deckId)
    && s.guest.Some? && Truthy(s.guest.value.deckId)
  }

  /**
   * `lobby:startRequest`: when honoured, the game is marked started, the
   * snapshot is announced and then `lobby:started` carries both deck ids;
   * otherwise nothing happens.
   */
  function StartStep(s: LobbySnapshot, conn: ConnId): (r: Step)
    ensures !CanStartFrom(s, conn) ==> r == Step(s, [])
    ensures CanStartFrom(s, conn) ==>
      && r.next == s.(started := true)
      && r.out == Announce(r.next) + [Broadcast(StartedMessage(s.host.value.deckId.value, s.guest.value.deckId.value))]
    ensures Inv(s) ==> Inv(r.next)
  {
    if !CanStartFrom(s, conn) then Step(s, [])
    else
      var next := s.(started := true);
      Step(next, Announce(next) + [Broadcast(StartedMessage(s.host.value.deckId.value, s.guest.value.deckId.value))])
  }

  /** One client event, from connection `conn`. */
  function EventStep(s: LobbySnapshot, conn: ConnId, e: ClientEvent): Step {
    match e
    case HostEvent(name) => HostStep(s, conn, name)
    case JoinEvent(p) => JoinStep(s, conn, p)
    case SetNameEvent(name) => SetNameStep(s, conn, name)
    case SetFactionEvent(f) => SetFactionStep(s, conn, f)
    case SetDeckEvent(d) => SetDeckStep(s, conn, d)
    case LeaveEvent => LeaveStep(s, conn)
    case StartRequestEvent => StartStep(s, conn)
  }

  /** What the transport hands the host process: a connection opens, sends an event, or drops. */
  datatype Input = Opened(conn: ConnId) | Sent(conn: ConnId, event: ClientEvent) | Dropped(conn: ConnId)

  function InputStep(s: LobbySnapshot, i: Input): Step {
    match i
    case Opened(_) => ConnectStep(s)
    case Sent(conn, e) => EventStep(s, conn, e)
    case Dropped(conn) => DisconnectStep(s, conn)
  }

  /** The lobby after handling `inputs` one at a time, and everything sent on the way. */
  function Run(s: LobbySnapshot, inputs: seq<Input>): Step
    decreases |inputs|
  {
    if inputs == [] then Step(s, [])
    else
      var first := InputStep(s, inputs[0]);
      var rest := Run(first.next, inputs[1..]);
      Step(rest.next, first.out + rest.out)
  }

  /** Every single handler keeps the invariants and the join code. */
  lemma InputStepKeeps(s: LobbySnapshot, i: Input)
    requires Inv(s)
    ensures Inv(InputStep(s, i).next) && InputStep(s, i).next.code == s.code
  {
    match i
    case Opened(_) =>
    case Sent(conn, e) =>
      if e.LeaveEvent? {
        assert Vacate(s, conn).code == s.code;
      }
    case Dropped(conn) => assert Vacate(s, conn).code == s.code;
  }

  /** Across any sequence of connections, events and drops, the invariants hold and the code never changes. */
  lemma {:induction false} RunKeeps(s: LobbySnapshot, inputs: seq<Input>)
    requires Inv(s)
    ensures Inv(Run(s, inputs).next) && Run(s, inputs).next.code == s.code
    decreases |inputs|
  {
    if inputs != [] {
      InputStepKeeps(s, inputs[0]);
      RunKeeps(InputStep(s, inputs[0]).next, inputs[1..]);
    }
  }

  /** Every snapshot the lobby ever announces satisfies the invariants. */
  lemma {:induction false} RunAnnouncesOnlyValid(s: LobbySnapshot, inputs: seq<Input>)
    requires Inv(s)
    ensures forall k :: 0 <= k < |Run(s, inputs).out| && Run(s, inputs).out[k].message.StateMessage? ==>
      Inv(Run(s, inputs).out[k].message.state)
    decreases |inputs|
  {
    if inputs != [] {
      var first := InputStep(s, inputs[0]);
      InputStepKeeps(s, inputs[0]);
      RunAnnouncesOnlyValid(first.next, inputs[1..]);
      var rest := Run(first.next, inputs[1..]);
      assert Run(s, inputs).out == first.out + rest.out;
      forall k | 0 <= k < |first.out| && first.out[k].message.StateMessage?
        ensures Inv(first.out[k].message.state)
      {
        match inputs[0]
        case Opened(_) =>
        case Sent(conn, e) =>
        case Dropped(conn) =>
      }
    }
  }

  /**
   * `confirmDeck` sends the faction before the deck. In that order the seat
   * ends with both; the other order would lose the deck, because choosing a
   * faction clears it.
   */
  lemma FactionThenDeck(s: LobbySnapshot, conn: ConnId, faction: Option<string>, deckId: Option<string>)
    requires RoleOf(s, Some(conn)).Some?
    ensures var role := RoleOf(s, Some(conn)).value;
      var after := SetDeckStep(SetFactionStep(s, conn, faction).next, conn, deckId).next;
      SlotOf(after, role).Some? && SlotOf(after, role).value.faction == OrNull(faction)
      && SlotOf(after, role).value.deckId == OrNull(deckId)
    ensures var role := RoleOf(s, Some(conn)).value;
      var after := SetFactionStep(SetDeckStep(s, conn, deckId).next, conn, faction).next;
      SlotOf(after, role).Some? && SlotOf(after, role).value.deckId.None?
  {
    var role := RoleOf(s, Some(conn)).value;
    var s1 := SetFactionStep(s, conn, faction).next;
    assert RoleOf(s1, Some(conn)) == Some(role);
    var s2 := SetDeckStep(s, conn, deckId).next;
    assert RoleOf(s2, Some(conn)) == Some(role);
  }

  /** A guest that joins through the older client (a bare name) is seated when the lobby has a host and room. */
  lemma BareNameJoinSeats(s: LobbySnapshot, conn: ConnId, name: string)
    requires s.host.Some? && s.guest.None? && s.host.value.socketId != conn
    ensures RoleOf(JoinStep(s, conn, BareName(name)).next, Some(conn)) == Some(GuestRole)
  {
  }

  /**
   * A started game is not stopped when the guest leaves, nor when a seat
   * picks another faction, so "started" does not imply that both seats hold
   * a deck.
   */
  lemma StartedOutlivesGuest(s: LobbySnapshot, conn: ConnId)
    requires Inv(s) && s.started && s.guest.Some? && s.guest.value.socketId == conn
    requires s.host.value.socketId != conn
    ensures LeaveStep(s, conn).next.started && LeaveStep(s, conn).next.guest.None?
  {
  }

  /** The host process's lobby record, updated in place by the socket handlers. */
  class Lobby {
    var host: Option<PlayerSlot>
    var guest: Option<PlayerSlot>
    var started: bool
    const code: string
    /** Everything sent so far, in order. */
    var outbox: seq<Delivery>

    ghost predicate Valid()
      reads this
    {
      Inv(Snapshot())
    }

    /** `buildState()`. */
    function Snapshot(): LobbySnapshot
      reads this
    {
      LobbySnapshot(host, guest, started, code)
    }

    /** The code is drawn once at start-up; the draw is outside the model. */
    constructor (code: string)
      ensures Valid() && Snapshot() == Initial(code) && outbox == []
    {
      host, guest, started := None, None, false;
      this.code := code;
      outbox := [];
    }

    method OnConnection()
      requires Valid()
      modifies this
      ensures Valid() && Snapshot() == old(Snapshot()) && outbox == old(outbox) + Announce(Snapshot())
    {
      outbox := outbox + Announce(Snapshot());
    }

    method OnHost(conn: ConnId, name: Option<string>)
      requires Valid()
      modifies this
      ensures Valid()
      ensures Snapshot() == HostStep(old(Snapshot()), conn, name).next
      ensures outbox == old(outbox) + HostStep(old(Snapshot()), conn, name).out
    {
      if host.Some? {
        return;
      }
      host := Some(PlayerSlot(conn, TrimmedOr(name, "Host"), None, None));
      started := false;
      outbox := outbox + Announce(Snapshot());
    }

    method OnJoin(conn: ConnId, payload: JoinPayload)
      requires Valid()
      modifies this
      ensures Valid()
      ensures Snapshot() == JoinStep(old(Snapshot()), conn, payload).next
      ensures outbox == old(outbox) + JoinStep(old(Snapshot()), conn, payload).out
    {
      var name := JoinName(payload);
      var joinCode := JoinCode(payload);
      if host.None? || guest.Some? {
        return;
      }
      if Truthy(joinCode) && joinCode.value != code {
        outbox := outbox + [ToCaller(conn, JoinErrorMessage("Invalid join code"))];
        return;
      }
      guest := Some(PlayerSlot(conn, TrimmedOr(Some(name), "Guest"), None, None));
      outbox := outbox + Announce(Snapshot());
    }

    /** The caller's seat, host first. */
    function Who(conn: ConnId): (r: Option<Role>)
      reads this
      ensures r == RoleOf(Snapshot(), Some(conn))
    {
      if host.Some? && host.value.socketId == conn then Some(HostRole)
      else if guest.Some? && guest.value.socketId == conn then Some(GuestRole)
      else None
    }

    /** Writes the caller's seat back after it was changed. */
    method Seat(role: Role, slot: PlayerSlot)
      modifies this
      ensures Snapshot() == WithSlot(old(Snapshot()), role, slot) && outbox == old(outbox)
    {
      match role
      case HostRole => host := Some(slot);
      case GuestRole => guest := Some(slot);
    }

    method OnSetName(conn: ConnId, name: Option<string>)
      requires Valid()
      modifies this
      ensures Valid()
      ensures Snapshot() == SetNameStep(old(Snapshot()), conn, name).next
      ensures outbox == old(outbox) + SetNameStep(old(Snapshot()), conn, name).out
    {
      var role := Who(conn);
      if role.None? {
        return;
      }
      var who := SlotOf(Snapshot(), role.value).value;
      Seat(role.value, who.(name := TrimmedOr(name, who.name)));
      outbox := outbox + Announce(Snapshot());
    }

    method OnSetFaction(conn: ConnId, faction: Option<string>)
      requires Valid()
      modifies this
      ensures Valid()
      ensures Snapshot() == SetFactionStep(old(Snapshot()), conn, faction).next
      ensures outbox == old(outbox) + SetFactionStep(old(Snapshot()), conn, faction).out
    {
      var role := Who(conn);
      if role.None? {
        return;
      }
      var who := SlotOf(Snapshot(), role.value).value;
      Seat(role.value, who.(faction := OrNull(faction), deckId := None));
      outbox := outbox + Announce(Snapshot());
    }

    method OnSetDeck(conn: ConnId, deckId: Option<string>)
      requires Valid()
      modifies this
      ensures Valid()
      ensures Snapshot() == SetDeckStep(old(Snapshot()), conn, deckId).next
      ensures outbox == old(outbox) + SetDeckStep(old(Snapshot()), conn, deckId).out
    {
      var role := Who(conn);
      if role.None? {
        return;
      }
      var who := SlotOf(Snapshot(), role.value).value;
      Seat(role.value, who.(deckId := OrNull(deckId)));
      outbox := outbox + Announce(Snapshot());
    }

    method OnLeave(conn: ConnId)
      requires Valid()
      modifies this
      ensures Valid()
      ensures Snapshot() == LeaveStep(old(Snapshot()), conn).next
      ensures outbox == old(outbox) + LeaveStep(old(Snapshot()), conn).out
    {
      if host.Some? && host.value.socketId == conn {
        host, guest, started := None, None, false;
        outbox := outbox + Announce(Snapshot());
        return;
      }
      if guest.Some? && guest.value.socketId == conn {
        guest := None;
        outbox := outbox + Announce(Snapshot());
      }
    }

    method OnStartRequest(conn: ConnId)
      requires Valid()
      modifies this
      ensures Valid()
      ensures Snapshot() == StartStep(old(Snapshot()), conn).next
      ensures outbox == old(outbox) + StartStep(old(Snapshot()), conn).out
    {
      if host.None? || host.value.socketId != conn {
        return;
      }
      if !Truthy(host.value.deckId) || guest.None? || !Truthy(guest.value.deckId) {
        return;
      }
      started := true;
      outbox := outbox + Announce(Snapshot());
      outbox := outbox + [Broadcast(StartedMessage(host.value.deckId.value, guest.value.deckId.value))];
    }

    method OnDisconnect(conn: ConnId)
      requires Valid()
      modifies this
      ensures Valid()
      ensures Snapshot() == DisconnectStep(old(Snapshot()), conn).next
      ensures outbox == old(outbox) + DisconnectStep(old(Snapshot()), conn).out
    {
      if host.Some? && host.value.socketId == conn {
        host, guest, started := None, None, false;
      } else if guest.Some? && guest.value.socketId == conn {
        guest := None;
      }
      outbox := outbox + Announce(Snapshot());
    }
  }
}
