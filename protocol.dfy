/**
 * The lobby's wire vocabulary, shared by the host process and the clients:
 * the snapshot broadcast as `lobby:state`, the events a client emits, and the
 * rule that tells which slot, if any, a connection occupies.
 */
module Protocol {
  import opened Wrappers
  import opened JsStrings

  /** A Socket.IO connection id. */
  type ConnId = string

  /** One seat of the lobby (`LobbyPlayerState`); `null` fields are `None`. */
  datatype PlayerSlot = PlayerSlot(socketId: ConnId, name: string, deckId: Option<string>, faction: Option<string>)

  /** The `lobby:state` payload (`buildState`). */
  datatype LobbySnapshot = LobbySnapshot(host: Option<PlayerSlot>, guest: Option<PlayerSlot>, started: bool, code: string)

  /** The two seats; "no role" is `None` of `Option<Role>`. */
  datatype Role = HostRole | GuestRole

  /** The seat that `role` names in `s`. */
  function SlotOf(s: LobbySnapshot, role: Role): Option<PlayerSlot> {
    match role
    case HostRole => s.host
    case GuestRole => s.guest
  }

  /** `s` with the seat that `role` names replaced by `slot`. */
  function WithSlot(s: LobbySnapshot, role: Role, slot: PlayerSlot): (r: LobbySnapshot)
    ensures SlotOf(r, role) == Some(slot)
    ensures role == HostRole ==> r.guest == s.guest
    ensures role == GuestRole ==> r.host == s.host
    ensures r.started == s.started && r.code == s.code
  {
    match role
    case HostRole => s.(host := Some(slot))
    case GuestRole => s.(guest := Some(slot))
  }

  /**
   * Which seat the connection `me` holds: the host seat is checked first, then
   * the guest seat; an unknown id (`null`) holds none, since seat ids are strings.
   */
  function RoleOf(s: LobbySnapshot, me: Option<ConnId>): (r: Option<Role>)
    ensures r == Some(HostRole) <==> s.host.Some? && me == Some(s.host.value.socketId)
    ensures r == Some(GuestRole) <==> r != Some(HostRole) && s.guest.Some? && me == Some(s.guest.value.socketId)
    ensures me.None? ==> r.None?
    ensures r.Some? ==> SlotOf(s, r.value).Some? && me == Some(SlotOf(s, r.value).value.socketId)
  {
    if s.host.Some? && me == Some(s.host.value.socketId) then Some(HostRole)
    else if s.guest.Some? && me == Some(s.guest.value.socketId) then Some(GuestRole)
    else None
  }

  /** `name?.trim() || fallback`: the trimmed name unless it is missing or blank. */
  function TrimmedOr(name: Option<string>, fallback: string): (r: string)
    ensures name.Some? && Trim(name.value) != "" ==> r == Trim(name.value)
    ensures !(name.Some? && Trim(name.value) != "") ==> r == fallback
    ensures fallback != "" ==> r != ""
  {
    if name.Some? && Trim(name.value) != "" then Trim(name.value) else fallback
  }

  /**
   * The payload of `lobby:join`: a bare name (the older client), an object
   * `{ name, code }` whose fields may be missing or `null`, or nothing at all.
   */
  datatype JoinPayload = BareName(bare: string) | WithCode(name: Option<string>, code: Option<string>) | NoPayload

  /** What a client emits to the host process. */
  datatype ClientEvent =
    | HostEvent(name: Option<string>)
    | JoinEvent(payload: JoinPayload)
    | SetNameEvent(name: Option<string>)
    | SetFactionEvent(faction: Option<string>)
    | SetDeckEvent(deckId: Option<string>)
    | LeaveEvent
    | StartRequestEvent
}
