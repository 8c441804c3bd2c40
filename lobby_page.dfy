/**
 * The lobby screen's decisions: which saved name to resend, whether the
 * start button is live, what picking a deck sends, and the one-shot attempt
 * to take the saved seat back after a page reload. Each is a function of
 * what the screen has observed; what it sends is returned, not performed.
 */
module LobbyPage {
  import opened Wrappers
  import opened JsStrings
  import opened Protocol
  import LobbyServer

  /**
   * The name-sync effect: once the screen knows its seat and a saved name
   * exists, the saved name is resent when it differs from that seat's name.
   * The other seat is never looked at.
   */
  function NameToSync(meRole: Option<Role>, s: LobbySnapshot, saved: Option<string>): (send: Option<string>)
    ensures send.Some? ==> Truthy(saved) && send == saved
    ensures send.Some? <==>
      meRole.Some? && Truthy(saved) && SlotOf(s, meRole.value).Some? && SlotOf(s, meRole.value).value.name != saved.value
  {
    if meRole.None? || !Truthy(saved) then None
    else
      match meRole.value
      case HostRole => if s.host.Some? && s.host.value.name != saved.value then saved else None
      case GuestRole => if s.guest.Some? && s.guest.value.name != saved.value then saved else None
  }

  /** The sync depends on the screen's own seat only. */
  lemma NameToSyncIgnoresOtherSeat(role: Role, s: LobbySnapshot, other: Option<PlayerSlot>, saved: Option<string>)
    ensures role == HostRole ==> NameToSync(Some(role), s.(guest := other), saved) == NameToSync(Some(role), s, saved)
    ensures role == GuestRole ==> NameToSync(Some(role), s.(host := other), saved) == NameToSync(Some(role), s, saved)
  {
  }

  /**
   * Once the host process has applied a resent name that is already trimmed,
   * the effect has nothing more to send: the exchange settles after one round.
   */
  lemma {:induction false} NameSyncSettles(s: LobbySnapshot, me: ConnId, saved: string)
    requires RoleOf(s, Some(me)).Some?
    requires saved != "" && Trim(saved) == saved
    ensures var role := RoleOf(s, Some(me));
      var after := LobbyServer.SetNameStep(s, me, Some(saved)).next;
      RoleOf(after, Some(me)) == role && NameToSync(role, after, Some(saved)).None?
  {
    var role := RoleOf(s, Some(me));
    var after := LobbyServer.SetNameStep(s, me, Some(saved)).next;
    assert TrimmedOr(Some(saved), SlotOf(s, role.value).value.name) == saved;
    assert SlotOf(after, role.value).value.name == saved;
  }

  /**
   * The start button: the host's screen, both seats holding a deck, and a
   * game not yet started. A guest's screen never shows it, and a snapshot
   * that shows it is one the host process can be in.
   */
  function CanStart(meRole: Option<Role>, s: LobbySnapshot): (live: bool)
    ensures meRole != Some(HostRole) ==> !live
    ensures live ==> s.host.Some? && s.guest.Some? && !s.started && LobbyServer.Inv(s)
  {
    && meRole == Some(HostRole)
    && s.host.Some? && Truthy(s.host.value.deckId)
    && s.guest.Some? && Truthy(s.guest.value.deckId)
    && !s.started
  }

  /** When the button is live for the screen whose id is `me`, the host process honours the request and starts the game. */
  lemma {:induction false} CanStartIsHonoured(s: LobbySnapshot, me: ConnId)
    requires CanStart(RoleOf(s, Some(me)), s)
    ensures LobbyServer.CanStartFrom(s, me)
    ensures LobbyServer.StartStep(s, me).next.started
  {
    assert s.host.value.socketId == me;
  }

  /**
   * `confirmDeck`: nothing unless the screen is choosing for its own seat;
   * otherwise the faction is sent first and the deck second.
   */
  function ConfirmDeck(meRole: Option<Role>, selectingFor: Option<Role>, tempFaction: Option<string>, deckId: string): (events: seq<ClientEvent>)
    ensures meRole.None? || meRole != selectingFor ==> events == []
    ensures meRole.Some? && meRole == selectingFor ==> events == [SetFactionEvent(tempFaction), SetDeckEvent(Some(deckId))]
  {
    if meRole.None? || meRole != selectingFor then []
    else [SetFactionEvent(tempFaction), SetDeckEvent(Some(deckId))]
  }

  /** Delivered in order, the two events of `confirmDeck` leave the seat with the chosen faction and the chosen deck. */
  lemma {:induction false} ConfirmDeckSeats(s: LobbySnapshot, me: ConnId, tempFaction: Option<string>, deckId: string)
    requires RoleOf(s, Some(me)).Some? && deckId != ""
    ensures var role := RoleOf(s, Some(me));
      var events := ConfirmDeck(role, role, tempFaction, deckId);
      var s1 := LobbyServer.EventStep(s, me, events[0]).next;
      var s2 := LobbyServer.EventStep(s1, me, events[1]).next;
      SlotOf(s2, role.value).Some? && SlotOf(s2, role.value).value.faction == OrNull(tempFaction)
      && SlotOf(s2, role.value).value.deckId == Some(deckId)
  {
    LobbyServer.FactionThenDeck(s, me, tempFaction, Some(deckId));
  }

  /** What the resumption effect queues to run once the socket is connected. */
  datatype Resume = Nothing | QueueHost(name: string) | QueueJoin(name: string)

  /** What one run of the resumption effect observed. */
  datatype ResumeView = ResumeView(
    myId: Option<ConnId>,
    meRole: Option<Role>,
    savedRole: Option<string>,
    savedName: Option<string>,
    hostEmittedMarker: Option<string>,
    state: LobbySnapshot)

  /** Whether the effect gets past its early returns. */
  predicate Evaluates(reattempted: bool, v: ResumeView) {
    !reattempted && Truthy(v.myId) && v.meRole.None?
  }

  /**
   * One run of the resumption effect, returning what it queues and the new
   * `reattempted` flag. A screen that saved the host role and sees no host
   * (and no marker of an earlier host request) asks to host again; one that
   * saved the guest role and sees a host with a free guest seat asks to join
   * again, without a code. Every run that gets past the early returns raises
   * the flag, whatever it decides.
   */
  function ResumeStep(reattempted: bool, v: ResumeView): (r: (Resume, bool))
    ensures !Evaluates(reattempted, v) ==> r == (Nothing, reattempted)
    ensures Evaluates(reattempted, v) ==> r.1
    ensures r.0.QueueHost? <==>
      Evaluates(reattempted, v) && v.savedRole == Some("host") && v.state.host.None? && !Truthy(v.hostEmittedMarker)
    ensures r.0.QueueJoin? <==>
      && Evaluates(reattempted, v) && !r.0.QueueHost?
      && v.savedRole == Some("guest") && v.state.host.Some? && v.state.guest.None?
    ensures r.0.QueueHost? ==> r.0.name == (if Truthy(v.savedName) then v.savedName.value else "Host")
    ensures r.0.QueueJoin? ==> r.0.name == (if Truthy(v.savedName) then v.savedName.value else "Guest")
  {
    if reattempted then (Nothing, reattempted)
    else if !Truthy(v.myId) || v.meRole.Some? then (Nothing, reattempted)
    else
      var name := if Truthy(v.savedName) then v.savedName.value else "";
      if v.savedRole == Some("host") && v.state.host.None? && !Truthy(v.hostEmittedMarker) then
        (QueueHost(if name != "" then name else "Host"), true)
      else if v.savedRole == Some("guest") && v.state.host.Some? && v.state.guest.None? then
        (QueueJoin(if name != "" then name else "Guest"), true)
      else
        (Nothing, true)
  }

  /** What the effect queues over a series of runs, starting from the flag `reattempted`. */
  function Resumptions(reattempted: bool, views: seq<ResumeView>): seq<Resume>
    decreases |views|
  {
    if views == [] then []
    else
      var (action, flag) := ResumeStep(reattempted, views[0]);
      (if action == Nothing then [] else [action]) + Resumptions(flag, views[1..])
  }

  /** However often the effect runs, it queues at most one host or join request, and none once the flag is up. */
  lemma {:induction false} ResumesAtMostOnce(reattempted: bool, views: seq<ResumeView>)
    ensures |Resumptions(reattempted, views)| <= 1
    ensures reattempted ==> Resumptions(reattempted, views) == []
    decreases |views|
  {
    if views != [] {
      var (action, flag) := ResumeStep(reattempted, views[0]);
      ResumesAtMostOnce(flag, views[1..]);
      if action != Nothing {
        assert flag;
      }
    }
  }

  /** What `leave` does, in order. */
  datatype PageEffect = RemoveStored(key: string) | Send(event: ClientEvent) | Navigate(path: string)

  /** Forgets the saved role, tells the host process, and returns to the start screen. */
  function Leave(): (effects: seq<PageEffect>)
    ensures |effects| == 3 && effects[0] == RemoveStored("astralia.role")
    ensures effects[1] == Send(LeaveEvent) && effects[2] == Navigate("/")
  {
    [RemoveStored("astralia.role"), Send(LeaveEvent), Navigate("/")]
  }

  /** The value stored under `key` once `effects` have run, starting from `stored`. */
  function StoredAfter(effects: seq<PageEffect>, key: string, stored: Option<string>): Option<string>
    decreases |effects|
  {
    if effects == [] then stored
    else StoredAfter(effects[1..], key, if effects[0] == RemoveStored(key) then None else stored)
  }

  /** After `leave` has run, whatever role was saved before, a later reload queues nothing. */
  lemma LeaveStopsResumption(reattempted: bool, v: ResumeView)
    ensures var after := StoredAfter(Leave(), "astralia.role", v.savedRole);
      after.None? && ResumeStep(reattempted, v.(savedRole := after)).0 == Nothing
  {
  }
}
