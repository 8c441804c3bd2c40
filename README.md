# Astralia lobby and playmat, in Dafny

This project models the session layer and the card-table logic of the
Astralia card game.

- **The lobby of the desktop host process.** It keeps one record: a host seat, a guest seat, a started flag and a join code. The record changes when clients send socket events, and every change is broadcast as a full snapshot.
- **The two client connection wrappers.** The current one has a one-shot guard on `lobby:host`, a choice of server, and join-error listeners. The older one has neither the guard, the choice nor the error listeners.
- **The lobby screen.** This covers the seat a screen holds, the resending of the saved player name, the start button, the deck confirmation, and the one-shot attempt to take the saved seat back after a reload.
- **The playmat's card zones.** These are the hand, the deck, the graveyard and the persona pile. The moves are shuffle, deck expansion, draw, peep, find, persona draw, mulligan and the opening hand.
- **The deck dialog, the mulligan dialog and the filter bar** of the card lists.
- **The saved deck list and its share format.**
- **The card lookups of the older client.**

Imperative code stays imperative:

- the lobby record is the class `LobbyServer.Lobby`;
- each connection wrapper is a class `Connection`;
- the deck dialog's state is `DeckActionModal.DeckDialog`;
- the saved decks are `DeckService.DeckStore`.

`shuffleArray`, the filter-value pass and `genId` are methods with loops.

Each lobby handler is also a pure step over snapshots (`LobbyServer.HostStep` and the others). Each method of `Lobby` is proved to equal its step, and the invariants of the lobby are proved about the steps:

- a guest is seated only with a host;
- a game is started only with a host;
- the code never changes.

The connection wrappers keep a log of what they do: events emitted, callbacks run, sockets opened and closed. Their class invariant bounds the number of `lobby:host` emissions since the last closed socket.

Where the lobby's design and its code differ, the model follows the code:

- **Joining.** A join with no host, or with the guest seat taken, is a silent return and not an error to the caller. Only a wrong join code is reported, to the caller alone.
- **No tunnel and no registry.** The code has neither a tunnel nor a registry server, so neither is modelled.
- **Started without decks.** The design says a started game always has both decks. The code does not keep this: a guest leaving, or a seat choosing another faction, leaves `started` set. `LobbyServer.StartedOutlivesGuest` states this.

## Model

| member | source | states |
|---|---|---|
| LobbyServer.Initial | electron.js:16-21 | the lobby starts with both seats empty, not started, with the drawn code, and satisfies the invariants |
| LobbyServer.ConnectStep | electron.js:141 | a new connection changes nothing and the current snapshot is broadcast |
| LobbyServer.HostStep | electron.js:61-66 | with a host already seated nothing changes and nothing is sent; otherwise the caller holds the host seat with the trimmed name or "Host", no deck and no faction, `started` is false, and the snapshot is broadcast; the code is kept and the invariants are preserved |
| LobbyServer.JoinStep | electron.js:68-83 | with no host or a taken guest seat, a silent no-op; a non-empty code that differs from the lobby's sends `lobby:joinError` "Invalid join code" to the caller alone and changes nothing; otherwise the caller takes the guest seat with the trimmed name or "Guest" and the snapshot is broadcast; a bare string is a name without a code |
| LobbyServer.SetNameStep | electron.js:85-90 | only the caller's own seat (host checked first) gets the trimmed name, and a blank name keeps the old one; non-members change nothing and hear nothing; the other seat, `started` and the code are untouched |
| LobbyServer.SetFactionStep | electron.js:92-98 | the caller's seat gets the faction (falsy becomes null) and always loses its deck; other seats and non-members as for setName |
| LobbyServer.SetDeckStep | electron.js:100-105 | the caller's seat gets the deck id (falsy becomes null); other seats and non-members as for setName |
| LobbyServer.Vacate | electron.js:107-119 | a departing host empties both seats and clears `started`; a departing guest empties only the guest seat; anyone else changes nothing |
| LobbyServer.LeaveStep | electron.js:107-119 | leave vacates as above, broadcasts only when the caller held a seat, and the caller holds no seat afterwards |
| LobbyServer.DisconnectStep | electron.js:129-139 | disconnect vacates as leave does but broadcasts in every case |
| LobbyServer.StartStep | electron.js:121-127 | only a request from the host with both deck ids present changes anything: `started` is set, the snapshot is broadcast, then `lobby:started` carries both deck ids |
| LobbyServer.InputStepKeeps | electron.js:58-141 | every handler keeps `guest != null ⇒ host != null`, `host == null ⇒ !started` and the code |
| LobbyServer.RunKeeps | electron.js:16-141 | over any sequence of connections, events and disconnects the invariants hold and the code never changes after start-up |
| LobbyServer.RunAnnouncesOnlyValid | electron.js:28-39 | every snapshot ever broadcast satisfies the invariants |
| LobbyServer.FactionThenDeck | electron.js:92-105 | faction then deck leaves the seat with both; deck then faction loses the deck |
| LobbyServer.BareNameJoinSeats | electron.js:68-83 | a bare-name join from the older client is seated when there is a host and room |
| LobbyServer.StartedOutlivesGuest | electron.js:115-117 | a guest leaving a started game leaves `started` set with the guest seat empty |
| LobbyServer.Lobby.constructor | electron.js:16-21 | the record starts as `Initial(code)` with nothing sent |
| LobbyServer.Lobby.OnConnection | electron.js:141 | the record is unchanged and the snapshot is appended to what was sent |
| LobbyServer.Lobby.OnHost | electron.js:61-66 | the record becomes `HostStep`'s lobby and its messages are appended, in place |
| LobbyServer.Lobby.OnJoin | electron.js:68-83 | the record and the messages follow `JoinStep` |
| LobbyServer.Lobby.Who | electron.js:86 | the caller's seat, host first, is `RoleOf` the snapshot |
| LobbyServer.Lobby.OnSetName | electron.js:85-90 | the record and the messages follow `SetNameStep` |
| LobbyServer.Lobby.OnSetFaction | electron.js:92-98 | the record and the messages follow `SetFactionStep` |
| LobbyServer.Lobby.OnSetDeck | electron.js:100-105 | the record and the messages follow `SetDeckStep` |
| LobbyServer.Lobby.OnLeave | electron.js:107-119 | the record and the messages follow `LeaveStep` |
| LobbyServer.Lobby.OnStartRequest | electron.js:121-127 | the record and the messages follow `StartStep` |
| LobbyServer.Lobby.OnDisconnect | electron.js:129-139 | the record and the messages follow `DisconnectStep` |
| Protocol.RoleOf | src/hooks/usePlayerRole.ts:7-12 | host exactly when the host seat's id is `myId`; guest exactly when the host does not match and the guest seat's id is `myId`; none otherwise, and always none for a null id (also `meRole` at src/pages/LobbyPage.tsx:158-162) |
| Protocol.TrimmedOr | electron.js:63 | `name?.trim()` or else the fallback: the trimmed name unless missing or blank, never empty when the fallback is not |
| GameConnection.ServerUrl | src/services/gameConnection.ts:32-47 | a given server URL wins; else a join code gives the local server; else production gives "/" and development the local server; "/" exactly in the production case without URL or code |
| GameConnection.Connection.IsConnected | src/services/gameConnection.ts:76-78 | connected only with a socket |
| GameConnection.Connection.SocketId | src/services/gameConnection.ts:72-74 | no id without a socket |
| GameConnection.Connection.constructor | src/services/gameConnection.ts:20-27 | no socket, empty listener sets, host flag down, nothing done |
| GameConnection.Connection.Connect | src/services/gameConnection.ts:29-60 | with a socket already held nothing changes; otherwise one socket to `ServerUrl` is opened; listeners and the host flag are untouched |
| GameConnection.Connection.OnState | src/services/gameConnection.ts:62-65 | the state listener is added to its set and the remover deletes exactly that listener from that set |
| GameConnection.Connection.OnError | src/services/gameConnection.ts:67-70 | likewise for the join-error listeners |
| GameConnection.Connection.OnConnect | src/services/gameConnection.ts:88-91 | likewise for the connect listeners |
| GameConnection.Connection.OnDisconnect | src/services/gameConnection.ts:92-95 | likewise for the disconnect listeners |
| GameConnection.Connection.RunRemover | src/services/gameConnection.ts:62-70 | calling a remover deletes only its listener from only its set; the no-op remover changes nothing |
| GameConnection.Connection.RunWhenConnected | src/services/gameConnection.ts:80-86 | when connected the callback runs at once and a no-op remover comes back; otherwise the callback joins the connect listeners for good and the remover deletes it |
| GameConnection.Connection.Disconnect | src/services/gameConnection.ts:97-106 | without a socket nothing happens; otherwise the socket is closed, the disconnect listeners run in order (twice when the socket was connected: once from the socket's own `'disconnect'` handler at lines 57-59, once from the `finally` block), the socket is forgotten and the host flag is lowered |
| GameConnection.Connection.Host | src/services/gameConnection.ts:108-115 | `lobby:host` goes out at most once between disconnects; the flag is raised even without a socket, which suppresses later calls |
| GameConnection.Connection.Join | src/services/gameConnection.ts:130-132 | emits `{ name, code }` with a falsy join code sent as null, nothing without a socket |
| GameConnection.Connection.SetName | src/services/gameConnection.ts:133-135 | emits `lobby:setName`, nothing without a socket |
| GameConnection.Connection.SetFaction | src/services/gameConnection.ts:136-138 | emits `lobby:setFaction`, nothing without a socket |
| GameConnection.Connection.SetDeck | src/services/gameConnection.ts:139-141 | emits `lobby:setDeck`, nothing without a socket |
| GameConnection.Connection.StartRequest | src/services/gameConnection.ts:146-148 | emits `lobby:startRequest`, nothing without a socket |
| GameConnection.Connection.Leave | src/services/gameConnection.ts:142-145 | emits `lobby:leave`, then disconnects as above |
| GameConnection.Connection.TransportConnected | src/services/gameConnection.ts:48-50 | the socket is connected with its id and each connect listener runs once, in order |
| GameConnection.Connection.TransportState | src/services/gameConnection.ts:51-53 | each state listener receives the snapshot, in order |
| GameConnection.Connection.TransportJoinError | src/services/gameConnection.ts:54-56 | each error listener receives the message, in order |
| GameConnection.Connection.TransportDropped | src/services/gameConnection.ts:57-59 | the disconnect listeners run but the socket object and the host flag are kept |
| LegacyGameConnection.ServerUrl | client/src/services/gameConnection.ts:26-28 | "/" exactly in production, the local server otherwise |
| LegacyGameConnection.Connection.IsConnected | client/src/services/gameConnection.ts:49-51 | connected only with a socket |
| LegacyGameConnection.Connection.SocketId | client/src/services/gameConnection.ts:45-47 | no id without a socket |
| LegacyGameConnection.Connection.constructor | client/src/services/gameConnection.ts:18-22 | no socket, empty listener sets, nothing done |
| LegacyGameConnection.Connection.Connect | client/src/services/gameConnection.ts:24-38 | a no-op with a socket; otherwise opens one socket to `ServerUrl` |
| LegacyGameConnection.Connection.OnState | client/src/services/gameConnection.ts:40-43 | the listener is added and the remover deletes exactly it |
| LegacyGameConnection.Connection.OnConnect | client/src/services/gameConnection.ts:61-64 | likewise for connect listeners |
| LegacyGameConnection.Connection.OnDisconnect | client/src/services/gameConnection.ts:65-68 | likewise for disconnect listeners |
| LegacyGameConnection.Connection.RunRemover | client/src/services/gameConnection.ts:40-68 | a remover deletes only its own listener from its own set |
| LegacyGameConnection.Connection.RunWhenConnected | client/src/services/gameConnection.ts:53-59 | runs now when connected, else registers a persistent connect listener |
| LegacyGameConnection.Connection.Disconnect | client/src/services/gameConnection.ts:70-78 | without a socket nothing happens; otherwise close, run the disconnect listeners (twice when the socket was connected: from the handler at lines 35-37 and from the `finally` block), forget the socket |
| LegacyGameConnection.Connection.Host | client/src/services/gameConnection.ts:80-82 | every call with a socket emits `lobby:host`: no guard |
| LegacyGameConnection.Connection.Join | client/src/services/gameConnection.ts:83-85 | emits the bare name, which the host process reads as a name without a code |
| LegacyGameConnection.Connection.SetName | client/src/services/gameConnection.ts:86-88 | emits `lobby:setName`, nothing without a socket |
| LegacyGameConnection.Connection.SetFaction | client/src/services/gameConnection.ts:89-91 | emits `lobby:setFaction`, nothing without a socket |
| LegacyGameConnection.Connection.SetDeck | client/src/services/gameConnection.ts:92-94 | emits `lobby:setDeck`, nothing without a socket |
| LegacyGameConnection.Connection.Leave | client/src/services/gameConnection.ts:95-98 | emits `lobby:leave`, then disconnects |
| LegacyGameConnection.Connection.StartRequest | client/src/services/gameConnection.ts:99-101 | emits `lobby:startRequest`, nothing without a socket |
| LegacyGameConnection.Connection.TransportConnected | client/src/services/gameConnection.ts:29-31 | the connect listeners run in order |
| LegacyGameConnection.Connection.TransportState | client/src/services/gameConnection.ts:32-34 | the state listeners receive the snapshot in order |
| LegacyGameConnection.Connection.TransportDropped | client/src/services/gameConnection.ts:35-37 | the disconnect listeners run in order |
| LegacyGameConnection.HostTwice | client/src/services/gameConnection.ts:80-82 | two host calls with a socket emit `lobby:host` twice |
| Listeners.Subscribe | src/services/gameConnection.ts:62-65 | `Set.add`: the listener is in the set, nothing else is added, no duplicates arise |
| Listeners.Unsubscribe | src/services/gameConnection.ts:64 | `Set.delete`: the listener is gone and every other one stays |
| Listeners.SubscribeThenRemove | src/services/gameConnection.ts:62-65 | removing a listener just added to a set that lacked it gives the set back |
| Listeners.UnsubscribeKeepsOrder | src/services/gameConnection.ts:64 | deleting keeps the insertion order of the rest |
| Listeners.Fire | src/services/gameConnection.ts:48-50 | `forEach` runs every listener once, in insertion order |
| Listeners.FireWithState | src/services/gameConnection.ts:51-53 | every state listener receives the snapshot once, in order |
| Listeners.FireWithError | src/services/gameConnection.ts:54-56 | every error listener receives the message once, in order |
| Listeners.DisconnectRuns | src/services/gameConnection.ts:97-106 | the listener runs that follow closing a held socket: if the transport was up, every disconnect listener runs once, in order, from the socket's own `'disconnect'` event, and in every case once more, in order, from the `finally` block; nothing else runs |
| LobbyPage.NameToSync | src/hooks/useSyncPlayerName.ts:7-21 | a name is sent exactly when the seat is known, the saved name is non-empty and differs from that seat's name; what is sent is the saved name |
| LobbyPage.NameToSyncIgnoresOtherSeat | src/hooks/useSyncPlayerName.ts:13-18 | the decision never depends on the other seat |
| LobbyPage.NameSyncSettles | src/pages/LobbyPage.tsx:164-176 | once the host process has applied a trimmed saved name, nothing more is sent |
| LobbyPage.CanStart | src/pages/LobbyPage.tsx:275-279 | the start button never shows on a screen that is not the host's, and when it shows both seats are taken, the game has not started and the snapshot satisfies the lobby's invariants |
| LobbyPage.CanStartIsHonoured | src/pages/LobbyPage.tsx:271-279 | when the start button shows, the host process honours the request and the game starts |
| LobbyPage.ConfirmDeck | src/pages/LobbyPage.tsx:199-203 | nothing unless the screen's seat is the one being chosen for; then the faction, then the deck |
| LobbyPage.ConfirmDeckSeats | src/pages/LobbyPage.tsx:199-203 | delivered in that order, the two events leave the seat with the chosen faction and deck |
| LobbyPage.ResumeStep | src/pages/LobbyPage.tsx:281-322 | no-op without an id, with a seat, or once attempted; a saved host role with no host and no host marker queues host(saved name or "Host"); a saved guest role with a host and a free guest seat queues join(saved name or "Guest") without a code; every evaluating run raises the flag |
| LobbyPage.ResumesAtMostOnce | src/pages/LobbyPage.tsx:282-284 | over any series of runs at most one request is queued, and none once the flag is up |
| LobbyPage.Leave | src/pages/LobbyPage.tsx:178-184 | the saved role is removed before `lobby:leave` is sent, then the screen goes home |
| LobbyPage.LeaveStopsResumption | src/pages/LobbyPage.tsx:178-184 | after `leave` has removed the saved role, whatever it was, the resumption on a later reload (lines 309-321) queues nothing |
| Playmat.ShuffleArray | src/components/Playmat.tsx:22-29 | the result is a permutation of the input, of the same length; the input is a value and stays as it was |
| Playmat.Repeat | src/components/Playmat.tsx:130 | `Array(qty).fill(id)`: qty copies of id and nothing else |
| Playmat.ExpandDeck | src/components/Playmat.tsx:129-131 | one id per copy: the length is the sum of the quantities and each id occurs as often as the list asks |
| Playmat.ExpandConcat | src/components/Playmat.tsx:129-131 | expansion follows entry order: expanding two lists is expanding each in turn |
| Playmat.DrawCards | src/components/Playmat.tsx:287-302 | the first `count` cards (or all) go to the end of the hand and the deck keeps the rest; hand followed by deck is unchanged |
| Playmat.PeepCards | src/components/Playmat.tsx:304-336 | undecided cards count as top; the deck becomes the top picks, the deck without the peeked cards, then the bottom picks; drawn cards go to the end of the hand, discarded ones to the end of the graveyard |
| Playmat.PickedPartition | src/components/Playmat.tsx:313-319 | every peeked card lands in exactly one of the four piles |
| Playmat.PeepConserves | src/components/Playmat.tsx:304-336 | a peep of cards from the deck neither creates nor loses a card on the table |
| Playmat.PeepAllTopIsIdentity | src/components/Playmat.tsx:304-336 | peeking at the top k cards and keeping all on top leaves deck and hand as they were |
| Playmat.IndexOf | src/components/Playmat.tsx:340 | `indexOf`: the first position of the card, or -1 exactly when absent |
| Playmat.RemoveAt | src/components/Playmat.tsx:350-351 | `splice(i, 1)` removes exactly that one card |
| Playmat.DrawCardToHand | src/components/Playmat.tsx:364-378 | the first occurrence leaves the source and goes to the end of the hand, without shuffling; an absent card changes nothing; no card is created or lost |
| Playmat.DrawPersona | src/components/Playmat.tsx:411-414 | a persona moves from the persona pile to the end of the hand; an absent one changes nothing; the table keeps its cards |
| Playmat.DrawPersonaLeavesPile | src/components/Playmat.tsx:411-414 | on a table where no card lies twice, the drawn persona has left its pile |
| Playmat.FindCard | src/components/Playmat.tsx:338-361 | an absent card changes nothing; otherwise the card goes to the end of the hand and the deck becomes a shuffle of the rest |
| Playmat.Mulligan | src/components/Playmat.tsx:392-402 | the chosen cards leave the hand and go under the deck, and as many cards are drawn from the top |
| Playmat.MulliganJoined | src/components/Playmat.tsx:392-402 | hand and deck together are the kept cards, the old deck, then the chosen cards |
| Playmat.MulliganConserves | src/components/Playmat.tsx:392-402 | a mulligan of k distinct cards from the hand keeps the hand size and the cards in hand and deck |
| Playmat.MulliganConfirm | src/components/Playmat.tsx:392-409 | the hand is the mulligan's hand and the deck a shuffle of its deck; the mulligan dialog is closed afterwards |
| Playmat.OpeningHand | src/components/Playmat.tsx:417-428 | only with the deck loaded, the game not started and exactly 45 cards: the hand becomes the first 5, the deck the other 40, the mulligan dialog opens and the game counts as started; otherwise nothing changes, the dialog's flag included |
| Playmat.OpeningHandOnce | src/components/Playmat.tsx:417-428 | after the opening hand the effect does nothing more, whether or not the mulligan dialog was closed meanwhile |
| DeckActionModal.DecrementCounter | src/components/DeckActionModal.tsx:90 | `Math.max(1, n - 1)` never goes below 1 and steps down otherwise |
| DeckActionModal.IncrementCounter | src/components/DeckActionModal.tsx:98 | `Math.min(deckLength, n + 1)` never exceeds the deck length and steps up below it |
| DeckActionModal.CountersStayInRange | src/components/DeckActionModal.tsx:88-133 | a counter within 1 and the deck length stays there under both buttons |
| DeckActionModal.IncrementOnEmptyDeck | src/components/DeckActionModal.tsx:130 | with an empty deck ">" sets a counter to 0 |
| DeckActionModal.SeedTop | src/components/DeckActionModal.tsx:109-113 | exactly the shown cards get a decision, and it is "top" |
| DeckActionModal.PeepView | src/components/DeckActionModal.tsx:146-148 | the corrected peep view: the cards peeked on entry that are not yet decided |
| DeckActionModal.PeepViewAsWritten | src/components/DeckActionModal.tsx:146-148 | the view as written: the first `peepCount` cards of the current deck that are not yet decided |
| DeckActionModal.PeepViewAsWrittenShowsUnpeekedCard | src/components/DeckActionModal.tsx:146-148 | deck 0,1,2,3 with a peep of 2: after card 0 is drawn the view as written shows card 2, which was never peeked; the corrected view shows only card 1 |
| DeckActionModal.PeepViewDrains | src/components/DeckActionModal.tsx:56-64 | each decided card leaves the view, and the view is empty exactly when all peeked cards are decided |
| DeckActionModal.PeepViewDecide | src/components/DeckActionModal.tsx:56-59 | deciding a card removes just that card and keeps the order of the rest |
| DeckActionModal.SinglePeep | src/components/DeckActionModal.tsx:52-54 | a single-card peep moves that card to the end of the hand, the end of the graveyard, the top or the bottom |
| DeckActionModal.NothingDecided | src/components/DeckActionModal.tsx:109-114 | right after entering, the view shows every peeked card |
| DeckActionModal.FindOrder | src/components/DeckActionModal.tsx:190-196 | the find view is a permutation of the deck in ascending cost and, among equal costs, by name |
| DeckActionModal.ClosesWhenViewEmpty | src/components/DeckActionModal.tsx:61-64 | with a counter no larger than the deck, the dialog closes exactly when the view has run out |
| DeckActionModal.DeckDialog.View | src/components/DeckActionModal.tsx:146-148 | the corrected view: the cards shown are the peeked ones not yet decided (the code recomputes them from the live deck; see Findings) |
| DeckActionModal.DeckDialog.constructor | src/components/DeckActionModal.tsx:29-35 | menu, both counters 1, no decisions, nothing asked |
| DeckActionModal.DeckDialog.Close | src/components/DeckActionModal.tsx:39-46 | back to the menu, both counters 1, decisions and decided cards emptied, then close is asked |
| DeckActionModal.DeckDialog.DecreaseDraw | src/components/DeckActionModal.tsx:90 | the draw counter is decremented with the clamp, from the menu; the mode, the other counter, the peep decisions and what was asked stay as they were |
| DeckActionModal.DeckDialog.IncreaseDraw | src/components/DeckActionModal.tsx:97-99 | the draw counter is incremented with the clamp, from the menu; the mode, the other counter, the peep decisions and what was asked stay as they were |
| DeckActionModal.DeckDialog.DecreasePeep | src/components/DeckActionModal.tsx:122 | the peep counter is decremented with the clamp, from the menu; the mode, the other counter, the peep decisions and what was asked stay as they were |
| DeckActionModal.DeckDialog.IncreasePeep | src/components/DeckActionModal.tsx:129-131 | the peep counter is incremented with the clamp, from the menu; the mode, the other counter, the peep decisions and what was asked stay as they were |
| DeckActionModal.DeckDialog.Draw | src/components/DeckActionModal.tsx:80-83 | asks for `drawCount` cards, then closes: menu, both counters 1, no decisions |
| DeckActionModal.DeckDialog.EnterPeep | src/components/DeckActionModal.tsx:108-115 | the first `peepCount` cards are peeked, each seeded with "top", and all are shown |
| DeckActionModal.DeckDialog.Decide | src/components/DeckActionModal.tsx:48-65 | the decision goes to the playmat at once as a one-card peep, the card leaves the view, and the dialog closes (menu, both counters 1, no decisions) exactly when, counting this card, as many cards are decided as the peep counter held before the call; otherwise the mode, both counters and the decisions are kept |
| DeckActionModal.DeckDialog.CancelPeep | src/components/DeckActionModal.tsx:173-178 | back to the menu with no decisions, counters kept, nothing asked |
| DeckActionModal.DeckDialog.EnterFind | src/components/DeckActionModal.tsx:137 | the find view opens, counters and peep decisions kept, nothing asked |
| DeckActionModal.DeckDialog.LeaveFind | src/components/DeckActionModal.tsx:211 | back to the menu, counters and peep decisions kept, nothing asked |
| DeckActionModal.DeckDialog.Find | src/components/DeckActionModal.tsx:201-204 | asks for the picked card, then closes: menu, both counters 1, no decisions |
| Lists.Toggle | src/components/MulliganModal.tsx:14-22 | a selected card is removed and nothing else; an unselected one is appended at the end; a duplicate-free selection stays duplicate-free |
| Lists.ToggleTwice | src/components/CardFilters.tsx:148-154 | toggling a value twice gives back the same members; an absent value gives back the same list, a present one moves to the end |
| MulliganModal.Clicks | src/components/MulliganModal.tsx:14-22 | the selection after a series of clicks stays duplicate-free |
| MulliganModal.ClicksInOrder | src/components/MulliganModal.tsx:14-22 | cards clicked once each are selected in click order after those already selected |
| MulliganModal.ConfirmPassesClickOrder | src/components/MulliganModal.tsx:24-26 | confirming puts the clicked cards under the deck in click order |
| CardFilters.TrimAll | src/components/CardFilters.tsx:65 | each piece is trimmed, so trimming again changes nothing |
| CardFilters.Pieces | src/components/CardFilters.tsx:61-69 | a falsy field gives nothing; otherwise exactly the non-empty trimmed comma-separated pieces |
| CardFilters.WholeIfNotBlank | src/components/CardFilters.tsx:91-94 | a present, non-blank field is added whole and untrimmed, otherwise nothing |
| CardFilters.KeywordValues | src/components/CardFilters.tsx:61-69 | every keyword is a non-empty trimmed piece of the merged keywords when present, else of the card's own |
| CardFilters.AtkValues | src/components/CardFilters.tsx:72-92 | every attack value is a trimmed piece of the merged or own attack, or the own attack whole; a non-blank own attack is always offered |
| CardFilters.HpValues | src/components/CardFilters.tsx:82-94 | the same rule for health values |
| CardFilters.CostValues | src/components/CardFilters.tsx:53-58 | a cost is offered exactly when present and not blank after trimming, and untrimmed |
| CardFilters.Collected | src/components/CardFilters.tsx:44-95 | the set built by the pass is duplicate-free and holds exactly the values some card offers |
| CardFilters.SortNumericLike | src/components/CardFilters.tsx:97-103 | a permutation with every neighbouring pair in comparator order, and fully ascending when all values are numbers |
| CardFilters.NumbersPairwise | src/components/CardFilters.tsx:97-103 | among numbers the order is numeric between any two positions |
| CardFilters.SortText | src/components/CardFilters.tsx:107-109 | a permutation in ascending code-point order |
| CardFilters.ComputeFilterValues | src/components/CardFilters.tsx:44-113 | the loop's six lists are the collected sets, sorted numerically (costs, attack, health) or as text (types, subtypes, keywords) |
| CardFilters.FilterValuesDistinct | src/components/CardFilters.tsx:105-112 | every list the filter bar shows is duplicate-free |
| DeckService.ToSharePayload | src/services/deckService.ts:69-78 | the payload has version 1 |
| DeckService.FromSharePayload | src/services/deckService.ts:80-89 | the draft has no background image and a null or given protagonist |
| DeckService.PairsRoundTrip | src/services/deckService.ts:76-86 | entries turned into `[id, qty]` pairs and back are unchanged |
| DeckService.ShareRoundTrip | src/services/deckService.ts:69-89 | sharing then importing keeps name, faction, personas and entries; a missing protagonist becomes null; the image is dropped |
| DeckService.ImportDeck | src/services/deckService.ts:105-110 | fails with "Unsupported deck format" exactly when there is no payload or its version is not 1 |
| DeckService.ListDecks | src/services/deckService.ts:28-30 | a permutation of the saved decks, most recently updated first |
| DeckService.FindIndex | src/services/deckService.ts:46 | the first index with that id, or -1 exactly when none |
| DeckService.GetDeck | src/services/deckService.ts:32-34 | the deck at the first matching index, or none exactly when no id matches |
| DeckService.Upserted | src/services/deckService.ts:44-51 | an existing id is replaced in place (same length, others unchanged); a new one is appended |
| DeckService.UpsertThenGet | src/services/deckService.ts:44-51 | after an update the id finds the new version |
| DeckService.Deleted | src/services/deckService.ts:53-56 | every deck with that id is gone and the rest are kept |
| DeckService.DeletedKeepsOrder | src/services/deckService.ts:53-56 | deleting from two runs of decks deletes from each in place, so the remaining decks keep their stored order and every copy |
| DeckService.DeletedOne | src/services/deckService.ts:53-56 | a single deck goes exactly when it carries the id, and stays otherwise |
| DeckService.DeleteAbsent | src/services/deckService.ts:53-56 | deleting an id that is not stored changes nothing |
| DeckService.RandomDigit | src/services/deckService.ts:22-24 | the digit an x or a y of the template receives fits that position |
| DeckService.FillTemplate | src/services/deckService.ts:21-25 | each template character is replaced by a character that fits it, and the length is kept |
| DeckService.FitsTemplateIsUuid | src/services/deckService.ts:21 | a string fitting the template is lowercase 8-4-4-4-12 hex with version 4 and variant 8, 9, a or b |
| DeckService.GenId | src/services/deckService.ts:20-26 | the id has the version-4 UUID shape |
| DeckService.DeckStore.constructor | src/services/deckService.ts:5-14 | the store holds the saved decks |
| DeckService.DeckStore.CreateDeck | src/services/deckService.ts:36-42 | exactly one deck is appended: the draft with a fresh version-4 id and the time given |
| DeckService.DeckStore.UpdateDeck | src/services/deckService.ts:44-51 | the deck stamped with the time replaces or is appended as `Upserted` says, and is then found by its id |
| DeckService.DeckStore.DeleteDeck | src/services/deckService.ts:53-56 | the store becomes `Deleted` |
| DeckService.DeckStore.SetBackground | src/services/deckService.ts:112-121 | an unknown id changes nothing and gives none; otherwise the stored deck with the image and the time replaces itself in place and is returned |
| DeckService.DeckStore.ClearBackground | src/services/deckService.ts:123-128 | the same, with the image set to null |
| CardData.AllCards | client/src/services/cardDataService.ts:4-8 | exactly the cards with face 1 |
| CardData.AllCardsKeepsOrder | client/src/services/cardDataService.ts:7 | the front faces keep list order |
| CardData.CardsByField | client/src/services/cardDataService.ts:10-28 | only front faces, and exactly those whose field matches the lower-cased value |
| CardData.FieldMatchIgnoresCase | client/src/services/cardDataService.ts:17-27 | a text field matches when equal ignoring case, a list field when one item is, any other field never |
| CardData.CardsByFieldIgnoresCase | client/src/services/cardDataService.ts:15 | values differing only in case select the same cards |
| CardData.FindFirst | client/src/services/cardDataService.ts:38-39 | `find` as a position: the first card passing the test, or -1 when none does |
| CardData.FindAfterFilter | client/src/services/cardDataService.ts:34-39 | finding among the filtered faces is finding the first card passing both tests |
| CardData.CardFacesFirst | client/src/services/cardDataService.ts:30-42 | the front is the first card with a matching id (ignoring case) and face 1, the back the first with face 2, or none |

## Left out

- The Socket.IO transport, Express, the Electron window and app lifecycle and console logging are not modelled. Each handler is an atomic step; connection ids are parameters.
- The join-code draw `generateCode` is left out: the code is a parameter of the `Lobby` constructor.
- `Math.random` in `shuffleArray` and `genId` becomes a free choice within its range, so the model proves facts for every outcome rather than the distribution.
- `lookupCode` is left out because it is an HTTP fetch to the registry, and no registry server exists in the code.
- Timers keep only their order: the 50 ms leave delay, the 100 ms mulligan shuffle delay and the animation timeouts.
- GameConnection.Connection.Leave: disconnects right after the emit; a socket opened within the 50 ms delay, which the delayed `disconnect` would close, is not modelled.
- The transport's own handling of a dropped socket (reconnection, buffering) is not modelled. A drop only runs the disconnect listeners.
- The playmat's async card loading and the calls to `setHand`, `setDeckCards`, `setPersonaCards` and `triggerShuffle` are not modelled, because these members are not defined in either connection wrapper.
- Playmat.FindCard, Playmat.MulliganConfirm: because `triggerShuffle` is not defined, `shuffleDeck` (src/components/Playmat.tsx:385-389) throws before it stores the shuffled deck, so the code as written leaves the deck after a find or a mulligan unshuffled. The model stores a permutation of the deck, which the unshuffled deck also is; "shuffle" in these rows describes the intent, not what the code as written stores.
- The socket.io client library is not part of this model. The one behaviour of it that the wrappers rely on, that `socket.disconnect()` on a connected socket raises its own `'disconnect'` event at once, is built into `Listeners.DisconnectRuns`.
- Shuffle animation flags, dialog open flags other than the mulligan dialog's (which `Playmat.OpeningHand` opens and `Playmat.MulliganConfirm` closes), and the hand layout arithmetic are not modelled.
- Browser storage, JSON and Base64 are left out. The saved decks, the saved role and name, and the host marker are inputs; a decoded share payload is an `Option`.
- Deck loading ignores malformed stored data; non-string socket payloads and non-string card fields are not modelled.
- `FileReader` is left out: `setDeckBackgroundImage` takes the data URL it would produce.
- The store does not model other writes between the file read and the save.
- CSV reading of the card list is left out; every card lookup takes the list as a parameter.
- Case folding is ASCII only. The default `sort` and `localeCompare` are both modelled by `LexLe`, which orders by code point. JavaScript's default `sort` compares UTF-16 code units, so the two differ only when a character above U+FFFF meets one in U+E000 to U+FFFF; `localeCompare` follows the locale's collation, which is not modelled.
- `Number` and `parseInt` are abstract functions (`numberOf`, `costOf`), with `NaN` as `None`.
- CardFilters.SortNumericLike: guarantees only that neighbours are in comparator order when numbers and text are mixed. That comparator is not transitive, so the whole order of such a list is not determined; when every value is a number the list is fully ascending.
- DeckActionModal.FindOrder: takes costs as integers, so the cost comparison is a total order; a `NaN` cost, for which the comparator answers `NaN`, is not modelled.
- LobbyServer.Inv: does not include "a started game has both decks", because the code does not maintain it (a guest leaving and a faction change keep `started`).
- Lists.ToggleTwice: gives back the same list only when the value was absent; a present value comes back at the end of the list.
- DeckActionModal.DeckDialog.Decide, DeckActionModal.DeckDialog.View: use the corrected peep view (the cards peeked on entry), not the view recomputed from the live deck (see Findings).
- After a cancel, a peep counter larger than the remaining deck can leave an empty view with the dialog open; this is not stated as a lemma.
- CardData.CardFaces: has no contract of its own; what it returns is stated by `CardData.CardFacesFirst`.

## Findings

| source | as written | input that shows it | evidently intended | confidence | as-written member | corrected member |
|---|---|---|---|---|---|---|
| src/components/DeckActionModal.tsx:146-148 | the peep view is recomputed from the live deck as `deckCards.slice(0, peepCount)` minus the decided cards, after each decision has already changed the deck | deck 0, 1, 2, 3 with a peep of 2: drawing card 0 leaves the deck 1, 2, 3, and the view shows cards 1 and 2, so card 2 was never peeked | only the cards peeked on entry, minus those decided | not executed | DeckActionModal.PeepViewAsWrittenShowsUnpeekedCard | DeckActionModal.PeepView |
