/**
 * What the two client connection wrappers share: listener sets, the removers
 * that subscriptions hand back, and the log of what a wrapper has done
 * (events emitted on the socket, callbacks run, sockets opened and closed).
 *
 * Callbacks are opaque: a listener is known by its identity alone, which is
 * what a JavaScript `Set` of functions compares by.
 */
module Listeners {
  import opened Wrappers
  import opened Lists
  import opened Protocol

  /** The identity of a callback. */
  type ListenerId = nat

  /** A JavaScript `Set` of callbacks: no duplicates, iterated in insertion order. */
  type ListenerSet = seq<ListenerId>

  datatype ListenerKind = StateListeners | ConnectListeners | DisconnectListeners | ErrorListeners

  /** The function a subscription returns: delete that listener from that set, or do nothing. */
  datatype Remover = Remove(kind: ListenerKind, id: ListenerId) | NoOp

  /** The socket the wrapper holds: where it points, whether the transport is up, and its id once known. */
  datatype Socket = Socket(url: string, connected: bool, id: Option<ConnId>)

  datatype LogEntry =
    | Emitted(event: ClientEvent)
    | Ran(listener: ListenerId)
    | RanWithState(listener: ListenerId, state: LobbySnapshot)
    | RanWithError(listener: ListenerId, error: string)
    | SocketOpened(url: string)
    | SocketClosed

  /** The four listener sets of a wrapper (the older wrapper never fills `error`). */
  datatype Subscribers = Subscribers(state: ListenerSet, connect: ListenerSet, disconnect: ListenerSet, error: ListenerSet)

  predicate SubscribersValid(s: Subscribers) {
    Distinct(s.state) && Distinct(s.connect) && Distinct(s.disconnect) && Distinct(s.error)
  }

  /** `set.add(l)`. */
  function Subscribe(ls: ListenerSet, l: ListenerId): (r: ListenerSet)
    ensures l in r && forall x :: x in r <==> x in ls || x == l
    ensures Distinct(ls) ==> Distinct(r)
  {
    AddUnique(ls, l)
  }

  /** `set.delete(l)`. */
  function Unsubscribe(ls: ListenerSet, l: ListenerId): (r: ListenerSet)
    ensures l !in r && forall x :: x != l ==> (x in r <==> x in ls)
    ensures Distinct(ls) ==> Distinct(r)
  {
    FilterDistinctIfDistinct(ls, NotEqual(l));
    Filter(ls, NotEqual(l))
  }

  /** Removing a listener that was just added to a set that lacked it gives the set back. */
  lemma {:induction false} SubscribeThenRemove(ls: ListenerSet, l: ListenerId)
    requires l !in ls
    ensures Unsubscribe(Subscribe(ls, l), l) == ls
  {
    FilterConcat(ls, [l], NotEqual(l));
    FilterKeepsAll(ls, NotEqual(l));
    assert Filter([l], NotEqual(l)) == [];
  }

  /** Removing leaves every other listener where it was. */
  lemma {:induction false} UnsubscribeKeepsOrder(ls: ListenerSet, l: ListenerId, k: int)
    requires Distinct(ls) && 0 <= k < |ls| && ls[k] == l
    ensures Unsubscribe(ls, l) == ls[..k] + ls[k + 1..]
  {
    DistinctAt(ls, k);
    RemoveUniqueAt(ls, k);
  }

  /** `set.forEach(l => l())`: each listener runs once, in insertion order. */
  function Fire(ls: ListenerSet): (r: seq<LogEntry>)
    ensures |r| == |ls|
    ensures forall i :: 0 <= i < |ls| ==> r[i] == Ran(ls[i])
  {
    if ls == [] then [] else [Ran(ls[0])] + Fire(ls[1..])
  }

  /** `set.forEach(l => l(state))`. */
  function FireWithState(ls: ListenerSet, state: LobbySnapshot): (r: seq<LogEntry>)
    ensures |r| == |ls|
    ensures forall i :: 0 <= i < |ls| ==> r[i] == RanWithState(ls[i], state)
  {
    if ls == [] then [] else [RanWithState(ls[0], state)] + FireWithState(ls[1..], state)
  }

  /** `set.forEach(l => l(error))`. */
  function FireWithError(ls: ListenerSet, error: string): (r: seq<LogEntry>)
    ensures |r| == |ls|
    ensures forall i :: 0 <= i < |ls| ==> r[i] == RanWithError(ls[i], error)
  {
    if ls == [] then [] else [RanWithError(ls[0], error)] + FireWithError(ls[1..], error)
  }

  /**
   * The listener runs that follow closing a held socket in `disconnect()`:
   * when the transport was up, `socket.disconnect()` raises the socket's own
   * `'disconnect'` event at once, whose handler runs the disconnect listeners;
   * then the `finally` block runs them again.
   */
  function DisconnectRuns(ls: ListenerSet, wasConnected: bool): (r: seq<LogEntry>)
    ensures |r| == |ls| + (if wasConnected then |ls| else 0)
    ensures forall i :: 0 <= i < |r| ==> r[i].Ran?
    ensures r[|r| - |ls|..] == Fire(ls)
    ensures wasConnected ==> r[..|ls|] == Fire(ls)
  {
    var first: seq<LogEntry> := if wasConnected then Fire(ls) else [];
    assert forall i :: 0 <= i < |first + Fire(ls)| ==> (first + Fire(ls))[i].Ran? by {
      forall i | 0 <= i < |first + Fire(ls)| ensures (first + Fire(ls))[i].Ran? {
        if i >= |first| { assert (first + Fire(ls))[i] == Fire(ls)[i - |first|]; }
      }
    }
    first + Fire(ls)
  }

  predicate IsHostEmit(e: LogEntry) {
    e.Emitted? && e.event.HostEvent?
  }

  /** How many `lobby:host` events were emitted since the last socket was closed. */
  function HostsSinceClose(log: seq<LogEntry>): nat
    decreases |log|
  {
    if log == [] then 0
    else if log[|log| - 1].SocketClosed? then 0
    else HostsSinceClose(log[..|log| - 1]) + (if IsHostEmit(log[|log| - 1]) then 1 else 0)
  }

  /** Entries that neither close a socket nor emit `lobby:host` leave the count alone. */
  lemma {:induction false} HostsSinceCloseQuiet(log: seq<LogEntry>, more: seq<LogEntry>)
    requires forall i :: 0 <= i < |more| ==> !more[i].SocketClosed? && !IsHostEmit(more[i])
    ensures HostsSinceClose(log + more) == HostsSinceClose(log)
    decreases |more|
  {
    if more != [] {
      var init := more[..|more| - 1];
      assert (log + more)[..|log + more| - 1] == log + init;
      var last := more[|more| - 1];
      assert (log + more)[|log + more| - 1] == last;
      assert !last.SocketClosed? && !IsHostEmit(last);
      assert forall i :: 0 <= i < |init| ==> init[i] == more[i];
      HostsSinceCloseQuiet(log, init);
      assert HostsSinceClose(log + more) == HostsSinceClose(log + init);
    } else {
      assert log + more == log;
    }
  }

  /** Once a socket is closed, the count starts again from zero whatever follows without `lobby:host`. */
  lemma {:induction false} HostsSinceCloseReset(log: seq<LogEntry>, more: seq<LogEntry>)
    requires forall i :: 0 <= i < |more| ==> !more[i].SocketClosed? && !IsHostEmit(more[i])
    ensures HostsSinceClose(log + [SocketClosed] + more) == 0
  {
    HostsSinceCloseQuiet(log + [SocketClosed], more);
  }
}
