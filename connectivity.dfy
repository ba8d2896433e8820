/** The connectivity monitor (js/offline.js). `isOnline` is tri-state:
    `null` before the first answer and after `forceOffline`, then `true` or
    `false`. A ping fires the "on" or "off" window event only when the
    status flips, so repeated answers of the same kind fire nothing. One
    ping is one step whose outcome (the probe answered 200 or not) is an
    input; the timer that repeats it is not modelled. */
module Connectivity {
  import opened Types

  /** The probe target set by the constructor and by `setOptions` when no
      path is given. */
  const DEFAULT_PATH: string := "./favicon.ico"

  /** `isOnline`: `null`, `true`, `false`. */
  datatype Status = Unknown | Online | Offline

  /** The window event a ping dispatches, if any. */
  datatype Signal = Quiet | On | Off

  /** The test `if (connectionHandler.isOnline)`: only `true` is truthy,
      so an Unknown status takes the offline branch. */
  predicate Truthy(s: Status): (r: bool)
    ensures !r <==> s in {Unknown, Offline}
  {
    s == Online
  }

  /** The status after a ping answered (`reachable`) or not, in status
      `s`, and the event it dispatches. */
  function Transition(s: Status, reachable: bool): (r: (Status, Signal))
    ensures r.1 == On <==> r.0 != s && r.0 == Online
    ensures r.1 == Off <==> r.0 != s && r.0 == Offline
    ensures r.0 == s || r.0 == (if reachable then Online else Offline)
    ensures reachable && s != Online ==> r == (Online, On)
    ensures !reachable && s != Offline ==> r == (Offline, Off)
    ensures (reachable && s == Online) || (!reachable && s == Offline) ==> r == (s, Quiet)
  {
    if reachable then
      if !Truthy(s) then (Online, On) else (s, Quiet)
    else if s == Online || s == Unknown then (Offline, Off)
    else assert s.Offline?; (s, Quiet)
  }

  /** The status after a run of pings. */
  function After(s: Status, outcomes: seq<bool>): (r: Status)
    decreases |outcomes|
  {
    if outcomes == [] then s else After(Transition(s, outcomes[0]).0, outcomes[1..])
  }

  /** The events a run of pings dispatches, in order. */
  function Signals(s: Status, outcomes: seq<bool>): (r: seq<Signal>)
    decreases |outcomes|
  {
    if outcomes == [] then []
    else
      var (t, fired) := Transition(s, outcomes[0]);
      (if fired == Quiet then [] else [fired]) + Signals(t, outcomes[1..])
  }

  /** The event that announces status `s`. */
  function Announces(s: Status): (r: Signal)
  {
    match s
    case Online => On
    case Offline => Off
    case Unknown => Quiet
  }

  /** From a known status, the first event a run fires is the one that
      leaves that status, and no event of a run is Quiet. */
  lemma {:induction false} FirstSignalLeaves(s: Status, outcomes: seq<bool>)
    ensures forall i :: 0 <= i < |Signals(s, outcomes)| ==> Signals(s, outcomes)[i] != Quiet
    ensures s != Unknown && Signals(s, outcomes) != [] ==> Signals(s, outcomes)[0] != Announces(s)
    decreases |outcomes|
  {
    if outcomes != [] {
      var (t, fired) := Transition(s, outcomes[0]);
      FirstSignalLeaves(t, outcomes[1..]);
      if fired == Quiet && s != Unknown {
        assert t == s;
      }
    }
  }

  /** Edge triggering over any run of pings: no two consecutive events
      are the same, so there is never an "on" after an "on" nor an "off"
      after an "off". */
  lemma {:induction false} SignalsAlternate(s: Status, outcomes: seq<bool>)
    ensures forall i :: 0 <= i < |Signals(s, outcomes)| - 1 ==> Signals(s, outcomes)[i] != Signals(s, outcomes)[i + 1]
    decreases |outcomes|
  {
    if outcomes != [] {
      var (t, fired) := Transition(s, outcomes[0]);
      var rest := Signals(t, outcomes[1..]);
      SignalsAlternate(t, outcomes[1..]);
      FirstSignalLeaves(t, outcomes[1..]);
      if fired != Quiet {
        assert fired == Announces(t);
        assert Signals(s, outcomes) == [fired] + rest;
      } else {
        assert Signals(s, outcomes) == rest;
      }
    }
  }

  /** Any number of failed pings fires "off" once, unless the status was
      already Offline, in which case it fires nothing. */
  lemma {:induction false} FailuresFireOffOnce(s: Status, n: nat)
    ensures Signals(s, seq(n, _ => false)) == if n == 0 || s == Offline then [] else [Off]
    ensures n > 0 ==> After(s, seq(n, _ => false)) == Offline
    decreases n
  {
    if n > 0 {
      var failures := seq(n, _ => false);
      assert failures[1..] == seq(n - 1, _ => false);
      FailuresFireOffOnce(Offline, n - 1);
    }
  }

  /** From Unknown, the one status `forceOffline` returns to, the next ping
      always fires an event: "on" if it answers, "off" otherwise. */
  lemma UnknownAlwaysFires(reachable: bool)
    ensures Transition(Unknown, reachable).1 == if reachable then On else Off
  {
  }

  /** `window.connectionHandler`. The "on" and "off" listeners are
      represented by the number of times each event was dispatched. */
  class ConnectionHandler {
    var path: string
    var isOnline: Status
    var onEvents: nat
    var offEvents: nat

    constructor ()
      ensures path == DEFAULT_PATH && isOnline == Unknown
      ensures onEvents == 0 && offEvents == 0
    {
      path := DEFAULT_PATH;
      isOnline := Unknown;
      onEvents, offEvents := 0, 0;
    }

    /** `setOptions`: sets the probe target, the default one when none is
        given (the interval and timeout are not modelled). */
    method SetOptions(newPath: Option<string>)
      modifies this
      ensures path == if newPath.None? then DEFAULT_PATH else newPath.value
      ensures isOnline == old(isOnline) && onEvents == old(onEvents) && offEvents == old(offEvents)
    {
      path := if newPath.None? then DEFAULT_PATH else newPath.value;
    }

    /** `forceOffline`: back to Unknown, dispatching nothing. */
    method ForceOffline()
      modifies this
      ensures isOnline == Unknown
      ensures path == old(path) && onEvents == old(onEvents) && offEvents == old(offEvents)
    {
      isOnline := Unknown;
    }

    /** `ping`, with the probe's answer as input. An empty path throws
        (`ok` false) before anything changes; otherwise the status moves
        as `Transition` says and the event it names is dispatched once. */
    method Ping(reachable: bool) returns (ok: bool, fired: Signal)
      modifies this
      ensures ok <==> old(path) != ""
      ensures path == old(path)
      ensures !ok ==> fired == Quiet && isOnline == old(isOnline)
      ensures ok ==> (isOnline, fired) == Transition(old(isOnline), reachable)
      ensures onEvents == old(onEvents) + (if fired == On then 1 else 0)
      ensures offEvents == old(offEvents) + (if fired == Off then 1 else 0)
    {
      if path == "" {
        return false, Quiet;
      }
      ok := true;
      fired := Quiet;
      if reachable {
        if !Truthy(isOnline) {
          isOnline := Online;
          fired := On;
          onEvents := onEvents + 1;
        }
      } else if isOnline == Online || isOnline == Unknown {
        isOnline := Offline;
        fired := Off;
        offEvents := offEvents + 1;
      }
    }
  }

  /** Two failed pings from a status that is not Offline dispatch "off"
      exactly once. */
  method TwoFailedPings(handler: ConnectionHandler)
    requires handler.path != "" && handler.isOnline != Offline
    modifies handler
    ensures handler.isOnline == Offline
    ensures handler.offEvents == old(handler.offEvents) + 1
    ensures handler.onEvents == old(handler.onEvents)
  {
    var _, _ := handler.Ping(false);
    var _, _ := handler.Ping(false);
  }
}
