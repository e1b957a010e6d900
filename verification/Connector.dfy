/**
  Connecting with retries.  Sockets are numbered in the order they are opened; what connect
  and the socket report is an input.  Callbacks queued in the loop and timers are counted and
  run as separate steps.  A method that can fail an assertion of the code reports it in `ok`.

  restart is modelled as it is written: called while connecting it forgets the attempt in
  progress, whose socket is then neither closed, nor handed over, nor ever looked at again.
 */
module Connector {
  import opened Basics

  type Fd = nat

  datatype ConnState = Disconnected | Connecting | Connected

  /** What connect() returned: in progress, worth retrying, or hopeless. */
  datatype ConnectResult = InProgress | Refused | Fatal

  /** `Ready` is one dispatch of the channel: the error and the write callback, in this order,
      as the poller reports; `error` is what the socket says, `selfConnect` the other check. */
  datatype Event =
    | Start(result: ConnectResult)
    | Again(result: ConnectResult)
    | TimerFires(result: ConnectResult)
    | Stop
    | RunStop
    | RunReset
    | Ready(failed: bool, writable: bool, error: bool, selfConnect: bool)

  const INIT_RETRY_DELAY: nat := 500
  const MAX_RETRY_DELAY: nat := 30000

  function Power2(k: nat): nat { if k == 0 then 1 else 2 * Power2(k - 1) }

  /** The wait before the k-th retry in a row, in milliseconds. */
  function Backoff(k: nat): nat { Min(INIT_RETRY_DELAY * Power2(k), MAX_RETRY_DELAY) }

  lemma BackoffStep(k: nat)
    ensures Min(Backoff(k) * 2, MAX_RETRY_DELAY) == Backoff(k + 1)
  {
  }

  // ---- what the calls mean ----

  /** A connector and its history.  `resets` and `stops` are queued calls of resetChannel and
      stopInLoop, `timers` pending retries; `closed` and `handed` say how often each socket was
      closed and handed over; `waits` are the delays asked for since the last fresh start. */
  datatype View = View(
    connect: bool, state: ConnState, channel: Option<Fd>, retryDelay: nat,
    resets: nat, stops: nat, timers: nat, sockets: nat,
    closed: multiset<Fd>, handed: multiset<Fd>, waits: seq<nat>)

  const NEW := View(false, Disconnected, None, INIT_RETRY_DELAY, 0, 0, 0, 0, multiset{}, multiset{}, [])

  /** The channel is in the poller: made, and not taken out again. */
  predicate Polled(v: View) { v.channel.Some? && v.resets == 0 }

  function Retried(v: View, fd: Fd): View {
    var w := v.(closed := v.closed + multiset{fd}, state := Disconnected);
    if v.connect then
      w.(timers := v.timers + 1, waits := v.waits + [v.retryDelay],
      retryDelay := Min(v.retryDelay * 2, MAX_RETRY_DELAY))
    else w
  }

  /** startInLoop; None where one of its assertions fails. */
  function Started(v: View, result: ConnectResult): Option<View> {
    if v.state != Disconnected then None
    else if !v.connect then Some(v)
    else
      var fd, w := v.sockets, v.(sockets := v.sockets + 1);
      match result
      case InProgress => if v.channel.Some? then None else Some(w.(state := Connecting, channel := Some(fd)))
      case Refused => Some(Retried(w, fd))
      case Fatal => Some(w.(closed := w.closed + multiset{fd}))
  }

  function Restarted(v: View, result: ConnectResult): Option<View> {
    Started(v.(state := Disconnected, retryDelay := INIT_RETRY_DELAY, waits := [], connect := true), result)
  }

  /** An attempt in progress ends in a retry. */
  function GivenUp(v: View): View {
    if v.state == Connecting && v.channel.Some? then Retried(v.(resets := v.resets + 1), v.channel.value) else v
  }

  /** handleWrite; None where its assertion fails. */
  function Finished(v: View, error: bool, selfConnect: bool): Option<View> {
    if v.state == Connected then None
    else if v.state == Disconnected || v.channel.None? || error || selfConnect then Some(GivenUp(v))
    else
      var fd, w := v.channel.value, v.(resets := v.resets + 1, state := Connected);
      Some(if v.connect then w.(handed := w.handed + multiset{fd}) else w.(closed := w.closed + multiset{fd}))
  }

  /** One callback or call, None where an assertion fails; those with nothing queued for them
      do not happen, and a channel out of the poller is not dispatched. */
  function Step(v: View, e: Event): Option<View> {
    match e
    case Start(result) => Started(v.(connect := true), result)
    case Again(result) => Restarted(v, result)
    case TimerFires(result) => if v.timers > 0 then Started(v.(timers := v.timers - 1), result) else Some(v)
    case Stop => Some(v.(connect := false, stops := v.stops + 1))
    case RunStop => Some(if v.stops > 0 then GivenUp(v.(stops := v.stops - 1)) else v)
    case RunReset => Some(if v.resets > 0 then v.(channel := None, resets := v.resets - 1) else v)
    case Ready(failed, writable, error, selfConnect) =>
      if !Polled(v) then Some(v)
      else
        var w := if failed then GivenUp(v) else v;
        if writable then Finished(w, error, selfConnect) else Some(w)
  }

  /** The connector after a run, None if an assertion failed on the way. */
  function StateAfter(events: seq<Event>): Option<View> {
    if events == [] then Some(NEW)
    else
      match StateAfter(events[..|events| - 1])
      case None => None
      case Some(v) => Step(v, events[|events| - 1])
  }

  // ---- what every run keeps ----

  /** How many places a socket is in: held by the attempt in progress, closed, handed over. */
  function Places(v: View, fd: Fd): nat {
    (if v.state == Connecting && v.channel == Some(fd) then 1 else 0) + v.closed[fd] + v.handed[fd]
  }

  /** The socket of a channel in the poller is not disposed of, every other one was, once. */
  ghost predicate Accounted(v: View) {
    forall fd: Fd ::
      v.closed[fd] + v.handed[fd] == if fd >= v.sockets || (Polled(v) && v.channel == Some(fd)) then 0 else 1
  }

  ghost predicate BackoffOk(v: View) {
    v.retryDelay == Backoff(|v.waits|) && forall k | 0 <= k < |v.waits| :: v.waits[k] == Backoff(k)
  }

  /** The channel outlives its attempt until the queued reset runs, or has been forgotten. */
  ghost predicate ChannelOk(v: View) {
    && v.resets <= 1
    && (v.resets == 1 ==> v.channel.Some? && v.state != Connecting)
    && (v.state == Connecting ==> Polled(v))
    && (v.state == Connected ==> !Polled(v))
    && (v.channel.Some? ==> v.channel.value < v.sockets)
  }

  ghost predicate Inv(v: View) { Accounted(v) && ChannelOk(v) && BackoffOk(v) }

  /** A socket that nobody will ever close: its channel is still polled, its attempt forgotten. */
  predicate Abandoned(v: View) { Polled(v) && v.state == Disconnected }

  /** Whether an event leads to a call of startInLoop. */
  predicate Starts(v: View, e: Event) { e.Start? || e.Again? || (e.TimerFires? && v.timers > 0) }

  /** When startInLoop passes its assertions. */
  predicate MayStart(state: ConnState, connect: bool, result: ConnectResult, channel: Option<Fd>) {
    state == Disconnected && !(connect && result == InProgress && channel.Some?)
  }

  /** When an event fails an assertion, judged by what it finds. */
  predicate Fails(v: View, e: Event) {
    Starts(v, e) &&
    !MayStart(if e.Again? then Disconnected else v.state, v.connect || !e.TimerFires?, e.result, v.channel)
  }

  lemma RetriedInv(v: View, fd: Fd)
    requires BackoffOk(v) && ChannelOk(v.(state := Disconnected)) && fd < v.sockets
    requires Accounted(v.(closed := v.closed + multiset{fd}, state := Disconnected))
    ensures Inv(Retried(v, fd)) && Retried(v, fd).state == Disconnected
    ensures Retried(v, fd).channel == v.channel && Retried(v, fd).resets == v.resets
  {
    hide Backoff;
    BackoffStep(|v.waits|);
  }

  lemma GivenUpInv(v: View)
    requires Inv(v)
    ensures Inv(GivenUp(v))
    ensures GivenUp(v).state != Connecting && (v.state == Connecting ==> GivenUp(v).state == Disconnected)
    ensures Abandoned(GivenUp(v)) <==> Abandoned(v)
  {
    if v.state == Connecting { RetriedInv(v.(resets := v.resets + 1), v.channel.value); }
  }

  lemma StartedInv(v: View, result: ConnectResult)
    requires BackoffOk(v) && (Inv(v) || (v.state == Disconnected && Inv(v.(state := Connecting))))
    ensures Started(v, result).Some? <==> MayStart(v.state, v.connect, result, v.channel)
    ensures Started(v, result).Some? ==>
              Inv(Started(v, result).value) && (Abandoned(Started(v, result).value) <==> Abandoned(v))
  {
    hide Backoff, Retried, Min;
    if v.connect && v.state == Disconnected && result == Refused {
      RetriedInv(v.(sockets := v.sockets + 1), v.sockets);
    }
  }

  lemma FinishedInv(v: View, error: bool, selfConnect: bool)
    requires Inv(v) && v.state != Connected
    ensures Finished(v, error, selfConnect).Some?
    ensures var w := Finished(v, error, selfConnect).value; Inv(w) && (Abandoned(w) <==> Abandoned(v))
  {
    GivenUpInv(v);
  }

  /** What one step must keep: it fails an assertion exactly when `Fails` says so, otherwise it
      keeps the invariant, and a socket becomes abandoned exactly by a restart while connecting. */
  ghost predicate StepOk(v: View, e: Event, r: Option<View>) {
    && (r.None? <==> Fails(v, e))
    && (r.Some? ==> Inv(r.value))
    && (r.Some? ==> (Abandoned(r.value) <==> Abandoned(v) || (e.Again? && v.state == Connecting)))
  }

  lemma StartStep(v: View, e: Event)
    requires Inv(v) && (e.Start? || e.TimerFires?)
    ensures StepOk(v, e, Step(v, e))
  {
    hide Started, BackoffOk;
    var w := if e.Start? then v.(connect := true) else if v.timers > 0 then v.(timers := v.timers - 1) else v;
    assert BackoffOk(w) by { SameBackoff(v, w); }
    StartedInv(w, e.result);
  }

  lemma SameBackoff(v: View, w: View)
    requires BackoffOk(v) && v.retryDelay == w.retryDelay && v.waits == w.waits
    ensures BackoffOk(w)
  {
  }

  lemma AgainStep(v: View, result: ConnectResult)
    requires Inv(v)
    ensures StepOk(v, Again(result), Step(v, Again(result)))
  {
    hide Started;
    var w := v.(state := Disconnected, retryDelay := INIT_RETRY_DELAY, waits := [], connect := true);
    assert BackoffOk(w);
    hide BackoffOk;
    StartedInv(w, result);
  }

  lemma ReadyStep(v: View, e: Event)
    requires Inv(v) && e.Ready?
    ensures StepOk(v, e, Step(v, e))
  {
    hide GivenUp, Finished, Accounted, BackoffOk;
    GivenUpInv(v);
    if Polled(v) && e.writable { FinishedInv(if e.failed then GivenUp(v) else v, e.error, e.selfConnect); }
  }

  lemma QueueStep(v: View, e: Event)
    requires Inv(v) && (e.Stop? || e.RunStop? || e.RunReset?)
    ensures StepOk(v, e, Step(v, e))
  {
    hide GivenUp, BackoffOk;
    var w := if e.RunStop? && v.stops > 0 then v.(stops := v.stops - 1) else v;
    SameBackoff(v, w);
    GivenUpInv(w);
    if Step(v, e).Some? && !e.RunStop? { SameBackoff(v, Step(v, e).value); }
  }

  lemma StepInv(v: View, e: Event)
    requires Inv(v)
    ensures StepOk(v, e, Step(v, e))
  {
    hide Step, StepOk, Inv;
    match e {
      case Start(_) | TimerFires(_) => StartStep(v, e);
      case Again(result) => AgainStep(v, result);
      case Stop | RunStop | RunReset => QueueStep(v, e);
      case Ready(_, _, _, _) => ReadyStep(v, e);
    }
  }

  lemma NewInv()
    ensures Inv(NEW)
  {
  }

  lemma {:induction false} RunInv(events: seq<Event>)
    ensures StateAfter(events).Some? ==> Inv(StateAfter(events).value)
  {
    hide Step, Accounted, ChannelOk;
    if events == [] {
      NewInv();
    } else {
      RunInv(events[..|events| - 1]);
      if StateAfter(events).Some? {
        StepInv(StateAfter(events[..|events| - 1]).value, events[|events| - 1]);
      }
    }
  }

  // ---- main results ----

  /** An event at which the run breaks off: it fails an assertion. */
  ghost predicate FailsAt(events: seq<Event>, i: nat) {
    i < |events| && StateAfter(events[..i]).Some? && Fails(StateAfter(events[..i]).value, events[i])
  }

  /** A restart that finds an attempt in progress. */
  ghost predicate RestartsEarly(events: seq<Event>, i: nat) {
    && i < |events| && events[i].Again?
    && StateAfter(events[..i]).Some? && StateAfter(events[..i]).value.state == Connecting
  }

  lemma Shorter(events: seq<Event>, i: nat)
    requires i < |events|
    ensures events[..|events| - 1][..i] == events[..i]
  {
  }

  /** A run breaks off exactly where startInLoop is called in a state it does not allow; the
      assertion of handleWrite never fails. */
  lemma {:induction false} BreaksOffIff(events: seq<Event>)
    ensures StateAfter(events).None? <==> exists i: nat :: FailsAt(events, i)
  {
    hide Step, Inv, Fails;
    if events != [] {
      var last := |events| - 1;
      var before := events[..last];
      BreaksOffIff(before);
      RunInv(before);
      if StateAfter(before).Some? { StepInv(StateAfter(before).value, events[last]); }
      forall i: nat
        ensures FailsAt(events, i) <==> FailsAt(before, i) || (i == last && FailsAt(events, last))
      {
        if i < |events| { Shorter(events, i); }
      }
      if StateAfter(events).None? {
        if StateAfter(before).None? {
          var i: nat :| FailsAt(before, i);
          assert FailsAt(events, i);
        } else {
          assert FailsAt(events, last);
        }
      }
    }
  }

  /** A socket is abandoned, for good, exactly if some restart found an attempt in progress. */
  lemma {:induction false} AbandonedIff(events: seq<Event>)
    requires StateAfter(events).Some?
    ensures Abandoned(StateAfter(events).value) <==> exists i: nat :: RestartsEarly(events, i)
  {
    hide Step, Inv, Abandoned;
    if events == [] {
      assert !Abandoned(NEW) by { NewNotAbandoned(); }
    } else {
      var last := |events| - 1;
      var before := events[..last];
      AbandonedIff(before);
      RunInv(before);
      StepInv(StateAfter(before).value, events[last]);
      forall i: nat
        ensures RestartsEarly(events, i) <==> RestartsEarly(before, i) || (i == last && RestartsEarly(events, last))
      {
        if i < |events| { Shorter(events, i); }
      }
      if Abandoned(StateAfter(before).value) {
        var i: nat :| RestartsEarly(before, i);
        assert RestartsEarly(events, i);
      }
      assert RestartsEarly(events, last) <==> events[last].Again? && StateAfter(before).value.state == Connecting;
    }
  }

  lemma NewNotAbandoned()
    ensures !Abandoned(NEW)
  {
  }

  /** In every run each socket opened is in exactly one place, held by the attempt in progress,
      closed once or handed over once, save the abandoned one, which is in none; and no other
      socket was touched. */
  lemma SocketsAccounted(events: seq<Event>)
    requires StateAfter(events).Some?
    ensures var v := StateAfter(events).value;
            && (forall fd: Fd | fd < v.sockets ::
                  Places(v, fd) == if Abandoned(v) && v.channel == Some(fd) then 0 else 1)
            && (forall fd: Fd | fd >= v.sockets :: Places(v, fd) == 0)
            && (Abandoned(v) ==> v.channel.value < v.sockets)
  {
    RunInv(events);
  }

  /** So all sockets are accounted for if and only if no restart found an attempt in progress. */
  lemma AccountedIff(events: seq<Event>)
    requires StateAfter(events).Some?
    ensures var v := StateAfter(events).value;
            (forall fd: Fd | fd < v.sockets :: Places(v, fd) == 1) <==> forall i: nat :: !RestartsEarly(events, i)
  {
    hide Step, Inv, StateAfter, Places, RestartsEarly;
    SocketsAccounted(events);
    AbandonedIff(events);
    var v := StateAfter(events).value;
    if Abandoned(v) { assert Places(v, v.channel.value) == 0; }
  }

  /** The shortest such run: a refused restart of an attempt in progress loses socket 0. */
  lemma RestartLosesSocket()
    ensures var v := StateAfter([Start(InProgress), Again(Refused)]);
            v.Some? && v.value.sockets == 2 && Places(v.value, 0) == 0 && Places(v.value, 1) == 1
  {
    assert [Start(InProgress), Again(Refused)][..1] == [Start(InProgress)];
    assert [Start(InProgress)][..0] == [];
    assert StateAfter([Start(InProgress)]) == Step(NEW, Start(InProgress));
  }

  /** How many calls of startInLoop found that a connection was wanted. */
  function Attempts(events: seq<Event>): nat {
    if events == [] then 0
    else
      var before, e := StateAfter(events[..|events| - 1]), events[|events| - 1];
      Attempts(events[..|events| - 1]) +
      if before.Some? && Starts(before.value, e) && (before.value.connect || !e.TimerFires?) then 1 else 0
  }

  lemma SocketOpened(v: View, e: Event)
    requires Step(v, e).Some?
    ensures Step(v, e).value.sockets == v.sockets + if Starts(v, e) && (v.connect || !e.TimerFires?) then 1 else 0
  {
  }

  lemma {:induction false} SocketPerAttempt(events: seq<Event>)
    requires StateAfter(events).Some?
    ensures StateAfter(events).value.sockets == Attempts(events)
  {
    hide Step, Starts;
    if events != [] {
      SocketPerAttempt(events[..|events| - 1]);
      SocketOpened(StateAfter(events[..|events| - 1]).value, events[|events| - 1]);
    }
  }

  /** An attempt in progress that this event ends: the socket failed, is refused after all, is
      connected to itself, or is given up by a stop. */
  predicate Breaks(v: View, e: Event) {
    v.state == Connecting &&
    match e
    case Ready(failed, writable, error, selfConnect) => failed || (writable && (error || selfConnect))
    case RunStop => v.stops > 0
    case _ => false
  }

  predicate Succeeds(v: View, e: Event) {
    v.state == Connecting && e.Ready? && e.writable && !e.failed && !e.error && !e.selfConnect
  }

  /** What becomes of an attempt in progress: broken it is closed and its channel taken down,
      successful it is handed over if still wanted and closed if not, and any other event but a
      restart leaves it alone. */
  ghost predicate Ended(v: View, e: Event, w: View)
    requires v.channel.Some?
  {
    var fd, lost := v.channel.value, Breaks(v, e) || (Succeeds(v, e) && !v.connect);
    && w.state == (if Breaks(v, e) then Disconnected else if Succeeds(v, e) then Connected else Connecting)
    && w.closed == v.closed + (if lost then multiset{fd} else multiset{})
    && w.handed == v.handed + (if Succeeds(v, e) && v.connect then multiset{fd} else multiset{})
    && (Breaks(v, e) || Succeeds(v, e) <==> w.resets == 1)
  }

  lemma AttemptEnds(v: View, e: Event)
    requires Inv(v) && v.state == Connecting && !e.Again? && Step(v, e).Some?
    ensures Ended(v, e, Step(v, e).value)
  {
    hide Accounted, BackoffOk, Min;
    if e.Ready? {
      hide Ended;
      ReadyEnds(v, e);
    }
  }

  lemma ReadyEnds(v: View, e: Event)
    requires ChannelOk(v) && v.state == Connecting && e.Ready? && Step(v, e).Some?
    ensures Ended(v, e, Step(v, e).value)
  {
    hide Started, Restarted, Min;
  }

  /** A retry is scheduled exactly when an attempt fails that is still wanted, and a timer fires
      once. */
  lemma RetryScheduledIff(v: View, e: Event)
    requires Inv(v) && Step(v, e).Some?
    ensures var refused := Starts(v, e) && (v.connect || !e.TimerFires?) && e.result == Refused;
            Step(v, e).value.timers ==
              v.timers - (if e.TimerFires? && v.timers > 0 then 1 else 0)
              + (if refused || (Breaks(v, e) && v.connect) then 1 else 0)
  {
    hide Accounted, BackoffOk, Min;
  }

  /** After a stop, as long as nobody starts or restarts, no socket is opened or handed over. */
  lemma {:induction false} StopHolds(events: seq<Event>, i: nat)
    requires StateAfter(events).Some? && i < |events| && events[i].Stop?
    requires forall j | i < j < |events| :: !events[j].Start? && !events[j].Again?
    ensures StateAfter(events[..i]).Some?
    ensures var u, v := StateAfter(events[..i]).value, StateAfter(events).value;
            !v.connect && v.sockets == u.sockets && v.handed == u.handed
  {
    hide Step;
    var last := |events| - 1;
    var before := events[..last];
    StopStep(StateAfter(before).value, events[last]);
    if i < last {
      Shorter(events, i);
      StopHolds(before, i);
    }
  }

  lemma StopStep(v: View, e: Event)
    requires Step(v, e).Some?
    ensures var w := Step(v, e).value;
            && (e.Stop? ==> !w.connect && w.sockets == v.sockets && w.handed == v.handed)
            && (!v.connect && !e.Start? && !e.Again? ==>
                  !w.connect && w.sockets == v.sockets && w.handed == v.handed)
  {
  }

  // ---- the connector itself ----

  class Conn {
    var connect: bool
    var state: ConnState
    var channel: Option<Fd>
    var retryDelay: nat
    var resets: nat
    var stops: nat
    var timers: nat
    var sockets: nat
    ghost var closed: multiset<Fd>
    ghost var handed: multiset<Fd>
    ghost var waits: seq<nat>

    ghost function Now(): View
      reads this
    {
      View(connect, state, channel, retryDelay, resets, stops, timers, sockets, closed, handed, waits)
    }

    constructor ()
      ensures Now() == NEW
    {
      connect, state, channel, retryDelay := false, Disconnected, None, INIT_RETRY_DELAY;
      resets, stops, timers, sockets := 0, 0, 0, 0;
      closed, handed, waits := multiset{}, multiset{}, [];
    }

    /** retry: the socket that failed is closed, and a new attempt scheduled if still wanted. */
    method Retry(fd: Fd)
      modifies this`state, this`timers, this`retryDelay, this`waits, this`closed
      ensures Now() == Retried(old(Now()), fd)
      ensures state == Disconnected && closed == old(closed) + multiset{fd}
      ensures connect ==> timers == old(timers) + 1 && waits == old(waits) + [old(retryDelay)]
      ensures !connect ==> timers == old(timers) && waits == old(waits) && retryDelay == old(retryDelay)
    {
      closed := closed + multiset{fd};
      state := Disconnected;
      if connect {
        timers := timers + 1;
        waits := waits + [retryDelay];
        retryDelay := Min(retryDelay * 2, MAX_RETRY_DELAY);
      }
    }

    /** startInLoop and connect.  Its assertions hold if and only if the connector is
        disconnected and, where a new channel is made, there is none yet. */
    method StartInLoop(result: ConnectResult) returns (ok: bool)
      modifies this
      ensures ok <==> MayStart(old(state), connect, result, old(channel))
      ensures connect == old(connect)
      ensures ok <==> Started(old(Now()), result).Some?
      ensures ok ==> Now() == Started(old(Now()), result).value
      ensures ok ==> sockets == old(sockets) + if connect then 1 else 0
      ensures ok ==> state == if connect && result == InProgress then Connecting else Disconnected
    {
      if state != Disconnected {
        return false;
      }
      if connect {
        var fd := sockets;
        sockets := sockets + 1;
        match result {
          case InProgress =>
            state := Connecting;
            if channel.Some? {
              return false;
            }
            channel := Some(fd);
          case Refused => Retry(fd);
          case Fatal => closed := closed + multiset{fd};
        }
      }
      return true;
    }

    /** start on the loop thread. */
    method StartConnecting(result: ConnectResult) returns (ok: bool)
      modifies this
      ensures ok <==> MayStart(old(state), true, result, old(channel))
      ensures ok <==> Step(old(Now()), Start(result)).Some?
      ensures ok ==> Now() == Step(old(Now()), Start(result)).value
    {
      connect := true;
      ok := StartInLoop(result);
    }

    /** restart: a fresh start with the first delay again, whatever the state.  While connecting
        it fails an assertion if the new attempt gets under way, and otherwise leaves the old
        channel in the poller with nobody to close its socket. */
    method Restart(result: ConnectResult) returns (ok: bool)
      requires Inv(Now())
      modifies this
      ensures ok <==> MayStart(Disconnected, true, result, old(channel))
      ensures ok <==> Restarted(old(Now()), result).Some?
      ensures ok ==> Now() == Restarted(old(Now()), result).value && Inv(Now())
      ensures ok ==> (Abandoned(Now()) <==> old(state) == Connecting || Abandoned(old(Now())))
      ensures ok ==> connect && waits == if result == Refused then [INIT_RETRY_DELAY] else []
    {
      AgainStep(Now(), result);
      state := Disconnected;
      retryDelay := INIT_RETRY_DELAY;
      waits := [];
      connect := true;
      ok := StartInLoop(result);
    }

    method StopConnecting()
      modifies this`connect, this`stops
      ensures !connect && stops == old(stops) + 1
    {
      connect := false;
      stops := stops + 1;
    }

    /** Takes the channel out of the poller; it is destroyed by the reset queued here. */
    method RemoveAndResetChannel() returns (fd: Fd)
      requires Polled(Now())
      modifies this`resets
      ensures Some(fd) == channel && resets == 1
    {
      fd := channel.value;
      resets := resets + 1;
    }

    method StopInLoop()
      requires Inv(Now()) && stops > 0
      modifies this
      ensures Now() == GivenUp(old(Now()).(stops := old(stops) - 1))
      ensures state != Connecting && sockets == old(sockets)
      ensures old(state) == Connecting ==> closed == old(closed) + multiset{old(channel).value} && resets == 1
    {
      hide Accounted, BackoffOk, Min;
      stops := stops - 1;
      if state == Connecting {
        state := Disconnected;
        var fd := RemoveAndResetChannel();
        Retry(fd);
      }
    }

    method ResetChannel()
      requires resets > 0
      modifies this`channel, this`resets
      ensures channel == None && resets == old(resets) - 1
    {
      channel := None;
      resets := resets - 1;
    }

    /** The attempt has ended: the socket is handed over if it is good and still wanted, and
        closed otherwise.  Its assertion fails if and only if the connector is connected. */
    method HandleWrite(error: bool, selfConnect: bool) returns (ok: bool)
      requires Inv(Now())
      modifies this
      ensures ok <==> old(state) != Connected
      ensures ok <==> Finished(old(Now()), error, selfConnect).Some?
      ensures ok ==> Now() == Finished(old(Now()), error, selfConnect).value
      ensures old(state) != Connecting ==> Now() == old(Now())
      ensures old(state) == Connecting ==>
                var fd := old(channel).value;
                var good := !error && !selfConnect;
                && state == (if good then Connected else Disconnected)
                && closed == (if good && connect then old(closed) else old(closed) + multiset{fd})
                && handed == (if good && connect then old(handed) + multiset{fd} else old(handed))
    {
      hide Accounted, BackoffOk, Retried;
      if state == Connecting {
        var fd := RemoveAndResetChannel();
        if error {
          Retry(fd);
        } else if selfConnect {
          Retry(fd);
        } else {
          state := Connected;
          if connect {
            handed := handed + multiset{fd};
          } else {
            closed := closed + multiset{fd};
          }
        }
        ok := true;
      } else {
        ok := state == Disconnected;
      }
    }

    method HandleError()
      requires Inv(Now())
      modifies this
      ensures Now() == GivenUp(old(Now()))
      ensures old(state) == Connecting ==> state == Disconnected && closed == old(closed) + multiset{old(channel).value}
      ensures old(state) != Connecting ==> Now() == old(Now())
    {
      if state == Connecting {
        var fd := RemoveAndResetChannel();
        Retry(fd);
      }
    }

    /** The channel's dispatch, error callback first; after that one the write callback finds
        the connector disconnected. */
    method HandleEvent(failed: bool, writable: bool, error: bool, selfConnect: bool) returns (ok: bool)
      requires Inv(Now()) && Polled(Now())
      modifies this
      ensures ok && Some(Now()) == Step(old(Now()), Ready(failed, writable, error, selfConnect))
      ensures old(state) == Connecting && failed ==>
                state == Disconnected && closed == old(closed) + multiset{old(channel).value} && resets == 1
      ensures old(state) == Connecting && failed ==> handed == old(handed)
    {
      ReadyStep(Now(), Ready(failed, writable, error, selfConnect));
      GivenUpInv(Now());
      ok := true;
      if failed {
        HandleError();
      }
      if writable {
        ok := HandleWrite(error, selfConnect);
      }
    }
  }

  /** One callback or call; those with nothing queued for them do not happen. */
  method Handle(c: Conn, e: Event) returns (ok: bool)
    requires Inv(c.Now())
    modifies c
    ensures ok <==> !Fails(old(c.Now()), e)
    ensures ok <==> Step(old(c.Now()), e).Some?
    ensures ok ==> c.Now() == Step(old(c.Now()), e).value
  {
    hide Started, Restarted, Finished, GivenUp, Inv;
    StepInv(c.Now(), e);
    ok := true;
    match e {
      case Start(result) => ok := c.StartConnecting(result);
      case Again(result) => ok := c.Restart(result);
      case TimerFires(result) =>
        if c.timers > 0 {
          c.timers := c.timers - 1;
          ok := c.StartInLoop(result);
        }
      case Stop => c.StopConnecting();
      case RunStop => if c.stops > 0 { c.StopInLoop(); }
      case RunReset => if c.resets > 0 { c.ResetChannel(); }
      case Ready(failed, writable, error, selfConnect) =>
        if c.channel.Some? && c.resets == 0 {
          ok := c.HandleEvent(failed, writable, error, selfConnect);
        }
    }
  }

  /** Every run: it breaks off exactly where an event fails an assertion.  Otherwise each socket
      ever opened, one for each attempt, is held by the attempt in progress, has been closed, or
      has been handed over, exactly one of them and exactly once, if and only if no restart
      found an attempt in progress; the channel is there only while polled or until its queued
      reset; and the k-th retry in a row waited 500 * 2^k milliseconds, at most 30000. */
  method Run(events: seq<Event>) returns (c: Conn, ok: bool)
    ensures fresh(c)
    ensures ok <==> forall i: nat :: !FailsAt(events, i)
    ensures ok ==> StateAfter(events) == Some(c.Now()) && c.sockets == Attempts(events)
    ensures ok ==> ((forall fd: Fd | fd < c.sockets :: Places(c.Now(), fd) == 1) <==>
                    forall i: nat :: !RestartsEarly(events, i))
    ensures ok ==>
              (c.channel.Some? <==> c.state == Connecting || c.resets > 0 || exists i: nat :: RestartsEarly(events, i))
    ensures ok ==> forall k | 0 <= k < |c.waits| :: c.waits[k] == Min(INIT_RETRY_DELAY * Power2(k), MAX_RETRY_DELAY)
  {
    hide Step, Fails, Accounted, FailsAt, RestartsEarly, Attempts, Places;
    c := new Conn();
    ok := true;
    for i := 0 to |events|
      invariant fresh(c) && ok && StateAfter(events[..i]) == Some(c.Now())
    {
      RunInv(events[..i]);
      BreaksOffIff(events);
      ok := Handle(c, events[i]);
      if !ok {
        FailedAt(events, i);
        return;
      }
      assert events[..i + 1][..i] == events[..i];
    }
    assert events[..|events|] == events;
    RunInv(events);
    BreaksOffIff(events);
    AccountedIff(events);
    AbandonedIff(events);
    SocketPerAttempt(events);
  }

  lemma FailedAt(events: seq<Event>, i: nat)
    requires i < |events| && StateAfter(events[..i]).Some? && Fails(StateAfter(events[..i]).value, events[i])
    ensures FailsAt(events, i)
  {
  }
}
