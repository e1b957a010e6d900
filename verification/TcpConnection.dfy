/**
  The sending side of a connection, with every call on the loop thread.  What the kernel
  does with a write is an input; the bytes it took are the wire.  A method that can fail an
  assertion of the code reports it in `ok`.
 */
module TcpConnection {
  import opened Basics

  type Byte = char

  datatype ConnState = Disconnected | Connecting | Disconnecting | Connected

  /** The outcome of one write call: bytes taken, or an errno. */
  datatype WriteResult = Wrote(n: nat) | WouldBlock | Broken | OtherError

  datatype Event =
    | Send(data: seq<Byte>, result: WriteResult)
    | Writable(result: WriteResult)
    | Shutdown
    | ForceClose
    | RunForcedClose
    | PeerClosed
    | Destroy

  function Taken(result: WriteResult, len: nat): (n: nat)
    ensures n <= len
  {
    if result.Wrote? then if result.n <= len then result.n else len else 0
  }

  // ---- what the calls mean ----

  /** A connection once established.  `shutdowns` counts half-closes, `forced` queued forced
      closes; `removed` says that the channel was taken out of the poller; `accepted` is the
      history of bytes taken over from callers, `asked` whether shutdown() took effect. */
  datatype View = View(
    state: ConnState, output: seq<Byte>, writing: bool, reading: bool, shutdowns: nat, forced: nat,
    removed: bool, wire: seq<Byte>, accepted: seq<Byte>, asked: bool)

  const UP := View(Connected, [], false, true, 0, 0, false, [], [], false)

  /** A send is taken whole or not at all: it is refused unless connected, and dropped when
      the direct write finds the connection broken. */
  predicate Takes(v: View, result: WriteResult) { v.state == Connected && !(v.output == [] && result.Broken?) }

  function Sent(v: View, data: seq<Byte>, result: WriteResult): View {
    if !Takes(v, result) then v
    else
      var n := if v.output == [] then Taken(result, |data|) else 0;
      v.(wire := v.wire + data[..n], output := v.output + data[n..], accepted := v.accepted + data,
      writing := v.writing || n < |data|)
  }

  function Drained(v: View, result: WriteResult): View {
    var n := Taken(result, |v.output|);
    if !v.writing || n == 0 then v
    else
      v.(wire := v.wire + v.output[..n], output := v.output[n..], writing := n < |v.output|,
      shutdowns := v.shutdowns + if n == |v.output| && v.state == Disconnecting then 1 else 0)
  }

  function Closed(v: View): View {
    if v.state == Connected || v.state == Disconnecting
    then v.(state := Disconnected, writing := false, reading := false) else v
  }

  /** One call or callback, None where an assertion fails; those with nothing queued or no read
      interest do not happen. */
  function Step(v: View, e: Event): Option<View> {
    match e
    case Send(data, result) => Some(Sent(v, data, result))
    case Writable(result) => Some(Drained(v, result))
    case Shutdown =>
      Some(if v.state != Connected then v
           else v.(state := Disconnecting, asked := true, shutdowns := v.shutdowns + if v.writing then 0 else 1))
    case ForceClose =>
      Some(if v.state == Connected || v.state == Disconnecting
           then v.(state := Disconnecting, forced := v.forced + 1) else v)
    case RunForcedClose => Some(if v.forced > 0 then Closed(v.(forced := v.forced - 1)) else v)
    case PeerClosed => Some(if v.reading then Closed(v) else v)
    case Destroy => if v.state == Disconnecting || v.removed then None else Some(Closed(v).(removed := true))
  }

  /** The connection after a run, None if an assertion failed on the way. */
  function StateAfter(events: seq<Event>): Option<View> {
    if events == [] then Some(UP)
    else
      match StateAfter(events[..|events| - 1])
      case None => None
      case Some(v) => Step(v, events[|events| - 1])
  }

  // ---- what every run keeps ----

  ghost predicate Inv(v: View) {
    && v.wire + v.output == v.accepted
    && v.state != Connecting
    && (v.state != Disconnected ==> (v.writing <==> v.output != []) && v.reading)
    && (v.state == Disconnected ==> !v.writing && !v.reading)
    && (v.removed ==> v.state == Disconnected)
    && (v.state == Connected ==> v.shutdowns == 0 && v.forced == 0 && !v.asked)
    && v.shutdowns <= 1
    && (v.shutdowns == 1 ==> v.output == [])
    && (v.state == Disconnecting && v.asked && v.output == [] ==> v.shutdowns == 1)
  }

  lemma SentInv(v: View, data: seq<Byte>, result: WriteResult)
    requires Inv(v)
    ensures Inv(Sent(v, data, result))
  {
    var n := if v.output == [] then Taken(result, |data|) else 0;
    assert data[..n] + data[n..] == data;
    if v.output == [] {
      assert v.output + data[n..] == data[n..] && v.wire + v.output == v.wire;
      Regroup(v.wire, data[..n], data[n..]);
    } else {
      assert v.wire + data[..0] == v.wire && data[0..] == data;
      Regroup(v.wire, v.output, data);
    }
  }

  lemma DrainedInv(v: View, result: WriteResult)
    requires Inv(v)
    ensures Inv(Drained(v, result))
  {
    var n := Taken(result, |v.output|);
    assert v.output[..n] + v.output[n..] == v.output;
    Regroup(v.wire, v.output[..n], v.output[n..]);
  }

  lemma StepInv(v: View, e: Event)
    requires Inv(v)
    ensures Step(v, e).Some? ==> Inv(Step(v, e).value)
  {
    hide Sent, Drained;
    match e {
      case Send(data, result) => SentInv(v, data, result);
      case Writable(result) => DrainedInv(v, result);
      case _ =>
    }
  }

  lemma {:induction false} RunInv(events: seq<Event>)
    ensures StateAfter(events).Some? ==> Inv(StateAfter(events).value)
  {
    hide Step;
    if events != [] {
      RunInv(events[..|events| - 1]);
      if StateAfter(events).Some? {
        StepInv(StateAfter(events[..|events| - 1]).value, events[|events| - 1]);
      }
    }
  }

  // ---- main results ----

  /** Events that end or begin to end a connection. */
  predicate Ends(e: Event) { e.Shutdown? || e.ForceClose? || e.PeerClosed? || e.Destroy? }

  /** A connection is up exactly as long as none of these happened, and a send is taken exactly
      as long as it is up, save one whose direct write finds the peer gone. */
  lemma {:induction false} ConnectedIff(events: seq<Event>)
    ensures StateAfter(events).Some? && StateAfter(events).value.state == Connected <==>
            forall i | 0 <= i < |events| :: !Ends(events[i])
  {
    hide Sent, Drained;
    if events != [] {
      var before := events[..|events| - 1];
      ConnectedIff(before);
      RunInv(before);
      assert events == before + [events[|events| - 1]];
      if StateAfter(before).Some? { StepState(StateAfter(before).value, events[|events| - 1]); }
    }
  }

  lemma StepState(v: View, e: Event)
    requires Inv(v)
    ensures Step(v, e).Some? && Step(v, e).value.state == Connected <==> v.state == Connected && !Ends(e)
  {
  }

  /** A destruction that fails an assertion: the channel's, on a connection that is closing, or
      the poller's, on one destroyed before. */
  ghost predicate FailsAt(events: seq<Event>, i: nat) {
    && i < |events| && events[i].Destroy? && StateAfter(events[..i]).Some?
    && (StateAfter(events[..i]).value.state == Disconnecting || exists j | 0 <= j < i :: events[j].Destroy?)
  }

  /** The channel is out of the poller exactly after a destruction. */
  lemma {:induction false} RemovedIff(events: seq<Event>)
    requires StateAfter(events).Some?
    ensures StateAfter(events).value.removed <==> exists j | 0 <= j < |events| :: events[j].Destroy?
  {
    hide Sent, Drained;
    if events != [] {
      var before, last := events[..|events| - 1], |events| - 1;
      RemovedIff(before);
      assert forall j | 0 <= j < last :: before[j] == events[j];
      RemovedStep(StateAfter(before).value, events[last]);
      if StateAfter(before).value.removed {
        var j :| 0 <= j < last && before[j].Destroy?;
        assert events[j].Destroy?;
      }
    }
  }

  lemma RemovedStep(v: View, e: Event)
    requires Step(v, e).Some?
    ensures Step(v, e).value.removed <==> v.removed || e.Destroy?
  {
  }

  /** A run breaks off exactly where a connection is destroyed that is closing or was destroyed
      before. */
  lemma {:induction false} BreaksOffIff(events: seq<Event>)
    ensures StateAfter(events).None? <==> exists i: nat :: FailsAt(events, i)
  {
    if events != [] {
      var last := |events| - 1;
      var before := events[..last];
      BreaksOffIff(before);
      forall i: nat
        ensures FailsAt(events, i) <==> FailsAt(before, i) || (i == last && FailsAt(events, last))
      {
        if i < last {
          assert before[..i] == events[..i];
          assert forall j | 0 <= j <= i :: before[j] == events[j];
        }
      }
      if StateAfter(before).Some? {
        RemovedIff(before);
        assert forall j | 0 <= j < last :: before[j] == events[j];
      }
      if StateAfter(before).None? {
        var i: nat :| FailsAt(before, i);
        assert FailsAt(events, i);
      } else if StateAfter(events).None? {
        assert FailsAt(events, last);
      }
    }
  }

  /** The bytes of the sends that were taken, in order. */
  function Accepted(events: seq<Event>): seq<Byte> {
    if events == [] then []
    else
      var before, e := StateAfter(events[..|events| - 1]), events[|events| - 1];
      Accepted(events[..|events| - 1]) +
      if e.Send? && before.Some? && Takes(before.value, e.result) then e.data else []
  }

  lemma {:induction false} AcceptedBytes(events: seq<Event>)
    requires StateAfter(events).Some?
    ensures StateAfter(events).value.accepted == Accepted(events)
  {
    if events != [] {
      AcceptedBytes(events[..|events| - 1]);
      AcceptedStep(StateAfter(events[..|events| - 1]).value, events[|events| - 1]);
    }
  }

  lemma AcceptedStep(v: View, e: Event)
    requires Step(v, e).Some?
    ensures Step(v, e).value.accepted == v.accepted + if e.Send? && Takes(v, e.result) then e.data else []
  {
  }

  /** What a write call made by this event is offered: a send writes directly when it finds the
      buffer empty, a writable socket is given the buffer. */
  function Offered(v: View, e: Event): nat {
    match e
    case Send(data, _) => if v.state == Connected && v.output == [] then |data| else 0
    case Writable(_) => if v.writing then |v.output| else 0
    case _ => 0
  }

  /** The sum of the counts that the write calls of a run reported; a count is at most what the
      call was offered, and an errno is no count. */
  function Reported(events: seq<Event>): nat {
    if events == [] then 0
    else
      var before, e := StateAfter(events[..|events| - 1]), events[|events| - 1];
      var offered := if before.Some? then Offered(before.value, e) else 0;
      Reported(events[..|events| - 1]) +
      match e
      case Send(_, Wrote(n)) => if n < offered then n else offered
      case Writable(Wrote(n)) => if n < offered then n else offered
      case _ => 0
  }

  /** What went to the wire is as long as the write calls said, neither more nor less. */
  lemma {:induction false} WroteReported(events: seq<Event>)
    requires StateAfter(events).Some?
    ensures |StateAfter(events).value.wire| == Reported(events)
  {
    if events != [] {
      WroteReported(events[..|events| - 1]);
      RunInv(events[..|events| - 1]);
      WroteStep(StateAfter(events[..|events| - 1]).value, events[|events| - 1]);
    }
  }

  lemma WroteStep(v: View, e: Event)
    requires Inv(v) && Step(v, e).Some?
    ensures |Step(v, e).value.wire| - |v.wire| ==
            match e
            case Send(_, Wrote(n)) => if n < Offered(v, e) then n else Offered(v, e)
            case Writable(Wrote(n)) => if n < Offered(v, e) then n else Offered(v, e)
            case _ => 0
  {
  }

  /** A forced close goes through: whatever happens after the call, once a queued forced close has
      run the connection is down, and until then one is queued or it is down already. */
  lemma {:induction false} ForceCloses(events: seq<Event>, i: nat)
    requires StateAfter(events).Some? && i < |events| && events[i].ForceClose?
    ensures var v := StateAfter(events).value;
            && (v.forced > 0 || v.state == Disconnected)
            && ((exists j | i < j < |events| :: events[j].RunForcedClose?) ==> v.state == Disconnected)
  {
    hide Sent, Drained;
    var last := |events| - 1;
    var before := events[..last];
    RunInv(before);
    ForcedStep(StateAfter(before).value, events[last]);
    if i < last {
      ForceCloses(before, i);
      assert forall j | 0 <= j < last :: before[j] == events[j];
      if j :| i < j < last && events[j].RunForcedClose? { assert before[j].RunForcedClose?; }
    }
  }

  lemma ForcedStep(v: View, e: Event)
    requires Inv(v) && Step(v, e).Some?
    ensures var w := Step(v, e).value;
            && (e.ForceClose? ==> w.forced > 0 || w.state == Disconnected)
            && (v.state == Disconnected ==> w.state == Disconnected)
            && (v.forced > 0 ==> if e.RunForcedClose? then w.state == Disconnected else w.forced > 0)
  {
  }

  /** Nothing accepted, written or half-closed is ever taken back. */
  lemma OnlyGrows(v: View, e: Event)
    requires Step(v, e).Some?
    ensures var w := Step(v, e).value; v.shutdowns <= w.shutdowns && v.accepted <= w.accepted && v.wire <= w.wire
  {
  }

  /** Once half-closed, nothing more is accepted or written, and it stays half-closed. */
  lemma HalfClosedStays(v: View, e: Event)
    requires Inv(v) && v.shutdowns == 1 && Step(v, e).Some?
    ensures var w := Step(v, e).value; w.shutdowns == 1 && w.accepted == v.accepted && w.wire == v.wire
  {
  }

  // ---- the connection itself ----

  class Connection {
    var state: ConnState
    var output: seq<Byte>
    var writing: bool
    var reading: bool
    var shutdowns: nat
    var forced: nat
    var removed: bool
    var wire: seq<Byte>
    /** All bytes taken over from callers, in order. */
    ghost var accepted: seq<Byte>
    /** shutdown() took effect. */
    ghost var asked: bool

    ghost function Now(): View
      reads this
    {
      View(state, output, writing, reading, shutdowns, forced, removed, wire, accepted, asked)
    }

    ghost predicate Valid()
      reads this
    {
      Inv(Now())
    }

    constructor ()
      ensures Now() == UP.(state := Connecting, reading := false)
    {
      state, output, writing, reading, shutdowns, forced, removed := Connecting, [], false, false, 0, 0, false;
      wire, accepted, asked := [], [], false;
    }

    method ConnectEstablished()
      requires state == Connecting
      modifies this`state, this`reading
      ensures state == Connected && reading
    {
      state := Connected;
      reading := true;
    }

    /** A send is taken whole or not at all: it is refused unless connected, and dropped when
        the direct write finds the connection broken. */
    method SendData(data: seq<Byte>, result: WriteResult)
      requires Valid()
      modifies this
      ensures Valid() && state == old(state) && shutdowns == old(shutdowns) && asked == old(asked)
      ensures accepted == old(accepted) +
                if old(state) != Connected || (old(output) == [] && result.Broken?) then [] else data
      ensures old(state) != Connected || old(output) != [] || !result.Wrote? ==> wire == old(wire)
      ensures old(state) != Connected ==> output == old(output) && writing == old(writing)
      ensures old(state) == Connected && old(output) == [] && result.Wrote? && result.n <= |data| ==>
                && wire == old(wire) + data[..result.n] && output == data[result.n..]
                && (writing <==> result.n < |data|)
      ensures Now() == Sent(old(Now()), data, result)
    {
      if state == Connected {
        SendInLoop(data, result);
      }
    }

    method SendInLoop(data: seq<Byte>, result: WriteResult)
      requires Valid() && state == Connected
      modifies this`wire, this`output, this`writing, this`accepted
      ensures Valid() && Now() == Sent(old(Now()), data, result)
      ensures accepted == old(accepted) + if old(output) == [] && result.Broken? then [] else data
      ensures old(output) == [] && result.Wrote? && result.n <= |data| ==>
                && wire == old(wire) + data[..result.n] && output == data[result.n..]
                && (writing <==> result.n < |data|)
      ensures old(output) == [] && result.Wrote? && result.n > |data| ==>
                wire == old(wire) + data && output == [] && !writing
      ensures old(output) != [] || !result.Wrote? ==>
                && wire == old(wire)
                && output == old(output) + if old(output) == [] && result.Broken? then [] else data
    {
      SentInv(Now(), data, result);
      assert writing <==> output != [];
      hide Inv;
      assert wire + data[..0] == wire && output + data[|data|..] == output;
      var nwrote, faultError := 0, false;
      if !writing && |output| == 0 {
        nwrote := Taken(result, |data|);
        faultError := result.Broken?;
        wire := wire + data[..nwrote];
      }
      if !faultError {
        if nwrote < |data| {
          output := output + data[nwrote..];
          writing := true;
        }
        accepted := accepted + data;
      }
    }

    method ShutdownWrite()
      requires wire + output == accepted && shutdowns == 0 && output == []
      modifies this`shutdowns
      ensures shutdowns == 1 && wire == accepted
    {
      shutdowns := shutdowns + 1;
    }

    method ShutdownInLoop()
      requires wire + output == accepted && (writing <==> output != []) && shutdowns == 0
      modifies this`shutdowns
      ensures shutdowns == if output == [] then 1 else 0
    {
      if !writing {
        ShutdownWrite();
      }
    }

    /** Takes effect only when connected; the half-close itself waits for the buffer. */
    method ShutdownSend()
      requires Valid()
      modifies this`state, this`shutdowns, this`asked
      ensures Valid() && Some(Now()) == Step(old(Now()), Shutdown)
      ensures state == if old(state) == Connected then Disconnecting else old(state)
      ensures shutdowns == if old(state) == Connected && output == [] then 1 else old(shutdowns)
    {
      if state == Connected {
        state := Disconnecting;
        asked := true;
        ShutdownInLoop();
      }
    }

    /** The socket is writable: the buffer's front goes out, and the last byte of a closing
        connection is followed by the half-close. */
    method HandleWrite(result: WriteResult)
      requires Valid()
      modifies this`wire, this`output, this`writing, this`shutdowns
      ensures Valid() && Now() == Drained(old(Now()), result)
      ensures old(writing) && result.Wrote? && result.n <= |old(output)| ==>
                && wire == old(wire) + old(output)[..result.n] && output == old(output)[result.n..]
                && (writing <==> result.n < |old(output)|)
      ensures old(writing) && result.Wrote? && result.n > |old(output)| ==>
                wire == old(wire) + old(output) && output == [] && !writing
      ensures !old(writing) || !result.Wrote? ==>
                wire == old(wire) && output == old(output) && writing == old(writing)
      ensures shutdowns == if old(writing) && output == [] && state == Disconnecting then 1 else old(shutdowns)
    {
      if writing {
        var n := Taken(result, |output|);
        if n > 0 {
          wire := wire + output[..n];
          assert output[..n] + output[n..] == output;
          output := output[n..];
          if |output| == 0 {
            writing := false;
            if state == Disconnecting {
              ShutdownInLoop();
            }
          }
        }
      }
    }

    method HandleClose()
      requires Valid() && (state == Connected || state == Disconnecting)
      modifies this`state, this`writing, this`reading
      ensures Valid() && state == Disconnected && Now() == Closed(old(Now()))
    {
      state := Disconnected;
      writing, reading := false, false;
    }

    /** A read of zero bytes; only an enabled channel delivers it, so the state HandleClose
        asserts holds. */
    method HandlePeerClosed()
      requires Valid() && reading
      modifies this`state, this`writing, this`reading
      ensures Valid() && state == Disconnected && Now() == Closed(old(Now()))
    {
      HandleClose();
    }

    method ForceCloseConn()
      requires Valid()
      modifies this`state, this`forced
      ensures Valid() && Some(Now()) == Step(old(Now()), ForceClose)
      ensures state == if old(state) == Connected then Disconnecting else old(state)
    {
      if state == Connected || state == Disconnecting {
        state := Disconnecting;
        forced := forced + 1;
      }
    }

    method ForceCloseInLoop()
      requires Valid() && forced > 0
      modifies this`state, this`writing, this`reading, this`forced
      ensures Valid() && state == Disconnected && Some(Now()) == Step(old(Now()), RunForcedClose)
    {
      forced := forced - 1;
      if state == Connected || state == Disconnecting {
        HandleClose();
      }
    }

    /** Taking the channel out of the poller asserts that no interest is left on it and that it
        is there: that holds if and only if the connection is not closing at that moment and was
        not destroyed before. */
    method ConnectDestroyed() returns (ok: bool)
      requires Valid()
      modifies this`state, this`writing, this`reading, this`removed
      ensures Valid()
      ensures ok <==> old(state) != Disconnecting && !old(removed)
      ensures ok ==> state == Disconnected && removed && Some(Now()) == Step(old(Now()), Destroy)
      ensures !ok ==> Now() == old(Now())
    {
      if state == Connected {
        state := Disconnected;
        writing, reading := false, false;
      }
      ok := !writing && !reading && !removed;
      if ok {
        removed := true;
      }
    }
  }

  /** One event.  Once half-closed, nothing more is accepted or written. */
  method Handle(c: Connection, e: Event) returns (ok: bool)
    requires c.Valid()
    modifies c
    ensures c.Valid()
    ensures ok <==> !(e.Destroy? && (old(c.state) == Disconnecting || old(c.removed)))
    ensures ok <==> Step(old(c.Now()), e).Some?
    ensures c.Now() == if ok then Step(old(c.Now()), e).value else old(c.Now())
    ensures old(c.shutdowns) <= c.shutdowns && old(c.accepted) <= c.accepted && old(c.wire) <= c.wire
    ensures old(c.shutdowns) == 1 ==> c.shutdowns == 1 && c.accepted == old(c.accepted) && c.wire == old(c.wire)
  {
    hide Sent, Drained, Inv;
    StepInv(c.Now(), e);
    if Step(c.Now(), e).Some? {
      OnlyGrows(c.Now(), e);
      if c.shutdowns == 1 { HalfClosedStays(c.Now(), e); }
    }
    ok := true;
    match e {
      case Send(data, result) => c.SendData(data, result);
      case Writable(result) => c.HandleWrite(result);
      case Shutdown => c.ShutdownSend();
      case ForceClose => c.ForceCloseConn();
      case RunForcedClose => if c.forced > 0 { c.ForceCloseInLoop(); }
      case PeerClosed => if c.reading { c.HandlePeerClosed(); }
      case Destroy => ok := c.ConnectDestroyed();
    }
  }

  /** Over every sequence of calls and every outcome of every write: the run breaks off exactly
      where a connection is destroyed while closing or a second time.  Up to there the wire
      followed by the buffer is the bytes of the sends that were taken, in order, and the wire is
      as many of them as the write calls reported; write interest
      is on exactly while the buffer has bytes; the half-close happens at most once, with every
      accepted byte on the wire, and does happen once a requested one finds the buffer empty. */
  method Run(events: seq<Event>) returns (c: Connection, ok: bool)
    ensures fresh(c) && c.Valid()
    ensures ok <==> forall i: nat :: !FailsAt(events, i)
    ensures ok ==> StateAfter(events) == Some(c.Now()) && Reported(events) <= |Accepted(events)|
    ensures ok ==> c.wire == Accepted(events)[..Reported(events)] && c.output == Accepted(events)[Reported(events)..]
    ensures ok ==> (c.state == Connected <==> forall i | 0 <= i < |events| :: !Ends(events[i]))
    ensures c.wire + c.output == c.accepted
    ensures c.state != Disconnected ==> (c.writing <==> c.output != [])
    ensures c.shutdowns <= 1 && (c.shutdowns == 1 ==> c.wire == c.accepted)
    ensures c.asked && c.state == Disconnecting && c.output == [] ==> c.shutdowns == 1
  {
    hide Step, FailsAt, Accepted, Reported, Ends;
    c := new Connection();
    c.ConnectEstablished();
    ok := true;
    for i := 0 to |events|
      invariant fresh(c) && c.Valid() && ok && StateAfter(events[..i]) == Some(c.Now())
    {
      ok := Handle(c, events[i]);
      if !ok {
        FailedAt(events, i);
        return;
      }
      assert events[..i + 1][..i] == events[..i];
    }
    assert events[..|events|] == events;
    BreaksOffIff(events);
    AcceptedBytes(events);
    WroteReported(events);
    ConnectedIff(events);
  }

  lemma FailedAt(events: seq<Event>, i: nat)
    requires i < |events| && events[i].Destroy? && StateAfter(events[..i]).Some?
    requires StateAfter(events[..i]).value.state == Disconnecting || StateAfter(events[..i]).value.removed
    ensures FailsAt(events, i)
  {
    RemovedIff(events[..i]);
    assert forall j | 0 <= j < i :: events[..i][j] == events[j];
  }
}
