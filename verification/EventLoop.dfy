/**
  Handing functors to an event loop.  Any thread may append to the pending list under the
  mutex and then, as a separate step, write to the eventfd; the loop thread polls, reads the
  eventfd, swaps the pending list into a batch and runs the batch, pushing more on the way.
 */
module EventLoop {
  type Tid = nat

  /** `wakes` records what queueInLoop decided when the functor was pushed: whether its
      pusher writes to the eventfd afterwards. */
  datatype Functor = Functor(id: nat, wakes: bool)

  /** `first` marks the first round after loop() was entered. */
  datatype Loop =
    | Stopped
    | Polling(first: bool)
    | Handling(wake: bool)
    | Calling
    | Running(k: nat)

  /** `owes` says which threads have pushed or asked to quit and not yet written to the
      eventfd, `loopOwes` the same of the loop thread.  `pushed`, `executed` and `early` are
      history; `early` counts the functors the loop thread queued while outside loop(). */
  datatype State = State(
    pending: seq<Functor>, batch: seq<Functor>, calling: bool, quit: bool, eventfd: nat,
    loop: Loop, loopOwes: bool, owes: map<Tid, bool>,
    pushed: seq<Functor>, executed: seq<Functor>, early: nat)

  datatype Action =
    | Push(t: Tid, id: nat)
    | Quit(t: Tid)
    | Wake(t: Tid)
    | LoopPush(id: nat)
    | LoopWake
    | LoopQuit
    | Start
    | PollReturns(wake: bool)
    | ReadWake
    | Handled
    | Swap
    | RunNext
    | Finish

  predicate Init(s: State) {
    && s.pending == [] && s.batch == [] && !s.calling && s.eventfd == 0 && s.loop == Stopped && !s.loopOwes
    && (forall t | t in s.owes :: !s.owes[t])
    && s.pushed == [] && s.executed == [] && s.early == 0
  }

  /** The loop thread is inside a handler or a functor, or has not entered loop(). */
  predicate InUserCode(s: State) {
    !s.loopOwes && (s.loop.Stopped? || s.loop.Handling? || (s.loop.Running? && s.loop.k > 0))
  }

  predicate Enabled(s: State, a: Action) {
    match a
    case Push(t, _) => t in s.owes && !s.owes[t]
    case Quit(t) => t in s.owes && !s.owes[t] && !s.loop.Stopped?
    case Wake(t) => t in s.owes && s.owes[t]
    case LoopPush(_) => InUserCode(s)
    case LoopWake => s.loopOwes
    case LoopQuit => InUserCode(s) && !s.loop.Stopped?
    case Start => s.loop.Stopped? && !s.loopOwes
    case PollReturns(wake) => s.loop.Polling? && (wake ==> s.eventfd > 0)
    case ReadWake => s.loop.Handling? && s.loop.wake && !s.loopOwes
    case Handled => s.loop.Handling? && !s.loop.wake && !s.loopOwes
    case Swap => s.loop.Calling?
    case RunNext => s.loop.Running? && !s.loopOwes && s.loop.k < |s.batch|
    case Finish => s.loop.Running? && !s.loopOwes && s.loop.k == |s.batch|
  }

  function Append(s: State, f: Functor): State {
    s.(pending := s.pending + [f], pushed := s.pushed + [f])
  }

  function Do(s: State, a: Action): State
    requires Enabled(s, a)
  {
    match a
    case Push(t, id) => Append(s, Functor(id, true)).(owes := s.owes[t := true])
    case Quit(t) => s.(quit := true, owes := s.owes[t := true])
    case Wake(t) => s.(eventfd := s.eventfd + 1, owes := s.owes[t := false])
    case LoopPush(id) =>
      Append(s, Functor(id, s.calling)).(loopOwes := s.calling, early := s.early + if s.loop.Stopped? then 1 else 0)
    case LoopWake => s.(eventfd := s.eventfd + 1, loopOwes := false)
    case LoopQuit => s.(quit := true)
    case Start => s.(quit := false, loop := Polling(true))
    case PollReturns(wake) => s.(loop := Handling(wake))
    case ReadWake => s.(eventfd := 0, loop := Handling(false))
    case Handled => s.(calling := true, loop := Calling)
    case Swap => s.(batch := s.pending, pending := [], loop := Running(0))
    case RunNext => s.(executed := s.executed + [s.batch[s.loop.k]], loop := Running(s.loop.k + 1))
    case Finish => s.(calling := false, batch := [], loop := if s.quit then Stopped else Polling(false))
  }

  ghost predicate Next(s: State, s': State) {
    exists a: Action :: Enabled(s, a) && s' == Do(s, a)
  }

  ghost predicate Execution(run: seq<State>) {
    && |run| > 0
    && Init(run[0])
    && forall i | 0 <= i < |run| - 1 :: Next(run[i], run[i + 1])
  }

  // ---- the invariant ----

  /** What is left of the batch being run. */
  function Rest(s: State): seq<Functor> {
    if s.loop.Running? && s.loop.k <= |s.batch| then s.batch[s.loop.k..] else []
  }

  ghost predicate Owed(s: State) {
    s.loopOwes || exists t :: t in s.owes && s.owes[t]
  }

  /** The next poll returns at once, or will as soon as a pusher gets to its write. */
  ghost predicate Awake(s: State) { s.eventfd > 0 || Owed(s) }

  ghost predicate SomeWake(fs: seq<Functor>) { exists i | 0 <= i < |fs| :: fs[i].wakes }
  ghost predicate AllWake(fs: seq<Functor>) { forall i | 0 <= i < |fs| :: fs[i].wakes }

  ghost predicate Inv(s: State) {
    && s.pushed == s.executed + Rest(s) + s.pending
    && (s.loop.Running? ==> s.loop.k <= |s.batch|)
    && (s.calling <==> s.loop.Calling? || s.loop.Running?)
    && (s.loopOwes ==> s.calling)
    && (s.loop.Running? || (s.loop.Polling? && !s.loop.first) ==> AllWake(s.pending))
    && ((s.loop.Stopped? || s.loop.Polling?) && s.early == 0 ==> AllWake(s.pending))
    && (s.loop.Stopped? || s.loop.Polling? || s.loop.Running? ==> SomeWake(s.pending) ==> Awake(s))
    && (s.loop.Polling? && s.quit ==> Awake(s))
  }

  lemma OwesKept(s: State, s': State, t: Tid)
    requires t in s.owes && s'.owes == s.owes[t := true]
    ensures Owed(s')
  {
    assert t in s'.owes && s'.owes[t];
  }

  lemma StepOrder(s: State, a: Action)
    requires Enabled(s, a) && s.pushed == s.executed + Rest(s) + s.pending
    requires s.loop.Running? ==> s.loop.k <= |s.batch|
    ensures Do(s, a).pushed == Do(s, a).executed + Rest(Do(s, a)) + Do(s, a).pending
  {
    var s' := Do(s, a);
    if a.RunNext? {
      assert Rest(s) == [s.batch[s.loop.k]] + Rest(s');
    } else if a.Push? || a.LoopPush? {
      assert s'.pending == s.pending + s'.pending[|s.pending|..];
    } else if a.Swap? {
      assert Rest(s) == [] && Rest(s') == s.pending;
    } else {
      assert Rest(s') == Rest(s);
    }
  }

  lemma StepAwake(s: State, a: Action)
    requires Enabled(s, a) && Awake(s) && !a.ReadWake?
    ensures Awake(Do(s, a))
  {
    var s' := Do(s, a);
    if s.eventfd == 0 && !s.loopOwes {
      var t :| t in s.owes && s.owes[t];
      assert !(a.Wake? && a.t == t) ==> t in s'.owes && s'.owes[t];
    }
  }

  lemma StepInv(s: State, a: Action)
    requires Inv(s) && Enabled(s, a)
    ensures Inv(Do(s, a))
  {
    hide Rest;
    var s' := Do(s, a);
    StepOrder(s, a);
    if Awake(s) && !a.ReadWake? { StepAwake(s, a); }
    if a.Push? || a.Quit? { OwesKept(s, s', a.t); }
    assert a.LoopPush? && s.calling ==> Owed(s');
    hide Awake, Owed;
    assert !a.Push? && !a.LoopPush? && !a.Swap? ==> s'.pending == s.pending;
  }

  lemma InitInv(s: State)
    requires Init(s)
    ensures Inv(s)
  {
  }

  lemma {:induction false} ExecutionInv(run: seq<State>, i: nat)
    requires Execution(run) && i < |run|
    ensures Inv(run[i])
  {
    hide Inv, Do, Init;
    if i == 0 {
      InitInv(run[0]);
    } else {
      ExecutionInv(run, i - 1);
      assert Next(run[i - 1], run[i - 1 + 1]);
      var a: Action :| Enabled(run[i - 1], a) && run[i] == Do(run[i - 1], a);
      StepInv(run[i - 1], a);
    }
  }

  // ---- runs with their actions ----

  /** A run and the actions taken along it. */
  ghost predicate Trace(run: seq<State>, acts: seq<Action>) {
    && |run| == |acts| + 1 && Init(run[0])
    && forall i | 0 <= i < |acts| :: Taken(run, acts, i)
  }

  ghost predicate Taken(run: seq<State>, acts: seq<Action>, i: nat)
    requires |run| == |acts| + 1 && i < |acts|
  {
    Enabled(run[i], acts[i]) && run[i + 1] == Do(run[i], acts[i])
  }

  lemma TraceIsExecution(run: seq<State>, acts: seq<Action>)
    requires Trace(run, acts)
    ensures Execution(run)
  {
    forall i | 0 <= i < |run| - 1 ensures Next(run[i], run[i + 1]) { assert Taken(run, acts, i); }
  }

  /** The functors handed over, in order, by whichever thread. */
  function Handed(acts: seq<Action>): seq<nat> {
    if acts == [] then []
    else
      var a := acts[|acts| - 1];
      Handed(acts[..|acts| - 1]) + if a.Push? || a.LoopPush? then [a.id] else []
  }

  function Ids(fs: seq<Functor>): (ids: seq<nat>)
    ensures |ids| == |fs| && forall i | 0 <= i < |fs| :: ids[i] == fs[i].id
  {
    seq(|fs|, i requires 0 <= i < |fs| => fs[i].id)
  }

  lemma {:induction false} PushedIsHanded(run: seq<State>, acts: seq<Action>, i: nat)
    requires Trace(run, acts) && i < |run|
    ensures Ids(run[i].pushed) == Handed(acts[..i])
  {
    if i > 0 {
      PushedIsHanded(run, acts, i - 1);
      assert Taken(run, acts, i - 1);
      assert acts[..i][..i - 1] == acts[..i - 1];
      var a := acts[i - 1];
      if a.Push? || a.LoopPush? { assert Ids(run[i].pushed) == Ids(run[i - 1].pushed) + [a.id]; }
    }
  }

  /** From a Swap on, as long as no Finish comes, the batch is what was pending, and what has
      run since is its beginning. */
  ghost predicate InRound(run: seq<State>, i: nat, j: nat)
    requires i < |run| && j < |run|
  {
    && run[j].loop.Running? && run[j].batch == run[i].pending && run[j].loop.k <= |run[j].batch|
    && run[j].executed == run[i].executed + run[j].batch[..run[j].loop.k]
  }

  lemma {:induction false} RoundGoesOn(run: seq<State>, acts: seq<Action>, i: nat, j: nat)
    requires Trace(run, acts) && i < j < |run| && acts[i].Swap?
    requires forall k | i < k < j :: !acts[k].Finish?
    ensures InRound(run, i, j)
    decreases j
  {
    assert Taken(run, acts, j - 1);
    if j > i + 1 {
      RoundGoesOn(run, acts, i, j - 1);
      if acts[j - 1].RunNext? {
        var k, batch := run[j - 1].loop.k, run[j].batch;
        assert batch[..k + 1] == batch[..k] + [batch[k]];
        assert run[i].executed + batch[..k] + [batch[k]] == run[i].executed + (batch[..k] + [batch[k]]);
      }
    } else {
      assert run[j].batch[..0] == [] && run[i].executed + [] == run[i].executed;
    }
  }

  // ---- main results ----

  /** What the callers handed over, in the order they did, is what has run, what is left of the
      batch and what is pending: no functor is lost, repeated or overtaken. */
  lemma RunsWhatWasHanded(run: seq<State>, acts: seq<Action>, i: nat)
    requires Trace(run, acts) && i < |run|
    ensures Ids(run[i].executed + Rest(run[i]) + run[i].pending) == Handed(acts[..i])
  {
    TraceIsExecution(run, acts);
    ExecutionInv(run, i);
    PushedIsHanded(run, acts, i);
  }

  /** A functor pending when the loop takes the list over has run by the end of that round: from
      a Swap to the next Finish exactly the pending functors run, in order. */
  lemma RoundRunsBatch(run: seq<State>, acts: seq<Action>, i: nat, j: nat)
    requires Trace(run, acts) && i < j < |acts| && acts[i].Swap? && acts[j].Finish?
    requires forall k | i < k < j :: !acts[k].Finish?
    ensures run[j + 1].executed == run[i].executed + run[i].pending
  {
    RoundGoesOn(run, acts, i, j);
    assert Taken(run, acts, j);
    assert run[j].batch[..|run[j].batch|] == run[j].batch;
  }

  lemma {:induction false} QuitStays(run: seq<State>, acts: seq<Action>, i: nat, j: nat)
    requires Trace(run, acts) && i < j < |run| && (acts[i].Quit? || acts[i].LoopQuit?)
    requires forall k | i < k < j :: !acts[k].Start?
    ensures run[j].quit
    decreases j
  {
    assert Taken(run, acts, j - 1);
    if j > i + 1 { QuitStays(run, acts, i, j - 1); }
  }

  /** A round ends the loop exactly if somebody asked it to quit since loop() was entered. */
  lemma StopsIff(run: seq<State>, acts: seq<Action>, i: nat, j: nat)
    requires Trace(run, acts) && i < j < |acts| && acts[i].Start? && acts[j].Finish?
    requires forall k | i < k < j :: !acts[k].Start?
    ensures run[j + 1].loop.Stopped? <==> exists k | i < k < j :: acts[k].Quit? || acts[k].LoopQuit?
  {
    assert Taken(run, acts, j);
    if k :| i < k < j && (acts[k].Quit? || acts[k].LoopQuit?) {
      QuitStays(run, acts, k, j);
    } else {
      NobodyQuits(run, acts, i, j);
    }
  }

  lemma {:induction false} NobodyQuits(run: seq<State>, acts: seq<Action>, i: nat, j: nat)
    requires Trace(run, acts) && i < j < |run| && acts[i].Start?
    requires forall k | i < k < j :: !acts[k].Quit? && !acts[k].LoopQuit?
    ensures !run[j].quit
    decreases j
  {
    assert Taken(run, acts, j - 1);
    if j > i + 1 { NobodyQuits(run, acts, i, j - 1); }
  }

  /** The writes to the eventfd since it was last read. */
  function Writes(acts: seq<Action>): nat {
    if acts == [] then 0
    else
      var a := acts[|acts| - 1];
      if a.ReadWake? then 0 else Writes(acts[..|acts| - 1]) + if a.Wake? || a.LoopWake? then 1 else 0
  }

  lemma {:induction false} EventfdCounts(run: seq<State>, acts: seq<Action>, i: nat)
    requires Trace(run, acts) && i < |run|
    ensures run[i].eventfd == Writes(acts[..i])
  {
    if i > 0 {
      EventfdCounts(run, acts, i - 1);
      assert Taken(run, acts, i - 1);
      assert acts[..i][..i - 1] == acts[..i - 1];
    }
  }

  /** Poll reports the eventfd only after a write that was not read yet. */
  lemma ReportsWrites(run: seq<State>, acts: seq<Action>, i: nat)
    requires Trace(run, acts) && i < |acts| && acts[i] == PollReturns(true)
    ensures Writes(acts[..i]) > 0
  {
    assert Taken(run, acts, i);
    EventfdCounts(run, acts, i);
  }

  /** A thread has pushed or asked to quit and not written since. */
  predicate Owing(acts: seq<Action>, t: Tid) {
    acts != [] &&
    var a := acts[|acts| - 1];
    if (a.Push? || a.Quit? || a.Wake?) && a.t == t then !a.Wake? else Owing(acts[..|acts| - 1], t)
  }

  /** The loop thread has pushed while calling functors and not written since. */
  ghost predicate LoopOwing(run: seq<State>, acts: seq<Action>, i: nat)
    requires i <= |acts| <= |run|
  {
    i > 0 &&
    match acts[i - 1]
    case LoopPush(_) => run[i - 1].calling
    case LoopWake => false
    case _ => LoopOwing(run, acts, i - 1)
  }

  /** A write is owed exactly from the push or the quit to the write. */
  lemma {:induction false} OwesIff(run: seq<State>, acts: seq<Action>, i: nat)
    requires Trace(run, acts) && i < |run|
    ensures forall t | t in run[i].owes :: run[i].owes[t] <==> Owing(acts[..i], t)
    ensures run[i].loopOwes <==> LoopOwing(run, acts, i)
  {
    if i > 0 {
      OwesIff(run, acts, i - 1);
      assert Taken(run, acts, i - 1);
      assert acts[..i][..i - 1] == acts[..i - 1];
    }
  }

  /** Functors run in the order they were pushed, each at most once: what has run, what is
      left of the batch and what is pending make up the pushes in order. */
  lemma RunsInPushOrder(run: seq<State>, i: nat)
    requires Execution(run) && i < |run|
    ensures run[i].pushed == run[i].executed + Rest(run[i]) + run[i].pending
    ensures run[i].executed <= run[i].pushed
  {
    ExecutionInv(run, i);
  }

  /** The loop does not sleep on a functor whose pusher was told to wake it. */
  lemma NoLostWakeup(run: seq<State>, i: nat)
    requires Execution(run) && i < |run| && run[i].loop.Polling? && SomeWake(run[i].pending)
    ensures Awake(run[i])
  {
    ExecutionInv(run, i);
  }

  /** Nor does it sleep on a request to quit. */
  lemma QuitWakes(run: seq<State>, i: nat)
    requires Execution(run) && i < |run| && run[i].loop.Polling? && run[i].quit
    ensures Awake(run[i])
  {
    ExecutionInv(run, i);
  }

  /** After the first round, every functor pending at a poll had its pusher told to wake. */
  lemma LaterPollsAreSafe(run: seq<State>, i: nat)
    requires Execution(run) && i < |run| && run[i].loop.Polling? && !run[i].loop.first && run[i].pending != []
    ensures Awake(run[i])
  {
    ExecutionInv(run, i);
    assert run[i].pending[0].wakes;
  }

  /** As long as the loop thread has queued nothing outside loop(), no poll sleeps on a pending
      functor. */
  lemma NoEarlyFunctorNoSleep(run: seq<State>, i: nat)
    requires Execution(run) && i < |run| && run[i].loop.Polling? && run[i].pending != [] && run[i].early == 0
    ensures Awake(run[i])
  {
    ExecutionInv(run, i);
    assert run[i].pending[0].wakes;
  }

  /** Conversely, from every reachable state in which loop() may be entered and no write to the
      eventfd is done or owed, queueing any functor on the loop thread and entering loop() is a
      run that sleeps on it; and every functor it sleeps on was queued that way. */
  lemma EarlyFunctorSleeps(run: seq<State>, i: nat, id: nat)
    requires Execution(run) && i < |run| && Enabled(run[i], Start) && !Awake(run[i])
    ensures Enabled(run[i], LoopPush(id)) && Enabled(Do(run[i], LoopPush(id)), Start)
    ensures var s := Do(Do(run[i], LoopPush(id)), Start);
            && Execution(run[..i + 1] + [Do(run[i], LoopPush(id)), s])
            && s.loop.Polling? && s.pending != [] && !Awake(s) && s.early > 0 && !SomeWake(s.pending)
  {
    ExecutionInv(run, i);
    var s1 := Do(run[i], LoopPush(id));
    var s2 := Do(s1, Start);
    assert Next(run[i], s1) && Next(s1, s2);
    var longer := run[..i + 1] + [s1, s2];
    forall k | 0 <= k < |longer| - 1 ensures Next(longer[k], longer[k + 1]) {
      if k < i { assert Next(run[k], run[k + 1]); }
    }
  }

  /** Such a state is reachable: a loop that nobody has used. */
  lemma FreshLoop(owes: map<Tid, bool>) returns (run: seq<State>)
    requires forall t | t in owes :: !owes[t]
    ensures Execution(run) && |run| == 1 && Enabled(run[0], Start) && !Awake(run[0])
  {
    run := [State([], [], false, false, 0, Stopped, false, owes, [], [], 0)];
  }

  // ---- the loop thread alone ----

  /** What the loop thread does next in a round, with handlers and functors that push nothing. */
  function LoopMove(s: State): Action {
    if s.loopOwes then LoopWake
    else
      match s.loop
      case Handling(wake) => if wake then ReadWake else Handled
      case Calling => Swap
      case Running(k) => if k < |s.batch| then RunNext else Finish
      case Polling(_) => PollReturns(s.eventfd > 0)
      case Stopped => Start
  }

  predicate InsideRound(s: State) { s.loop.Handling? || s.loop.Calling? || s.loop.Running? }

  /** The loop thread takes up to k steps, until its round is over; nobody else moves. */
  ghost function LoopAlone(s: State, k: nat): State
    decreases k
  {
    if k == 0 || !InsideRound(s) || !Enabled(s, LoopMove(s)) then s else LoopAlone(Do(s, LoopMove(s)), k - 1)
  }

  function Phase(s: State): nat {
    match s.loop
    case Handling(wake) => if wake then 4 else 3
    case Calling => 2
    case Running(_) => 1
    case _ => 0
  }

  function Left(s: State): nat { if s.loop.Running? && s.loop.k < |s.batch| then |s.batch| - s.loop.k else 0 }

  /** What the round under way will have run. */
  function ToRun(s: State): seq<Functor> { if s.loop.Running? then Rest(s) else s.pending }

  lemma MoveEnabled(s: State)
    requires Inv(s) && InsideRound(s)
    ensures Enabled(s, LoopMove(s))
  {
  }

  lemma MoveRuns(s: State)
    requires Enabled(s, LoopMove(s)) && InsideRound(s) && (s.loop.Running? ==> s.loop.k <= |s.batch|)
    ensures var s' := Do(s, LoopMove(s));
            && (InsideRound(s') ==> s'.executed + ToRun(s') == s.executed + ToRun(s))
            && (!InsideRound(s') ==> s'.executed == s.executed + ToRun(s))
            && s'.pending == (if s.loop.Calling? && !s.loopOwes then [] else s.pending)
  {
    var a, s' := LoopMove(s), Do(s, LoopMove(s));
    if a.RunNext? {
      var x := [s.batch[s.loop.k]];
      assert Rest(s) == x + Rest(s');
      assert s.executed + x + Rest(s') == s.executed + (x + Rest(s'));
    } else if a.Swap? {
      assert Rest(s') == s.pending;
    } else if a.Finish? {
      assert Rest(s) == [];
    }
  }

  lemma {:induction false} RoundEnds(s: State) returns (k: nat)
    requires Inv(s) && InsideRound(s)
    ensures var s' := LoopAlone(s, k);
            && (s'.loop.Polling? || s'.loop.Stopped?) && s'.executed == s.executed + ToRun(s)
            && s'.pending == if s.loop.Running? then s.pending else []
    decreases Phase(s), Left(s), if s.loopOwes then 1 else 0
  {
    MoveEnabled(s);
    assert s.loop.Running? ==> s.loop.k <= |s.batch|;
    hide Rest, Inv, ToRun;
    var s' := Do(s, LoopMove(s));
    MoveRuns(s);
    StepInv(s, LoopMove(s));
    if s.loopOwes { OwesInCall(s); }
    if InsideRound(s') {
      k := RoundEnds(s');
      k := k + 1;
    } else {
      k := 1;
      assert LoopAlone(s', 0) == s';
    }
  }

  lemma OwesInCall(s: State)
    requires Inv(s) && s.loopOwes
    ensures s.loop.Calling? || s.loop.Running?
  {
  }

  /** From every reachable state after a poll, the loop thread gets through its round if it goes
      on: by the next poll it has run what was left of its batch or, before the list was taken
      over, everything pending. */
  lemma RoundCompletes(run: seq<State>, i: nat) returns (k: nat)
    requires Execution(run) && i < |run| && InsideRound(run[i])
    ensures var s, s' := run[i], LoopAlone(run[i], k);
            && (s'.loop.Polling? || s'.loop.Stopped?)
            && s'.executed == s.executed + (if s.loop.Running? then Rest(s) else s.pending)
            && s'.pending == if s.loop.Running? then s.pending else []
  {
    hide Rest;
    ExecutionInv(run, i);
    k := RoundEnds(run[i]);
  }
}
