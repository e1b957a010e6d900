/**
  The two-level semaphore: an atomic count in front of an operating-system semaphore.
  Every atomic access to the count and every wait on or post to the inner semaphore is one
  step of some thread; compare-and-swap may fail, waits may time out at any moment.
 */
module Semaphore {
  import opened Counting

  type Tid = nat

  /** wait is a wait for at most one permit; the try forms do not block. */
  datatype Op = Op(max: nat, blocking: bool)

  datatype Pc =
    | Rest
    | Trying(op: Op)
    | TryCas(op: Op, seen: int)
    | Spinning(op: Op)
    | SpinCas(op: Op, seen: int)
    | Blocked(op: Op)
    | Backing(op: Op)
    | BackOut(op: Op, seen: int)
    | Extra(op: Op)
    | ExtraCas(op: Op, seen: int)
    | Done(op: Op, k: nat)
    | Posting(n: nat)

  /** `os` is the inner semaphore.  `initial`, `signalled`, `acquired` and `taken` are
      history: permits at the start, added by signal, removed by waits, returned to callers. */
  datatype State = State(
    count: int, os: nat, pcs: map<Tid, Pc>,
    initial: nat, signalled: nat, acquired: nat, taken: nat)

  /** The `alt` of a step chooses: a spurious compare-and-swap failure, the end of spinning,
      or a timeout. */
  datatype Action = Wait(t: Tid, op: Op) | Signal(t: Tid, n: nat) | Step(t: Tid, alt: bool) | Return(t: Tid)

  predicate Init(s: State) {
    && s.count == s.initial && s.os == 0 && s.signalled == 0 && s.acquired == 0 && s.taken == 0
    && forall t | t in s.pcs :: s.pcs[t] == Rest
  }

  predicate Enabled(s: State, a: Action) {
    a.t in s.pcs &&
    match a
    case Wait(t, _) => s.pcs[t].Rest?
    case Signal(t, _) => s.pcs[t].Rest?
    case Step(t, alt) => !s.pcs[t].Rest? && !s.pcs[t].Done? && (s.pcs[t].Blocked? && !alt ==> s.os > 0)
    case Return(t) => s.pcs[t].Done?
  }

  /** What a bulk acquisition leaves of a positive count. */
  function Left(count: int, max: nat): (r: int)
    requires count > 0
    ensures 0 <= r <= count && count - r <= max && (max > 0 ==> r < count)
  {
    if count > max then count - max else 0
  }

  function Go(s: State, t: Tid, pc: Pc): State { s.(pcs := s.pcs[t := pc]) }

  function TryFailed(op: Op): Pc { if op.blocking && op.max > 0 then Spinning(op) else Done(op, 0) }

  function Grab(s: State, left: int): State
    requires s.count >= left
  {
    s.(count := left, acquired := s.acquired + (s.count - left))
  }

  /** One permit in hand: a bulk wait tries for the rest. */
  function GotOne(op: Op): Pc { if op.max > 1 then Extra(op) else Done(op, 1) }

  function TakeOs(s: State, t: Tid, op: Op): State
    requires s.os > 0
  {
    Go(s.(os := s.os - 1, acquired := s.acquired + 1), t, GotOne(op))
  }

  function Do(s: State, a: Action): State
    requires Enabled(s, a)
  {
    match a
    case Wait(t, op) => Go(s, t, Trying(op))
    case Signal(t, n) =>
      var release := if -s.count < n then -s.count else n;
      Go(s.(count := s.count + n, signalled := s.signalled + n), t, if release > 0 then Posting(release) else Rest)
    case Return(t) => Go(s.(taken := s.taken + s.pcs[t].k), t, Rest)
    case Step(t, alt) => Advance(s, t, alt)
  }

  function Advance(s: State, t: Tid, alt: bool): State
    requires Enabled(s, Step(t, alt))
  {
    match s.pcs[t]
    case Trying(op) => Go(s, t, if s.count > 0 then TryCas(op, s.count) else TryFailed(op))
    case TryCas(op, seen) =>
      if !alt && s.count == seen && seen > 0 then
        var left := Left(seen, op.max);
        Go(Grab(s, left), t, if seen == left then TryFailed(op) else Done(op, seen - left))
      else Go(s, t, if s.count > 0 then TryCas(op, s.count) else TryFailed(op))
    case Spinning(op) =>
      if alt then
        if s.count > 0 then Go(Grab(s, s.count - 1), t, GotOne(op))
        else Go(s.(count := s.count - 1), t, Blocked(op))
      else Go(s, t, if s.count > 0 then SpinCas(op, s.count) else Spinning(op))
    case SpinCas(op, seen) =>
      if s.count == seen && seen > 0 then Go(Grab(s, Left(seen, op.max)), t, Done(op, seen - Left(seen, op.max)))
      else Go(s, t, Spinning(op))
    case Blocked(op) => if alt then Go(s, t, Backing(op)) else TakeOs(s, t, op)
    case Backing(op) => Go(s, t, BackOut(op, s.count))
    case BackOut(op, seen) =>
      if seen >= 0 then if s.os > 0 then TakeOs(s, t, op) else Go(s, t, Backing(op))
      else if s.count == seen then Go(s.(count := s.count + 1), t, Done(op, 0))
      else Go(s, t, Backing(op))
    case Extra(op) => Go(s, t, if s.count > 0 then ExtraCas(op, s.count) else Done(op, 1))
    case ExtraCas(op, seen) =>
      if !alt && s.count == seen && seen > 0 then
        var left := Left(seen, if op.max > 0 then op.max - 1 else 0);
        Go(Grab(s, left), t, Done(op, 1 + (seen - left)))
      else Go(s, t, if s.count > 0 then ExtraCas(op, s.count) else Done(op, 1))
    case Posting(n) => Go(s.(os := s.os + 1), t, if n > 1 then Posting(n - 1) else Rest)
  }

  ghost predicate Next(s: State, s': State) {
    exists a: Action :: Enabled(s, a) && s' == Do(s, a)
  }

  ghost predicate Execution(run: seq<State>) {
    && |run| > 0
    && Init(run[0])
    && forall i | 0 <= i < |run| - 1 :: Next(run[i], run[i + 1])
  }

  // ---- the invariant ----

  /** A thread whose decrement of the count has not been answered yet. */
  function Waits(pc: Pc): int { if pc.Blocked? || pc.Backing? || pc.BackOut? then 1 else 0 }

  /** Permits a signaller has still to post. */
  function Posts(pc: Pc): int { if pc.Posting? then pc.n else 0 }

  /** Permits a call has acquired and not yet returned to its caller. */
  function Holds(pc: Pc): int { if pc.Extra? || pc.ExtraCas? then 1 else if pc.Done? then pc.k else 0 }

  ghost function Waiting(s: State): int { Tally(s.pcs, Waits) }
  ghost function Unposted(s: State): int { Tally(s.pcs, Posts) }
  ghost function Held(s: State): int { Tally(s.pcs, Holds) }

  predicate PcOk(pc: Pc) {
    match pc
    case SpinCas(op, seen) => op.max > 0 && seen > 0
    case TryCas(op, seen) => seen > 0
    case Spinning(op) => op.max > 0
    case Blocked(op) => op.max > 0
    case Backing(op) => op.max > 0
    case BackOut(op, _) => op.max > 0
    case Extra(op) => op.max > 1
    case ExtraCas(op, seen) => op.max > 1 && seen > 0
    case Done(op, k) => k <= op.max
    case Posting(n) => n > 0
    case _ => true
  }

  ghost predicate Balanced(s: State) {
    && s.count + s.acquired + Waiting(s) == s.initial + s.signalled
    && Waiting(s) == (if s.count < 0 then -s.count else 0) + s.os + Unposted(s)
    && s.acquired == s.taken + Held(s)
  }

  ghost predicate Inv(s: State) {
    Balanced(s) && forall t | t in s.pcs :: PcOk(s.pcs[t])
  }

  /** A step that changes one thread changes the totals by that thread's share. */
  lemma Settle(s: State, s': State, t: Tid)
    requires t in s.pcs && t in s'.pcs && s'.pcs == s.pcs[t := s'.pcs[t]]
    ensures Waiting(s') == Waiting(s) - Waits(s.pcs[t]) + Waits(s'.pcs[t])
    ensures Unposted(s') == Unposted(s) - Posts(s.pcs[t]) + Posts(s'.pcs[t])
    ensures Held(s') == Held(s) - Holds(s.pcs[t]) + Holds(s'.pcs[t])
  {
    TallyChange(s.pcs, t, s'.pcs[t], Waits);
    TallyChange(s.pcs, t, s'.pcs[t], Posts);
    TallyChange(s.pcs, t, s'.pcs[t], Holds);
  }

  function Debt(count: int): int { if count < 0 then -count else 0 }

  /** What a step of thread t does to the shared counters matches what it does to t's own
      share of the totals. */
  ghost predicate Shifts(s: State, s': State, t: Tid) {
    && t in s.pcs && t in s'.pcs && s'.pcs == s.pcs[t := s'.pcs[t]] && PcOk(s'.pcs[t])
    && var p, p' := s.pcs[t], s'.pcs[t];
       && s'.initial == s.initial
       && s'.count + s'.acquired + Waits(p') - s'.signalled == s.count + s.acquired + Waits(p) - s.signalled
       && Debt(s'.count) + s'.os + Posts(p') - Waits(p') == Debt(s.count) + s.os + Posts(p) - Waits(p)
       && s'.acquired - s'.taken - Holds(p') == s.acquired - s.taken - Holds(p)
  }

  ghost predicate SamePermits(s: State, s': State) { s'.signalled == s.signalled && s'.taken == s.taken }

  lemma ShiftBalanced(s: State, s': State, t: Tid)
    requires Balanced(s) && Shifts(s, s', t)
    ensures Balanced(s')
  {
    Settle(s, s', t);
  }

  lemma TryShifts(s: State, t: Tid, alt: bool)
    requires Enabled(s, Step(t, alt)) && PcOk(s.pcs[t])
    requires s.pcs[t].Trying? || s.pcs[t].TryCas?
    ensures Shifts(s, Advance(s, t, alt), t) && SamePermits(s, Advance(s, t, alt))
  {
  }

  lemma SpinShifts(s: State, t: Tid, alt: bool)
    requires Enabled(s, Step(t, alt)) && PcOk(s.pcs[t])
    requires s.pcs[t].Spinning? || s.pcs[t].SpinCas?
    ensures Shifts(s, Advance(s, t, alt), t) && SamePermits(s, Advance(s, t, alt))
  {
  }

  lemma SlowShifts(s: State, t: Tid, alt: bool)
    requires Enabled(s, Step(t, alt)) && PcOk(s.pcs[t])
    requires s.pcs[t].Blocked? || s.pcs[t].Backing? || s.pcs[t].BackOut?
    ensures Shifts(s, Advance(s, t, alt), t) && SamePermits(s, Advance(s, t, alt))
  {
  }

  lemma LastShifts(s: State, t: Tid, alt: bool)
    requires Enabled(s, Step(t, alt)) && PcOk(s.pcs[t])
    requires s.pcs[t].Extra? || s.pcs[t].ExtraCas? || s.pcs[t].Posting?
    ensures Shifts(s, Advance(s, t, alt), t) && SamePermits(s, Advance(s, t, alt))
  {
  }

  lemma StepShifts(s: State, a: Action)
    requires Enabled(s, a) && PcOk(s.pcs[a.t])
    ensures Shifts(s, Do(s, a), a.t)
    ensures Do(s, a).signalled == s.signalled + if a.Signal? then a.n else 0
    ensures Do(s, a).taken == s.taken + if a.Return? then s.pcs[a.t].k else 0
  {
    if a.Step? {
      hide Advance, PcOk, Shifts;
      var pc := s.pcs[a.t];
      if pc.Trying? || pc.TryCas? { TryShifts(s, a.t, a.alt); }
      else if pc.Spinning? || pc.SpinCas? { SpinShifts(s, a.t, a.alt); }
      else if pc.Blocked? || pc.Backing? || pc.BackOut? { SlowShifts(s, a.t, a.alt); }
      else { LastShifts(s, a.t, a.alt); }
    }
  }

  lemma StepInv(s: State, a: Action)
    requires Inv(s) && Enabled(s, a)
    ensures Inv(Do(s, a))
  {
    hide Balanced, Do, PcOk;
    StepShifts(s, a);
    ShiftBalanced(s, Do(s, a), a.t);
  }

  lemma InitInv(s: State)
    requires Init(s)
    ensures Inv(s)
  {
    TallyZero(s.pcs, Waits);
    TallyZero(s.pcs, Posts);
    TallyZero(s.pcs, Holds);
  }

  lemma {:induction false} ExecutionInv(run: seq<State>, i: nat)
    requires Execution(run) && i < |run|
    ensures Inv(run[i])
  {
    hide Inv, Do, Init;
    if i == 0 {
      InitInv(run[0]);
    } else {
      ExecutionInv(run, i - 1);
      assert Next(run[i - 1], run[i - 1 + 1]);
      var a: Action :| Enabled(run[i - 1], a) && run[i] == Do(run[i - 1], a);
      StepInv(run[i - 1], a);
    }
  }

  // ---- runs with their actions ----

  /** A run and the actions taken along it. */
  ghost predicate Trace(run: seq<State>, acts: seq<Action>) {
    && |run| == |acts| + 1 && Init(run[0])
    && forall i | 0 <= i < |acts| :: Taken(run, acts, i)
  }

  ghost predicate Taken(run: seq<State>, acts: seq<Action>, i: nat)
    requires |run| == |acts| + 1 && i < |acts|
  {
    Enabled(run[i], acts[i]) && run[i + 1] == Do(run[i], acts[i])
  }

  lemma TraceIsExecution(run: seq<State>, acts: seq<Action>)
    requires Trace(run, acts)
    ensures Execution(run)
  {
    forall i | 0 <= i < |run| - 1 ensures Next(run[i], run[i + 1]) { assert Taken(run, acts, i); }
  }

  /** Permits put in by signal. */
  function PutIn(acts: seq<Action>): nat {
    if acts == [] then 0 else PutIn(acts[..|acts| - 1]) + if acts[|acts| - 1].Signal? then acts[|acts| - 1].n else 0
  }

  /** Permits that calls came back with. */
  ghost function Returned(run: seq<State>, acts: seq<Action>, i: nat): nat
    requires i <= |acts| <= |run|
  {
    if i == 0 then 0
    else
      var s, a := run[i - 1], acts[i - 1];
      Returned(run, acts, i - 1) + if a.Return? && a.t in s.pcs && s.pcs[a.t].Done? then s.pcs[a.t].k else 0
  }

  lemma {:induction false} HistoryIsActions(run: seq<State>, acts: seq<Action>, i: nat)
    requires Trace(run, acts) && i < |run|
    ensures run[i].signalled == PutIn(acts[..i]) && run[i].taken == Returned(run, acts, i)
    ensures run[i].initial == run[0].initial
  {
    if i > 0 {
      hide Do, PcOk;
      HistoryIsActions(run, acts, i - 1);
      TraceIsExecution(run, acts);
      ExecutionInv(run, i - 1);
      assert Taken(run, acts, i - 1);
      assert acts[..i][..i - 1] == acts[..i - 1];
      StepShifts(run[i - 1], acts[i - 1]);
    }
  }

  // ---- main results ----

  /** What was there at first and was signalled is what calls returned, what calls under way hold
      and what the count and the waiting threads stand for. */
  lemma Accounts(run: seq<State>, acts: seq<Action>, i: nat)
    requires Trace(run, acts) && i < |run|
    ensures var s := run[i];
            run[0].initial + PutIn(acts[..i]) == Returned(run, acts, i) + Held(s) + s.count + Waiting(s)
  {
    TraceIsExecution(run, acts);
    ExecutionInv(run, i);
    HistoryIsActions(run, acts, i);
  }

  /** What a wait that nobody disturbs comes back with. */
  function Grants(count: int, max: nat): nat { if count <= 0 then 0 else if count < max then count else max }

  ghost predicate AllRest(s: State) { forall t | t in s.pcs :: s.pcs[t].Rest? }

  /** With every other thread at rest the count is the permits there are; a wait that does not
      block, or finds a permit, comes back with as many as there are up to what it asked for, and
      a blocking one that finds none takes its place below zero and sleeps. */
  lemma QuiescentWait(run: seq<State>, i: nat, t: Tid, op: Op)
    requires Execution(run) && i < |run| && AllRest(run[i]) && t in run[i].pcs
    ensures run[i].count >= 0 && run[i].os == 0
    ensures var s := run[i];
            var s1 := Advance(Do(s, Wait(t, op)), t, false);
            if s.count > 0 then
              !s1.pcs[t].Done? &&
              var s2 := Advance(s1, t, false);
              if op.max == 0 then s2 == s.(pcs := s.pcs[t := Done(op, 0)])
              else
                && s2.pcs == s.pcs[t := Done(op, Grants(s.count, op.max))]
                && s2.count == s.count - Grants(s.count, op.max) && s2.os == s.os
            else if op.blocking && op.max > 0 then
              s1.pcs == s.pcs[t := Spinning(op)] &&
              var s2 := Advance(s1, t, true);
              s2.pcs == s.pcs[t := Blocked(op)] && s2.count == -1 && !Enabled(s2, Step(t, false))
            else s1.pcs == s.pcs[t := Done(op, 0)] && s1.count == s.count
  {
    ExecutionInv(run, i);
    TallyZero(run[i].pcs, Waits);
    TallyZero(run[i].pcs, Posts);
    TalliesNonNegative(run[i]);
  }


  /** No permit is lost or made up, whatever times out: at every moment the count, the
      permits acquired and the threads counted as waiting add up to what was put in. */
  lemma Conservation(run: seq<State>, i: nat)
    requires Execution(run) && i < |run|
    ensures var s := run[i]; s.count + s.acquired + Waiting(s) == s.initial + s.signalled
    ensures var s := run[i]; s.acquired <= s.initial + s.signalled
  {
    ExecutionInv(run, i);
    TalliesNonNegative(run[i]);
  }

  lemma TalliesNonNegative(s: State)
    ensures Waiting(s) >= 0 && Unposted(s) >= 0 && Held(s) >= 0
    ensures forall t | t in s.pcs :: Waits(s.pcs[t]) <= Waiting(s)
  {
    TallyBounds(s.pcs, Waits);
    TallyBounds(s.pcs, Posts);
    TallyBounds(s.pcs, Holds);
  }

  /** Every waiting thread beyond the negative count has an inner permit posted or about to
      be posted for it, and never more than that: the inner semaphore is in step. */
  lemma WaitersAccountedFor(run: seq<State>, i: nat)
    requires Execution(run) && i < |run|
    ensures var s := run[i]; Waiting(s) == (if s.count < 0 then -s.count else 0) + s.os + Unposted(s)
  {
    ExecutionInv(run, i);
  }

  /** While permits are free on the fast path, a thread asleep on the slow path already has
      a wake-up on its way. */
  lemma NoLostWakeup(run: seq<State>, i: nat, t: Tid)
    requires Execution(run) && i < |run| && t in run[i].pcs && run[i].pcs[t].Blocked? && run[i].count >= 0
    ensures run[i].os > 0 || Unposted(run[i]) > 0
  {
    ExecutionInv(run, i);
    TalliesNonNegative(run[i]);
  }

  /** A call returns at most what it asked for, and all it acquired. */
  lemma ReturnsWhatItHolds(run: seq<State>, i: nat, t: Tid)
    requires Execution(run) && i < |run| && t in run[i].pcs && run[i].pcs[t].Done?
    ensures run[i].pcs[t].k <= run[i].pcs[t].op.max
    ensures run[i].pcs[t].k <= Held(run[i]) && run[i].acquired == run[i].taken + Held(run[i])
  {
    ExecutionInv(run, i);
    assert PcOk(run[i].pcs[t]);
    TallyBounds(run[i].pcs, Holds);
  }

  /** A thread that has come to spin, or that was woken with one permit in hand, and is not
      disturbed takes as many more as there are up to what it asked for. */
  lemma UndisturbedGrants(s: State, t: Tid)
    requires t in s.pcs && PcOk(s.pcs[t]) && (s.pcs[t].Spinning? || s.pcs[t].Extra?) && s.count > 0
    ensures var op, spins := s.pcs[t].op, s.pcs[t].Spinning?;
            var more := if spins then Grants(s.count, op.max) else Grants(s.count, op.max - 1);
            var s2 := Advance(Advance(s, t, false), t, false);
            && s2.pcs == s.pcs[t := Done(op, if spins then more else 1 + more)]
            && s2.count == s.count - more
  {
  }
}
