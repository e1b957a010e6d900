/**
  The optimistic dequeue protocol of one producer's sub-queue: any number of
  dequeuing threads race with the producer on four counters.  Every load and every
  fetch_add is one step of one thread.  A single dequeue is a bulk dequeue of at
  most one element.

  A unit of dequeueOptimisticCount is called a ticket unit: a fetch_add of n that
  returns k hands out the units k .. k+n-1.
 */
module Tickets {
  import opened Basics
  import opened Counting

  type Tid = nat

  datatype Pc =
    | Idle
    | LoadedTail(max: nat, tail: nat)
    | LoadedOvercommit(max: nat, tail: nat, over: nat)
    | Wanting(n: nat, over: nat)
    | Ticketed(n: nat, over: nat, ticket: nat)
    | Returning(ticket: nat, granted: nat, n: nat)
    | Claiming(granted: nat)
    | Holding(first: nat, count: nat)

  /** What became of a ticket unit: not decided yet, given back through
      dequeueOvercommit, or allowed to advance headIndex. */
  datatype Fate = Pending(t: Tid) | Failed | Passed

  /** `fates` (one per ticket unit) and `owner` (which thread was given each queue
      index) are history; the code stores neither. */
  datatype State = State(
    tail: nat, head: nat, optimistic: nat, overcommit: nat,
    pcs: map<Tid, Pc>,
    fates: seq<Fate>, owner: seq<Tid>)

  datatype Action =
    | Enqueue
    | LoadTail(t: Tid, max: nat)
    | LoadOvercommit(t: Tid)
    | TestOptimistic(t: Tid)
    | TakeTicket(t: Tid)
    | TestTail(t: Tid)
    | ReturnUnits(t: Tid)
    | Claim(t: Tid)
    | Consume(t: Tid)

  predicate Init(s: State) {
    && s.tail == s.head == s.optimistic == s.overcommit == 0
    && (forall t | t in s.pcs :: s.pcs[t].Idle?)
    && s.fates == [] && s.owner == []
  }

  predicate Enabled(s: State, a: Action) {
    a.Enqueue? ||
    (a.t in s.pcs &&
     var pc := s.pcs[a.t];
     match a
     case LoadTail(_, max) => pc.Idle? && max > 0
     case LoadOvercommit(_) => pc.LoadedTail?
     case TestOptimistic(_) => pc.LoadedOvercommit?
     case TakeTicket(_) => pc.Wanting?
     case TestTail(_) => pc.Ticketed?
     case ReturnUnits(_) => pc.Returning?
     case Claim(_) => pc.Claiming?
     case Consume(_) => pc.Holding?)
  }

  function Repeat<T>(n: nat, v: T): (r: seq<T>)
    ensures |r| == n && forall i | 0 <= i < n :: r[i] == v
  {
    seq(n, _ => v)
  }

  /** Records one fate for the units lo .. hi-1 (those that exist). */
  function Decide(fates: seq<Fate>, lo: nat, hi: nat, f: Fate): (r: seq<Fate>)
    ensures |r| == |fates|
    ensures forall i | 0 <= i < |r| :: r[i] == if lo <= i < hi then f else fates[i]
  {
    seq(|fates|, i requires 0 <= i < |fates| => if lo <= i < hi then f else fates[i])
  }

  function Do(s: State, a: Action): State
    requires Enabled(s, a)
  {
    match a
    case Enqueue => s.(tail := s.tail + 1)
    case LoadTail(t, max) => s.(pcs := s.pcs[t := LoadedTail(max, s.tail)])
    case LoadOvercommit(t) =>
      var pc := s.pcs[t];
      s.(pcs := s.pcs[t := LoadedOvercommit(pc.max, pc.tail, s.overcommit)])
    case TestOptimistic(t) =>
      var pc := s.pcs[t];
      var desired := pc.tail - (s.optimistic - pc.over);
      if 0 < desired then
        s.(pcs := s.pcs[t := Wanting(Min(desired, pc.max), pc.over)])
      else
        s.(pcs := s.pcs[t := Idle])
    case TakeTicket(t) =>
      var pc := s.pcs[t];
      s.(pcs := s.pcs[t := Ticketed(pc.n, pc.over, s.optimistic)],
         optimistic := s.optimistic + pc.n,
         fates := s.fates + Repeat(pc.n, Pending(t)))
    case TestTail(t) =>
      var pc := s.pcs[t];
      var available := s.tail - (pc.ticket - pc.over);
      var granted := if 0 < available then Min(pc.n, available) else 0;
      s.(pcs := s.pcs[t := if granted < pc.n then Returning(pc.ticket, granted, pc.n) else Claiming(granted)],
         fates := Decide(s.fates, pc.ticket, pc.ticket + granted, Passed))
    case ReturnUnits(t) =>
      var pc := s.pcs[t];
      s.(pcs := s.pcs[t := if pc.granted == 0 then Idle else Claiming(pc.granted)],
         overcommit := s.overcommit + if pc.granted <= pc.n then pc.n - pc.granted else 0,
         fates := Decide(s.fates, pc.ticket + pc.granted, pc.ticket + pc.n, Failed))
    case Claim(t) =>
      var n := s.pcs[t].granted;
      s.(pcs := s.pcs[t := Holding(s.head, n)],
         head := s.head + n,
         owner := s.owner + Repeat(n, t))
    case Consume(t) => s.(pcs := s.pcs[t := Idle])
  }

  ghost predicate Next(s: State, s': State) {
    exists a: Action :: Enabled(s, a) && s' == Do(s, a)
  }

  ghost predicate Execution(run: seq<State>) {
    && |run| > 0
    && Init(run[0])
    && forall i | 0 <= i < |run| - 1 :: Next(run[i], run[i + 1])
  }

  // ---- what a thread in the middle of a dequeue still accounts for ----

  /** Ticket units neither claimed from the head nor given back yet. */
  function InFlight(pc: Pc): int {
    match pc
    case Ticketed(n, _, _) => n
    case Returning(_, _, n) => n
    case Claiming(granted) => granted
    case _ => 0
  }

  /** Units that passed the second test but have not advanced headIndex yet. */
  function ToClaim(pc: Pc): int {
    match pc
    case Returning(_, granted, _) => granted
    case Claiming(granted) => granted
    case _ => 0
  }

  ghost function TotalInFlight(s: State): int { Tally(s.pcs, InFlight) }

  ghost function TotalToClaim(s: State): int { Tally(s.pcs, ToClaim) }

  lemma TotalsChange(s: State, s': State, t: Tid)
    requires t in s.pcs && t in s'.pcs && s'.pcs == s.pcs[t := s'.pcs[t]]
    ensures TotalInFlight(s') == TotalInFlight(s) - InFlight(s.pcs[t]) + InFlight(s'.pcs[t])
    ensures TotalToClaim(s') == TotalToClaim(s) - ToClaim(s.pcs[t]) + ToClaim(s'.pcs[t])
  {
    TallyChange(s.pcs, t, s'.pcs[t], InFlight);
    TallyChange(s.pcs, t, s'.pcs[t], ToClaim);
  }

  // ---- counting fates ----

  function FailedBelow(fates: seq<Fate>, k: nat): nat
    requires k <= |fates|
  {
    if k == 0 then 0 else FailedBelow(fates, k - 1) + if fates[k - 1].Failed? then 1 else 0
  }

  function PassedBelow(fates: seq<Fate>, k: nat): nat
    requires k <= |fates|
  {
    if k == 0 then 0 else PassedBelow(fates, k - 1) + if fates[k - 1].Passed? then 1 else 0
  }

  lemma {:induction false} CountsSplit(fates: seq<Fate>, k: nat)
    requires k <= |fates|
    ensures FailedBelow(fates, k) + PassedBelow(fates, k) <= k
  {
    if k > 0 { CountsSplit(fates, k - 1); }
  }

  lemma {:induction false} CountsExtend(fates: seq<Fate>, n: nat, t: Tid, k: nat)
    requires k <= |fates| + n
    ensures FailedBelow(fates + Repeat(n, Pending(t)), k) == FailedBelow(fates, Min(k, |fates|))
    ensures PassedBelow(fates + Repeat(n, Pending(t)), k) == PassedBelow(fates, Min(k, |fates|))
  {
    if k > 0 { CountsExtend(fates, n, t, k - 1); }
  }

  /** Deciding pending units adds exactly those units to the count of their fate. */
  lemma {:induction false} CountsDecide(fates: seq<Fate>, lo: nat, hi: nat, f: Fate, k: nat)
    requires lo <= hi <= |fates| && k <= |fates| && !f.Pending?
    requires forall i | lo <= i < hi :: fates[i].Pending?
    ensures var n := if k <= lo then 0 else Min(k, hi) - lo;
            && FailedBelow(Decide(fates, lo, hi, f), k) == FailedBelow(fates, k) + (if f.Failed? then n else 0)
            && PassedBelow(Decide(fates, lo, hi, f), k) == PassedBelow(fates, k) + (if f.Passed? then n else 0)
  {
    if k > 0 { CountsDecide(fates, lo, hi, f, k - 1); }
  }

  lemma {:induction false} LastPassed(fates: seq<Fate>, k: nat) returns (u: nat)
    requires k <= |fates| && PassedBelow(fates, k) > 0
    ensures u < k && fates[u].Passed? && PassedBelow(fates, u + 1) == PassedBelow(fates, k)
  {
    if fates[k - 1].Passed? { u := k - 1; } else { u := LastPassed(fates, k - 1); }
  }

  lemma {:induction false} FailedMonotone(fates: seq<Fate>, j: nat, k: nat)
    requires j <= k <= |fates|
    ensures FailedBelow(fates, j) <= FailedBelow(fates, k)
    decreases k
  {
    if j < k { FailedMonotone(fates, j, k - 1); }
  }

  // ---- the invariant ----

  ghost predicate AllPending(s: State, lo: nat, hi: nat, t: Tid) {
    hi <= |s.fates| && forall i | lo <= i < hi :: s.fates[i] == Pending(t)
  }

  ghost predicate PcOk(s: State, t: Tid, pc: Pc) {
    match pc
    case LoadedOvercommit(max, _, over) => 0 < max && over <= s.overcommit
    case LoadedTail(max, _) => 0 < max
    case Wanting(n, over) => 0 < n && over <= s.overcommit
    case Ticketed(n, over, ticket) =>
      && 0 < n && AllPending(s, ticket, ticket + n, t)
      && over <= FailedBelow(s.fates, ticket)
    case Returning(ticket, granted, n) => granted < n && AllPending(s, ticket + granted, ticket + n, t)
    case Claiming(granted) => 0 < granted
    case Holding(first, count) =>
      && 0 < count && first + count <= |s.owner|
      && (forall i | first <= i < first + count :: s.owner[i] == t)
    case Idle => true
  }

  /** A unit passed only if the failures below it leave it within the tail. */
  ghost predicate PassedOk(s: State) {
    forall u | 0 <= u < |s.fates| && s.fates[u].Passed? :: u + 1 - FailedBelow(s.fates, u) <= s.tail
  }

  ghost predicate Counters(s: State) {
    && |s.fates| == s.optimistic
    && |s.owner| == s.head
    && FailedBelow(s.fates, |s.fates|) == s.overcommit
    && PassedBelow(s.fates, |s.fates|) == s.head + TotalToClaim(s)
    && s.optimistic == s.head + s.overcommit + TotalInFlight(s)
  }

  ghost predicate PcsOk(s: State) {
    forall t | t in s.pcs :: PcOk(s, t, s.pcs[t])
  }

  ghost predicate Inv(s: State) {
    && Counters(s)
    && PcsOk(s)
    && PassedOk(s)
  }

  /** Claimed and claimable units together never exceed what has been enqueued: of
      the units up to the largest passed one, those it saw fail are not passed. */
  lemma PassedFits(s: State)
    requires Inv(s)
    ensures s.head + TotalToClaim(s) <= s.tail
  {
    if s.head + TotalToClaim(s) > 0 {
      var u := LastPassed(s.fates, |s.fates|);
      CountsSplit(s.fates, u + 1);
      FailedMonotone(s.fates, u, u + 1);
    }
  }

  lemma InitInv(s: State)
    requires Init(s)
    ensures Inv(s)
  {
    TallyZero(s.pcs, InFlight);
    TallyZero(s.pcs, ToClaim);
  }

  lemma EnqueueStep(s: State)
    requires Inv(s)
    ensures Inv(Do(s, Enqueue))
  {
    var s' := Do(s, Enqueue);
    assert TotalInFlight(s') == TotalInFlight(s) && TotalToClaim(s') == TotalToClaim(s);
    forall t | t in s'.pcs ensures PcOk(s', t, s'.pcs[t]) { assert PcOk(s, t, s.pcs[t]); }
  }

  lemma QuietPc(s: State, a: Action)
    requires Enabled(s, a) && (a.LoadTail? || a.LoadOvercommit? || a.TestOptimistic? || a.Consume?)
    requires PcOk(s, a.t, s.pcs[a.t])
    ensures var s' := Do(s, a);
            PcOk(s', a.t, s'.pcs[a.t]) && InFlight(s'.pcs[a.t]) == InFlight(s.pcs[a.t]) &&
              ToClaim(s'.pcs[a.t]) == ToClaim(s.pcs[a.t])
  {
  }

  /** The steps that hand out and decide no ticket units. */
  lemma QuietStep(s: State, a: Action)
    requires Inv(s) && Enabled(s, a)
    requires a.LoadTail? || a.LoadOvercommit? || a.TestOptimistic? || a.Consume?
    ensures Inv(Do(s, a))
  {
    hide FailedBelow, PassedBelow, TotalInFlight, TotalToClaim;
    var s' := Do(s, a);
    TotalsChange(s, s', a.t);
    assert PcOk(s, a.t, s.pcs[a.t]);
    QuietPc(s, a);
    forall t | t in s'.pcs ensures PcOk(s', t, s'.pcs[t]) {
      if t != a.t { assert PcOk(s, t, s.pcs[t]); }
    }
  }

  /** New units are pending, so they change no count. */
  lemma TicketCounts(s: State, t: Tid)
    requires Enabled(s, TakeTicket(t))
    ensures var s' := Do(s, TakeTicket(t));
            forall k: nat | k <= |s'.fates| ::
              && FailedBelow(s'.fates, k) == FailedBelow(s.fates, Min(k, |s.fates|))
              && PassedBelow(s'.fates, k) == PassedBelow(s.fates, Min(k, |s.fates|))
  {
    var s' := Do(s, TakeTicket(t));
    forall k: nat | k <= |s'.fates|
      ensures FailedBelow(s'.fates, k) == FailedBelow(s.fates, Min(k, |s.fates|))
      ensures PassedBelow(s'.fates, k) == PassedBelow(s.fates, Min(k, |s.fates|))
    {
      CountsExtend(s.fates, s.pcs[t].n, t, k);
    }
  }

  lemma TicketPcs(s: State, t: Tid)
    requires Inv(s) && Enabled(s, TakeTicket(t))
    ensures PcsOk(Do(s, TakeTicket(t)))
  {
    var s' := Do(s, TakeTicket(t));
    TicketCounts(s, t);
    hide FailedBelow, PassedBelow, TotalInFlight, TotalToClaim, PassedOk;
    forall u | u in s'.pcs ensures PcOk(s', u, s'.pcs[u]) { assert PcOk(s, u, s.pcs[u]); }
  }

  lemma TakeTicketStep(s: State, t: Tid)
    requires Inv(s) && Enabled(s, TakeTicket(t))
    ensures Inv(Do(s, TakeTicket(t)))
  {
    var s' := Do(s, TakeTicket(t));
    TicketPcs(s, t);
    TicketCounts(s, t);
    assert PcOk(s, t, s.pcs[t]);
    hide PcsOk, FailedBelow, PassedBelow;
    TotalsChange(s, s', t);
  }

  /** Deciding a thread's own pending units leaves every other thread's facts alone. */
  lemma DecideKeeps(s: State, s': State, t: Tid, lo: nat, hi: nat, f: Fate)
    requires Inv(s) && t in s.pcs && t in s'.pcs && s'.pcs == s.pcs[t := s'.pcs[t]]
    requires lo <= hi && AllPending(s, lo, hi, t) && !f.Pending?
    requires s'.fates == Decide(s.fates, lo, hi, f)
    requires s'.owner == s.owner && s.overcommit <= s'.overcommit
    ensures forall u | u in s.pcs && u != t :: PcOk(s', u, s'.pcs[u])
    ensures forall k: nat | k <= |s.fates| :: FailedBelow(s.fates, k) <= FailedBelow(s'.fates, k)
  {
    forall k: nat | k <= |s.fates|
      ensures FailedBelow(s.fates, k) <= FailedBelow(s'.fates, k)
    {
      CountsDecide(s.fates, lo, hi, f, k);
    }
    forall u | u in s.pcs && u != t
      ensures PcOk(s', u, s'.pcs[u])
    {
      var pc := s.pcs[u];
      assert s'.pcs[u] == pc && PcOk(s, u, pc);
      if pc.Ticketed? {
        StaysPending(s, s', t, lo, hi, f, u, pc.ticket, pc.ticket + pc.n);
      } else if pc.Returning? {
        StaysPending(s, s', t, lo, hi, f, u, pc.ticket + pc.granted, pc.ticket + pc.n);
      }
    }
  }

  lemma StaysPending(s: State, s': State, t: Tid, lo: nat, hi: nat, f: Fate, u: Tid, a: nat, b: nat)
    requires AllPending(s, lo, hi, t) && s'.fates == Decide(s.fates, lo, hi, f) && u != t
    requires AllPending(s, a, b, u)
    ensures AllPending(s', a, b, u)
  {
    forall i | a <= i < b
      ensures s'.fates[i] == Pending(u)
    {
      assert s.fates[i] == Pending(u);
    }
  }

  lemma GrantKeepsPassedOk(s: State, s': State, t: Tid, pc: Pc, granted: nat)
    requires Inv(s) && t in s.pcs && s.pcs[t] == pc && pc.Ticketed? && granted <= pc.n
    requires granted > 0 ==> granted <= s.tail - (pc.ticket - pc.over)
    requires s'.fates == Decide(s.fates, pc.ticket, pc.ticket + granted, Passed) && s'.tail == s.tail
    requires forall k: nat | k <= |s.fates| :: FailedBelow(s.fates, k) <= FailedBelow(s'.fates, k)
    ensures PassedOk(s')
  {
    assert PcOk(s, t, pc);
    forall u | 0 <= u < |s'.fates| && s'.fates[u].Passed?
      ensures u + 1 - FailedBelow(s'.fates, u) <= s'.tail
    {
      if pc.ticket <= u < pc.ticket + granted {
        FailedMonotone(s'.fates, pc.ticket, u);
      } else {
        assert s.fates[u].Passed?;
      }
    }
  }

  /** Deciding pending units keeps the four counters in step. */
  lemma DecideCounters(s: State, s': State, t: Tid, lo: nat, hi: nat, f: Fate)
    requires Counters(s) && t in s.pcs && t in s'.pcs && s'.pcs == s.pcs[t := s'.pcs[t]]
    requires lo <= hi && AllPending(s, lo, hi, t) && !f.Pending?
    requires s'.fates == Decide(s.fates, lo, hi, f)
    requires s'.owner == s.owner && s'.optimistic == s.optimistic && s'.head == s.head
    requires var n := hi - lo;
             && s'.overcommit == s.overcommit + (if f.Failed? then n else 0)
             && ToClaim(s'.pcs[t]) == ToClaim(s.pcs[t]) + (if f.Passed? then n else 0)
             && InFlight(s'.pcs[t]) == InFlight(s.pcs[t]) - (if f.Failed? then n else 0)
    ensures Counters(s')
  {
    TotalsChange(s, s', t);
    CountsDecide(s.fates, lo, hi, f, |s.fates|);
  }

  lemma TestTailPc(s: State, t: Tid)
    requires Enabled(s, TestTail(t)) && PcOk(s, t, s.pcs[t])
    ensures var s' := Do(s, TestTail(t)); PcOk(s', t, s'.pcs[t])
  {
    hide FailedBelow;
  }

  lemma TestTailStep(s: State, t: Tid)
    requires Inv(s) && Enabled(s, TestTail(t))
    ensures Inv(Do(s, TestTail(t)))
  {
    var s' := Do(s, TestTail(t));
    var pc := s.pcs[t];
    assert PcOk(s, t, pc);
    TestTailPc(s, t);
    var granted := s'.pcs[t].granted;
    var hi := pc.ticket + granted;
    assert AllPending(s, pc.ticket, hi, t);
    hide FailedBelow, PassedBelow, TotalInFlight, TotalToClaim;
    DecideKeeps(s, s', t, pc.ticket, hi, Passed);
    GrantKeepsPassedOk(s, s', t, pc, granted);
    DecideCounters(s, s', t, pc.ticket, hi, Passed);
    hide Counters, PassedOk, PcOk;
  }

  lemma ReturnUnitsStep(s: State, t: Tid)
    requires Inv(s) && Enabled(s, ReturnUnits(t))
    ensures Inv(Do(s, ReturnUnits(t)))
  {
    var s' := Do(s, ReturnUnits(t));
    var pc := s.pcs[t];
    var lo, hi := pc.ticket + pc.granted, pc.ticket + pc.n;
    assert PcOk(s, t, pc);
    DecideCounters(s, s', t, lo, hi, Failed);
    DecideKeeps(s, s', t, lo, hi, Failed);
    ReturnKeepsPassedOk(s, s', lo, hi);
    assert PcOk(s', t, s'.pcs[t]);
  }

  lemma ReturnKeepsPassedOk(s: State, s': State, lo: nat, hi: nat)
    requires PassedOk(s) && s'.tail == s.tail && s'.fates == Decide(s.fates, lo, hi, Failed)
    requires forall k: nat | k <= |s.fates| :: FailedBelow(s.fates, k) <= FailedBelow(s'.fates, k)
    ensures PassedOk(s')
  {
    forall u | 0 <= u < |s'.fates| && s'.fates[u].Passed?
      ensures u + 1 - FailedBelow(s'.fates, u) <= s'.tail
    {
      assert s.fates[u].Passed?;
    }
  }

  lemma ClaimPcs(s: State, t: Tid)
    requires PcsOk(s) && |s.owner| == s.head && Enabled(s, Claim(t))
    ensures PcsOk(Do(s, Claim(t)))
  {
    var s' := Do(s, Claim(t));
    hide FailedBelow;
    forall u | u in s'.pcs ensures PcOk(s', u, s'.pcs[u]) { assert PcOk(s, u, s.pcs[u]); }
  }

  lemma ClaimStep(s: State, t: Tid)
    requires Inv(s) && Enabled(s, Claim(t))
    ensures Inv(Do(s, Claim(t)))
  {
    ClaimPcs(s, t);
    assert PcOk(s, t, s.pcs[t]);
    hide FailedBelow, PassedBelow, PcsOk;
    TotalsChange(s, Do(s, Claim(t)), t);
  }

  lemma StepInv(s: State, a: Action)
    requires Inv(s) && Enabled(s, a)
    ensures Inv(Do(s, a))
  {
    match a
    case Enqueue => EnqueueStep(s);
    case TakeTicket(t) => TakeTicketStep(s, t);
    case TestTail(t) => TestTailStep(s, t);
    case ReturnUnits(t) => ReturnUnitsStep(s, t);
    case Claim(t) => ClaimStep(s, t);
    case _ => QuietStep(s, a);
  }

  lemma {:induction false} ExecutionInv(run: seq<State>, i: nat)
    requires Execution(run) && i < |run|
    ensures Inv(run[i])
  {
    if i == 0 {
      InitInv(run[0]);
    } else {
      ExecutionInv(run, i - 1);
      assert Next(run[i - 1], run[i - 1 + 1]);
      var a: Action :| Enabled(run[i - 1], a) && run[i] == Do(run[i - 1], a);
      StepInv(run[i - 1], a);
    }
  }

  // ---- main results ----

  /** In every state of every run, headIndex has not passed tailIndex, even counting the
      threads that are about to advance it; and the optimistic count is exactly the
      claimed, the returned and the in-flight units. */
  lemma DequeueSafety(run: seq<State>, i: nat)
    requires Execution(run) && i < |run|
    ensures var s := run[i];
            && s.head <= s.head + TotalToClaim(s) <= s.tail
            && s.optimistic == s.head + s.overcommit + TotalInFlight(s)
  {
    ExecutionInv(run, i);
    forall t | t in run[i].pcs ensures 0 <= ToClaim(run[i].pcs[t]) {
      assert PcOk(run[i], t, run[i].pcs[t]);
    }
    TallyBounds(run[i].pcs, ToClaim);
    PassedFits(run[i]);
  }

  /** A thread about to claim n units finds them between headIndex and tailIndex. */
  lemma ClaimFits(run: seq<State>, i: nat, t: Tid)
    requires Execution(run) && i < |run| && t in run[i].pcs && run[i].pcs[t].Claiming?
    ensures run[i].head + run[i].pcs[t].granted <= run[i].tail
  {
    DequeueSafety(run, i);
    ExecutionInv(run, i);
    forall u | u in run[i].pcs ensures 0 <= ToClaim(run[i].pcs[u]) {
      assert PcOk(run[i], u, run[i].pcs[u]);
    }
    TallyBounds(run[i].pcs, ToClaim);
  }

  lemma OwnerStep(s: State, a: Action)
    requires Enabled(s, a)
    ensures s.owner <= Do(s, a).owner
  {
  }

  /** The record of who claimed which index only grows. */
  lemma {:induction false} OwnerGrows(run: seq<State>, i: nat, j: nat)
    requires Execution(run) && i <= j < |run|
    ensures run[i].owner <= run[j].owner
    decreases j
  {
    hide Do, Init;
    if i < j {
      OwnerGrows(run, i, j - 1);
      assert Next(run[j - 1], run[j - 1 + 1]);
      var a: Action :| Enabled(run[j - 1], a) && run[j] == Do(run[j - 1], a);
      OwnerStep(run[j - 1], a);
    }
  }

  lemma HoldingStep(s: State, a: Action, t: Tid)
    requires Enabled(s, a) && t in s.pcs && |s.owner| == s.head
    ensures t in Do(s, a).pcs
    ensures var pc' := Do(s, a).pcs[t];
            pc' == s.pcs[t] || (pc'.Holding? ==> pc'.first == |s.owner| && !s.pcs[t].Holding?)
    ensures s.pcs[t].Holding? && Do(s, a).pcs[t] != s.pcs[t] ==> !Do(s, a).pcs[t].Holding?
  {
  }

  /** A thread that holds indices holds on to them, or holds only later ones afterwards. */
  lemma {:induction false} HoldsOrMovesOn(run: seq<State>, i: nat, j: nat, t: Tid)
    requires Execution(run) && i <= j < |run| && t in run[i].pcs && run[i].pcs[t].Holding?
    ensures t in run[j].pcs
    ensures var pc := run[i].pcs[t];
            || (forall m | i <= m <= j :: t in run[m].pcs && run[m].pcs[t] == pc)
            || (run[j].pcs[t].Holding? ==> pc.first + pc.count <= run[j].pcs[t].first)
    decreases j
  {
    hide Do, Init, Inv;
    if i < j {
      HoldsOrMovesOn(run, i, j - 1, t);
      OwnerGrows(run, i, j - 1);
      HeldIsClaimed(run, i, t);
      HeldIsClaimed(run, j - 1, t);
      assert Next(run[j - 1], run[j - 1 + 1]);
      var a: Action :| Enabled(run[j - 1], a) && run[j] == Do(run[j - 1], a);
      HoldingStep(run[j - 1], a, t);
    }
  }

  lemma HeldIsClaimed(run: seq<State>, i: nat, t: Tid)
    requires Execution(run) && i < |run| && t in run[i].pcs
    ensures |run[i].owner| == run[i].head
    ensures var pc := run[i].pcs[t];
            pc.Holding? ==> pc.first + pc.count <= |run[i].owner| &&
                            forall k | pc.first <= k < pc.first + pc.count :: run[i].owner[k] == t
  {
    ExecutionInv(run, i);
    assert PcOk(run[i], t, run[i].pcs[t]);
  }

  /** No index is claimed twice in a run: if threads t and u hold index k at moments i and j,
      they are the same thread, which has held the same indices all the time in between. */
  lemma NoIndexTwice(run: seq<State>, i: nat, t: Tid, j: nat, u: Tid, k: nat)
    requires Execution(run) && i <= j < |run| && t in run[i].pcs && u in run[j].pcs
    requires run[i].pcs[t].Holding? && run[j].pcs[u].Holding?
    requires var pc := run[i].pcs[t]; pc.first <= k < pc.first + pc.count
    requires var pc := run[j].pcs[u]; pc.first <= k < pc.first + pc.count
    ensures t == u && k < run[i].head <= run[i].tail
    ensures forall m | i <= m <= j :: t in run[m].pcs && run[m].pcs[t] == run[i].pcs[t]
  {
    hide Execution;
    DequeueSafety(run, i);
    HeldIsClaimed(run, i, t);
    HeldIsClaimed(run, j, u);
    OwnerGrows(run, i, j);
    assert run[i].owner[k] == t && run[j].owner[k] == u;
    HoldsOrMovesOn(run, i, j, t);
  }

  ghost predicate Quiescent(s: State) {
    forall t | t in s.pcs :: s.pcs[t].Idle? || s.pcs[t].Holding?
  }

  /** One thread runs a whole dequeue while nobody else moves. */
  function Solo(s: State, t: Tid, max: nat): State
    requires t in s.pcs && s.pcs[t].Idle? && max > 0
  {
    var s2 := Do(Do(Do(s, LoadTail(t, max)), LoadOvercommit(t)), TestOptimistic(t));
    if s2.pcs[t].Idle? then s2
    else
      var s4 := Do(Do(s2, TakeTicket(t)), TestTail(t));
      var s5 := if s4.pcs[t].Returning? then Do(s4, ReturnUnits(t)) else s4;
      if s5.pcs[t].Claiming? then Do(s5, Claim(t)) else s5
  }

  /** A run and the actions taken along it. */
  ghost predicate Trace(run: seq<State>, acts: seq<Action>) {
    && |run| == |acts| + 1 && Init(run[0])
    && forall i | 0 <= i < |acts| :: Taken(run, acts, i)
  }

  ghost predicate Taken(run: seq<State>, acts: seq<Action>, i: nat)
    requires |run| == |acts| + 1 && i < |acts|
  {
    Enabled(run[i], acts[i]) && run[i + 1] == Do(run[i], acts[i])
  }

  function Enqueues(acts: seq<Action>): nat {
    if acts == [] then 0 else Enqueues(acts[..|acts| - 1]) + if acts[|acts| - 1].Enqueue? then 1 else 0
  }

  /** The tailIndex counts the elements enqueued, and as many of them as the headIndex says have
      been claimed. */
  lemma {:induction false} TailCounts(run: seq<State>, acts: seq<Action>, i: nat)
    requires Trace(run, acts) && i < |run|
    ensures run[i].tail == Enqueues(acts[..i]) && run[i].head == |run[i].owner|
  {
    if i > 0 {
      TailCounts(run, acts, i - 1);
      assert Taken(run, acts, i - 1);
      assert acts[..i][..i - 1] == acts[..i - 1];
    }
  }

  /** When no other dequeue is in flight, a dequeue comes back empty-handed exactly when
      the sub-queue is empty; otherwise it gets the oldest elements, as many as it asked
      for or as there are, and gives no unit back. */
  lemma QuiescentDequeue(run: seq<State>, i: nat, t: Tid, max: nat)
    requires Execution(run) && i < |run|
    requires Quiescent(run[i]) && t in run[i].pcs && run[i].pcs[t].Idle? && max > 0
    ensures var s, s' := run[i], Solo(run[i], t, max);
            && (s'.pcs[t].Idle? <==> s.head == s.tail)
            && (s.head < s.tail ==> s'.pcs[t] == Holding(s.head, Min(max, s.tail - s.head)))
            && s'.overcommit == s.overcommit
            && s'.head == s.head + Min(max, s.tail - s.head)
  {
    DequeueSafety(run, i);
    TallyZero(run[i].pcs, InFlight);
    TallyZero(run[i].pcs, ToClaim);
  }

  // ---- the 64-bit comparison ----

  const WORD: int := 0x1_0000_0000_0000_0000

  /** The code's comparison of two index_t words: the wrapped difference is compared
      with half the range. */
  predicate CircularLessThan(a: nat, b: nat) {
    (a - b) % WORD > WORD / 2
  }

  /** The wrapped comparison decides the true order exactly when the true distance is
      within half the range (one side included). */
  lemma CircularLessIsLess(x: int, y: int)
    requires -WORD < x - y < WORD
    ensures (CircularLessThan(x % WORD, y % WORD) <==> x < y) <==> -(WORD / 2) < x - y <= WORD / 2
  {
  }
}
