/**
  The blocking queue: the inner lock-free queue composed with the semaphore.  Items go in
  before their permits are signalled; a permit must be acquired before an item is taken,
  and its holder then retries the inner dequeue until it succeeds.  The inner queue is a
  bag: items of different producers come out in no fixed order.
 */
module BlockingQueue {
  import opened Counting
  import S = Semaphore

  type Item = nat
  type Tid = nat

  datatype Client =
    | Out
    | Owing(n: nat)
    | Signalling
    | Asking
    | Taking(k: nat)

  /** `enqueued` and `delivered` are history. */
  datatype State = State(
    items: multiset<Item>, sem: S.State, clients: map<Tid, Client>,
    enqueued: multiset<Item>, delivered: multiset<Item>)

  datatype Action =
    | Enqueue(t: Tid, xs: seq<Item>)
    | Signal(t: Tid)
    | Signalled(t: Tid)
    | Ask(t: Tid, op: S.Op)
    | SemStep(t: Tid, alt: bool)
    | Granted(t: Tid)
    | TakeItem(t: Tid, x: Item)

  predicate Init(s: State) {
    && S.Init(s.sem) && s.sem.initial == 0 && s.sem.pcs.Keys == s.clients.Keys
    && s.items == multiset{} && s.enqueued == multiset{} && s.delivered == multiset{}
    && forall t | t in s.clients :: s.clients[t] == Out
  }

  predicate Enabled(s: State, a: Action) {
    a.t in s.clients && a.t in s.sem.pcs &&
    match a
    case Enqueue(t, _) => s.clients[t].Out?
    case Signal(t) => s.clients[t].Owing? && S.Enabled(s.sem, S.Signal(t, s.clients[t].n))
    case Signalled(t) => s.clients[t].Signalling? && s.sem.pcs[t].Rest?
    case Ask(t, op) => s.clients[t].Out? && S.Enabled(s.sem, S.Wait(t, op))
    case SemStep(t, alt) => S.Enabled(s.sem, S.Step(t, alt))
    case Granted(t) => s.clients[t].Asking? && S.Enabled(s.sem, S.Return(t))
    case TakeItem(t, x) => s.clients[t].Taking? && x in s.items
  }

  function Take(k: nat): Client { if k > 0 then Taking(k) else Out }

  function Do(s: State, a: Action): State
    requires Enabled(s, a)
  {
    match a
    case Enqueue(t, xs) =>
      s.(items := s.items + multiset(xs), enqueued := s.enqueued + multiset(xs), clients := s.clients[t := Owing(|xs|)])
    case Signal(t) => s.(sem := S.Do(s.sem, S.Signal(t, s.clients[t].n)), clients := s.clients[t := Signalling])
    case Signalled(t) => s.(clients := s.clients[t := Out])
    case Ask(t, op) => s.(sem := S.Do(s.sem, S.Wait(t, op)), clients := s.clients[t := Asking])
    case SemStep(t, alt) => s.(sem := S.Do(s.sem, S.Step(t, alt)))
    case Granted(t) => s.(sem := S.Do(s.sem, S.Return(t)), clients := s.clients[t := Take(s.sem.pcs[t].k)])
    case TakeItem(t, x) =>
      s.(items := s.items - multiset{x}, delivered := s.delivered + multiset{x},
         clients := s.clients[t := Take(if s.clients[t].k > 0 then s.clients[t].k - 1 else 0)])
  }

  ghost predicate Next(s: State, s': State) {
    exists a: Action :: Enabled(s, a) && s' == Do(s, a)
  }

  ghost predicate Execution(run: seq<State>) {
    && |run| > 0
    && Init(run[0])
    && forall i | 0 <= i < |run| - 1 :: Next(run[i], run[i + 1])
  }

  // ---- the invariant ----

  function Owes(c: Client): int { if c.Owing? then c.n else 0 }
  function Takes(c: Client): int { if c.Taking? then c.k else 0 }

  /** Items enqueued whose permits have not been signalled. */
  ghost function Unsignalled(s: State): int { Tally(s.clients, Owes) }

  /** Permits in the hands of dequeuers that are retrying the inner queue. */
  ghost function InHand(s: State): int { Tally(s.clients, Takes) }

  ghost predicate Inv(s: State) {
    && S.Inv(s.sem) && s.sem.initial == 0 && s.sem.pcs.Keys == s.clients.Keys
    && s.enqueued == s.items + s.delivered
    && s.sem.signalled + Unsignalled(s) == |s.enqueued|
    && s.sem.taken == |s.delivered| + InHand(s)
    && forall t | t in s.clients && s.clients[t].Taking? :: s.clients[t].k > 0
  }

  lemma Settle(s: State, s': State, t: Tid)
    requires t in s.clients && t in s'.clients && s'.clients == s.clients[t := s'.clients[t]]
    ensures Unsignalled(s') == Unsignalled(s) - Owes(s.clients[t]) + Owes(s'.clients[t])
    ensures InHand(s') == InHand(s) - Takes(s.clients[t]) + Takes(s'.clients[t])
  {
    TallyChange(s.clients, t, s'.clients[t], Owes);
    TallyChange(s.clients, t, s'.clients[t], Takes);
  }

  /** What the queue needs to know of a step of the semaphore. */
  lemma SemMoves(s: S.State, a: S.Action)
    requires S.Inv(s) && S.Enabled(s, a)
    ensures S.Inv(S.Do(s, a)) && S.Do(s, a).initial == s.initial && S.Do(s, a).pcs.Keys == s.pcs.Keys
    ensures S.Do(s, a).signalled == s.signalled + if a.Signal? then a.n else 0
    ensures S.Do(s, a).taken == s.taken + if a.Return? then s.pcs[a.t].k else 0
  {
    S.StepInv(s, a);
    hide S.Do, S.Balanced, S.PcOk;
    S.StepShifts(s, a);
  }

  lemma StepInv(s: State, a: Action)
    requires Inv(s) && Enabled(s, a)
    ensures Inv(Do(s, a))
  {
    hide S.Inv, S.Do, Unsignalled, InHand;
    var s' := Do(s, a);
    Settle(s, s', a.t);
    match a
    case Enqueue(t, xs) =>
    case Signal(t) => SemMoves(s.sem, S.Signal(t, s.clients[t].n));
    case Signalled(t) =>
    case Ask(t, op) => SemMoves(s.sem, S.Wait(t, op));
    case SemStep(t, alt) => SemMoves(s.sem, S.Step(t, alt));
    case Granted(t) => SemMoves(s.sem, S.Return(t));
    case TakeItem(t, x) =>
  }

  lemma InitInv(s: State)
    requires Init(s)
    ensures Inv(s)
  {
    S.InitInv(s.sem);
    TallyZero(s.clients, Owes);
    TallyZero(s.clients, Takes);
  }

  lemma {:induction false} ExecutionInv(run: seq<State>, i: nat)
    requires Execution(run) && i < |run|
    ensures Inv(run[i])
  {
    hide Inv, Do, Init;
    if i == 0 {
      InitInv(run[0]);
    } else {
      ExecutionInv(run, i - 1);
      assert Next(run[i - 1], run[i - 1 + 1]);
      var a: Action :| Enabled(run[i - 1], a) && run[i] == Do(run[i - 1], a);
      StepInv(run[i - 1], a);
    }
  }

  /** Every item is in the queue or has been delivered, once. */
  lemma ItemsConserved(s: State)
    requires Inv(s)
    ensures s.enqueued == s.items + s.delivered && |s.enqueued| == |s.items| + |s.delivered|
  {
  }

  // ---- runs with their actions ----

  /** A run and the actions taken along it. */
  ghost predicate Trace(run: seq<State>, acts: seq<Action>) {
    && |run| == |acts| + 1 && Init(run[0])
    && forall i | 0 <= i < |acts| :: Taken(run, acts, i)
  }

  ghost predicate Taken(run: seq<State>, acts: seq<Action>, i: nat)
    requires |run| == |acts| + 1 && i < |acts|
  {
    Enabled(run[i], acts[i]) && run[i + 1] == Do(run[i], acts[i])
  }

  lemma TraceIsExecution(run: seq<State>, acts: seq<Action>)
    requires Trace(run, acts)
    ensures Execution(run)
  {
    forall i | 0 <= i < |run| - 1 ensures Next(run[i], run[i + 1]) { assert Taken(run, acts, i); }
  }

  function Enqueued(acts: seq<Action>): multiset<Item> {
    if acts == [] then multiset{}
    else
      var a := acts[|acts| - 1];
      Enqueued(acts[..|acts| - 1]) + if a.Enqueue? then multiset(a.xs) else multiset{}
  }

  function Delivered(acts: seq<Action>): multiset<Item> {
    if acts == [] then multiset{}
    else
      var a := acts[|acts| - 1];
      Delivered(acts[..|acts| - 1]) + if a.TakeItem? then multiset{a.x} else multiset{}
  }

  lemma {:induction false} HistoryIsActions(run: seq<State>, acts: seq<Action>, i: nat)
    requires Trace(run, acts) && i < |run|
    ensures run[i].enqueued == Enqueued(acts[..i]) && run[i].delivered == Delivered(acts[..i])
  {
    if i > 0 {
      HistoryIsActions(run, acts, i - 1);
      assert Taken(run, acts, i - 1);
      assert acts[..i][..i - 1] == acts[..i - 1];
    }
  }

  // ---- main results ----

  /** What was enqueued and not yet delivered is in the queue; and a permit has been signalled, or
      is owed by its enqueuer, for each item enqueued. */
  lemma QueueHoldsRest(run: seq<State>, acts: seq<Action>, i: nat)
    requires Trace(run, acts) && i < |run|
    ensures Delivered(acts[..i]) <= Enqueued(acts[..i]) && run[i].items == Enqueued(acts[..i]) - Delivered(acts[..i])
    ensures run[i].sem.signalled + Unsignalled(run[i]) == |Enqueued(acts[..i])|
  {
    TraceIsExecution(run, acts);
    ExecutionInv(run, i);
    HistoryIsActions(run, acts, i);
  }


  /** Unclaimed items, counted by where their permits are. */
  lemma PermitLedger(s: State)
    requires Inv(s)
    ensures |s.items| == s.sem.count + S.Waiting(s.sem) + S.Held(s.sem) + InHand(s) + Unsignalled(s)
    ensures |s.items| >= S.Held(s.sem) + InHand(s) + Unsignalled(s)
    ensures InHand(s) >= 0 && Unsignalled(s) >= 0
    ensures forall t | t in s.clients :: Takes(s.clients[t]) <= InHand(s)
  {
    S.TalliesNonNegative(s.sem);
    TallyBounds(s.clients, Owes);
    TallyBounds(s.clients, Takes);
    ItemsConserved(s);
  }

  /** All the permits in hand together are covered by distinct unclaimed items, so a permit
      holder that retries the inner queue always has an item to find. */
  lemma HolderHasItem(run: seq<State>, i: nat, t: Tid)
    requires Execution(run) && i < |run| && t in run[i].clients && run[i].clients[t].Taking?
    ensures InHand(run[i]) <= |run[i].items|
    ensures exists x :: Enabled(run[i], TakeItem(t, x))
  {
    ExecutionInv(run, i);
    var s := run[i];
    S.TalliesNonNegative(s.sem);
    PermitLedger(s);
    assert |s.items| > 0;
    var x :| x in s.items;
    assert Enabled(s, TakeItem(t, x));
  }

  /** A sleeping consumer is on its way to being woken as soon as the queue holds an item
      that no permit holder and no pending signal accounts for. */
  lemma SleeperIsWoken(run: seq<State>, i: nat, t: Tid)
    requires Execution(run) && i < |run| && t in run[i].sem.pcs && run[i].sem.pcs[t].Blocked?
    requires |run[i].items| > S.Held(run[i].sem) + InHand(run[i]) + Unsignalled(run[i])
    ensures run[i].sem.os > 0 || S.Unposted(run[i].sem) > 0
  {
    ExecutionInv(run, i);
    var s := run[i];
    PermitLedger(s);
    S.TalliesNonNegative(s.sem);
  }

  /** With nobody inside, the count is the number of items. */
  lemma QuietCount(run: seq<State>, i: nat)
    requires Execution(run) && i < |run|
    requires forall t | t in run[i].clients :: run[i].clients[t].Out?
    requires forall t | t in run[i].sem.pcs :: run[i].sem.pcs[t].Rest?
    ensures run[i].sem.count == |run[i].items| && run[i].sem.os == 0
  {
    ExecutionInv(run, i);
    var s := run[i];
    PermitLedger(s);
    TallyZero(s.sem.pcs, S.Waits);
    TallyZero(s.sem.pcs, S.Posts);
    TallyZero(s.sem.pcs, S.Holds);
    TallyZero(s.clients, Owes);
    TallyZero(s.clients, Takes);
  }
}
