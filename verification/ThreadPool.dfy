/**
  The bounded task queue of the thread pool as a monitor.  A step is one stretch of code
  run under the mutex, from acquiring it to releasing it or starting to wait.  Woken
  threads compete for the mutex with newcomers, and waits may end without a notification.
 */
module ThreadPool {
  import opened Counting

  type Tid = nat
  type Task = nat

  datatype Pc =
    | Outside
    | ProducerWaits(task: Task)
    | ProducerAwake(task: Task)
    | WorkerWaits
    | WorkerAwake

  /** `pushed` and `taken` are history.  A `max` of zero means no bound. */
  datatype State = State(
    queue: seq<Task>, max: nat, running: bool, pcs: map<Tid, Pc>,
    pushed: seq<Task>, taken: seq<Task>)

  /** Whom a notify wakes, if anyone is waiting. */
  datatype Choice = Nobody | One(t: Tid)

  datatype Action =
    | Run(t: Tid, task: Task, wake: Choice)
    | RunAgain(t: Tid, wake: Choice)
    | Take(t: Tid, wake: Choice)
    | TakeAgain(t: Tid, wake: Choice)
    | SpuriousWake(t: Tid)
    | Stop

  predicate Init(s: State) {
    && s.queue == [] && s.running && s.pushed == [] && s.taken == []
    && forall t | t in s.pcs :: s.pcs[t].Outside?
  }

  predicate IsFull(s: State) { s.max > 0 && |s.queue| >= s.max }

  ghost predicate AnyProducerWaits(s: State) { exists t :: t in s.pcs && s.pcs[t].ProducerWaits? }
  ghost predicate AnyWorkerWaits(s: State) { exists t :: t in s.pcs && s.pcs[t].WorkerWaits? }

  /** A notify wakes one waiting thread if there is one. */
  ghost predicate NotifiesWorker(s: State, c: Choice) {
    match c
    case Nobody => !AnyWorkerWaits(s)
    case One(t) => t in s.pcs && s.pcs[t].WorkerWaits?
  }

  ghost predicate NotifiesProducer(s: State, c: Choice) {
    match c
    case Nobody => !AnyProducerWaits(s)
    case One(t) => t in s.pcs && s.pcs[t].ProducerWaits?
  }

  ghost predicate Enabled(s: State, a: Action) {
    match a
    case Run(t, _, c) => t in s.pcs && s.pcs[t].Outside? && NotifiesWorker(s, c)
    case RunAgain(t, c) => t in s.pcs && s.pcs[t].ProducerAwake? && NotifiesWorker(s, c)
    case Take(t, c) => t in s.pcs && s.pcs[t].Outside? && NotifiesProducer(s, c)
    case TakeAgain(t, c) => t in s.pcs && s.pcs[t].WorkerAwake? && NotifiesProducer(s, c)
    case SpuriousWake(t) => t in s.pcs && (s.pcs[t].ProducerWaits? || s.pcs[t].WorkerWaits?)
    case Stop => true
  }

  function Woken(pc: Pc): Pc {
    match pc
    case ProducerWaits(task) => ProducerAwake(task)
    case WorkerWaits => WorkerAwake
    case _ => pc
  }

  function Notify(s: State, c: Choice): State {
    if c.One? && c.t in s.pcs then s.(pcs := s.pcs[c.t := Woken(s.pcs[c.t])]) else s
  }

  /** The loop test of run, and what follows it when the loop is left. */
  function TryRun(s: State, t: Tid, task: Task, c: Choice): State {
    if IsFull(s) && s.running then s.(pcs := s.pcs[t := ProducerWaits(task)])
    else if !s.running then s.(pcs := s.pcs[t := Outside])
    else Notify(s.(queue := s.queue + [task], pushed := s.pushed + [task], pcs := s.pcs[t := Outside]), c)
  }

  function TryTake(s: State, t: Tid, c: Choice): State {
    if s.queue == [] && s.running then s.(pcs := s.pcs[t := WorkerWaits])
    else if s.queue == [] then s.(pcs := s.pcs[t := Outside])
    else
      var s' := s.(queue := s.queue[1..], taken := s.taken + [s.queue[0]], pcs := s.pcs[t := Outside]);
      if s.max > 0 then Notify(s', c) else s'
  }

  ghost function Do(s: State, a: Action): State
    requires Enabled(s, a)
  {
    match a
    case Run(t, task, c) => TryRun(s, t, task, c)
    case RunAgain(t, c) => TryRun(s, t, s.pcs[t].task, c)
    case Take(t, c) => TryTake(s, t, c)
    case TakeAgain(t, c) => TryTake(s, t, c)
    case SpuriousWake(t) => s.(pcs := s.pcs[t := Woken(s.pcs[t])])
    case Stop => s.(running := false, pcs := map t | t in s.pcs :: Woken(s.pcs[t]))
  }

  ghost predicate Next(s: State, s': State) {
    exists a: Action :: Enabled(s, a) && s' == Do(s, a)
  }

  ghost predicate Execution(run: seq<State>) {
    && |run| > 0
    && Init(run[0])
    && forall i | 0 <= i < |run| - 1 :: Next(run[i], run[i + 1])
  }

  // ---- the invariant ----

  function IsProducerAwake(pc: Pc): int { if pc.ProducerAwake? then 1 else 0 }
  function IsWorkerAwake(pc: Pc): int { if pc.WorkerAwake? then 1 else 0 }

  /** Producers notified, or woken otherwise, that have not yet looked at the queue again. */
  ghost function ProducersAwake(s: State): int { Tally(s.pcs, IsProducerAwake) }
  ghost function WorkersAwake(s: State): int { Tally(s.pcs, IsWorkerAwake) }

  ghost predicate QueueOk(s: State) {
    (s.max > 0 ==> |s.queue| <= s.max) && s.pushed == s.taken + s.queue
  }

  ghost predicate Inv(s: State) {
    && QueueOk(s)
    && ProducersAwake(s) >= 0 && WorkersAwake(s) >= 0
    && (AnyProducerWaits(s) ==> s.running && s.max > 0 && s.max - |s.queue| <= ProducersAwake(s))
    && (AnyWorkerWaits(s) ==> s.running && |s.queue| <= WorkersAwake(s))
  }

  lemma Moved(s: State, t: Tid, pc: Pc)
    requires t in s.pcs
    ensures var s' := s.(pcs := s.pcs[t := pc]);
            && ProducersAwake(s') == ProducersAwake(s) - IsProducerAwake(s.pcs[t]) + IsProducerAwake(pc)
            && WorkersAwake(s') == WorkersAwake(s) - IsWorkerAwake(s.pcs[t]) + IsWorkerAwake(pc)
            && (AnyProducerWaits(s') && !pc.ProducerWaits? ==> AnyProducerWaits(s))
            && (AnyWorkerWaits(s') && !pc.WorkerWaits? ==> AnyWorkerWaits(s))
            && (AnyProducerWaits(s) && !s.pcs[t].ProducerWaits? ==> AnyProducerWaits(s'))
            && (AnyWorkerWaits(s) && !s.pcs[t].WorkerWaits? ==> AnyWorkerWaits(s'))
  {
    var s' := s.(pcs := s.pcs[t := pc]);
    TallyChange(s.pcs, t, pc, IsProducerAwake);
    TallyChange(s.pcs, t, pc, IsWorkerAwake);
    if AnyProducerWaits(s) && !s.pcs[t].ProducerWaits? {
      var u :| u in s.pcs && s.pcs[u].ProducerWaits?;
      assert u in s'.pcs && s'.pcs[u].ProducerWaits?;
    }
    if AnyWorkerWaits(s) && !s.pcs[t].WorkerWaits? {
      var u :| u in s.pcs && s.pcs[u].WorkerWaits?;
      assert u in s'.pcs && s'.pcs[u].WorkerWaits?;
    }
  }

  lemma Counted(s: State)
    ensures ProducersAwake(s) >= 0 && WorkersAwake(s) >= 0
    ensures forall t | t in s.pcs ::
              IsProducerAwake(s.pcs[t]) <= ProducersAwake(s) && IsWorkerAwake(s.pcs[t]) <= WorkersAwake(s)
  {
    TallyBounds(s.pcs, IsProducerAwake);
    TallyBounds(s.pcs, IsWorkerAwake);
  }

  lemma TryRunInv(s: State, t: Tid, task: Task, c: Choice)
    requires Inv(s) && t in s.pcs && (s.pcs[t].Outside? || s.pcs[t].ProducerAwake?) && NotifiesWorker(s, c)
    ensures Inv(TryRun(s, t, task, c))
  {
    Counted(s);
    Counted(TryRun(s, t, task, c));
    hide ProducersAwake, WorkersAwake, AnyProducerWaits, AnyWorkerWaits;
    if IsFull(s) && s.running {
      Moved(s, t, ProducerWaits(task));
    } else if !s.running {
      Moved(s, t, Outside);
    } else {
      var s1 := s.(queue := s.queue + [task], pushed := s.pushed + [task]);
      SamePcs(s, s1);
      Moved(s1, t, Outside);
      if c.One? {
        Moved(s1.(pcs := s1.pcs[t := Outside]), c.t, WorkerAwake);
      }
    }
  }

  lemma SamePcs(s: State, s': State)
    requires s'.pcs == s.pcs
    ensures ProducersAwake(s') == ProducersAwake(s) && WorkersAwake(s') == WorkersAwake(s)
    ensures AnyProducerWaits(s') == AnyProducerWaits(s) && AnyWorkerWaits(s') == AnyWorkerWaits(s)
  {
  }

  lemma TryTakeInv(s: State, t: Tid, c: Choice)
    requires Inv(s) && t in s.pcs && (s.pcs[t].Outside? || s.pcs[t].WorkerAwake?) && NotifiesProducer(s, c)
    ensures Inv(TryTake(s, t, c))
  {
    Counted(s);
    Counted(TryTake(s, t, c));
    hide ProducersAwake, WorkersAwake, AnyProducerWaits, AnyWorkerWaits;
    if s.queue == [] && s.running {
      Moved(s, t, WorkerWaits);
    } else if s.queue == [] {
      Moved(s, t, Outside);
    } else {
      var s1 := s.(queue := s.queue[1..], taken := s.taken + [s.queue[0]]);
      SamePcs(s, s1);
      Moved(s1, t, Outside);
      if s.max > 0 && c.One? {
        Moved(s1.(pcs := s1.pcs[t := Outside]), c.t, Woken(s.pcs[c.t]));
      }
    }
  }

  lemma StopInv(s: State)
    requires Inv(s)
    ensures Inv(Do(s, Stop))
  {
    Counted(Do(s, Stop));
  }

  lemma StepInv(s: State, a: Action)
    requires Inv(s) && Enabled(s, a)
    ensures Inv(Do(s, a))
  {
    match a
    case Run(t, task, c) => TryRunInv(s, t, task, c);
    case RunAgain(t, c) => TryRunInv(s, t, s.pcs[t].task, c);
    case Take(t, c) => TryTakeInv(s, t, c);
    case TakeAgain(t, c) => TryTakeInv(s, t, c);
    case SpuriousWake(t) =>
      Counted(Do(s, a));
      hide ProducersAwake, WorkersAwake;
      Moved(s, t, Woken(s.pcs[t]));
    case Stop => StopInv(s);
  }

  lemma InitInv(s: State)
    requires Init(s)
    ensures Inv(s)
  {
    Counted(s);
  }

  lemma {:induction false} ExecutionInv(run: seq<State>, i: nat)
    requires Execution(run) && i < |run|
    ensures Inv(run[i])
  {
    hide Inv, Do, Init;
    if i == 0 {
      InitInv(run[0]);
    } else {
      ExecutionInv(run, i - 1);
      assert Next(run[i - 1], run[i - 1 + 1]);
      var a: Action :| Enabled(run[i - 1], a) && run[i] == Do(run[i - 1], a);
      StepInv(run[i - 1], a);
    }
  }

  // ---- runs with their actions ----

  /** A run and the actions taken along it. */
  ghost predicate Trace(run: seq<State>, acts: seq<Action>) {
    && |run| == |acts| + 1 && Init(run[0])
    && forall i | 0 <= i < |acts| :: Taken(run, acts, i)
  }

  ghost predicate Taken(run: seq<State>, acts: seq<Action>, i: nat)
    requires |run| == |acts| + 1 && i < |acts|
  {
    Enabled(run[i], acts[i]) && run[i + 1] == Do(run[i], acts[i])
  }

  lemma TraceIsExecution(run: seq<State>, acts: seq<Action>)
    requires Trace(run, acts)
    ensures Execution(run)
  {
    forall i | 0 <= i < |run| - 1 ensures Next(run[i], run[i + 1]) { assert Taken(run, acts, i); }
  }

  /** The task thread t last asked the pool to run. */
  function Asked(acts: seq<Action>, t: Tid): Task {
    if acts == [] then 0
    else
      var a := acts[|acts| - 1];
      if a.Run? && a.t == t then a.task else Asked(acts[..|acts| - 1], t)
  }

  /** What producers hold while they wait is what they asked for. */
  ghost predicate HoldsAsked(s: State, acts: seq<Action>) {
    forall t | t in s.pcs && (s.pcs[t].ProducerWaits? || s.pcs[t].ProducerAwake?) :: s.pcs[t].task == Asked(acts, t)
  }

  lemma {:induction false} WaitsWithAsked(run: seq<State>, acts: seq<Action>, i: nat)
    requires Trace(run, acts) && i < |run|
    ensures HoldsAsked(run[i], acts[..i])
  {
    if i > 0 {
      WaitsWithAsked(run, acts, i - 1);
      assert Taken(run, acts, i - 1);
      assert acts[..i][..i - 1] == acts[..i - 1];
    }
  }

  /** Calls of run that find room in a running pool. */
  ghost predicate Accepts(s: State, a: Action) { (a.Run? || a.RunAgain?) && s.running && !IsFull(s) }

  /** Calls of take that find a task. */
  ghost predicate Finds(s: State, a: Action) { (a.Take? || a.TakeAgain?) && s.queue != [] }

  /** The tasks of the accepted calls, in order. */
  ghost function Accepted(run: seq<State>, acts: seq<Action>, i: nat): seq<Task>
    requires i <= |acts| <= |run|
  {
    if i == 0 then []
    else
      Accepted(run, acts, i - 1) +
      if Accepts(run[i - 1], acts[i - 1]) then [Asked(acts[..i], acts[i - 1].t)] else []
  }

  ghost function Found(run: seq<State>, acts: seq<Action>, i: nat): nat
    requires i <= |acts| <= |run|
  {
    if i == 0 then 0 else Found(run, acts, i - 1) + if Finds(run[i - 1], acts[i - 1]) then 1 else 0
  }

  lemma {:induction false} PushedIsAccepted(run: seq<State>, acts: seq<Action>, i: nat)
    requires Trace(run, acts) && i < |run|
    ensures run[i].pushed == Accepted(run, acts, i) && |run[i].taken| == Found(run, acts, i)
  {
    if i > 0 {
      PushedIsAccepted(run, acts, i - 1);
      assert Taken(run, acts, i - 1);
      WaitsWithAsked(run, acts, i - 1);
      assert acts[..i][..i - 1] == acts[..i - 1];
    }
  }

  // ---- main results ----

  /** The tasks taken followed by those queued are the tasks of the calls of run that found room,
      in the order they did; and each call of take that found a task took one. */
  lemma RunsWhatWasAsked(run: seq<State>, acts: seq<Action>, i: nat)
    requires Trace(run, acts) && i < |run|
    ensures run[i].taken + run[i].queue == Accepted(run, acts, i)
    ensures |run[i].taken| == Found(run, acts, i)
  {
    TraceIsExecution(run, acts);
    ExecutionInv(run, i);
    PushedIsAccepted(run, acts, i);
  }

  /** A call of run comes back only with its task queued or the pool stopped, and a call of take
      only with a task or the pool stopped and the queue empty. */
  lemma ReturnsWithReason(run: seq<State>, acts: seq<Action>, i: nat)
    requires Trace(run, acts) && i < |acts| && !acts[i].SpuriousWake? && !acts[i].Stop?
    requires acts[i].t in run[i + 1].pcs && run[i + 1].pcs[acts[i].t].Outside?
    ensures acts[i].Run? || acts[i].RunAgain? ==> Accepts(run[i], acts[i]) || !run[i].running
    ensures acts[i].Take? || acts[i].TakeAgain? ==> Finds(run[i], acts[i]) || (run[i].queue == [] && !run[i].running)
  {
    assert Taken(run, acts, i);
  }


  /** Tasks are taken in the order they were pushed, each at most once, and a bounded queue
      never holds more than its bound. */
  lemma FifoAndBounded(run: seq<State>, i: nat)
    requires Execution(run) && i < |run|
    ensures run[i].pushed == run[i].taken + run[i].queue
    ensures run[i].max > 0 ==> |run[i].queue| <= run[i].max
  {
    ExecutionInv(run, i);
  }

  /** No notification is lost on the producers' side: while some producer still waits, every
      free slot has a producer awake to use it. */
  lemma FreeSlotsHaveProducers(run: seq<State>, i: nat, t: Tid)
    requires Execution(run) && i < |run| && t in run[i].pcs && run[i].pcs[t].ProducerWaits?
    ensures run[i].running && run[i].max > 0 && run[i].max - |run[i].queue| <= ProducersAwake(run[i])
  {
    ExecutionInv(run, i);
    assert AnyProducerWaits(run[i]);
  }

  /** Nor on the workers' side: while some worker still waits, every queued task has a worker
      awake to take it. */
  lemma TasksHaveWorkers(run: seq<State>, i: nat, t: Tid)
    requires Execution(run) && i < |run| && t in run[i].pcs && run[i].pcs[t].WorkerWaits?
    ensures run[i].running && |run[i].queue| <= WorkersAwake(run[i])
  {
    ExecutionInv(run, i);
    assert AnyWorkerWaits(run[i]);
  }

  /** Producers and workers never all sleep at once. */
  lemma NoStandoff(run: seq<State>, i: nat, t: Tid, u: Tid)
    requires Execution(run) && i < |run| && t in run[i].pcs && run[i].pcs[t].ProducerWaits? && u in run[i].pcs &&
             run[i].pcs[u].WorkerWaits?
    ensures exists v :: v in run[i].pcs && (run[i].pcs[v].ProducerAwake? || run[i].pcs[v].WorkerAwake?)
  {
    FreeSlotsHaveProducers(run, i, t);
    TasksHaveWorkers(run, i, u);
    var s := run[i];
    if forall v | v in s.pcs :: !s.pcs[v].ProducerAwake? && !s.pcs[v].WorkerAwake? {
      TallyZero(s.pcs, IsProducerAwake);
      TallyZero(s.pcs, IsWorkerAwake);
    }
  }

  /** The pool runs until it is stopped. */
  lemma {:induction false} RunningIff(run: seq<State>, acts: seq<Action>, i: nat)
    requires Trace(run, acts) && i < |run|
    ensures run[i].running <==> forall k | 0 <= k < i :: !acts[k].Stop?
  {
    if i > 0 {
      RunningIff(run, acts, i - 1);
      assert Taken(run, acts, i - 1);
    }
  }

  /** Once the pool is stopped, nobody waits. */
  ghost predicate StoppedIsAwake(s: State) {
    !s.running ==> forall t | t in s.pcs :: !s.pcs[t].ProducerWaits? && !s.pcs[t].WorkerWaits?
  }

  lemma StoppedStep(s: State, a: Action)
    requires StoppedIsAwake(s) && Enabled(s, a)
    ensures StoppedIsAwake(Do(s, a))
  {
  }

  /** So every thread in a stopped pool can go on, a producer to its caller and a worker to the
      tasks left over. */
  lemma {:induction false} StopFreesEverybody(run: seq<State>, i: nat)
    requires Execution(run) && i < |run|
    ensures StoppedIsAwake(run[i])
  {
    if i > 0 {
      StopFreesEverybody(run, i - 1);
      assert Next(run[i - 1], run[i - 1 + 1]);
      var a: Action :| Enabled(run[i - 1], a) && run[i] == Do(run[i - 1], a);
      StoppedStep(run[i - 1], a);
    }
  }
}
