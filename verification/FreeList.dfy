/**
  The reference-counted compare-and-swap free list of blocks.  Any number of threads
  add blocks and take blocks; each atomic access is one step.  A node's reference word
  keeps 31 bits of count and, on top, the should-be-on-free-list flag, and all
  arithmetic on it is modulo 2^32.
 */
module FreeList {
  import opened Basics
  import opened Counting

  type Tid = nat
  type Node = nat

  datatype Link = Null | To(n: Node)

  /** Where add_knowing_refcount_is_zero returns to: to the end of add, or into the loop
      of try_get with the head value that loop carries. */
  datatype Caller = FromAdd | FromGet(head: Link)

  datatype Pc =
    | Idle
    | Adding(n: Node)
    | LoadHead(n: Node, k: Caller)
    | StoreNext(n: Node, h: Link, k: Caller)
    | StoreRefs(n: Node, h: Link, k: Caller)
    | CasIn(n: Node, h: Link, k: Caller)
    | Undo(n: Node, h: Link, k: Caller)
    | GetHead
    | GetLoop(h: Link)
    | CasRefs(n: Node, refs: nat)
    | LoadNext(n: Node)
    | CasOut(n: Node, next: Link)
    | Take(n: Node)
    | Drop(n: Node, h: Link)

  /** History: where a node is in its life. */
  datatype Phase =
    | Owned(t: Tid)       // held by one client thread
    | Waiting             // flagged; the last holder of a reference will insert it
    | Inserting(t: Tid)   // one thread is putting it on the list
    | Linked              // on the chain
    | Taken(t: Tid)       // unlinked by one thread that has not dropped its two references

  datatype State = State(
    head: Link, refs: map<Node, nat>, next: map<Node, Link>,
    pcs: map<Tid, Pc>,
    phase: map<Node, Phase>, chain: seq<Node>)

  const SHOULD: nat := 0x8000_0000
  const WORD: nat := 0x1_0000_0000

  datatype Action =
    | Step(t: Tid)
    | StartAdd(t: Tid, n: Node)
    | StartGet(t: Tid)
    | Create(t: Tid, n: Node)
    | HandOver(t: Tid, u: Tid, n: Node)

  predicate Init(s: State) {
    && s.head == Null && s.refs == map[] && s.next == map[] && s.phase == map[] && s.chain == []
    && (forall t | t in s.pcs :: s.pcs[t].Idle?)
    && |s.pcs| < SHOULD - 2
  }

  /** Clients only add or hand over a block they own, and never one they are adding. */
  predicate Enabled(s: State, a: Action) {
    && a.t in s.pcs
    && match a
       case Step(t) =>
         !s.pcs[t].Idle? && NodesExist(s, s.pcs[t])
       case StartAdd(t, n) => s.pcs[t].Idle? && n in s.phase && s.phase[n] == Owned(t)
       case StartGet(t) => s.pcs[t].Idle?
       case Create(t, n) => n !in s.phase && n !in s.refs && n !in s.next
       case HandOver(t, u, n) =>
         && u in s.pcs && n in s.phase && s.phase[n] == Owned(t) && s.pcs[t] != Adding(n)
  }

  predicate Exists(s: State, n: Node) { n in s.refs && n in s.next && n in s.phase }

  predicate NodesExist(s: State, pc: Pc) {
    match pc
    case Idle => true
    case GetHead => true
    case GetLoop(h) => h.To? ==> Exists(s, h.n)
    case _ => Exists(s, pc.n)
  }

  /** 32-bit unsigned arithmetic. */
  function Wrap(x: int): (r: nat)
    ensures 0 <= x < WORD ==> r == x
  {
    x % WORD
  }

  function Return(k: Caller): Pc {
    match k
    case FromAdd => Idle
    case FromGet(h) => GetLoop(h)
  }

  function Do(s: State, a: Action): State
    requires Enabled(s, a)
  {
    match a
    case Step(t) => Advance(s, t)
    case StartAdd(t, n) => s.(pcs := s.pcs[t := Adding(n)])
    case StartGet(t) => s.(pcs := s.pcs[t := GetHead])
    case Create(t, n) =>
      s.(refs := s.refs[n := 0], next := s.next[n := Null], phase := s.phase[n := Owned(t)])
    case HandOver(t, u, n) => s.(phase := s.phase[n := Owned(u)])
  }

  /** The next atomic access of thread t. */
  function Advance(s: State, t: Tid): State
    requires t in s.pcs && !s.pcs[t].Idle? && NodesExist(s, s.pcs[t])
  {
    match s.pcs[t]
    case Adding(n) =>
      var was := s.refs[n];
      if was == 0 then
        s.(refs := s.refs[n := Wrap(was + SHOULD)], pcs := s.pcs[t := LoadHead(n, FromAdd)],
           phase := s.phase[n := Inserting(t)])
      else
        s.(refs := s.refs[n := Wrap(was + SHOULD)], pcs := s.pcs[t := Idle],
           phase := s.phase[n := Waiting])
    case LoadHead(n, k) => s.(pcs := s.pcs[t := StoreNext(n, s.head, k)])
    case StoreNext(n, h, k) => s.(next := s.next[n := h], pcs := s.pcs[t := StoreRefs(n, h, k)])
    case StoreRefs(n, h, k) => s.(refs := s.refs[n := 1], pcs := s.pcs[t := CasIn(n, h, k)])
    case CasIn(n, h, k) =>
      if s.head == h then
        s.(head := To(n), pcs := s.pcs[t := Return(k)],
           phase := s.phase[n := Linked], chain := [n] + s.chain)
      else
        s.(pcs := s.pcs[t := Undo(n, s.head, k)])
    case Undo(n, h, k) =>
      var was := s.refs[n];
      if was == 1 then
        s.(refs := s.refs[n := Wrap(was + SHOULD - 1)], pcs := s.pcs[t := StoreNext(n, h, k)])
      else
        s.(refs := s.refs[n := Wrap(was + SHOULD - 1)], pcs := s.pcs[t := Return(k)],
           phase := s.phase[n := Waiting])
    case GetHead => s.(pcs := s.pcs[t := GetLoop(s.head)])
    case GetLoop(h) =>
      if h.Null? then s.(pcs := s.pcs[t := Idle])
      else s.(pcs := s.pcs[t := CasRefs(h.n, s.refs[h.n])])
    case CasRefs(n, refs) =>
      if refs % SHOULD == 0 || s.refs[n] != refs then
        s.(pcs := s.pcs[t := GetHead])
      else
        s.(refs := s.refs[n := Wrap(refs + 1)], pcs := s.pcs[t := LoadNext(n)])
    case LoadNext(n) => s.(pcs := s.pcs[t := CasOut(n, s.next[n])])
    case CasOut(n, next) =>
      if s.head == To(n) then
        s.(head := next, pcs := s.pcs[t := Take(n)],
           phase := s.phase[n := Taken(t)], chain := if s.chain == [] then [] else s.chain[1..])
      else
        s.(pcs := s.pcs[t := Drop(n, s.head)])
    case Take(n) =>
      var was: int := s.refs[n];
      s.(refs := s.refs[n := Wrap(was - 2)], pcs := s.pcs[t := Idle],
         phase := s.phase[n := Owned(t)])
    case Drop(n, h) =>
      var was: int := s.refs[n];
      if was == SHOULD + 1 then
        s.(refs := s.refs[n := Wrap(was - 1)], pcs := s.pcs[t := LoadHead(n, FromGet(h))],
           phase := s.phase[n := Inserting(t)])
      else
        s.(refs := s.refs[n := Wrap(was - 1)], pcs := s.pcs[t := GetLoop(h)])
  }

  ghost predicate Next(s: State, s': State) {
    exists a: Action :: Enabled(s, a) && s' == Do(s, a)
  }

  ghost predicate Execution(run: seq<State>) {
    && |run| > 0
    && Init(run[0])
    && forall i | 0 <= i < |run| - 1 :: Next(run[i], run[i + 1])
  }

  // ---- the invariant ----

  /** Thread states that own one counted reference on n taken by try_get. */
  predicate Holds(pc: Pc, n: Node) {
    (pc.LoadNext? || pc.CasOut? || pc.Take? || pc.Drop?) && pc.n == n
  }

  function Ref(n: Node): Pc -> int {
    pc => if Holds(pc, n) then 1 else 0
  }

  ghost function Holders(s: State, n: Node): int { Tally(s.pcs, Ref(n)) }

  predicate Inserts(pc: Pc) {
    pc.LoadHead? || pc.StoreNext? || pc.StoreRefs? || pc.CasIn? || pc.Undo?
  }

  /** The low 31 bits of every word are the list's reference plus the current holders. */
  ghost predicate WordOk(s: State, n: Node)
    requires Exists(s, n)
  {
    var h := Holders(s, n);
    match s.phase[n]
    case Owned(_) => s.refs[n] == h
    case Waiting => s.refs[n] == SHOULD + h && 1 <= h
    case Inserting(t) =>
      && t in s.pcs && Inserts(s.pcs[t]) && s.pcs[t].n == n
      && if s.pcs[t].CasIn? || s.pcs[t].Undo? then s.refs[n] == 1 + h else s.refs[n] == SHOULD && h == 0
    case Linked => s.refs[n] == 1 + h
    case Taken(t) => s.refs[n] == 1 + h && t in s.pcs && s.pcs[t] == Take(n)
  }

  ghost predicate LinkOk(s: State, h: Link) { h.To? ==> Exists(s, h.n) }

  ghost predicate PcOk(s: State, t: Tid, pc: Pc) {
    && NodesExist(s, pc)
    && (Inserts(pc) ==> s.phase[pc.n] == Inserting(t) && (pc.k.FromGet? ==> LinkOk(s, pc.k.head)))
    && match pc
       case Adding(n) => s.phase[n] == Owned(t)
       case StoreNext(n, h, k) => LinkOk(s, h)
       case StoreRefs(n, h, k) => LinkOk(s, h) && s.next[n] == h
       case CasIn(n, h, k) => LinkOk(s, h) && s.next[n] == h
       case Undo(n, h, k) => LinkOk(s, h)
       case CasOut(n, next) => s.next[n] == next
       case Take(n) => s.phase[n] == Taken(t)
       case Drop(n, h) => LinkOk(s, h)
       case _ => true
  }

  ghost predicate Domain(s: State) {
    s.refs.Keys == s.next.Keys == s.phase.Keys && |s.pcs| < SHOULD - 2
  }

  /** The chain's i-th node is linked to its successor, or ends the list. */
  ghost predicate LinkedAt(s: State, i: int) {
    0 <= i < |s.chain| ==>
      && s.chain[i] in s.phase && s.phase[s.chain[i]] == Linked
      && s.chain[i] in s.next
      && s.next[s.chain[i]] == if i + 1 < |s.chain| then To(s.chain[i + 1]) else Null
  }

  ghost predicate ChainOk(s: State) {
    && s.head == (if s.chain == [] then Null else To(s.chain[0]))
    && (forall i :: LinkedAt(s, i))
    && Distinct(s.chain)
    && (forall n | n in s.phase && s.phase[n] == Linked :: n in s.chain)
  }

  ghost predicate Inv(s: State) {
    && Domain(s)
    && (forall n | n in s.phase :: WordOk(s, n))
    && (forall t | t in s.pcs :: PcOk(s, t, s.pcs[t]))
    && ChainOk(s)
  }

  lemma HoldersBounds(s: State, n: Node)
    requires Domain(s)
    ensures 0 <= Holders(s, n) < SHOULD - 2
    ensures forall t | t in s.pcs && Holds(s.pcs[t], n) :: 1 <= Holders(s, n)
  {
    TallyBounds(s.pcs, Ref(n));
    TallyAtMost(s.pcs, Ref(n));
    forall t | t in s.pcs && Holds(s.pcs[t], n) ensures 1 <= Holders(s, n) {
      assert Ref(n)(s.pcs[t]) == 1;
    }
  }

  /** A program counter that holds or inserts no node other than m. */
  predicate Local(pc: Pc, m: Node) {
    (Inserts(pc) || pc.LoadNext? || pc.CasOut? || pc.Take? || pc.Drop?) ==> pc.n == m
  }

  /** s' differs from s only in the head, the chain, thread t and node m. */
  ghost predicate Touches(s: State, s': State, t: Tid, m: Node) {
    && t in s.pcs && t in s'.pcs && s'.pcs == s.pcs[t := s'.pcs[t]]
    && Local(s.pcs[t], m) && Local(s'.pcs[t], m)
    && s'.refs.Keys == s.refs.Keys && s'.next.Keys == s.next.Keys && s'.phase.Keys == s.phase.Keys
    && (forall n | n in s.refs && n != m :: s'.refs[n] == s.refs[n])
    && (forall n | n in s.next && n != m :: s'.next[n] == s.next[n])
    && (forall n | n in s.phase && n != m :: s'.phase[n] == s.phase[n])
  }

  lemma HoldersChange(s: State, s': State, t: Tid, n: Node)
    requires t in s.pcs && t in s'.pcs && s'.pcs == s.pcs[t := s'.pcs[t]]
    ensures Holders(s', n) == Holders(s, n) - Ref(n)(s.pcs[t]) + Ref(n)(s'.pcs[t])
  {
    TallyChange(s.pcs, t, s'.pcs[t], Ref(n));
  }

  lemma OtherWords(s: State, s': State, t: Tid, m: Node, n: Node)
    requires Domain(s) && Touches(s, s', t, m)
    requires Exists(s, n) && n != m && WordOk(s, n)
    ensures WordOk(s', n)
  {
    HoldersChange(s, s', t, n);
  }

  /** The node fields another thread relies on are not the ones this step changes. */
  lemma OtherThreads(s: State, s': State, t: Tid, m: Node, u: Tid)
    requires Domain(s) && Touches(s, s', t, m)
    requires m in s.phase && s'.phase[m] != s.phase[m] ==>
               s.phase[m] == Linked || s.phase[m] == Waiting || s.phase[m].t == t
    requires m in s.next && s'.next[m] != s.next[m] ==> Holders(s, m) == 0 && m in s.phase && s.phase[m] == Inserting(t)
    requires u in s.pcs && u != t && PcOk(s, u, s.pcs[u])
    ensures PcOk(s', u, s'.pcs[u])
  {
    var pc := s.pcs[u];
    assert s'.pcs[u] == pc;
    assert NodesExist(s', pc);
    if pc.CasOut? && pc.n == m {
      HoldersBounds(s, m);
    }
  }

  /** What a step of thread t that touches node m has to show. */
  ghost predicate LocalOk(s: State, s': State, t: Tid, m: Node) {
    && Touches(s, s', t, m)
    && (m in s.phase && s'.phase[m] != s.phase[m] ==>
          s.phase[m] == Linked || s.phase[m] == Waiting || s.phase[m].t == t)
    && (m in s.next && s'.next[m] != s.next[m] ==>
          Holders(s, m) == 0 && m in s.phase && s.phase[m] == Inserting(t))
    && PcOk(s', t, s'.pcs[t])
    && (Exists(s', m) ==> WordOk(s', m))
  }

  /** Everything a step does not touch stays as it was. */
  lemma StepFrame(s: State, s': State, t: Tid, m: Node)
    requires Inv(s) && LocalOk(s, s', t, m) && ChainOk(s')
    ensures Inv(s')
  {
    assert s'.pcs.Keys == s.pcs.Keys;
    assert |s'.pcs| == |s'.pcs.Keys| == |s.pcs.Keys| == |s.pcs|;
    forall n | n in s'.phase ensures WordOk(s', n) {
      if n != m { assert WordOk(s, n); OtherWords(s, s', t, m, n); }
    }
    forall u | u in s'.pcs ensures PcOk(s', u, s'.pcs[u]) {
      if u != t { assert PcOk(s, u, s.pcs[u]); OtherThreads(s, s', t, m, u); }
    }
  }

  /** Nodes that are not on the chain can change without the chain noticing. */
  lemma ChainKept(s: State, s': State, m: Node)
    requires ChainOk(s) && s'.head == s.head && s'.chain == s.chain
    requires s'.next.Keys == s.next.Keys && s'.phase.Keys == s.phase.Keys
    requires forall n | n in s.next && n != m :: s'.next[n] == s.next[n]
    requires forall n | n in s.phase && n != m :: s'.phase[n] == s.phase[n]
    requires m in s.phase && (s.phase[m] == Linked || s'.phase[m] == Linked) ==>
               s'.phase[m] == s.phase[m] && m in s.next && s'.next[m] == s.next[m]
    ensures ChainOk(s')
  {
    forall i ensures LinkedAt(s', i) {
      assert LinkedAt(s, i);
    }
  }

  lemma Push(s: State, s': State, m: Node)
    requires ChainOk(s) && m in s.phase && s.phase[m] != Linked && m in s.next && s.next[m] == s.head
    requires s'.head == To(m) && s'.chain == [m] + s.chain
    requires s'.next == s.next && s'.phase == s.phase[m := Linked]
    ensures ChainOk(s')
  {
    assert m !in s.chain by {
      forall i | 0 <= i < |s.chain| ensures s.chain[i] != m { assert LinkedAt(s, i); }
    }
    forall i ensures LinkedAt(s', i) {
      assert LinkedAt(s, i - 1);
    }
  }

  lemma Pop(s: State, s': State, m: Node, t: Tid)
    requires ChainOk(s) && s.head == To(m) && m in s.next
    requires s'.head == s.next[m] && s'.chain == s.chain[1..]
    requires s'.next == s.next && s'.phase == s.phase[m := Taken(t)]
    ensures ChainOk(s')
  {
    assert LinkedAt(s, 0);
    forall i ensures LinkedAt(s', i) {
      assert LinkedAt(s, i + 1);
    }
    assert s.chain == [m] + s'.chain;
  }

  /** What a thread may rely on before its next access to node m. */
  ghost predicate Ready(s: State, t: Tid, m: Node) {
    && Domain(s) && t in s.pcs && !s.pcs[t].Idle? && PcOk(s, t, s.pcs[t])
    && Exists(s, m) && WordOk(s, m) && LinkOk(s, s.head)
  }

  lemma AddTouches(s: State, t: Tid, m: Node)
    requires t in s.pcs && NodesExist(s, s.pcs[t]) && (s.pcs[t].Adding? || Inserts(s.pcs[t])) && s.pcs[t].n == m
    ensures Touches(s, Advance(s, t), t, m)
  {
    hide Wrap;
  }

  lemma GetTouches(s: State, t: Tid, m: Node)
    requires t in s.pcs && NodesExist(s, s.pcs[t])
    requires s.pcs[t].CasRefs? || s.pcs[t].LoadNext? || s.pcs[t].CasOut? || s.pcs[t].Take? || s.pcs[t].Drop?
    requires s.pcs[t].n == m
    ensures Touches(s, Advance(s, t), t, m)
  {
    hide Wrap;
  }

  /** A step on node m touches no other node. */
  lemma StepTouches(s: State, t: Tid, m: Node)
    requires t in s.pcs && !s.pcs[t].Idle? && NodesExist(s, s.pcs[t])
    requires !s.pcs[t].GetHead? && !s.pcs[t].GetLoop? && s.pcs[t].n == m
    ensures Touches(s, Advance(s, t), t, m)
  {
    if s.pcs[t].Adding? || Inserts(s.pcs[t]) { AddTouches(s, t, m); } else { GetTouches(s, t, m); }
  }

  lemma AddingWord(s: State, t: Tid, m: Node)
    requires Ready(s, t, m) && s.pcs[t].Adding? && s.pcs[t].n == m
    ensures WordOk(Advance(s, t), m)
  {
    HoldersBounds(s, m);
    HoldersChange(s, Advance(s, t), t, m);
    hide Holders, Wrap;
  }

  lemma AddingPc(s: State, t: Tid, m: Node)
    requires Ready(s, t, m) && s.pcs[t].Adding? && s.pcs[t].n == m
    ensures PcOk(Advance(s, t), t, Advance(s, t).pcs[t])
  {
    hide WordOk, Wrap;
  }

  lemma AddingLocal(s: State, t: Tid, m: Node)
    requires Ready(s, t, m) && s.pcs[t].Adding? && s.pcs[t].n == m
    ensures LocalOk(s, Advance(s, t), t, m)
  {
    AddingWord(s, t, m);
    AddingPc(s, t, m);
    StepTouches(s, t, m);
    assert PcOk(s, t, s.pcs[t]) && WordOk(s, m);
    hide Touches, Wrap;
  }

  lemma StoreWord(s: State, t: Tid, m: Node)
    requires Ready(s, t, m) && (s.pcs[t].LoadHead? || s.pcs[t].StoreNext? || s.pcs[t].StoreRefs?) && s.pcs[t].n == m
    ensures WordOk(Advance(s, t), m)
  {
    HoldersBounds(s, m);
    HoldersChange(s, Advance(s, t), t, m);
    hide Holders, Wrap;
  }

  lemma StorePc(s: State, t: Tid, m: Node)
    requires Ready(s, t, m) && (s.pcs[t].LoadHead? || s.pcs[t].StoreNext? || s.pcs[t].StoreRefs?) && s.pcs[t].n == m
    ensures PcOk(Advance(s, t), t, Advance(s, t).pcs[t])
  {
    hide WordOk, Wrap;
  }

  lemma StoreLocal(s: State, t: Tid, m: Node)
    requires Ready(s, t, m) && (s.pcs[t].LoadHead? || s.pcs[t].StoreNext? || s.pcs[t].StoreRefs?) && s.pcs[t].n == m
    ensures LocalOk(s, Advance(s, t), t, m)
  {
    StoreWord(s, t, m);
    StorePc(s, t, m);
    StepTouches(s, t, m);
    assert PcOk(s, t, s.pcs[t]) && WordOk(s, m);
    hide Touches, Wrap;
  }

  lemma CasInWord(s: State, t: Tid, m: Node)
    requires Ready(s, t, m) && s.pcs[t].CasIn? && s.pcs[t].n == m
    ensures WordOk(Advance(s, t), m)
  {
    HoldersBounds(s, m);
    HoldersChange(s, Advance(s, t), t, m);
    hide Holders, Wrap;
  }

  lemma CasInPc(s: State, t: Tid, m: Node)
    requires Ready(s, t, m) && s.pcs[t].CasIn? && s.pcs[t].n == m
    ensures PcOk(Advance(s, t), t, Advance(s, t).pcs[t])
  {
    hide WordOk, Wrap;
  }

  lemma CasInLocal(s: State, t: Tid, m: Node)
    requires Ready(s, t, m) && s.pcs[t].CasIn? && s.pcs[t].n == m
    ensures LocalOk(s, Advance(s, t), t, m)
  {
    CasInWord(s, t, m);
    CasInPc(s, t, m);
    StepTouches(s, t, m);
    assert PcOk(s, t, s.pcs[t]) && WordOk(s, m);
    hide Touches, Wrap;
  }

  lemma UndoWord(s: State, t: Tid, m: Node)
    requires Ready(s, t, m) && s.pcs[t].Undo? && s.pcs[t].n == m
    ensures WordOk(Advance(s, t), m)
  {
    HoldersBounds(s, m);
    HoldersChange(s, Advance(s, t), t, m);
    hide Holders, Wrap;
  }

  lemma UndoPc(s: State, t: Tid, m: Node)
    requires Ready(s, t, m) && s.pcs[t].Undo? && s.pcs[t].n == m
    ensures PcOk(Advance(s, t), t, Advance(s, t).pcs[t])
  {
    hide WordOk, Wrap;
  }

  lemma UndoLocal(s: State, t: Tid, m: Node)
    requires Ready(s, t, m) && s.pcs[t].Undo? && s.pcs[t].n == m
    ensures LocalOk(s, Advance(s, t), t, m)
  {
    UndoWord(s, t, m);
    UndoPc(s, t, m);
    StepTouches(s, t, m);
    assert PcOk(s, t, s.pcs[t]) && WordOk(s, m);
    hide Touches, Wrap;
  }

  lemma CasRefsWord(s: State, t: Tid, m: Node)
    requires Ready(s, t, m) && s.pcs[t].CasRefs? && s.pcs[t].n == m
    ensures WordOk(Advance(s, t), m)
  {
    HoldersBounds(s, m);
    HoldersChange(s, Advance(s, t), t, m);
    hide Holders, Wrap;
  }

  lemma CasRefsPc(s: State, t: Tid, m: Node)
    requires Ready(s, t, m) && s.pcs[t].CasRefs? && s.pcs[t].n == m
    ensures PcOk(Advance(s, t), t, Advance(s, t).pcs[t])
  {
    hide WordOk, Wrap;
  }

  lemma CasRefsLocal(s: State, t: Tid, m: Node)
    requires Ready(s, t, m) && s.pcs[t].CasRefs? && s.pcs[t].n == m
    ensures LocalOk(s, Advance(s, t), t, m)
  {
    CasRefsWord(s, t, m);
    CasRefsPc(s, t, m);
    StepTouches(s, t, m);
    assert PcOk(s, t, s.pcs[t]) && WordOk(s, m);
    hide Touches, Wrap;
  }

  lemma UnlinkWord(s: State, t: Tid, m: Node)
    requires Ready(s, t, m) && (s.pcs[t].LoadNext? || s.pcs[t].CasOut?) && s.pcs[t].n == m
    requires s.head == To(m) ==> s.phase[m] == Linked
    ensures WordOk(Advance(s, t), m)
  {
    HoldersBounds(s, m);
    HoldersChange(s, Advance(s, t), t, m);
    hide Holders, Wrap;
  }

  lemma UnlinkPc(s: State, t: Tid, m: Node)
    requires Ready(s, t, m) && (s.pcs[t].LoadNext? || s.pcs[t].CasOut?) && s.pcs[t].n == m
    ensures PcOk(Advance(s, t), t, Advance(s, t).pcs[t])
  {
    hide WordOk, Wrap;
  }

  lemma UnlinkLocal(s: State, t: Tid, m: Node)
    requires Ready(s, t, m) && (s.pcs[t].LoadNext? || s.pcs[t].CasOut?) && s.pcs[t].n == m
    requires s.head == To(m) ==> s.phase[m] == Linked
    ensures LocalOk(s, Advance(s, t), t, m)
  {
    UnlinkWord(s, t, m);
    UnlinkPc(s, t, m);
    StepTouches(s, t, m);
    assert PcOk(s, t, s.pcs[t]) && WordOk(s, m);
    hide Touches, Wrap;
  }

  lemma TakeWord(s: State, t: Tid, m: Node)
    requires Ready(s, t, m) && s.pcs[t].Take? && s.pcs[t].n == m
    ensures WordOk(Advance(s, t), m)
  {
    HoldersBounds(s, m);
    HoldersChange(s, Advance(s, t), t, m);
    hide Holders, Wrap;
  }

  lemma TakePc(s: State, t: Tid, m: Node)
    requires Ready(s, t, m) && s.pcs[t].Take? && s.pcs[t].n == m
    ensures PcOk(Advance(s, t), t, Advance(s, t).pcs[t])
  {
    hide WordOk, Wrap;
  }

  lemma TakeLocal(s: State, t: Tid, m: Node)
    requires Ready(s, t, m) && s.pcs[t].Take? && s.pcs[t].n == m
    ensures LocalOk(s, Advance(s, t), t, m)
  {
    TakeWord(s, t, m);
    TakePc(s, t, m);
    StepTouches(s, t, m);
    assert PcOk(s, t, s.pcs[t]) && WordOk(s, m);
    hide Touches, Wrap;
  }

  /** A holder that finds the word it is about to empty found a node waiting to be inserted. */
  lemma DropWaits(s: State, t: Tid, m: Node)
    requires Ready(s, t, m) && s.pcs[t].Drop? && s.pcs[t].n == m && s.refs[m] == SHOULD + 1
    ensures s.phase[m] == Waiting
  {
    HoldersBounds(s, m);
    hide Holders;
  }

  lemma DropWord(s: State, t: Tid, m: Node)
    requires Ready(s, t, m) && s.pcs[t].Drop? && s.pcs[t].n == m
    ensures WordOk(Advance(s, t), m)
  {
    HoldersBounds(s, m);
    HoldersChange(s, Advance(s, t), t, m);
    hide Holders, Wrap;
  }

  lemma DropPc(s: State, t: Tid, m: Node)
    requires Domain(s) && t in s.pcs && PcOk(s, t, s.pcs[t]) && s.pcs[t].Drop? && s.pcs[t].n == m
    ensures PcOk(Advance(s, t), t, Advance(s, t).pcs[t])
  {
    hide Wrap;
  }

  lemma DropLocal(s: State, t: Tid, m: Node)
    requires Ready(s, t, m) && s.pcs[t].Drop? && s.pcs[t].n == m
    ensures LocalOk(s, Advance(s, t), t, m)
  {
    if s.refs[m] == SHOULD + 1 { DropWaits(s, t, m); }
    DropWord(s, t, m);
    DropPc(s, t, m);
    StepTouches(s, t, m);
    hide PcOk, WordOk, Touches, Holders, Wrap;
  }

  lemma LookPc(s: State, t: Tid)
    requires Domain(s) && t in s.pcs && PcOk(s, t, s.pcs[t]) && LinkOk(s, s.head)
    requires s.pcs[t].GetHead? || s.pcs[t].GetLoop?
    ensures PcOk(Advance(s, t), t, Advance(s, t).pcs[t])
  {
  }

  lemma LookWord(s: State, t: Tid, m: Node)
    requires Domain(s) && t in s.pcs && PcOk(s, t, s.pcs[t]) && (Exists(s, m) ==> WordOk(s, m))
    requires s.pcs[t].GetHead? || s.pcs[t].GetLoop?
    ensures Exists(Advance(s, t), m) ==> WordOk(Advance(s, t), m)
  {
    hide Wrap;
    HoldersChange(s, Advance(s, t), t, m);
  }

  /** Reading the head touches no node; m may be any node, existing or not. */
  lemma LookLocal(s: State, t: Tid, m: Node)
    requires Domain(s) && t in s.pcs && PcOk(s, t, s.pcs[t]) && LinkOk(s, s.head)
    requires Exists(s, m) ==> WordOk(s, m)
    requires s.pcs[t].GetHead? || s.pcs[t].GetLoop?
    ensures LocalOk(s, Advance(s, t), t, m)
  {
    LookPc(s, t);
    LookWord(s, t, m);
    hide PcOk, WordOk, Holders, Wrap;
  }

  lemma StepLocal(s: State, t: Tid, m: Node)
    requires Ready(s, t, m) && !s.pcs[t].GetHead? && !s.pcs[t].GetLoop? && s.pcs[t].n == m
    requires s.head == To(m) ==> s.phase[m] == Linked
    ensures LocalOk(s, Advance(s, t), t, m)
  {
    match s.pcs[t]
    case Adding(_) => AddingLocal(s, t, m);
    case CasIn(_, _, _) => CasInLocal(s, t, m);
    case Undo(_, _, _) => UndoLocal(s, t, m);
    case CasRefs(_, _) => CasRefsLocal(s, t, m);
    case LoadNext(_) => UnlinkLocal(s, t, m);
    case CasOut(_, _) => UnlinkLocal(s, t, m);
    case Take(_) => TakeLocal(s, t, m);
    case Drop(_, _) => DropLocal(s, t, m);
    case _ => StoreLocal(s, t, m);
  }

  lemma StepChain(s: State, t: Tid, m: Node)
    requires ChainOk(s) && Ready(s, t, m) && !s.pcs[t].GetHead? && !s.pcs[t].GetLoop? && s.pcs[t].n == m
    ensures ChainOk(Advance(s, t))
  {
    var s', pc := Advance(s, t), s.pcs[t];
    if pc.CasIn? && s.head == pc.h {
      Push(s, s', m);
    } else if pc.CasOut? && s.head == To(m) {
      Pop(s, s', m, t);
    } else {
      HoldersBounds(s, m);
      ChainKept(s, s', m);
    }
  }

  lemma AdvanceInv(s: State, t: Tid)
    requires Inv(s) && t in s.pcs && !s.pcs[t].Idle? && NodesExist(s, s.pcs[t])
    ensures Inv(Advance(s, t))
  {
    var s', pc := Advance(s, t), s.pcs[t];
    assert PcOk(s, t, pc);
    assert LinkedAt(s, 0);
    if pc.GetHead? || pc.GetLoop? {
      LookLocal(s, t, 0);
      ChainKept(s, s', 0);
      StepFrame(s, s', t, 0);
    } else {
      assert WordOk(s, pc.n);
      StepLocal(s, t, pc.n);
      StepChain(s, t, pc.n);
      StepFrame(s, s', t, pc.n);
    }
  }

  lemma StartLocal(s: State, a: Action, m: Node)
    requires Domain(s) && Enabled(s, a) && (Exists(s, m) ==> WordOk(s, m))
    requires a.StartGet? || (a.StartAdd? && a.n == m)
    ensures LocalOk(s, Do(s, a), a.t, m)
  {
    HoldersChange(s, Do(s, a), a.t, m);
  }

  /** A client starting an operation changes its own program counter only. */
  lemma StartInv(s: State, a: Action)
    requires Inv(s) && Enabled(s, a) && (a.StartAdd? || a.StartGet?)
    ensures Inv(Do(s, a))
  {
    var m := if a.StartAdd? then a.n else 0;
    StartLocal(s, a, m);
    ChainKept(s, Do(s, a), m);
    StepFrame(s, Do(s, a), a.t, m);
  }

  lemma CreateInv(s: State, t: Tid, n: Node)
    requires Inv(s) && Enabled(s, Create(t, n))
    ensures Inv(Do(s, Create(t, n)))
  {
    var s' := Do(s, Create(t, n));
    forall u | u in s.pcs ensures PcOk(s', u, s'.pcs[u]) && !Holds(s.pcs[u], n) {
      assert PcOk(s, u, s.pcs[u]);
    }
    TallyZero(s.pcs, Ref(n));
    forall m | m in s'.phase ensures WordOk(s', m) {
      if m != n { assert WordOk(s, m) && Holders(s', m) == Holders(s, m); }
    }
    forall i ensures LinkedAt(s', i) { assert LinkedAt(s, i); }
  }

  lemma HandOverInv(s: State, t: Tid, u: Tid, n: Node)
    requires Inv(s) && Enabled(s, HandOver(t, u, n))
    ensures Inv(Do(s, HandOver(t, u, n)))
  {
    var s' := Do(s, HandOver(t, u, n));
    forall v | v in s.pcs ensures PcOk(s', v, s'.pcs[v]) {
      assert PcOk(s, v, s.pcs[v]);
    }
    forall m | m in s'.phase ensures WordOk(s', m) {
      assert WordOk(s, m) && Holders(s', m) == Holders(s, m);
    }
    ChainKept(s, s', n);
  }

  lemma StepInv(s: State, a: Action)
    requires Inv(s) && Enabled(s, a)
    ensures Inv(Do(s, a))
  {
    match a
    case Step(t) => AdvanceInv(s, t);
    case Create(t, n) => CreateInv(s, t, n);
    case HandOver(t, u, n) => HandOverInv(s, t, u, n);
    case _ => StartInv(s, a);
  }

  lemma {:induction false} ExecutionInv(run: seq<State>, i: nat)
    requires Execution(run) && i < |run|
    ensures Inv(run[i])
  {
    if i == 0 {
      forall t | t in run[0].pcs ensures PcOk(run[0], t, run[0].pcs[t]) {}
    } else {
      ExecutionInv(run, i - 1);
      assert Next(run[i - 1], run[i - 1 + 1]);
      var a: Action :| Enabled(run[i - 1], a) && run[i] == Do(run[i - 1], a);
      StepInv(run[i - 1], a);
    }
  }

  // ---- main results ----

  /** The list's own reference on a node: it has one from the store of 1 in
      add_knowing_refcount_is_zero until the node's taker drops it. */
  ghost function ListReference(s: State, n: Node): nat
    requires n in s.phase
  {
    match s.phase[n]
    case Linked => 1
    case Taken(_) => 1
    case Inserting(t) => if t in s.pcs && (s.pcs[t].CasIn? || s.pcs[t].Undo?) then 1 else 0
    case _ => 0
  }

  ghost predicate WordCounts(s: State, n: Node)
    requires n in s.phase
  {
    && n in s.refs
    && s.refs[n] % SHOULD == ListReference(s, n) + Holders(s, n)
    && (s.refs[n] >= SHOULD <==> s.phase[n].Waiting? || (s.phase[n].Inserting? && ListReference(s, n) == 0))
  }

  lemma WordOkCounts(s: State, n: Node)
    requires Domain(s) && Exists(s, n) && WordOk(s, n)
    ensures WordCounts(s, n)
  {
    HoldersBounds(s, n);
  }

  /** In every state of every run the low 31 bits of a node's word are the list's
      reference plus the threads now holding one, and the flag bit is set exactly while
      the node waits to be inserted. */
  lemma ReferenceCounts(run: seq<State>, i: nat, n: Node)
    requires Execution(run) && i < |run| && n in run[i].phase
    ensures WordCounts(run[i], n)
  {
    ExecutionInv(run, i);
    WordOkCounts(run[i], n);
  }

  /** The chain that starts at freeListHead visits each node at most once and ends, and
      whoever is about to swing the head past a node still reads that node's successor. */
  lemma ChainIsSound(run: seq<State>, i: nat)
    requires Execution(run) && i < |run|
    ensures ChainOk(run[i])
    ensures forall t | t in run[i].pcs && run[i].pcs[t].CasOut? ::
              var pc := run[i].pcs[t]; pc.n in run[i].next && run[i].next[pc.n] == pc.next
  {
    ExecutionInv(run, i);
    var s := run[i];
    forall t | t in s.pcs && s.pcs[t].CasOut?
      ensures s.pcs[t].n in s.next && s.next[s.pcs[t].n] == s.pcs[t].next
    {
      assert PcOk(s, t, s.pcs[t]);
    }
  }

  /** A thread that is about to be given a node is its only taker, nobody owns the node,
      the node is off the chain, and the code's assertion about the flag holds. */
  lemma OneOwner(run: seq<State>, i: nat, t: Tid)
    requires Execution(run) && i < |run| && t in run[i].pcs && run[i].pcs[t].Take?
    ensures var s, n := run[i], run[i].pcs[t].n;
            && n in s.phase && s.phase[n] == Taken(t) && n !in s.chain
            && n in s.refs && s.refs[n] < SHOULD
            && (forall u | u in s.pcs && u != t :: s.pcs[u] != Take(n) && s.pcs[u] != Adding(n))
  {
    ExecutionInv(run, i);
    var s, n := run[i], run[i].pcs[t].n;
    assert PcOk(s, t, s.pcs[t]) && WordOk(s, n);
    HoldersBounds(s, n);
    forall u | u in s.pcs && u != t ensures s.pcs[u] != Take(n) && s.pcs[u] != Adding(n) {
      assert PcOk(s, u, s.pcs[u]);
    }
    forall j | 0 <= j < |s.chain| ensures s.chain[j] != n { assert LinkedAt(s, j); }
  }

  /** A thread in the middle of an operation can always take its next step: every node
      it is about to dereference exists. */
  lemma NeverDangling(run: seq<State>, i: nat, t: Tid)
    requires Execution(run) && i < |run| && t in run[i].pcs && !run[i].pcs[t].Idle?
    ensures Enabled(run[i], Step(t))
  {
    ExecutionInv(run, i);
    assert PcOk(run[i], t, run[i].pcs[t]);
  }

  /** No block is ever lost: when no operation is in progress every node is either owned
      by a client or on the chain. */
  lemma NothingLost(run: seq<State>, i: nat, n: Node)
    requires Execution(run) && i < |run| && n in run[i].phase
    requires forall t | t in run[i].pcs :: run[i].pcs[t].Idle?
    ensures run[i].phase[n].Owned? || n in run[i].chain
  {
    ExecutionInv(run, i);
    assert WordOk(run[i], n);
    TallyZero(run[i].pcs, Ref(n));
  }

  // ---- coming back without a block ----

  /** Thread states of try_get, other than the one that has won a block. */
  predicate Getting(pc: Pc) {
    || pc.GetHead? || pc.GetLoop? || pc.CasRefs? || pc.LoadNext? || pc.CasOut? || pc.Drop?
    || (Inserts(pc) && pc.k.FromGet?)
  }

  /** A null head read earlier in the call. */
  predicate CarriesNull(pc: Pc) {
    || (pc.GetLoop? && pc.h.Null?) || (pc.Drop? && pc.h.Null?) || (Inserts(pc) && pc.k == FromGet(Null))
  }

  /** What a step of t means for giving up: a null head is carried on from the step before or
      is the head now, and only a carried null ends the call. */
  ghost predicate NullOk(s: State, t: Tid, pc': Pc)
    requires t in s.pcs
  {
    && (CarriesNull(pc') ==> !s.pcs[t].Idle? && (CarriesNull(s.pcs[t]) || s.head.Null?))
    && (Getting(s.pcs[t]) && pc'.Idle? ==> CarriesNull(s.pcs[t]))
  }

  lemma InsertNull(s: State, t: Tid)
    requires t in s.pcs && NodesExist(s, s.pcs[t]) && (s.pcs[t].Adding? || Inserts(s.pcs[t]))
    ensures t in Advance(s, t).pcs && NullOk(s, t, Advance(s, t).pcs[t])
  {
    hide Wrap;
  }

  lemma LookNull(s: State, t: Tid)
    requires t in s.pcs && NodesExist(s, s.pcs[t]) && (s.pcs[t].GetHead? || s.pcs[t].GetLoop? || s.pcs[t].CasRefs?)
    ensures t in Advance(s, t).pcs && NullOk(s, t, Advance(s, t).pcs[t])
  {
    hide Wrap;
  }

  lemma HoldNull(s: State, t: Tid)
    requires t in s.pcs && NodesExist(s, s.pcs[t])
    requires s.pcs[t].LoadNext? || s.pcs[t].CasOut? || s.pcs[t].Take? || s.pcs[t].Drop?
    ensures t in Advance(s, t).pcs && NullOk(s, t, Advance(s, t).pcs[t])
  {
    hide Wrap;
  }

  lemma NullStep(s: State, a: Action, t: Tid)
    requires Enabled(s, a) && t in s.pcs
    ensures t in Do(s, a).pcs && NullOk(s, t, Do(s, a).pcs[t])
  {
    if a == Step(t) {
      hide NullOk, Advance;
      if s.pcs[t].Adding? || Inserts(s.pcs[t]) { InsertNull(s, t); }
      else if s.pcs[t].GetHead? || s.pcs[t].GetLoop? || s.pcs[t].CasRefs? { LookNull(s, t); }
      else { HoldNull(s, t); }
    } else {
      hide Advance;
      if a.Step? { OthersStay(s, a.t, t); }
    }
  }

  lemma OthersStay(s: State, t: Tid, u: Tid)
    requires Enabled(s, Step(t)) && u in s.pcs && u != t
    ensures u in Advance(s, t).pcs && Advance(s, t).pcs[u] == s.pcs[u]
  {
    hide Wrap;
  }

  lemma {:induction false} SawNull(run: seq<State>, i: nat, t: Tid) returns (j: nat)
    requires Execution(run) && i < |run| && t in run[i].pcs && CarriesNull(run[i].pcs[t])
    ensures j <= i && run[j].head.Null? && forall k | j <= k <= i :: t in run[k].pcs && !run[k].pcs[t].Idle?
  {
    hide Do, Enabled;
    assert i > 0;
    assert Next(run[i - 1], run[i - 1 + 1]);
    var a: Action :| Enabled(run[i - 1], a) && run[i] == Do(run[i - 1], a);
    SameThreads(run[i - 1], a);
    NullStep(run[i - 1], a, t);
    if run[i - 1].head.Null? { j := i - 1; } else { j := SawNull(run, i - 1, t); }
  }

  lemma SameThreads(s: State, a: Action)
    requires Enabled(s, a)
    ensures Do(s, a).pcs.Keys == s.pcs.Keys
  {
    if a.Step? && !s.pcs[a.t].GetHead? && !s.pcs[a.t].GetLoop? {
      hide Advance, Local;
      StepTouches(s, a.t, s.pcs[a.t].n);
    } else if a.Step? {
      hide Wrap;
      LookStays(s, a.t);
    }
  }

  lemma LookStays(s: State, t: Tid)
    requires Enabled(s, Step(t)) && (s.pcs[t].GetHead? || s.pcs[t].GetLoop?)
    ensures Advance(s, t).pcs.Keys == s.pcs.Keys
  {
    hide Wrap;
  }

  /** try_get comes back without a block only if the list was empty at some moment of the call,
      however many times it lost a race. */
  lemma EmptyHanded(run: seq<State>, i: nat, t: Tid) returns (j: nat)
    requires Execution(run) && i + 1 < |run| && t in run[i].pcs && Getting(run[i].pcs[t])
    requires t in run[i + 1].pcs && run[i + 1].pcs[t].Idle?
    ensures j <= i && run[j].chain == [] && forall k | j <= k <= i :: t in run[k].pcs && !run[k].pcs[t].Idle?
  {
    hide Do, Enabled;
    assert Next(run[i], run[i + 1]);
    var a: Action :| Enabled(run[i], a) && run[i + 1] == Do(run[i], a);
    NullStep(run[i], a, t);
    j := SawNull(run, i, t);
    ExecutionInv(run, j);
  }

  // ---- one thread alone ----

  ghost predicate AllIdle(s: State) { forall t | t in s.pcs :: s.pcs[t].Idle? }

  /** Thread t takes up to k steps, until it is idle; nobody else moves. */
  ghost function Alone(s: State, t: Tid, k: nat): State
    requires t in s.pcs
    decreases k
  {
    if k == 0 || !Enabled(s, Step(t)) then s else Alone(Advance(s, t), t, k - 1)
  }

  /** At rest a linked node has the list's reference only, and an owned one has none. */
  lemma QuietWords(s: State, n: Node)
    requires Inv(s) && AllIdle(s) && n in s.phase
    ensures n in s.refs && n in s.next
    ensures s.phase[n].Linked? ==> s.refs[n] == 1
    ensures s.phase[n].Owned? ==> s.refs[n] == 0
  {
    assert WordOk(s, n);
    TallyZero(s.pcs, Ref(n));
  }

  /** Thread t is at pc. */
  function Put(s: State, t: Tid, pc: Pc): (r: State)
    ensures t in r.pcs
  {
    s.(pcs := s.pcs[t := pc])
  }

  /** The next access of t, alone, at pc. */
  ghost predicate Moves(s: State, t: Tid, pc: Pc, s': State, pc': Pc) {
    Enabled(Put(s, t, pc), Step(t)) && Advance(Put(s, t, pc), t) == Put(s', t, pc')
  }

  lemma MovesAlone(s: State, t: Tid, pc: Pc, s': State, pc': Pc, k: nat)
    requires Moves(s, t, pc, s', pc')
    ensures Alone(Put(s, t, pc), t, k + 1) == Alone(Put(s', t, pc'), t, k)
  {
    hide Advance, Enabled, Put;
  }

  lemma LookMoves(s: State, t: Tid)
    requires s.head.To? ==> Exists(s, s.head.n)
    ensures Moves(s, t, GetHead, s, GetLoop(s.head))
    ensures s.head.Null? ==> Moves(s, t, GetLoop(s.head), s, Idle)
    ensures s.head.To? ==> Moves(s, t, GetLoop(s.head), s, CasRefs(s.head.n, s.refs[s.head.n]))
  {
  }

  lemma ReferMoves(s: State, t: Tid, n: Node)
    requires Exists(s, n) && s.refs[n] == 1
    ensures Moves(s, t, CasRefs(n, 1), s.(refs := s.refs[n := 2]), LoadNext(n))
  {
  }

  lemma NextMoves(s: State, t: Tid, n: Node)
    requires Exists(s, n)
    ensures Moves(s, t, LoadNext(n), s, CasOut(n, s.next[n]))
  {
  }

  function Unlinked(s: State, t: Tid, n: Node): State
    requires n in s.next
  {
    s.(head := s.next[n], phase := s.phase[n := Taken(t)], chain := if s.chain == [] then [] else s.chain[1..])
  }

  lemma UnlinkMoves(s: State, t: Tid, n: Node)
    requires Exists(s, n) && s.head == To(n)
    ensures Moves(s, t, CasOut(n, s.next[n]), Unlinked(s, t, n), Take(n))
  {
  }

  lemma TakeMoves(s: State, t: Tid, n: Node)
    requires Exists(s, n) && s.refs[n] == 2
    ensures Moves(s, t, Take(n), s.(refs := s.refs[n := 0], phase := s.phase[n := Owned(t)]), Idle)
  {
  }

  /** Six accesses take the first node of the chain. */
  lemma SoloGet(s: State, t: Tid, n: Node)
    requires s.head == To(n) && Exists(s, n) && s.refs[n] == 1
    ensures Alone(Put(s, t, GetHead), t, 6) ==
            Put(Unlinked(s, t, n).(refs := s.refs[n := 0], phase := s.phase[n := Owned(t)]), t, Idle)
  {
    hide Alone, Moves, Put;
    LookMoves(s, t);
    MovesAlone(s, t, GetHead, s, GetLoop(s.head), 5);
    MovesAlone(s, t, GetLoop(s.head), s, CasRefs(n, 1), 4);
    var s1 := s.(refs := s.refs[n := 2]);
    ReferMoves(s, t, n);
    MovesAlone(s, t, CasRefs(n, 1), s1, LoadNext(n), 3);
    NextMoves(s1, t, n);
    MovesAlone(s1, t, LoadNext(n), s1, CasOut(n, s.next[n]), 2);
    var s2 := Unlinked(s1, t, n);
    UnlinkMoves(s1, t, n);
    MovesAlone(s1, t, CasOut(n, s.next[n]), s2, Take(n), 1);
    var s3 := s2.(refs := s2.refs[n := 0], phase := s2.phase[n := Owned(t)]);
    TakeMoves(s2, t, n);
    MovesAlone(s2, t, Take(n), s3, Idle, 0);
    assert s2.refs[n := 0] == s.refs[n := 0] && s2.phase[n := Owned(t)] == s.phase[n := Owned(t)];
    NoMoreSteps(s3, t);
  }

  lemma NoMoreSteps(s: State, t: Tid)
    ensures Alone(Put(s, t, Idle), t, 0) == Put(s, t, Idle)
  {
  }

  lemma FlagMoves(s: State, t: Tid, n: Node)
    requires Exists(s, n) && s.refs[n] == 0
    ensures var s' := s.(refs := s.refs[n := SHOULD], phase := s.phase[n := Inserting(t)]);
            Moves(s, t, Adding(n), s', LoadHead(n, FromAdd))
  {
  }

  lemma StoreMoves(s: State, t: Tid, n: Node)
    requires Exists(s, n)
    ensures Moves(s, t, LoadHead(n, FromAdd), s, StoreNext(n, s.head, FromAdd))
    ensures Moves(s, t, StoreNext(n, s.head, FromAdd), s.(next := s.next[n := s.head]), StoreRefs(n, s.head, FromAdd))
    ensures Moves(s, t, StoreRefs(n, s.head, FromAdd), s.(refs := s.refs[n := 1]), CasIn(n, s.head, FromAdd))
  {
  }

  function Pushed(s: State, n: Node): State { s.(head := To(n), phase := s.phase[n := Linked], chain := [n] + s.chain) }

  lemma PushMoves(s: State, t: Tid, n: Node)
    requires Exists(s, n)
    ensures Moves(s, t, CasIn(n, s.head, FromAdd), Pushed(s, n), Idle)
  {
  }

  /** Five accesses put a node that has no references in front of the chain. */
  lemma SoloAdd(s: State, t: Tid, n: Node)
    requires Exists(s, n) && s.refs[n] == 0
    ensures Alone(Put(s, t, Adding(n)), t, 5) ==
            Put(Pushed(s, n).(next := s.next[n := s.head], refs := s.refs[n := 1]), t, Idle)
  {
    hide Alone, Moves, Put;
    var h := s.head;
    var s1 := s.(refs := s.refs[n := SHOULD], phase := s.phase[n := Inserting(t)]);
    FlagMoves(s, t, n);
    MovesAlone(s, t, Adding(n), s1, LoadHead(n, FromAdd), 4);
    StoreMoves(s1, t, n);
    MovesAlone(s1, t, LoadHead(n, FromAdd), s1, StoreNext(n, h, FromAdd), 3);
    var s2 := s1.(next := s1.next[n := h]);
    MovesAlone(s1, t, StoreNext(n, h, FromAdd), s2, StoreRefs(n, h, FromAdd), 2);
    var s3 := s2.(refs := s2.refs[n := 1]);
    StoreMoves(s2, t, n);
    MovesAlone(s2, t, StoreRefs(n, h, FromAdd), s3, CasIn(n, h, FromAdd), 1);
    PushMoves(s3, t, n);
    MovesAlone(s3, t, CasIn(n, h, FromAdd), Pushed(s3, n), Idle, 0);
    assert s2.refs[n := 1] == s.refs[n := 1] && s3.phase[n := Linked] == s.phase[n := Linked];
    NoMoreSteps(Pushed(s3, n), t);
  }

  lemma AtRest(s: State, t: Tid)
    requires t in s.pcs && s.pcs[t].Idle?
    ensures Put(s, t, Idle) == s
  {
  }

  /** From every reachable state with no operation in progress, try_get run alone changes
      nothing and comes back without a block exactly when the chain is empty; otherwise the
      first block of the chain becomes its caller's and the chain loses it, no more. */
  lemma QuiescentGet(run: seq<State>, i: nat, t: Tid)
    requires Execution(run) && i < |run| && AllIdle(run[i]) && t in run[i].pcs
    ensures var s, s' := run[i], Alone(Do(run[i], StartGet(t)), t, 6);
            if s.chain == [] then s' == s
            else
              var n := s.chain[0];
              && n in s.phase && n in s.refs && n in s.next
              && s' == s.(head := s.next[n], refs := s.refs[n := 0], phase := s.phase[n := Owned(t)],
                          chain := s.chain[1..])
  {
    hide Alone, Moves, Put, WordOk, PcOk;
    ExecutionInv(run, i);
    var s := run[i];
    assert Do(s, StartGet(t)) == Put(s, t, GetHead) by { Started(s, t); }
    AtRest(s, t);
    if s.chain == [] {
      LookMoves(s, t);
      MovesAlone(s, t, GetHead, s, GetLoop(s.head), 5);
      MovesAlone(s, t, GetLoop(s.head), s, Idle, 4);
      Rests(s, t);
    } else {
      var n := s.chain[0];
      assert LinkedAt(s, 0);
      QuietWords(s, n);
      SoloGet(s, t, n);
      AtRest(Unlinked(s, t, n).(refs := s.refs[n := 0], phase := s.phase[n := Owned(t)]), t);
    }
  }

  lemma Started(s: State, t: Tid)
    requires t in s.pcs && s.pcs[t].Idle?
    ensures Do(s, StartGet(t)) == Put(s, t, GetHead)
    ensures forall n | Enabled(s, StartAdd(t, n)) :: Do(s, StartAdd(t, n)) == Put(s, t, Adding(n))
  {
  }

  lemma Rests(s: State, t: Tid)
    requires t in s.pcs && s.pcs[t].Idle?
    ensures Alone(s, t, 4) == s
  {
  }

  /** And add run alone puts its block in front of the chain, no more. */
  lemma QuiescentAdd(run: seq<State>, i: nat, t: Tid, n: Node)
    requires Execution(run) && i < |run| && AllIdle(run[i]) && Enabled(run[i], StartAdd(t, n))
    ensures var s, s' := run[i], Alone(Do(run[i], StartAdd(t, n)), t, 5);
            && n in s.refs && n in s.next && n !in s.chain
            && s' == s.(head := To(n), next := s.next[n := s.head], refs := s.refs[n := 1],
                        phase := s.phase[n := Linked], chain := [n] + s.chain)
  {
    hide Alone, Moves, Put, WordOk, PcOk;
    ExecutionInv(run, i);
    var s := run[i];
    assert Do(s, StartAdd(t, n)) == Put(s, t, Adding(n)) by { Started(s, t); }
    QuietWords(s, n);
    SoloAdd(s, t, n);
    AtRest(Pushed(s, n).(next := s.next[n := s.head], refs := s.refs[n := 1]), t);
    forall j | 0 <= j < |s.chain| ensures s.chain[j] != n { assert LinkedAt(s, j); }
  }
}
