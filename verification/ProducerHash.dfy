/**
  The lock-free hash tables that map a thread id to its implicit producer.  Tables are
  chained: a bigger table is published in front of the older ones and filled lazily.
  Every load, compare-and-swap, fetch_add and flag access of get_or_add_implicit_producer
  is one step of the calling thread.
 */
module ProducerHash {
  import opened Counting
  import opened Modular

  type Tid = nat
  type Producer = nat

  datatype Value = Unset | Set(p: Producer)
  datatype Slot = Empty | Used(id: Tid, value: Value)

  /** `at` is history: after how many probes from its home slot an id was placed. */
  datatype Table = Table(slots: seq<Slot>, at: map<Tid, nat>)

  datatype Pc =
    | Idle
    | Done(p: Producer)
    | Probe(m: nat, h: nat, k: nat)
    | ReLoad(m: nat, p: Producer, k: nat)
    | ReCas(m: nat, p: Producer, k: nat)
    | ReStore(m: nat, p: Producer, k: nat)
    | NotFound(m: nat)
    | Check(m: nat, n: nat)
    | Locked(n: nat)
    | Publish(m: nat, n: nat)
    | Unlock(m: nat, n: nat)
    | Fit(m: nat, n: nat)
    | InLoad(m: nat, p: Producer, k: nat)
    | InCas(m: nat, p: Producer, k: nat)
    | InStore(m: nat, p: Producer, k: nat)

  /** Tables are listed oldest first, so a table's `prev` is its predecessor and
      implicitProducerHash points to the last one.  `holder`, `rank`, `home` and `made`
      are history: who holds the resize flag, the count each id was given, the table each
      id was first inserted in, the producer created for it. */
  datatype State = State(
    tables: seq<Table>, count: nat, resizing: bool, created: nat,
    hash: map<Tid, nat>, pcs: map<Tid, Pc>,
    holder: Tid, rank: map<Tid, nat>, home: map<Tid, nat>, made: map<Tid, Producer>)

  const INITIAL_SIZE: nat := 32

  datatype Action = Call(t: Tid) | Step(t: Tid)

  function NewTable(capacity: nat): (r: Table)
    ensures |r.slots| == capacity && forall j | 0 <= j < capacity :: r.slots[j] == Empty
  {
    Table(seq(capacity, _ => Empty), map[])
  }

  predicate Init(s: State) {
    && s.tables == [NewTable(INITIAL_SIZE)]
    && s.count == 0 && !s.resizing && s.created == 0
    && s.hash.Keys == s.pcs.Keys
    && (forall t | t in s.pcs :: s.pcs[t].Idle?)
    && s.rank == map[] && s.home == map[] && s.made == map[]
  }

  /** The slot looked at after k steps from the home slot.  Capacities are powers of two,
      so masking the index is reducing it modulo the capacity. */
  function Index(hash: nat, k: nat, capacity: nat): (j: nat)
    requires capacity > 0
    ensures j < capacity
  {
    (hash + k) % capacity
  }

  function Half(c: nat): nat { c / 2 }

  /** Three quarters: the fill up to which a thread still inserts into an old table. */
  function Limit(c: nat): nat { c / 2 + c / 4 }

  /** The capacity to grow to: doubled until the count is below half of it. */
  function Grown(c: nat, n: nat): (r: nat)
    requires c > 0
    ensures r >= c && n < r / 2
    decreases 2 * n + 2 - c
  {
    if n >= c / 2 then Grown(2 * c, n) else c
  }

  lemma {:induction false} GrownPower(c: nat, n: nat)
    requires c > 0 && PowerOfTwo(c)
    ensures PowerOfTwo(Grown(c, n))
    decreases 2 * n + 2 - c
  {
    if n >= c / 2 {
      assert 2 * c % 2 == 0 && 2 * c / 2 == c;
      GrownPower(2 * c, n);
    }
  }

  predicate Enabled(s: State, a: Action) {
    && a.t in s.pcs && a.t in s.hash
    && match a
       case Call(t) => s.pcs[t].Idle? || s.pcs[t].Done?
       case Step(t) => InBounds(s, s.pcs[t])
  }

  /** Every table a thread is about to access exists and has slots. */
  predicate InBounds(s: State, pc: Pc) {
    match pc
    case Idle => false
    case Done(_) => false
    case Probe(m, h, _) => h <= m < |s.tables| && |s.tables[h].slots| > 0
    case NotFound(m) => m < |s.tables|
    case Locked(_) => |s.tables| > 0 && |s.tables[|s.tables| - 1].slots| > 0
    case Check(m, _) => m < |s.tables|
    case _ => pc.m < |s.tables| && |s.tables[pc.m].slots| > 0
  }

  function Put(s: State, h: nat, j: nat, slot: Slot): State
    requires h < |s.tables| && j < |s.tables[h].slots|
  {
    s.(tables := s.tables[h := s.tables[h].(slots := s.tables[h].slots[j := slot])])
  }

  /** A successful compare-and-swap of a slot from empty to this thread's id. */
  function Place(s: State, h: nat, t: Tid, k: nat): State
    requires h < |s.tables| && t in s.hash && |s.tables[h].slots| > 0
  {
    var j := Index(s.hash[t], k, |s.tables[h].slots|);
    var s' := Put(s, h, j, Used(t, Unset));
    s'.(tables := s'.tables[h := s'.tables[h].(at := s'.tables[h].at[t := k])])
  }

  function Do(s: State, a: Action): State
    requires Enabled(s, a)
  {
    match a
    case Call(t) => s.(pcs := s.pcs[t := Probe(if s.tables == [] then 0 else |s.tables| - 1,
                                               if s.tables == [] then 0 else |s.tables| - 1, 0)])
    case Step(t) => Advance(s, t)
  }

  function Advance(s: State, t: Tid): State
    requires t in s.pcs && t in s.hash && InBounds(s, s.pcs[t])
  {
    match s.pcs[t]
    case Probe(m, h, k) =>
      var slot := s.tables[h].slots[Index(s.hash[t], k, |s.tables[h].slots|)];
      if slot.Used? && slot.id == t then
        var p := if slot.value.Set? then slot.value.p else 0;
        s.(pcs := s.pcs[t := if h == m then Done(p) else ReLoad(m, p, 0)])
      else if slot.Empty? then
        s.(pcs := s.pcs[t := if h == 0 then NotFound(m) else Probe(m, h - 1, 0)])
      else s.(pcs := s.pcs[t := Probe(m, h, k + 1)])
    case ReLoad(m, p, k) =>
      var slot := s.tables[m].slots[Index(s.hash[t], k, |s.tables[m].slots|)];
      s.(pcs := s.pcs[t := if slot.Empty? then ReCas(m, p, k) else ReLoad(m, p, k + 1)])
    case ReCas(m, p, k) =>
      var slot := s.tables[m].slots[Index(s.hash[t], k, |s.tables[m].slots|)];
      if slot.Empty? then Place(s, m, t, k).(pcs := s.pcs[t := ReStore(m, p, k)])
      else s.(pcs := s.pcs[t := ReLoad(m, p, k + 1)])
    case ReStore(m, p, k) =>
      Put(s, m, Index(s.hash[t], k, |s.tables[m].slots|), Used(t, Set(p))).(pcs := s.pcs[t := Done(p)])
    case NotFound(m) =>
      s.(count := s.count + 1, rank := s.rank[t := s.count + 1], pcs := s.pcs[t := Check(m, s.count + 1)])
    case Check(m, n) =>
      if n >= Half(|s.tables[m].slots|) && !s.resizing then
        s.(resizing := true, holder := t, pcs := s.pcs[t := Locked(n)])
      else s.(pcs := s.pcs[t := Fit(m, n)])
    case Locked(n) =>
      var m := |s.tables| - 1;
      s.(pcs := s.pcs[t := if n >= Half(|s.tables[m].slots|) then Publish(m, n) else Unlock(m, n)])
    case Publish(m, n) =>
      s.(tables := s.tables + [NewTable(Grown(2 * |s.tables[m].slots|, n))],
         pcs := s.pcs[t := Unlock(|s.tables|, n)])
    case Unlock(m, n) => s.(resizing := false, pcs := s.pcs[t := Fit(m, n)])
    case Fit(m, n) =>
      if n < Limit(|s.tables[m].slots|) then
        s.(created := s.created + 1, made := s.made[t := s.created], pcs := s.pcs[t := InLoad(m, s.created, 0)])
      else s.(pcs := s.pcs[t := Check(|s.tables| - 1, n)])
    case InLoad(m, p, k) =>
      var slot := s.tables[m].slots[Index(s.hash[t], k, |s.tables[m].slots|)];
      s.(pcs := s.pcs[t := if slot.Empty? then InCas(m, p, k) else InLoad(m, p, k + 1)])
    case InCas(m, p, k) =>
      var slot := s.tables[m].slots[Index(s.hash[t], k, |s.tables[m].slots|)];
      if slot.Empty? then
        Place(s, m, t, k).(home := s.home[t := m], pcs := s.pcs[t := InStore(m, p, k)])
      else s.(pcs := s.pcs[t := InLoad(m, p, k + 1)])
    case InStore(m, p, k) =>
      Put(s, m, Index(s.hash[t], k, |s.tables[m].slots|), Used(t, Set(p))).(pcs := s.pcs[t := Done(p)])
  }

  ghost predicate Next(s: State, s': State) {
    exists a: Action :: Enabled(s, a) && s' == Do(s, a)
  }

  ghost predicate Execution(run: seq<State>) {
    && |run| > 0
    && Init(run[0])
    && forall i | 0 <= i < |run| - 1 :: Next(run[i], run[i + 1])
  }

  // ---- the invariant ----

  /** The slot an id was placed in, with every slot probed before it taken. */
  ghost predicate Placed(table: Table, hash: map<Tid, nat>, id: Tid) {
    id in table.at && id in hash && |table.slots| > 0 &&
    var c := |table.slots|;
    && table.slots[Index(hash[id], table.at[id], c)].Used?
    && table.slots[Index(hash[id], table.at[id], c)].id == id
    && forall k: nat | k < table.at[id] ::
         !table.slots[Index(hash[id], k, c)].Empty? &&
         Index(hash[id], k, c) != Index(hash[id], table.at[id], c)
  }

  ghost predicate TableOk(s: State, h: nat)
    requires h < |s.tables|
  {
    var t := s.tables[h];
    && PowerOfTwo(|t.slots|) && |t.slots| >= INITIAL_SIZE
    && (forall id | id in t.at :: Placed(t, s.hash, id))
    && (forall j | 0 <= j < |t.slots| && t.slots[j].Used? ::
         t.slots[j].id in t.at && t.slots[j].id in s.hash &&
           j == Index(s.hash[t.slots[j].id], t.at[t.slots[j].id], |t.slots|))
    && (forall id | id in t.at :: id in s.home && s.home[id] <= h && id in s.rank && s.rank[id] < Limit(|t.slots|))
  }

  /** Every slot a thread passed while probing is still taken by another id. */
  ghost predicate Passed(s: State, h: nat, t: Tid, k: nat) {
    && h < |s.tables| && t in s.hash && |s.tables[h].slots| > 0
    && forall i: nat | i < k ::
         var slot := s.tables[h].slots[Index(s.hash[t], i, |s.tables[h].slots|)];
         slot.Used? && slot.id != t
  }

  ghost predicate AbsentAbove(s: State, h: int, t: Tid) {
    forall g | 0 <= g < |s.tables| && h < g :: t !in s.tables[g].at
  }

  /** The value of t's slot in table h has been written. */
  ghost predicate Written(s: State, h: nat, t: Tid) {
    h < |s.tables| && t in s.tables[h].at && t in s.hash && |s.tables[h].slots| > 0 ==>
      t in s.made &&
      s.tables[h].slots[Index(s.hash[t], s.tables[h].at[t], |s.tables[h].slots|)] == Used(t, Set(s.made[t]))
  }

  predicate Inserting(pc: Pc) {
    pc.Check? || pc.Locked? || pc.Publish? || pc.Unlock? || pc.Fit? || pc.InLoad? || pc.InCas?
  }

  predicate HoldsFlag(pc: Pc) { pc.Locked? || pc.Publish? || pc.Unlock? }

  ghost predicate Registered(s: State, t: Tid) {
    t in s.home && t in s.rank && t in s.made && s.home[t] < |s.tables| && t in s.tables[s.home[t]].at
  }

  ghost predicate PcOk(s: State, t: Tid, pc: Pc) {
    && (HoldsFlag(pc) <==> s.resizing && s.holder == t)
    && (Inserting(pc) <==> t in s.rank && t !in s.home)
    && (Inserting(pc) && (pc.Check? || pc.Locked? || pc.Publish? || pc.Unlock? || pc.Fit?) ==>
          s.rank[t] == pc.n && t !in s.made)
    && (t in s.home ==> Registered(s, t))
    && (t in s.made ==> t in s.rank)
    && match pc
       case Idle => t !in s.home
       case Done(p) => t in s.home && s.made[t] == p
       case Probe(m, h, k) =>
         h <= m < |s.tables| && Passed(s, h, t, k) && AbsentAbove(s, h, t)
       case ReLoad(m, p, k) =>
         t in s.home && s.home[t] < m && s.made[t] == p && Passed(s, m, t, k) && t !in s.tables[m].at
       case ReCas(m, p, k) =>
         t in s.home && s.home[t] < m && s.made[t] == p && Passed(s, m, t, k) && t !in s.tables[m].at
       case ReStore(m, p, k) =>
         t in s.home && s.made[t] == p && m < |s.tables| && t in s.tables[m].at && s.tables[m].at[t] == k
       case NotFound(m) => m < |s.tables| && t !in s.home
       case Check(m, n) => m < |s.tables|
       case Locked(n) => true
       case Publish(m, n) => m == |s.tables| - 1 && n >= Half(|s.tables[m].slots|)
       case Unlock(m, n) => m < |s.tables|
       case Fit(m, n) => m < |s.tables|
       case InLoad(m, p, k) =>
         Passed(s, m, t, k) && t in s.made && s.made[t] == p && s.rank[t] < Limit(|s.tables[m].slots|)
       case InCas(m, p, k) =>
         Passed(s, m, t, k) && t in s.made && s.made[t] == p && s.rank[t] < Limit(|s.tables[m].slots|)
       case InStore(m, p, k) =>
         t in s.home && s.made[t] == p && m < |s.tables| && t in s.tables[m].at && s.tables[m].at[t] == k
  }

  /** All values are written except the one whose store is this thread's next step. */
  ghost predicate ValuesOk(s: State, t: Tid, pc: Pc) {
    forall h | 0 <= h < |s.tables| && !((pc.ReStore? || pc.InStore?) && pc.m == h) :: Written(s, h, t)
  }

  ghost predicate RanksOk(s: State) {
    && (forall t | t in s.rank :: 1 <= s.rank[t] <= s.count)
    && (forall t, u | t in s.rank && u in s.rank && t != u :: s.rank[t] != s.rank[u])
    && (forall t | t in s.made :: s.made[t] < s.created)
    && (forall t, u | t in s.made && u in s.made && t != u :: s.made[t] != s.made[u])
  }

  ghost predicate Shape(s: State) {
    && |s.tables| > 0
    && s.hash.Keys == s.pcs.Keys
    && s.home.Keys <= s.pcs.Keys && s.rank.Keys <= s.pcs.Keys && s.made.Keys <= s.pcs.Keys
    && (s.resizing ==> s.holder in s.pcs)
    && (forall h | 0 <= h < |s.tables| :: TableOk(s, h))
    && (forall g, h | 0 <= g < h < |s.tables| :: 2 * |s.tables[g].slots| <= |s.tables[h].slots|)
  }

  ghost predicate Inv(s: State) {
    && Shape(s) && RanksOk(s)
    && (forall t | t in s.pcs :: PcOk(s, t, s.pcs[t]))
    && (forall t | t in s.pcs :: ValuesOk(s, t, s.pcs[t]))
  }

  // ---- what a step of thread t leaves alone ----

  ghost predicate SlotKept(a: Slot, b: Slot, t: Tid) {
    a == b || (b.Used? && b.id == t && (a.Empty? || a.id == t))
  }

  ghost predicate TableExtends(a: Table, b: Table, t: Tid) {
    && |a.slots| == |b.slots|
    && (forall j | 0 <= j < |a.slots| :: SlotKept(a.slots[j], b.slots[j], t))
    && (forall u | u != t :: (u in a.at <==> u in b.at) && (u in a.at ==> a.at[u] == b.at[u]))
  }

  ghost predicate Agree<V>(a: map<Tid, V>, b: map<Tid, V>, u: Tid) {
    (u in a <==> u in b) && (u in a ==> a[u] == b[u])
  }

  ghost predicate OthersAgree(s: State, s': State, u: Tid) {
    && Agree(s.rank, s'.rank, u) && Agree(s.home, s'.home, u) && Agree(s.made, s'.made, u)
    && (s.resizing && s.holder == u <==> s'.resizing && s'.holder == u)
  }

  ghost predicate Extends(s: State, s': State, t: Tid) {
    && s'.hash == s.hash && t in s.pcs && t in s'.pcs && s'.pcs == s.pcs[t := s'.pcs[t]]
    && |s.tables| <= |s'.tables|
    && (forall h | 0 <= h < |s.tables| :: TableExtends(s.tables[h], s'.tables[h], t))
    && (forall h | |s.tables| <= h < |s'.tables| :: s'.tables[h].at == map[])
    && (|s.tables| < |s'.tables| ==> HoldsFlag(s.pcs[t]))
    && (forall u | u != t :: OthersAgree(s, s', u))
  }

  lemma PassedKept(s: State, s': State, t: Tid, u: Tid, h: nat, k: nat)
    requires Extends(s, s', t) && u != t && Passed(s, h, u, k)
    ensures Passed(s', h, u, k)
    ensures h < |s.tables| && |s'.tables[h].slots| == |s.tables[h].slots| && Agree(s.tables[h].at, s'.tables[h].at, u)
  {
    var a, b := s.tables[h].slots, s'.tables[h].slots;
    assert TableExtends(s.tables[h], s'.tables[h], t);
    forall i: nat | i < k
      ensures var slot := b[Index(s.hash[u], i, |b|)]; slot.Used? && slot.id != u
    {
      assert SlotKept(a[Index(s.hash[u], i, |a|)], b[Index(s.hash[u], i, |b|)], t);
    }
  }

  lemma OtherPc(s: State, s': State, t: Tid, u: Tid)
    requires Extends(s, s', t) && u in s.pcs && u != t
    requires PcOk(s, u, s.pcs[u]) && PcOk(s, t, s.pcs[t])
    ensures PcOk(s', u, s'.pcs[u])
  {
    hide Passed, Limit, Half;
    var pc := s.pcs[u];
    assert s'.pcs[u] == pc;
    assert OthersAgree(s, s', u);
    assert u in s.home ==> Registered(s', u) by {
      if u in s.home { assert TableExtends(s.tables[s.home[u]], s'.tables[s.home[u]], t); }
    }
    if (pc.Publish? || pc.InStore? || pc.ReStore?) {
      assert TableExtends(s.tables[pc.m], s'.tables[pc.m], t);
    }
    match pc
    case Probe(m, h, k) => PassedKept(s, s', t, u, h, k);
    case ReLoad(m, p, k) => PassedKept(s, s', t, u, m, k);
    case ReCas(m, p, k) => PassedKept(s, s', t, u, m, k);
    case InLoad(m, p, k) => PassedKept(s, s', t, u, m, k);
    case InCas(m, p, k) => PassedKept(s, s', t, u, m, k);
    case _ =>
  }

  lemma OtherValues(s: State, s': State, t: Tid, u: Tid)
    requires Extends(s, s', t) && u in s.pcs && u != t && ValuesOk(s, u, s.pcs[u])
    ensures ValuesOk(s', u, s'.pcs[u])
  {
    var pc := s.pcs[u];
    assert s'.pcs[u] == pc && OthersAgree(s, s', u);
    forall h | 0 <= h < |s'.tables| && !((pc.ReStore? || pc.InStore?) && pc.m == h)
      ensures Written(s', h, u)
    {
      if h < |s.tables| {
        assert Written(s, h, u) && TableExtends(s.tables[h], s'.tables[h], t);
        if u in s.tables[h].at && u in s.hash && |s.tables[h].slots| > 0 {
          var j := Index(s.hash[u], s.tables[h].at[u], |s.tables[h].slots|);
          assert SlotKept(s.tables[h].slots[j], s'.tables[h].slots[j], t);
        }
      }
    }
  }

  /** What a step of thread t has to show beyond leaving the others alone. */
  lemma StepFrame(s: State, s': State, t: Tid)
    requires Inv(s) && Extends(s, s', t)
    requires Shape(s') && RanksOk(s') && PcOk(s', t, s'.pcs[t]) && ValuesOk(s', t, s'.pcs[t])
    ensures Inv(s')
  {
    hide PcOk, ValuesOk, Shape, RanksOk;
    forall u | u in s'.pcs ensures PcOk(s', u, s'.pcs[u]) && ValuesOk(s', u, s'.pcs[u]) {
      if u != t {
        OtherPc(s, s', t, u);
        OtherValues(s, s', t, u);
      }
    }
  }

  // ---- steps that only move the program counter ----

  ghost predicate OnlyPc(s: State, s': State, t: Tid) {
    t in s.pcs && t in s'.pcs && s'.pcs == s.pcs[t := s'.pcs[t]] && s' == s.(pcs := s'.pcs)
  }

  lemma OnlyPcExtends(s: State, s': State, t: Tid)
    requires OnlyPc(s, s', t) && Shape(s)
    ensures Extends(s, s', t) && Shape(s')
    ensures RanksOk(s) ==> RanksOk(s')
  {
    forall h | 0 <= h < |s'.tables| ensures TableOk(s', h) { assert TableOk(s, h); }
  }

  /** An id that sits in a table is found before the first empty slot. */
  lemma ProbeMeets(s: State, h: nat, t: Tid, k: nat)
    requires h < |s.tables| && TableOk(s, h) && Passed(s, h, t, k)
    ensures t in s.tables[h].at ==> k <= s.tables[h].at[t]
    ensures var slot := s.tables[h].slots[Index(s.hash[t], k, |s.tables[h].slots|)];
            && (slot.Empty? ==> t !in s.tables[h].at)
            && (slot.Used? && slot.id == t ==>
                  t in s.tables[h].at &&
                    s.tables[h].slots[Index(s.hash[t], s.tables[h].at[t], |s.tables[h].slots|)] == slot)
            && (slot.Used? && slot.id != t ==> Passed(s, h, t, k + 1))
  {
    var table := s.tables[h];
    if t in table.at {
      assert Placed(table, s.hash, t);
    }
  }

  /** What a probing thread finds in the slot it looks at. */
  ghost function Probed(s: State, t: Tid): Slot
    requires t in s.pcs && t in s.hash && s.pcs[t].Probe? && InBounds(s, s.pcs[t])
  {
    s.tables[s.pcs[t].h].slots[Index(s.hash[t], s.pcs[t].k, |s.tables[s.pcs[t].h].slots|)]
  }

  lemma ProbeFound(s: State, t: Tid)
    requires Enabled(s, Step(t)) && s.pcs[t].Probe? && PcOk(s, t, s.pcs[t]) && ValuesOk(s, t, s.pcs[t]) &&
             TableOk(s, s.pcs[t].h)
    requires NoEmptyTable(s) && Probed(s, t).Used? && Probed(s, t).id == t
    ensures OnlyPc(s, Advance(s, t), t) && PcOk(Advance(s, t), t, Advance(s, t).pcs[t])
  {
    var pc := s.pcs[t];
    ProbeMeets(s, pc.h, t, pc.k);
    assert t in s.tables[pc.h].at && t in s.home && s.home[t] <= pc.h;
    assert Written(s, pc.h, t);
    hide TableOk, Limit, Half, Passed, ValuesOk;
    SamePassed(s, Advance(s, t), t);
  }

  lemma ProbeOn(s: State, t: Tid)
    requires Enabled(s, Step(t)) && s.pcs[t].Probe? && PcOk(s, t, s.pcs[t]) && TableOk(s, s.pcs[t].h)
    requires NoEmptyTable(s) && !(Probed(s, t).Used? && Probed(s, t).id == t)
    ensures OnlyPc(s, Advance(s, t), t) && PcOk(Advance(s, t), t, Advance(s, t).pcs[t])
  {
    var pc := s.pcs[t];
    ProbeMeets(s, pc.h, t, pc.k);
    assert t in s.home ==> t in s.tables[s.home[t]].at;
    hide TableOk, Limit, Half, Passed;
    SamePassed(s, Advance(s, t), t);
  }

  lemma ProbeLocal(s: State, t: Tid)
    requires Enabled(s, Step(t)) && s.pcs[t].Probe? && s.pcs[t].h < |s.tables|
    requires PcOk(s, t, s.pcs[t]) && ValuesOk(s, t, s.pcs[t]) && TableOk(s, s.pcs[t].h)
    requires NoEmptyTable(s)
    ensures OnlyPc(s, Advance(s, t), t)
    ensures PcOk(Advance(s, t), t, Advance(s, t).pcs[t])
  {
    hide PcOk, TableOk, ValuesOk, Advance;
    if Probed(s, t).Used? && Probed(s, t).id == t { ProbeFound(s, t); } else { ProbeOn(s, t); }
  }

  /** Moving a program counter does not change which slots are taken. */
  lemma SamePassed(s: State, s': State, t: Tid)
    requires OnlyPc(s, s', t)
    ensures forall h: nat, k: nat :: Passed(s, h, t, k) <==> Passed(s', h, t, k)
    ensures forall h: nat :: h < |s.tables| && t in s.hash && |s.tables[h].slots| > 0 ==> Passed(s', h, t, 0)
  {
  }

  ghost predicate NoEmptyTable(s: State) {
    forall h | 0 <= h < |s.tables| :: |s.tables[h].slots| > 0
  }

  lemma TablesHaveSlots(s: State)
    requires Shape(s)
    ensures NoEmptyTable(s)
  {
    forall h | 0 <= h < |s.tables| ensures |s.tables[h].slots| > 0 { assert TableOk(s, h); }
  }

  lemma OnlyPcStep(s: State, s': State, t: Tid)
    requires Inv(s) && OnlyPc(s, s', t) && PcOk(s', t, s'.pcs[t])
    requires !s.pcs[t].ReStore? && !s.pcs[t].InStore?
    ensures Inv(s')
  {
    hide PcOk, ValuesOk, RanksOk, TableOk;
    OnlyPcExtends(s, s', t);
    SameValues(s, s', t);
    StepFrame(s, s', t);
  }

  /** A slot is loaded, or the compare-and-swap on it fails. */
  ghost predicate Walks(s: State, t: Tid)
    requires t in s.pcs && t in s.hash && InBounds(s, s.pcs[t])
  {
    var pc := s.pcs[t];
    || pc.ReLoad? || pc.InLoad?
    || ((pc.ReCas? || pc.InCas?) && !s.tables[pc.m].slots[Index(s.hash[t], pc.k, |s.tables[pc.m].slots|)].Empty?)
  }

  lemma WalkAgain(s: State, t: Tid)
    requires Enabled(s, Step(t)) && PcOk(s, t, s.pcs[t]) && Walks(s, t) && TableOk(s, s.pcs[t].m)
    requires s.pcs[t].ReLoad? || s.pcs[t].ReCas?
    ensures OnlyPc(s, Advance(s, t), t) && PcOk(Advance(s, t), t, Advance(s, t).pcs[t])
  {
    var pc := s.pcs[t];
    ProbeMeets(s, pc.m, t, pc.k);
    hide TableOk, Limit, Half, Passed;
    SamePassed(s, Advance(s, t), t);
  }

  lemma WalkFirst(s: State, t: Tid)
    requires Enabled(s, Step(t)) && PcOk(s, t, s.pcs[t]) && Walks(s, t) && TableOk(s, s.pcs[t].m)
    requires s.pcs[t].InLoad? || s.pcs[t].InCas?
    ensures OnlyPc(s, Advance(s, t), t) && PcOk(Advance(s, t), t, Advance(s, t).pcs[t])
  {
    var pc := s.pcs[t];
    ProbeMeets(s, pc.m, t, pc.k);
    assert t !in s.tables[pc.m].at;
    hide TableOk, Limit, Half, Passed;
    SamePassed(s, Advance(s, t), t);
  }

  /** Passing a slot that another id has taken. */
  lemma WalkLocal(s: State, t: Tid)
    requires Enabled(s, Step(t)) && PcOk(s, t, s.pcs[t]) && Walks(s, t) && TableOk(s, s.pcs[t].m)
    ensures OnlyPc(s, Advance(s, t), t)
    ensures PcOk(Advance(s, t), t, Advance(s, t).pcs[t])
  {
    hide PcOk, TableOk, OnlyPc, Advance;
    if s.pcs[t].ReLoad? || s.pcs[t].ReCas? { WalkAgain(s, t); } else { WalkFirst(s, t); }
  }

  /** Deciding where to insert without changing anything shared. */
  lemma GateLocal(s: State, t: Tid)
    requires Enabled(s, Step(t)) && PcOk(s, t, s.pcs[t]) && NoEmptyTable(s) && |s.tables| > 0
    requires var pc := s.pcs[t];
             || pc.Locked?
             || (pc.Check? && (s.resizing || pc.n < Half(|s.tables[pc.m].slots|)))
             || (pc.Fit? && pc.n >= Limit(|s.tables[pc.m].slots|))
    ensures OnlyPc(s, Advance(s, t), t)
    ensures PcOk(Advance(s, t), t, Advance(s, t).pcs[t])
  {
    hide Limit, Half;
  }

  lemma CallLocal(s: State, t: Tid)
    requires Enabled(s, Call(t)) && PcOk(s, t, s.pcs[t]) && NoEmptyTable(s) && |s.tables| > 0
    ensures OnlyPc(s, Do(s, Call(t)), t)
    ensures PcOk(Do(s, Call(t)), t, Do(s, Call(t)).pcs[t])
  {
  }

  // ---- counting, locking, publishing, creating ----

  /** Everything StepFrame asks of a step of thread t. */
  ghost predicate LocalOk(s: State, s': State, t: Tid) {
    Extends(s, s', t) && Shape(s') && RanksOk(s') && PcOk(s', t, s'.pcs[t]) && ValuesOk(s', t, s'.pcs[t])
  }

  ghost predicate Ready(s: State, t: Tid) {
    Shape(s) && RanksOk(s) && Enabled(s, Step(t)) && PcOk(s, t, s.pcs[t]) && ValuesOk(s, t, s.pcs[t])
  }

  /** A step that leaves the tables alone keeps the shape. */
  lemma SameTables(s: State, s': State, t: Tid)
    requires Shape(s) && s'.tables == s.tables && s'.hash == s.hash && s'.home == s.home
    requires t in s.pcs && t in s'.pcs && s'.pcs == s.pcs[t := s'.pcs[t]]
    requires s.rank == s'.rank || (t !in s.rank && t in s'.rank && s'.rank == s.rank[t := s'.rank[t]])
    requires s'.made.Keys <= s'.pcs.Keys && (s'.resizing ==> s'.holder in s'.pcs)
    ensures Shape(s')
    ensures forall h | 0 <= h < |s.tables| :: TableExtends(s.tables[h], s'.tables[h], t)
  {
    hide Placed, Limit, PowerOfTwo;
    forall h | 0 <= h < |s'.tables| ensures TableOk(s', h) { assert TableOk(s, h); }
  }

  lemma CountRanks(s: State, t: Tid)
    requires Ready(s, t) && s.pcs[t].NotFound?
    ensures RanksOk(Advance(s, t))
  {
    hide TableOk, PcOk, ValuesOk;
  }

  lemma CountPc(s: State, t: Tid)
    requires Ready(s, t) && s.pcs[t].NotFound?
    ensures PcOk(Advance(s, t), t, Advance(s, t).pcs[t])
  {
    hide TableOk, RanksOk, ValuesOk, Limit, Half;
  }

  lemma CountLocal(s: State, t: Tid)
    requires Ready(s, t) && s.pcs[t].NotFound?
    ensures LocalOk(s, Advance(s, t), t)
  {
    CountRanks(s, t);
    CountPc(s, t);
    var s' := Advance(s, t);
    NotFoundFresh(s, t);
    hide TableOk, TableExtends, Limit, Half, RanksOk, PcOk;
    SameTables(s, s', t);
    forall h | 0 <= h < |s'.tables| ensures Written(s', h, t) { assert Written(s, h, t); }
  }

  lemma NotFoundFresh(s: State, t: Tid)
    requires Ready(s, t) && s.pcs[t].NotFound?
    ensures t !in s.rank && t !in s.made && t !in s.home
  {
    hide TableOk, RanksOk, ValuesOk;
  }

  lemma FlagLocal(s: State, t: Tid)
    requires Ready(s, t)
    requires s.pcs[t].Unlock? || (s.pcs[t].Check? && !s.resizing && s.pcs[t].n >= Half(|s.tables[s.pcs[t].m].slots|))
    ensures LocalOk(s, Advance(s, t), t)
  {
    hide TableOk, TableExtends, Limit, Half;
    var s' := Advance(s, t);
    SameTables(s, s', t);
    forall h | 0 <= h < |s'.tables| ensures Written(s', h, t) { assert Written(s, h, t); }
  }

  lemma CreateRanks(s: State, t: Tid)
    requires Ready(s, t) && s.pcs[t].Fit? && s.pcs[t].n < Limit(|s.tables[s.pcs[t].m].slots|)
    ensures RanksOk(Advance(s, t))
  {
    hide TableOk, PcOk, ValuesOk, Limit;
  }

  lemma CreatePc(s: State, t: Tid)
    requires Ready(s, t) && s.pcs[t].Fit? && s.pcs[t].n < Limit(|s.tables[s.pcs[t].m].slots|)
    ensures PcOk(Advance(s, t), t, Advance(s, t).pcs[t])
    ensures t in s.rank && t !in s.made && t !in s.home
  {
    hide TableOk, RanksOk, ValuesOk, Limit, Half;
  }

  lemma CreateLocal(s: State, t: Tid)
    requires Ready(s, t) && s.pcs[t].Fit? && s.pcs[t].n < Limit(|s.tables[s.pcs[t].m].slots|)
    ensures LocalOk(s, Advance(s, t), t)
  {
    CreateRanks(s, t);
    CreatePc(s, t);
    var s' := Advance(s, t);
    hide TableOk, TableExtends, Limit, Half, RanksOk, PcOk;
    SameTables(s, s', t);
    forall h | 0 <= h < |s'.tables| ensures Written(s', h, t) { assert Written(s, h, t); }
  }

  lemma GrownTable(c: nat, n: nat)
    requires c > 0 && PowerOfTwo(c)
    ensures PowerOfTwo(Grown(2 * c, n)) && Grown(2 * c, n) >= 2 * c
  {
    hide Grown;
    assert PowerOfTwo(2 * c);
    GrownPower(2 * c, n);
  }

  lemma SameTable(s: State, s': State, h: nat)
    requires h < |s.tables| && TableOk(s, h) && h < |s'.tables| && s'.tables[h] == s.tables[h]
    requires s'.hash == s.hash && s'.home == s.home && s'.rank == s.rank
    ensures TableOk(s', h)
  {
    hide Placed, Limit, PowerOfTwo;
  }

  lemma PublishTables(s: State, t: Tid)
    requires Ready(s, t) && s.pcs[t].Publish?
    ensures forall h | 0 <= h < |Advance(s, t).tables| :: TableOk(Advance(s, t), h)
    ensures var m := s.pcs[t].m;
            2 * |s.tables[m].slots| <= |Advance(s, t).tables[|s.tables|].slots|
  {
    var s', pc := Advance(s, t), s.pcs[t];
    assert TableOk(s, pc.m);
    GrownTable(|s.tables[pc.m].slots|, pc.n);
    hide Placed, Limit, Half, PowerOfTwo, Grown;
    assert TableOk(s', |s.tables|);
    hide TableOk, RanksOk, ValuesOk, PcOk;
    forall h | 0 <= h < |s.tables| ensures TableOk(s', h) { SameTable(s, s', h); }
  }

  lemma PublishShape(s: State, t: Tid)
    requires Ready(s, t) && s.pcs[t].Publish?
    ensures Shape(Advance(s, t))
  {
    PublishTables(s, t);
    var s', pc := Advance(s, t), s.pcs[t];
    hide TableOk, RanksOk, ValuesOk, Limit, Half;
    forall g, h | 0 <= g < h < |s'.tables| ensures 2 * |s'.tables[g].slots| <= |s'.tables[h].slots| {
      if h == |s.tables| && g < pc.m { assert 2 * |s.tables[g].slots| <= |s.tables[pc.m].slots|; }
    }
  }

  lemma PublishLocal(s: State, t: Tid)
    requires Ready(s, t) && s.pcs[t].Publish?
    ensures LocalOk(s, Advance(s, t), t)
  {
    PublishShape(s, t);
    hide Shape, TableOk, Limit, Half;
    var s' := Advance(s, t);
    forall h | 0 <= h < |s'.tables| ensures Written(s', h, t) {
      if h < |s.tables| { assert Written(s, h, t); }
    }
  }

  lemma SameValues(s: State, s': State, t: Tid)
    requires OnlyPc(s, s', t) && ValuesOk(s, t, s.pcs[t])
    requires !s.pcs[t].ReStore? && !s.pcs[t].InStore?
    ensures ValuesOk(s', t, s'.pcs[t])
  {
    forall h | 0 <= h < |s'.tables| ensures Written(s', h, t) { assert Written(s, h, t); }
  }

  // ---- taking a slot and writing its value ----

  /** The part of TableOk that speaks of one table alone. */
  ghost predicate Probing(t: Table, hash: map<Tid, nat>) {
    && (forall id | id in t.at :: Placed(t, hash, id))
    && (forall j | 0 <= j < |t.slots| && t.slots[j].Used? ::
         t.slots[j].id in t.at && t.slots[j].id in hash &&
           j == Index(hash[t.slots[j].id], t.at[t.slots[j].id], |t.slots|))
  }

  lemma PlaceTable(a: Table, hash: map<Tid, nat>, t: Tid, k: nat, b: Table)
    requires |a.slots| > 0 && t in hash && t !in a.at && Probing(a, hash)
    requires var j := Index(hash[t], k, |a.slots|);
             && a.slots[j].Empty?
             && (forall i: nat | i < k :: a.slots[Index(hash[t], i, |a.slots|)].Used?)
             && b == Table(a.slots[j := Used(t, Unset)], a.at[t := k])
    ensures Probing(b, hash) && TableExtends(a, b, t)
  {
    var j := Index(hash[t], k, |a.slots|);
    forall id | id in b.at ensures Placed(b, hash, id) {
      if id != t { assert Placed(a, hash, id); }
    }
    forall i | 0 <= i < |b.slots| && b.slots[i].Used?
      ensures b.slots[i].id in b.at && b.slots[i].id in hash &&
              i == Index(hash[b.slots[i].id], b.at[b.slots[i].id], |b.slots|)
    {
      if i != j { assert b.slots[i] == a.slots[i]; }
    }
  }

  lemma WriteTable(a: Table, hash: map<Tid, nat>, t: Tid, v: Value, b: Table)
    requires |a.slots| > 0 && t in hash && t in a.at && Probing(a, hash)
    requires b == Table(a.slots[Index(hash[t], a.at[t], |a.slots|) := Used(t, v)], a.at)
    ensures Probing(b, hash) && TableExtends(a, b, t)
  {
    assert Placed(a, hash, t);
    var j := Index(hash[t], a.at[t], |a.slots|);
    forall id | id in b.at ensures Placed(b, hash, id) {
      assert Placed(a, hash, id);
      if id != t { assert Index(hash[id], a.at[id], |a.slots|) != j; }
    }
    forall i | 0 <= i < |b.slots| && b.slots[i].Used?
      ensures b.slots[i].id in b.at && b.slots[i].id in hash &&
              i == Index(hash[b.slots[i].id], b.at[b.slots[i].id], |b.slots|)
    {
      if i != j { assert b.slots[i] == a.slots[i]; }
    }
  }

  lemma LimitGrows(a: nat, b: nat)
    requires a <= b
    ensures Limit(a) <= Limit(b)
  {
  }

  /** Replacing one table by an extension of it keeps the shape. */
  lemma ReplaceShape(s: State, s': State, t: Tid, m: nat)
    requires Shape(s) && m < |s.tables| && t in s.pcs && t in s'.pcs && s'.pcs == s.pcs[t := s'.pcs[t]]
    requires |s'.tables| == |s.tables| && s'.tables == s.tables[m := s'.tables[m]]
    requires s'.hash == s.hash && s'.rank == s.rank && s'.made == s.made && s'.resizing == s.resizing &&
             s'.holder == s.holder
    requires TableExtends(s.tables[m], s'.tables[m], t) && Probing(s'.tables[m], s.hash)
    requires s'.tables[m].at.Keys <= s.tables[m].at.Keys + {t}
    requires t in s'.home && s'.home[t] <= m && t in s.rank && s.rank[t] < Limit(|s.tables[m].slots|)
    requires s'.home == s.home || (t !in s.home && s'.home == s.home[t := m])
    ensures Shape(s')
  {
    hide Limit, Probing;
    forall h | 0 <= h < |s'.tables| ensures TableOk(s', h) {
      assert TableOk(s, h);
      if h == m { Unfold(s', m); }
    }
  }

  /** Replacing one table by an extension of it leaves the other threads alone. */
  lemma ReplaceExtends(s: State, s': State, t: Tid, m: nat)
    requires m < |s.tables| && t in s.pcs && t in s'.pcs && s'.pcs == s.pcs[t := s'.pcs[t]]
    requires |s'.tables| == |s.tables| && s'.tables == s.tables[m := s'.tables[m]]
    requires s'.hash == s.hash && s'.rank == s.rank && s'.made == s.made && s'.resizing == s.resizing &&
             s'.holder == s.holder
    requires TableExtends(s.tables[m], s'.tables[m], t)
    requires s'.home == s.home || s'.home == s.home[t := m]
    ensures Extends(s, s', t)
  {
    forall h | 0 <= h < |s.tables| ensures TableExtends(s.tables[h], s'.tables[h], t) {
      if h != m { assert s'.tables[h] == s.tables[h]; }
    }
  }

  lemma Unfold(s': State, m: nat)
    requires m < |s'.tables| && Probing(s'.tables[m], s'.hash)
    requires PowerOfTwo(|s'.tables[m].slots|) && |s'.tables[m].slots| >= INITIAL_SIZE
    requires forall id | id in s'.tables[m].at ::
               id in s'.home && s'.home[id] <= m && id in s'.rank && s'.rank[id] < Limit(|s'.tables[m].slots|)
    ensures TableOk(s', m)
  {
  }

  /** The compare-and-swap finds its slot free. */
  ghost predicate Places(s: State, t: Tid)
    requires t in s.pcs && t in s.hash && InBounds(s, s.pcs[t])
  {
    var pc := s.pcs[t];
    (pc.ReCas? || pc.InCas?) && s.tables[pc.m].slots[Index(s.hash[t], pc.k, |s.tables[pc.m].slots|)].Empty?
  }

  lemma PlaceFits(s: State, t: Tid)
    requires Ready(s, t) && Places(s, t)
    ensures var m := s.pcs[t].m;
            && t in s.rank && s.rank[t] < Limit(|s.tables[m].slots|)
            && Probing(Advance(s, t).tables[m], s.hash) && TableExtends(s.tables[m], Advance(s, t).tables[m], t)
  {
    var s', pc := Advance(s, t), s.pcs[t];
    var m := pc.m;
    assert TableOk(s, m);
    PlaceTable(s.tables[m], s.hash, t, pc.k, s'.tables[m]);
    if pc.ReCas? {
      assert TableOk(s, s.home[t]);
      LimitGrows(|s.tables[s.home[t]].slots|, |s.tables[m].slots|);
    }
  }

  lemma PlaceShape(s: State, t: Tid)
    requires Ready(s, t) && Places(s, t)
    ensures Shape(Advance(s, t)) && Extends(s, Advance(s, t), t)
  {
    PlaceFits(s, t);
    hide Limit, TableOk, Probing, TableExtends, Passed, RanksOk, ValuesOk;
    ReplaceShape(s, Advance(s, t), t, s.pcs[t].m);
    ReplaceExtends(s, Advance(s, t), t, s.pcs[t].m);
  }

  lemma PlacePc(s: State, t: Tid)
    requires Ready(s, t) && Places(s, t)
    ensures PcOk(Advance(s, t), t, Advance(s, t).pcs[t])
  {
    hide Limit, Half, TableOk, Shape, ValuesOk, RanksOk;
  }

  lemma PlaceRanks(s: State, t: Tid)
    requires Ready(s, t) && Places(s, t)
    ensures RanksOk(Advance(s, t))
  {
    hide Limit, Half, TableOk, Shape, ValuesOk, PcOk;
  }

  lemma PlaceValues(s: State, t: Tid)
    requires Ready(s, t) && Places(s, t)
    ensures ValuesOk(Advance(s, t), t, Advance(s, t).pcs[t])
  {
    hide Limit, Half, TableOk, Shape, RanksOk;
    var s', m := Advance(s, t), s.pcs[t].m;
    forall h | 0 <= h < |s'.tables| && h != m ensures Written(s', h, t) { assert Written(s, h, t); }
  }

  lemma PlaceLocal(s: State, t: Tid)
    requires Ready(s, t) && Places(s, t)
    ensures LocalOk(s, Advance(s, t), t)
  {
    hide Advance, PcOk, RanksOk, ValuesOk, Shape, Extends;
    PlacePc(s, t);
    PlaceRanks(s, t);
    PlaceValues(s, t);
    PlaceShape(s, t);
  }

  lemma StoreShape(s: State, t: Tid)
    requires Ready(s, t) && (s.pcs[t].ReStore? || s.pcs[t].InStore?)
    ensures Shape(Advance(s, t)) && Extends(s, Advance(s, t), t)
  {
    var s', pc := Advance(s, t), s.pcs[t];
    assert TableOk(s, pc.m);
    WriteTable(s.tables[pc.m], s.hash, t, Set(pc.p), s'.tables[pc.m]);
    hide Limit, TableOk, Probing, TableExtends, Passed;
    ReplaceShape(s, s', t, pc.m);
    ReplaceExtends(s, s', t, pc.m);
  }

  lemma StorePc(s: State, t: Tid)
    requires Ready(s, t) && (s.pcs[t].ReStore? || s.pcs[t].InStore?)
    ensures PcOk(Advance(s, t), t, Advance(s, t).pcs[t]) && RanksOk(Advance(s, t))
    ensures ValuesOk(Advance(s, t), t, Advance(s, t).pcs[t])
  {
    hide Limit, Half, TableOk, Shape;
    var s', m := Advance(s, t), s.pcs[t].m;
    forall h | 0 <= h < |s'.tables| ensures Written(s', h, t) {
      if h != m { assert Written(s, h, t); }
    }
  }

  lemma StoreLocal(s: State, t: Tid)
    requires Ready(s, t) && (s.pcs[t].ReStore? || s.pcs[t].InStore?)
    ensures LocalOk(s, Advance(s, t), t)
  {
    hide Advance, PcOk, RanksOk, ValuesOk, Shape, Extends;
    StorePc(s, t);
    StoreShape(s, t);
  }

  // ---- runs ----

  lemma AdvanceInv(s: State, t: Tid)
    requires Inv(s) && Enabled(s, Step(t))
    ensures Inv(Advance(s, t))
  {
    hide Advance, PcOk, ValuesOk, RanksOk, TableOk, Half, Limit;
    var s', pc := Advance(s, t), s.pcs[t];
    TablesHaveSlots(s);
    match pc
    case Probe(_, h, _) => ProbeLocal(s, t); OnlyPcStep(s, s', t);
    case ReLoad(_, _, _) => WalkLocal(s, t); OnlyPcStep(s, s', t);
    case InLoad(_, _, _) => WalkLocal(s, t); OnlyPcStep(s, s', t);
    case ReCas(m, _, k) =>
      if s.tables[m].slots[Index(s.hash[t], k, |s.tables[m].slots|)].Empty? { PlaceLocal(s, t); StepFrame(s, s', t); }
      else { WalkLocal(s, t); OnlyPcStep(s, s', t); }
    case InCas(m, _, k) =>
      if s.tables[m].slots[Index(s.hash[t], k, |s.tables[m].slots|)].Empty? { PlaceLocal(s, t); StepFrame(s, s', t); }
      else { WalkLocal(s, t); OnlyPcStep(s, s', t); }
    case ReStore(_, _, _) => StoreLocal(s, t); StepFrame(s, s', t);
    case InStore(_, _, _) => StoreLocal(s, t); StepFrame(s, s', t);
    case NotFound(_) => CountLocal(s, t); StepFrame(s, s', t);
    case Check(m, n) =>
      if n >= Half(|s.tables[m].slots|) && !s.resizing { FlagLocal(s, t); StepFrame(s, s', t); }
      else { GateLocal(s, t); OnlyPcStep(s, s', t); }
    case Locked(_) => GateLocal(s, t); OnlyPcStep(s, s', t);
    case Publish(_, _) => PublishLocal(s, t); StepFrame(s, s', t);
    case Unlock(_, _) => FlagLocal(s, t); StepFrame(s, s', t);
    case Fit(m, n) =>
      if n < Limit(|s.tables[m].slots|) { CreateLocal(s, t); StepFrame(s, s', t); }
      else { GateLocal(s, t); OnlyPcStep(s, s', t); }
  }

  lemma StepInv(s: State, a: Action)
    requires Inv(s) && Enabled(s, a)
    ensures Inv(Do(s, a))
  {
    match a
    case Step(t) => AdvanceInv(s, t);
    case Call(t) =>
      hide PcOk, ValuesOk, RanksOk, TableOk;
      TablesHaveSlots(s);
      CallLocal(s, t);
      OnlyPcStep(s, Do(s, a), t);
  }

  lemma InitInv(s: State)
    requires Init(s)
    ensures Inv(s)
  {
    assert PowerOfTwo(2) && PowerOfTwo(4) && PowerOfTwo(8) && PowerOfTwo(16) && PowerOfTwo(32);
    assert TableOk(s, 0);
  }

  lemma {:induction false} ExecutionInv(run: seq<State>, i: nat)
    requires Execution(run) && i < |run|
    ensures Inv(run[i])
  {
    hide Inv, Do, Init;
    if i == 0 {
      InitInv(run[0]);
    } else {
      ExecutionInv(run, i - 1);
      assert Next(run[i - 1], run[i - 1 + 1]);
      var a: Action :| Enabled(run[i - 1], a) && run[i] == Do(run[i - 1], a);
      StepInv(run[i - 1], a);
    }
  }

  // ---- main results ----

  /** The ids in a table hold distinct counts below three quarters of its capacity, so
      there are fewer than that many of them. */
  lemma FewIds(s: State, h: nat)
    requires RanksOk(s) && h < |s.tables| && TableOk(s, h)
    ensures |s.tables[h].at| < Limit(|s.tables[h].slots|)
  {
    hide Placed, PowerOfTwo;
    var table := s.tables[h];
    var f := map id | id in table.at :: s.rank[id];
    assert f.Keys == table.at.Keys;
    InjectionSize(f, Interval(1, Limit(|table.slots|)));
  }

  /** Fewer ids than slots, and each id in one slot: some slot is empty. */
  lemma EmptySlot(table: Table, hash: map<Tid, nat>) returns (j: nat)
    requires |table.at| < |table.slots| && Probing(table, hash)
    ensures j < |table.slots| && table.slots[j].Empty?
  {
    hide Placed;
    if forall i | 0 <= i < |table.slots| :: table.slots[i].Used? {
      var g: map<nat, Tid> := map i: nat | i < |table.slots| :: table.slots[i].id;
      assert g.Keys == Interval(0, |table.slots|);
      InjectionSize(g, table.at.Keys);
      assert false;
    }
    j :| 0 <= j < |table.slots| && table.slots[j].Empty?;
  }

  lemma LimitBelow(c: nat)
    ensures Limit(c) <= c
  {
  }

  /** Linear probing reaches every slot within one round. */
  lemma FromHome(hash: nat, j: nat, c: nat) returns (i: nat)
    requires j < c
    ensures i < c && Index(hash, i, c) == j
  {
    var home := hash % c;
    i := if home <= j then j - home else j + c - home;
    var q := if home <= j then hash / c else hash / c + 1;
    assert c * (hash / c + 1) == c * (hash / c) + c;
    RemainderUnique(hash + i, q, j, c);
  }

  /** Some slot from the k-th probe on, within one round of the table, is still free. */
  ghost predicate ProbeEnds(s: State, h: nat, t: Tid, k: nat) {
    h < |s.tables| && t in s.hash && |s.tables[h].slots| > 0 &&
    exists i: nat | k <= i < |s.tables[h].slots| ::
      s.tables[h].slots[Index(s.hash[t], i, |s.tables[h].slots|)].Empty?
  }

  /** A probe that has only met taken slots meets a free one within the first round. */
  lemma ProbeBounded(s: State, h: nat, t: Tid, k: nat)
    requires RanksOk(s) && Passed(s, h, t, k) && TableOk(s, h)
    ensures ProbeEnds(s, h, t, k)
  {
    var slots, c := s.tables[h].slots, |s.tables[h].slots|;
    FewIds(s, h);
    LimitBelow(c);
    assert Probing(s.tables[h], s.hash);
    hide TableOk, RanksOk;
    var j := EmptySlot(s.tables[h], s.hash);
    var i := FromHome(s.hash[t], j, c);
    assert slots[Index(s.hash[t], i, c)].Empty?;
  }

  /** In every state of every run, the ids stored in a table of capacity C number fewer
      than 3C/4 and have distinct counts below it. */
  lemma TableLoad(run: seq<State>, i: nat, h: nat)
    requires Execution(run) && i < |run| && h < |run[i].tables|
    ensures var table := run[i].tables[h];
            && |table.at| < Limit(|table.slots|)
            && (forall id | id in table.at :: id in run[i].rank && 1 <= run[i].rank[id] < Limit(|table.slots|))
            && (forall id, id' | id in table.at && id' in table.at && id != id' :: run[i].rank[id] != run[i].rank[id'])
            && (forall j | 0 <= j < |table.slots| && table.slots[j].Used? :: table.slots[j].id in table.at)
  {
    ExecutionInv(run, i);
    assert TableOk(run[i], h);
    FewIds(run[i], h);
  }

  /** Every probe loop ends: a thread that is searching or placing always has a free slot
      ahead of it, within one round. */
  lemma ProbesEnd(run: seq<State>, i: nat, t: Tid)
    requires Execution(run) && i < |run| && t in run[i].pcs
    ensures var s, pc := run[i], run[i].pcs[t];
            && (pc.Probe? ==> ProbeEnds(s, pc.h, t, pc.k))
            && (pc.ReLoad? || pc.ReCas? || pc.InLoad? || pc.InCas? ==> ProbeEnds(s, pc.m, t, pc.k))
  {
    var s, pc := run[i], run[i].pcs[t];
    hide Execution, TableOk, Limit, Half, Registered, ValuesOk, RanksOk, ProbeEnds;
    ExecutionInv(run, i);
    assert PcOk(s, t, pc);
    if pc.Probe? { ProbeBounded(s, pc.h, t, pc.k); }
    if pc.ReLoad? || pc.ReCas? || pc.InLoad? || pc.InCas? { ProbeBounded(s, pc.m, t, pc.k); }
  }

  /** Every table and slot a thread is about to access exists: a call under way can always
      take its next step. */
  lemma NeverStuck(run: seq<State>, i: nat, t: Tid)
    requires Execution(run) && i < |run| && t in run[i].pcs && !run[i].pcs[t].Idle? && !run[i].pcs[t].Done?
    ensures Enabled(run[i], Step(t))
  {
    hide Execution, RanksOk, ValuesOk, PcOk;
    ExecutionInv(run, i);
    TablesHaveSlots(run[i]);
    CanStep(run[i], t);
  }

  lemma CanStep(s: State, t: Tid)
    requires t in s.pcs && t in s.hash && |s.tables| > 0 && NoEmptyTable(s) && PcOk(s, t, s.pcs[t])
    requires !s.pcs[t].Idle? && !s.pcs[t].Done?
    ensures Enabled(s, Step(t))
  {
    hide AbsentAbove, Registered, Limit, Half;
  }

  lemma MadeKept(s: State, a: Action, t: Tid)
    requires Inv(s) && Enabled(s, a) && t in s.made
    ensures t in Do(s, a).made && Do(s, a).made[t] == s.made[t]
  {
    hide Shape, RanksOk, ValuesOk, Passed, Limit, Half;
    assert PcOk(s, a.t, s.pcs[a.t]);
  }

  lemma {:induction false} MadeStable(run: seq<State>, i: nat, j: nat, t: Tid)
    requires Execution(run) && i <= j < |run| && t in run[i].made
    ensures t in run[j].made && run[j].made[t] == run[i].made[t]
    decreases j
  {
    hide Inv, Do, Init;
    if i < j {
      MadeStable(run, i, j - 1, t);
      ExecutionInv(run, j - 1);
      assert Next(run[j - 1], run[j - 1 + 1]);
      var a: Action :| Enabled(run[j - 1], a) && run[j] == Do(run[j - 1], a);
      MadeKept(run[j - 1], a, t);
    }
  }

  /** Whatever the interleaving and however many resizes happen between, two calls of one
      thread return the same producer and calls of two threads return different ones. */
  lemma OneProducerPerThread(run: seq<State>, i: nat, t: Tid, j: nat, u: Tid)
    requires Execution(run) && i <= j < |run|
    requires t in run[i].pcs && run[i].pcs[t].Done? && u in run[j].pcs && run[j].pcs[u].Done?
    ensures run[i].pcs[t].p == run[j].pcs[u].p <==> t == u
  {
    hide Execution, Shape, ValuesOk;
    ExecutionInv(run, i);
    ExecutionInv(run, j);
    assert PcOk(run[i], t, run[i].pcs[t]) && PcOk(run[j], u, run[j].pcs[u]);
    MadeStable(run, i, j, t);
  }

  /** The thread's id is in the newest table the call loaded. */
  ghost predicate InMain(s: State, pc: Pc, t: Tid) {
    (pc.Probe? || pc.ReStore? || pc.InStore?) && pc.m < |s.tables| && t in s.tables[pc.m].at
  }

  /** The next step of thread t ends its call. */
  ghost predicate Ends(s: State, t: Tid)
    requires Enabled(s, Step(t))
  {
    var s' := Advance(s, t);
    t in s'.pcs && s'.pcs[t].Done?
  }

  lemma ProbeEndsIn(s: State, t: Tid)
    requires Enabled(s, Step(t)) && s.pcs[t].Probe? && PcOk(s, t, s.pcs[t]) && TableOk(s, s.pcs[t].h)
    ensures Ends(s, t) ==> InMain(Advance(s, t), s.pcs[t], t)
  {
    ProbeMeets(s, s.pcs[t].h, t, s.pcs[t].k);
    hide TableOk, PcOk, Index;
  }

  lemma StoreEndsIn(s: State, t: Tid)
    requires Enabled(s, Step(t)) && (s.pcs[t].ReStore? || s.pcs[t].InStore?) && PcOk(s, t, s.pcs[t])
    ensures InMain(Advance(s, t), s.pcs[t], t)
  {
    hide Index, Registered;
  }

  lemma LoadEndsNot(s: State, t: Tid)
    requires Enabled(s, Step(t)) && (s.pcs[t].ReLoad? || s.pcs[t].InLoad?)
    ensures !Ends(s, t)
  {
    hide Index;
  }

  lemma CasEndsNot(s: State, t: Tid)
    requires Enabled(s, Step(t)) && (s.pcs[t].ReCas? || s.pcs[t].InCas?)
    ensures !Ends(s, t)
  {
    hide Index;
  }

  lemma GateEndsNot(s: State, t: Tid)
    requires Enabled(s, Step(t)) && (s.pcs[t].NotFound? || s.pcs[t].Check? || s.pcs[t].Fit?)
    ensures !Ends(s, t)
  {
    hide Limit, Half;
  }

  lemma LockEndsNot(s: State, t: Tid)
    requires Enabled(s, Step(t)) && HoldsFlag(s.pcs[t])
    ensures !Ends(s, t)
  {
    hide Half, Grown, NewTable;
  }

  /** In every run, the step that ends a call leaves the thread's id in the newest table the call
      loaded: an id found in an older table only has been put there first. */
  lemma EndsInMain(run: seq<State>, i: nat, t: Tid)
    requires Execution(run) && i < |run| && Enabled(run[i], Step(t)) && Ends(run[i], t)
    ensures InMain(Advance(run[i], t), run[i].pcs[t], t)
  {
    hide Execution, PcOk, TableOk, RanksOk, ValuesOk, Advance, InMain, Ends;
    ExecutionInv(run, i);
    var s, pc := run[i], run[i].pcs[t];
    if pc.Probe? { ProbeEndsIn(s, t); }
    else if pc.ReStore? || pc.InStore? { StoreEndsIn(s, t); }
    else if pc.ReLoad? || pc.InLoad? { LoadEndsNot(s, t); }
    else if pc.ReCas? || pc.InCas? { CasEndsNot(s, t); }
    else if HoldsFlag(pc) { LockEndsNot(s, t); }
    else { GateEndsNot(s, t); }
  }

  lemma InsertSize<V>(m: map<Tid, V>, t: Tid, v: V)
    requires t !in m
    ensures |m[t := v]| == |m| + 1
  {
    assert m[t := v].Keys == m.Keys + {t};
    assert |m[t := v]| == |m[t := v].Keys| && |m| == |m.Keys|;
  }

  ghost predicate SameCounts(s: State, s': State) {
    s'.count == s.count && s'.rank == s.rank && s'.created == s.created && s'.made == s.made
  }

  predicate AtGate(pc: Pc) {
    pc.NotFound? || pc.Check? || pc.Locked? || pc.Publish? || pc.Unlock? || pc.Fit?
  }

  lemma ProbeCounts(s: State, t: Tid)
    requires Enabled(s, Step(t)) && (s.pcs[t].Probe? || s.pcs[t].ReLoad? || s.pcs[t].InLoad?)
    ensures SameCounts(s, Advance(s, t))
  {
    hide Index;
  }

  lemma CasCounts(s: State, t: Tid)
    requires Enabled(s, Step(t)) && (s.pcs[t].ReCas? || s.pcs[t].InCas?)
    ensures SameCounts(s, Advance(s, t))
  {
    hide Index;
  }

  lemma StoreCounts(s: State, t: Tid)
    requires Enabled(s, Step(t)) && (s.pcs[t].ReStore? || s.pcs[t].InStore?)
    ensures SameCounts(s, Advance(s, t))
  {
    hide Index;
  }

  lemma GateCounts(s: State, t: Tid)
    requires Enabled(s, Step(t)) && AtGate(s.pcs[t]) && PcOk(s, t, s.pcs[t])
    requires s.count == |s.rank| && s.created == |s.made|
    ensures Advance(s, t).count == |Advance(s, t).rank| && Advance(s, t).created == |Advance(s, t).made|
  {
    hide Limit, Half, Grown, NewTable, Registered, Passed;
    if s.pcs[t].NotFound? { InsertSize(s.rank, t, s.count + 1); }
    if s.pcs[t].Fit? { InsertSize(s.made, t, s.created); }
  }

  lemma CountsStep(s: State, a: Action)
    requires Inv(s) && Enabled(s, a) && s.count == |s.rank| && s.created == |s.made|
    ensures Do(s, a).count == |Do(s, a).rank| && Do(s, a).created == |Do(s, a).made|
  {
    hide Shape, RanksOk, ValuesOk, PcOk, Advance;
    if a.Step? {
      var pc := s.pcs[a.t];
      if AtGate(pc) { GateCounts(s, a.t); }
      else if pc.ReCas? || pc.InCas? { CasCounts(s, a.t); }
      else if pc.ReStore? || pc.InStore? { StoreCounts(s, a.t); }
      else { ProbeCounts(s, a.t); }
    }
  }

  lemma InitCounts(s: State)
    requires Init(s)
    ensures s.count == |s.rank| && s.created == |s.made|
  {
  }

  /** The count is the number of threads that were not found, and as many producers have been
      made as there are threads that have one. */
  lemma {:induction false} CountsThreads(run: seq<State>, i: nat)
    requires Execution(run) && i < |run|
    ensures run[i].count == |run[i].rank| && run[i].created == |run[i].made|
  {
    hide Inv, Do, Init, Enabled;
    if i == 0 {
      InitCounts(run[0]);
    } else {
      CountsThreads(run, i - 1);
      ExecutionInv(run, i - 1);
      assert Next(run[i - 1], run[i - 1 + 1]);
      var a: Action :| Enabled(run[i - 1], a) && run[i] == Do(run[i - 1], a);
      CountsStep(run[i - 1], a);
    }
  }

  // ---- one thread alone ----

  /** No other thread is resizing. */
  predicate Free(s: State, t: Tid) { s.resizing ==> s.holder == t }

  /** Thread t takes up to k steps, until its call has ended; nobody else moves. */
  ghost function Alone(s: State, t: Tid, k: nat): State
    requires t in s.pcs
    decreases k
  {
    if k == 0 || !Enabled(s, Step(t)) then s
    else var s' := Advance(s, t); if t in s'.pcs then Alone(s', t, k - 1) else s'
  }

  /** How far a call still has to go: the stages ahead of it, the older tables it has yet to
      search, and the slots ahead of it in the table it is in. */
  function Stage(s: State, pc: Pc): nat {
    match pc
    case Idle => 0
    case Done(_) => 0
    case Probe(_, _, _) => 11
    case NotFound(_) => 10
    case Unlock(m, n) => if m < |s.tables| && n < Limit(|s.tables[m].slots|) then 4 else 9
    case Fit(m, n) => if m < |s.tables| && n < Limit(|s.tables[m].slots|) then 3 else 8
    case Check(_, _) => 7
    case Locked(_) => 6
    case Publish(_, _) => 5
    case ReStore(_, _, _) => 1
    case InStore(_, _, _) => 1
    case _ => 2
  }

  function Older(pc: Pc): nat { if pc.Probe? then pc.h else 0 }

  function Ahead(s: State, pc: Pc): nat {
    match pc
    case Probe(_, h, k) => if h < |s.tables| && k < |s.tables[h].slots| then |s.tables[h].slots| - k else 0
    case ReLoad(m, _, k) => if m < |s.tables| && k < |s.tables[m].slots| then |s.tables[m].slots| - k else 0
    case ReCas(m, _, k) => if m < |s.tables| && k < |s.tables[m].slots| then |s.tables[m].slots| - k else 0
    case InLoad(m, _, k) => if m < |s.tables| && k < |s.tables[m].slots| then |s.tables[m].slots| - k else 0
    case InCas(m, _, k) => if m < |s.tables| && k < |s.tables[m].slots| then |s.tables[m].slots| - k else 0
    case _ => 0
  }

  function Turn(pc: Pc): nat { if pc.ReLoad? || pc.InLoad? then 1 else 0 }

  ghost predicate Closer(s: State, pc: Pc, s': State, pc': Pc) {
    || Stage(s', pc') < Stage(s, pc)
    || (Stage(s', pc') == Stage(s, pc) &&
        (|| Older(pc') < Older(pc)
         || (Older(pc') == Older(pc) &&
             (|| Ahead(s', pc') < Ahead(s, pc)
              || (Ahead(s', pc') == Ahead(s, pc) && Turn(pc') < Turn(pc))))))
  }

  /** A step that brings a call nearer to its end and lets nobody else resize. */
  ghost predicate Nearer(s: State, t: Tid)
    requires Enabled(s, Step(t))
  {
    var s' := Advance(s, t);
    t in s'.pcs && !s'.pcs[t].Idle? && Free(s', t) && Closer(s, s.pcs[t], s', s'.pcs[t])
  }

  lemma ProbeCloser(s: State, t: Tid)
    requires Free(s, t) && Enabled(s, Step(t)) && s.pcs[t].Probe? && s.pcs[t].k < |s.tables[s.pcs[t].h].slots|
    ensures Nearer(s, t)
  {
    hide Index;
  }

  lemma LoadCloser(s: State, t: Tid)
    requires Free(s, t) && Enabled(s, Step(t)) && (s.pcs[t].ReLoad? || s.pcs[t].InLoad?)
    requires s.pcs[t].k < |s.tables[s.pcs[t].m].slots|
    ensures Nearer(s, t)
  {
    hide Index;
  }

  lemma RetryCloser(s: State, t: Tid)
    requires Free(s, t) && Enabled(s, Step(t)) && (s.pcs[t].ReCas? || s.pcs[t].InCas?) && Walks(s, t)
    requires s.pcs[t].k < |s.tables[s.pcs[t].m].slots|
    ensures Nearer(s, t)
  {
    hide Index;
  }

  lemma PlaceCloser(s: State, t: Tid)
    requires Free(s, t) && Enabled(s, Step(t)) && (s.pcs[t].ReCas? || s.pcs[t].InCas?) && !Walks(s, t)
    ensures Nearer(s, t)
  {
    hide Index;
  }

  lemma HalfBelow(c: nat)
    ensures Half(c) <= Limit(c)
  {
  }

  /** A thread that the flag does not keep out grows the table at most once. */
  lemma CheckCloser(s: State, t: Tid)
    requires Enabled(s, Step(t)) && Free(s, t) && (HoldsFlag(s.pcs[t]) <==> s.resizing && s.holder == t)
    requires s.pcs[t].Check? || s.pcs[t].Fit?
    ensures Nearer(s, t)
  {
    hide Limit, Half;
    if s.pcs[t].Check? { HalfBelow(|s.tables[s.pcs[t].m].slots|); }
  }

  lemma FlagCloser(s: State, t: Tid)
    requires Enabled(s, Step(t)) && Free(s, t) && (s.pcs[t].Locked? || s.pcs[t].Unlock?)
    ensures Nearer(s, t)
  {
    hide Limit, Half;
    if s.pcs[t].Locked? { HalfBelow(|s.tables[|s.tables| - 1].slots|); }
  }

  lemma PublishCloser(s: State, t: Tid)
    requires Free(s, t) && Enabled(s, Step(t)) && s.pcs[t].Publish?
    ensures Nearer(s, t)
  {
    hide Limit;
    var c := Grown(2 * |s.tables[s.pcs[t].m].slots|, s.pcs[t].n);
    HalfBelow(c);
    assert Advance(s, t).tables[|s.tables|] == NewTable(c);
  }

  lemma OtherCloser(s: State, t: Tid)
    requires Free(s, t) && Enabled(s, Step(t)) && (s.pcs[t].NotFound? || s.pcs[t].ReStore? || s.pcs[t].InStore?)
    ensures Nearer(s, t)
  {
    hide Index;
  }

  lemma StepCloser(s: State, t: Tid)
    requires Inv(s) && Enabled(s, Step(t)) && Free(s, t)
    ensures Nearer(s, t)
  {
    hide Nearer, Advance, TableOk, RanksOk, ValuesOk, Registered, AbsentAbove, Limit, Half;
    var pc := s.pcs[t];
    assert PcOk(s, t, pc);
    if pc.Probe? {
      ProbeBounded(s, pc.h, t, pc.k);
      ProbeCloser(s, t);
    } else if pc.ReLoad? || pc.ReCas? || pc.InLoad? || pc.InCas? {
      ProbeBounded(s, pc.m, t, pc.k);
      if pc.ReLoad? || pc.InLoad? { LoadCloser(s, t); }
      else if Walks(s, t) { RetryCloser(s, t); }
      else { PlaceCloser(s, t); }
    } else if pc.Publish? {
      PublishCloser(s, t);
    } else if pc.Check? || pc.Fit? {
      CheckCloser(s, t);
    } else if pc.Locked? || pc.Unlock? {
      FlagCloser(s, t);
    } else {
      OtherCloser(s, t);
    }
  }

  lemma {:induction false} FinishesAlone(s: State, t: Tid) returns (k: nat)
    requires Inv(s) && t in s.pcs && !s.pcs[t].Idle? && Free(s, t)
    ensures t in Alone(s, t, k).pcs && Alone(s, t, k).pcs[t].Done? && Inv(Alone(s, t, k))
    decreases Stage(s, s.pcs[t]), Older(s.pcs[t]), Ahead(s, s.pcs[t]), Turn(s.pcs[t])
  {
    hide Inv, Advance, Stage, Older, Ahead, Turn, Free;
    if s.pcs[t].Done? {
      k := 0;
    } else {
      assert Enabled(s, Step(t)) by { InvCanStep(s, t); }
      var s' := Advance(s, t);
      StepCloser(s, t);
      AdvanceInv(s, t);
      k := FinishesAlone(s', t);
      k := k + 1;
    }
  }

  lemma InvCanStep(s: State, t: Tid)
    requires Inv(s) && t in s.pcs && !s.pcs[t].Idle? && !s.pcs[t].Done?
    ensures Enabled(s, Step(t))
  {
    hide RanksOk, ValuesOk, PcOk;
    TablesHaveSlots(s);
    CanStep(s, t);
  }

  /** From every reachable state, whatever the other threads are in the middle of, a call that
      goes on alone ends with the thread's producer, as long as no other thread is resizing. */
  lemma CallEnds(run: seq<State>, i: nat, t: Tid) returns (k: nat)
    requires Execution(run) && i < |run| && t in run[i].pcs && !run[i].pcs[t].Idle? && Free(run[i], t)
    ensures var s' := Alone(run[i], t, k);
            t in s'.pcs && t in s'.made && s'.pcs[t] == Done(s'.made[t])
  {
    hide Execution, Shape, ValuesOk, RanksOk, Free;
    ExecutionInv(run, i);
    k := FinishesAlone(run[i], t);
    var s' := Alone(run[i], t, k);
    assert PcOk(s', t, s'.pcs[t]);
  }

  /** A call that needs a bigger table while another thread is resizing waits for it: alone it
      goes round for ever. */
  lemma {:induction false} WaitsForResize(s: State, t: Tid, k: nat)
    requires t in s.pcs && t in s.hash && s.resizing && s.holder != t && |s.tables| > 0
    requires var last := |s.tables| - 1;
             && |s.tables[last].slots| > 0 && (s.pcs[t].Check? || s.pcs[t].Fit?)
             && s.pcs[t].m == last && s.pcs[t].n >= Limit(|s.tables[last].slots|)
    ensures t in Alone(s, t, k).pcs && (Alone(s, t, k).pcs[t].Check? || Alone(s, t, k).pcs[t].Fit?)
    decreases k
  {
    hide Limit, Half;
    if k > 0 { WaitsForResize(Advance(s, t), t, k - 1); }
  }
}
