/**
  The block index of an implicit producer: a ring of entries that maps the base index of
  every live block to the block.  One producer inserts, rewinds and doubles the ring while
  any number of dequeuers look blocks up through a header they loaded earlier and empty
  blocks in any order.  Every load and store of a shared word is a step of its own.
 */
module BlockIndex {
  import opened Basics
  import opened Counting
  import opened BlockRing
  import opened Modular

  type Tid = nat
  type Block = nat

  datatype Value = Junk | Null | Ptr(block: Block)

  /** `owner` is history: the number of the block whose base was last stored, or -1. */
  datatype Entry = Entry(key: nat, value: Value, owner: int)

  /** Where the producer stands: inserting the block numbered `next`, or taking back the
      blocks it inserted since its last publication. */
  datatype Producer =
    | Idle
    | Growing
    | Keying(e: nat)
    | Tailing(e: nat)
    | Valuing(e: nat)
    | Rewinding(e: nat)
    | Nulling(e: nat)
    | Undo(u: int, m: int)
    | UndoTail(u: int, m: int)

  /** Where a dequeuer of the elements [i, end) stands.  The `k` of GotTail is history:
      the block that was in the slot when the tail was loaded. */
  datatype Reader =
    | Resting
    | Claimed(i: nat, end: nat)
    | GotHeader(i: nat, end: nat, h: nat)
    | GotTail(i: nat, end: nat, h: nat, tail: nat, k: int)
    | AtSlot(i: nat, end: nat, h: nat, idx: nat)
    | Holding(i: nat, end: nat, h: nat, idx: nat, block: Block)
    | Freeing(b: int, i: nat, end: nat, h: nat, idx: nat)

  /** headIndex and tailIndex are `head` and `tail`; `done` holds each block's count of
      completely dequeued elements.  `next`, `lo` and `live` are history: the number of
      the next block to insert, the lowest block keyed in the current ring, and the blocks
      the index stands for. */
  datatype State = State(
    entries: seq<Entry>, headers: seq<Header>, head: nat, tail: nat, done: map<int, nat>,
    producer: Producer, readers: map<Tid, Reader>,
    next: int, lo: int, live: map<int, Block>)

  datatype Action =
    | Decide | Grow(ok: bool) | StoreKey | StoreTail | Take(block: Block) | Fail
    | Rewind | StoreNull | Abort | UndoStep | Publish(n: nat)
    | Claim(t: Tid, n: nat) | Step(t: Tid)

  // ---- the protocol ----

  /** How many blocks lie below the tailIndex. */
  function Blocks(tail: nat): int { (tail + BLOCK_SIZE - 1) / BLOCK_SIZE }

  function FreshEntries(n: nat): (r: seq<Entry>)
    ensures |r| == n && forall i | 0 <= i < n :: r[i] == Entry(INVALID_BLOCK_BASE, Junk, -1)
  {
    seq(n, _ => Entry(INVALID_BLOCK_BASE, Junk, -1))
  }

  predicate Init(s: State) {
    && s.entries == FreshEntries(INITIAL_INDEX_SIZE)
    && s.headers == [Header(seq(INITIAL_INDEX_SIZE, i => i), INITIAL_INDEX_SIZE - 1, 0, 0, -1)]
    && s.head == 0 && s.tail == 0 && s.done == map[]
    && s.producer == Idle && (forall t | t in s.readers :: s.readers[t] == Resting)
    && s.next == 0 && s.lo == 0 && s.live == map[]
  }

  function Cur(s: State): Header
    requires |s.headers| > 0
  {
    s.headers[|s.headers| - 1]
  }

  function SetCur(s: State, h: Header): State
    requires |s.headers| > 0
  {
    s.(headers := s.headers[|s.headers| - 1 := h])
  }

  /** One past the last index of [i, end) in i's block. */
  function Stop(i: nat, end: nat): nat { Min(end, BLOCK_SIZE * (i / BLOCK_SIZE + 1)) }

  function Free(e: Entry): bool { e.key == INVALID_BLOCK_BASE || e.value == Null }

  predicate HeadersInRange(s: State) {
    && |s.headers| > 0
    && forall h | 0 <= h < |s.headers| :: HeaderInRange(s, h)
  }

  predicate HeaderInRange(s: State, h: nat)
    requires h < |s.headers|
  {
    var hd := s.headers[h];
    |hd.index| > 0 && 0 <= hd.tail < |hd.index| && forall i | 0 <= i < |hd.index| :: 0 <= hd.index[i] < |s.entries|
  }

  predicate Enabled(s: State, a: Action) {
    HeadersInRange(s) &&
    match a
    case Decide => s.producer.Idle?
    case Grow(_) => s.producer.Growing?
    case StoreKey => s.producer.Keying? && s.producer.e < |s.entries|
    case StoreTail => s.producer.Tailing?
    case Take(_) => s.producer.Valuing? && s.producer.e < |s.entries|
    case Fail => s.producer.Valuing?
    case Rewind => s.producer.Rewinding? || s.producer.UndoTail?
    case StoreNull => s.producer.Nulling? && s.producer.e < |s.entries|
    case Abort => s.producer.Idle?
    case UndoStep => s.producer.Undo?
    case Publish(n) => s.producer.Idle? && s.tail <= n && Blocks(n) == s.next
    case Claim(t, n) => t in s.readers && s.readers[t].Resting? && 0 < n && s.head + n <= s.tail
    case Step(t) => t in s.readers && ReaderInRange(s, s.readers[t])
  }

  predicate ReaderInRange(s: State, pc: Reader) {
    match pc
    case Resting => false
    case Claimed(_, _) => true
    case GotHeader(_, _, h) => h < |s.headers|
    case GotTail(_, _, h, tail, _) => h < |s.headers| && tail < |s.headers[h].index|
    case AtSlot(_, _, h, idx) => h < |s.headers| && idx < |s.headers[h].index|
    case Holding(i, end, h, idx, _) =>
      h < |s.headers| && idx < |s.headers[h].index| && i < end && i / BLOCK_SIZE in s.done
    case Freeing(_, _, _, h, idx) => h < |s.headers| && idx < |s.headers[h].index|
  }

  function StartUndo(s: State): State {
    s.(next := Blocks(s.tail), producer := Undo(Blocks(s.tail), s.next))
  }

  function Do(s: State, a: Action): State
    requires Enabled(s, a)
  {
    assert HeaderInRange(s, |s.headers| - 1);
    match a
    case Decide =>
      var e := Cur(s).index[NewTail(Cur(s))];
      s.(producer := if Free(s.entries[e]) then Keying(e) else Growing)
    case Grow(ok) =>
      var h := Cur(s);
      if ok && 2 * |h.index| <= BASES then
        var h' := Bigger(h, |s.entries|, s.next);
        s.(entries := s.entries + FreshEntries(|h.index|), headers := s.headers + [h'],
           lo := h.high - |h.index|, producer := Keying(h'.index[NewTail(h')]))
      else StartUndo(s)
    case StoreKey =>
      var e := s.producer.e;
      SetCur(s, Cur(s).(high := if s.next < Cur(s).high then Cur(s).high else s.next + 1))
      .(entries := s.entries[e := s.entries[e].(key := Key(s.next), owner := s.next)], producer := Tailing(e))
    case StoreTail =>
      SetCur(s, Cur(s).(tail := NewTail(Cur(s)), top := s.next)).(producer := Valuing(s.producer.e))
    case Take(block) =>
      var e := s.producer.e;
      s.(entries := s.entries[e := s.entries[e].(value := Ptr(block))], live := s.live[s.next := block],
         done := s.done[s.next := 0], next := s.next + 1, producer := Idle)
    case Fail => s.(producer := Rewinding(s.producer.e))
    case Rewind =>
      var h := Cur(s);
      var s' := SetCur(s, h.(tail := (h.tail - 1) % |h.index|, top := h.top - 1));
      (match s.producer
       case Rewinding(e) => s'.(producer := Nulling(e))
       case UndoTail(u, m) => s'.(producer := Undo(u + 1, m)))
    case StoreNull =>
      var e := s.producer.e;
      StartUndo(s.(entries := s.entries[e := s.entries[e].(value := Null)]))
    case Abort => StartUndo(s)
    case UndoStep =>
      var u := s.producer.u;
      if u >= s.producer.m then s.(producer := Idle)
      else
        var e := Find(s, Key(u));
        s.(entries := s.entries[e := s.entries[e].(value := Null)], live := s.live - {u},
        producer := UndoTail(u, s.producer.m))
    case Publish(n) => s.(tail := n)
    case Claim(t, n) => s.(head := s.head + n, readers := s.readers[t := Claimed(s.head, s.head + n)])
    case Step(t) => StepReader(s, t)
  }

  /** The whole lookup, as the producer runs it: nothing it reads changes meanwhile. */
  function Find(s: State, base: nat): (e: nat)
    requires HeadersInRange(s)
    ensures e < |s.entries|
  {
    var h := Cur(s);
    assert HeaderInRange(s, |s.headers| - 1);
    h.index[SlotFor(h, h.tail, s.entries[h.index[h.tail]].key, base)]
  }

  function StepReader(s: State, t: Tid): State
    requires HeadersInRange(s) && t in s.readers && ReaderInRange(s, s.readers[t])
  {
    match s.readers[t]
    case Claimed(i, end) => s.(readers := s.readers[t := GotHeader(i, end, |s.headers| - 1)])
    case GotHeader(i, end, h) =>
      s.(readers := s.readers[t := GotTail(i, end, h, s.headers[h].tail, s.headers[h].top)])
    case GotTail(i, end, h, tail, _) =>
      assert HeaderInRange(s, h);
      var tailBase := s.entries[s.headers[h].index[tail]].key;
      s.(readers := s.readers[t := AtSlot(i, end, h, SlotFor(s.headers[h], tail, tailBase, Key(i / BLOCK_SIZE)))])
    case AtSlot(i, end, h, idx) =>
      assert HeaderInRange(s, h);
      var value := s.entries[s.headers[h].index[idx]].value;
      s.(readers := s.readers[t := Holding(i, end, h, idx, if value.Ptr? then value.block else 0)])
    case Holding(i, end, h, idx, _) =>
      var b, stop := i / BLOCK_SIZE, Stop(i, end);
      var n: int := s.done[b] + (stop - i);
      s.(done := s.done[b := if n < 0 then 0 else n],
         readers := s.readers[t := if n == BLOCK_SIZE then Freeing(b, stop, end, h, idx)
                                   else Onward(s, stop, end, h, idx)])
    case Freeing(b, i, end, h, idx) =>
      assert HeaderInRange(s, h);
      var e := s.headers[h].index[idx];
      s.(entries := s.entries[e := s.entries[e].(value := Null)], live := s.live - {b},
         readers := s.readers[t := Onward(s, i, end, h, idx)])
  }

  /** A bulk dequeue goes on to the next slot of the header it loaded. */
  function Onward(s: State, i: nat, end: nat, h: nat, idx: nat): Reader
    requires h < |s.headers| && idx < |s.headers[h].index|
  {
    if i == end then Resting else AtSlot(i, end, h, (idx + 1) % |s.headers[h].index|)
  }

  ghost predicate Next(s: State, s': State) {
    exists a: Action :: Enabled(s, a) && s' == Do(s, a)
  }

  ghost predicate Execution(run: seq<State>) {
    && |run| > 0
    && Init(run[0])
    && forall i | 0 <= i < |run| - 1 :: Next(run[i], run[i + 1])
  }

  // ---- the invariant ----

  ghost predicate HeaderOk(s: State, h: nat)
    requires h < |s.headers|
  {
    var hd := s.headers[h];
    && PowerOfTwo(|hd.index|) && |hd.index| <= BASES
    && hd.tail == Slot(hd, hd.top) && hd.top < hd.high <= Cur(s).high
    && HeaderInRange(s, h)
    && Distinct(hd.index)
  }

  /** The blocks whose keys the current ring holds. */
  ghost predicate InWindow(s: State, j: int)
    requires |s.headers| > 0
  {
    Cur(s).high - |Cur(s).index| <= j < Cur(s).high
  }

  /** The entry the current ring keeps block j in. */
  ghost function At(s: State, j: int): (e: nat)
    requires HeadersInRange(s)
    ensures e < |s.entries|
  {
    assert HeaderInRange(s, |s.headers| - 1);
    Cur(s).index[Slot(Cur(s), j)]
  }

  /** An older header still leads to the entries of the blocks it held. */
  ghost predicate Agrees(s: State, h: nat)
    requires h < |s.headers| && HeadersInRange(s)
  {
    var hd := s.headers[h];
    forall j | hd.high - |hd.index| <= j < hd.high && Cur(s).high - |Cur(s).index| <= j && s.lo <= j ::
      |hd.index| > 0 && hd.index[Slot(hd, j)] == At(s, j)
  }

  ghost predicate HeadersOk(s: State) {
    && HeadersInRange(s)
    && (forall h | 0 <= h < |s.headers| :: HeaderOk(s, h))
    && (forall h | 0 <= h < |s.headers| :: Agrees(s, h))
  }

  ghost predicate KeysOk(s: State) {
    forall e | 0 <= e < |s.entries| ::
      s.entries[e].key == if s.entries[e].owner == -1 then INVALID_BLOCK_BASE else Key(s.entries[e].owner)
  }

  ghost predicate OwnersOk(s: State)
    requires HeadersInRange(s)
  {
    forall j | InWindow(s, j) :: s.entries[At(s, j)].owner == if j >= s.lo then j else -1
  }

  /** The block whose entry is keyed but not yet given a value. */
  ghost predicate Mid(s: State, j: int) {
    j == s.next && (s.producer.Tailing? || s.producer.Valuing? || s.producer.Rewinding? || s.producer.Nulling?)
  }

  ghost predicate ValuesOk(s: State)
    requires HeadersInRange(s)
  {
    forall j | InWindow(s, j) && j >= s.lo && !Mid(s, j) ::
      s.entries[At(s, j)].value == if j in s.live then Ptr(s.live[j]) else Null
  }

  ghost predicate LiveOk(s: State)
    requires |s.headers| > 0
  {
    forall j | j in s.live :: InWindow(s, j) && s.lo <= j
  }

  ghost predicate Ring(s: State) {
    HeadersOk(s) && KeysOk(s) && OwnersOk(s) && ValuesOk(s) && LiveOk(s) && 0 <= s.lo
  }

  /** The uncommitted blocks are exactly those from the published tail up to `next`. */
  ghost predicate Settled(s: State)
    requires |s.headers| > 0
  {
    && Blocks(s.tail) <= s.next <= Cur(s).high
    && (forall j | Blocks(s.tail) <= j < s.next :: j in s.live)
    && (forall j | s.next <= j < Cur(s).high :: j !in s.live)
  }

  ghost predicate UndoOk(s: State, u: int, m: int, from: int)
    requires |s.headers| > 0
  {
    && s.next == Blocks(s.tail) <= u <= m <= Cur(s).high && Cur(s).top == m - 1 - (u - s.next)
    && forall j | s.next <= j < Cur(s).high :: j in s.live <==> from <= j < m
  }

  ghost predicate ProducerOk(s: State)
    requires HeadersInRange(s)
  {
    var cur := Cur(s);
    && s.lo <= Blocks(s.tail) && cur.high - |cur.index| <= Blocks(s.tail)
    && match s.producer
       case Idle => Settled(s) && cur.top == s.next - 1
       case Growing => Settled(s) && cur.top == s.next - 1 && s.next == cur.high && s.lo <= cur.high - |cur.index|
       case Keying(e) =>
         Settled(s) && cur.top == s.next - 1 && e == At(s, s.next) &&
           (s.next == cur.high ==> cur.high - |cur.index| !in s.live)
       case Tailing(e) => Settled(s) && cur.top == s.next - 1 && e == At(s, s.next) && s.next < cur.high
       case Valuing(e) => Settled(s) && cur.top == s.next && e == At(s, s.next) && s.next < cur.high
       case Rewinding(e) => Settled(s) && cur.top == s.next && e == At(s, s.next) && s.next < cur.high
       case Nulling(e) => Settled(s) && cur.top == s.next - 1 && e == At(s, s.next) && s.next < cur.high
       case Undo(u, m) => UndoOk(s, u, m, u)
       case UndoTail(u, m) => u < m && UndoOk(s, u, m, u + 1)
  }

  /** How many elements of block b a dequeuer has claimed and not yet finished. */
  function Pending(pc: Reader, b: int): (n: int)
    ensures n >= 0
  {
    if pc.Resting? then 0
    else
      var from := if pc.i < BLOCK_SIZE * b then BLOCK_SIZE * b else pc.i;
      var to := if pc.end < BLOCK_SIZE * (b + 1) then pc.end else BLOCK_SIZE * (b + 1);
      if from < to then to - from else 0
  }

  ghost function Weight(b: int): Reader -> int { pc => Pending(pc, b) }

  /** How many elements of block b lie below the headIndex. */
  function Claims(head: nat, b: int): int {
    if head <= BLOCK_SIZE * b then 0 else if head >= BLOCK_SIZE * (b + 1) then BLOCK_SIZE else head - BLOCK_SIZE * b
  }

  ghost predicate BlockCount(s: State, b: int) {
    b in s.done && s.done[b] + Tally(s.readers, Weight(b)) == Claims(s.head, b) &&
      (b in s.live || s.done[b] == BLOCK_SIZE)
  }

  ghost predicate CountsOk(s: State) {
    && s.head <= s.tail
    && (forall b | 0 <= b < Blocks(s.tail) :: BlockCount(s, b))
    && (forall b | Blocks(s.tail) <= b < s.next :: b in s.done && s.done[b] == 0)
  }

  ghost predicate ReaderOk(s: State, pc: Reader)
    requires |s.headers| > 0
  {
    pc.Resting? || (
      && pc.i <= pc.end <= s.head
      && (!pc.Freeing? ==> pc.i < pc.end)
      && (!pc.Claimed? ==>
           && pc.h < |s.headers| && |s.headers[pc.h].index| > 0
           && (pc.i < pc.end ==> (pc.end - 1) / BLOCK_SIZE < s.headers[pc.h].high))
      && match pc
         case Claimed(_, _) => true
         case GotHeader(i, end, h) =>
           s.headers[h].high - |s.headers[h].index| <= i / BLOCK_SIZE && (end - 1) / BLOCK_SIZE <= s.headers[h].top
         case GotTail(i, end, h, tail, k) =>
           && s.headers[h].high - |s.headers[h].index| <= i / BLOCK_SIZE &&
             (end - 1) / BLOCK_SIZE <= k < s.headers[h].high
           && tail == Slot(s.headers[h], k)
         case AtSlot(i, end, h, idx) =>
           s.headers[h].high - |s.headers[h].index| <= i / BLOCK_SIZE && idx == Slot(s.headers[h], i / BLOCK_SIZE)
         case Holding(i, end, h, idx, block) =>
           && s.headers[h].high - |s.headers[h].index| <= i / BLOCK_SIZE && idx == Slot(s.headers[h], i / BLOCK_SIZE)
           && i / BLOCK_SIZE in s.live && block == s.live[i / BLOCK_SIZE]
         case Freeing(b, i, end, h, idx) =>
           && 0 <= b < Blocks(s.tail) && b in s.live && b in s.done && s.done[b] == BLOCK_SIZE
           && s.headers[h].high - |s.headers[h].index| <= b < s.headers[h].high && idx == Slot(s.headers[h], b)
           && (i < end ==> i == BLOCK_SIZE * (b + 1)))
  }

  ghost predicate ReadersOk(s: State)
    requires |s.headers| > 0
  {
    && (forall t | t in s.readers :: ReaderOk(s, s.readers[t]))
    && (forall t, u | t in s.readers && u in s.readers && s.readers[t].Freeing? && s.readers[u].Freeing? && t != u ::
         s.readers[t].b != s.readers[u].b)
  }

  ghost predicate Inv(s: State) {
    Ring(s) && ProducerOk(s) && CountsOk(s) && ReadersOk(s)
  }

  lemma InitInv(s: State)
    requires Init(s)
    ensures Inv(s)
  {
    assert PowerOfTwo(2) && PowerOfTwo(4) && PowerOfTwo(8) && PowerOfTwo(16) && PowerOfTwo(32);
    assert HeaderInRange(s, 0) && HeaderOk(s, 0) && Agrees(s, 0);
  }

  // ---- dequeuers ----

  lemma RingFrame(s: State, s': State)
    requires Ring(s) && s'.entries == s.entries && s'.headers == s.headers && s'.live == s.live && s'.lo == s.lo
    requires forall j :: Mid(s, j) ==> Mid(s', j)
    ensures Ring(s') && HeadersInRange(s')
  {
    hide PowerOfTwo;
    forall h | 0 <= h < |s.headers| ensures HeaderInRange(s', h) && HeaderOk(s', h) {
      assert HeaderInRange(s, h) && HeaderOk(s, h);
    }
    forall h | 0 <= h < |s.headers| ensures Agrees(s', h) { assert Agrees(s, h); }
    assert forall j :: At(s', j) == At(s, j);
  }

  /** A block some dequeuer still has elements of is live. */
  lemma PendingLive(s: State, t: Tid, b: int)
    requires CountsOk(s) && |s.headers| > 0 && t in s.readers && ReaderOk(s, s.readers[t]) &&
             Pending(s.readers[t], b) > 0
    ensures 0 <= b < Blocks(s.tail) && b in s.live && b in s.done && s.done[b] + Pending(s.readers[t], b) <= BLOCK_SIZE
  {
    assert BlockCount(s, b);
    TallyBounds(s.readers, Weight(b));
    assert Weight(b)(s.readers[t]) == Pending(s.readers[t], b);
  }

  /** Any header that held live block b leads to its entry. */
  lemma EntryOf(s: State, h: nat, b: int)
    requires Ring(s) && h < |s.headers| && b in s.live
    requires s.headers[h].high - |s.headers[h].index| <= b < s.headers[h].high
    ensures |s.headers[h].index| > 0 && s.headers[h].index[Slot(s.headers[h], b)] == At(s, b)
    ensures s.entries[At(s, b)].owner == b && s.entries[At(s, b)].key == Key(b)
    ensures !Mid(s, b) ==> s.entries[At(s, b)].value == Ptr(s.live[b])
  {
    assert Agrees(s, h) && InWindow(s, b);
  }

  /** The key a dequeuer loads at the tail it read is that of the block it saw there. */
  lemma TailEntry(s: State, h: nat, b: int, k: int)
    requires Ring(s) && h < |s.headers| && b in s.live &&
             s.headers[h].high - |s.headers[h].index| <= b <= k < s.headers[h].high
    ensures |s.headers[h].index| > 0 && s.headers[h].index[Slot(s.headers[h], k)] < |s.entries|
    ensures s.entries[s.headers[h].index[Slot(s.headers[h], k)]].key == Key(k)
  {
    assert Agrees(s, h) && InWindow(s, b) && HeaderOk(s, h);
    assert InWindow(s, k);
  }

  lemma SameWeights(s: State, t: Tid, pc': Reader)
    requires CountsOk(s) && t in s.readers
    requires forall b :: Pending(pc', b) == Pending(s.readers[t], b)
    ensures CountsOk(s.(readers := s.readers[t := pc']))
  {
    var s' := s.(readers := s.readers[t := pc']);
    forall b | 0 <= b < Blocks(s'.tail) ensures BlockCount(s', b) {
      assert BlockCount(s, b);
      TallyChange(s.readers, t, pc', Weight(b));
    }
  }

  /** What a step that loads a shared word makes of the dequeuer. */
  ghost predicate LoadsWell(s: State, s': State, t: Tid)
    requires |s.headers| > 0 && t in s.readers && !s.readers[t].Resting?
  {
    && t in s'.readers && s' == s.(readers := s.readers[t := s'.readers[t]])
    && ReaderOk(s, s'.readers[t])
    && var pc, pc' := s.readers[t], s'.readers[t];
       !pc'.Resting? && !pc'.Freeing? && pc'.i == pc.i && pc'.end == pc.end
  }

  lemma HeaderLoaded(s: State, t: Tid)
    requires HeadersOk(s) && LiveOk(s) && ProducerOk(s) && Enabled(s, Step(t)) && ReaderOk(s, s.readers[t]) &&
             s.head <= s.tail
    requires s.readers[t].Claimed? && s.readers[t].i / BLOCK_SIZE in s.live
    ensures LoadsWell(s, StepReader(s, t), t)
  {
    assert InWindow(s, s.readers[t].i / BLOCK_SIZE);
    assert HeaderOk(s, |s.headers| - 1);
    TopCovers(s);
    hide HeadersOk, ProducerOk;
  }

  lemma TailLoaded(s: State, t: Tid)
    requires HeadersOk(s) && Enabled(s, Step(t)) && ReaderOk(s, s.readers[t]) && s.readers[t].GotHeader?
    ensures LoadsWell(s, StepReader(s, t), t)
  {
    assert HeaderOk(s, s.readers[t].h);
    hide HeadersOk;
  }

  lemma SlotComputed(s: State, t: Tid)
    requires Ring(s) && Enabled(s, Step(t)) && ReaderOk(s, s.readers[t]) && s.readers[t].GotTail?
    requires s.readers[t].i / BLOCK_SIZE in s.live
    ensures LoadsWell(s, StepReader(s, t), t)
  {
    var pc := s.readers[t];
    var b := pc.i / BLOCK_SIZE;
    assert HeaderOk(s, pc.h);
    TailEntry(s, pc.h, b, pc.k);
    LookupSlot(s.headers[pc.h], b, pc.k);
    hide Ring, Slot, SlotFor, Key;
  }

  lemma BlockLoaded(s: State, t: Tid)
    requires Ring(s) && Enabled(s, Step(t)) && ReaderOk(s, s.readers[t]) && s.readers[t].AtSlot?
    requires s.readers[t].i / BLOCK_SIZE in s.live && !Mid(s, s.readers[t].i / BLOCK_SIZE)
    ensures LoadsWell(s, StepReader(s, t), t)
  {
    EntryOf(s, s.readers[t].h, s.readers[t].i / BLOCK_SIZE);
    hide Ring;
  }

  lemma LoadedOk(s: State, t: Tid)
    requires Inv(s) && Enabled(s, Step(t))
    requires var pc := s.readers[t]; pc.Claimed? || pc.GotHeader? || pc.GotTail? || pc.AtSlot?
    ensures LoadsWell(s, StepReader(s, t), t)
  {
    var pc := s.readers[t];
    var b := pc.i / BLOCK_SIZE;
    assert ReaderOk(s, pc);
    PendingLive(s, t, b);
    NotMid(s, b);
    hide ReadersOk, LoadsWell, StepReader, HeadersOk, ValuesOk, OwnersOk, KeysOk, ProducerOk;
    match pc
    case Claimed(_, _) => HeaderLoaded(s, t);
    case GotHeader(_, _, _) => TailLoaded(s, t);
    case GotTail(_, _, _, _, _) => SlotComputed(s, t);
    case AtSlot(_, _, _, _) => BlockLoaded(s, t);
  }

  /** The tail never falls back behind a published block. */
  lemma TopCovers(s: State)
    requires HeadersInRange(s) && ProducerOk(s)
    ensures Blocks(s.tail) - 1 <= Cur(s).top
  {
  }

  lemma NotMid(s: State, b: int)
    requires HeadersInRange(s) && ProducerOk(s) && b < Blocks(s.tail)
    ensures !Mid(s, b)
  {
  }

  lemma LoadStep(s: State, t: Tid)
    requires Inv(s) && Enabled(s, Step(t))
    requires var pc := s.readers[t]; pc.Claimed? || pc.GotHeader? || pc.GotTail? || pc.AtSlot?
    ensures Inv(StepReader(s, t))
  {
    var s' := StepReader(s, t);
    LoadedOk(s, t);
    hide Ring, StepReader, ReaderOk;
    SameWeights(s, t, s'.readers[t]);
    RingFrame(s, s');
    OthersOk(s, s', t);
    ProducerFrame(s, s');
  }

  lemma ProducerFrame(s: State, s': State)
    requires HeadersInRange(s) && HeadersInRange(s') && ProducerOk(s)
    requires s'.headers == s.headers && s'.lo == s.lo && s'.next == s.next && s'.producer == s.producer &&
             s'.tail == s.tail
    requires s'.live.Keys <= s.live.Keys && forall j | j >= Blocks(s.tail) :: j in s.live ==> j in s'.live
    ensures ProducerOk(s')
  {
    assert forall j :: At(s', j) == At(s, j);
  }

  /** What the other dequeuers rely on. */
  lemma OthersOk(s: State, s': State, t: Tid)
    requires |s.headers| > 0 && ReadersOk(s) && t in s.readers && t in s'.readers &&
             s'.readers == s.readers[t := s'.readers[t]]
    requires s'.headers == s.headers && s'.live == s.live && s.head <= s'.head && s'.tail == s.tail && s'.done == s.done
    requires ReaderOk(s', s'.readers[t]) && !s'.readers[t].Freeing?
    ensures ReadersOk(s')
  {
    forall u | u in s'.readers ensures ReaderOk(s', s'.readers[u]) {
      if u != t { assert ReaderOk(s, s.readers[u]); }
    }
  }

  lemma EntriesDiffer(s: State, a: int, b: int)
    requires HeadersOk(s) && InWindow(s, a) && InWindow(s, b) && a != b
    ensures At(s, a) != At(s, b)
  {
    assert HeaderOk(s, |s.headers| - 1);
    SlotsDiffer(Cur(s), a, b);
  }

  lemma HeadersFrame(s: State, s': State)
    requires HeadersOk(s) && s'.headers == s.headers && |s'.entries| == |s.entries| && s'.lo == s.lo
    ensures HeadersOk(s') && forall j :: At(s', j) == At(s, j)
  {
    hide PowerOfTwo;
    forall h | 0 <= h < |s.headers| ensures HeaderInRange(s', h) && HeaderOk(s', h) {
      assert HeaderInRange(s, h) && HeaderOk(s, h);
    }
    forall h | 0 <= h < |s.headers| ensures Agrees(s', h) { assert Agrees(s, h); }
  }

  /** Storing a value in the entry of block j. */
  lemma ValueStore(s: State, s': State, j: int, v: Value)
    requires Ring(s) && InWindow(s, j) && s'.headers == s.headers && s'.lo == s.lo
    requires s'.entries == s.entries[At(s, j) := s.entries[At(s, j)].(value := v)]
    requires forall x | x != j :: (x in s'.live <==> x in s.live) && (x in s.live ==> s'.live[x] == s.live[x])
    requires j in s'.live ==> s.lo <= j
    requires Mid(s', j) || v == if j in s'.live then Ptr(s'.live[j]) else Null
    requires forall x | x != j && Mid(s, x) :: Mid(s', x)
    ensures Ring(s')
  {
    HeadersFrame(s, s');
    forall x | InWindow(s', x) && x != j ensures s'.entries[At(s', x)] == s.entries[At(s, x)] {
      EntriesDiffer(s, x, j);
    }
    hide HeadersOk, At;
    assert forall x | InWindow(s', x) :: InWindow(s, x);
  }

  lemma PendingStop(pc: Reader, pc': Reader, stop: nat)
    requires pc.Holding? && pc.i < pc.end && stop == Stop(pc.i, pc.end)
    requires pc'.Resting? || (pc'.i == stop && pc'.end == pc.end)
    requires pc'.Resting? ==> stop == pc.end
    ensures Pending(pc, pc.i / BLOCK_SIZE) == stop - pc.i > 0 && Pending(pc', pc.i / BLOCK_SIZE) == 0
    ensures forall x | x != pc.i / BLOCK_SIZE :: Pending(pc', x) == Pending(pc, x)
  {
  }

  lemma OnwardOk(s: State, b: int, i: nat, end: nat, h: nat, idx: nat)
    requires |s.headers| > 0 && h < |s.headers| && |s.headers[h].index| > 0 && i <= end <= s.head && 0 <= b
    requires i < end ==> i == BLOCK_SIZE * (b + 1) && (end - 1) / BLOCK_SIZE < s.headers[h].high
    requires s.headers[h].high - |s.headers[h].index| <= b && idx == Slot(s.headers[h], b)
    ensures ReaderOk(s, Onward(s, i, end, h, idx))
  {
    NextSlot(s.headers[h], b);
  }

  lemma FinishCounts(s: State, t: Tid)
    requires Inv(s) && Enabled(s, Step(t)) && s.readers[t].Holding?
    ensures CountsOk(StepReader(s, t))
    ensures var b := s.readers[t].i / BLOCK_SIZE;
            && 0 <= b < Blocks(s.tail) && b in s.live && s.done[b] < BLOCK_SIZE
            && s.done[b] + (Stop(s.readers[t].i, s.readers[t].end) - s.readers[t].i) <= BLOCK_SIZE
            && StepReader(s, t).done ==
               s.done[b := s.done[b] + (Stop(s.readers[t].i, s.readers[t].end) - s.readers[t].i)]
  {
    hide Ring, ProducerOk;
    var pc, s' := s.readers[t], StepReader(s, t);
    var b, stop := pc.i / BLOCK_SIZE, Stop(pc.i, pc.end);
    assert ReaderOk(s, pc);
    PendingStop(pc, s'.readers[t], stop);
    PendingLive(s, t, b);
    hide StepReader, ReaderOk;
    forall x | 0 <= x < Blocks(s'.tail) ensures BlockCount(s', x) {
      assert BlockCount(s, x);
      TallyChange(s.readers, t, s'.readers[t], Weight(x));
    }
  }

  lemma FinishReader(s: State, t: Tid)
    requires |s.headers| > 0 && Enabled(s, Step(t)) && s.readers[t].Holding? && ReaderOk(s, s.readers[t])
    requires var b := s.readers[t].i / BLOCK_SIZE;
             && 0 <= b < Blocks(s.tail) &&
               s.done[b] + (Stop(s.readers[t].i, s.readers[t].end) - s.readers[t].i) <= BLOCK_SIZE
    ensures ReaderOk(StepReader(s, t), StepReader(s, t).readers[t])
  {
    var pc, s' := s.readers[t], StepReader(s, t);
    var b, stop := pc.i / BLOCK_SIZE, Stop(pc.i, pc.end);
    if s.done[b] + (stop - pc.i) != BLOCK_SIZE { OnwardOk(s', b, stop, pc.end, pc.h, pc.idx); }
  }

  lemma FinishReaders(s: State, t: Tid)
    requires Inv(s) && Enabled(s, Step(t)) && s.readers[t].Holding?
    ensures ReadersOk(StepReader(s, t))
  {
    var pc, s' := s.readers[t], StepReader(s, t);
    FinishCounts(s, t);
    hide Ring, CountsOk, ProducerOk;
    assert ReaderOk(s, pc);
    FinishReader(s, t);
    forall u | u in s'.readers && u != t
      ensures ReaderOk(s', s'.readers[u]) && (s'.readers[u].Freeing? ==> s'.readers[u].b != pc.i / BLOCK_SIZE)
    {
      assert ReaderOk(s, s.readers[u]);
    }
  }

  lemma FinishStep(s: State, t: Tid)
    requires Inv(s) && Enabled(s, Step(t)) && s.readers[t].Holding?
    ensures Inv(StepReader(s, t))
  {
    hide CountsOk, ReadersOk, ProducerOk, Ring;
    FinishCounts(s, t);
    FinishReaders(s, t);
    RingFrame(s, StepReader(s, t));
    ProducerFrame(s, StepReader(s, t));
  }

  lemma FreeCounts(s: State, t: Tid)
    requires CountsOk(s) && |s.headers| > 0 && Enabled(s, Step(t)) && s.readers[t].Freeing? && ReaderOk(s, s.readers[t])
    ensures CountsOk(StepReader(s, t))
  {
    var pc, s' := s.readers[t], StepReader(s, t);
    forall x | 0 <= x < Blocks(s'.tail) ensures BlockCount(s', x) {
      assert BlockCount(s, x);
      TallyChange(s.readers, t, s'.readers[t], Weight(x));
    }
  }

  lemma FreeReaders(s: State, t: Tid)
    requires CountsOk(s) && |s.headers| > 0 && ReadersOk(s) && Enabled(s, Step(t)) && s.readers[t].Freeing?
    ensures ReadersOk(StepReader(s, t))
  {
    var pc, s' := s.readers[t], StepReader(s, t);
    assert ReaderOk(s, pc);
    OnwardOk(s', pc.b, pc.i, pc.end, pc.h, pc.idx);
    forall u | u in s'.readers ensures ReaderOk(s', s'.readers[u]) {
      if u != t {
        assert ReaderOk(s, s.readers[u]);
        if s.readers[u].Holding? { PendingLive(s, u, s.readers[u].i / BLOCK_SIZE); }
      }
    }
  }

  lemma FreeStep(s: State, t: Tid)
    requires Inv(s) && Enabled(s, Step(t)) && s.readers[t].Freeing?
    ensures Inv(StepReader(s, t))
  {
    var pc, s' := s.readers[t], StepReader(s, t);
    FreeCounts(s, t);
    FreeReaders(s, t);
    assert ReaderOk(s, pc);
    EntryOf(s, pc.h, pc.b);
    hide CountsOk, ReadersOk, HeadersOk, KeysOk, ValuesOk, OwnersOk;
    assert InWindow(s, pc.b);
    ValueStore(s, s', pc.b, Null);
    hide Ring, StepReader;
    ProducerFrame(s, s');
  }

  lemma ClaimCounts(s: State, t: Tid, n: nat)
    requires CountsOk(s) && Enabled(s, Claim(t, n))
    ensures CountsOk(Do(s, Claim(t, n)))
  {
    var s' := Do(s, Claim(t, n));
    forall x | 0 <= x < Blocks(s'.tail) ensures BlockCount(s', x) {
      assert BlockCount(s, x);
      TallyChange(s.readers, t, s'.readers[t], Weight(x));
      TallyBounds(s.readers, Weight(x));
    }
  }

  lemma ClaimStep(s: State, t: Tid, n: nat)
    requires Inv(s) && Enabled(s, Claim(t, n))
    ensures Inv(Do(s, Claim(t, n)))
  {
    var s' := Do(s, Claim(t, n));
    ClaimCounts(s, t, n);
    RingFrame(s, s');
    hide Ring, CountsOk;
    ProducerFrame(s, s');
    hide ProducerOk;
    OthersOk(s, s', t);
  }

  // ---- the producer ----

  /** What dequeuers rely on while the producer works. */
  ghost predicate HeadersKept(s: State, s': State) {
    && 0 < |s.headers| <= |s'.headers|
    && forall h | 0 <= h < |s.headers| :: HeaderKept(s, s', h)
  }

  ghost predicate HeaderKept(s: State, s': State, h: nat)
    requires 0 <= h < |s.headers| <= |s'.headers|
  {
    && s'.headers[h].index == s.headers[h].index && s'.headers[h].phase == s.headers[h].phase
    && s.headers[h].high <= s'.headers[h].high
    && (s'.headers[h] == s.headers[h] || (h == |s.headers| - 1 && |s'.headers| == |s.headers|))
  }

  lemma ReaderFrame(s: State, s': State, pc: Reader)
    requires |s.headers| > 0 && HeadersKept(s, s') && ReaderOk(s, pc) && s'.head == s.head && s'.head <= s'.tail &&
             s.tail <= s'.tail
    requires !pc.Resting? && pc.i < pc.end ==> pc.i / BLOCK_SIZE in s.live && pc.i / BLOCK_SIZE < Blocks(s.tail)
    requires forall b | 0 <= b < Blocks(s.tail) && b in s.live :: b in s'.live && s'.live[b] == s.live[b]
    requires forall b | 0 <= b < Blocks(s.tail) && b in s.done :: b in s'.done && s'.done[b] == s.done[b]
    requires LiveOk(s') && Blocks(s'.tail) - 1 <= Cur(s').top
    ensures ReaderOk(s', pc)
  {
    if !pc.Resting? && !pc.Claimed? {
      assert HeaderKept(s, s', pc.h);
      hide HeadersKept;
      if pc.Freeing? {
        assert InWindow(s', pc.b);
      } else {
        assert InWindow(s', pc.i / BLOCK_SIZE);
      }
    }
  }

  lemma ReadersFrame(s: State, s': State)
    requires |s.headers| > 0 && ReadersOk(s) && CountsOk(s) && HeadersKept(s, s')
    requires s'.readers == s.readers && s'.head == s.head && s.tail <= s'.tail
    requires forall b | 0 <= b < Blocks(s.tail) && b in s.live :: b in s'.live && s'.live[b] == s.live[b]
    requires forall b | 0 <= b < Blocks(s.tail) && b in s.done :: b in s'.done && s'.done[b] == s.done[b]
    requires HeadersInRange(s') && LiveOk(s') && ProducerOk(s')
    ensures ReadersOk(s')
  {
    TopCovers(s');
    hide ProducerOk, HeadersKept, LiveOk;
    forall t | t in s'.readers ensures ReaderOk(s', s'.readers[t]) {
      var pc := s.readers[t];
      assert ReaderOk(s, pc);
      if !pc.Resting? && pc.i < pc.end { PendingLive(s, t, pc.i / BLOCK_SIZE); }
      hide ReaderOk;
      ReaderFrame(s, s', pc);
    }
    hide ReaderOk;
  }

  lemma CountsFrame(s: State, s': State)
    requires CountsOk(s) && s'.readers == s.readers && s'.head == s.head && s'.tail == s.tail
    requires forall b | 0 <= b < Blocks(s.tail) && b in s.live :: b in s'.live
    requires forall b | 0 <= b < Blocks(s.tail) && b in s.done :: b in s'.done && s'.done[b] == s.done[b]
    requires forall b | Blocks(s.tail) <= b < s'.next :: b in s'.done && s'.done[b] == 0
    ensures CountsOk(s')
  {
    forall b | 0 <= b < Blocks(s.tail) ensures BlockCount(s', b) { assert BlockCount(s, b); }
  }

  /** Steps of the producer that touch neither headers nor entries. */
  lemma PrivateStep(s: State, s': State)
    requires Inv(s) && s' == s.(producer := s'.producer, next := s'.next)
    requires s'.next <= s.next && forall j :: Mid(s, j) ==> Mid(s', j)
    requires HeadersInRange(s') ==> ProducerOk(s')
    ensures Inv(s')
  {
    RingFrame(s, s');
    hide ProducerOk, Ring;
    CountsFrame(s, s');
    assert LiveOk(s') by { assert Ring(s'); }
    forall h | 0 <= h < |s.headers| ensures HeaderKept(s, s', h) { }
    ReadersFrame(s, s');
  }

  /** A block's slot is that of the block one round earlier. */
  lemma RoundEarlier(s: State)
    requires HeadersOk(s)
    ensures At(s, Cur(s).high) == At(s, Cur(s).high - |Cur(s).index|)
  {
    var cur, c := Cur(s), |Cur(s).index|;
    assert HeaderOk(s, |s.headers| - 1);
    SameRemainder(cur.high + cur.phase, cur.high - c + cur.phase, 1, c);
  }

  /** The slot after the tail is the one the next block belongs in. */
  lemma NextEntry(s: State)
    requires HeadersOk(s) && Cur(s).top == s.next - 1 && HeaderInRange(s, |s.headers| - 1)
    ensures NewTail(Cur(s)) < |Cur(s).index| && Cur(s).index[NewTail(Cur(s))] == At(s, s.next)
    ensures At(s, s.next) < |s.entries|
  {
    assert HeaderInRange(s, |s.headers| - 1) && HeaderOk(s, |s.headers| - 1);
    NextSlot(Cur(s), s.next - 1);
  }

  lemma DecideProducer(s: State)
    requires Ring(s) && ProducerOk(s) && Enabled(s, Decide)
    ensures HeadersOk(Do(s, Decide)) && ProducerOk(Do(s, Decide))
  {
    var s', cur := Do(s, Decide), Cur(s);
    var c := |cur.index|;
    assert HeaderInRange(s, |s.headers| - 1);
    NextEntry(s);
    RoundEarlier(s);
    HeadersFrame(s, s');
    hide HeadersOk, At, NewTail;
    if s.next < cur.high { assert InWindow(s, s.next); } else {
      assert InWindow(s, cur.high - c);
      KeyIsValid(cur.high - c);
    }
  }

  lemma DecideStep(s: State)
    requires Inv(s) && Enabled(s, Decide)
    ensures Inv(Do(s, Decide))
  {
    DecideProducer(s);
    hide Ring, ProducerOk, CountsOk, ReadersOk;
    PrivateStep(s, Do(s, Decide));
  }

  lemma UndoStarts(s: State, s': State)
    requires HeadersInRange(s) && ProducerOk(s) && (s.producer.Idle? || s.producer.Growing? || s.producer.Nulling?)
    requires s'.headers == s.headers && s'.tail == s.tail && s'.live == s.live && s'.lo == s.lo
    requires s'.next == Blocks(s.tail) && s'.producer == Undo(s'.next, s.next) && HeadersInRange(s')
    ensures ProducerOk(s')
  {
  }

  lemma StoreNullStep(s: State)
    requires Inv(s) && Enabled(s, StoreNull)
    ensures Inv(Do(s, StoreNull))
  {
    var s' := Do(s, StoreNull);
    assert InWindow(s, s.next);
    hide CountsOk, ReadersOk, HeadersOk, KeysOk, ValuesOk, OwnersOk;
    ValueStore(s, s', s.next, Null);
    assert HeadersInRange(s') by { assert HeadersOk(s'); }
    UndoStarts(s, s');
    Published(s, s');
  }

  /** The shared end of the steps that store a value at or above the published tail. */
  lemma Published(s: State, s': State)
    requires Inv(s) && Ring(s') && HeadersInRange(s') && ProducerOk(s') && s'.headers == s.headers
    requires s'.readers == s.readers && s'.head == s.head && s'.tail == s.tail
    requires forall b | b < Blocks(s.tail) && b in s.live :: b in s'.live && s'.live[b] == s.live[b]
    requires forall b | 0 <= b < Blocks(s.tail) && b in s.done :: b in s'.done && s'.done[b] == s.done[b]
    requires (s'.done == s.done && s'.next <= s.next) || forall b | Blocks(s.tail) <= b < s'.next ::
               b in s'.done && s'.done[b] == 0
    ensures Inv(s')
  {
    hide ProducerOk;
    CountsFrame(s, s');
    forall h | 0 <= h < |s.headers| ensures HeaderKept(s, s', h) { }
    ReadersFrame(s, s');
  }

  lemma TakeProducer(s: State, block: Block)
    requires Ring(s) && ProducerOk(s) && Enabled(s, Take(block))
    ensures Ring(Do(s, Take(block))) && ProducerOk(Do(s, Take(block)))
  {
    var s' := Do(s, Take(block));
    assert InWindow(s, s.next);
    hide HeadersOk, KeysOk, ValuesOk, OwnersOk;
    ValueStore(s, s', s.next, Ptr(block));
    assert HeadersInRange(s') by { assert HeadersOk(s'); }
  }

  lemma TakeStep(s: State, block: Block)
    requires Inv(s) && Enabled(s, Take(block))
    ensures Inv(Do(s, Take(block)))
  {
    var s' := Do(s, Take(block));
    TakeProducer(s, block);
    assert forall b | Blocks(s.tail) <= b < s'.next :: b in s'.done && s'.done[b] == 0;
    assert forall b | 0 <= b < Blocks(s.tail) && b in s.done :: b in s'.done && s'.done[b] == s.done[b];
    hide CountsOk, ReadersOk, ProducerOk, Ring;
    Published(s, s');
  }

  lemma FindIs(s: State, b: int)
    requires Ring(s) && InWindow(s, b) && InWindow(s, Cur(s).top) && s.lo <= Cur(s).top
    ensures Find(s, Key(b)) == At(s, b)
  {
    var cur := Cur(s);
    assert HeaderInRange(s, |s.headers| - 1) && HeaderOk(s, |s.headers| - 1);
    assert s.entries[At(s, cur.top)].key == Key(cur.top);
    LookupSlot(cur, b, cur.top);
  }

  lemma UndoProducer(s: State)
    requires Ring(s) && ProducerOk(s) && Enabled(s, UndoStep) && s.producer.u < s.producer.m
    ensures Ring(Do(s, UndoStep)) && ProducerOk(Do(s, UndoStep))
  {
    var s', u := Do(s, UndoStep), s.producer.u;
    FindIs(s, u);
    hide HeadersOk, KeysOk, ValuesOk, OwnersOk;
    ValueStore(s, s', u, Null);
    assert HeadersInRange(s') by { assert HeadersOk(s'); }
  }

  lemma UndoStepOk(s: State)
    requires Inv(s) && Enabled(s, UndoStep)
    ensures Inv(Do(s, UndoStep))
  {
    var s', u, m := Do(s, UndoStep), s.producer.u, s.producer.m;
    hide CountsOk, ReadersOk;
    if u >= m {
      hide Ring;
      PrivateStep(s, s');
    } else {
      UndoProducer(s);
      hide Ring, ProducerOk;
      Published(s, s');
    }
  }

  lemma PublishStep(s: State, n: nat)
    requires Inv(s) && Enabled(s, Publish(n))
    ensures Inv(Do(s, Publish(n)))
  {
    var s' := Do(s, Publish(n));
    RingFrame(s, s');
    assert ProducerOk(s');
    forall h | 0 <= h < |s.headers| ensures HeaderKept(s, s', h) { }
    assert LiveOk(s');
    assert forall b | Blocks(s.tail) <= b < s.next :: b in s.live;
    hide Ring, ProducerOk;
    ReadersFrame(s, s');
    forall b | 0 <= b < Blocks(n) ensures BlockCount(s', b) {
      if b < Blocks(s.tail) { assert BlockCount(s, b); }
      else {
        forall t | t in s.readers ensures Weight(b)(s.readers[t]) == 0 { assert ReaderOk(s, s.readers[t]); }
        TallyZero(s.readers, Weight(b));
      }
    }
  }

  function TailMoved(s: State, tail: nat, top: int, p: Producer): State
    requires |s.headers| > 0
  {
    SetCur(s, Cur(s).(tail := tail, top := top)).(producer := p)
  }

  lemma TailMovedRing(s: State, tail: nat, top: int, p: Producer)
    requires Ring(s) && Cur(s).index != [] && tail == Slot(Cur(s), top) && top < Cur(s).high
    requires forall j :: Mid(s, j) ==> Mid(TailMoved(s, tail, top, p), j)
    ensures Ring(TailMoved(s, tail, top, p)) && HeadersInRange(TailMoved(s, tail, top, p))
    ensures forall j :: At(TailMoved(s, tail, top, p), j) == At(s, j)
  {
    hide PowerOfTwo;
    var s' := TailMoved(s, tail, top, p);
    forall h | 0 <= h < |s.headers| ensures HeaderInRange(s', h) && HeaderOk(s', h) {
      assert HeaderInRange(s, h) && HeaderOk(s, h);
    }
    assert forall j :: At(s', j) == At(s, j);
    forall h | 0 <= h < |s.headers| ensures Agrees(s', h) { assert Agrees(s, h); }
  }

  /** Moving the tail of the current ring. */
  lemma TailStore(s: State, tail: nat, top: int, p: Producer)
    requires Inv(s) && Cur(s).index != [] && tail == Slot(Cur(s), top) && top < Cur(s).high
    requires forall j :: Mid(s, j) ==> Mid(TailMoved(s, tail, top, p), j)
    requires HeadersInRange(TailMoved(s, tail, top, p)) && ProducerOk(TailMoved(s, tail, top, p))
    ensures Inv(TailMoved(s, tail, top, p))
  {
    RingLive(s);
    hide CountsOk, ReadersOk, ProducerOk, Ring;
    var s' := TailMoved(s, tail, top, p);
    TailMovedRing(s, tail, top, p);
    forall h | 0 <= h < |s.headers| ensures HeaderKept(s, s', h) { }
    CountsHold(s, s');
    assert LiveOk(s') by { RingLive(s'); }
    ReadersFrame(s, s');
  }

  lemma RingLive(s: State)
    requires Ring(s)
    ensures |s.headers| > 0 && LiveOk(s)
  {
  }

  lemma RingCur(s: State)
    requires Ring(s)
    ensures HeadersInRange(s) && Cur(s).index != [] && Cur(s).tail == Slot(Cur(s), Cur(s).top) &&
            Cur(s).top < Cur(s).high
  {
    assert HeaderInRange(s, |s.headers| - 1) && HeaderOk(s, |s.headers| - 1);
  }

  lemma CountsHold(s: State, s': State)
    requires CountsOk(s) && s'.readers == s.readers && s'.head == s.head && s'.tail == s.tail
    requires s'.live == s.live && s'.done == s.done && s'.next == s.next
    ensures CountsOk(s')
  {
    CountsFrame(s, s');
  }

  lemma StoreTailStep(s: State)
    requires Inv(s) && Enabled(s, StoreTail)
    ensures Inv(Do(s, StoreTail))
  {
    hide CountsOk, ReadersOk, Ring, Slot, At;
    RingCur(s);
    NextSlot(Cur(s), s.next - 1);
    var tail, p := NewTail(Cur(s)), Valuing(s.producer.e);
    assert Do(s, StoreTail) == TailMoved(s, tail, s.next, p);
    TailMovedRing(s, tail, s.next, p);
    assert ProducerOk(TailMoved(s, tail, s.next, p));
    TailStore(s, tail, s.next, p);
  }

  lemma RewindStep(s: State)
    requires Inv(s) && Enabled(s, Rewind)
    ensures Inv(Do(s, Rewind))
  {
    hide CountsOk, ReadersOk, Ring, Slot, At;
    RingCur(s);
    PrevSlot(Cur(s), Cur(s).top);
    var tail, top := (Cur(s).tail - 1) % |Cur(s).index|, Cur(s).top - 1;
    var p := Do(s, Rewind).producer;
    assert Do(s, Rewind) == TailMoved(s, tail, top, p);
    TailMovedRing(s, tail, top, p);
    assert ProducerOk(TailMoved(s, tail, top, p));
    TailStore(s, tail, top, p);
  }

  /** Storing the key of a block again after it was taken back changes nothing. */
  lemma KeyAgain(s: State)
    requires Inv(s) && Enabled(s, StoreKey) && s.next < Cur(s).high
    ensures Inv(Do(s, StoreKey))
  {
    var s' := Do(s, StoreKey);
    assert InWindow(s, s.next);
    assert s.entries[At(s, s.next)].owner == s.next;
    assert s'.entries == s.entries && s'.headers == s.headers;
    HeadersFrame(s, s');
    hide CountsOk, ReadersOk, Ring;
    PrivateStep(s, s');
  }

  lemma KeyHeader(s: State, h: nat)
    requires HeadersOk(s) && ProducerOk(s) && Enabled(s, StoreKey) && s.next == Cur(s).high && h < |s.headers|
    ensures HeaderInRange(Do(s, StoreKey), h) && HeaderOk(Do(s, StoreKey), h)
  {
    hide PowerOfTwo;
    assert HeaderInRange(s, h) && HeaderOk(s, h);
  }

  lemma KeyHeaders(s: State)
    requires Ring(s) && ProducerOk(s) && Enabled(s, StoreKey) && s.next == Cur(s).high
    ensures HeadersOk(Do(s, StoreKey)) && forall j :: At(Do(s, StoreKey), j) == At(s, j)
  {
    var s' := Do(s, StoreKey);
    forall h | 0 <= h < |s.headers| ensures HeaderInRange(s', h) && HeaderOk(s', h) { KeyHeader(s, h); }
    hide HeaderOk, PowerOfTwo, ProducerOk, KeysOk, OwnersOk, ValuesOk, LiveOk;
    assert forall j :: At(s', j) == At(s, j);
    hide At;
    forall h | 0 <= h < |s.headers| ensures Agrees(s', h) { assert Agrees(s, h); }
  }

  /** A new key replaces that of the block one round earlier, and no other. */
  lemma KeyOthers(s: State)
    requires Ring(s) && ProducerOk(s) && Enabled(s, StoreKey) && s.next == Cur(s).high
    ensures HeadersOk(Do(s, StoreKey))
    ensures var s' := Do(s, StoreKey);
            && InWindow(s', s.next) && s'.entries[At(s', s.next)].owner == s.next
            && forall j | InWindow(s', j) && j != s.next ::
                InWindow(s, j) && s'.entries[At(s', j)] == s.entries[At(s, j)]
  {
    var s', cur, c := Do(s, StoreKey), Cur(s), |Cur(s).index|;
    KeyHeaders(s);
    RoundEarlier(s);
    hide HeaderOk, HeadersInRange, Agrees, At, PowerOfTwo, KeysOk, OwnersOk, ValuesOk, LiveOk;
    forall j | InWindow(s', j) && j != cur.high
      ensures InWindow(s, j) && s'.entries[At(s', j)] == s.entries[At(s, j)]
    {
      EntriesDiffer(s, j, cur.high - c);
    }
  }

  lemma KeyKept(s: State)
    requires Ring(s) && ProducerOk(s) && Enabled(s, StoreKey) && s.next == Cur(s).high
    ensures var s' := Do(s, StoreKey);
            && |s'.headers| > 0 && KeysOk(s') && LiveOk(s')
            && s.next >= s'.lo && Mid(s', s.next) && s'.live == s.live && 0 <= s'.lo == s.lo
            && forall j | InWindow(s', j) && j != s.next :: !Mid(s, j)
  {
    hide OwnersOk, ValuesOk, HeaderOk, Agrees, PowerOfTwo;
  }

  lemma KeyOwners(s: State, s': State)
    requires HeadersInRange(s) && HeadersInRange(s') && OwnersOk(s) && s'.lo == s.lo && s.next >= s'.lo
    requires InWindow(s', s.next) && s'.entries[At(s', s.next)].owner == s.next
    requires forall j | InWindow(s', j) && j != s.next ::
               InWindow(s, j) && s'.entries[At(s', j)] == s.entries[At(s, j)]
    ensures OwnersOk(s')
  {
    hide At, InWindow;
  }

  lemma KeyValues(s: State, s': State)
    requires HeadersInRange(s) && HeadersInRange(s') && ValuesOk(s) && s'.lo == s.lo && s'.live == s.live
    requires Mid(s', s.next) && forall j | InWindow(s', j) && j != s.next :: !Mid(s, j)
    requires forall j | InWindow(s', j) && j != s.next ::
               InWindow(s, j) && s'.entries[At(s', j)] == s.entries[At(s, j)]
    ensures ValuesOk(s')
  {
    hide At, InWindow, Mid;
  }

  lemma KeyRing(s: State)
    requires Ring(s) && ProducerOk(s) && Enabled(s, StoreKey) && s.next == Cur(s).high
    ensures Ring(Do(s, StoreKey)) && HeadersInRange(Do(s, StoreKey))
  {
    var s' := Do(s, StoreKey);
    KeyOthers(s);
    KeyKept(s);
    hide Do, HeadersOk, At, KeysOk, LiveOk, ProducerOk, OwnersOk, ValuesOk, Mid;
    KeyOwners(s, s');
    KeyValues(s, s');
  }

  lemma StoreKeyStep(s: State)
    requires Inv(s) && Enabled(s, StoreKey)
    ensures Inv(Do(s, StoreKey))
  {
    if s.next < Cur(s).high {
      KeyAgain(s);
    } else {
      var s' := Do(s, StoreKey);
      KeyRing(s);
      hide HeadersOk, CountsOk, ReadersOk, KeysOk, OwnersOk, ValuesOk;
      assert Blocks(s.tail) < s.next ==> Blocks(s.tail) in s.live;
      assert ProducerOk(s');
      CountsHold(s, s');
      forall h | 0 <= h < |s.headers| ensures HeaderKept(s, s', h) { }
      ReadersFrame(s, s');
    }
  }

  // ---- growing ----

  ghost predicate CanGrow(s: State) {
    Inv(s) && Enabled(s, Grow(true)) && 2 * |Cur(s).index| <= BASES
  }

  lemma GrowHeaders(s: State)
    requires CanGrow(s)
    ensures HeadersInRange(Do(s, Grow(true)))
    ensures forall h | 0 <= h < |s.headers| + 1 :: HeaderOk(Do(s, Grow(true)), h)
  {
    hide CountsOk, ReadersOk, KeysOk, OwnersOk, ValuesOk;
    var s', n, cur := Do(s, Grow(true)), |s.headers|, Cur(s);
    assert HeaderInRange(s, n - 1) && HeaderOk(s, n - 1);
    RotatedDistinct(cur, |s.entries|);
    assert PowerOfTwo(2 * |cur.index|);
    hide PowerOfTwo;
    forall h | 0 <= h < n + 1 ensures HeaderInRange(s', h) && HeaderOk(s', h) {
      if h < n { assert HeaderInRange(s, h) && HeaderOk(s, h); }
      else { RemainderUnique(s.next - 1 + Cur(s').phase, 0, |cur.index| - 1, |Cur(s').index|); }
    }
  }

  lemma GrowAt(s: State, j: int)
    requires CanGrow(s) && HeadersInRange(Do(s, Grow(true))) && InWindow(Do(s, Grow(true)), j)
    ensures At(Do(s, Grow(true)), j) ==
            if InWindow(s, j) then At(s, j) else |s.entries| + (j + 2 * |Cur(s).index| - s.next)
    ensures !InWindow(s, j) ==>
              Do(s, Grow(true)).entries[At(Do(s, Grow(true)), j)] == Entry(INVALID_BLOCK_BASE, Junk, -1)
  {
    hide CountsOk, ReadersOk, KeysOk, OwnersOk, ValuesOk;
    assert HeaderInRange(s, |s.headers| - 1) && HeaderOk(s, |s.headers| - 1);
    RotatedAt(Cur(s), |s.entries|, s.next, j);
  }

  lemma GrowAgrees(s: State)
    requires CanGrow(s) && HeadersInRange(Do(s, Grow(true)))
    ensures HeadersOk(Do(s, Grow(true)))
  {
    var s', n := Do(s, Grow(true)), |s.headers|;
    GrowHeaders(s);
    hide CountsOk, ReadersOk, KeysOk, OwnersOk, ValuesOk, HeaderOk;
    forall h | 0 <= h < n + 1 ensures Agrees(s', h) {
      if h < n {
        var hd := s.headers[h];
        assert Agrees(s, h) && HeaderInRange(s, h);
        forall j | hd.high - |hd.index| <= j < hd.high && Cur(s').high - |Cur(s').index| <= j && s'.lo <= j
          ensures hd.index[Slot(hd, j)] == At(s', j)
        {
          assert HeaderOk(s, h);
          HighOk(s, h);
          GrowAt(s, j);
        }
      }
    }
  }

  lemma HighOk(s: State, h: nat)
    requires h < |s.headers| && HeaderOk(s, h)
    ensures s.headers[h].high <= Cur(s).high
  {
  }

  lemma GrowRing(s: State)
    requires CanGrow(s)
    ensures Ring(Do(s, Grow(true)))
  {
    var s' := Do(s, Grow(true));
    GrowHeaders(s);
    GrowAgrees(s);
    forall j | InWindow(s', j)
      ensures At(s', j) == if InWindow(s, j) then At(s, j) else |s.entries| + (j + 2 * |Cur(s).index| - s.next)
      ensures !InWindow(s, j) ==> s'.entries[At(s', j)] == Entry(INVALID_BLOCK_BASE, Junk, -1)
    {
      GrowAt(s, j);
    }
    hide CountsOk, ReadersOk, HeadersOk, At, Bigger;
    assert forall j | j >= s'.lo && InWindow(s', j) :: InWindow(s, j) && At(s', j) == At(s, j);
    assert KeysOk(s') && OwnersOk(s') && ValuesOk(s') && LiveOk(s');
  }

  lemma GrowProducer(s: State)
    requires CanGrow(s) && HeadersInRange(Do(s, Grow(true)))
    ensures ProducerOk(Do(s, Grow(true)))
    ensures s.entries + FreshEntries(|Cur(s).index|) == Do(s, Grow(true)).entries
    ensures var s' := Do(s, Grow(true));
            s'.producer.Keying? && s'.producer.e < |s'.entries| &&
            s'.entries[s'.producer.e].key == INVALID_BLOCK_BASE
  {
    hide CountsOk, ReadersOk, KeysOk, OwnersOk, ValuesOk;
    var s', c := Do(s, Grow(true)), |Cur(s).index|;
    RingCur(s);
    hide HeadersOk;
    var h := Cur(s');
    RemainderUnique(s.next + h.phase, 0, c, 2 * c);
    RemainderUnique(h.tail + 1, 0, c, 2 * c);
    assert h.index[c] == |s.entries|;
  }

  lemma GrowStep(s: State, ok: bool)
    requires Inv(s) && Enabled(s, Grow(ok))
    ensures Inv(Do(s, Grow(ok)))
  {
    var s' := Do(s, Grow(ok));
    if ok && 2 * |Cur(s).index| <= BASES {
      assert CanGrow(s);
      GrowRing(s);
      GrowHeaders(s);
      GrowProducer(s);
      hide Ring, CountsOk, ReadersOk, ProducerOk;
      CountsHold(s, s');
      forall h | 0 <= h < |s.headers| ensures HeaderKept(s, s', h) { }
      RingLive(s');
      ReadersFrame(s, s');
    } else {
      hide CountsOk, ReadersOk, KeysOk, OwnersOk, ValuesOk;
      HeadersFrame(s, s');
      hide HeadersOk;
      UndoStarts(s, s');
      PrivateStep(s, s');
    }
  }

  // ---- runs ----

  lemma StepInv(s: State, a: Action)
    requires Inv(s) && Enabled(s, a)
    ensures Inv(Do(s, a))
  {
    hide Ring, CountsOk, ReadersOk, ProducerOk, StepReader;
    match a
    case Decide => DecideStep(s);
    case Grow(ok) => GrowStep(s, ok);
    case StoreKey => StoreKeyStep(s);
    case StoreTail => StoreTailStep(s);
    case Take(block) => TakeStep(s, block);
    case Fail => FailStep(s);
    case Rewind => RewindStep(s);
    case StoreNull => StoreNullStep(s);
    case Abort => AbortStep(s);
    case UndoStep => UndoStepOk(s);
    case Publish(n) => PublishStep(s, n);
    case Claim(t, n) => ClaimStep(s, t, n);
    case Step(t) =>
      if s.readers[t].Holding? { FinishStep(s, t); }
      else if s.readers[t].Freeing? { FreeStep(s, t); }
      else { LoadStep(s, t); }
  }

  lemma FailStep(s: State)
    requires Inv(s) && Enabled(s, Fail)
    ensures Inv(Do(s, Fail))
  {
    HeadersFrame(s, Do(s, Fail));
    hide CountsOk, ReadersOk, Ring;
    PrivateStep(s, Do(s, Fail));
  }

  lemma AbortStep(s: State)
    requires Inv(s) && Enabled(s, Abort)
    ensures Inv(Do(s, Abort))
  {
    HeadersFrame(s, Do(s, Abort));
    hide CountsOk, ReadersOk, Ring;
    UndoStarts(s, Do(s, Abort));
    PrivateStep(s, Do(s, Abort));
  }

  lemma {:induction false} ExecutionInv(run: seq<State>, i: nat)
    requires Execution(run) && i < |run|
    ensures Inv(run[i])
  {
    hide Inv, Do, Init;
    if i == 0 {
      InitInv(run[0]);
    } else {
      ExecutionInv(run, i - 1);
      assert Next(run[i - 1], run[i - 1 + 1]);
      var a: Action :| Enabled(run[i - 1], a) && run[i] == Do(run[i - 1], a);
      StepInv(run[i - 1], a);
    }
  }

  // ---- main results ----

  /** The ring stands for the map of live blocks: whatever was inserted, taken back, freed
      out of order or moved to a bigger ring before, looking up the base of a live block
      through the current header yields the entry with that base and that block. */
  lemma RingIsMap(run: seq<State>, i: nat, b: int)
    requires Execution(run) && i < |run| && b in run[i].live
    ensures var s := run[i];
            HeadersInRange(s) && s.entries[Find(s, Key(b))].key == Key(b) &&
              s.entries[Find(s, Key(b))].value == Ptr(s.live[b])
  {
    hide Execution, CountsOk, ReadersOk, KeysOk, ValuesOk, OwnersOk, HeadersOk;
    ExecutionInv(run, i);
    var s := run[i];
    assert HeadersInRange(s) by { RingCur(s); }
    TopBounds(s, b);
    FindIs(s, b);
    EntryOf(s, |s.headers| - 1, b);
  }

  lemma TopBounds(s: State, b: int)
    requires HeadersInRange(s) && ProducerOk(s) && LiveOk(s) && Cur(s).top < Cur(s).high && b in s.live
    ensures InWindow(s, Cur(s).top) && s.lo <= Cur(s).top && !Mid(s, b)
  {
    assert InWindow(s, b);
  }

  /** Every block that holds a published element not yet completely dequeued is live. */
  lemma UnfinishedBlocksAreLive(run: seq<State>, i: nat, b: int)
    requires Execution(run) && i < |run| && 0 <= b < Blocks(run[i].tail)
    ensures b in run[i].done && run[i].done[b] <= BLOCK_SIZE
    ensures run[i].done[b] < BLOCK_SIZE ==> b in run[i].live
  {
    hide Execution, Ring, ProducerOk, ReadersOk;
    ExecutionInv(run, i);
    assert BlockCount(run[i], b);
    TallyBounds(run[i].readers, Weight(b));
  }

  /** A dequeuer that loaded its header, tail and key at different moments, with the
      producer at work in between, still finds its block: the base it reads at the tail is
      valid, and the slot it computes holds its own base and its own live block. */
  lemma DequeuerFindsBlock(run: seq<State>, i: nat, t: Tid)
    requires Execution(run) && i < |run| && t in run[i].readers
    ensures var s, pc := run[i], run[i].readers[t];
            && (pc.GotTail? ==>
                  ReaderInRange(s, pc) && HeaderInRange(s, pc.h) &&
                    s.entries[s.headers[pc.h].index[pc.tail]].key != INVALID_BLOCK_BASE)
            && (pc.AtSlot? ==> (
                 && ReaderInRange(s, pc) && HeaderInRange(s, pc.h) && pc.i / BLOCK_SIZE in s.live
                 && s.entries[s.headers[pc.h].index[pc.idx]].key == Key(pc.i / BLOCK_SIZE)
                 && s.entries[s.headers[pc.h].index[pc.idx]].value == Ptr(s.live[pc.i / BLOCK_SIZE])))
            && (pc.Holding? ==> pc.i / BLOCK_SIZE in s.live && pc.block == s.live[pc.i / BLOCK_SIZE])
  {
    hide Execution, KeysOk, ValuesOk, OwnersOk;
    ExecutionInv(run, i);
    var s, pc := run[i], run[i].readers[t];
    assert ReaderOk(s, pc);
    if pc.GotTail? || pc.AtSlot? {
      var b := pc.i / BLOCK_SIZE;
      PendingLive(s, t, b);
      assert HeaderInRange(s, pc.h);
      hide CountsOk, ReadersOk, HeadersOk;
      NotMid(s, b);
      if pc.GotTail? { TailEntry(s, pc.h, b, pc.k); KeyIsValid(pc.k); }
      else { EntryOf(s, pc.h, b); }
    }
  }

  /** After the ring has doubled, the slot after the tail has never been used. */
  lemma NewSlotIsUnused(run: seq<State>, i: nat)
    requires Execution(run) && i < |run| && Enabled(run[i], Grow(true)) && 2 * |Cur(run[i]).index| <= BASES
    ensures var s' := Do(run[i], Grow(true));
            s'.producer.Keying? && s'.producer.e < |s'.entries| && s'.entries[s'.producer.e].key == INVALID_BLOCK_BASE
  {
    hide Execution, Ring, CountsOk, ReadersOk, ProducerOk;
    ExecutionInv(run, i);
    GrowHeaders(run[i]);
    GrowProducer(run[i]);
  }

  /** Every array access is within bounds: the producer and every dequeuer in the middle of an
      operation can always take their next step. */
  lemma NeverOutOfRange(run: seq<State>, i: nat)
    requires Execution(run) && i < |run|
    ensures forall t | t in run[i].readers && !run[i].readers[t].Resting? :: Enabled(run[i], Step(t))
    ensures var s, p := run[i], run[i].producer;
            && (p.Idle? ==> Enabled(s, Decide)) && (p.Growing? ==> Enabled(s, Grow(true)))
            && (p.Keying? ==> Enabled(s, StoreKey)) && (p.Tailing? ==> Enabled(s, StoreTail))
            && (p.Valuing? ==> forall b :: Enabled(s, Take(b)))
            && (p.Rewinding? || p.UndoTail? ==> Enabled(s, Rewind))
            && (p.Nulling? ==> Enabled(s, StoreNull)) && (p.Undo? ==> Enabled(s, UndoStep))
  {
    hide Execution;
    ExecutionInv(run, i);
    var s := run[i];
    RingCur(s);
    hide Ring;
    forall t | t in s.readers && !s.readers[t].Resting? ensures Enabled(s, Step(t)) {
      assert ReaderOk(s, s.readers[t]);
      if s.readers[t].Holding? { PendingLive(s, t, s.readers[t].i / BLOCK_SIZE); }
    }
  }

  // ---- finished blocks ----

  /** Some dequeuer is about to take block b out of the index. */
  ghost predicate BeingFreed(s: State, b: int) {
    exists t :: t in s.readers && s.readers[t].Freeing? && s.readers[t].b == b
  }

  ghost predicate Finished(s: State, b: int) {
    0 <= b < Blocks(s.tail) && b in s.done && s.done[b] == BLOCK_SIZE
  }

  ghost predicate FinishedOk(s: State) {
    forall b | Finished(s, b) && b in s.live :: BeingFreed(s, b)
  }

  /** Steps of the producer: they finish no block and take no dequeuer further. */
  lemma ProducerFinished(s: State, s': State)
    requires FinishedOk(s) && s'.readers == s.readers
    requires forall b | Finished(s', b) && b in s'.live :: Finished(s, b) && b in s.live
    ensures FinishedOk(s')
  {
    forall b | Finished(s', b) && b in s'.live ensures BeingFreed(s', b) { assert BeingFreed(s, b); }
  }

  lemma PublishFinished(s: State, n: nat)
    requires CountsOk(s) && FinishedOk(s) && Enabled(s, Publish(n))
    ensures FinishedOk(Do(s, Publish(n)))
  {
    var s' := Do(s, Publish(n));
    forall b | Finished(s', b) && b in s'.live ensures Finished(s, b) { }
    ProducerFinished(s, s');
  }

  lemma TakeFinished(s: State, block: Block)
    requires HeadersInRange(s) && ProducerOk(s) && FinishedOk(s) && Enabled(s, Take(block))
    ensures FinishedOk(Do(s, Take(block)))
  {
    ProducerFinished(s, Do(s, Take(block)));
  }

  /** A dequeuer that is not taking a block out, and does not come to finish one. */
  lemma ReaderFinished(s: State, s': State, t: Tid)
    requires FinishedOk(s) && t in s.readers && !s.readers[t].Freeing? && t in s'.readers
    requires s'.readers == s.readers[t := s'.readers[t]]
    requires s'.tail == s.tail && s'.done == s.done && s'.live == s.live
    ensures FinishedOk(s')
  {
    forall b | Finished(s', b) && b in s'.live ensures BeingFreed(s', b) {
      assert Finished(s, b);
      var u :| u in s.readers && s.readers[u].Freeing? && s.readers[u].b == b;
      assert s'.readers[u].Freeing?;
    }
  }

  lemma HoldingFinished(s: State, t: Tid)
    requires FinishedOk(s) && Enabled(s, Step(t)) && s.readers[t].Holding?
    ensures FinishedOk(StepReader(s, t))
  {
    var s', x := StepReader(s, t), s.readers[t].i / BLOCK_SIZE;
    forall b | Finished(s', b) && b in s'.live ensures BeingFreed(s', b) {
      if b == x {
        assert s'.readers[t].Freeing? && s'.readers[t].b == b;
      } else {
        assert Finished(s, b);
        var u :| u in s.readers && s.readers[u].Freeing? && s.readers[u].b == b;
        assert s'.readers[u] == s.readers[u];
      }
    }
  }

  lemma FreeingFinished(s: State, t: Tid)
    requires FinishedOk(s) && Enabled(s, Step(t)) && s.readers[t].Freeing?
    ensures FinishedOk(StepReader(s, t))
  {
    var s' := StepReader(s, t);
    forall b | Finished(s', b) && b in s'.live ensures BeingFreed(s', b) {
      assert Finished(s, b) && b != s.readers[t].b;
      var u :| u in s.readers && s.readers[u].Freeing? && s.readers[u].b == b;
      assert s'.readers[u] == s.readers[u];
    }
  }

  lemma FinishedStep(s: State, a: Action)
    requires Inv(s) && FinishedOk(s) && Enabled(s, a)
    ensures FinishedOk(Do(s, a))
  {
    RingCur(s);
    hide Ring, ReadersOk, FinishedOk, StepReader;
    match a
    case Publish(n) => PublishFinished(s, n);
    case Take(block) => TakeFinished(s, block);
    case Claim(t, n) => ReaderFinished(s, Do(s, a), t);
    case Step(t) =>
      if s.readers[t].Holding? { HoldingFinished(s, t); }
      else if s.readers[t].Freeing? { FreeingFinished(s, t); }
      else { LoadFinished(s, t); }
    case _ => PrivateFinished(s, a);
  }

  lemma LoadFinished(s: State, t: Tid)
    requires FinishedOk(s) && Enabled(s, Step(t)) && !s.readers[t].Holding? && !s.readers[t].Freeing?
    ensures FinishedOk(StepReader(s, t))
  {
    hide FinishedOk;
    ReaderFinished(s, StepReader(s, t), t);
  }

  lemma PrivateFinished(s: State, a: Action)
    requires FinishedOk(s) && Enabled(s, a) && !a.Publish? && !a.Take? && !a.Claim? && !a.Step?
    ensures FinishedOk(Do(s, a))
  {
    hide FinishedOk, Bigger, NewTail, Key;
    ProducerFinished(s, Do(s, a));
  }

  lemma {:induction false} ExecutionFinished(run: seq<State>, i: nat)
    requires Execution(run) && i < |run|
    ensures FinishedOk(run[i])
  {
    hide Inv, Do, FinishedOk;
    if i == 0 {
      NothingFinished(run[0]);
    } else {
      ExecutionFinished(run, i - 1);
      ExecutionInv(run, i - 1);
      assert Next(run[i - 1], run[i - 1 + 1]);
      var a: Action :| Enabled(run[i - 1], a) && run[i] == Do(run[i - 1], a);
      FinishedStep(run[i - 1], a);
    }
  }

  lemma NothingFinished(s: State)
    requires Init(s)
    ensures FinishedOk(s)
  {
  }

  /** A block whose last element has been dequeued leaves the index: it is still there only
      while the dequeuer that emptied it is about to take it out. */
  lemma FinishedBlocksLeave(run: seq<State>, i: nat, b: int)
    requires Execution(run) && i < |run| && 0 <= b < Blocks(run[i].tail)
    ensures b in run[i].done
    ensures run[i].done[b] == BLOCK_SIZE && b in run[i].live ==>
              exists t :: t in run[i].readers && run[i].readers[t].Freeing? && run[i].readers[t].b == b
  {
    hide Execution, Ring, ProducerOk, ReadersOk;
    ExecutionInv(run, i);
    assert BlockCount(run[i], b);
    ExecutionFinished(run, i);
    assert Finished(run[i], b) && b in run[i].live ==> BeingFreed(run[i], b);
  }

  ghost predicate ReadersRest(s: State) { forall t | t in s.readers :: s.readers[t].Resting? }

  lemma QuietDone(s: State, b: int)
    requires CountsOk(s) && ReadersRest(s) && 0 <= b < Blocks(s.tail)
    ensures b in s.done && s.done[b] == Claims(s.head, b)
    ensures s.done[b] == BLOCK_SIZE <==> b < s.head / BLOCK_SIZE
    ensures s.done[b] < BLOCK_SIZE ==> b in s.live
  {
    assert BlockCount(s, b);
    TallyZero(s.readers, Weight(b));
  }

  /** When no dequeuer is at work and the producer is idle, the index stands for exactly the
      blocks from the one the headIndex is in up to the last one inserted. */
  lemma QuietIndex(run: seq<State>, i: nat, b: int)
    requires Execution(run) && i < |run| && ReadersRest(run[i]) && run[i].producer.Idle?
    ensures b in run[i].live <==> run[i].head / BLOCK_SIZE <= b < run[i].next
  {
    var s := run[i];
    hide Execution, ReadersOk, FinishedOk;
    ExecutionInv(run, i);
    RingCur(s);
    RingLive(s);
    hide Ring;
    HeadBlock(s.head, s.tail);
    if 0 <= b < Blocks(s.tail) {
      FinishedBlocksLeave(run, i, b);
      QuietDone(s, b);
    } else {
      hide CountsOk;
    }
  }

  lemma HeadBlock(head: nat, tail: nat)
    requires head <= tail
    ensures head / BLOCK_SIZE <= Blocks(tail)
  {
  }

  /** The next block goes into the ring if the slot after the tail is free, and the ring grows
      exactly if the block one round earlier is still in the index. */
  lemma GrowsIffFull(run: seq<State>, i: nat)
    requires Execution(run) && i < |run| && Enabled(run[i], Decide)
    ensures Do(run[i], Decide).producer.Growing? <==> run[i].next - |Cur(run[i]).index| in run[i].live
    ensures Do(run[i], Decide).producer.Growing? || Do(run[i], Decide).producer.Keying?
  {
    hide Execution, CountsOk, ReadersOk;
    ExecutionInv(run, i);
    DecideGrows(run[i]);
  }

  lemma DecideGrows(s: State)
    requires Ring(s) && ProducerOk(s) && Enabled(s, Decide)
    ensures Do(s, Decide).producer.Growing? <==> s.next - |Cur(s).index| in s.live
  {
    var cur, c := Cur(s), |Cur(s).index|;
    assert HeaderInRange(s, |s.headers| - 1);
    NextEntry(s);
    RoundEarlier(s);
    hide HeadersOk, At, NewTail;
    if s.next < cur.high {
      assert InWindow(s, s.next);
      assert !InWindow(s, s.next - c);
    } else {
      assert InWindow(s, cur.high - c);
      KeyIsValid(cur.high - c);
    }
  }

  /** So with no dequeuer at work it grows exactly when every slot of the ring holds a block
      that still has elements. */
  lemma GrowsOnlyWhenFull(run: seq<State>, i: nat)
    requires Execution(run) && i < |run| && Enabled(run[i], Decide) && ReadersRest(run[i])
    ensures Do(run[i], Decide).producer.Growing? <==>
            run[i].next - run[i].head / BLOCK_SIZE >= |Cur(run[i]).index|
  {
    hide Execution, Do;
    assert HeaderInRange(run[i], |run[i].headers| - 1);
    GrowsIffFull(run, i);
    QuietIndex(run, i, run[i].next - |Cur(run[i]).index|);
  }

  /** A block that has left the index is not found any more: the slot its base leads to holds
      no block, as long as the ring has not gone round. */
  lemma GoneBlocksAreNull(run: seq<State>, i: nat, b: int)
    requires Execution(run) && i < |run| && 0 <= b < Blocks(run[i].tail) && b !in run[i].live
    ensures |run[i].headers| > 0
    ensures InWindow(run[i], b) && b >= run[i].lo ==>
              HeadersInRange(run[i]) && run[i].entries[Find(run[i], Key(b))].value == Null
  {
    hide Execution, CountsOk, ReadersOk, KeysOk, OwnersOk, HeadersOk;
    ExecutionInv(run, i);
    var s := run[i];
    RingCur(s);
    if InWindow(s, b) && b >= s.lo {
      assert b <= Cur(s).top < Cur(s).high && !Mid(s, b);
      FindIs(s, b);
    }
  }
}
