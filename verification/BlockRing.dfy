/**
  Index arithmetic of the block ring.  Blocks are numbered in insertion order.  Block b covers
  the element indices from 32 * b on; its base is stored in a 64-bit word, so the key is that
  number modulo 2^64.  Masking with a power of two less one is taking the remainder.
 */
module BlockRing {
  import opened Basics
  import opened Modular

  const BLOCK_SIZE: nat := 32
  const INITIAL_INDEX_SIZE: nat := 32
  const INVALID_BLOCK_BASE: nat := 1
  const WORD: nat := 0x1_0000_0000_0000_0000
  /** 2^59, the number of block bases in a word. */
  const BASES: nat := 0x800_0000_0000_0000

  /** `phase`, `high` and `top` are history: block b belongs in slot (b + phase) mod
      capacity, blocks below `high` have been stored through this header, and `tail` is
      the slot of block `top`. */
  datatype Header = Header(index: seq<nat>, tail: nat, phase: int, high: int, top: int)

  // ---- index arithmetic ----

  /** The word that stands for block b's base. */
  function Key(b: int): nat { (BLOCK_SIZE * b) % WORD }

  function Slot(h: Header, b: int): (r: nat)
    requires |h.index| > 0
    ensures r < |h.index|
  {
    (b + h.phase) % |h.index|
  }

  /** The subtraction wraps in 64 bits, and the division is unsigned: BLOCK_SIZE is a
      size_t, so the signed dividend is converted. */
  function Offset(base: nat, tailBase: nat): nat { (base - tailBase) % WORD / BLOCK_SIZE }

  function SlotFor(h: Header, tail: nat, tailBase: nat, base: nat): (r: nat)
    requires |h.index| > 0
    ensures r < |h.index|
  {
    (tail + Offset(base, tailBase)) % |h.index|
  }

  lemma KeyOffset(b: int, k: int)
    ensures Offset(Key(b), Key(k)) == (b - k) % BASES
  {
    var x, y := BLOCK_SIZE * b, BLOCK_SIZE * k;
    var d := BLOCK_SIZE * ((b - k) % BASES);
    var q := (b - k) / BASES + y / WORD - x / WORD;
    assert Key(b) - Key(k) == (x - WORD * (x / WORD)) - (y - WORD * (y / WORD));
    RemainderUnique(Key(b) - Key(k), q, d, WORD);
  }

  lemma KeyIsValid(b: int)
    ensures Key(b) != INVALID_BLOCK_BASE
  {
    var x := BLOCK_SIZE * b;
    assert x == WORD * (x / WORD) + Key(b);
  }

  /** A capacity that divides 2^59 makes the wrapped, unsigned offset land in the slot of
      the block looked for, whichever side of the tail it is on. */
  lemma LookupSlot(h: Header, b: int, k: int)
    requires PowerOfTwo(|h.index|) && |h.index| <= BASES
    ensures |h.index| > 0 && SlotFor(h, Slot(h, k), Key(k), Key(b)) == Slot(h, b)
  {
    var c := |h.index|;
    KeyOffset(b, k);
    BasesIsPower();
    PowerDivides(c, BASES);
    hide PowerOfTwo;
    RingShift(k + h.phase, b - k, c, BASES / c);
  }

  lemma RingShift(x: int, d: int, c: int, p: int)
    requires c > 0 && BASES == c * p
    ensures (x % c + d % BASES) % c == (x + d) % c
  {
    var q, r := d / BASES, x / c;
    assert x % c + d % BASES == x + d + c * (-p * q - r) by {
      assert x == c * r + x % c;
      assert c * (-p * q - r) == -(c * p) * q - c * r;
    }
    SameRemainder(x % c + d % BASES, x + d, -p * q - r, c);
  }

  lemma BasesIsPower()
    ensures PowerOfTwo(BASES)
  {
    assert PowerOfTwo(8) && PowerOfTwo(16);
    PowerTimes(16, 16);
    PowerTimes(256, 256);
    PowerTimes(65536, 65536);
    PowerTimes(256, 8);
    PowerTimes(65536, 2048);
    PowerTimes(0x1_0000_0000, 0x800_0000);
  }

  /** Consecutive blocks sit in consecutive slots of the ring. */
  lemma NextSlot(h: Header, b: int)
    requires |h.index| > 0
    ensures Slot(h, b + 1) == (Slot(h, b) + 1) % |h.index|
  {
    var c, x := |h.index|, b + h.phase;
    assert c * (x / c) + x % c == x;
    SameRemainder(x + 1, x % c + 1, x / c, c);
  }

  lemma SlotsDiffer(h: Header, a: int, b: int)
    requires |h.index| > 0 && -|h.index| < a - b < |h.index| && a != b
    ensures Slot(h, a) != Slot(h, b)
  {
    if Slot(h, a) == Slot(h, b) {
      RemaindersDiffer(a + h.phase, b + h.phase, |h.index|);
    }
  }

  lemma PrevSlot(h: Header, b: int)
    requires |h.index| > 0
    ensures Slot(h, b - 1) == (Slot(h, b) - 1) % |h.index|
  {
    var c, x := |h.index|, b + h.phase;
    assert c * (x / c) + x % c == x;
    SameRemainder(x - 1, x % c - 1, x / c, c);
  }

  // ---- growing the ring ----

  /** The index array new_block_index builds: the old entries from the oldest on, then
      new ones. */
  function Rotated(h: Header, unused: nat): (r: seq<nat>)
    requires 0 <= h.tail < |h.index|
    ensures |r| == 2 * |h.index|
  {
    var c := |h.index|;
    seq(2 * c, i requires 0 <= i < 2 * c => if i < c then h.index[(h.tail + 1 + i) % c] else unused + (i - c))
  }

  /** The slot after the tail. */
  function NewTail(h: Header): (r: nat)
    requires |h.index| > 0
    ensures r < |h.index|
  {
    (h.tail + 1) % |h.index|
  }

  function Bigger(h: Header, unused: nat, next: int): Header
    requires 0 <= h.tail < |h.index|
  {
    Header(Rotated(h, unused), |h.index| - 1, |h.index| - next, h.high, next - 1)
  }

  /** The blocks of the old ring keep their entries, in order, at the front of the new one;
      the slots before them are unused. */
  lemma RotatedAt(h: Header, unused: nat, next: int, j: int)
    requires |h.index| > 0 && h.tail == Slot(h, next - 1) && next - 2 * |h.index| <= j < next
    ensures var h' := Bigger(h, unused, next);
            h'.index[Slot(h', j)] ==
            if next - |h.index| <= j then h.index[Slot(h, j)] else unused + (j + 2 * |h.index| - next)
  {
    var c, h' := |h.index|, Bigger(h, unused, next);
    if next - c <= j {
      RemainderUnique(j + h'.phase, 0, j + c - next, 2 * c);
      OldSlot(h, next, j);
    } else {
      RemainderUnique(j + h'.phase, -1, j + 3 * c - next, 2 * c);
    }
  }

  /** An old block's slot, counted from the one after the tail. */
  lemma OldSlot(h: Header, next: int, j: int)
    requires |h.index| > 0 && h.tail == Slot(h, next - 1) && next - |h.index| <= j < next
    ensures (h.tail + 1 + (j + |h.index| - next)) % |h.index| == Slot(h, j)
  {
    var c, x, i := |h.index|, next - 1 + h.phase, j + |h.index| - next;
    assert x == c * (x / c) + h.tail;
    assert c * (1 - x / c) == c - c * (x / c);
    SameRemainder(h.tail + 1 + i, j + h.phase, 1 - x / c, c);
  }

  lemma RotatedDistinct(h: Header, unused: nat)
    requires 0 <= h.tail < |h.index| && Distinct(h.index) && forall i | 0 <= i < |h.index| :: h.index[i] < unused
    ensures Distinct(Rotated(h, unused))
    ensures forall i | 0 <= i < 2 * |h.index| :: Rotated(h, unused)[i] < unused + |h.index|
  {
    var c, r := |h.index|, Rotated(h, unused);
    forall i, j | 0 <= i < j < |r| ensures r[i] != r[j] {
      if j < c && (h.tail + 1 + i) % c == (h.tail + 1 + j) % c {
        RemaindersDiffer(h.tail + 1 + i, h.tail + 1 + j, c);
      }
    }
  }

  /** The old slot that the copy reads as its i-th. */
  ghost function Source(h: Header, i: nat): (r: nat)
    requires |h.index| > 0
    ensures r < |h.index|
  {
    (h.tail + 1 + i) % |h.index|
  }

  /** The next slot round the ring. */
  function Onward(h: Header, pos: nat): (r: nat)
    requires |h.index| > 0
    ensures r < |h.index|
  {
    (pos + 1) % |h.index|
  }

  lemma SourceStep(h: Header, i: nat)
    requires 0 <= h.tail < |h.index| && i < |h.index|
    ensures Source(h, 0) == NewTail(h) && Source(h, i + 1) == Onward(h, Source(h, i))
    ensures Source(h, i) == h.tail <==> i == |h.index| - 1
  {
    var c, x := |h.index|, h.tail + 1 + i;
    assert x == c * (x / c) + x % c;
    SameRemainder(x + 1, x % c + 1, x / c, c);
    RemainderUnique(h.tail + c, 1, h.tail, c);
    RemainderUnique(h.tail, 0, h.tail, c);
    if i < c - 1 && x % c == h.tail { RemaindersDiffer(x, h.tail, c); }
  }

  /** The do-while loop of new_block_index: entry by entry, starting after the tail, until it
      comes round to the tail again. */
  method CopyOld(h: Header, index: array<nat>)
    requires 0 <= h.tail < |h.index| <= index.Length
    modifies index
    ensures forall k | 0 <= k < |h.index| :: index[k] == h.index[Source(h, k)]
  {
    hide Source, NewTail, Onward;
    SourceStep(h, 0);
    var pos, i := NewTail(h), 1;
    index[0] := h.index[pos];
    while pos != h.tail
      invariant 1 <= i <= |h.index| && pos == Source(h, i - 1)
      invariant forall k | 0 <= k < i :: index[k] == h.index[Source(h, k)]
      decreases |h.index| - i
    {
      SourceStep(h, i - 1);
      pos := Onward(h, pos);
      index[i] := h.index[pos];
      i := i + 1;
    }
    SourceStep(h, i - 1);
  }

  lemma RotatedParts(h: Header, unused: nat, s: seq<nat>)
    requires 0 <= h.tail < |h.index| && |s| == 2 * |h.index|
    requires forall k | 0 <= k < |h.index| :: s[k] == h.index[Source(h, k)]
    requires forall k | |h.index| <= k < |s| :: s[k] == unused + (k - |h.index|)
    ensures s == Rotated(h, unused)
  {
  }

  /** new_block_index copies the ring and adds as many unused entries. */
  method CopyRing(h: Header, unused: nat) returns (index: array<nat>)
    requires 0 <= h.tail < |h.index|
    ensures fresh(index) && index[..] == Rotated(h, unused)
  {
    hide Source, Rotated;
    var c := |h.index|;
    index := new nat[2 * c];
    CopyOld(h, index);
    for k := c to 2 * c
      invariant forall x | 0 <= x < c :: index[x] == h.index[Source(h, x)]
      invariant forall x | c <= x < k :: index[x] == unused + (x - c)
    {
      index[k] := unused + (k - c);
    }
    RotatedParts(h, unused, index[..]);
  }
}
