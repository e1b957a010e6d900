/**
  The byte buffer of a connection: an array with a reader and a writer index, some space
  kept free in front.  Every operation is proved against the sequence of readable bytes.
 */
module NetBuffer {
  type Byte = x: int | 0 <= x < 256

  const CHEAP_PREPEND: nat := 8
  const INITIAL_SIZE: nat := 4096
  const EXTRA_BUFFER_SIZE: nat := 20480

  /** Four bytes, most significant first. */
  function BigEndian(n: nat): (r: seq<Byte>)
    requires n < 0x1_0000_0000
    ensures |r| == 4
  {
    [n / 0x100_0000, n / 0x1_0000 % 256, n / 256 % 256, n % 256]
  }

  function FromBigEndian(s: seq<Byte>): (r: nat)
    requires |s| >= 4
    ensures r < 0x1_0000_0000
  {
    var a: int, b: int, c: int, d: int := s[0], s[1], s[2], s[3];
    a * 0x100_0000 + b * 0x1_0000 + c * 256 + d
  }

  lemma BigEndianRoundTrip(n: nat)
    requires n < 0x1_0000_0000
    ensures FromBigEndian(BigEndian(n)) == n
  {
    var a, b, c := n / 256, n / 0x1_0000, n / 0x100_0000;
    assert b == a / 256 && c == b / 256;
  }

  /** std::copy into part of an array. */
  method CopyIn(a: array<Byte>, at: nat, bytes: seq<Byte>)
    requires at + |bytes| <= a.Length
    modifies a
    ensures a[..] == old(a[..at]) + bytes + old(a[at + |bytes|..])
  {
    for i := 0 to |bytes|
      invariant forall k | 0 <= k < a.Length && !(at <= k < at + i) :: a[k] == old(a[k])
      invariant forall k | at <= k < at + i :: a[k] == bytes[k - at]
    {
      a[at + i] := bytes[i];
    }
  }

  /** What lies between reader and the end of bytes copied in at `at`. */
  lemma Tail(s: seq<Byte>, reader: nat, at: nat, bytes: seq<Byte>)
    requires reader <= at && at + |bytes| <= |s|
    ensures (s[..at] + bytes + s[at + |bytes|..])[reader..at + |bytes|] == s[reader..at] + bytes
  {
  }

  /** What lies between the start of bytes copied in at `at` and writer. */
  lemma Front(s: seq<Byte>, at: nat, writer: nat, bytes: seq<Byte>)
    requires at + |bytes| <= writer <= |s|
    ensures (s[..at] + bytes + s[at + |bytes|..])[at..writer] == bytes + s[at + |bytes|..writer]
  {
  }

  class Buffer {
    var data: array<Byte>
    var reader: nat
    var writer: nat

    ghost predicate Valid()
      reads this
    {
      reader <= writer <= data.Length && CHEAP_PREPEND <= data.Length
    }

    /** The readable bytes. */
    ghost function Contents(): seq<Byte>
      requires Valid()
      reads this, data
    {
      data[reader..writer]
    }

    constructor (initial: nat)
      ensures Valid() && fresh(data) && Contents() == [] && reader == CHEAP_PREPEND && Writable() == initial
    {
      data := new Byte[CHEAP_PREPEND + initial];
      reader, writer := CHEAP_PREPEND, CHEAP_PREPEND;
    }

    function Readable(): int
      reads this
    {
      writer - reader
    }

    function Writable(): int
      reads this
    {
      data.Length - writer
    }

    method RetrieveAll()
      requires Valid()
      modifies this
      ensures Valid() && Contents() == [] && data == old(data) && reader == CHEAP_PREPEND
    {
      reader, writer := CHEAP_PREPEND, CHEAP_PREPEND;
    }

    method Retrieve(len: nat)
      requires Valid() && len <= Readable()
      modifies this
      ensures Valid() && data == old(data) && Contents() == old(Contents())[len..]
      ensures reader == if len < old(Readable()) then old(reader) + len else CHEAP_PREPEND
    {
      if len < Readable() {
        reader := reader + len;
      } else {
        RetrieveAll();
      }
    }

    /** Room for len more bytes: a bigger array, or the readable bytes moved down over the
        space in front, source and destination overlapping. */
    method MakeSpace(len: nat)
      requires Valid() && Writable() < len
      modifies this, data
      ensures Valid() && Contents() == old(Contents()) && Writable() >= len
      ensures if old(Writable()) + old(reader) < len + CHEAP_PREPEND
              then fresh(data) && data.Length == old(writer) + len && reader == old(reader)
              else data == old(data) && reader == CHEAP_PREPEND
    {
      if Writable() + reader < len + CHEAP_PREPEND {
        Resize(writer + len);
      } else {
        MoveDown();
      }
    }

    /** The bytes up to writer in a bigger array. */
    method Resize(size: nat)
      requires Valid() && data.Length < size
      modifies this`data
      ensures Valid() && Contents() == old(Contents()) && fresh(data) && data.Length == size
    {
      ghost var was := data[..];
      var bigger := new Byte[size];
      for i := 0 to writer
        invariant data == old(data) && data[..] == was
        invariant forall k | 0 <= k < i :: bigger[k] == was[k]
      {
        bigger[i] := data[i];
      }
      assert bigger[reader..writer] == was[reader..writer];
      data := bigger;
    }

    /** The readable bytes moved down to the start, front first. */
    method MoveDown()
      requires Valid() && CHEAP_PREPEND < reader
      modifies this`reader, this`writer, data
      ensures Valid() && Contents() == old(Contents()) && reader == CHEAP_PREPEND
      ensures writer == CHEAP_PREPEND + old(Readable())
    {
      ghost var was, gap := data[..], reader - CHEAP_PREPEND;
      var readable := Readable();
      for i := 0 to readable
        invariant reader == old(reader) && writer == old(writer)
        invariant forall k | CHEAP_PREPEND <= k < CHEAP_PREPEND + i :: data[k] == was[k + gap]
        invariant forall k | CHEAP_PREPEND + i <= k < data.Length :: data[k] == was[k]
      {
        data[CHEAP_PREPEND + i] := data[reader + i];
      }
      reader := CHEAP_PREPEND;
      writer := reader + readable;
      assert data[reader..writer] == was[reader + gap..writer + gap];
    }

    method Append(bytes: seq<Byte>)
      requires Valid()
      modifies this, data
      ensures Valid() && Contents() == old(Contents()) + bytes
      ensures reader == old(reader) || reader == CHEAP_PREPEND
      ensures data == old(data) || fresh(data)
    {
      if Writable() < |bytes| {
        MakeSpace(|bytes|);
      }
      Fill(bytes);
    }

    /** Bytes written into the free space become readable. */
    method Fill(bytes: seq<Byte>)
      requires Valid() && |bytes| <= Writable()
      modifies this`writer, data
      ensures Valid() && Contents() == old(Contents()) + bytes && writer == old(writer) + |bytes|
    {
      ghost var before := data[..];
      CopyIn(data, writer, bytes);
      Tail(before, reader, writer, bytes);
      writer := writer + |bytes|;
      assert data[reader..writer] == data[..][reader..writer];
    }

    method Prepend(bytes: seq<Byte>)
      requires Valid() && |bytes| <= reader
      modifies this, data
      ensures data == old(data) && reader == old(reader) - |bytes| && writer == old(writer)
      ensures Valid() && Contents() == bytes + old(Contents())
    {
      reader := reader - |bytes|;
      ghost var before := data[..];
      CopyIn(data, reader, bytes);
      Front(before, reader, writer, bytes);
      assert data[reader..writer] == data[..][reader..writer];
    }

    /** How much one scatter read may deliver: at least the extra buffer's size, and more than the
        array has room for only when that is less than the extra buffer's size. */
    function ReadLimit(): (r: int)
      reads this
      ensures r >= Writable() && (Writable() >= 0 ==> r >= EXTRA_BUFFER_SIZE)
      ensures r > Writable() ==> r < 2 * EXTRA_BUFFER_SIZE
    {
      Writable() + if Writable() < EXTRA_BUFFER_SIZE then EXTRA_BUFFER_SIZE else 0
    }

    /** The scatter read: the kernel fills the free space of the array, then the extra buffer
        on the stack, which is appended. */
    method ReadFd(arrived: seq<Byte>)
      requires Valid() && |arrived| <= ReadLimit()
      modifies this, data
      ensures Valid() && Contents() == old(Contents()) + arrived
      ensures data == old(data) || fresh(data)
    {
      var writable := Writable();
      if |arrived| <= writable {
        Fill(arrived);
      } else {
        Fill(arrived[..writable]);
        assert arrived == arrived[..writable] + arrived[writable..];
        Append(arrived[writable..]);
      }
    }

    method PeekInt32() returns (n: nat)
      requires Valid() && Readable() >= 4
      ensures n == FromBigEndian(Contents())
    {
      n := FromBigEndian(data[reader..reader + 4]);
      assert data[reader..reader + 4] == Contents()[..4];
    }
  }
}
