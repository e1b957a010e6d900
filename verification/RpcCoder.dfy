/**
  Length-prefixed framing of RPC messages over a connection's buffer.  A message body is an
  abstract byte string: serialising and parsing it is protobuf's business.
 */
module RpcCoder {
  import opened Basics
  import opened NetBuffer

  type Payload = seq<Byte>

  const HEADER_LEN: nat := 4

  /** Longest payload whose frame length still fits an int32. */
  const MAX_PAYLOAD: nat := 0x7FFF_FFFF - 4

  function Frame(p: Payload): (r: seq<Byte>)
    requires |p| <= MAX_PAYLOAD
    ensures |r| == HEADER_LEN + |p|
  {
    BigEndian(|p|) + p
  }

  predicate Sendable(ps: seq<Payload>) { forall i | 0 <= i < |ps| :: |ps[i]| <= MAX_PAYLOAD }

  /** Frames one after the other. */
  function Stream(ps: seq<Payload>): seq<Byte>
    requires Sendable(ps)
  {
    if ps == [] then [] else Frame(ps[0]) + Stream(ps[1..])
  }

  /** Whether a whole frame has arrived. */
  predicate Complete(bytes: seq<Byte>) {
    |bytes| >= HEADER_LEN && |bytes| >= HEADER_LEN + FromBigEndian(bytes)
  }

  lemma FrameHeader(p: Payload, rest: seq<Byte>)
    requires |p| <= MAX_PAYLOAD
    ensures FromBigEndian(Frame(p) + rest) == |p|
    ensures Complete(Frame(p) + rest)
    ensures (Frame(p) + rest)[HEADER_LEN..HEADER_LEN + |p|] == p && (Frame(p) + rest)[HEADER_LEN + |p|..] == rest
  {
    BigEndianRoundTrip(|p|);
    assert (Frame(p) + rest)[..4] == BigEndian(|p|);
  }

  /** What is buffered of a stream of frames shows the first frame's length once it has four
      bytes, and with nothing left to come an incomplete buffer is an empty one. */
  lemma PrefixHeader(bytes: seq<Byte>, later: seq<Byte>, ps: seq<Payload>)
    requires Sendable(ps) && bytes + later == Stream(ps)
    ensures |bytes| >= HEADER_LEN ==> ps != [] && FromBigEndian(bytes) == |ps[0]|
    ensures later == [] && !Complete(bytes) ==> ps == [] && bytes == []
  {
    if ps != [] {
      var rest := Stream(ps[1..]);
      FrameHeader(ps[0], rest);
      if |bytes| >= HEADER_LEN {
        assert (bytes + later)[..4] == bytes[..4];
      }
      if later == [] { assert bytes == Frame(ps[0]) + rest; }
    }
  }

  /** A frame taken off the front of the stream is the first one sent. */
  lemma FirstFrame(p: Payload, rest: seq<Byte>, later: seq<Byte>, ps: seq<Payload>)
    requires Sendable(ps) && |p| <= MAX_PAYLOAD && (Frame(p) + rest) + later == Stream(ps)
    ensures ps != [] && p == ps[0] && rest + later == Stream(ps[1..])
  {
    FrameHeader(p, rest + later);
    assert (Frame(p) + rest) + later == Frame(p) + (rest + later);
    FrameHeader(ps[0], Stream(ps[1..]));
  }

  /** pack: appends the body and puts the length of everything readable in front. */
  method Pack(buf: Buffer, body: Payload)
    requires buf.Valid() && buf.reader >= HEADER_LEN && |buf.Contents()| + |body| <= MAX_PAYLOAD
    modifies buf, buf.data
    ensures buf.Valid() && buf.Contents() == Frame(old(buf.Contents()) + body)
    ensures buf.data == old(buf.data) || fresh(buf.data)
  {
    buf.Append(body);
    buf.Prepend(BigEndian(buf.Readable()));
  }

  /** What unpack comes to: a message, nothing yet, an exception from the string of negative
      length it builds, or an int32 overflow, where the language leaves the rest undefined. */
  datatype Unpacked = Message(payload: Payload) | Incomplete | Throws | Overflows

  /** A 32-bit word read as a signed number. */
  function AsInt32(n: nat): (r: int)
    requires n < 0x1_0000_0000
    ensures -0x8000_0000 <= r < 0x8000_0000 && (r == n || r + 0x1_0000_0000 == n)
  {
    if n < 0x8000_0000 then n else n - 0x1_0000_0000
  }

  /** unpack: takes the first frame off the buffer, or leaves the buffer alone when the frame
      is not complete.  The length is signed: one of -4 to -1 passes the test on the readable
      bytes, any smaller one fails it. */
  method Unpack(buf: Buffer) returns (r: Unpacked)
    requires buf.Valid() && buf.Readable() >= HEADER_LEN
    modifies buf
    ensures buf.Valid() && buf.data == old(buf.data)
    ensures var len := AsInt32(FromBigEndian(old(buf.Contents())));
            && (r.Message? <==> 0 <= len <= MAX_PAYLOAD && old(Complete(buf.Contents())))
            && (r.Throws? <==> -4 <= len < 0)
            && (r.Overflows? <==> len > MAX_PAYLOAD)
    ensures r.Message? ==> |r.payload| <= MAX_PAYLOAD && Frame(r.payload) + buf.Contents() == old(buf.Contents())
    ensures !r.Message? ==> buf.Contents() == old(buf.Contents())
  {
    hide FromBigEndian, BigEndian;
    var word := buf.PeekInt32();
    var len := AsInt32(word);
    if len > MAX_PAYLOAD {
      r := Overflows;
    } else if HEADER_LEN + len >= 0 && buf.Readable() >= HEADER_LEN + len {
      if len < 0 {
        r := Throws;
      } else {
        r := Message(buf.data[buf.reader + HEADER_LEN..buf.reader + HEADER_LEN + len]);
        HeaderBytes(buf.Contents());
        buf.Retrieve(HEADER_LEN + len);
      }
    } else {
      r := Incomplete;
    }
  }

  lemma HeaderBytes(s: seq<Byte>)
    requires Complete(s) && FromBigEndian(s) <= MAX_PAYLOAD
    ensures var n := FromBigEndian(s); BigEndian(n) + s[HEADER_LEN..HEADER_LEN + n] + s[HEADER_LEN + n..] == s
  {
    BigEndianBack(s);
    assert s[..4] == BigEndian(FromBigEndian(s));
  }

  lemma BigEndianBack(s: seq<Byte>)
    requires |s| >= 4
    ensures BigEndian(FromBigEndian(s)) == s[..4]
  {
    var a: int, b: int, c: int, d: int := s[0], s[1], s[2], s[3];
    var n := FromBigEndian(s);
    assert n == ((a * 256 + b) * 256 + c) * 256 + d;
    assert n / 256 == (a * 256 + b) * 256 + c && n % 256 == d;
    assert n / 0x1_0000 == n / 256 / 256 == a * 256 + b;
    assert n / 0x100_0000 == n / 0x1_0000 / 256 == a;
  }

  /** A sender that packs each message into the same, emptied buffer puts the frames of its
      messages on the wire one after the other. */
  method SendAll(ps: seq<Payload>) returns (wire: seq<Byte>)
    requires Sendable(ps)
    ensures wire == Stream(ps)
  {
    var buf := new Buffer(INITIAL_SIZE);
    wire := [];
    for i := 0 to |ps|
      invariant buf.Valid() && fresh(buf) && fresh(buf.data) && buf.Contents() == [] && buf.reader == CHEAP_PREPEND
      invariant wire == Stream(ps[..i])
    {
      assert buf.Contents() + ps[i] == ps[i];
      Pack(buf, ps[i]);
      wire := wire + buf.data[buf.reader..buf.writer];
      buf.RetrieveAll();
      StreamSnoc(ps[..i], ps[i]);
      assert ps[..i + 1] == ps[..i] + [ps[i]];
    }
    assert ps[..|ps|] == ps;
  }

  lemma {:induction false} StreamSnoc(ps: seq<Payload>, p: Payload)
    requires Sendable(ps) && |p| <= MAX_PAYLOAD
    ensures Sendable(ps + [p]) && Stream(ps + [p]) == Stream(ps) + Frame(p)
  {
    if ps == [] {
      assert ps + [p] == [p];
    } else {
      StreamSnoc(ps[1..], p);
      assert (ps + [p])[1..] == ps[1..] + [p];
      hide Frame;
      Regroup(Frame(ps[0]), Stream(ps[1..]), Frame(p));
    }
  }

  /** Takes off every frame that has arrived. */
  method Drain(buf: Buffer, ghost ps: seq<Payload>, ghost later: seq<Byte>) returns (got: seq<Payload>)
    requires buf.Valid() && Sendable(ps) && buf.Contents() + later == Stream(ps)
    modifies buf
    ensures buf.Valid() && buf.data == old(buf.data)
    ensures got <= ps && buf.Contents() + later == Stream(ps[|got|..]) && !Complete(buf.Contents())
  {
    hide Stream, Frame, FromBigEndian;
    got := [];
    var more := true;
    assert ps[0..] == ps;
    while more && buf.Readable() >= HEADER_LEN
      invariant buf.Valid() && buf.data == old(buf.data)
      invariant got <= ps && Sendable(ps[|got|..]) && buf.Contents() + later == Stream(ps[|got|..])
      invariant !more ==> !Complete(buf.Contents())
      decreases more, |ps| - |got|
    {
      ghost var left := ps[|got|..];
      PrefixHeader(buf.Contents(), later, left);
      var r := Unpack(buf);
      if r.Message? {
        FirstFrame(r.payload, buf.Contents(), later, left);
        assert ps[|got| + 1..] == left[1..];
        got := got + [r.payload];
      } else {
        more := false;
      }
    }
  }

  /** Whatever chunks the stream of frames arrives in, however they cut through headers and
      bodies, the receiver gets the original payloads, all of them and in order. */
  method Deliver(chunks: seq<seq<Byte>>, ghost ps: seq<Payload>) returns (got: seq<Payload>)
    requires Sendable(ps) && Concat(chunks) == Stream(ps)
    ensures got == ps
  {
    var buf := new Buffer(INITIAL_SIZE);
    hide Stream, FromBigEndian;
    got := [];
    assert ps[0..] == ps && chunks[0..] == chunks;
    assert [] + Concat(chunks) == Concat(chunks);
    for i := 0 to |chunks|
      invariant buf.Valid() && fresh(buf) && fresh(buf.data)
      invariant got <= ps && Sendable(ps[|got|..]) && buf.Contents() + Concat(chunks[i..]) == Stream(ps[|got|..])
      invariant !Complete(buf.Contents())
    {
      assert chunks[i..][1..] == chunks[i + 1..];
      var some := Receive(buf, chunks[i], ps[|got|..], Concat(chunks[i + 1..]));
      assert ps[|got|..][|some|..] == ps[|got| + |some|..];
      got := got + some;
    }
    PrefixHeader(buf.Contents(), [], ps[|got|..]);
  }

  /** One chunk: read as much as a scatter read takes, drain, and go on with the rest. */
  method Receive(buf: Buffer, chunk: seq<Byte>, ghost ps: seq<Payload>, ghost later: seq<Byte>)
    returns (got: seq<Payload>)
    requires buf.Valid() && Sendable(ps) && buf.Contents() + (chunk + later) == Stream(ps) && !Complete(buf.Contents())
    modifies buf, buf.data
    ensures buf.Valid() && (buf.data == old(buf.data) || fresh(buf.data))
    ensures got <= ps && Sendable(ps[|got|..]) && buf.Contents() + later == Stream(ps[|got|..]) &&
            !Complete(buf.Contents())
  {
    hide Stream, FromBigEndian, Complete;
    got := [];
    assert ps[0..] == ps && chunk[0..] == chunk;
    var at := 0;
    while at < |chunk|
      invariant at <= |chunk|
      invariant buf.Valid() && (buf.data == old(buf.data) || fresh(buf.data))
      invariant got <= ps && Sendable(ps[|got|..]) && buf.Contents() + (chunk[at..] + later) == Stream(ps[|got|..])
      invariant !Complete(buf.Contents())
    {
      var n := if buf.ReadLimit() < |chunk| - at then buf.ReadLimit() else |chunk| - at;
      ghost var rest := chunk[at + n..] + later;
      assert chunk[at..] + later == chunk[at..at + n] + rest;
      ghost var before := buf.Contents();
      Regroup(before, chunk[at..at + n], rest);
      buf.ReadFd(chunk[at..at + n]);
      var some := Drain(buf, ps[|got|..], rest);
      assert ps[|got|..][|some|..] == ps[|got| + |some|..];
      got := got + some;
      at := at + n;
    }
    assert chunk[at..] + later == later;
  }

  // ---- one unpack for each read ----

  function Length(ps: seq<Payload>): nat { if ps == [] then 0 else HEADER_LEN + |ps[0]| + Length(ps[1..]) }

  function Arrived(inputs: seq<seq<Byte>>, j: nat): nat
    requires j <= |inputs|
  {
    if j == 0 then 0 else Arrived(inputs, j - 1) + |inputs[j - 1]|
  }

  /** How many frames are complete in that many bytes of the stream. */
  function Whole(ps: seq<Payload>, bytes: nat): (n: nat)
    ensures n <= |ps|
  {
    if ps == [] || bytes < HEADER_LEN + |ps[0]| then 0 else 1 + Whole(ps[1..], bytes - HEADER_LEN - |ps[0]|)
  }

  /** How many frames have been unpacked after j inputs, each followed by one unpack. */
  function Got(ps: seq<Payload>, inputs: seq<seq<Byte>>, j: nat): nat
    requires j <= |inputs|
  {
    if j == 0 then 0
    else
      var g := Got(ps, inputs, j - 1);
      if g < Whole(ps, Arrived(inputs, j)) then g + 1 else g
  }

  lemma {:induction false} WholeMonotone(ps: seq<Payload>, a: nat, b: nat)
    requires a <= b
    ensures Whole(ps, a) <= Whole(ps, b)
  {
    if ps != [] && a >= HEADER_LEN + |ps[0]| {
      WholeMonotone(ps[1..], a - HEADER_LEN - |ps[0]|, b - HEADER_LEN - |ps[0]|);
    }
  }

  lemma {:induction false} WholeAfter(ps: seq<Payload>, g: nat, b: nat)
    requires g <= |ps|
    ensures Whole(ps, Length(ps[..g]) + b) == g + Whole(ps[g..], b)
  {
    if g > 0 {
      assert ps[..g][1..] == ps[1..][..g - 1] && ps[1..][g - 1..] == ps[g..];
      WholeAfter(ps[1..], g - 1, b);
    } else {
      assert ps[0..] == ps;
    }
  }

  lemma {:induction false} StreamLength(ps: seq<Payload>)
    requires Sendable(ps)
    ensures |Stream(ps)| == Length(ps)
  {
    if ps != [] { StreamLength(ps[1..]); }
  }

  lemma {:induction false} LengthStep(ps: seq<Payload>, g: nat)
    requires g < |ps|
    ensures Length(ps[..g + 1]) == Length(ps[..g]) + HEADER_LEN + |ps[g]|
  {
    if g == 0 {
      assert ps[..1][1..] == [];
    } else {
      assert ps[..g + 1][1..] == ps[1..][..g] && ps[..g][1..] == ps[1..][..g - 1];
      LengthStep(ps[1..], g - 1);
    }
  }

  lemma GotBounds(ps: seq<Payload>, inputs: seq<seq<Byte>>, j: nat)
    requires j <= |inputs|
    ensures Got(ps, inputs, j) <= Whole(ps, Arrived(inputs, j))
  {
    if j > 0 {
      GotBounds(ps, inputs, j - 1);
      WholeMonotone(ps, Arrived(inputs, j - 1), Arrived(inputs, j));
    }
  }

  /** Each read brings on at most one frame. */
  lemma {:induction false} GotAtMost(ps: seq<Payload>, inputs: seq<seq<Byte>>, i: nat, j: nat)
    requires i <= j <= |inputs|
    ensures Got(ps, inputs, j) <= Whole(ps, Arrived(inputs, i)) + (j - i)
    decreases j
  {
    if i == j { GotBounds(ps, inputs, i); } else { GotAtMost(ps, inputs, i, j - 1); }
  }

  /** After the last moment at which nothing complete was left waiting, every read has. */
  lemma {:induction false} GotAtLeast(ps: seq<Payload>, inputs: seq<seq<Byte>>, j: nat) returns (i: nat)
    requires j <= |inputs|
    ensures i <= j && Got(ps, inputs, j) == Whole(ps, Arrived(inputs, i)) + (j - i)
  {
    if j == 0 {
      i := 0;
    } else {
      i := GotAtLeast(ps, inputs, j - 1);
      if Got(ps, inputs, j - 1) >= Whole(ps, Arrived(inputs, j)) {
        GotBounds(ps, inputs, j);
        i := j;
      }
    }
  }

  /** At no moment do the frames still to be completed outnumber the reads to come. */
  ghost predicate EnoughReads(ps: seq<Payload>, inputs: seq<seq<Byte>>) {
    forall i | 0 <= i <= |inputs| :: |ps| - Whole(ps, Arrived(inputs, i)) <= |inputs| - i
  }

  /** With one unpack for each read, every payload is delivered if and only if, after each read,
      the frames not yet complete do not outnumber the reads to come. */
  lemma DeliveredIff(ps: seq<Payload>, inputs: seq<seq<Byte>>)
    ensures Got(ps, inputs, |inputs|) == |ps| <==> EnoughReads(ps, inputs)
  {
    var k := |inputs|;
    forall i | 0 <= i <= k ensures Got(ps, inputs, k) <= Whole(ps, Arrived(inputs, i)) + (k - i) {
      GotAtMost(ps, inputs, i, k);
    }
    var i := GotAtLeast(ps, inputs, k);
    GotBounds(ps, inputs, k);
  }

  /** The j-th read leaves too few bytes to peek at a length: peekInt32's assertion fails. */
  ghost predicate TooShort(ps: seq<Payload>, inputs: seq<seq<Byte>>, j: nat)
    requires 0 < j <= |inputs|
  {
    Arrived(inputs, j) < Length(ps[..Min(Got(ps, inputs, j - 1), |ps|)]) + HEADER_LEN
  }

  lemma WholeOne(ps: seq<Payload>, bytes: nat)
    ensures Whole(ps, bytes) > 0 <==> ps != [] && bytes >= HEADER_LEN + |ps[0]|
  {
  }

  /** What one more read and unpack come to, by the frames unpacked and the bytes then buffered. */
  lemma GotStep(ps: seq<Payload>, inputs: seq<seq<Byte>>, i: nat, b: nat)
    requires i < |inputs| && Got(ps, inputs, i) <= |ps|
    requires Length(ps[..Got(ps, inputs, i)]) + b == Arrived(inputs, i + 1)
    ensures var g := Got(ps, inputs, i);
            && Got(ps, inputs, i + 1) == (if g < |ps| && b >= HEADER_LEN + |ps[g]| then g + 1 else g)
            && (TooShort(ps, inputs, i + 1) <==> b < HEADER_LEN)
  {
    var g := Got(ps, inputs, i);
    WholeAfter(ps, g, b);
    WholeOne(ps[g..], b);
  }

  /** One read and one unpack. */
  method TakeOne(buf: Buffer, input: seq<Byte>, ghost left: seq<Payload>, ghost later: seq<Byte>)
    returns (r: Option<Payload>, ok: bool)
    requires buf.Valid() && Sendable(left) && buf.Contents() + (input + later) == Stream(left)
    modifies buf, buf.data
    ensures buf.Valid() && (buf.data == old(buf.data) || fresh(buf.data))
    ensures ok <==> old(|buf.Contents()|) + |input| >= HEADER_LEN
    ensures ok ==> (r.Some? <==> left != [] && old(|buf.Contents()|) + |input| >= HEADER_LEN + |left[0]|)
    ensures ok && r.Some? ==> r.value == left[0] && buf.Contents() + later == Stream(left[1..])
    ensures ok && r.Some? ==> |buf.Contents()| + HEADER_LEN + |left[0]| == old(|buf.Contents()|) + |input|
    ensures ok && r.None? ==> buf.Contents() == old(buf.Contents()) + input && buf.Contents() + later == Stream(left)
  {
    hide Stream, FromBigEndian;
    Regroup(buf.Contents(), input, later);
    buf.Append(input);
    r, ok := None, buf.Readable() >= HEADER_LEN;
    if ok {
      PrefixHeader(buf.Contents(), later, left);
      var u := Unpack(buf);
      if u.Message? {
        FirstFrame(u.payload, buf.Contents(), later, left);
        r := Some(u.payload);
      }
    }
  }

  /** The framework's receivers: the bytes of each read are appended and unpack is called once,
      whatever there is.  No assertion fails if and only if each read leaves at least four bytes;
      then the payloads come in order, and all of them if and only if there are enough reads. */
  method ReceiveEach(inputs: seq<seq<Byte>>, ghost ps: seq<Payload>) returns (got: seq<Payload>, ok: bool)
    requires Sendable(ps) && Concat(inputs) == Stream(ps)
    ensures ok <==> forall j | 0 < j <= |inputs| :: !TooShort(ps, inputs, j)
    ensures ok ==> got <= ps && |got| == Got(ps, inputs, |inputs|)
    ensures ok ==> (got == ps <==> EnoughReads(ps, inputs))
  {
    hide Stream, EnoughReads, TooShort, Whole, Got, FromBigEndian;
    var buf := new Buffer(INITIAL_SIZE);
    NothingGot(ps, inputs);
    got, ok := [], true;
    for i := 0 to |inputs|
      invariant ok && buf.Valid() && fresh(buf) && fresh(buf.data)
      invariant got <= ps && |got| == Got(ps, inputs, i)
      invariant Sendable(ps[|got|..]) && buf.Contents() + Concat(inputs[i..]) == Stream(ps[|got|..])
      invariant Length(ps[..|got|]) + |buf.Contents()| == Arrived(inputs, i)
      invariant forall j | 0 < j <= i :: !TooShort(ps, inputs, j)
    {
      assert inputs[i..][1..] == inputs[i + 1..];
      GotStep(ps, inputs, i, |buf.Contents()| + |inputs[i]|);
      var r;
      r, ok := TakeOne(buf, inputs[i], ps[|got|..], Concat(inputs[i + 1..]));
      if !ok {
        return;
      }
      if r.Some? {
        LengthStep(ps, |got|);
        assert ps[|got|..][1..] == ps[|got| + 1..];
        got := got + [r.value];
      }
    }
    DeliveredIff(ps, inputs);
  }

  lemma NothingGot(ps: seq<Payload>, inputs: seq<seq<Byte>>)
    ensures Got(ps, inputs, 0) == 0 && ps[0..] == ps && inputs[0..] == inputs && Length(ps[..0]) == 0
    ensures [] + Concat(inputs) == Concat(inputs)
  {
  }

  /** Two frames in one read: the second is left in the buffer. */
  lemma SecondFrameWaits(p: Payload, q: Payload)
    requires Sendable([p, q])
    ensures !EnoughReads([p, q], [Stream([p, q])]) && Got([p, q], [Stream([p, q])], 1) == 1
  {
    var ps, inputs := [p, q], [Stream([p, q])];
    assert Arrived(inputs, 0) == 0 && Whole(ps, 0) == 0;
    StreamLength(ps);
    assert ps[1..] == [q] && [q][1..] == [];
    assert Arrived(inputs, 1) == Length(ps);
    WholeOne(ps, Length(ps));
  }
}
