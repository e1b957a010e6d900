/**
  Formatting integers and pointers into a fixed log buffer.  Digits are produced least
  significant first by C's truncating division, a symmetric table turns the possibly
  negative remainders into characters, and the result is reversed in place.
 */
module LogStream {
  import opened Basics

  // ---- what the digits mean ----

  const HEX: string := "0123456789ABCDEF"
  const DIGITS: string := "9876543210123456789"
  const ZERO: nat := 9
  const MAX_NUMERIC_SIZE: nat := 32
  const TWO64: nat := 0x1_0000_0000_0000_0000
  const TWO63: int := 0x8000_0000_0000_0000

  function Reverse<T>(s: seq<T>): (r: seq<T>)
    ensures |r| == |s|
  {
    if s == [] then [] else Reverse(s[1..]) + [s[0]]
  }

  lemma {:induction false} ReverseAt<T>(s: seq<T>, k: nat)
    requires k < |s|
    ensures Reverse(s)[k] == s[|s| - 1 - k]
  {
    if k < |s| - 1 { ReverseAt(s[1..], k); }
  }

  /** The two bases in use. */
  datatype Base = Ten | Sixteen

  function Size(b: Base): nat { if b.Ten? then 10 else 16 }

  /** All but the last digit, and the last digit. */
  function High(n: nat, b: Base): (r: nat)
    ensures r <= n && (n > 0 ==> r < n)
  {
    if b.Ten? then n / 10 else n / 16
  }

  function Last(n: nat, b: Base): (r: nat)
    ensures r < Size(b) && n == High(n, b) * Size(b) + r
  {
    if b.Ten? then n % 10 else n % 16
  }

  /** The digits of n, least significant first. */
  function LowDigits(n: nat, b: Base): (r: string)
    ensures |r| > 0
    decreases n
  {
    [HEX[Last(n, b)]] + if High(n, b) == 0 then [] else LowDigits(High(n, b), b)
  }

  function Digits(n: nat, b: Base): string {
    Reverse(LowDigits(n, b))
  }

  /** The canonical decimal. */
  function Decimal(v: int): string {
    if v < 0 then "-" + Digits(-v, Ten) else Digits(v, Ten)
  }

  // ---- reading them back ----

  predicate IsDigit(c: char, b: Base) { c in HEX[..Size(b)] }

  /** Positional value, most significant digit first. */
  function Value(s: string, b: Base): int {
    if s == [] then 0 else Value(s[..|s| - 1], b) * Size(b) + DigitValue(s[|s| - 1])
  }

  function ParseDecimal(s: string): int {
    if s != [] && s[0] == '-' then -Value(s[1..], Ten) else Value(s, Ten)
  }

  predicate Canonical(s: string, b: Base) {
    |s| > 0 && (forall i | 0 <= i < |s| :: IsDigit(s[i], b)) && (s[0] == '0' ==> |s| == 1)
  }

  lemma DigitRoundTrip(d: nat)
    requires d < 16
    ensures DigitValue(HEX[d]) == d && (HEX[d] == '0' <==> d == 0)
  {
  }

  /** One more digit at the end. */
  lemma DigitsStep(n: nat, b: Base)
    ensures Digits(n, b) == (if High(n, b) == 0 then [] else Digits(High(n, b), b)) + [HEX[Last(n, b)]]
  {
    var low := LowDigits(n, b);
    if High(n, b) == 0 {
      assert low == [HEX[Last(n, b)]];
    } else {
      assert low[1..] == LowDigits(High(n, b), b);
    }
  }

  lemma {:induction false} DigitsValue(n: nat, b: Base)
    ensures Value(Digits(n, b), b) == n
    decreases n
  {
    hide Digits, High, Last;
    DigitsStep(n, b);
    DigitRoundTrip(Last(n, b));
    var all := Digits(n, b);
    if High(n, b) == 0 {
      assert all == [HEX[Last(n, b)]] && all[..0] == [];
    } else {
      DigitsValue(High(n, b), b);
      assert all[..|all| - 1] == Digits(High(n, b), b);
    }
  }

  lemma {:induction false} DigitsCanonical(n: nat, b: Base)
    ensures Canonical(Digits(n, b), b)
    ensures Digits(n, b)[0] == '0' <==> n == 0
    decreases n
  {
    hide Digits, High, Last;
    DigitsStep(n, b);
    DigitRoundTrip(Last(n, b));
    assert HEX[..Size(b)][Last(n, b)] == HEX[Last(n, b)];
    if High(n, b) != 0 {
      DigitsCanonical(High(n, b), b);
    }
  }

  /** For every integer, the decimal has digits only after an optional sign, no leading
      zero, no negative zero, and parses back to the integer. */
  lemma DecimalRoundTrip(v: int)
    ensures ParseDecimal(Decimal(v)) == v
    ensures Canonical(if v < 0 then Decimal(v)[1..] else Decimal(v), Ten)
    ensures Decimal(v)[0] == '-' <==> v < 0
  {
    hide Decimal, ParseDecimal, Canonical;
    if v < 0 { NegativeRoundTrip(v); } else { NaturalRoundTrip(v); }
  }

  lemma NaturalRoundTrip(v: int)
    requires v >= 0
    ensures ParseDecimal(Decimal(v)) == v && Canonical(Decimal(v), Ten) && Decimal(v) != [] && Decimal(v)[0] != '-'
  {
    hide Digits, Value;
    DigitsValue(v, Ten);
    DigitsCanonical(v, Ten);
    assert IsDigit(Decimal(v)[0], Ten);
  }

  lemma SignedValue(s: string)
    ensures ParseDecimal("-" + s) == -Value(s, Ten) && ("-" + s)[1..] == s
  {
    hide Value;
    assert ("-" + s)[1..] == s;
  }

  lemma NegativeRoundTrip(v: int)
    requires v < 0
    ensures Decimal(v) != [] && Decimal(v)[0] == '-'
    ensures ParseDecimal(Decimal(v)) == v && Canonical(Decimal(v)[1..], Ten)
  {
    hide Digits, Value, Canonical, ParseDecimal;
    var s := Digits(-v, Ten);
    assert Decimal(v) == "-" + s;
    DigitsValue(-v, Ten);
    DigitsCanonical(-v, Ten);
    SignedValue(s);
  }

  /** No two integers share a text. */
  lemma DecimalInjective(v: int, w: int)
    requires Decimal(v) == Decimal(w)
    ensures v == w
  {
    DecimalRoundTrip(v);
    DecimalRoundTrip(w);
  }

  function Power(b: Base, k: nat): nat { if k == 0 then 1 else Size(b) * Power(b, k - 1) }

  lemma {:induction false} DigitCount(n: nat, b: Base, k: nat)
    requires n < Power(b, k + 1)
    ensures |LowDigits(n, b)| <= k + 1
    decreases k
  {
    assert High(n, b) < Power(b, k) by {
      assert Power(b, k + 1) == Size(b) * Power(b, k);
      hide Power;
    }
    if k > 0 {
      DigitCount(High(n, b), b, k - 1);
    } else {
      assert High(n, b) == 0;
    }
  }

  lemma WordDigits(n: nat)
    requires n < TWO64
    ensures |LowDigits(n, Ten)| <= 20 && |LowDigits(n, Sixteen)| <= 16
  {
    Powers10();
    Powers16();
    hide LowDigits, Power;
    DigitCount(n, Ten, 19);
    DigitCount(n, Sixteen, 15);
  }

  lemma Powers10()
    ensures Power(Ten, 20) == 100_000_000_000_000_000_000
  {
    assert Power(Ten, 4) == 10_000;
    assert Power(Ten, 8) == 100_000_000;
    assert Power(Ten, 12) == 1_000_000_000_000;
    assert Power(Ten, 16) == 10_000_000_000_000_000;
  }

  lemma Powers16()
    ensures Power(Sixteen, 16) == TWO64
  {
    assert Power(Sixteen, 4) == 65536;
    assert Power(Sixteen, 8) == 0x1_0000_0000;
    assert Power(Sixteen, 12) == 0x1_0000_0000_0000;
  }

  // ---- C's division ----

  function TruncRem(i: int, d: nat): int
    requires d > 0
  {
    if i < 0 then -(-i % d) else i % d
  }

  function TruncDiv(i: int, d: nat): int
    requires d > 0
  {
    if i < 0 then -(-i / d) else i / d
  }

  function Abs(i: int): nat { if i < 0 then -i else i }

  /** One turn of the digit loop takes the last digit off the absolute value. */
  lemma TruncStep(i: int)
    ensures Abs(TruncDiv(i, 10)) == High(Abs(i), Ten) && -9 <= TruncRem(i, 10) <= 9
    ensures Abs(TruncDiv(i, 10)) <= Abs(i) && (i != 0 ==> Abs(TruncDiv(i, 10)) < Abs(i))
    ensures DIGITS[ZERO + TruncRem(i, 10)] == HEX[Last(Abs(i), Ten)]
  {
  }

  // ---- writing text into an array ----

  /** The array holds s from position `at` on. */
  ghost predicate Holds(buf: array<char>, at: nat, s: string)
    reads buf
  {
    at + |s| <= buf.Length && forall k | at <= k < at + |s| :: buf[k] == s[k - at]
  }

  lemma Extended(buf: array<char>, at: nat, s: string)
    requires Holds(buf, at, s)
    ensures buf[..at + |s|] == buf[..at] + s
  {
  }

  /** Nothing outside [lo, hi) has changed. */
  twostate predicate OnlyIn(buf: array<char>, lo: nat, hi: nat)
    reads buf
  {
    forall k | 0 <= k < buf.Length && !(lo <= k < hi) :: buf[k] == old(buf[k])
  }

  /** std::reverse on part of an array. */
  method ReverseRange(buf: array<char>, lo: nat, hi: nat, ghost s: string)
    requires hi == lo + |s| && Holds(buf, lo, s)
    modifies buf
    ensures Holds(buf, lo, Reverse(s)) && OnlyIn(buf, lo, hi)
  {
    var i, j := lo, hi;
    while i + 1 < j
      invariant lo <= i && j <= hi && i - lo == hi - j && i <= j + 1
      invariant forall k | lo <= k < i || j <= k < hi :: buf[k] == s[hi - 1 - k]
      invariant forall k | i <= k < j :: buf[k] == s[k - lo]
      invariant OnlyIn(buf, lo, hi)
    {
      buf[i], buf[j - 1] := buf[j - 1], buf[i];
      i, j := i + 1, j - 1;
    }
    forall k | lo <= k < hi ensures buf[k] == Reverse(s)[k - lo] {
      ReverseAt(s, k - lo);
    }
  }

  lemma LowStep(n: nat, b: Base)
    ensures LowDigits(n, b) == [HEX[Last(n, b)]] + if High(n, b) == 0 then [] else LowDigits(High(n, b), b)
  {
  }

  lemma Peel(low: string, k: nat, c: char, rest: string)
    requires k <= |low| && low[k..] == [c] + rest
    ensures k < |low| && low[k] == c && low[k + 1..] == rest
  {
    assert low[k] == low[k..][0] && low[k + 1..] == low[k..][1..];
  }

  lemma HexStep(n: nat)
    ensures High(n, Sixteen) == n / 16 && Last(n, Sixteen) == n % 16
    ensures 0 <= n / 16 <= n && (n > 0 ==> n / 16 < n) && 0 <= n % 16 < 16
  {
  }

  /** One division of convert. */
  method Divide(i: int) returns (rest: int, digit: char)
    ensures Abs(rest) == High(Abs(i), Ten) && digit == HEX[Last(Abs(i), Ten)]
    ensures Abs(rest) <= Abs(i) && (i != 0 ==> Abs(rest) < Abs(i))
  {
    rest, digit := TruncDiv(i, 10), DIGITS[ZERO + TruncRem(i, 10)];
    TruncStep(i);
  }

  /** The digit loop of convert. */
  method WriteLow(buf: array<char>, at: nat, value: int) returns (p: nat)
    requires at + |LowDigits(Abs(value), Ten)| <= buf.Length
    modifies buf
    ensures p == at + |LowDigits(Abs(value), Ten)|
    ensures Holds(buf, at, LowDigits(Abs(value), Ten)) && OnlyIn(buf, at, p)
  {
    hide LowDigits, High, Last;
    ghost var low := LowDigits(Abs(value), Ten);
    var i, more := value, true;
    p := at;
    while more
      invariant at <= p <= at + |low|
      invariant low[p - at..] == if more then LowDigits(Abs(i), Ten) else []
      invariant forall k | at <= k < p :: buf[k] == low[k - at]
      invariant OnlyIn(buf, at, p)
      decreases more, Abs(i)
    {
      LowStep(Abs(i), Ten);
      var rest, digit := Divide(i);
      Peel(low, p - at, digit, if rest == 0 then [] else LowDigits(Abs(rest), Ten));
      buf[p] := digit;
      i := rest;
      p := p + 1;
      more := i != 0;
    }
  }

  /** One division of convertHex. */
  method HexDivide(i: nat) returns (rest: nat, digit: nat)
    ensures rest == High(i, Sixteen) && digit == Last(i, Sixteen) && digit < 16
    ensures rest <= i && (i > 0 ==> rest < i)
  {
    rest, digit := i / 16, i % 16;
    HexStep(i);
  }

  /** The digit loop of convertHex. */
  method WriteLowHex(buf: array<char>, at: nat, value: nat) returns (p: nat)
    requires at + |LowDigits(value, Sixteen)| <= buf.Length
    modifies buf
    ensures p == at + |LowDigits(value, Sixteen)|
    ensures Holds(buf, at, LowDigits(value, Sixteen)) && OnlyIn(buf, at, p)
  {
    hide LowDigits, High, Last;
    ghost var low := LowDigits(value, Sixteen);
    var i, more := value, true;
    p := at;
    while more
      invariant at <= p <= at + |low|
      invariant low[p - at..] == if more then LowDigits(i, Sixteen) else []
      invariant forall k | at <= k < p :: buf[k] == low[k - at]
      invariant OnlyIn(buf, at, p)
      decreases more, i
    {
      LowStep(i, Sixteen);
      var rest, digit := HexDivide(i);
      Peel(low, p - at, HEX[digit], if rest == 0 then [] else LowDigits(rest, Sixteen));
      buf[p] := HEX[digit];
      i := rest;
      p := p + 1;
      more := i != 0;
    }
  }

  /** What convert writes before it reverses: the digits, then the sign. */
  function LowText(value: int): string {
    LowDigits(Abs(value), Ten) + if value < 0 then ['-'] else []
  }

  lemma TextOf(value: int)
    requires -TWO63 <= value < TWO64
    ensures Reverse(LowText(value)) == Decimal(value) && |LowText(value)| <= 21
  {
    var low := LowDigits(Abs(value), Ten);
    WordDigits(Abs(value));
    if value < 0 {
      ReverseSign(low);
    } else {
      assert low + [] == low;
    }
  }

  lemma {:induction false} ReverseSign(low: string)
    ensures Reverse(low + ['-']) == ['-'] + Reverse(low)
  {
    if low == [] {
      assert low + ['-'] == ['-'];
    } else {
      ReverseSign(low[1..]);
      assert (low + ['-'])[1..] == low[1..] + ['-'];
    }
  }

  method WriteText(buf: array<char>, at: nat, value: int) returns (p: nat)
    requires at + |LowText(value)| <= buf.Length
    modifies buf
    ensures p == at + |LowText(value)| && Holds(buf, at, LowText(value)) && OnlyIn(buf, at, p)
  {
    hide LowDigits;
    p := WriteLow(buf, at, value);
    if value < 0 {
      buf[p] := '-';
      p := p + 1;
    }
  }

  /** convert: the text, then a terminator, all within the 32 bytes asked for. */
  method Convert(buf: array<char>, at: nat, value: int) returns (len: nat)
    requires -TWO63 <= value < TWO64 && at + MAX_NUMERIC_SIZE <= buf.Length
    modifies buf
    ensures len == |Decimal(value)| && len < MAX_NUMERIC_SIZE
    ensures Holds(buf, at, Decimal(value)) && buf[at + len] == '\0' && OnlyIn(buf, at, at + len + 1)
  {
    hide LowText, Decimal, Reverse;
    TextOf(value);
    var p := WriteText(buf, at, value);
    buf[p] := '\0';
    ReverseRange(buf, at, p, LowText(value));
    len := p - at;
  }

  method ConvertHex(buf: array<char>, at: nat, value: nat) returns (len: nat)
    requires value < TWO64 && at + MAX_NUMERIC_SIZE - 2 <= buf.Length
    modifies buf
    ensures len == |Digits(value, Sixteen)| && len + 2 < MAX_NUMERIC_SIZE
    ensures Holds(buf, at, Digits(value, Sixteen)) && buf[at + len] == '\0' && OnlyIn(buf, at, at + len + 1)
  {
    WordDigits(value);
    hide LowDigits, Reverse;
    var p := WriteLowHex(buf, at, value);
    buf[p] := '\0';
    ReverseRange(buf, at, p, LowDigits(value, Sixteen));
    len := p - at;
  }

  // ---- the log stream ----

  /** A fixed array filled from the front, with the stream operators that write into it. */
  class Stream {
    const data: array<char>
    var cur: nat

    ghost predicate Valid()
      reads this
    {
      cur <= data.Length
    }

    ghost function Contents(): string
      requires Valid()
      reads this, data
    {
      data[..cur]
    }

    constructor (size: nat)
      ensures Valid() && fresh(data) && data.Length == size && Contents() == []
    {
      data := new char[size];
      cur := 0;
    }

    function Avail(): int
      reads this
    {
      data.Length - cur
    }

    /** Text that does not fit with a byte to spare is dropped whole. */
    method Append(text: string)
      requires Valid()
      modifies this`cur, data
      ensures Valid()
      ensures Contents() == if |text| < old(Avail()) then old(Contents()) + text else old(Contents())
    {
      if Avail() > |text| {
        for i := 0 to |text|
          invariant cur == old(cur) && data[..cur] == old(data[..cur])
          invariant forall k | 0 <= k < i :: data[cur + k] == text[k]
        {
          data[cur + i] := text[i];
        }
        cur := cur + |text|;
      }
    }

    /** formatInteger: the canonical decimal, or nothing when fewer than 32 bytes are left. */
    method FormatInteger(value: int)
      requires Valid() && -TWO63 <= value < TWO64
      modifies this`cur, data
      ensures Valid()
      ensures Contents() == old(Contents()) + if old(Avail()) >= MAX_NUMERIC_SIZE then Decimal(value) else []
    {
      if Avail() >= MAX_NUMERIC_SIZE {
        hide Decimal;
        var len := Convert(data, cur, value);
        assert data[..cur] == old(data[..cur]);
        Extended(data, cur, Decimal(value));
        cur := cur + len;
      } else {
        assert old(Contents()) + [] == old(Contents());
      }
    }

    method FormatPointer(value: nat)
      requires Valid() && value < TWO64
      modifies this`cur, data
      ensures Valid()
      ensures Contents() == old(Contents()) +
                if old(Avail()) >= MAX_NUMERIC_SIZE then "0x" + Digits(value, Sixteen) else []
    {
      if Avail() >= MAX_NUMERIC_SIZE {
        hide Digits;
        data[cur], data[cur + 1] := '0', 'x';
        var len := ConvertHex(data, cur + 2, value);
        assert data[..cur] == old(data[..cur]) && Holds(data, cur, "0x" + Digits(value, Sixteen));
        Extended(data, cur, "0x" + Digits(value, Sixteen));
        cur := cur + len + 2;
      } else {
        assert old(Contents()) + [] == old(Contents());
      }
    }

    method Reset()
      modifies this`cur
      ensures Valid() && Contents() == []
    {
      cur := 0;
    }
  }
}
