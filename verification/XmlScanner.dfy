/**
  The loops behind XmlText and XmlTree as TinyXML runs them: cursors advanced over one
  input buffer, output strings appended to, attributes and children collected in place.
  Each method is proved to compute what the functions of those modules define.
 */
module XmlScanner {
  import opened Basics
  import opened Modular
  import opened XmlText
  import opened XmlTree

  /** A `const char*` into the buffer, or null. */
  datatype Cursor = NoCursor | Cursor(p: nat)

  ghost predicate Within(buf: string, c: Cursor) { c.Cursor? ==> c.p <= |buf| }

  ghost function View(buf: string, c: Cursor): Ptr
    requires Within(buf, c)
  {
    if c.NoCursor? then Null else At(buf[c.p..])
  }

  /** `p && *p` */
  predicate HasMore(buf: string, c: Cursor) {
    c.Cursor? && c.p < |buf| && buf[c.p] != '\0'
  }

  lemma {:induction false} PassLengthIs(s: string, i: nat, j: nat)
    requires i < j < |s|
    requires forall k | i < k < j :: s[k] != ';'
    requires s[j] == ';' || j == |s| - 1
    ensures PassLength(s, i) == j
    decreases |s| - i
  {
    if i + 1 < j { PassLengthIs(s, i + 1, j); }
  }

  /** The inner loop of EncodeString: a character reference is copied unchanged. */
  method CopyReference(str: string, start: nat) returns (copied: string, i: nat)
    requires start + 1 < |str|
    ensures i == start + PassLength(str[start..], 0) && i < |str|
    ensures copied == str[start..i]
  {
    hide PassLength;
    copied := "";
    i := start;
    while i < |str| - 1
      invariant start <= i < |str|
      invariant copied == str[start..i]
      invariant forall k | start < k <= i :: str[k] != ';'
    {
      copied := copied + [str[i]];
      i := i + 1;
      if str[i] == ';' { break; }
    }
    var t := str[start..];
    assert forall k | 0 < k < i - start :: t[k] == str[start + k];
    PassLengthIs(t, 0, i - start);
  }

  method AppendEscaped(out: string, c: char) returns (r: string)
    ensures r == out + Escape(c)
  {
    if c == '&' { r := out + "&amp;"; }
    else if c == '<' { r := out + "&lt;"; }
    else if c == '>' { r := out + "&gt;"; }
    else if c == '\"' { r := out + "&quot;"; }
    else if c == '\'' { r := out + "&apos;"; }
    else if c < ' ' { r := out + ['&', '#', 'x', HexDigit(c as int / 16), HexDigit(c as int % 16), ';']; }
    else { r := out + [c]; }
  }

  lemma EncodeHex(s: string)
    requires HexRef(s)
    ensures PassLength(s, 0) <= |s| && Encode(s) == s[..PassLength(s, 0)] + Encode(s[PassLength(s, 0)..])
  {
  }

  lemma EncodeOne(s: string)
    requires s != "" && !HexRef(s)
    ensures Encode(s) == Escape(s[0]) + Encode(s[1..])
  {
  }

  method EncodeString(str: string) returns (out: string)
    ensures out == Encode(str)
  {
    hide Encode, PassLength, Escape;
    out := "";
    var i := 0;
    assert str[0..] == str;
    while i < |str|
      invariant 0 <= i <= |str|
      invariant out + Encode(str[i..]) == Encode(str)
    {
      var c := str[i];
      ghost var before, t := out, str[i..];
      if c == '&' && i < |str| - 2 && str[i + 1] == '#' && str[i + 2] == 'x' {
        EncodeHex(t);
        var copied, j := CopyReference(str, i);
        assert t[..j - i] == copied && t[j - i..] == str[j..];
        out, i := out + copied, j;
        Regroup(before, copied, Encode(str[i..]));
      } else {
        EncodeOne(t);
        out := AppendEscaped(out, c);
        assert t[1..] == str[i + 1..];
        i := i + 1;
        Regroup(before, Escape(c), Encode(str[i..]));
      }
    }
    EncodeEmpty();
    assert str[i..] == "";
  }

  lemma EncodeEmpty()
    ensures Encode("") == ""
  {
  }

  method SkipWhiteSpaceAt(buf: string, c: Cursor) returns (r: Cursor)
    requires Within(buf, c)
    ensures Within(buf, r) && View(buf, r) == SkipWhiteSpace(View(buf, c))
    ensures r.Cursor? ==> c.Cursor? && c.p <= r.p
  {
    hide SkipSpaces;
    if !HasMore(buf, c) { return NoCursor; }
    var p := c.p;
    while p < |buf| && IsWhiteSpace(buf[p])
      invariant c.p <= p <= |buf|
      invariant SkipSpaces(buf[p..]) == SkipSpaces(buf[c.p..])
    {
      SkipOne(buf, p);
      p := p + 1;
    }
    SkipNone(buf[p..]);
    r := Cursor(p);
  }

  lemma SkipOne(buf: string, p: nat)
    requires p < |buf| && IsWhiteSpace(buf[p])
    ensures SkipSpaces(buf[p..]) == SkipSpaces(buf[p + 1..])
  {
    assert buf[p..][1..] == buf[p + 1..];
  }

  lemma SkipNone(s: string)
    requires s == "" || !IsWhiteSpace(s[0])
    ensures SkipSpaces(s) == s
  {
  }

  method ReadNameAt(buf: string, p: nat) returns (name: string, r: Cursor)
    requires p <= |buf|
    ensures Within(buf, r) && (name, View(buf, r)) == ReadName(buf[p..])
    ensures r.Cursor? ==> p < r.p
  {
    name := "";
    if p == |buf| || buf[p] == '\0' || !NameStart(buf[p]) { return "", NoCursor; }
    var q := p;
    ghost var length := NameLength(buf[p..]);
    while q < |buf| && NameChar(buf[q])
      invariant p <= q <= |buf|
      invariant length == q - p + NameLength(buf[q..])
    {
      assert buf[q..][1..] == buf[q + 1..];
      q := q + 1;
    }
    assert buf[p..][..q - p] == buf[p..q] && buf[p..][q - p..] == buf[q..];
    name, r := buf[p..q], Cursor(q);
  }

  /** strchr */
  method FindAt(buf: string, from: nat, c: char) returns (r: Cursor)
    requires from <= |buf| && c != '\0'
    ensures r.NoCursor? <==> Find(buf[from..], c) < 0
    ensures r.Cursor? ==> r.p == from + Find(buf[from..], c)
  {
    var q := from;
    while q < |buf| && buf[q] != '\0' && buf[q] != c
      invariant from <= q <= |buf|
      invariant Find(buf[from..], c) < 0 <==> Find(buf[q..], c) < 0
      invariant 0 <= Find(buf[q..], c) ==> from + Find(buf[from..], c) == q + Find(buf[q..], c)
    {
      assert buf[q..][1..] == buf[q + 1..];
      q := q + 1;
    }
    r := if q < |buf| && buf[q] == c then Cursor(q) else NoCursor;
  }

  const WORD32: nat := 0x1_0000_0000
  const WORD64: nat := 0x1_0000_0000_0000_0000

  lemma LowByte(x: nat, y: nat, d: nat)
    requires x % 256 == y % 256
    ensures (x * d) % WORD32 % 256 == (y * d) % 256
  {
    var k := x / 256 - y / 256;
    assert x == y + 256 * k;
    calc {
      x * d;
      (y + 256 * k) * d;
      y * d + 256 * k * d;
      y * d + 256 * (k * d);
    }
    SameLowByte(x * d, y * d, k * d);
  }

  lemma SameLowByte(a: nat, b: nat, m: int)
    requires a == b + 256 * m
    ensures a % WORD32 % 256 == b % 256
  {
    var q, k := a / WORD32, WORD32 / 256;
    assert a == a % WORD32 + 256 * (k * q);
    SameRemainder(a, a % WORD32, k * q, 256);
    SameRemainder(a, b, m, 256);
  }

  lemma LowByteSum(u: nat, v: nat, x: nat, y: nat)
    requires u % 256 == v % 256 && x % 256 == y % 256
    ensures (u + x) % WORD64 % 256 == (v + y) % 256
  {
    var z, k := u + x, WORD64 / 256;
    assert z == z % WORD64 + 256 * (k * (z / WORD64));
    SameRemainder(z, z % WORD64, k * (z / WORD64), 256);
    SameRemainder(z, v + y, u / 256 - v / 256 + (x / 256 - y / 256), 256);
  }

  /** The digits of a character reference, accumulated from the last one backwards in a
      32-bit multiplier and a 64-bit sum: wrap-around never reaches the low byte. */
  method ReadDigits(buf: string, p: nat, semi: nat, base: nat, marker: char) returns (v: int)
    requires p < semi <= |buf| && 0 < base && marker in buf[p..semi] && DigitValue(marker) < 0
    ensures v < 0 <==> DigitsBack(buf[p..semi], base, marker) < 0
    ensures 0 <= v ==> v % 256 == DigitsBack(buf[p..semi], base, marker) % 256
  {
    hide DigitsBack, DigitValue;
    ghost var total := DigitsBack(buf[p..semi], base, marker);
    var q: nat, ucs: nat, mult: nat := semi - 1, 0, 1;
    ghost var sum: nat, weight: nat := 0, 1;
    while buf[q] != marker
      invariant p <= q < semi && marker in buf[p..q + 1]
      invariant ucs % 256 == sum % 256 && mult % 256 == weight % 256
      invariant var high := DigitsBack(buf[p..q + 1], base, marker);
                total == if high < 0 then -1 else sum + weight * high
      decreases q
    {
      DigitStep(buf, p, q, base, marker);
      var d := DigitValue(buf[q]);
      if d < 0 || d >= base { return -1; }
      LowByte(mult, weight, d);
      LowByteSum(ucs, sum, (mult * d) % WORD32, weight * d);
      LowByte(mult, weight, base);
      ghost var high := DigitsBack(buf[p..q], base, marker);
      if 0 <= high { Horner(weight, base, high, d); }
      ucs := (ucs + (mult * d) % WORD32) % WORD64;
      mult := (mult * base) % WORD32;
      sum, weight := sum + weight * d, weight * base;
      q := q - 1;
    }
    AtMarker(buf, p, q, base, marker);
    v := ucs;
  }

  lemma Horner(w: nat, base: nat, high: nat, d: nat)
    ensures w * (high * base + d) == w * d + (w * base) * high
  {
  }

  lemma DigitStep(buf: string, p: nat, q: nat, base: nat, marker: char)
    requires p <= q < |buf| && marker in buf[p..q + 1] && buf[q] != marker
    ensures p < q && marker in buf[p..q]
    ensures var high, d := DigitsBack(buf[p..q], base, marker), DigitValue(buf[q]);
            DigitsBack(buf[p..q + 1], base, marker) ==
            if d < 0 || d >= base || high < 0 then -1 else high * base + d
  {
    var s := buf[p..q + 1];
    assert s[..|s| - 1] == buf[p..q];
    assert s == buf[p..q] + [buf[q]];
  }

  lemma AtMarker(buf: string, p: nat, q: nat, base: nat, marker: char)
    requires p <= q < |buf| && buf[q] == marker
    ensures DigitsBack(buf[p..q + 1], base, marker) == 0
  {
  }

  predicate TagAt(buf: string, p: nat, tag: string) {
    p + |tag| <= |buf| && buf[p..p + |tag|] == tag
  }

  lemma TagAtStarts(buf: string, p: nat, tag: string)
    requires p <= |buf|
    ensures TagAt(buf, p, tag) <==> StartsWith(buf[p..], tag)
  {
    if p + |tag| <= |buf| { assert buf[p..][..|tag|] == buf[p..p + |tag|]; }
  }

  /** A numeric character reference; p is at the ampersand. */
  method ReadReference(buf: string, p: nat, hex: bool) returns (text: string, r: Cursor)
    requires p + 2 < |buf| && buf[p] == '&' && buf[p + 1] == '#' && buf[p + 2] != '\0' && hex == (buf[p + 2] == 'x')
    ensures Within(buf, r) && (text, View(buf, r)) == GetEntity(buf[p..])
    ensures r.Cursor? ==> p < r.p
  {
    hide Find, DigitsBack;
    var s := buf[p..];
    var from := if hex then 3 else 2;
    assert s[from..] == buf[p + from..];
    if p + from == |buf| || buf[p + from] == '\0' { return "", NoCursor; }
    var semi := FindAt(buf, p + from, ';');
    if semi.NoCursor? { return "", NoCursor; }
    assert s[..semi.p - p] == buf[p..semi.p];
    assert buf[p..semi.p][from - 1] == buf[p + from - 1];
    var v := ReadDigits(buf, p, semi.p, if hex then 16 else 10, if hex then 'x' else '#');
    if v < 0 { return "", NoCursor; }
    assert s[semi.p - p + 1..] == buf[semi.p + 1..];
    text, r := [Character(v)], Cursor(semi.p + 1);
  }

  method GetEntityAt(buf: string, p: nat) returns (text: string, r: Cursor)
    requires p < |buf| && buf[p] == '&'
    ensures Within(buf, r) && (text, View(buf, r)) == GetEntity(buf[p..])
    ensures r.Cursor? ==> p < r.p
  {
    if p + 2 < |buf| && buf[p + 1] == '#' && buf[p + 2] != '\0' {
      text, r := ReadReference(buf, p, buf[p + 2] == 'x');
      return;
    }
    var names, values := ["&amp;", "&lt;", "&gt;", "&quot;", "&apos;"], "&<>\"\'";
    ghost var s := buf[p..];
    var i := 0;
    while i < |names|
      invariant 0 <= i <= |names|
      invariant forall k | 0 <= k < i :: !StartsWith(s, names[k])
    {
      TagAtStarts(buf, p, names[i]);
      if TagAt(buf, p, names[i]) {
        assert s[|names[i]|..] == buf[p + |names[i]|..];
        return [values[i]], Cursor(p + |names[i]|);
      }
      i := i + 1;
    }
    assert !StartsWith(s, names[0]) && !StartsWith(s, names[1]) && !StartsWith(s, names[2])
        && !StartsWith(s, names[3]) && !StartsWith(s, names[4]);
    assert s[1..] == buf[p + 1..];
    text, r := "", Cursor(p + 1);
  }

  method GetCharAt(buf: string, p: nat) returns (text: string, r: Cursor)
    requires p < |buf| && buf[p] != '\0'
    ensures Within(buf, r) && (text, View(buf, r)) == GetChar(buf[p..])
    ensures r.Cursor? ==> p < r.p
  {
    hide GetEntity;
    if buf[p] == '&' {
      text, r := GetEntityAt(buf, p);
    } else {
      assert buf[p..][1..] == buf[p + 1..];
      text, r := [buf[p]], Cursor(p + 1);
    }
  }

  /** The last lines of ReadText. */
  method StepOverAt(buf: string, c: Cursor, tag: string) returns (r: Cursor)
    requires Within(buf, c) && (HasMore(buf, c) ==> TagAt(buf, c.p, tag))
    ensures Within(buf, r)
    ensures View(buf, r) == if HasMore(buf, c) then StepOver(buf[c.p..], tag) else Null
    ensures r.Cursor? ==> c.Cursor? && c.p + |tag| == r.p
  {
    if !HasMore(buf, c) { return NoCursor; }
    TagAtStarts(buf, c.p, tag);
    r := Cursor(c.p + |tag|);
    assert buf[c.p..][|tag|..] == buf[r.p..];
    if !HasMore(buf, r) { r := NoCursor; }
  }

  /** ReadText when white space is kept. */
  method ReadKeepAt(buf: string, p: nat, tag: string) returns (text: string, r: Cursor)
    requires p <= |buf| && tag != ""
    ensures Within(buf, r) && (text, View(buf, r)) == ReadKeep(buf[p..], tag)
    ensures r.Cursor? ==> p < r.p
  {
    hide ReadKeep, GetChar;
    text := "";
    var c := Cursor(p);
    ghost var total := ReadKeep(buf[p..], tag);
    assert text + total.0 == total.0;
    while HasMore(buf, c) && !TagAt(buf, c.p, tag)
      invariant Within(buf, c) && (c.Cursor? ==> p <= c.p)
      invariant c.Cursor? ==> var (t, q) := ReadKeep(buf[c.p..], tag); total == (text + t, q)
      invariant c.NoCursor? ==> total == (text, Null)
      decreases if c.NoCursor? then 0 else 1 + |buf| - c.p
    {
      KeepStep(buf, c.p, tag);
      var ch, next := GetCharAt(buf, c.p);
      ghost var before := text;
      text := text + ch;
      if next.Cursor? { Regroup(before, ch, ReadKeep(buf[next.p..], tag).0); }
      c := next;
    }
    if c.Cursor? { KeepEnd(buf, c.p, tag); }
    assert text + "" == text;
    r := StepOverAt(buf, c, tag);
  }

  lemma KeepStep(buf: string, p: nat, tag: string)
    requires p < |buf| && buf[p] != '\0' && !TagAt(buf, p, tag)
    ensures var (ch, q) := GetChar(buf[p..]);
            ReadKeep(buf[p..], tag) ==
            if q.Null? then (ch, Null) else var (t, r) := ReadKeep(q.s, tag); (ch + t, r)
  {
    TagAtStarts(buf, p, tag);
  }

  lemma KeepEnd(buf: string, p: nat, tag: string)
    requires p <= |buf| && (p == |buf| || buf[p] == '\0' || TagAt(buf, p, tag))
    ensures ReadKeep(buf[p..], tag) ==
            ("", if p == |buf| || buf[p] == '\0' then Null else StepOver(buf[p..], tag))
  {
    TagAtStarts(buf, p, tag);
  }

  /** ReadText when white space is trimmed and condensed. */
  method ReadTrimAt(buf: string, p: nat, tag: string) returns (text: string, r: Cursor)
    requires p <= |buf| && tag != ""
    ensures Within(buf, r) && (text, View(buf, r)) == ReadTrim(buf[p..], tag)
    ensures r.Cursor? ==> p + |tag| <= r.p && TagAt(buf, r.p - |tag|, tag)
  {
    hide ReadCondensed, GetChar, SkipSpaces;
    text := "";
    var whitespace := false;
    var c := SkipWhiteSpaceAt(buf, Cursor(p));
    if c.NoCursor? { return "", NoCursor; }
    ghost var total := ReadCondensed(buf[c.p..], tag, false);
    assert total == ReadTrim(buf[p..], tag) && text + total.0 == total.0;
    while HasMore(buf, c) && !TagAt(buf, c.p, tag)
      invariant Within(buf, c) && (c.Cursor? ==> p <= c.p)
      invariant c.Cursor? ==> var (t, q) := ReadCondensed(buf[c.p..], tag, whitespace); total == (text + t, q)
      invariant c.NoCursor? ==> total == (text, Null)
      decreases if c.NoCursor? then 0 else 1 + |buf| - c.p
    {
      CondensedStep(buf, c.p, tag, whitespace);
      if IsWhiteSpace(buf[c.p]) {
        whitespace := true;
        c := Cursor(c.p + 1);
      } else {
        ghost var before, lead := text, if whitespace then " " else "";
        if whitespace {
          text := text + " ";
          whitespace := false;
        }
        var ch, next := GetCharAt(buf, c.p);
        text := text + ch;
        Regroup(before, lead, ch);
        assert before + "" == before;
        if next.Cursor? { Regroup(before, lead + ch, ReadCondensed(buf[next.p..], tag, false).0); }
        c := next;
      }
    }
    if c.Cursor? { CondensedEnd(buf, c.p, tag, whitespace); }
    assert text + "" == text;
    r := StepOverAt(buf, c, tag);
  }

  lemma CondensedStep(buf: string, p: nat, tag: string, space: bool)
    requires p < |buf| && buf[p] != '\0' && !TagAt(buf, p, tag)
    ensures IsWhiteSpace(buf[p]) ==> ReadCondensed(buf[p..], tag, space) == ReadCondensed(buf[p + 1..], tag, true)
    ensures !IsWhiteSpace(buf[p]) ==>
              var (ch, q) := GetChar(buf[p..]);
              var lead := if space then " " else "";
              ReadCondensed(buf[p..], tag, space) ==
              if q.Null? then (lead + ch, Null) else var (t, r) := ReadCondensed(q.s, tag, false); (lead + ch + t, r)
  {
    TagAtStarts(buf, p, tag);
    assert buf[p..][1..] == buf[p + 1..];
  }

  lemma CondensedEnd(buf: string, p: nat, tag: string, space: bool)
    requires p <= |buf| && (p == |buf| || buf[p] == '\0' || TagAt(buf, p, tag))
    ensures ReadCondensed(buf[p..], tag, space) ==
            ("", if p == |buf| || buf[p] == '\0' then Null else StepOver(buf[p..], tag))
  {
    TagAtStarts(buf, p, tag);
  }

  method UntilAt(buf: string, p: nat, tag: string) returns (value: string, q: nat)
    requires p <= |buf|
    ensures p <= q <= |buf| && (value, buf[q..]) == Until(buf[p..], tag)
  {
    hide Until;
    value, q := "", p;
    assert value + Until(buf[p..], tag).0 == Until(buf[p..], tag).0;
    while HasMore(buf, Cursor(q)) && !TagAt(buf, q, tag)
      invariant p <= q <= |buf|
      invariant var (t, rest) := Until(buf[q..], tag); Until(buf[p..], tag) == (value + t, rest)
      decreases |buf| - q
    {
      UntilStep(buf, q, tag);
      ghost var t := Until(buf[q + 1..], tag).0;
      Regroup(value, [buf[q]], t);
      value, q := value + [buf[q]], q + 1;
    }
    UntilEnd(buf, q, tag);
    assert value + "" == value;
  }

  lemma UntilStep(buf: string, q: nat, tag: string)
    requires q < |buf| && buf[q] != '\0' && !TagAt(buf, q, tag)
    ensures var (t, rest) := Until(buf[q + 1..], tag); Until(buf[q..], tag) == ([buf[q]] + t, rest)
  {
    TagAtStarts(buf, q, tag);
    assert buf[q..][1..] == buf[q + 1..];
  }

  lemma UntilEnd(buf: string, q: nat, tag: string)
    requires q <= |buf| && (q == |buf| || buf[q] == '\0' || TagAt(buf, q, tag))
    ensures Until(buf[q..], tag) == ("", buf[q..])
  {
    TagAtStarts(buf, q, tag);
  }

  method UnquotedAt(buf: string, p: nat) returns (value: string, r: Cursor)
    requires p <= |buf|
    ensures Within(buf, r) && (value, View(buf, r)) == Unquoted(buf[p..])
    ensures r.Cursor? ==> p <= r.p
  {
    value := "";
    var q := p;
    assert value + Unquoted(buf[p..]).0 == Unquoted(buf[p..]).0;
    while HasMore(buf, Cursor(q)) && !IsWhiteSpace(buf[q]) && buf[q] != '/' && buf[q] != '>'
      invariant p <= q <= |buf|
      invariant var (t, rest) := Unquoted(buf[q..]); Unquoted(buf[p..]) == (value + t, rest)
      decreases |buf| - q
    {
      if IsQuote(buf[q]) {
        assert value + "" == value;
        return value, NoCursor;
      }
      assert buf[q..][1..] == buf[q + 1..];
      ghost var t := Unquoted(buf[q + 1..]).0;
      Regroup(value, [buf[q]], t);
      value, q := value + [buf[q]], q + 1;
    }
    assert value + "" == value;
    r := Cursor(q);
  }

  method ParseAttributeAt(buf: string, p: nat) returns (a: Attribute, r: Cursor)
    requires p <= |buf|
    ensures Within(buf, r) && (a, View(buf, r)) == ParseAttribute(buf[p..])
    ensures r.Cursor? ==> p < r.p
  {
    hide SkipWhiteSpace, ReadName, ReadKeep, Unquoted;
    var c := SkipWhiteSpaceAt(buf, Cursor(p));
    if !HasMore(buf, c) { return Attribute("", ""), NoCursor; }
    var name, c1 := ReadNameAt(buf, c.p);
    var c2 := SkipWhiteSpaceAt(buf, c1);
    if !HasMore(buf, c2) || buf[c2.p] != '=' { return Attribute(name, ""), NoCursor; }
    assert buf[c2.p..][1..] == buf[c2.p + 1..];
    var c3 := SkipWhiteSpaceAt(buf, Cursor(c2.p + 1));
    if !HasMore(buf, c3) { return Attribute(name, ""), NoCursor; }
    var value;
    if IsQuote(buf[c3.p]) {
      assert buf[c3.p..][1..] == buf[c3.p + 1..];
      value, r := ReadKeepAt(buf, c3.p + 1, [buf[c3.p]]);
    } else {
      value, r := UnquotedAt(buf, c3.p);
    }
    a := Attribute(name, value);
  }

  method ParseCommentAt(buf: string, p: nat) returns (n: Node, r: Cursor)
    requires p <= |buf| && StartsWith(buf[p..], "<!--")
    ensures Within(buf, r) && (n, View(buf, r)) == ParseComment(buf[p..])
    ensures r.Cursor? ==> p < r.p
  {
    hide Until;
    assert buf[p..][4..] == buf[p + 4..];
    var value, q := UntilAt(buf, p + 4, "-->");
    n, r := Comment(value), Cursor(q);
    if HasMore(buf, r) {
      assert buf[q..][3..] == buf[q + 3..];
      r := Cursor(q + 3);
    }
  }

  method ParseCDataAt(buf: string, p: nat) returns (n: Node, r: Cursor)
    requires p <= |buf| && StartsWith(buf[p..], "<![CDATA[")
    ensures Within(buf, r) && (n, View(buf, r)) == ParseCData(buf[p..])
    ensures r.Cursor? ==> p < r.p
  {
    hide Until, ReadKeep;
    assert buf[p..][9..] == buf[p + 9..];
    var value, q := UntilAt(buf, p + 9, "]]>");
    n := Text(value, true);
    var dummy;
    dummy, r := ReadKeepAt(buf, q, "]]>");
  }

  method ParseUnknownAt(buf: string, p: nat) returns (n: Node, r: Cursor)
    requires p <= |buf| && StartsWith(buf[p..], "<")
    ensures Within(buf, r) && (n, View(buf, r)) == ParseUnknown(buf[p..])
    ensures r.Cursor? ==> p < r.p
  {
    hide Until;
    assert buf[p..][1..] == buf[p + 1..];
    var value, q := UntilAt(buf, p + 1, ">");
    n, r := Unknown(value), Cursor(q);
    if HasMore(buf, r) {
      assert buf[q..][1..] == buf[q + 1..];
      r := Cursor(q + 1);
    }
  }

  method ParseDeclarationAt(buf: string, p: nat) returns (n: Node, r: Cursor)
    requires p + 5 <= |buf|
    ensures Within(buf, r) && (n, View(buf, r)) == DeclarationLoop(Declaration("", "", ""), buf[p + 5..])
    ensures r.Cursor? ==> p < r.p
  {
    hide DeclarationLoop, ParseAttribute, SkipSpaces, StartsWithAnyCase, SkipWord;
    n := Declaration("", "", "");
    var q := p + 5;
    while HasMore(buf, Cursor(q))
      invariant p + 5 <= q <= |buf| && n.Declaration?
      invariant DeclarationLoop(n, buf[q..]) == DeclarationLoop(Declaration("", "", ""), buf[p + 5..])
      decreases |buf| - q
    {
      DeclarationStep(n, buf[q..]);
      if buf[q] == '>' {
        assert buf[q..][1..] == buf[q + 1..];
        return n, Cursor(q + 1);
      }
      var c := SkipWhiteSpaceAt(buf, Cursor(q));
      var t := buf[c.p..];
      assert t == SkipSpaces(buf[q..]);
      var version, encoding := StartsWithAnyCase(t, "version"), StartsWithAnyCase(t, "encoding");
      if version || encoding || StartsWithAnyCase(t, "standalone") {
        var a, next := ParseAttributeAt(buf, c.p);
        n := if version then n.(version := a.value)
             else if encoding then n.(encoding := a.value) else n.(standalone := a.value);
        if next.NoCursor? { return n, NoCursor; }
        q := next.p;
      } else {
        var w := SkipWordAt(buf, c.p);
        SkipMoves(buf[q..]);
        q := w;
      }
    }
    DeclarationEnd(n, buf[q..]);
    r := NoCursor;
  }

  method SkipWordAt(buf: string, p: nat) returns (q: nat)
    requires p <= |buf|
    ensures p <= q <= |buf| && buf[q..] == SkipWord(buf[p..])
  {
    q := p;
    while HasMore(buf, Cursor(q)) && buf[q] != '>' && !IsWhiteSpace(buf[q])
      invariant p <= q <= |buf| && SkipWord(buf[p..]) == SkipWord(buf[q..])
      decreases |buf| - q
    {
      assert buf[q..][1..] == buf[q + 1..];
      q := q + 1;
    }
  }

  /** Skipping blanks and then a word always moves on, except from a closing bracket. */
  lemma SkipMoves(s: string)
    requires !Ended(s) && s[0] != '>'
    ensures |SkipWord(SkipSpaces(s))| < |s|
  {
  }

  lemma DeclarationStep(n: Node, s: string)
    requires n.Declaration? && !Ended(s)
    ensures s[0] == '>' ==> DeclarationLoop(n, s) == (n, At(s[1..]))
    ensures s[0] != '>' ==>
              var t := SkipSpaces(s);
              if StartsWithAnyCase(t, "version") || StartsWithAnyCase(t, "encoding") ||
                StartsWithAnyCase(t, "standalone") then
                var (a, p) := ParseAttribute(t);
                var m := if StartsWithAnyCase(t, "version") then n.(version := a.value)
                         else if StartsWithAnyCase(t, "encoding") then n.(encoding := a.value)
                         else n.(standalone := a.value);
                DeclarationLoop(n, s) == if p.Null? then (m, Null) else DeclarationLoop(m, p.s)
              else DeclarationLoop(n, s) == DeclarationLoop(n, SkipWord(t))
  {
    hide ParseAttribute, SkipSpaces, StartsWithAnyCase, SkipWord;
  }

  lemma DeclarationEnd(n: Node, s: string)
    requires n.Declaration? && Ended(s)
    ensures DeclarationLoop(n, s) == (n, Null)
  {
  }

  method ParseNodeAt(buf: string, p: nat) returns (n: Node, r: Cursor)
    requires p <= |buf| && StartsWith(buf[p..], "<")
    ensures Within(buf, r) && (n, View(buf, r)) == ParseNode(buf[p..])
    ensures r.Cursor? ==> p < r.p
    decreases |buf| - p, 3
  {
    hide ParseElement, ParseUnknown, ParseComment, ParseCData, DeclarationLoop;
    var s := buf[p..];
    if StartsWithAnyCase(s, "<?xml") {
      assert s[5..] == buf[p + 5..];
      n, r := ParseDeclarationAt(buf, p);
    } else if TagAt(buf, p, "<!--") {
      n, r := ParseCommentAt(buf, p);
    } else if StartsWith(s, "<![CDATA[") {
      n, r := ParseCDataAt(buf, p);
    } else if !StartsWith(s, "<!") && |s| > 1 && NameStart(s[1]) {
      n, r := ParseElementAt(buf, p);
    } else {
      n, r := ParseUnknownAt(buf, p);
    }
  }

  method ParseElementAt(buf: string, p: nat) returns (n: Node, r: Cursor)
    requires p <= |buf|
    ensures Within(buf, r) && (n, View(buf, r)) == ParseElement(buf[p..])
    ensures r.Cursor? ==> p < r.p
    decreases |buf| - p, 2
  {
    hide SkipWhiteSpace, ReadName, ParseTag;
    var c := SkipWhiteSpaceAt(buf, Cursor(p));
    if !HasMore(buf, c) || buf[c.p] != '<' { return Element("", [], []), NoCursor; }
    assert buf[c.p..][1..] == buf[c.p + 1..];
    var c1 := SkipWhiteSpaceAt(buf, Cursor(c.p + 1));
    if c1.NoCursor? { return Element("", [], []), NoCursor; }
    var name, c2 := ReadNameAt(buf, c1.p);
    if !HasMore(buf, c2) { return Element(name, [], []), NoCursor; }
    n, r := ParseTagAt(buf, name, c2.p);
  }

  /** The rest of a start tag, one attribute a round, and the content behind it. */
  method ParseTagAt(buf: string, name: string, p: nat) returns (n: Node, r: Cursor)
    requires p <= |buf|
    ensures Within(buf, r) && (n, View(buf, r)) == ParseTag(name, [], buf[p..])
    ensures r.Cursor? ==> p < r.p
    decreases |buf| - p, 1
  {
    hide ParseTag, SkipWhiteSpace, ReadValue, EndTag, ParseAttribute;
    var attributes := [];
    var q := p;
    while true
      invariant p <= q <= |buf|
      invariant ParseTag(name, attributes, buf[q..]) == ParseTag(name, [], buf[p..])
      decreases |buf| - q
    {
      TagStep(name, attributes, buf[q..]);
      var c := SkipWhiteSpaceAt(buf, Cursor(q));
      if !HasMore(buf, c) { return Element(name, attributes, []), NoCursor; }
      if buf[c.p] == '/' {
        n := Element(name, attributes, []);
        if c.p + 1 < |buf| && buf[c.p + 1] == '>' {
          assert buf[c.p..][2..] == buf[c.p + 2..];
          return n, Cursor(c.p + 2);
        }
        return n, NoCursor;
      } else if buf[c.p] == '>' {
        assert buf[c.p..][1..] == buf[c.p + 1..];
        var start := SkipWhiteSpaceAt(buf, Cursor(c.p + 1));
        var children, c1 := ReadValueAt(buf, start);
        n, r := Element(name, attributes, children), NoCursor;
        if HasMore(buf, c1) { r := EndTagAt(buf, name, c1.p); }
        return;
      }
      var a, c2 := ParseAttributeAt(buf, c.p);
      if !HasMore(buf, c2) || HasName(attributes, a.name) { return Element(name, attributes, []), NoCursor; }
      attributes, q := attributes + [a], c2.p;
    }
  }

  lemma TagStep(name: string, attributes: seq<Attribute>, s: string)
    ensures var p := SkipWhiteSpace(At(s));
            && (!More(p) ==> ParseTag(name, attributes, s) == (Element(name, attributes, []), Null))
            && (More(p) && p.s[0] == '/' ==>
                 (ParseTag(name, attributes, s) ==
                  (Element(name, attributes, []), if |p.s| > 1 && p.s[1] == '>' then At(p.s[2..]) else Null)))
            && (More(p) && p.s[0] == '>' ==>
                 var (children, q) := ReadValue(SkipWhiteSpace(At(p.s[1..])));
                 ParseTag(name, attributes, s) ==
                 (Element(name, attributes, children), if More(q) then EndTag(name, q.s) else Null))
            && (More(p) && p.s[0] != '/' && p.s[0] != '>' ==>
                 var (a, q) := ParseAttribute(p.s);
                 ParseTag(name, attributes, s) ==
                 if !More(q) || HasName(attributes, a.name) then (Element(name, attributes, []), Null)
                 else ParseTag(name, attributes + [a], q.s))
  {
    hide SkipWhiteSpace, ReadValue, EndTag, ParseAttribute;
  }

  method EndTagAt(buf: string, name: string, p: nat) returns (r: Cursor)
    requires p <= |buf|
    ensures Within(buf, r) && View(buf, r) == EndTag(name, buf[p..])
    ensures r.Cursor? ==> p < r.p
  {
    hide SkipWhiteSpace;
    var tag := "</" + name;
    TagAtStarts(buf, p, tag);
    if !TagAt(buf, p, tag) { return NoCursor; }
    assert buf[p..][2 + |name|..] == buf[p + 2 + |name|..];
    var c := SkipWhiteSpaceAt(buf, Cursor(p + |tag|));
    if !HasMore(buf, c) || buf[c.p] != '>' { return NoCursor; }
    assert buf[c.p..][1..] == buf[c.p + 1..];
    r := Cursor(c.p + 1);
  }

  method IsBlank(value: string) returns (b: bool)
    ensures b == Blank(value)
  {
    for i := 0 to |value|
      invariant forall k | 0 <= k < i :: IsWhiteSpace(value[k])
    {
      if !IsWhiteSpace(value[i]) { return false; }
    }
    b := true;
  }

  /** The first piece of an element's content: a text, unless it is blank, or a node; and
      where the next piece starts. */
  ghost function FirstPiece(s: string): (seq<Node>, Ptr)
    requires !Ended(s)
  {
    if s[0] != '<' then
      var (value, q) := ReadTrim(s, "<");
      (if Blank(value) then [] else [Text(value, false)], SkipWhiteSpace(if q.At? then At("<" + q.s) else Null))
    else
      var (n, q) := ParseNode(s);
      ([n], SkipWhiteSpace(q))
  }

  method ReadPieceAt(buf: string, p: nat) returns (piece: seq<Node>, next: Cursor)
    requires p < |buf| && buf[p] != '\0' && !TagAt(buf, p, "</")
    ensures Within(buf, next) && (piece, View(buf, next)) == FirstPiece(buf[p..])
    ensures next.Cursor? ==> p < next.p
    decreases |buf| - p, 4
  {
    hide ParseNode, ReadTrim, SkipWhiteSpace, Blank;
    if buf[p] != '<' {
      var value;
      value, next := ReadTrimAt(buf, p, "<");
      TextShrinks(buf[p..]);
      if next.Cursor? {
        assert buf[next.p - 1..] == "<" + buf[next.p..];
        next := Cursor(next.p - 1);
      }
      var blank := IsBlank(value);
      piece := if blank then [] else [Text(value, false)];
    } else {
      var n;
      n, next := ParseNodeAt(buf, p);
      piece := [n];
    }
    next := SkipWhiteSpaceAt(buf, next);
  }

  /** The content of an element: texts and nodes are linked as children until the end tag. */
  method ReadValueAt(buf: string, start: Cursor) returns (children: seq<Node>, c: Cursor)
    requires Within(buf, start)
    ensures Within(buf, c) && (children, View(buf, c)) == ReadValue(View(buf, start))
    ensures c.Cursor? ==> start.Cursor? && start.p <= c.p
    decreases if start.Cursor? then |buf| - start.p else 0, 5
  {
    hide ReadValue, FirstPiece;
    children, c := [], start;
    ghost var total := ReadValue(View(buf, start));
    assert [] + total.0 == total.0;
    while HasMore(buf, c)
      invariant Within(buf, c) && (c.Cursor? ==> start.Cursor? && start.p <= c.p)
      invariant total == (children + ReadValue(View(buf, c)).0, ReadValue(View(buf, c)).1)
      decreases if c.Cursor? then 1 + |buf| - c.p else 0
    {
      TagAtStarts(buf, c.p, "</");
      ContentStep(buf[c.p..]);
      if TagAt(buf, c.p, "</") {
        assert children + [] == children;
        return;
      }
      var piece, next := ReadPieceAt(buf, c.p);
      Regroup(children, piece, ReadValue(View(buf, next)).0);
      children, c := children + piece, next;
    }
    ContentEnd(View(buf, c));
    assert children + [] == children;
  }

  lemma ContentStep(s: string)
    requires !Ended(s)
    ensures StartsWith(s, "</") ==> ReadValue(At(s)) == ([], At(s))
    ensures !StartsWith(s, "</") ==>
              ReadValue(At(s)) == (FirstPiece(s).0 + ReadValue(FirstPiece(s).1).0, ReadValue(FirstPiece(s).1).1)
  {
    hide ParseNode, ReadTrim, SkipWhiteSpace, Blank;
    assert StartsWith(s, "</") ==> s[0] == s[..2][0];
    assert ReadValue(Null) == ([], Null);
    var piece := FirstPiece(s).0;
    assert piece + [] == piece;
  }

  lemma ContentEnd(p: Ptr)
    requires !More(p)
    ensures ReadValue(p) == ([], p)
  {
  }
}
