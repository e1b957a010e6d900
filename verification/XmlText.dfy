/**
  TinyXML's character level in a one-byte encoding: white space, names, entities, the
  escaping of text by EncodeString and the two reading modes of ReadText.

  A C string is a `string` read up to its first NUL; a `const char*` into it is the
  remaining text, and a null pointer is `Null`.
 */
module XmlText {
  import opened Basics
  import LogStream

  datatype Ptr = Null | At(s: string)

  /** `*p == 0` */
  predicate Ended(s: string) { s == "" || s[0] == '\0' }

  /** `p && *p` */
  predicate More(p: Ptr) { p.At? && !Ended(p.s) }

  predicate IsWhiteSpace(c: char) { c == ' ' || '\t' <= c <= '\r' }

  predicate IsAlpha(c: char) {
    'a' <= c <= 'z' || 'A' <= c <= 'Z' || c as int >= 127
  }

  predicate IsAlphaNum(c: char) { IsAlpha(c) || '0' <= c <= '9' }

  predicate NameStart(c: char) { IsAlpha(c) || c == '_' }

  predicate NameChar(c: char) { IsAlphaNum(c) || c == '_' || c == '-' || c == '.' || c == ':' }

  /** Which characters below 127 may start a name and which may follow. */
  lemma AsciiNames(c: char)
    requires c as int < 127
    ensures NameStart(c) <==> 'A' <= c <= 'Z' || 'a' <= c <= 'z' || c == '_'
    ensures NameChar(c) <==> NameStart(c) || '0' <= c <= '9' || c in {'-', '.', ':'}
  {
  }

  // ---- white space and names ----

  function SkipSpaces(s: string): (r: string)
    ensures |r| <= |s|
    ensures r == "" || !IsWhiteSpace(r[0])
  {
    if s != "" && IsWhiteSpace(s[0]) then SkipSpaces(s[1..]) else s
  }

  function SkipWhiteSpace(p: Ptr): Ptr {
    if More(p) then At(SkipSpaces(p.s)) else Null
  }

  function NameLength(s: string): (n: nat)
    ensures n <= |s|
    ensures forall i | 0 <= i < n :: NameChar(s[i])
    ensures n < |s| ==> !NameChar(s[n])
  {
    if s != "" && NameChar(s[0]) then 1 + NameLength(s[1..]) else 0
  }

  /** The name at the front, and the text after it; null when no name starts here. */
  function ReadName(s: string): (string, Ptr) {
    if !Ended(s) && NameStart(s[0]) then (s[..NameLength(s)], At(s[NameLength(s)..])) else ("", Null)
  }

  // ---- escaping ----

  /** The text starts with `&#x`, which EncodeString takes for a character reference. */
  predicate HexRef(s: string) { |s| >= 3 && s[0] == '&' && s[1] == '#' && s[2] == 'x' }

  predicate NoHexRef(s: string) { s == "" || (!HexRef(s) && NoHexRef(s[1..])) }

  function HexDigit(d: nat): (c: char)
    requires d < 16
    ensures DigitValue(c) == d
  {
    if d < 10 then (d + '0' as int) as char else (d - 10 + 'A' as int) as char
  }

  function Escape(c: char): (r: string)
    ensures r != ""
  {
    if c == '&' then "&amp;"
    else if c == '<' then "&lt;"
    else if c == '>' then "&gt;"
    else if c == '\"' then "&quot;"
    else if c == '\'' then "&apos;"
    else if c < ' ' then ['&', '#', 'x', HexDigit(c as int / 16), HexDigit(c as int % 16), ';']
    else [c]
  }

  /** How far EncodeString copies a character reference verbatim: up to, not including,
      the next semicolon, or the last character when there is none. */
  function PassLength(s: string, i: nat): (j: nat)
    requires i + 1 < |s|
    ensures i < j < |s|
    ensures forall k | i < k < j :: s[k] != ';'
    ensures s[j] == ';' || j == |s| - 1
    decreases |s| - i
  {
    if s[i + 1] == ';' || i + 1 == |s| - 1 then i + 1 else PassLength(s, i + 1)
  }

  function Encode(s: string): string
    decreases |s|
  {
    if s == "" then ""
    else if HexRef(s) then s[..PassLength(s, 0)] + Encode(s[PassLength(s, 0)..])
    else Escape(s[0]) + Encode(s[1..])
  }

  // ---- unescaping ----

  predicate StartsWith(s: string, tag: string) { |tag| <= |s| && s[..|tag|] == tag }

  /** strchr: the first c before the terminating NUL. */
  function Find(s: string, c: char): (r: int)
    ensures -1 <= r < |s|
    ensures 0 <= r ==> s[r] == c && forall k | 0 <= k < r :: s[k] != c
  {
    if Ended(s) then -1
    else if s[0] == c then 0
    else var r := Find(s[1..], c); if r < 0 then -1 else r + 1
  }

  /** The digits read backwards from the end down to the marker, least significant
      first; only the low byte of the value is ever used. */
  function DigitsBack(s: string, base: nat, marker: char): (v: int)
    ensures -1 <= v
  {
    if s == "" then -1
    else
      var c := s[|s| - 1];
      if c == marker then 0
      else if DigitValue(c) < 0 || DigitValue(c) >= base then -1
      else
        var high := DigitsBack(s[..|s| - 1], base, marker);
        if high < 0 then -1 else high * base + DigitValue(c)
  }

  function Character(v: int): char
    requires 0 <= v
  {
    (v % 256) as char
  }

  /** What GetEntity appends and where it continues, at a `&`. */
  function GetEntity(s: string): (r: (string, Ptr))
    requires !Ended(s)
    ensures r.1.At? ==> |r.1.s| < |s|
  {
    if |s| > 2 && s[1] == '#' && s[2] != '\0' then
      var hex := s[2] == 'x';
      var from := if hex then 3 else 2;
      if Ended(s[from..]) then ("", Null)
      else
        var semi := Find(s[from..], ';');
        if semi < 0 then ("", Null)
        else
          var v := DigitsBack(s[..from + semi], if hex then 16 else 10, if hex then 'x' else '#');
          if v < 0 then ("", Null) else ([Character(v)], At(s[from + semi + 1..]))
    else if StartsWith(s, "&amp;") then ("&", At(s[5..]))
    else if StartsWith(s, "&lt;") then ("<", At(s[4..]))
    else if StartsWith(s, "&gt;") then (">", At(s[4..]))
    else if StartsWith(s, "&quot;") then ("\"", At(s[6..]))
    else if StartsWith(s, "&apos;") then ("\'", At(s[6..]))
    else ("", At(s[1..]))
  }

  function GetChar(s: string): (r: (string, Ptr))
    requires !Ended(s)
    ensures r.1.At? ==> |r.1.s| < |s|
  {
    if s[0] == '&' then GetEntity(s) else ([s[0]], At(s[1..]))
  }

  /** The end of ReadText: step over the end tag, and report null at the end of input. */
  function StepOver(s: string, tag: string): Ptr {
    if StartsWith(s, tag) && !Ended(s) && !Ended(s[|tag|..]) then At(s[|tag|..]) else Null
  }

  /** ReadText keeping all white space. */
  function ReadKeep(s: string, tag: string): (string, Ptr)
    decreases |s|
  {
    if Ended(s) then ("", Null)
    else if StartsWith(s, tag) then ("", StepOver(s, tag))
    else
      var (c, p) := GetChar(s);
      if p.Null? then (c, Null)
      else var (t, q) := ReadKeep(p.s, tag); (c + t, q)
  }

  /** The loop of ReadText that condenses white space; `space` remembers white space
      that has not been written yet. */
  function ReadCondensed(s: string, tag: string, space: bool): (string, Ptr)
    decreases |s|
  {
    if Ended(s) then ("", Null)
    else if StartsWith(s, tag) then ("", StepOver(s, tag))
    else if IsWhiteSpace(s[0]) then ReadCondensed(s[1..], tag, true)
    else
      var (c, p) := GetChar(s);
      var lead := if space then " " else "";
      if p.Null? then (lead + c, Null)
      else var (t, q) := ReadCondensed(p.s, tag, false); (lead + c + t, q)
  }

  /** ReadText trimming leading white space and condensing the rest. */
  function ReadTrim(s: string, tag: string): (string, Ptr) {
    if Ended(s) then ("", Null) else ReadCondensed(SkipSpaces(s), tag, false)
  }

  // ---- reading back what EncodeString wrote ----

  lemma TwoDigits(h: char, l: char, rest: string)
    requires 0 <= DigitValue(h) < 16 && 0 <= DigitValue(l) < 16
    ensures Find([h, l, ';'] + rest, ';') == 2
    ensures DigitsBack(['&', '#', 'x', h, l], 16, 'x') == DigitValue(h) * 16 + DigitValue(l)
  {
    var a, b, c := [h, l, ';'] + rest, [l, ';'] + rest, [';'] + rest;
    assert a[1..] == b && b[1..] == c;
    assert Find(c, ';') == 0 && Find(b, ';') == 1;
    var x, y, z := ['&', '#', 'x'], ['&', '#', 'x', h], ['&', '#', 'x', h, l];
    assert z[..4] == y && y[..3] == x;
    assert DigitsBack(x, 16, 'x') == 0 && DigitsBack(y, 16, 'x') == DigitValue(h);
  }

  lemma DecodeControl(c: char, rest: string)
    requires c < ' '
    ensures GetChar(Escape(c) + rest) == ([c], At(rest))
  {
    var v := c as int;
    var h, l := HexDigit(v / 16), HexDigit(v % 16);
    var s := ['&', '#', 'x', h, l, ';'] + rest;
    assert Escape(c) == ['&', '#', 'x', h, l, ';'];
    DecodeTwoDigits(h, l, rest);
    assert Character(v / 16 * 16 + v % 16) == c;
  }

  lemma DecodeTwoDigits(h: char, l: char, rest: string)
    requires 0 <= DigitValue(h) < 16 && 0 <= DigitValue(l) < 16
    ensures GetChar(['&', '#', 'x', h, l, ';'] + rest) == ([Character(DigitValue(h) * 16 + DigitValue(l))], At(rest))
  {
    var s := ['&', '#', 'x', h, l, ';'] + rest;
    TwoDigits(h, l, rest);
    assert s[3..] == [h, l, ';'] + rest;
    assert s[..5] == ['&', '#', 'x', h, l];
    assert s[6..] == rest;
  }

  lemma DecodeNamed(c: char, rest: string)
    requires c in {'&', '<', '>', '\"', '\''}
    ensures GetChar(Escape(c) + rest) == ([c], At(rest))
  {
    var e := Escape(c);
    assert (e + rest)[|e|..] == rest && (e + rest)[..|e|] == e;
  }

  lemma DecodePlain(c: char, rest: string)
    requires c >= ' ' && c !in {'&', '<', '>', '\"', '\''}
    ensures GetChar(Escape(c) + rest) == ([c], At(rest))
  {
    hide GetEntity;
    assert ([c] + rest)[1..] == rest;
  }

  /** Every character's escaped form decodes to that character and nothing more. */
  lemma DecodeEscape(c: char, rest: string)
    ensures !Ended(Escape(c) + rest)
    ensures GetChar(Escape(c) + rest) == ([c], At(rest))
  {
    if c < ' ' {
      DecodeControl(c, rest);
    } else if c in {'&', '<', '>', '\"', '\''} {
      DecodeNamed(c, rest);
    } else {
      DecodePlain(c, rest);
    }
  }

  // ---- character references ----

  ghost predicate AllDigits(ds: string, b: LogStream.Base) {
    forall i | 0 <= i < |ds| :: 0 <= DigitValue(ds[i]) < LogStream.Size(b)
  }

  function Opening(b: LogStream.Base): string { if b.Ten? then "&#" else "&#x" }

  lemma {:induction false} FindPast(ds: string, c: char, rest: string)
    requires forall i | 0 <= i < |ds| :: ds[i] != c && ds[i] != '\0'
    requires c != '\0'
    ensures Find(ds + [c] + rest, c) == |ds|
  {
    var text := ds + [c] + rest;
    if ds == "" {
      assert text == [c] + rest;
    } else {
      assert text[0] == ds[0] && text[1..] == ds[1..] + [c] + rest;
      FindPast(ds[1..], c, rest);
    }
  }

  lemma {:induction false} DigitsAfter(pre: string, ds: string, b: LogStream.Base, marker: char)
    requires pre != "" && pre[|pre| - 1] == marker && DigitValue(marker) < 0 && AllDigits(ds, b)
    ensures DigitsBack(pre + ds, LogStream.Size(b), marker) == LogStream.Value(ds, b) >= 0
  {
    var text := pre + ds;
    if ds == "" {
      assert text == pre;
    } else {
      var last := |ds| - 1;
      assert text[..|text| - 1] == pre + ds[..last] && text[|text| - 1] == ds[last];
      DigitsAfter(pre, ds[..last], b, marker);
    }
  }

  /** A reference of any length, in decimal or in hexadecimal of either case, reads as the
      character whose code is the low byte of the number, and the text goes on after it. */
  lemma ReferenceValue(ds: string, b: LogStream.Base, rest: string)
    requires ds != "" && AllDigits(ds, b)
    ensures LogStream.Value(ds, b) >= 0
    ensures var text := Opening(b) + ds + ";" + rest;
            !Ended(text) && GetChar(text) == ([Character(LogStream.Value(ds, b))], At(rest))
  {
    hide Find, DigitsBack, LogStream.Value;
    var open := Opening(b);
    var text, from := open + ds + ";" + rest, |open|;
    assert text[from..] == ds + ";" + rest && text[..from + |ds|] == open + ds && text[from + |ds| + 1..] == rest;
    assert text[0] == '&' && text[1] == '#' && text[from] == ds[0] && (b.Sixteen? ==> text[2] == 'x');
    FindPast(ds, ';', rest);
    DigitsAfter(open, ds, b, if b.Ten? then '#' else 'x');
  }

  function Zeros(k: nat): string { if k == 0 then "" else Zeros(k - 1) + "0" }

  function LowerCase(s: string): string {
    seq(|s|, i requires 0 <= i < |s| => if 'A' <= s[i] <= 'Z' then (s[i] as int + 32) as char else s[i])
  }

  lemma {:induction false} ZerosValue(k: nat, b: LogStream.Base)
    ensures LogStream.Value(Zeros(k), b) == 0 && AllDigits(Zeros(k), b)
  {
    if k > 0 {
      ZerosValue(k - 1, b);
      assert Zeros(k)[..|Zeros(k)| - 1] == Zeros(k - 1);
    }
  }

  lemma {:induction false} LeadingZeros(k: nat, ds: string, b: LogStream.Base)
    ensures LogStream.Value(Zeros(k) + ds, b) == LogStream.Value(ds, b)
  {
    var all := Zeros(k) + ds;
    if ds == "" {
      assert all == Zeros(k);
      ZerosValue(k, b);
    } else {
      assert all[..|all| - 1] == Zeros(k) + ds[..|ds| - 1];
      LeadingZeros(k, ds[..|ds| - 1], b);
    }
  }

  lemma {:induction false} LowerCaseValue(ds: string, b: LogStream.Base)
    requires AllDigits(ds, b)
    ensures AllDigits(LowerCase(ds), b) && LogStream.Value(LowerCase(ds), b) == LogStream.Value(ds, b)
  {
    if ds != "" {
      var low, last := LowerCase(ds), |ds| - 1;
      LowerCaseValue(ds[..last], b);
      assert low[..last] == LowerCase(ds[..last]);
    }
  }

  lemma DigitsAreDigits(v: nat, b: LogStream.Base)
    ensures AllDigits(LogStream.Digits(v, b), b) && LogStream.Digits(v, b) != ""
  {
    hide LogStream.Digits;
    LogStream.DigitsCanonical(v, b);
    var ds := LogStream.Digits(v, b);
    forall i | 0 <= i < |ds| ensures 0 <= DigitValue(ds[i]) < LogStream.Size(b) {
      assert LogStream.IsDigit(ds[i], b);
      var d :| 0 <= d < LogStream.Size(b) && ds[i] == LogStream.HEX[d];
      LogStream.DigitRoundTrip(d);
    }
  }

  /** Every character of the encoding is read from a reference with its number, in decimal or
      hexadecimal, upper or lower case, with any number of leading zeros. */
  lemma ReferenceReadBack(v: nat, b: LogStream.Base, lower: bool, k: nat, rest: string)
    requires v < 256
    ensures var ds := LogStream.Digits(v, b);
            var text := Opening(b) + Zeros(k) + (if lower then LowerCase(ds) else ds) + ";" + rest;
            !Ended(text) && GetChar(text) == ([v as char], At(rest))
  {
    hide LogStream.Digits, LogStream.Value, GetChar, Zeros, LowerCase, Opening;
    var digits := LogStream.Digits(v, b);
    DigitsAreDigits(v, b);
    LogStream.DigitsValue(v, b);
    LowerCaseValue(digits, b);
    var ds := if lower then LowerCase(digits) else digits;
    ZerosValue(k, b);
    LeadingZeros(k, ds, b);
    assert ds != "" by { SameLength(digits); }
    Regroup(Opening(b), Zeros(k), ds);
    ReferenceValue(Zeros(k) + ds, b, rest);
  }

  lemma SameLength(s: string)
    ensures |LowerCase(s)| == |s|
  {
  }

  predicate IsQuote(q: char) { q == '\"' || q == '\'' }

  lemma KeepStep(text: string, tag: string)
    requires !Ended(text) && !StartsWith(text, tag)
    ensures var (c, p) := GetChar(text);
            ReadKeep(text, tag) == if p.Null? then (c, Null) else (c + ReadKeep(p.s, tag).0, ReadKeep(p.s, tag).1)
  {
  }

  lemma EscapeNotQuote(c: char, q: char, rest: string)
    requires IsQuote(q)
    ensures !StartsWith(Escape(c) + rest, [q])
  {
    assert Escape(c)[0] != q && (Escape(c) + rest)[..1][0] == Escape(c)[0];
  }

  lemma {:induction false} ReadEscaped(s: string, q: char, rest: string)
    requires NoHexRef(s) && IsQuote(q) && !Ended(rest)
    ensures ReadKeep(Encode(s) + [q] + rest, [q]) == (s, At(rest))
  {
    var text := Encode(s) + [q] + rest;
    if s == "" {
      assert text == [q] + rest && text[1..] == rest;
    } else {
      var e, more := Escape(s[0]), Encode(s[1..]);
      var tail := more + [q] + rest;
      assert Encode(s) == e + more;
      hide Encode, ReadKeep, GetChar, Escape;
      Regroup(e, more, [q]);
      Regroup(e, more + [q], rest);
      EscapeNotQuote(s[0], q, tail);
      DecodeEscape(s[0], tail);
      KeepStep(text, [q]);
      ReadEscaped(s[1..], q, rest);
      assert [s[0]] + s[1..] == s;
    }
  }

  // ---- the escape round trip fails for every text that contains `&#x` ----

  lemma EscapeSemicolon(c: char, k: nat)
    requires k < |Escape(c)| && Escape(c)[k] == ';'
    ensures k == |Escape(c)| - 1
  {
    if c < ' ' { assert Escape(c)[3] != ';' && Escape(c)[4] != ';'; }
  }

  /** One round of EncodeString's loop: a verbatim reference, which has no semicolon, or
      one escaped character. */
  lemma EncodeRound(s: string) returns (front: string, j: nat)
    requires s != ""
    ensures 0 < j <= |s| && Encode(s) == front + Encode(s[j..])
    ensures HexRef(s) ==> j >= 2 && forall i | 0 <= i < |front| :: front[i] != ';'
    ensures !HexRef(s) ==> j == 1 && front == Escape(s[0])
  {
    if HexRef(s) {
      j := PassLength(s, 0);
      front := s[..j];
      assert forall i | 0 <= i < j :: front[i] != ';';
    } else {
      j, front := 1, Escape(s[0]);
    }
  }

  lemma FrontAt(front: string, tail: string, k: nat)
    requires k < |front|
    ensures (front + tail)[k] == front[k]
  {
  }

  lemma TailAt(front: string, tail: string, k: nat)
    requires |front| <= k < |front| + |tail|
    ensures (front + tail)[k] == tail[k - |front|]
  {
  }

  lemma FrontEnd(front: string, tail: string)
    ensures (front + tail)[|front|..] == tail
  {
  }

  lemma SemicolonEnds(s: string, front: string, tail: string, j: nat, k: nat)
    requires s != "" && k < |front| && (front + tail)[k] == ';'
    requires HexRef(s) ==> forall i | 0 <= i < |front| :: front[i] != ';'
    requires !HexRef(s) ==> j == 1 && front == Escape(s[0])
    ensures j == 1 && k + 1 == |front| && !HexRef(s)
  {
    hide Escape, HexRef;
    FrontAt(front, tail, k);
    EscapeSemicolon(s[0], k);
  }

  /** What follows a semicolon in escaped text is again the escape of a shorter text. */
  lemma {:induction false} SemicolonAligned(s: string, k: nat) returns (u: string, pre: string)
    requires k < |Encode(s)| && Encode(s)[k] == ';'
    ensures |u| < |s| && |pre| == k + 1 && Encode(s) == pre + Encode(u)
    ensures HexRef(s) ==> |u| + 2 <= |s|
    decreases |s|
  {
    assert s != "";
    hide Encode, Escape, PassLength, HexRef;
    var front, j := EncodeRound(s);
    var t := s[j..];
    if k < |front| {
      SemicolonEnds(s, front, Encode(t), j, k);
      u, pre := t, front;
    } else {
      TailAt(front, Encode(t), k);
      var within;
      u, within := SemicolonAligned(t, k - |front|);
      pre := front + within;
      Regroup(front, within, Encode(u));
    }
  }

  lemma {:induction false} ReadKeepShrinks(s: string, tag: string)
    requires tag != ""
    ensures ReadKeep(s, tag).1.At? ==> |ReadKeep(s, tag).1.s| < |s|
    decreases |s|
  {
    if !Ended(s) && !StartsWith(s, tag) {
      var (c, p) := GetChar(s);
      if p.At? { ReadKeepShrinks(p.s, tag); }
    }
  }

  lemma {:induction false} ReadCondensedShrinks(s: string, tag: string, space: bool)
    requires tag != "" && !StartsWith(s, tag)
    ensures ReadCondensed(s, tag, space).1.At? ==> |ReadCondensed(s, tag, space).1.s| + |tag| < |s|
    decreases |s|
  {
    if !Ended(s) {
      if IsWhiteSpace(s[0]) {
        if !StartsWith(s[1..], tag) { ReadCondensedShrinks(s[1..], tag, true); }
      } else {
        var (c, p) := GetChar(s);
        if p.At? && !StartsWith(p.s, tag) { ReadCondensedShrinks(p.s, tag, false); }
      }
    }
  }

  /** Reading back can only lose characters, and loses some at every `&#x`. */
  lemma {:induction false} ReadBackLength(s: string, q: char, rest: string)
    requires IsQuote(q)
    ensures var (t, p) := ReadKeep(Encode(s) + [q] + rest, [q]);
            p == At(rest) ==> |t| <= |s| && (!NoHexRef(s) ==> |t| < |s|)
    decreases |s|
  {
    var text := Encode(s) + [q] + rest;
    if s == "" {
      assert text == [q] + rest;
    } else if HexRef(s) {
      ReadBackReference(s, q, rest);
    } else {
      var tail := Encode(s[1..]) + [q] + rest;
      assert text == Escape(s[0]) + tail;
      DecodeEscape(s[0], tail);
      ReadBackLength(s[1..], q, rest);
    }
  }

  /** What passes through unescaped still starts like a reference. */
  lemma ReferenceStart(s: string, tail: string)
    requires HexRef(s)
    ensures var text := Encode(s) + tail; |Encode(s)| >= 3 && text[0] == '&' && text[1] == '#' && text[2] == 'x'
  {
    var j := PassLength(s, 0);
    assert Encode(s) == s[..j] + Encode(s[j..]);
    if j == 2 {
      assert s[2..][0] == 'x' && Escape('x') == "x";
      assert Encode(s[2..]) == "x" + Encode(s[2..][1..]);
    }
  }

  lemma {:induction false} ReadBackReference(s: string, q: char, rest: string)
    requires IsQuote(q) && HexRef(s)
    ensures var (t, p) := ReadKeep(Encode(s) + [q] + rest, [q]);
            p == At(rest) ==> |t| < |s|
    decreases |s|, 0
  {
    var text, size := Encode(s) + [q] + rest, |Encode(s)|;
    ReferenceStart(s, [q] + rest);
    Regroup(Encode(s), [q], rest);
    var (c, p) := GetChar(text);
    KeepStep(text, [q]);
    hide Encode, PassLength, ReadKeep, GetChar;
    if p.At? {
      var k := |text| - |p.s| - 1;
      ReferenceEnd(text);
      if k < size {
        FrontAt(Encode(s), [q] + rest, k);
        var u, pre := SemicolonAligned(s, k);
        var tail := Encode(u) + [q] + rest;
        Regroup(pre, Encode(u), [q]);
        Regroup(pre, Encode(u) + [q], rest);
        FrontEnd(pre, tail);
        ReadBackLength(u, q, rest);
      } else {
        TailAt(Encode(s), [q] + rest, size);
        ReadKeepShrinks(p.s, [q]);
      }
    }
  }

  /** A decoded reference contributes one character and ends just after a semicolon. */
  lemma ReferenceEnd(text: string)
    requires |text| >= 2 && text[0] == '&' && text[1] == '#' && !Ended(text[2..])
    ensures var (c, p) := GetChar(text);
            p.At? ==> |c| == 1 && |p.s| < |text| && text[|text| - |p.s| - 1] == ';' && p.s == text[|text| - |p.s|..]
  {
    var hex := text[2] == 'x';
    var from := if hex then 3 else 2;
    var semi := Find(text[from..], ';');
    if 0 <= semi { assert text[from..][semi] == text[from + semi]; }
  }

  /** An attribute value survives being escaped, quoted and read back, with the reader
      stopping just after the quote, exactly when it nowhere contains `&#x`. */
  lemma EscapeRoundTrip(s: string, q: char, rest: string)
    requires IsQuote(q) && !Ended(rest)
    ensures ReadKeep(Encode(s) + [q] + rest, [q]) == (s, At(rest)) <==> NoHexRef(s)
  {
    if NoHexRef(s) { ReadEscaped(s, q, rest); } else { ReadBackLength(s, q, rest); }
  }

  // ---- condensed reading ----

  /** What condensing does to a text: each run of blanks becomes one blank, and a run at
      the end disappears.  `pending` says that blanks were already passed. */
  function Squeeze(s: string, pending: bool): string {
    if s == "" then ""
    else if s[0] == ' ' then Squeeze(s[1..], true)
    else (if pending then " " else "") + [s[0]] + Squeeze(s[1..], false)
  }

  function DropBlanks(s: string): string {
    if s != "" && s[0] == ' ' then DropBlanks(s[1..]) else s
  }

  /** Leading and trailing blanks removed, inner runs of blanks made single. */
  function Condense(s: string): string { Squeeze(DropBlanks(s), false) }
}
