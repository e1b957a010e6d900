/**
  TinyXML's document tree: the recursive-descent parser of elements and the printer in
  stream mode.  A parser takes the remaining text and returns the node it built, however
  far it got, and where it stopped; a failed parse ends in `Null`.
 */
module XmlTree {
  import opened Basics
  import opened XmlText

  datatype Attribute = Attribute(name: string, value: string)

  datatype Node =
    | Element(name: string, attributes: seq<Attribute>, children: seq<Node>)
    | Text(value: string, cdata: bool)
    | Comment(value: string)
    | Unknown(value: string)
    | Declaration(version: string, encoding: string, standalone: string)

  // ---- printing ----

  function PrintAttribute(a: Attribute): string {
    var q := if '\"' in a.value then "\'" else "\"";
    Encode(a.name) + "=" + q + Encode(a.value) + q
  }

  function PrintAttributes(attributes: seq<Attribute>): string {
    if attributes == [] then "" else " " + PrintAttribute(attributes[0]) + PrintAttributes(attributes[1..])
  }

  /** What is appended when a string goes through `const char*`. */
  function CStr(s: string): string {
    if Ended(s) then "" else [s[0]] + CStr(s[1..])
  }

  function Print(n: Node): string {
    match n
    case Element(name, attributes, children) =>
      "<" + CStr(name) + PrintAttributes(attributes) +
      (if children == [] then " />" else ">" + PrintAll(children) + "</" + CStr(name) + ">")
    case Text(value, cdata) => if cdata then "<![CDATA[" + CStr(value) + "]]>" else Encode(value)
    case Comment(value) => "<!--" + CStr(value) + "-->"
    case Unknown(value) => "<" + CStr(value) + ">"
    case Declaration(version, encoding, standalone) =>
      "<?xml " + PrintPseudo("version", version) + PrintPseudo("encoding", encoding)
      + PrintPseudo("standalone", standalone) + "?>"
  }

  function PrintPseudo(name: string, value: string): string {
    if value == "" then "" else name + "=\"" + value + "\" "
  }

  function PrintAll(nodes: seq<Node>): string {
    if nodes == [] then "" else Print(nodes[0]) + PrintAll(nodes[1..])
  }

  // ---- parsing ----

  /** Everything up to the first end tag, and what starts there (or the end of input). */
  function Until(s: string, tag: string): (r: (string, string))
    ensures |r.1| <= |s|
    ensures r.0 + r.1 == s
    ensures Ended(r.1) || StartsWith(r.1, tag)
  {
    if Ended(s) || StartsWith(s, tag) then ("", s)
    else var (t, rest) := Until(s[1..], tag); ([s[0]] + t, rest)
  }

  /** An attribute value without quotes; null at a stray quote. */
  function Unquoted(s: string): (r: (string, Ptr))
    ensures r.1.At? ==> |r.1.s| <= |s|
  {
    if Ended(s) || IsWhiteSpace(s[0]) || s[0] == '/' || s[0] == '>' then ("", At(s))
    else if IsQuote(s[0]) then ("", Null)
    else var (t, p) := Unquoted(s[1..]); ([s[0]] + t, p)
  }

  function ParseAttribute(s: string): (r: (Attribute, Ptr))
    ensures r.1.At? ==> |r.1.s| < |s|
  {
    var p := SkipWhiteSpace(At(s));
    if !More(p) then (Attribute("", ""), Null)
    else
      var (name, q) := ReadName(p.s);
      AfterName(name, SkipWhiteSpace(q))
  }

  function AfterName(name: string, p: Ptr): (r: (Attribute, Ptr))
    ensures r.1.At? ==> p.At? && |r.1.s| < |p.s|
  {
    if !More(p) || p.s[0] != '=' then (Attribute(name, ""), Null)
    else AfterEquals(name, SkipWhiteSpace(At(p.s[1..])))
  }

  function AfterEquals(name: string, p: Ptr): (r: (Attribute, Ptr))
    ensures r.1.At? ==> p.At? && |r.1.s| <= |p.s|
  {
    if !More(p) then (Attribute(name, ""), Null)
    else if IsQuote(p.s[0]) then
      ReadKeepShrinks(p.s[1..], [p.s[0]]);
      var (value, end) := ReadKeep(p.s[1..], [p.s[0]]);
      (Attribute(name, value), end)
    else
      var (value, end) := Unquoted(p.s);
      (Attribute(name, value), end)
  }

  function ParseComment(s: string): (Node, Ptr)
    requires StartsWith(s, "<!--")
  {
    var (value, p) := Until(s[4..], "-->");
    (Comment(value), At(if Ended(p) then p else p[3..]))
  }

  function ParseCData(s: string): (Node, Ptr)
    requires StartsWith(s, "<![CDATA[")
  {
    var (value, p) := Until(s[9..], "]]>");
    (Text(value, true), ReadKeep(p, "]]>").1)
  }

  function ParseUnknown(s: string): (Node, Ptr)
    requires StartsWith(s, "<")
  {
    var (value, p) := Until(s[1..], ">");
    (Unknown(value), At(if Ended(p) then p else p[1..]))
  }

  predicate StartsWithAnyCase(s: string, tag: string) {
    |tag| <= |s| && forall i | 0 <= i < |tag| :: ToLower(s[i]) == ToLower(tag[i])
  }

  function ToLower(c: char): char {
    if 'A' <= c <= 'Z' then (c as int - 'A' as int + 'a' as int) as char else c
  }

  function SkipWord(s: string): (r: string)
    ensures |r| <= |s|
    ensures !Ended(s) && !IsWhiteSpace(s[0]) && s[0] != '>' ==> |r| < |s|
  {
    if Ended(s) || s[0] == '>' || IsWhiteSpace(s[0]) then s else SkipWord(s[1..])
  }

  /** The loop over a declaration's pseudo-attributes. */
  function DeclarationLoop(n: Node, s: string): (r: (Node, Ptr))
    requires n.Declaration?
    ensures r.1.At? ==> |r.1.s| <= |s|
    decreases |s|
  {
    if Ended(s) then (n, Null)
    else if s[0] == '>' then (n, At(s[1..]))
    else
      var t := SkipSpaces(s);
      if StartsWithAnyCase(t, "version") then
        var (a, p) := ParseAttribute(t);
        if p.Null? then (n.(version := a.value), Null) else DeclarationLoop(n.(version := a.value), p.s)
      else if StartsWithAnyCase(t, "encoding") then
        var (a, p) := ParseAttribute(t);
        if p.Null? then (n.(encoding := a.value), Null) else DeclarationLoop(n.(encoding := a.value), p.s)
      else if StartsWithAnyCase(t, "standalone") then
        var (a, p) := ParseAttribute(t);
        if p.Null? then (n.(standalone := a.value), Null) else DeclarationLoop(n.(standalone := a.value), p.s)
      else DeclarationLoop(n, SkipWord(t))
  }

  predicate Blank(s: string) { forall i | 0 <= i < |s| :: IsWhiteSpace(s[i]) }

  predicate HasName(attributes: seq<Attribute>, name: string) {
    exists i | 0 <= i < |attributes| :: attributes[i].name == name
  }

  /** Identify, then the parser of whatever node starts here. */
  function ParseNode(s: string): (r: (Node, Ptr))
    requires StartsWith(s, "<")
    ensures r.1.At? ==> |r.1.s| < |s|
    decreases |s|, 3
  {
    if StartsWithAnyCase(s, "<?xml") then DeclarationLoop(Declaration("", "", ""), s[5..])
    else if StartsWith(s, "<!--") then ParseComment(s)
    else if StartsWith(s, "<![CDATA[") then
      ReadKeepShrinks(Until(s[9..], "]]>").1, "]]>");
      ParseCData(s)
    else if StartsWith(s, "<!") then ParseUnknown(s)
    else if |s| > 1 && NameStart(s[1]) then ParseElement(s)
    else ParseUnknown(s)
  }

  function ParseElement(s: string): (r: (Node, Ptr))
    ensures r.1.At? ==> |r.1.s| < |s|
    decreases |s|, 2
  {
    var p := SkipWhiteSpace(At(s));
    if !More(p) || p.s[0] != '<' then (Element("", [], []), Null)
    else
      var p1 := SkipWhiteSpace(At(p.s[1..]));
      if p1.Null? then (Element("", [], []), Null)
      else
        var (name, p2) := ReadName(p1.s);
        if !More(p2) then (Element(name, [], []), Null) else ParseTag(name, [], p2.s)
  }

  /** The loop over attributes up to the end of the start tag, then the content. */
  function ParseTag(name: string, attributes: seq<Attribute>, s: string): (r: (Node, Ptr))
    ensures r.1.At? ==> |r.1.s| < |s|
    decreases |s|, 1
  {
    var p := SkipWhiteSpace(At(s));
    if !More(p) then (Element(name, attributes, []), Null)
    else if p.s[0] == '/' then
      (Element(name, attributes, []), if |p.s| > 1 && p.s[1] == '>' then At(p.s[2..]) else Null)
    else if p.s[0] == '>' then
      var (children, q) := ReadValue(SkipWhiteSpace(At(p.s[1..])));
      (Element(name, attributes, children), if More(q) then EndTag(name, q.s) else Null)
    else
      var (a, q) := ParseAttribute(p.s);
      if !More(q) || HasName(attributes, a.name) then (Element(name, attributes, []), Null)
      else ParseTag(name, attributes + [a], q.s)
  }

  function EndTag(name: string, s: string): (r: Ptr)
    ensures r.At? ==> |r.s| < |s|
  {
    if StartsWith(s, "</" + name) then
      var p := SkipWhiteSpace(At(s[2 + |name|..]));
      if More(p) && p.s[0] == '>' then At(p.s[1..]) else Null
    else Null
  }

  function PtrSize(p: Ptr): nat { if p.At? then |p.s| else 0 }

  /** The loop that reads an element's content. */
  function ReadValue(p: Ptr): (r: (seq<Node>, Ptr))
    ensures r.1.At? ==> p.At? && |r.1.s| <= |p.s|
    decreases PtrSize(p), 4
  {
    if !More(p) then ([], p)
    else if p.s[0] != '<' then
      var (value, q) := ReadTrim(p.s, "<");
      assert q.At? ==> |q.s| + 1 < |p.s| by { TextShrinks(p.s); }
      var next := SkipWhiteSpace(if q.At? then At("<" + q.s) else Null);
      if next.Null? then (if Blank(value) then [] else [Text(value, false)], Null)
      else
        var (rest, end) := ReadValue(next);
        ((if Blank(value) then [] else [Text(value, false)]) + rest, end)
    else if StartsWith(p.s, "</") then ([], p)
    else
      var (n, q) := ParseNode(p.s);
      var next := SkipWhiteSpace(q);
      if next.Null? then ([n], Null)
      else
        var (rest, end) := ReadValue(next);
        ([n] + rest, end)
  }

  lemma TextShrinks(s: string)
    requires s != "" && s[0] != '<'
    ensures ReadTrim(s, "<").1.At? ==> |ReadTrim(s, "<").1.s| + 1 < |s|
  {
    if !Ended(s) {
      var t := SkipSpaces(s);
      if StartsWith(t, "<") {
        assert |t| < |s|;
      } else {
        ReadCondensedShrinks(t, "<", false);
      }
    }
  }

  // ---- the trees that survive being printed and parsed ----

  predicate ValidName(s: string) {
    s != "" && NameStart(s[0]) && forall i | 0 <= i < |s| :: NameChar(s[i])
  }

  /** The first end tag after the value is the one the printer appends. */
  predicate Clean(value: string, tag: string) {
    value == "" || (value[0] != '\0' && !StartsWith(value + tag, tag) && Clean(value[1..], tag))
  }

  predicate ValidAttributes(attributes: seq<Attribute>) {
    && (forall i | 0 <= i < |attributes| :: ValidName(attributes[i].name) && NoHexRef(attributes[i].value))
    && (forall i, j | 0 <= i < j < |attributes| :: attributes[i].name != attributes[j].name)
  }

  predicate PlainText(n: Node) { n.Text? && !n.cdata }

  predicate Valid(n: Node) {
    match n
    case Element(name, attributes, children) =>
      ValidName(name) && ValidAttributes(attributes) && ValidContent(children)
    case Text(value, cdata) =>
      if cdata then Clean(value, "]]>") else NoHexRef(value) && Condense(value) == value && !Blank(value)
    case Comment(value) => Clean(value, "-->")
    case Unknown(value) =>
      && Clean(value, ">")
      && !StartsWithAnyCase("<" + value, "<?xml") && !StartsWith(value, "!--") && !StartsWith(value, "![CDATA[")
      && (value == "" || (value[0] != '/' && !NameStart(value[0])))
    case Declaration(version, encoding, standalone) => Raw(version) && Raw(encoding) && Raw(standalone)
  }

  /** A value that can stand between quotes as it is: a declaration's values are not escaped. */
  predicate Raw(value: string) { forall i | 0 <= i < |value| :: value[i] !in {'\"', '&', '\0'} }

  predicate ValidContent(nodes: seq<Node>) {
    nodes == [] ||
    (Valid(nodes[0]) && ValidContent(nodes[1..])
     && (|nodes| > 1 ==> !(PlainText(nodes[0]) && PlainText(nodes[1]))))
  }

  // ---- names and attributes ----

  lemma {:induction false} NameCStr(name: string)
    requires forall i | 0 <= i < |name| :: NameChar(name[i])
    ensures CStr(name) == name
  {
    if name != "" { NameCStr(name[1..]); }
  }

  lemma {:induction false} CleanCStr(value: string, tag: string)
    requires Clean(value, tag)
    ensures CStr(value) == value
  {
    if value != "" { CleanCStr(value[1..], tag); }
  }

  lemma {:induction false} NameRead(name: string, rest: string)
    requires forall i | 0 <= i < |name| :: NameChar(name[i])
    requires rest == "" || !NameChar(rest[0])
    ensures NameLength(name + rest) == |name|
  {
    if name == "" {
      assert name + rest == rest;
    } else {
      assert (name + rest)[1..] == name[1..] + rest;
      NameRead(name[1..], rest);
    }
  }

  lemma ReadNameBack(name: string, rest: string)
    requires ValidName(name) && (rest == "" || !NameChar(rest[0]))
    ensures ReadName(name + rest) == (name, At(rest))
  {
    NameRead(name, rest);
    assert (name + rest)[..|name|] == name && (name + rest)[|name|..] == rest;
  }

  lemma {:induction false} EncodeName(name: string)
    requires forall i | 0 <= i < |name| :: NameChar(name[i])
    ensures Encode(name) == name
  {
    if name != "" {
      EncodeName(name[1..]);
      assert Escape(name[0]) == [name[0]];
    }
  }

  lemma NotSpace(s: string)
    requires s != "" && !IsWhiteSpace(s[0]) && s[0] != '\0'
    ensures SkipWhiteSpace(At(s)) == At(s)
  {
  }

  lemma AttributeText(a: Attribute, rest: string)
    requires ValidName(a.name)
    ensures var q := if '\"' in a.value then '\'' else '\"';
            PrintAttribute(a) + rest == a.name + ("=" + ([q] + (Encode(a.value) + [q] + rest)))
  {
    EncodeName(a.name);
    var q := if '\"' in a.value then '\'' else '\"';
    var n, v := a.name, Encode(a.value);
    assert PrintAttribute(a) == n + "=" + [q] + v + [q];
    hide Encode;
    Join5(n, "=", [q], v, [q], rest);
  }

  lemma Join5(a: string, b: string, c: string, d: string, e: string, rest: string)
    ensures a + b + c + d + e + rest == a + (b + (c + (d + e + rest)))
  {
    Regroup(d, e, rest);
    Regroup(a + b + c, d + e, rest);
    Regroup(a + b + c, d, e);
    Regroup(a + b, c, d + e + rest);
    Regroup(a, b, c + (d + e + rest));
  }

  lemma NextAttribute(done: seq<Attribute>, todo: seq<Attribute>)
    requires ValidAttributes(done + todo) && todo != []
    ensures ValidName(todo[0].name) && NoHexRef(todo[0].value) && !HasName(done, todo[0].name)
  {
    assert (done + todo)[|done|] == todo[0];
    forall i | 0 <= i < |done| ensures done[i].name != todo[0].name { assert (done + todo)[i] == done[i]; }
  }

  // ---- nodes ----

  lemma {:induction false} UntilClean(value: string, tag: string, rest: string)
    requires Clean(value, tag) && tag != "" && tag[0] != '\0'
    ensures Until(value + (tag + rest), tag) == (value, tag + rest)
  {
    var s := value + (tag + rest);
    if value == "" {
      assert s == tag + rest;
    } else {
      assert s[..|tag|] == (value + tag)[..|tag|];
      assert !StartsWith(s, tag) && !Ended(s);
      assert s[1..] == value[1..] + (tag + rest);
      UntilClean(value[1..], tag, rest);
      assert [value[0]] + value[1..] == value;
    }
  }

  lemma CommentBack(value: string, rest: string)
    requires Clean(value, "-->")
    ensures ParseNode(Print(Comment(value)) + rest) == (Comment(value), At(rest))
  {
    hide ParseElement, Until, DeclarationLoop;
    CleanCStr(value, "-->");
    var s := Print(Comment(value)) + rest;
    var body := value + ("-->" + rest);
    assert s == "<!--" + body;
    assert s[1] == '!';
    assert s[4..] == body;
    UntilClean(value, "-->", rest);
    assert ("-->" + rest)[3..] == rest;
  }

  lemma CDataBack(value: string, rest: string)
    requires Clean(value, "]]>") && !Ended(rest)
    ensures ParseNode(Print(Text(value, true)) + rest) == (Text(value, true), At(rest))
  {
    hide ParseElement, Until, DeclarationLoop, ReadKeep, Clean;
    CleanCStr(value, "]]>");
    var s := Print(Text(value, true)) + rest;
    var body := value + ("]]>" + rest);
    assert s == "<![CDATA[" + body;
    assert s[1] == '!' && s[2] == '[';
    assert s[9..] == body;
    UntilClean(value, "]]>", rest);
    EndOfCData(rest);
  }

  lemma EndOfCData(rest: string)
    requires !Ended(rest)
    ensures ReadKeep("]]>" + rest, "]]>") == ("", At(rest))
  {
    assert ("]]>" + rest)[3..] == rest;
    assert StartsWith("]]>" + rest, "]]>");
  }

  lemma UnknownBack(value: string, rest: string)
    requires Valid(Unknown(value))
    ensures ParseNode(Print(Unknown(value)) + rest) == (Unknown(value), At(rest))
  {
    hide ParseElement, Until, DeclarationLoop;
    CleanCStr(value, ">");
    var s := Print(Unknown(value)) + rest;
    var body := value + (">" + rest);
    assert s == "<" + body;
    assert s[1..] == body;
    UntilClean(value, ">", rest);
    assert (">" + rest)[1..] == rest;
    TagsDiffer(value, rest);
  }

  /** An opening with no closing bracket in it starts `<value>` only if it starts `<value`. */
  lemma NoOpening(s: string, value: string, tag: string)
    requires |s| > 1 + |value| && s[0] == '<' && s[1 + |value|] == '>' && forall i | 0 <= i < |value| ::
               s[1 + i] == value[i]
    requires forall i | 0 <= i < |tag| :: tag[i] != '>'
    ensures StartsWith(s, "<" + tag) <==> StartsWith(value, tag)
  {
    var open := "<" + tag;
    if |tag| <= |value| {
      assert s[..|open|] == "<" + value[..|tag|];
      assert open[1..] == tag && s[..|open|][1..] == value[..|tag|];
    } else if |open| <= |s| {
      assert s[..|open|][1 + |value|] == '>' && open[1 + |value|] == tag[|value|];
    }
  }

  /** Appending the closing bracket creates no special opening. */
  lemma TagsDiffer(value: string, rest: string)
    requires Valid(Unknown(value))
    ensures var s := "<" + (value + (">" + rest));
            && !StartsWithAnyCase(s, "<?xml") && !StartsWith(s, "<!--") && !StartsWith(s, "<![CDATA[")
            && (|s| > 1 ==> !NameStart(s[1])) && !StartsWith(s, "</")
  {
    var s := "<" + (value + (">" + rest));
    assert s[1 + |value|] == '>' && forall i | 0 <= i < |value| :: s[1 + i] == value[i];
    NoOpening(s, value, "!--");
    NoOpening(s, value, "![CDATA[");
    assert "<" + "!--" == "<!--" && "<" + "![CDATA[" == "<![CDATA[";
    if |value| >= 4 { assert forall i | 0 <= i < 5 :: ("<" + value)[i] == s[i]; }
  }

  // ---- declarations ----

  lemma {:induction false} ReadRaw(value: string, rest: string)
    requires Raw(value) && !Ended(rest)
    ensures ReadKeep(value + ("\"" + rest), "\"") == (value, At(rest))
  {
    var s := value + ("\"" + rest);
    if value == "" {
      assert s == "\"" + rest && s[1..] == rest;
    } else {
      assert s[1..] == value[1..] + ("\"" + rest) && s[0] == value[0];
      assert !StartsWith(s, "\"");
      assert forall i | 0 <= i < |value| - 1 :: value[1..][i] == value[i + 1];
      ReadRaw(value[1..], rest);
      assert [value[0]] + value[1..] == value;
    }
  }

  function Pseudo(name: string, value: string, rest: string): string { name + ("=" + ("\"" + (value + ("\"" + rest)))) }

  lemma PseudoRead(name: string, value: string, rest: string)
    requires ValidName(name) && Raw(value) && !Ended(rest)
    ensures ParseAttribute(Pseudo(name, value, rest)) == (Attribute(name, value), At(rest))
  {
    hide ReadKeep, ReadName, SkipWhiteSpace;
    var body := value + ("\"" + rest);
    var quoted := "\"" + body;
    NotSpace(Pseudo(name, value, rest));
    ReadNameBack(name, "=" + quoted);
    NotSpace("=" + quoted);
    assert ("=" + quoted)[1..] == quoted && quoted[1..] == body && quoted[0] == '\"';
    NotSpace(quoted);
    ReadRaw(value, rest);
  }

  /** A word with some of its letters in upper case. */
  ghost predicate Spelling(spelled: string, name: string) {
    && |spelled| == |name|
    && forall i | 0 <= i < |name| ::
         spelled[i] == name[i] || ('a' <= name[i] <= 'z' && spelled[i] as int == name[i] as int - 32)
  }

  /** Names are compared in any case. */
  lemma AnyCase(spelled: string, name: string, s: string)
    requires Spelling(spelled, name)
    ensures StartsWithAnyCase(spelled + s, name)
  {
    forall i | 0 <= i < |name| ensures ToLower((spelled + s)[i]) == ToLower(name[i]) {
      assert (spelled + s)[i] == spelled[i];
    }
  }

  lemma Keyword(name: string, spelled: string, s: string)
    requires name in {"version", "encoding", "standalone"} && Spelling(spelled, name)
    ensures var text := spelled + s;
            && ValidName(spelled) && SkipSpaces(" " + text) == text
            && (StartsWithAnyCase(text, "version") <==> name == "version")
            && (StartsWithAnyCase(text, "encoding") <==> name == "encoding")
            && (StartsWithAnyCase(text, "standalone") <==> name == "standalone")
  {
    var text := spelled + s;
    assert LowerCaseWord(name) by { KeywordsLower(); }
    SpelledWord(name, spelled);
    AnyCase(spelled, name, s);
    hide StartsWithAnyCase, LowerCaseWord, Spelling;
    assert text[0] == spelled[0];
    assert (" " + text)[1..] == text;
    WhichKeyword(name, text);
  }

  ghost predicate LowerCaseWord(name: string) { name != "" && forall i | 0 <= i < |name| :: 'a' <= name[i] <= 'z' }

  lemma KeywordsLower()
    ensures LowerCaseWord("version") && LowerCaseWord("encoding") && LowerCaseWord("standalone")
  {
  }

  lemma SpelledWord(name: string, spelled: string)
    requires LowerCaseWord(name) && Spelling(spelled, name)
    ensures ValidName(spelled) && ToLower(spelled[0]) == name[0] && !IsWhiteSpace(spelled[0])
  {
  }

  lemma WhichKeyword(name: string, text: string)
    requires name in {"version", "encoding", "standalone"} && StartsWithAnyCase(text, name)
    requires text != "" && ToLower(text[0]) == name[0]
    ensures StartsWithAnyCase(text, "version") <==> name == "version"
    ensures StartsWithAnyCase(text, "encoding") <==> name == "encoding"
    ensures StartsWithAnyCase(text, "standalone") <==> name == "standalone"
  {
    hide StartsWithAnyCase;
    assert ToLower('v') == 'v' && ToLower('e') == 'e' && ToLower('s') == 's';
    assert "version"[0] == 'v' && "encoding"[0] == 'e' && "standalone"[0] == 's';
    if name != "version" { OtherWord(text, "version"); }
    if name != "encoding" { OtherWord(text, "encoding"); }
    if name != "standalone" { OtherWord(text, "standalone"); }
  }

  lemma OtherWord(s: string, name: string)
    requires s != "" && name != "" && ToLower(s[0]) != ToLower(name[0])
    ensures !StartsWithAnyCase(s, name)
  {
  }

  function With(n: Node, name: string, value: string): (r: Node)
    requires n.Declaration?
    ensures r.Declaration?
  {
    if name == "version" then n.(version := value)
    else if name == "encoding" then n.(encoding := value)
    else n.(standalone := value)
  }

  /** One pseudo-attribute, its name in any case. */
  lemma PseudoAnyCase(n: Node, name: string, spelled: string, value: string, rest: string)
    requires n.Declaration? && name in {"version", "encoding", "standalone"} && Spelling(spelled, name) && Raw(value)
    requires !Ended(rest)
    ensures DeclarationLoop(n, " " + Pseudo(spelled, value, rest)) == DeclarationLoop(With(n, name, value), rest)
  {
    hide ParseAttribute, SkipSpaces, StartsWithAnyCase, Raw, Spelling;
    Keyword(name, spelled, "=" + ("\"" + (value + ("\"" + rest))));
    PseudoRead(spelled, value, rest);
    DeclarationStep(n, name, Pseudo(spelled, value, rest), Attribute(spelled, value), rest);
  }

  lemma PseudoText(name: string, value: string, rest: string)
    requires value != ""
    ensures PrintPseudo(name, value) + rest == Pseudo(name, value, " " + rest)
  {
    var quoted := "=\"" + value + "\" ";
    assert quoted + rest == "=" + ("\"" + (value + ("\"" + (" " + rest))));
    assert PrintPseudo(name, value) == name + quoted;
    Regroup(name, quoted, rest);
  }

  /** One pseudo-attribute as printed, blank included; an empty one is not printed. */
  lemma PseudoBack(n: Node, name: string, value: string, rest: string)
    requires n.Declaration? && name in {"version", "encoding", "standalone"} && Raw(value)
    requires value == "" ==> With(n, name, value) == n
    ensures DeclarationLoop(n, " " + (PrintPseudo(name, value) + rest)) ==
            DeclarationLoop(With(n, name, value), " " + rest)
  {
    hide Raw, DeclarationLoop, Pseudo;
    if value == "" {
      assert PrintPseudo(name, value) + rest == rest;
    } else {
      PseudoText(name, value, rest);
      PseudoAnyCase(n, name, name, value, " " + rest);
    }
  }

  lemma DeclarationStep(n: Node, name: string, text: string, a: Attribute, rest: string)
    requires n.Declaration? && SkipSpaces(" " + text) == text && ParseAttribute(text) == (a, At(rest))
    requires name in {"version", "encoding", "standalone"}
    requires StartsWithAnyCase(text, "version") <==> name == "version"
    requires StartsWithAnyCase(text, "encoding") <==> name == "encoding"
    requires StartsWithAnyCase(text, "standalone") <==> name == "standalone"
    ensures DeclarationLoop(n, " " + text) == DeclarationLoop(With(n, name, a.value), rest)
  {
    hide ParseAttribute, SkipSpaces, StartsWithAnyCase;
  }

  lemma DeclarationClosed(n: Node, rest: string)
    requires n.Declaration?
    ensures DeclarationLoop(n, " " + ("?>" + rest)) == (n, At(rest))
  {
    hide ParseAttribute;
    var text := "?>" + rest;
    assert (" " + text)[1..] == text && SkipSpaces(" " + text) == text;
    assert text[1..] == ">" + rest && SkipWord(">" + rest) == ">" + rest && SkipWord(text) == ">" + rest;
    assert (">" + rest)[1..] == rest;
    assert ToLower('?') == '?' && ToLower("version"[0]) != '?';
    assert ToLower("encoding"[0]) != '?' && ToLower("standalone"[0]) != '?';
  }

  lemma DeclarationText(n: Node, rest: string)
    requires n.Declaration?
    ensures var v, e := PrintPseudo("version", n.version), PrintPseudo("encoding", n.encoding);
            Print(n) + rest == "<?xml" + (" " + (v + (e + (PrintPseudo("standalone", n.standalone) + ("?>" + rest)))))
  {
    hide PrintPseudo;
  }

  lemma DeclarationBack(n: Node, rest: string)
    requires n.Declaration? && Valid(n)
    ensures ParseNode(Print(n) + rest) == (n, At(rest))
  {
    hide ParseElement, ParseUnknown, ParseComment, ParseCData, DeclarationLoop, PrintPseudo, Raw;
    DeclarationText(n, rest);
    var none := Declaration("", "", "");
    var v, e, st := PrintPseudo("version", n.version), PrintPseudo("encoding", n.encoding),
      PrintPseudo("standalone", n.standalone);
    var s := Print(n) + rest;
    assert s[5..] == " " + (v + (e + (st + ("?>" + rest)))) && s[..5] == "<?xml";
    assert forall i | 0 <= i < 5 :: s[i] == s[..5][i];
    var n1 := none.(version := n.version);
    PseudoBack(none, "version", n.version, e + (st + ("?>" + rest)));
    PseudoBack(n1, "encoding", n.encoding, st + ("?>" + rest));
    PseudoBack(n1.(encoding := n.encoding), "standalone", n.standalone, "?>" + rest);
    DeclarationClosed(n, rest);
  }

  /** What tells the reader that a node starts here. */
  ghost predicate StartsNode(s: string) { |s| > 1 && s[0] == '<' && s[1] != '\0' && !StartsWith(s, "</") }

  lemma UnknownStart(value: string, rest: string)
    requires Valid(Unknown(value))
    ensures StartsNode(Print(Unknown(value)) + rest)
  {
    var s := Print(Unknown(value)) + rest;
    CleanCStr(value, ">");
    assert s == "<" + (value + (">" + rest));
    if value != "" { assert s[1] == value[0]; } else { assert s[1] == '>'; }
  }

  /** Comments, CDATA sections, unknown tags and declarations are each identified by their
      opening and parse back to themselves. */
  lemma LeafRoundTrip(n: Node, rest: string)
    requires Valid(n) && !n.Element? && !PlainText(n) && !Ended(rest)
    ensures ParseNode(Print(n) + rest) == (n, At(rest)) && StartsNode(Print(n) + rest)
  {
    hide ParseNode;
    LeafStart(n, rest);
    match n
    case Text(value, _) => CDataBack(value, rest);
    case Comment(value) => CommentBack(value, rest);
    case Unknown(value) => UnknownBack(value, rest);
    case Declaration(_, _, _) => DeclarationBack(n, rest);
  }

  lemma LeafStart(n: Node, rest: string)
    requires Valid(n) && !n.Element? && !PlainText(n)
    ensures StartsNode(Print(n) + rest)
  {
    hide Print;
    if n.Unknown? {
      UnknownStart(n.value, rest);
    } else {
      LeafOpening(n);
      var s := Print(n) + rest;
      assert s[0] == Print(n)[0] && s[1] == Print(n)[1] && s[..2][1] == s[1];
    }
  }

  lemma LeafOpening(n: Node)
    requires n.Comment? || n.Declaration? || (n.Text? && n.cdata)
    ensures |Print(n)| > 1 && Print(n)[0] == '<' && Print(n)[1] == if n.Declaration? then '?' else '!'
  {
    hide CStr, PrintPseudo, PrintAttributes, PrintAll;
  }

  // ---- content ----

  lemma CondensedStart(value: string)
    requires Condense(value) == value && value != ""
    ensures value[0] != ' '
  {
    if value[0] == ' ' {
      SqueezeShrinks(DropBlanks(value), false);
      DropShrinks(value);
    }
  }

  lemma {:induction false} SqueezeShrinks(s: string, pending: bool)
    ensures |Squeeze(s, pending)| <= |s| + if pending then 1 else 0
  {
    if s != "" { SqueezeShrinks(s[1..], s[0] == ' '); }
  }

  lemma {:induction false} DropShrinks(s: string)
    ensures |DropBlanks(s)| <= |s|
    ensures s != "" && s[0] == ' ' ==> |DropBlanks(s)| < |s|
  {
    if s != "" { DropShrinks(s[1..]); }
  }

  /** Identify takes a bracket followed by a name character for an element. */
  lemma Dispatch(s: string)
    requires |s| > 1 && s[0] == '<' && NameStart(s[1])
    ensures ParseNode(s) == ParseElement(s)
  {
    hide ParseElement, ParseUnknown, ParseComment, ParseCData, DeclarationLoop;
    assert ToLower(s[1]) != ToLower("<?xml"[1]);
    forall tag: string | StartsWith(s, tag) && |tag| > 1 ensures tag[1] == s[1] { assert s[..|tag|][1] == tag[1]; }
  }

  lemma EndOfContent(rest: string)
    requires StartsWith(rest, "</")
    ensures ReadValue(At(rest)) == ([], At(rest))
  {
    hide ParseNode;
    assert rest[0] == rest[..2][0];
  }
}
