/**
  The texts of an element.  The parser does not depend on how a document is laid out: an
  `Item` is a tree together with the white space around its tags, attributes and texts, the
  quotes of its attributes and the form of its empty elements, and every one of its texts is
  parsed to the tree.
 */
module XmlLayout {
  import opened Basics
  import opened XmlText
  import opened XmlTree
  import XmlScanner

  /** A run of white space: blank, tab, line feed and carriage return (section 2.3 of XML 1.0),
      and the other two characters of C's isspace, vertical tab and form feed. */
  ghost predicate Gap(s: string) {
    forall i | 0 <= i < |s| :: s[i] in {' ', '\t', '\n', '\r', '\U{0B}', '\U{0C}'}
  }

  datatype Attr = Attr(before: string, name: string, beforeEq: string, afterEq: string, quote: char, value: string)

  /** `close` stands before the end of the start tag, `end` in the end tag.  The blanks of a
      text may be longer runs: `runs` has the first of them, further ones are single. */
  datatype Item =
    | Empty(name: string, attrs: seq<Attr>, close: string)
    | Full(name: string, attrs: seq<Attr>, close: string, content: Content, end: string)
    | Words(value: string, runs: seq<string>)
    | Other(node: Node)

  datatype Content = End(gap: string) | Piece(gap: string, item: Item, more: Content)

  // ---- what is written, and what it means ----

  /** The text of an attribute, with `rest` after it; the same below. */
  function AttrThen(a: Attr, rest: string): string {
    a.before + (a.name + (a.beforeEq + ("=" + (a.afterEq + ([a.quote] + (Encode(a.value) + [a.quote] + rest))))))
  }

  function AttrsThen(attrs: seq<Attr>, rest: string): string {
    if attrs == [] then rest else AttrThen(attrs[0], AttrsThen(attrs[1..], rest))
  }

  function WordsThen(value: string, runs: seq<string>, rest: string): string {
    if value == "" then rest
    else if value[0] != ' ' then Escape(value[0]) + WordsThen(value[1..], runs, rest)
    else if runs == [] then " " + WordsThen(value[1..], [], rest)
    else runs[0] + WordsThen(value[1..], runs[1..], rest)
  }

  function ItemThen(item: Item, rest: string): string {
    match item
    case Empty(name, attrs, close) => "<" + (name + AttrsThen(attrs, close + ("/>" + rest)))
    case Full(name, attrs, close, content, end) =>
      "<" + (name + AttrsThen(attrs, close + (">" + ContentThen(content, EndThen(name, end, rest)))))
    case Words(value, runs) => WordsThen(value, runs, rest)
    case Other(node) => Print(node) + rest
  }

  function EndThen(name: string, end: string, rest: string): string { "</" + name + (end + (">" + rest)) }

  function ContentThen(content: Content, rest: string): string {
    match content
    case End(gap) => gap + rest
    case Piece(gap, item, more) => gap + ItemThen(item, ContentThen(more, rest))
  }

  function Attributes(attrs: seq<Attr>): (r: seq<Attribute>)
    ensures |r| == |attrs| && forall i | 0 <= i < |attrs| :: r[i] == Attribute(attrs[i].name, attrs[i].value)
  {
    if attrs == [] then [] else [Attribute(attrs[0].name, attrs[0].value)] + Attributes(attrs[1..])
  }

  function Tree(item: Item): Node {
    match item
    case Empty(name, attrs, _) => Element(name, Attributes(attrs), [])
    case Full(name, attrs, _, content, _) => Element(name, Attributes(attrs), Nodes(content))
    case Words(value, _) => Text(value, false)
    case Other(node) => node
  }

  function Nodes(content: Content): seq<Node> {
    if content.End? then [] else [Tree(content.item)] + Nodes(content.more)
  }

  // ---- what may be written ----

  ghost predicate AttrOk(a: Attr) {
    && ValidName(a.name) && NoHexRef(a.value) && IsQuote(a.quote)
    && a.before != "" && Gap(a.before) && Gap(a.beforeEq) && Gap(a.afterEq)
  }

  ghost predicate StartOk(name: string, attrs: seq<Attr>, close: string) {
    && ValidName(name) && Gap(close) && ValidAttributes(Attributes(attrs))
    && forall i | 0 <= i < |attrs| :: AttrOk(attrs[i])
  }

  ghost predicate RunsOk(runs: seq<string>) { forall i | 0 <= i < |runs| :: runs[i] != "" && Gap(runs[i]) }

  ghost predicate Ok(item: Item) {
    match item
    case Empty(name, attrs, close) => StartOk(name, attrs, close)
    case Full(name, attrs, close, content, end) => StartOk(name, attrs, close) && ContentOk(content) && Gap(end)
    case Words(value, runs) => Valid(Text(value, false)) && RunsOk(runs)
    case Other(node) => Valid(node) && !node.Element? && !PlainText(node)
  }

  /** Texts are separated by other nodes. */
  ghost predicate ContentOk(content: Content) {
    && Gap(content.gap)
    && (content.Piece? ==>
          && Ok(content.item) && ContentOk(content.more)
          && !(content.item.Words? && content.more.Piece? && content.more.item.Words?))
  }

  // ---- gaps ----

  /** A text that a gap may precede. */
  ghost predicate Visible(s: string) { !Ended(s) && !IsWhiteSpace(s[0]) }

  lemma {:induction false} SkipGap(gap: string, s: string)
    requires Gap(gap) && Visible(s)
    ensures !Ended(gap + s) && SkipWhiteSpace(At(gap + s)) == At(s)
  {
    if gap == "" {
      assert gap + s == s;
    } else {
      assert (gap + s)[1..] == gap[1..] + s;
      assert forall i | 0 <= i < |gap| - 1 :: gap[1..][i] == gap[i + 1];
      SkipGap(gap[1..], s);
    }
  }

  /** A name ends at a gap and at any visible character that is not of a name. */
  lemma GapStart(gap: string, s: string)
    requires Gap(gap) && s != "" && !NameChar(s[0])
    ensures (gap + s)[0] == (if gap == "" then s else gap)[0] && !NameChar((gap + s)[0])
  {
  }

  // ---- start tags ----

  lemma AttrBack(name: string, done: seq<Attribute>, a: Attr, more: string)
    requires AttrOk(a) && !HasName(done, a.name) && !Ended(more)
    ensures ParseTag(name, done, AttrThen(a, more)) == ParseTag(name, done + [Attribute(a.name, a.value)], more)
    ensures AttrThen(a, more) != "" && !Ended(AttrThen(a, more)) && !NameChar(AttrThen(a, more)[0])
  {
    hide ReadValue, EndTag, ParseAttribute, SkipWhiteSpace, NoHexRef;
    var quoted := [a.quote] + (Encode(a.value) + [a.quote] + more);
    var equals := "=" + (a.afterEq + quoted);
    var text := a.name + (a.beforeEq + equals);
    SkipGap(a.before, text);
    GapStart(a.before, "=");
    assert AttrThen(a, more)[0] == a.before[0];
    NameThenValue(a, more);
  }

  lemma NameThenValue(a: Attr, more: string)
    requires AttrOk(a) && !Ended(more)
    ensures var quoted := [a.quote] + (Encode(a.value) + [a.quote] + more);
            var text := a.name + (a.beforeEq + ("=" + (a.afterEq + quoted)));
            ParseAttribute(text) == (Attribute(a.name, a.value), At(more))
  {
    hide SkipWhiteSpace, ReadName, NoHexRef, Encode, ReadKeep, Gap;
    var body := Encode(a.value) + [a.quote] + more;
    var quoted := [a.quote] + body;
    var equals := "=" + (a.afterEq + quoted);
    var text := a.name + (a.beforeEq + equals);
    NotSpace(text);
    GapStart(a.beforeEq, equals);
    ReadNameBack(a.name, a.beforeEq + equals);
    SkipGap(a.beforeEq, equals);
    assert equals[1..] == a.afterEq + quoted;
    SkipGap(a.afterEq, quoted);
    assert quoted[1..] == body;
    ReadEscaped(a.value, a.quote, more);
  }

  lemma {:induction false} AttrsBack(name: string, done: seq<Attribute>, attrs: seq<Attr>, rest: string)
    requires ValidAttributes(done + Attributes(attrs)) && (forall i | 0 <= i < |attrs| :: AttrOk(attrs[i]))
    requires !Ended(rest) && !NameChar(rest[0])
    ensures var text := AttrsThen(attrs, rest);
            && !Ended(text) && !NameChar(text[0])
            && ParseTag(name, done, text) == ParseTag(name, done + Attributes(attrs), rest)
    decreases attrs
  {
    hide ParseTag, AttrThen, AttrOk, ValidAttributes, HasName;
    if attrs == [] {
      assert done + [] == done;
    } else {
      var a, all := Attribute(attrs[0].name, attrs[0].value), Attributes(attrs);
      NextAttribute(done, all);
      assert all == [a] + Attributes(attrs[1..]);
      Regroup(done, [a], Attributes(attrs[1..]));
      AttrsBack(name, done + [a], attrs[1..], rest);
      AttrBack(name, done, attrs[0], AttrsThen(attrs[1..], rest));
    }
  }

  lemma StartBack(name: string, attrs: seq<Attr>, close: string, rest: string)
    requires StartOk(name, attrs, close) && !Ended(rest) && (rest[0] == '/' || rest[0] == '>')
    ensures var text := "<" + (name + AttrsThen(attrs, close + rest));
            && ParseElement(text) == ParseTag(name, Attributes(attrs), close + rest)
            && |text| > 1 && text[0] == '<' && text[1] == name[0]
  {
    hide ParseTag, SkipWhiteSpace, ReadName, AttrsThen, ValidAttributes, AttrOk, Gap;
    var tail := AttrsThen(attrs, close + rest);
    var text := "<" + (name + tail);
    SkipGap(close, rest);
    GapStart(close, rest);
    assert [] + Attributes(attrs) == Attributes(attrs);
    AttrsBack(name, [], attrs, close + rest);
    NotSpace(text);
    assert text[1..] == name + tail;
    NotSpace(name + tail);
    ReadNameBack(name, tail);
  }

  lemma EmptyBack(name: string, attributes: seq<Attribute>, close: string, rest: string)
    requires Gap(close)
    ensures ParseTag(name, attributes, close + ("/>" + rest)) == (Element(name, attributes, []), At(rest))
  {
    hide ReadValue, EndTag, ParseAttribute, SkipWhiteSpace;
    var text := "/>" + rest;
    SkipGap(close, text);
    assert text[2..] == rest;
  }

  lemma EndBack(name: string, end: string, rest: string)
    requires Gap(end)
    ensures EndTag(name, EndThen(name, end, rest)) == At(rest)
    ensures StartsWith(EndThen(name, end, rest), "</") && Visible(EndThen(name, end, rest))
  {
    hide SkipWhiteSpace;
    var s := EndThen(name, end, rest);
    assert s[..2 + |name|] == "</" + name && s[..2] == "</";
    assert s[2 + |name|..] == end + (">" + rest);
    SkipGap(end, ">" + rest);
    assert (">" + rest)[1..] == rest;
  }

  lemma FullBack(name: string, attributes: seq<Attribute>, close: string, body: string, nodes: seq<Node>,
                 end: string, rest: string)
    requires Gap(close) && Gap(end)
    requires ReadValue(SkipWhiteSpace(At(body))) == (nodes, At(EndThen(name, end, rest)))
    ensures ParseTag(name, attributes, close + (">" + body)) == (Element(name, attributes, nodes), At(rest))
  {
    hide ReadValue, EndTag, ParseAttribute, SkipWhiteSpace, EndThen;
    var text := ">" + body;
    SkipGap(close, text);
    assert text[1..] == body;
    EndBack(name, end, rest);
  }

  // ---- texts ----

  lemma {:induction false} GapRead(gap: string, s: string, pending: bool)
    requires Gap(gap) && gap != ""
    ensures ReadCondensed(gap + s, "<", pending) == ReadCondensed(s, "<", true)
  {
    var text := gap + s;
    assert text[0] == gap[0] && text[1..] == gap[1..] + s;
    assert !StartsWith(text, "<");
    if |gap| == 1 {
      assert gap[1..] + s == s;
    } else {
      assert forall i | 0 <= i < |gap| - 1 :: gap[1..][i] == gap[i + 1];
      GapRead(gap[1..], s, true);
    }
  }

  lemma EscapeRead(c: char, s: string, pending: bool)
    requires c != ' '
    ensures ReadCondensed(Escape(c) + s, "<", pending) ==
            ((if pending then " " else "") + [c] + ReadCondensed(s, "<", false).0, ReadCondensed(s, "<", false).1)
    ensures !IsWhiteSpace((Escape(c) + s)[0]) && !Ended(Escape(c) + s) && (Escape(c) + s)[0] != '<'
  {
    hide GetChar;
    DecodeEscape(c, s);
    var e := Escape(c);
    assert e[0] == '&' || e == [c];
    assert (e + s)[0] == e[0] && e[0] != '<';
  }

  lemma {:induction false} WordsRead(value: string, runs: seq<string>, gap: string, pending: bool, rest: string)
    requires RunsOk(runs) && Gap(gap) && !Ended(rest)
    ensures var text := WordsThen(value, runs, gap + ("<" + rest));
            ReadCondensed(text, "<", pending) == (Squeeze(value, pending), At(rest))
  {
    hide Gap, Escape;
    var tail := gap + ("<" + rest);
    if value == "" {
      if gap == "" { assert tail == "<" + rest; } else { GapRead(gap, "<" + rest, pending); }
      assert ("<" + rest)[1..] == rest;
      BracketRead(rest, pending);
      BracketRead(rest, true);
    } else if value[0] != ' ' {
      WordsRead(value[1..], runs, gap, false, rest);
      EscapeRead(value[0], WordsThen(value[1..], runs, tail), pending);
    } else {
      var run, more := if runs == [] then " " else runs[0], if runs == [] then [] else runs[1..];
      assert Gap(run) by { OneBlankGap(); }
      WordsRead(value[1..], more, gap, true, rest);
      GapRead(run, WordsThen(value[1..], more, tail), pending);
    }
  }

  lemma OneBlankGap()
    ensures Gap(" ")
  {
  }

  lemma BracketRead(rest: string, pending: bool)
    requires !Ended(rest)
    ensures ReadCondensed("<" + rest, "<", pending) == ("", At(rest))
  {
    assert ("<" + rest)[1..] == rest;
  }

  lemma {:induction false} SkipRun(run: string, s: string)
    requires Gap(run)
    ensures SkipSpaces(run + s) == SkipSpaces(s)
  {
    if run == "" {
      assert run + s == s;
    } else {
      assert (run + s)[1..] == run[1..] + s;
      assert forall i | 0 <= i < |run| - 1 :: run[1..][i] == run[i + 1];
      SkipRun(run[1..], s);
    }
  }

  lemma {:induction false} SkipRuns(value: string, runs: seq<string>, gap: string, rest: string)
    returns (more: seq<string>, after: string)
    requires RunsOk(runs) && Gap(gap)
    ensures RunsOk(more) && Gap(after)
    ensures SkipSpaces(WordsThen(value, runs, gap + ("<" + rest))) ==
            WordsThen(DropBlanks(value), more, after + ("<" + rest))
  {
    hide Gap, Escape, SkipSpaces;
    more, after := runs, gap;
    if value == "" {
      after := "";
      SkipRun(gap, "<" + rest);
      XmlScanner.SkipNone("<" + rest);
      assert Gap(after) && "" + ("<" + rest) == "<" + rest by { NoGap(); }
    } else if value[0] != ' ' {
      EscapeRead(value[0], WordsThen(value[1..], runs, gap + ("<" + rest)), false);
      XmlScanner.SkipNone(WordsThen(value, runs, gap + ("<" + rest)));
    } else {
      var run, others := if runs == [] then " " else runs[0], if runs == [] then [] else runs[1..];
      assert Gap(run) by { OneBlankGap(); }
      SkipRun(run, WordsThen(value[1..], others, gap + ("<" + rest)));
      more, after := SkipRuns(value[1..], others, gap, rest);
    }
  }

  lemma NoGap()
    ensures Gap("")
  {
  }

  /** Text is read condensed, whatever white space stands for its blanks and around it: only
      blanks are condensed, line breaks and tabs of the text itself survive, being escaped. */
  lemma TextReadBack(value: string, runs: seq<string>, gap: string, rest: string)
    requires RunsOk(runs) && Gap(gap) && !Ended(rest)
    ensures ReadTrim(WordsThen(value, runs, gap + ("<" + rest)), "<") == (Condense(value), At(rest))
  {
    hide Gap, Escape, SkipSpaces, ReadCondensed, Squeeze, WordsThen;
    var more, after := SkipRuns(value, runs, gap, rest);
    WordsRead(DropBlanks(value), more, after, false, rest);
    WordsMore(value, runs, gap, rest);
  }

  lemma {:induction false} WordsMore(value: string, runs: seq<string>, gap: string, rest: string)
    requires RunsOk(runs) && Gap(gap)
    ensures !Ended(WordsThen(value, runs, gap + ("<" + rest)))
  {
    hide Escape;
    if value != "" && value[0] != ' ' {
      EscapeRead(value[0], WordsThen(value[1..], runs, gap + ("<" + rest)), false);
    }
  }

  /** A text before a tag, with any white space between them, becomes a text node. */
  lemma WordsBack(value: string, runs: seq<string>, gap: string, rest: string)
    requires Ok(Words(value, runs)) && Gap(gap) && !Ended(rest)
    ensures var text, next := WordsThen(value, runs, gap + ("<" + rest)), ReadValue(At("<" + rest));
            Visible(text) && ReadValue(At(text)) == ([Text(value, false)] + next.0, next.1)
  {
    hide Gap, Escape, ReadTrim, NoHexRef;
    var text := WordsThen(value, runs, gap + ("<" + rest));
    CondensedStart(value);
    EscapeRead(value[0], WordsThen(value[1..], runs, gap + ("<" + rest)), false);
    TextReadBack(value, runs, gap, rest);
    WordsValue(text, value, rest);
  }

  lemma WordsValue(text: string, value: string, rest: string)
    requires !Ended(text) && text[0] != '<' && ReadTrim(text, "<") == (value, At(rest)) && !Blank(value) && !Ended(rest)
    ensures var next := ReadValue(At("<" + rest));
            ReadValue(At(text)) == ([Text(value, false)] + next.0, next.1)
  {
    hide ReadTrim, ParseNode, SkipWhiteSpace, Blank;
    NotSpace("<" + rest);
  }

  // ---- elements and their content ----

  /** What starts with a bracket and is no end tag is parsed as a node. */
  lemma NodeBack(n: Node, s: string, x: string)
    requires StartsWith(s, "<") && !StartsWith(s, "</") && ParseNode(s) == (n, At(x)) && SkipWhiteSpace(At(x)).At?
    ensures var next := ReadValue(SkipWhiteSpace(At(x)));
            ReadValue(At(s)) == ([n] + next.0, next.1)
  {
    hide ParseNode, ReadTrim;
  }

  /** Every text of an element is parsed to its tree, and the parser stops just after it. */
  lemma {:induction false} LayoutRead(item: Item, rest: string)
    requires Ok(item) && (item.Empty? || item.Full?)
    ensures var text := ItemThen(item, rest);
            && ParseElement(text) == (Tree(item), At(rest))
            && |text| > 1 && text[0] == '<' && NameStart(text[1])
    decreases item, 1
  {
    hide ParseElement, ParseTag, AttrsThen, StartOk, EndThen;
    match item
    case Empty(name, attrs, close) =>
      StartBack(name, attrs, close, "/>" + rest);
      assert ValidName(name) && Gap(close) by { StartParts(name, attrs, close); }
      EmptyBack(name, Attributes(attrs), close, rest);
    case Full(name, attrs, close, content, end) =>
      var body := ContentThen(content, EndThen(name, end, rest));
      StartBack(name, attrs, close, ">" + body);
      assert ValidName(name) && Gap(close) by { StartParts(name, attrs, close); }
      EndBack(name, end, rest);
      ContentRead(content, EndThen(name, end, rest));
      FullBack(name, Attributes(attrs), close, body, Nodes(content), end, rest);
  }

  lemma StartParts(name: string, attrs: seq<Attr>, close: string)
    requires StartOk(name, attrs, close)
    ensures ValidName(name) && Gap(close)
  {
  }

  lemma {:induction false} ItemRead(item: Item, rest: string)
    requires Ok(item) && !item.Words? && !Ended(rest)
    ensures var text := ItemThen(item, rest);
            && ParseNode(text) == (Tree(item), At(rest))
            && StartsWith(text, "<") && !StartsWith(text, "</") && Visible(text)
    decreases item, 2
  {
    hide ParseNode, ParseElement;
    var text := ItemThen(item, rest);
    if item.Other? {
      LeafRoundTrip(item.node, rest);
      assert text[..1] == "<";
    } else {
      LayoutRead(item, rest);
      Dispatch(text);
      assert text[..2][1] == text[1];
    }
  }

  lemma {:induction false} ContentRead(content: Content, rest: string)
    requires ContentOk(content) && StartsWith(rest, "</") && |rest| > 1
    ensures var text := ContentThen(content, rest);
            && SkipWhiteSpace(At(text)).At?
            && ReadValue(SkipWhiteSpace(At(text))) == (Nodes(content), At(rest))
    decreases content, 0
  {
    hide ReadValue, ParseNode, SkipWhiteSpace, Gap, Ok;
    assert rest[0] == rest[..2][0] && rest[1] == rest[..2][1];
    if content.End? {
      SkipGap(content.gap, rest);
      EndOfContent(rest);
    } else {
      var item, more := content.item, content.more;
      var x := ContentThen(more, rest);
      ContentRead(more, rest);
      var text := ItemThen(item, x);
      if item.Words? {
        var r := TextFollowed(more, rest);
        WordsBack(item.value, item.runs, more.gap, r);
        SkipGap(more.gap, "<" + r);
      } else {
        SkippedSome(x);
        ItemRead(item, x);
        NodeBack(Tree(item), text, x);
      }
      SkipGap(content.gap, text);
    }
  }

  lemma SkippedSome(x: string)
    requires SkipWhiteSpace(At(x)).At?
    ensures !Ended(x)
  {
  }

  /** After a text comes a gap and then a tag. */
  lemma TextFollowed(more: Content, rest: string) returns (r: string)
    requires ContentOk(more) && !(more.Piece? && more.item.Words?) && StartsWith(rest, "</") && |rest| > 1
    requires SkipWhiteSpace(At(ContentThen(more, rest))).At?
    ensures ContentThen(more, rest) == more.gap + ("<" + r) && !Ended(r)
  {
    hide ParseNode, Ok;
    assert rest[0] == rest[..2][0] && rest[1] == rest[..2][1];
    if more.End? {
      r := rest[1..];
      assert rest == "<" + r;
    } else {
      var text := ItemThen(more.item, ContentThen(more.more, rest));
      TagStart(more.item, ContentThen(more.more, rest));
      r := text[1..];
      assert text == "<" + r;
    }
  }

  lemma TagStart(item: Item, rest: string)
    requires Ok(item) && !item.Words?
    ensures var text := ItemThen(item, rest); |text| > 1 && text[0] == '<' && text[1] != '\0'
  {
    if item.Other? { LeafStart(item.node, rest); }
  }

  // ---- main results ----

  /** Layout does not matter: any two texts of a tree, with any white space before them, are
      parsed to it. */
  lemma LayoutIndependence(item: Item, other: Item, gap: string, otherGap: string, rest: string)
    requires Ok(item) && !item.Words? && !item.Other? && Ok(other) && Tree(item) == Tree(other)
    requires Gap(gap) && Gap(otherGap)
    ensures ParseElement(gap + ItemThen(item, rest)) == ParseElement(otherGap + ItemThen(other, rest))
            == (Tree(item), At(rest))
  {
    hide ParseElement, ItemThen;
    LayoutRead(item, rest);
    LayoutRead(other, rest);
    GapBefore(gap, ItemThen(item, rest));
    GapBefore(otherGap, ItemThen(other, rest));
  }

  lemma GapBefore(gap: string, s: string)
    requires Gap(gap) && s != "" && s[0] == '<'
    ensures ParseElement(gap + s) == ParseElement(s)
  {
    hide ParseTag, SkipWhiteSpace, ReadName;
    SkipGap(gap, s);
    NotSpace(s);
  }

  // ---- what is refused ----

  lemma {:induction false} AttrsSnoc(attrs: seq<Attr>, a: Attr, rest: string)
    ensures AttrsThen(attrs + [a], rest) == AttrsThen(attrs, AttrThen(a, rest))
  {
    hide AttrThen;
    if attrs == [] {
      assert attrs + [a] == [a] && [a][1..] == [];
    } else {
      assert (attrs + [a])[1..] == attrs[1..] + [a];
      AttrsSnoc(attrs[1..], a, rest);
    }
  }

  /** An attribute that repeats a name ends the parse at that attribute. */
  lemma RepeatRefused(name: string, attrs: seq<Attr>, a: Attr, rest: string)
    requires StartOk(name, attrs, "") && AttrOk(a) && !Ended(rest)
    requires exists i | 0 <= i < |attrs| :: attrs[i].name == a.name
    ensures ParseElement("<" + (name + AttrsThen(attrs + [a], rest))) == (Element(name, Attributes(attrs), []), Null)
  {
    hide ParseTag, SkipWhiteSpace, ReadName, AttrsThen, ValidAttributes, AttrOk, AttrThen;
    var tail := AttrThen(a, rest);
    AttrsSnoc(attrs, a, rest);
    RepeatStops(name, Attributes(attrs), a, rest);
    assert [] + Attributes(attrs) == Attributes(attrs);
    AttrsBack(name, [], attrs, tail);
    var text := AttrsThen(attrs, tail);
    NotSpace("<" + (name + text));
    assert ("<" + (name + text))[1..] == name + text;
    NotSpace(name + text);
    ReadNameBack(name, text);
  }

  lemma RepeatStops(name: string, done: seq<Attribute>, a: Attr, more: string)
    requires AttrOk(a) && !Ended(more) && exists i | 0 <= i < |done| :: done[i].name == a.name
    ensures ParseTag(name, done, AttrThen(a, more)) == (Element(name, done, []), Null)
    ensures !Ended(AttrThen(a, more)) && !NameChar(AttrThen(a, more)[0])
  {
    hide ReadValue, EndTag, ParseAttribute, SkipWhiteSpace, NoHexRef;
    var quoted := [a.quote] + (Encode(a.value) + [a.quote] + more);
    var text := a.name + (a.beforeEq + ("=" + (a.afterEq + quoted)));
    SkipGap(a.before, text);
    GapStart(a.before, "=");
    assert AttrThen(a, more)[0] == a.before[0];
    NameThenValue(a, more);
  }

  /** The end tag of another name does not close an element. */
  lemma WrongEnd(name: string, other: string, end: string, rest: string)
    requires ValidName(name) && ValidName(other) && other != name && Gap(end)
    ensures EndTag(name, EndThen(other, end, rest)) == Null
    ensures StartsWith(EndThen(other, end, rest), "</") && Visible(EndThen(other, end, rest))
  {
    var s, k := EndThen(other, end, rest), |name|;
    assert s[..2] == "</";
    GapStart(end, ">" + rest);
    assert s[2 + |other|] == (end + (">" + rest))[0];
    assert forall i | 0 <= i < |other| :: s[2 + i] == other[i];
    if StartsWith(s, "</" + name) {
      assert forall i | 0 <= i < k :: s[2 + i] == s[..2 + k][2 + i] == name[i];
      assert k <= |other|;
      assert other[..k] == name && k < |other|;
      assert s[2 + k..][0] == other[k];
      XmlScanner.SkipNone(s[2 + k..]);
    }
  }

  /** An element closed by the end tag of another name is not accepted. */
  lemma MismatchRefused(name: string, attrs: seq<Attr>, close: string, content: Content, other: string, end: string,
                        rest: string)
    requires StartOk(name, attrs, close) && ContentOk(content) && Gap(end) && ValidName(other) && other != name
    ensures var body := ContentThen(content, EndThen(other, end, rest));
            ParseElement("<" + (name + AttrsThen(attrs, close + (">" + body)))) ==
            (Element(name, Attributes(attrs), Nodes(content)), Null)
  {
    hide ParseElement, AttrsThen, ContentOk, EndThen, EndTag, ReadValue, ParseAttribute, SkipWhiteSpace;
    hide ValidAttributes;
    var body := ContentThen(content, EndThen(other, end, rest));
    StartBack(name, attrs, close, ">" + body);
    WrongEnd(name, other, end, rest);
    ContentRead(content, EndThen(other, end, rest));
    SkipGap(close, ">" + body);
    assert (">" + body)[1..] == body;
  }
}
