/**
  TiXmlPrinter: a visitor that appends to a text buffer while it walks a tree.  Each node gets
  a line of its own, indented by its depth, except a text that is an element's only child; in
  stream mode, with no indent and no line breaks, what is written is XmlTree.Print.
 */
module XmlPrinter {
  import opened Basics
  import opened XmlText
  import opened XmlTree
  import opened XmlLayout
  import XmlScanner

  // ---- what is printed ----

  datatype Style = Style(indent: string, lineBreak: string)

  function Margin(depth: int, st: Style): string {
    if depth <= 0 then "" else Margin(depth - 1, st) + st.indent
  }

  /** An only child that is text stays on the line of its element. */
  predicate OneText(nodes: seq<Node>) { |nodes| == 1 && PlainText(nodes[0]) }

  /** A node at a depth, without the margin before it and the line break after it. */
  function Pretty(n: Node, depth: int, st: Style): string
    decreases n, 1
  {
    if !n.Element? then Print(n)
    else Head(n) + (if n.children == [] then "" else Body(n, depth, st) + "</" + CStr(n.name) + ">")
  }

  function Head(n: Node): string
    requires n.Element?
  {
    "<" + CStr(n.name) + PrintAttributes(n.attributes) + (if n.children == [] then " />" else ">")
  }

  function Body(n: Node, depth: int, st: Style): string
    requires n.Element? && n.children != []
    decreases n, 0
  {
    if OneText(n.children) then Encode(n.children[0].value)
    else st.lineBreak + Lines(n.children, depth + 1, st) + Margin(depth, st)
  }

  function Lines(nodes: seq<Node>, depth: int, st: Style): string
    decreases nodes, 0
  {
    if nodes == [] then "" else Line(nodes[0], depth, st) + Lines(nodes[1..], depth, st)
  }

  function Line(n: Node, depth: int, st: Style): string
    decreases n, 2
  {
    Margin(depth, st) + Pretty(n, depth, st) + st.lineBreak
  }

  // ---- the printer itself ----

  class Printer {
    var depth: int
    var simpleTextPrint: bool
    var buffer: string
    var indent: string
    var lineBreak: string

    constructor ()
      ensures depth == 0 && !simpleTextPrint && buffer == ""
      ensures indent == "    " && lineBreak == "\n"
    {
      depth, simpleTextPrint, buffer := 0, false, "";
      indent, lineBreak := "    ", "\n";
    }

    ghost function Mode(): Style
      reads this
    {
      Style(indent, lineBreak)
    }

    /** Most dense formatting, without indentation and line breaks. */
    method SetStreamPrinting()
      modifies this`indent, this`lineBreak
      ensures Mode() == Style("", "")
    {
      indent, lineBreak := "", "";
    }

    method DoIndent()
      modifies this`buffer
      ensures buffer == old(buffer) + Margin(depth, Mode())
    {
      var i := 0;
      assert buffer + "" == buffer;
      while i < depth
        invariant i == 0 || 0 <= i <= depth
        invariant buffer == old(buffer) + Margin(i, Mode())
      {
        Regroup(old(buffer), Margin(i, Mode()), indent);
        buffer := buffer + indent;
        i := i + 1;
      }
      assert Margin(i, Mode()) == Margin(depth, Mode());
    }

    method DoLineBreak()
      modifies this`buffer
      ensures buffer == old(buffer) + lineBreak
    {
      buffer := buffer + lineBreak;
    }

    method PrintAttributeTo(a: Attribute)
      modifies this`buffer
      ensures buffer == old(buffer) + PrintAttribute(a)
    {
      var n := XmlScanner.EncodeString(a.name);
      var v := XmlScanner.EncodeString(a.value);
      if '\"' in a.value {
        buffer := buffer + n + "=\'" + v + "\'";
      } else {
        buffer := buffer + n + "=\"" + v + "\"";
      }
    }

    /** The loop over the attributes. */
    method PrintAttributesTo(attributes: seq<Attribute>)
      modifies this`buffer
      ensures buffer == old(buffer) + PrintAttributes(attributes)
    {
      hide PrintAttributes, PrintAttribute;
      NoAttributes();
      assert attributes[..0] == [] && buffer + "" == buffer;
      for i := 0 to |attributes|
        invariant buffer == old(buffer) + PrintAttributes(attributes[..i])
      {
        ghost var before := buffer;
        buffer := buffer + " ";
        PrintAttributeTo(attributes[i]);
        AttributesSnoc(attributes, i);
        ghost var part := PrintAttribute(attributes[i]);
        assert before + " " + part == old(buffer) + (PrintAttributes(attributes[..i]) + " " + part);
      }
      assert attributes[..|attributes|] == attributes;
    }

    method VisitEnter(n: Node)
      requires n.Element?
      modifies this`buffer, this`simpleTextPrint, this`depth
      ensures buffer == old(buffer) + Margin(old(depth), Mode()) + Head(n)
                        + (if OneText(n.children) then "" else lineBreak)
      ensures depth == old(depth) + 1
      ensures simpleTextPrint == (old(simpleTextPrint) || OneText(n.children))
    {
      hide Margin, PrintAttributes, CStr;
      DoIndent();
      ghost var start := buffer;
      buffer := buffer + "<" + CStr(n.name);
      PrintAttributesTo(n.attributes);
      if n.children == [] {
        buffer := buffer + " />";
        assert buffer == start + Head(n);
        DoLineBreak();
      } else {
        buffer := buffer + ">";
        assert buffer == start + Head(n);
        if PlainText(n.children[0]) && |n.children| == 1 {
          simpleTextPrint := true;
        } else {
          DoLineBreak();
        }
      }
      depth := depth + 1;
    }

    method VisitExit(n: Node)
      requires n.Element?
      modifies this`buffer, this`simpleTextPrint, this`depth
      ensures buffer == old(buffer) +
                        if n.children == [] then ""
                        else (if old(simpleTextPrint) then "" else Margin(depth, Mode())) +
                             ("</" + CStr(n.name) + ">") + lineBreak
      ensures depth == old(depth) - 1
      ensures simpleTextPrint == (old(simpleTextPrint) && n.children == [])
    {
      hide Margin, CStr;
      depth := depth - 1;
      if n.children != [] {
        if simpleTextPrint {
          simpleTextPrint := false;
        } else {
          DoIndent();
        }
        buffer := buffer + "</" + CStr(n.name) + ">";
        DoLineBreak();
      }
    }

    method VisitText(n: Node)
      requires n.Text?
      modifies this`buffer
      ensures buffer == old(buffer) +
                        if simpleTextPrint && !n.cdata then Print(n)
                        else Margin(depth, Mode()) + Print(n) + lineBreak
    {
      hide Margin, CStr, Encode;
      if n.cdata {
        DoIndent();
        ghost var start := buffer;
        buffer := buffer + "<![CDATA[" + CStr(n.value) + "]]>";
        assert buffer == start + Print(n);
        DoLineBreak();
      } else {
        var str := XmlScanner.EncodeString(n.value);
        if simpleTextPrint {
          buffer := buffer + str;
        } else {
          DoIndent();
          buffer := buffer + str;
          DoLineBreak();
        }
      }
    }

    /** Comments, unknown tags and declarations. */
    method VisitOther(n: Node)
      requires !n.Element? && !n.Text?
      modifies this`buffer
      ensures buffer == old(buffer) + (Margin(depth, Mode()) + Print(n) + lineBreak)
    {
      hide Margin, CStr, PrintAll, PrintAttributes, PrintPseudo;
      DoIndent();
      var text := match n
        case Comment(value) => "<!--" + CStr(value) + "-->"
        case Unknown(value) => "<" + CStr(value) + ">"
        case Declaration(_, _, _) => Print(n);
      Regroup(old(buffer), Margin(depth, Mode()), text);
      Regroup(old(buffer), Margin(depth, Mode()) + text, lineBreak);
      buffer := buffer + text;
      DoLineBreak();
    }

    /** Visiting a tree appends its line or lines and leaves the printer ready for the next. */
    method Accept(n: Node)
      requires !simpleTextPrint
      modifies this`buffer, this`simpleTextPrint, this`depth
      ensures buffer == old(buffer) + Line(n, depth, Mode())
      ensures depth == old(depth) && !simpleTextPrint
      decreases n
    {
      hide Print, Pretty, Line, Lines, Head, Margin, CStr;
      if !n.Element? {
        LeafLine(n, depth, Mode());
        if n.Text? { VisitText(n); } else { VisitOther(n); }
      } else {
        ghost var st := Mode();
        VisitEnter(n);
        ghost var start, simple := buffer, simpleTextPrint;
        var i := 0;
        InsideStart(start, n, depth, st);
        while i < |n.children|
          invariant 0 <= i <= |n.children|
          invariant buffer == start + Within(n, depth, st, i)
          invariant depth == old(depth) + 1 && simpleTextPrint == simple && Mode() == st
        {
          Inside(start, n, depth, st, i);
          if simpleTextPrint {
            VisitText(n.children[i]);
          } else {
            Accept(n.children[i]);
          }
          i := i + 1;
        }
        ElementLine(old(buffer), n, old(depth), st);
        VisitExit(n);
      }
    }
  }

  /** What the first i children of an element add. */
  ghost function Within(n: Node, depth: int, st: Style, i: nat): string
    requires n.Element? && i <= |n.children|
  {
    if OneText(n.children) then if i == 0 then "" else Print(n.children[0]) else Lines(n.children[..i], depth, st)
  }

  lemma Inside(s: string, n: Node, depth: int, st: Style, i: nat)
    requires n.Element? && i < |n.children|
    ensures OneText(n.children) ==> i == 0 && s + Within(n, depth, st, 0) == s
    ensures OneText(n.children) ==> Within(n, depth, st, i + 1) == Print(n.children[i])
    ensures !OneText(n.children) ==>
              s + Within(n, depth, st, i) + Line(n.children[i], depth, st) == s + Within(n, depth, st, i + 1)
  {
    hide Line, Print;
    if !OneText(n.children) {
      LinesSnoc(n.children, depth, st, i);
      Regroup(s, Within(n, depth, st, i), Line(n.children[i], depth, st));
    }
  }

  lemma InsideStart(s: string, n: Node, depth: int, st: Style)
    requires n.Element?
    ensures s + Within(n, depth, st, 0) == s
  {
  }

  lemma LeafLine(n: Node, depth: int, st: Style)
    requires !n.Element?
    ensures Line(n, depth, st) == Margin(depth, st) + Print(n) + st.lineBreak
  {
  }

  lemma ElementLine(s: string, n: Node, depth: int, st: Style)
    requires n.Element?
    ensures var one, tag := OneText(n.children), "</" + CStr(n.name) + ">";
            s + Margin(depth, st) + Head(n) + (if one then "" else st.lineBreak)
            + Within(n, depth + 1, st, |n.children|)
            + (if n.children == [] then "" else (if one then "" else Margin(depth, st)) + tag + st.lineBreak)
            == s + Line(n, depth, st)
  {
    hide Lines, Head, Margin, CStr, Encode;
    var one, tag := OneText(n.children), "</" + CStr(n.name) + ">";
    var margin, head, within := Margin(depth, st), Head(n), Within(n, depth + 1, st, |n.children|);
    if n.children == [] {
      assert within == "" by { NoLines(depth + 1, st); }
      assert head + "" == head && forall t: string :: t + "" + "" == t;
      Regroup(s, margin, head);
      Regroup(s, margin + head, st.lineBreak);
    } else {
      var x, y := if one then "" else st.lineBreak, if one then "" else margin;
      assert x + within + y == Body(n, depth, st) by { assert n.children[..|n.children|] == n.children; }
      Regroup(x + within + y, "</" + CStr(n.name), ">");
      LineUp(s, margin, head, x, within, y, tag, st.lineBreak);
    }
  }

  lemma LineUp(s: string, m: string, h: string, x: string, w: string, y: string, tag: string, lb: string)
    ensures s + m + h + x + w + (y + tag + lb) == s + (m + (h + (x + w + y + tag)) + lb)
  {
    var before := s + m + h + x + w;
    Regroup(before, y + tag, lb);
    Regroup(before, y, tag);
    Regroup(s, m + (h + (x + w + y + tag)), lb);
    Regroup(s, m, h + (x + w + y + tag));
    Regroup(s + m, h, x + w + y + tag);
    Regroup(s + m + h, x + w + y, tag);
    Regroup(s + m + h, x + w, y);
    Regroup(s + m + h, x, w);
  }

  lemma NoLines(depth: int, st: Style)
    ensures Lines([], depth, st) == ""
  {
  }

  // ---- what was printed, parsed ----

  /** The layout that the printer chooses. */
  function Spelled(n: Node, depth: int, st: Style): Item
    decreases n, 1
  {
    if PlainText(n) then Words(n.value, [])
    else if !n.Element? then Other(n)
    else if n.children == [] then Empty(n.name, SpelledAttributes(n.attributes), " ")
    else Full(n.name, SpelledAttributes(n.attributes), "", SpelledBody(n, depth, st), "")
  }

  function SpelledBody(n: Node, depth: int, st: Style): Content
    requires n.Element? && n.children != []
    decreases n, 0
  {
    if OneText(n.children) then Piece("", Words(n.children[0].value, []), End(""))
    else SpelledLines(n.children, depth, st)
  }

  function SpelledLines(nodes: seq<Node>, depth: int, st: Style): Content
    decreases nodes, 0
  {
    if nodes == [] then End(st.lineBreak + Margin(depth, st))
    else
      Piece(st.lineBreak + Margin(depth + 1, st), Spelled(nodes[0], depth + 1, st), SpelledLines(nodes[1..], depth, st))
  }

  function SpelledAttributes(attributes: seq<Attribute>): seq<Attr> {
    if attributes == [] then [] else [SpelledAttribute(attributes[0])] + SpelledAttributes(attributes[1..])
  }

  function SpelledAttribute(a: Attribute): Attr {
    Attr(" ", a.name, "", "", if '\"' in a.value then '\'' else '\"', a.value)
  }

  ghost predicate Blanks(st: Style) { Gap(st.indent) && Gap(st.lineBreak) }

  lemma {:induction false} MarginGap(depth: int, st: Style)
    requires Blanks(st)
    ensures Gap(Margin(depth, st)) && Gap(st.lineBreak + Margin(depth, st))
    decreases depth
  {
    if depth > 0 { MarginGap(depth - 1, st); }
  }

  lemma AttributeSpelled(a: Attribute, rest: string)
    requires ValidName(a.name) && NoHexRef(a.value)
    ensures AttrOk(SpelledAttribute(a)) && AttrThen(SpelledAttribute(a), rest) == " " + (PrintAttribute(a) + rest)
  {
    hide NoHexRef, ValidName, PrintAttribute, Encode;
    AttributeText(a, rest);
    var q := if '\"' in a.value then '\'' else '\"';
    var quoted := [q] + (Encode(a.value) + [q] + rest);
    assert "" + quoted == quoted && "" + ("=" + quoted) == "=" + quoted;
  }

  lemma {:induction false} SpelledAttributesOk(attributes: seq<Attribute>, rest: string)
    requires forall i | 0 <= i < |attributes| :: ValidName(attributes[i].name) && NoHexRef(attributes[i].value)
    ensures var attrs := SpelledAttributes(attributes);
            && |attrs| == |attributes| && (forall i | 0 <= i < |attrs| :: AttrOk(attrs[i]))
            && Attributes(attrs) == attributes
            && AttrsThen(attrs, rest) == PrintAttributes(attributes) + rest
  {
    hide NoHexRef, ValidName, PrintAttribute, AttrThen, AttrOk;
    if attributes == [] {
      assert PrintAttributes(attributes) + rest == rest;
    } else {
      var a, more := attributes[0], attributes[1..];
      SpelledAttributesOk(more, rest);
      AttributeSpelled(a, PrintAttributes(more) + rest);
      Regroup(" " + PrintAttribute(a), PrintAttributes(more), rest);
      Regroup(" ", PrintAttribute(a), PrintAttributes(more) + rest);
      assert SpelledAttributes(attributes)[1..] == SpelledAttributes(more);
    }
  }

  lemma {:induction false} WordsAreEncoded(value: string, rest: string)
    requires NoHexRef(value)
    ensures WordsThen(value, [], rest) == Encode(value) + rest
  {
    if value == "" {
      assert Encode(value) + rest == rest;
    } else {
      WordsAreEncoded(value[1..], rest);
      Regroup(Escape(value[0]), Encode(value[1..]), rest);
    }
  }

  /** Every printed node is one of the texts of the node. */
  lemma {:induction false} SpelledOk(n: Node, depth: int, st: Style, rest: string)
    requires Valid(n) && Blanks(st)
    ensures var item := Spelled(n, depth, st);
            && Ok(item) && Tree(item) == n && (item.Words? <==> PlainText(n))
            && ItemThen(item, rest) == Pretty(n, depth, st) + rest
    decreases n, 1
  {
    hide NoHexRef, Condense, Blank, CStr, Encode;
    if PlainText(n) {
      WordsAreEncoded(n.value, rest);
    } else if n.Element? {
      ElementSpelled(n, depth, st, rest);
    }
  }

  lemma EmptyText(n: Node, depth: int, st: Style, rest: string)
    requires n.Element? && n.children == [] && ValidName(n.name)
    ensures "<" + (n.name + (PrintAttributes(n.attributes) + (" " + ("/>" + rest)))) == Pretty(n, depth, st) + rest
  {
    hide PrintAttributes, CStr, ValidName;
    assert CStr(n.name) == n.name by { CName(n.name); }
    assert Pretty(n, depth, st) == Head(n) && " " + ("/>" + rest) == " />" + rest;
  }

  lemma CName(name: string)
    requires ValidName(name)
    ensures CStr(name) == name
  {
    NameCStr(name);
  }

  lemma FullText(n: Node, depth: int, st: Style, rest: string)
    requires n.Element? && n.children != [] && ValidName(n.name)
    ensures var tail := Body(n, depth, st) + EndThen(n.name, "", rest);
            "<" + (n.name + (PrintAttributes(n.attributes) + ("" + (">" + tail)))) == Pretty(n, depth, st) + rest
  {
    hide PrintAttributes, CStr, ValidName, Body;
    assert CStr(n.name) == n.name by { CName(n.name); }
    var body, tag := Body(n, depth, st), "</" + n.name + ">";
    assert EndThen(n.name, "", rest) == tag + rest;
    assert Pretty(n, depth, st) == Head(n) + (body + tag);
    var start := "<" + n.name + PrintAttributes(n.attributes);
    assert Head(n) == start + ">";
    assert start + ">" + (body + tag) + rest == start + (">" + (body + (tag + rest)));
  }

  lemma {:induction false} ElementSpelled(n: Node, depth: int, st: Style, rest: string)
    requires Valid(n) && n.Element? && Blanks(st)
    ensures var item := Spelled(n, depth, st);
            Ok(item) && Tree(item) == n && ItemThen(item, rest) == Pretty(n, depth, st) + rest
    decreases n, 0
  {
    hide Encode, SpelledBody, Body, AttrsThen, AttrOk, ValidName, NoHexRef, PrintAttributes, ValidContent, Pretty,
      EndThen, SpelledAttributes;
    if n.children == [] {
      SpelledAttributesOk(n.attributes, " " + ("/>" + rest));
      EmptyText(n, depth, st, rest);
      assert Gap(" ") by { OneBlankGap(); }
    } else {
      var end := EndThen(n.name, "", rest);
      BodySpelled(n, depth, st, end);
      SpelledAttributesOk(n.attributes, "" + (">" + ContentThen(SpelledBody(n, depth, st), end)));
      FullText(n, depth, st, rest);
    }
  }

  lemma {:induction false} BodySpelled(n: Node, depth: int, st: Style, rest: string)
    requires n.Element? && n.children != [] && ValidContent(n.children) && Blanks(st)
    ensures var content := SpelledBody(n, depth, st);
            && ContentOk(content) && Nodes(content) == n.children
            && ContentThen(content, rest) == Body(n, depth, st) + rest
    decreases n.children, 2
  {
    if OneText(n.children) {
      var n0 := n.children[0];
      WordsAreEncoded(n0.value, "" + rest);
      assert "" + rest == rest;
      assert n.children == [n0];
    } else {
      LinesSpelled(n.children, depth, st, rest);
    }
  }

  lemma {:induction false} LinesSpelled(nodes: seq<Node>, depth: int, st: Style, rest: string)
    requires ValidContent(nodes) && Blanks(st)
    ensures var content := SpelledLines(nodes, depth, st);
            && ContentOk(content) && Nodes(content) == nodes
            && ContentThen(content, rest) == st.lineBreak + Lines(nodes, depth + 1, st) + Margin(depth, st) + rest
            && (content.Piece? <==> nodes != []) && (content.Piece? ==> (content.item.Words? <==> PlainText(nodes[0])))
    decreases nodes, 1
  {
    hide Valid, Ok, ItemThen, Tree, Pretty, Margin, Spelled, Gap;
    MarginGap(depth, st);
    MarginGap(depth + 1, st);
    if nodes == [] {
    } else {
      LinesSpelled(nodes[1..], depth, st, rest);
      var more := ContentThen(SpelledLines(nodes[1..], depth, st), rest);
      SpelledOk(nodes[0], depth + 1, st, more);
    }
  }

  /** In every style made of white space, the default one and stream mode among them, parsing
      what was printed gives the tree back. */
  lemma PrintedIsParsed(n: Node, depth: int, st: Style, rest: string)
    requires Valid(n) && n.Element? && Blanks(st)
    ensures ParseElement(Line(n, depth, st) + rest) == (n, At(st.lineBreak + rest))
  {
    hide ParseElement, Ok, ItemThen, Tree, Pretty, Margin, Spelled;
    var item, after := Spelled(n, depth, st), st.lineBreak + rest;
    SpelledOk(n, depth, st, after);
    MarginGap(depth, st);
    assert item.Empty? || item.Full? by { ElementItem(n, depth, st); }
    LayoutRead(item, after);
    GapBefore(Margin(depth, st), ItemThen(item, after));
    assert Line(n, depth, st) + rest == Margin(depth, st) + (Pretty(n, depth, st) + after);
  }

  lemma ElementItem(n: Node, depth: int, st: Style)
    requires n.Element?
    ensures Spelled(n, depth, st).Empty? || Spelled(n, depth, st).Full?
  {
  }

  // ---- stream mode ----

  lemma {:induction false} StreamMargin(depth: int)
    ensures Margin(depth, Style("", "")) == ""
    decreases depth
  {
    if depth > 0 { StreamMargin(depth - 1); }
  }

  lemma {:induction false} StreamLine(n: Node, depth: int)
    ensures Line(n, depth, Style("", "")) == Pretty(n, depth, Style("", "")) == Print(n)
    decreases n, 2
  {
    hide Head, Body;
    StreamMargin(depth);
    if n.Element? {
      if n.children != [] { StreamBody(n, depth); }
      ElementPrint(n);
    }
  }

  lemma ElementPrint(n: Node)
    requires n.Element?
    ensures Print(n) == Head(n) + if n.children == [] then "" else PrintAll(n.children) + "</" + CStr(n.name) + ">"
  {
    hide CStr, PrintAttributes, PrintAll;
  }

  lemma {:induction false} StreamBody(n: Node, depth: int)
    requires n.Element? && n.children != []
    ensures Body(n, depth, Style("", "")) == PrintAll(n.children)
    decreases n, 1
  {
    StreamMargin(depth);
    if OneText(n.children) {
      assert n.children[1..] == [];
    } else {
      StreamLines(n.children, depth + 1);
    }
  }

  lemma {:induction false} StreamLines(nodes: seq<Node>, depth: int)
    ensures Lines(nodes, depth, Style("", "")) == PrintAll(nodes)
    decreases nodes, 0
  {
    hide Line, Print;
    if nodes != [] {
      StreamLine(nodes[0], depth);
      StreamLines(nodes[1..], depth);
    }
  }

  /** Parsing the stream-mode text of an element gives the element back and stops exactly after
      the printed text, whatever follows it. */
  lemma ElementRoundTrip(n: Node, rest: string)
    requires n.Element? && Valid(n)
    ensures ParseElement(Print(n) + rest) == (n, At(rest))
  {
    hide ParseElement, Print, Line, Valid;
    PrintedIsParsed(n, 0, Style("", ""), rest);
    StreamLine(n, 0);
    assert "" + rest == rest;
  }

  /** Printing, in any style of white space, and parsing the printed text. */
  method PrintThenParse(e: Node, indent: string, lineBreak: string) returns (copy: Node, end: XmlScanner.Cursor)
    requires e.Element? && Valid(e) && Gap(indent) && Gap(lineBreak)
    ensures copy == e && end == XmlScanner.Cursor(|Pretty(e, 0, Style(indent, lineBreak))|)
  {
    hide Valid, ParseElement, Pretty;
    var printer := new Printer();
    printer.indent, printer.lineBreak := indent, lineBreak;
    printer.Accept(e);
    var text := printer.buffer;
    assert text[0..] == text && text + "" == text && lineBreak + "" == lineBreak;
    copy, end := XmlScanner.ParseElementAt(text, 0);
    PrintedIsParsed(e, 0, printer.Mode(), "");
  }

  // ---- appending ----

  lemma {:induction false} AttributesAppend(a: seq<Attribute>, b: seq<Attribute>)
    ensures PrintAttributes(a + b) == PrintAttributes(a) + PrintAttributes(b)
  {
    if a == [] {
      assert a + b == b;
    } else {
      assert (a + b)[1..] == a[1..] + b;
      AttributesAppend(a[1..], b);
    }
  }

  lemma NoAttributes()
    ensures PrintAttributes([]) == ""
  {
  }

  lemma AttributesSnoc(a: seq<Attribute>, i: nat)
    requires i < |a|
    ensures PrintAttributes(a[..i + 1]) == PrintAttributes(a[..i]) + " " + PrintAttribute(a[i])
  {
    assert a[..i + 1] == a[..i] + [a[i]];
    AttributesAppend(a[..i], [a[i]]);
  }

  lemma {:induction false} LinesAppend(a: seq<Node>, b: seq<Node>, depth: int, st: Style)
    ensures Lines(a + b, depth, st) == Lines(a, depth, st) + Lines(b, depth, st)
  {
    hide Line;
    if a == [] {
      assert a + b == b;
    } else {
      assert (a + b)[1..] == a[1..] + b;
      LinesAppend(a[1..], b, depth, st);
    }
  }

  lemma LinesSnoc(a: seq<Node>, depth: int, st: Style, i: nat)
    requires i < |a|
    ensures Lines(a[..i + 1], depth, st) == Lines(a[..i], depth, st) + Line(a[i], depth, st)
  {
    hide Line;
    assert a[..i + 1] == a[..i] + [a[i]];
    LinesAppend(a[..i], [a[i]], depth, st);
    assert [a[i]][1..] == [];
    assert Lines([a[i]], depth, st) == Line(a[i], depth, st);
  }
}
