/** The document printer, and the documents whose printed form can be read back. */
module Printer {
  import opened Bytes
  import opened Utf8
  import opened Escape
  import opened Names
  import opened XmlTree

  const COLON: Byte := 0x3A
  const XMLNS: Text := [0x78, 0x6D, 0x6C, 0x6E, 0x73]

  /* ---- what is printed ---- */

  function PrintAttr(a: Attr): Text {
    a.name + [EQUALS, QUOTE] + (if a.value.Some? then a.value.value else []) + [QUOTE]
  }

  /** An attribute and its later siblings. */
  function PrintAttrList(attrs: seq<Attr>): Text
    requires attrs != []
    decreases attrs, 0
  {
    PrintAttr(attrs[0]) + PrintAttrs(attrs[1..])
  }

  /** The attributes of an element, each after a space. */
  function PrintAttrs(attrs: seq<Attr>): Text
    decreases attrs, 1
  {
    if attrs == [] then [] else [SPACE] + PrintAttrList(attrs)
  }

  function StartTag(name: Text, attrs: seq<Attr>): Text {
    [LESS_THAN] + name + (PrintAttrs(attrs) + [GREATER_THAN])
  }

  function EndTag(name: Text): Text {
    [LESS_THAN, SLASH] + name + [GREATER_THAN]
  }

  /** The new line before children that start with an element. */
  function LeadIn(kids: seq<Node>): Text {
    if kids != [] && kids[0].Element? then [LINE_FEED] else []
  }

  /** The new line after an element that no text follows. */
  function Separator(rest: seq<Node>): Text {
    if rest != [] && rest[0].TextNode? then [] else [LINE_FEED]
  }

  function PrintElement(n: Node): Text
    requires n.Element?
    decreases n, 1
  {
    StartTag(n.name, n.attrs) + LeadIn(n.kids) + PrintSiblings(n.kids) + EndTag(n.name)
  }

  /** A node and its later siblings; what follows a text node is not printed. */
  function PrintSiblings(nodes: seq<Node>): Text
    decreases nodes, 0
  {
    if nodes == [] then []
    else if nodes[0].TextNode? then Escaped(nodes[0].value)
    else PrintElement(nodes[0]) + Separator(nodes[1..]) + PrintSiblings(nodes[1..])
  }

  /* ---- printing into a buffer ---- */

  lemma Regroup(a: Text, b: Text, c: Text, d: Text, e: Text, f: Text)
    ensures a + b + c + (d + e) + f == a + (b + c + d + e + f)
  {
  }

  /** Start tag, children, end tag and later siblings, in this order, are an element's printout. */
  lemma ElementPrinted(before: Text, nodes: seq<Node>)
    requires nodes != [] && nodes[0].Element?
    ensures before + (StartTag(nodes[0].name, nodes[0].attrs) + LeadIn(nodes[0].kids))
            + PrintSiblings(nodes[0].kids)
            + (EndTag(nodes[0].name) + Separator(nodes[1..])) + PrintSiblings(nodes[1..])
         == before + PrintSiblings(nodes)
  {
    hide StartTag, EndTag, LeadIn, Separator;
    var n := nodes[0];
    Regroup(before, StartTag(n.name, n.attrs) + LeadIn(n.kids), PrintSiblings(n.kids),
            EndTag(n.name), Separator(nodes[1..]), PrintSiblings(nodes[1..]));
  }

  /** The attribute case of the recursive printer. */
  method PrintAttributeNodes(attrs: seq<Attr>, buf: MemBuf)
    requires attrs != []
    modifies buf
    ensures buf.data == old(buf.data) + PrintAttrList(attrs)
    decreases |attrs|
  {
    var a := attrs[0];
    buf.Append(a.name);
    buf.Append([EQUALS, QUOTE]);
    if a.value.Some? {
      buf.Append(a.value.value);
    }
    buf.Append([QUOTE]);
    assert buf.data == old(buf.data) + PrintAttr(a);
    hide PrintAttr;
    if |attrs| > 1 {
      buf.Append([SPACE]);
      PrintAttributeNodes(attrs[1..], buf);
      Assoc(old(buf.data) + PrintAttr(a), [SPACE], PrintAttrList(attrs[1..]));
      Assoc(old(buf.data), PrintAttr(a), PrintAttrs(attrs[1..]));
    }
  }

  /** The recursive printer on a node and its later siblings. */
  method PrintDomTreeRecursive(nodes: seq<Node>, buf: MemBuf)
    modifies buf
    ensures buf.data == old(buf.data) + PrintSiblings(nodes)
    decreases nodes
  {
    if nodes != [] {
      match nodes[0]
      case TextNode(value) =>
        CopyWithEscape(buf, value);
      case Element(name, attrs, kids) =>
        hide *;
        PrintStartTag(name, attrs, kids, buf);
        PrintDomTreeRecursive(kids, buf);
        PrintEndTag(name, nodes[1..], buf);
        PrintDomTreeRecursive(nodes[1..], buf);
        ElementPrinted(old(buf.data), nodes);
    }
  }

  method PrintStartTag(name: Text, attrs: seq<Attr>, kids: seq<Node>, buf: MemBuf)
    modifies buf
    ensures buf.data == old(buf.data) + (StartTag(name, attrs) + LeadIn(kids))
  {
    PrintOpening(name, attrs, buf);
    if kids != [] && kids[0].Element? {
      buf.Append([GREATER_THAN, LINE_FEED]);
    } else {
      buf.Append([GREATER_THAN]);
    }
    StartTagPieces(old(buf.data), name, attrs, kids);
  }

  lemma StartTagPieces(before: Text, name: Text, attrs: seq<Attr>, kids: seq<Node>)
    ensures before + ([LESS_THAN] + name + PrintAttrs(attrs)) + ([GREATER_THAN] + LeadIn(kids))
         == before + (StartTag(name, attrs) + LeadIn(kids))
    ensures [GREATER_THAN] + LeadIn(kids)
         == if kids != [] && kids[0].Element? then [GREATER_THAN, LINE_FEED] else [GREATER_THAN]
  {
    hide PrintAttrs;
    var gt: Text := [GREATER_THAN];
    Assoc(before, [LESS_THAN] + name + PrintAttrs(attrs), gt + LeadIn(kids));
    Assoc([LESS_THAN] + name, PrintAttrs(attrs), gt + LeadIn(kids));
    Assoc([LESS_THAN] + name, PrintAttrs(attrs) + gt, LeadIn(kids));
    Assoc(PrintAttrs(attrs), gt, LeadIn(kids));
  }

  /** A start tag up to, but without, its `>`. */
  method PrintOpening(name: Text, attrs: seq<Attr>, buf: MemBuf)
    modifies buf
    ensures buf.data == old(buf.data) + ([LESS_THAN] + name + PrintAttrs(attrs))
  {
    buf.Append([LESS_THAN]);
    buf.Append(name);
    if attrs != [] {
      buf.Append([SPACE]);
      PrintAttributeNodes(attrs, buf);
    }
  }

  method PrintEndTag(name: Text, rest: seq<Node>, buf: MemBuf)
    modifies buf
    ensures buf.data == old(buf.data) + (EndTag(name) + Separator(rest))
  {
    buf.Append([LESS_THAN, SLASH]);
    buf.Append(name);
    if rest != [] && rest[0].TextNode? {
      buf.Append([GREATER_THAN]);
    } else {
      buf.Append([GREATER_THAN, LINE_FEED]);
    }
  }

  /* ---- documents that survive a round trip ---- */

  /** A name, for which a colon is a letter like others. */
  predicate IsName(t: Text, cs: seq<int>) {
    && t == Encoded(cs) && |cs| > 0 && IsNameChar(cs[0], false)
    && (forall k :: 0 <= k < |cs| ==> IsNameChar(cs[k], true))
  }

  ghost predicate GoodName(t: Text) {
    exists cs: seq<int> :: IsName(t, cs)
  }

  /** Legal characters; not blank, for blank text is dropped by the parser. */
  ghost predicate GoodText(t: Text) {
    && (exists cs: seq<int> :: AllXml(cs) && t == Encoded(cs))
    && exists k :: 0 <= k < |t| && !IsSpace(t[k])
  }

  /** Attribute values are printed raw, and an empty one is read back as no value. */
  ghost predicate GoodValue(v: Option<Text>) {
    v.Some? ==> v.value != [] && exists cs: seq<int> :: IsValue(v.value, cs)
  }

  predicate IsValue(t: Text, cs: seq<int>) {
    t == Encoded(cs) && AllXml(cs)
    && QUOTE as int !in cs && LESS_THAN as int !in cs && AMPERSAND as int !in cs
  }

  ghost predicate GoodAttrs(attrs: seq<Attr>) {
    && (forall k :: 0 <= k < |attrs| ==>
          GoodName(attrs[k].name) && GoodValue(attrs[k].value))
    && (forall j, k :: 0 <= j < k < |attrs| ==> attrs[j].name != attrs[k].name)
  }

  /** Children of an element: text only as the last one. */
  ghost predicate Printable(nodes: seq<Node>) {
    nodes != [] ==>
      match nodes[0]
      case TextNode(value) => |nodes| == 1 && GoodText(value)
      case Element(name, attrs, kids) =>
        GoodName(name) && GoodAttrs(attrs) && Printable(kids) && Printable(nodes[1..])
  }

  /** A document: at most one top-level node, an element. */
  ghost predicate OneElement(top: seq<Node>) {
    top != [] ==> |top| == 1 && top[0].Element?
  }

  /** No name has a prefix and no attribute defines one. */
  predicate Unprefixed(nodes: seq<Node>) {
    nodes != [] ==>
      match nodes[0]
      case TextNode(_) => Unprefixed(nodes[1..])
      case Element(name, attrs, kids) =>
        && COLON !in name && (forall k :: 0 <= k < |attrs| ==> COLON !in attrs[k].name && attrs[k].name != XMLNS)
        && Unprefixed(kids) && Unprefixed(nodes[1..])
  }

  /** The documents that come back; namespaces are not part of this. */
  ghost predicate PrintableDocument(top: seq<Node>) {
    Printable(top) && OneElement(top) && Unprefixed(top)
  }
}
