/** Where the printer puts new lines, told from the sequence of tags alone. */
module PrintLines {
  import opened Bytes
  import opened Escape
  import opened XmlTree
  import opened Printer

  const NEW_LINE: Text := [LINE_FEED]

  /** Tags, attributes and text written one after the other, looking one ahead: a start tag is followed by a
      new line when a start tag comes next, and an end tag unless text does. */
  function Written(ts: seq<Tag>): Text
    decreases |ts|, 0
  {
    if ts == [] then []
    else
      match ts[0]
      case Open(name) => [LESS_THAN] + name + Opened(ts[1..])
      case Attribute(a) =>
        [SPACE] + a.name + [EQUALS, QUOTE] + (if a.value.Some? then a.value.value else []) + [QUOTE] + Opened(ts[1..])
      case Chars(value) => Escaped(value) + Written(ts[1..])
      case Close(name) =>
        [LESS_THAN, SLASH] + name + [GREATER_THAN] + (if ts[1..] != [] && ts[1].Chars? then [] else NEW_LINE)
        + Written(ts[1..])
  }

  /** What follows the name of a start tag or one of its attributes. */
  function Opened(ts: seq<Tag>): Text
    decreases |ts|, 1
  {
    if ts != [] && ts[0].Attribute? then Written(ts)
    else [GREATER_THAN] + (if ts != [] && ts[0].Open? then NEW_LINE else []) + Written(ts)
  }

  /** Text stands only last among its siblings. */
  predicate TextLast(nodes: seq<Node>) {
    nodes != [] ==>
      match nodes[0]
      case TextNode(_) => |nodes| == 1
      case Element(_, _, kids) => TextLast(kids) && TextLast(nodes[1..])
  }

  /** Attributes, and the end of the start tag. */
  lemma {:induction false} AttributesWritten(attrs: seq<Attr>, more: seq<Tag>)
    requires more != [] ==> !more[0].Attribute?
    ensures Opened(AttrTags(attrs) + more)
         == PrintAttrs(attrs)
            + ([GREATER_THAN] + (if more != [] && more[0].Open? then NEW_LINE else []) + Written(more))
    decreases |attrs|
  {
    hide Written;
    if attrs == [] {
      assert AttrTags(attrs) + more == more;
    } else {
      var rest := AttrTags(attrs[1..]) + more;
      assert AttrTags(attrs) + more == [Attribute(attrs[0])] + rest;
      OneAttribute(attrs[0], rest);
      AttributesWritten(attrs[1..], more);
      AttrsStep(attrs);
      Assoc([SPACE] + PrintAttr(attrs[0]), PrintAttrs(attrs[1..]),
            [GREATER_THAN] + (if more != [] && more[0].Open? then NEW_LINE else []) + Written(more));
    }
  }

  lemma OneAttribute(a: Attr, rest: seq<Tag>)
    ensures Opened([Attribute(a)] + rest) == [SPACE] + PrintAttr(a) + Opened(rest)
  {
    assert ([Attribute(a)] + rest)[1..] == rest;
  }

  lemma AttrsStep(attrs: seq<Attr>)
    requires attrs != []
    ensures PrintAttrs(attrs) == [SPACE] + PrintAttr(attrs[0]) + PrintAttrs(attrs[1..])
  {
    Assoc([SPACE], PrintAttr(attrs[0]), PrintAttrs(attrs[1..]));
  }

  lemma OpenWritten(name: Text, rest: seq<Tag>)
    ensures Written([Open(name)] + rest) == [LESS_THAN] + name + Opened(rest)
  {
    assert ([Open(name)] + rest)[1..] == rest;
  }

  lemma CloseWritten(name: Text, rest: seq<Tag>)
    ensures Written([Close(name)] + rest)
         == EndTag(name) + ((if rest != [] && rest[0].Chars? then [] else NEW_LINE) + Written(rest))
  {
    assert ([Close(name)] + rest)[1..] == rest;
  }

  lemma CharsWritten(value: Text, rest: seq<Tag>)
    ensures Written([Chars(value)] + rest) == Escaped(value) + Written(rest)
  {
    assert ([Chars(value)] + rest)[1..] == rest;
  }

  /** The tags of an element, one part after the other. */
  lemma ElementTags(n: Node, rest: seq<Tag>)
    requires n.Element?
    ensures TagsOf(n) + rest == [Open(n.name)] + (AttrTags(n.attrs) + (Tags(n.kids) + ([Close(n.name)] + rest)))
  {
  }

  /** What comes first in the tags of some siblings in front of an end tag or of nothing. */
  lemma FirstTag(nodes: seq<Node>, rest: seq<Tag>)
    requires rest == [] || rest[0].Close?
    ensures var ts := Tags(nodes) + rest;
            if nodes == [] then ts == rest
            else ts != [] && (ts[0].Open? <==> nodes[0].Element?) && (ts[0].Chars? <==> nodes[0].TextNode?)
                 && !ts[0].Attribute?
  {
    if nodes != [] {
      assert Tags(nodes) == TagsOf(nodes[0]) + Tags(nodes[1..]);
      match nodes[0]
      case Element(name, _, _) => assert TagsOf(nodes[0])[0] == Open(name);
      case TextNode(v) => assert TagsOf(nodes[0])[0] == Chars(v);
    }
  }

  lemma {:induction false} ElementWritten(n: Node, rest: seq<Tag>)
    requires n.Element? && TextLast(n.kids)
    ensures Written(TagsOf(n) + rest)
         == PrintElement(n) + ((if rest != [] && rest[0].Chars? then [] else NEW_LINE) + Written(rest))
    decreases n, 1
  {
    hide Written, Opened, Tags, TagsOf, AttrTags, PrintSiblings, PrintAttrs, EndTag;
    var end := [Close(n.name)] + rest;
    var more := Tags(n.kids) + end;
    ElementTags(n, rest);
    OpenWritten(n.name, AttrTags(n.attrs) + more);
    FirstTag(n.kids, end);
    AttributesWritten(n.attrs, more);
    SiblingsWritten(n.kids, end);
    CloseWritten(n.name, rest);
    Together([LESS_THAN], n.name, PrintAttrs(n.attrs), [GREATER_THAN], LeadIn(n.kids), PrintSiblings(n.kids),
             EndTag(n.name), (if rest != [] && rest[0].Chars? then [] else NEW_LINE) + Written(rest));
  }

  lemma Together(a: Text, b: Text, c: Text, d: Text, e: Text, f: Text, g: Text, h: Text)
    ensures (a + b) + (c + (d + e + (f + (g + h)))) == (a + b + (c + d) + e + f + g) + h
  {
  }

  /** The printed form of siblings is what their tags say, new lines and all. */
  lemma {:induction false} SiblingsWritten(nodes: seq<Node>, rest: seq<Tag>)
    requires TextLast(nodes) && (rest == [] || rest[0].Close?)
    ensures Written(Tags(nodes) + rest) == PrintSiblings(nodes) + Written(rest)
    decreases nodes, 0
  {
    hide Written, Opened, TagsOf, PrintElement;
    if nodes == [] {
      assert Tags(nodes) + rest == rest;
    } else if nodes[0].TextNode? {
      OneTag(nodes[0]);
      assert nodes == [nodes[0]];
      CharsWritten(nodes[0].value, rest);
    } else {
      var after := Tags(nodes[1..]) + rest;
      assert Tags(nodes) + rest == TagsOf(nodes[0]) + after;
      ElementWritten(nodes[0], after);
      FirstTag(nodes[1..], rest);
      SiblingsWritten(nodes[1..], rest);
      assert Separator(nodes[1..]) == if after != [] && after[0].Chars? then [] else NEW_LINE;
      Assoc(PrintElement(nodes[0]), Separator(nodes[1..]), PrintSiblings(nodes[1..]) + Written(rest));
    }
  }

  lemma OneTag(n: Node)
    requires n.TextNode?
    ensures Tags([n]) == [Chars(n.value)]
  {
    assert [n][1..] == [];
  }

  /** A document in which text stands last is printed as its tags, attributes and text in order, with a new line
      after a start tag that another follows and after an end tag that no text follows, and nowhere else. */
  lemma PrintedAsTags(top: seq<Node>)
    requires TextLast(top)
    ensures PrintSiblings(top) == Written(Tags(top))
  {
    SiblingsWritten(top, []);
    assert Tags(top) + [] == Tags(top);
    hide Tags, PrintSiblings;
  }
}
