/** Documents: elements with attributes and children, and text. */
module XmlTree {
  import opened Bytes

  datatype Option<+T> = None | Some(value: T)

  datatype Attr = Attr(name: Text, value: Option<Text>)

  datatype Node =
    | Element(name: Text, attrs: seq<Attr>, kids: seq<Node>)
    | TextNode(value: Text)

  /** A piece of a document: a start or end tag, an attribute, or text. */
  datatype Tag = Open(name: Text) | Close(name: Text) | Attribute(attr: Attr) | Chars(value: Text)

  function AttrTags(attrs: seq<Attr>): seq<Tag> {
    if attrs == [] then [] else [Attribute(attrs[0])] + AttrTags(attrs[1..])
  }

  /** The tags of a tree with attributes and text, in document order. */
  function Tags(nodes: seq<Node>): seq<Tag> {
    if nodes == [] then []
    else TagsOf(nodes[0]) + Tags(nodes[1..])
  }

  function TagsOf(n: Node): seq<Tag> {
    match n
    case Element(name, attrs, kids) => [Open(name)] + AttrTags(attrs) + Tags(kids) + [Close(name)]
    case TextNode(value) => [Chars(value)]
  }

  lemma {:induction false} TagsConcat(a: seq<Node>, b: seq<Node>)
    ensures Tags(a + b) == Tags(a) + Tags(b)
  {
    if a == [] {
      assert a + b == b;
    } else {
      assert (a + b)[1..] == a[1..] + b;
      TagsConcat(a[1..], b);
    }
  }

  lemma {:induction false} AttrTagsSnoc(attrs: seq<Attr>, a: Attr)
    ensures AttrTags(attrs + [a]) == AttrTags(attrs) + [Attribute(a)]
  {
    if attrs == [] {
      assert attrs + [a] == [a] && [a][1..] == [];
    } else {
      assert (attrs + [a])[1..] == attrs[1..] + [a];
      AttrTagsSnoc(attrs[1..], a);
    }
  }
}
