/** Documents the printer makes alike: for them reading back is not the inverse of printing. */
module PrintLimits {
  import opened Bytes
  import opened XmlTree
  import opened Printer
  import opened ParserSpec
  import opened ReparseTree

  /** Whatever follows a text node among its siblings is not printed, so it is lost: such a document
      does not come back, although the one without the later siblings does. */
  lemma LaterSiblingsOfTextAreLost(name: Text, attrs: seq<Attr>, v: Text, rest: seq<Node>)
    requires rest != [] && PrintableDocument([Element(name, attrs, [TextNode(v)])])
    ensures var short, long := [Element(name, attrs, [TextNode(v)])], [Element(name, attrs, [TextNode(v)] + rest)];
            && PrintSiblings(long) == PrintSiblings(short)
            && Parse(PrintSiblings(long)) == Accepted(short) != Accepted(long)
  {
    hide Parse, PrintableDocument;
    var kids := [TextNode(v)] + rest;
    var short, long := Element(name, attrs, [TextNode(v)]), Element(name, attrs, kids);
    assert kids[0] == TextNode(v) && |kids| != |[TextNode(v)]|;
    assert PrintElement(long) == PrintElement(short);
    assert [long][1..] == [short][1..] == [];
    PrintThenParse([short]);
  }

  /** An empty attribute value is printed like none, and comes back as none. */
  lemma EmptyValueIsLost(name: Text, attr: Text, kids: seq<Node>)
    requires PrintableDocument([Element(name, [Attr(attr, None)], kids)])
    ensures var none, empty := [Element(name, [Attr(attr, None)], kids)], [Element(name, [Attr(attr, Some([]))], kids)];
            && PrintSiblings(empty) == PrintSiblings(none)
            && Parse(PrintSiblings(empty)) == Accepted(none) != Accepted(empty)
  {
    hide Parse, PrintableDocument;
    var none, empty := Element(name, [Attr(attr, None)], kids), Element(name, [Attr(attr, Some([]))], kids);
    assert [Attr(attr, None)][1..] == [Attr(attr, Some([]))][1..] == [];
    assert PrintAttr(Attr(attr, None)) == PrintAttr(Attr(attr, Some([])));
    assert PrintAttrList([Attr(attr, None)]) == PrintAttrList([Attr(attr, Some([]))]);
    assert PrintAttrs(empty.attrs) == PrintAttrs(none.attrs);
    assert PrintElement(empty) == PrintElement(none);
    assert [empty][1..] == [none][1..] == [];
    PrintThenParse([none]);
    assert none.attrs[0].value != empty.attrs[0].value;
  }
}
