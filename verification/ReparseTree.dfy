/** Printing a document and parsing the result gives the document back. */
module ReparseTree {
  import opened Bytes
  import opened Utf8
  import opened Escape
  import opened Names
  import opened XmlTree
  import opened Scanner
  import opened ParserSpec
  import opened ParserInvariant
  import opened Printer
  import opened RoundTrip
  import opened Reparse

  predicate SpacesBetween(s: Text, i: nat, j: nat) {
    i <= j && forall k :: i <= k < j ==> IsSpace(At(s, k))
  }

  /* ---- between tags ---- */

  lemma ContentAtTag(s: Text, p: State, j: nat)
    requires p.mode == CONTENT && SpacesBetween(s, p.cur, j) && AtTag(s, j) && !Matches(s, j, CDSTART)
    ensures NextNode(s, p) == Got(p.(save := p.cur, cur := j, mode := ELEMENT), Nothing, false)
  {
    SpacesEnd(s, p.cur, j);
    assert At(s, p.cur) != 0;
    hide CopyFrom, SkipComment, SkipPI, ContentEnd, NextToken;
  }

  /** White space before a tag is dropped. */
  lemma ToTag(s: Text, p: State, j: nat) returns (q: State)
    requires p.mode == CONTENT && SpacesBetween(s, p.cur, j) && AtTag(s, j) && !Matches(s, j, CDSTART)
    ensures GetsTo(s, p, q) && q == p.(save := p.cur, cur := j, mode := ELEMENT)
  {
    hide NextNode, Run, Invariant;
    ContentAtTag(s, p, j);
    q := p.(save := p.cur, cur := j, mode := ELEMENT);
    assert j < |s|;
    OneTurn(s, p, q);
  }

  /* ---- text ---- */

  lemma {:induction false} EscapedNotBlank(t: Text, k: nat) returns (j: nat)
    requires k < |t| && !IsSpace(t[k])
    ensures j < |Escaped(t)| && !IsSpace(Escaped(t)[j])
  {
    if k == 0 {
      j := 0;
    } else {
      j := EscapedNotBlank(t[1..], k - 1);
      j := |EscapeByte(t[0])| + j;
    }
  }

  lemma {:induction false} EscapedHasNoNul(t: Text, k: nat)
    requires 0 !in t && k < |Escaped(t)|
    ensures Escaped(t)[k] != 0
  {
    var first := EscapeByte(t[0]);
    assert t[0] in t;
    if k >= |first| {
      EscapedHasNoNul(t[1..], k - |first|);
    }
  }

  /** The scanner on printed text: it is not blank and ends where the text ends. */
  lemma TextScan(s: Text, i: nat, v: Text)
    requires GoodText(v) && Matches(s, i, Escaped(v)) && At(s, i + |Escaped(v)|) == LESS_THAN
    ensures v != [] && Escaped(v) != [] && At(s, i) != 0
    ensures var j := SkipSpaces(s, i);
            At(s, j) != 0 && At(s, j) != LESS_THAN
    ensures ContentEnd(s, i) == i + |Escaped(v)|
    ensures CopyFrom(s, i, i + |Escaped(v)|) == Copied(true, v)
  {
    hide Escaped, CopyFrom, Encoded, AllXml, Matches;
    var end := i + |Escaped(v)|;
    var cs: seq<int> :| AllXml(cs) && v == Encoded(cs);
    NoNul(cs);
    forall k | i <= k < end
      ensures At(s, k) != 0 && At(s, k) != LESS_THAN && At(s, k) != GREATER_THAN
    {
      EscapedHasNoNul(v, k - i);
      EscapedHasNoMarkup(v, k - i);
      MatchesAt(s, i, Escaped(v), k - i);
    }
    var b :| 0 <= b < |v| && !IsSpace(v[b]);
    var j := EscapedNotBlank(v, b);
    MatchesAt(s, i, Escaped(v), j);
    assert SkipSpaces(s, i) <= i + j;
    ContentStops(s, i, end);
    CopyInvertsWriting(s, i, cs, true);
  }

  lemma NoNul(cs: seq<int>)
    requires AllXml(cs)
    ensures 0 !in Encoded(cs)
  {
    forall k | 0 <= k < |Encoded(cs)| ensures Encoded(cs)[k] != 0 {
      EncodedByte(cs, k);
    }
  }

  lemma ContentStops(s: Text, i: nat, end: nat)
    requires i <= end && At(s, end) == LESS_THAN
    requires forall k :: i <= k < end ==> At(s, k) != 0 && At(s, k) != LESS_THAN && At(s, k) != GREATER_THAN
    ensures ContentEnd(s, i) == end
  {
    var e := ContentEnd(s, i);
    if Matches(s, e, CDEND) {
      MatchesAt(s, e, CDEND, 0);
      MatchesAt(s, e, CDEND, 1);
      MatchesAt(s, e, CDEND, 2);
    }
  }

  lemma TextResult(s: Text, p: State, e: nat, v: Text)
    requires p.mode == CONTENT && At(s, p.cur) != 0 && p.cur < e
    requires var j := SkipSpaces(s, p.cur);
             At(s, j) != 0 && At(s, j) != LESS_THAN
    requires ContentEnd(s, p.cur) == e && !Matches(s, e, CDEND) && CopyFrom(s, p.cur, e) == Copied(true, v)
    ensures NextNode(s, p) == Got(p.(save := p.cur, cur := e, tokenBuf := v), NewText(v), false)
  {
    hide SkipSpaces, ContentEnd, CopyFrom, Matches, SkipComment, SkipPI;
  }

  /** Printed text is read back in one turn. */
  lemma TextTurn(s: Text, p: State, v: Text) returns (q: State)
    requires p.cur <= |s| && p.mode == CONTENT && p.path != []
    requires GoodText(v) && Matches(s, p.cur, Escaped(v)) && At(s, p.cur + |Escaped(v)|) == LESS_THAN
    ensures GetsTo(s, p, q) && q.mode == CONTENT && q.cur == p.cur + |Escaped(v)|
    ensures q.stack == p.stack && q.top == p.top && q.hasTop == p.hasTop
    ensures q.path == [p.path[0].(kids := p.path[0].kids + [TextNode(v)])] + p.path[1..]
  {
    hide NextNode, Run, CopyFrom, Escaped, SkipSpaces, ContentEnd, Matches, GoodText, Invariant;
    var e := p.cur + |Escaped(v)|;
    TextScan(s, p.cur, v);
    NoCdEnd(s, e);
    TextResult(s, p, e, v);
    q := Turn(s, p).p;
    OneTurn(s, p, q);
  }

  lemma NoCdEnd(s: Text, i: nat)
    requires At(s, i) == LESS_THAN
    ensures !Matches(s, i, CDEND)
  {
    NotAt(s, i, CDEND, 0);
  }

  /* ---- end tags ---- */

  lemma EndTagLayout(s: Text, i: nat, name: Text)
    requires Matches(s, i, EndTag(name))
    ensures Matches(s, i, ENDTAG) && Matches(s, i + 2, name) && At(s, i + 2 + |name|) == GREATER_THAN
    ensures |EndTag(name)| == |name| + 3
  {
    Assoc(ENDTAG, name, [GREATER_THAN]);
    MatchesSplit(s, i, ENDTAG, name + [GREATER_THAN]);
    MatchesSplit(s, i + 2, name, [GREATER_THAN]);
    MatchesAt(s, i + 2 + |name|, [GREATER_THAN], 0);
  }

  lemma EndNode(s: Text, p: State, name: Text)
    requires p.mode == ELEMENT && At(s, p.cur) == LESS_THAN && name != []
    requires NextToken(s, p.cur, p.save) == Token(2, ENDTAG, p.cur + 2, p.save)
    requires NextToken(s, p.cur + 2, p.save) == Token(|name|, name, p.cur + 2 + |name|, p.save)
    requires At(s, p.cur + 2 + |name|) == GREATER_THAN
    requires NextToken(s, p.cur + 2 + |name|, p.save)
          == Token(1, [GREATER_THAN], p.cur + |name| + 3, p.save)
    ensures var r := NextNode(s, p);
            && r.Got? && r.node == NewElement(name) && r.etag && SameDocument(p, r.p)
            && r.p.cur == p.cur + |name| + 3
  {
    hide NextToken;
    SpacesEnd(s, p.cur, p.cur);
    SpacesEnd(s, p.cur + 2 + |name|, p.cur + 2 + |name|);
  }

  lemma EndBuild(s: Text, p: State, r: NodeResult, name: Text) returns (q: State)
    requires r == NextNode(s, p) && r.Got? && r.node == NewElement(name) && r.etag && SameDocument(p, r.p)
    requires p.stack != [] && p.stack[0] == name && p.path != [] && p.path[0].name == name
    ensures Turn(s, p) == Next(q) && EndElement(r.p, name) == Next(q)
  {
    hide NextNode, EndElement;
    q := EndElement(r.p, name).p by {
      EndGoesOn(r.p, name);
    }
    EndGoesOn(r.p, name);
  }

  lemma EndGoesOn(p: State, name: Text)
    requires p.stack != [] && p.stack[0] == name && p.path != [] && p.path[0].name == name
    ensures EndElement(p, name).Next?
  {
  }

  /** `q` is `p` with one more child in the current node, everything else about the document
      being the same. */
  predicate WithKids(p: State, q: State, kids: seq<Node>) {
    && q.stack == p.stack && q.hasTop
    && (if p.path == [] then q.path == [] && q.top == p.top + kids
        else q.top == p.top && q.path == [p.path[0].(kids := p.path[0].kids + kids)] + p.path[1..])
  }

  /** A printed end tag closes the open element. */
  lemma EndTurn(s: Text, p: State, outer: State, name: Text) returns (q: State)
    requires p.cur <= |s| && p.mode == ELEMENT && GoodName(name) && Matches(s, p.cur, EndTag(name))
    requires p.stack == [name] + outer.stack && p.hasTop && p.top == outer.top
    requires p.path != [] && p.path[0].name == name && p.path[1..] == outer.path
    ensures GetsTo(s, p, q) && WithKids(outer, q, [Closed(p.path[0])])
    ensures q.mode == CONTENT && q.cur == p.cur + |EndTag(name)|
  {
    hide NextToken, NextNode, Run, Turn, GoodName, Matches, EndTag, Invariant;
    var i := p.cur;
    EndTagLayout(s, i, name);
    MatchesAt(s, i, ENDTAG, 0);
    CloseToken(s, i, p.save);
    NameToken(s, i + 2, name, p.save);
    DelimiterToken(s, i + 2 + |name|, p.save);
    EndNode(s, p, name);
    q := EndBuild(s, p, NextNode(s, p), name);
    OneTurn(s, p, q);
    assert p.stack[1..] == outer.stack;
    assert |p.path| > 1 ==> p.path[1] == outer.path[0] && p.path[2..] == outer.path[1..];
  }

  /* ---- whole trees ---- */

  lemma ElementLayout(s: Text, i: nat, n: Node)
    requires n.Element? && Matches(s, i, PrintElement(n))
    ensures var j := i + |StartTag(n.name, n.attrs)|;
            var k := j + |LeadIn(n.kids)|;
            && Matches(s, i, StartTag(n.name, n.attrs)) && SpacesBetween(s, j, k)
            && Matches(s, k, PrintSiblings(n.kids))
            && Matches(s, k + |PrintSiblings(n.kids)|, EndTag(n.name))
            && i + |PrintElement(n)| == k + |PrintSiblings(n.kids)| + |EndTag(n.name)|
  {
    hide StartTag, EndTag, PrintSiblings, Matches, LeadIn;
    var start, lead, kids, end := StartTag(n.name, n.attrs), LeadIn(n.kids), PrintSiblings(n.kids), EndTag(n.name);
    assert PrintElement(n) == start + lead + kids + end;
    hide PrintElement;
    MatchesPieces(s, i, start, lead, kids, end);
    LeadInBlank(n.kids);
    var j := i + |start|;
    forall k | j <= k < j + |lead| ensures IsSpace(At(s, k)) {
      MatchesAt(s, j, lead, k - j);
    }
  }

  lemma LeadInBlank(kids: seq<Node>)
    ensures forall k :: 0 <= k < |LeadIn(kids)| ==> IsSpace(LeadIn(kids)[k])
  {
  }

  lemma SiblingsLayout(s: Text, i: nat, nodes: seq<Node>)
    requires nodes != [] && nodes[0].Element? && Matches(s, i, PrintSiblings(nodes))
    ensures var j := i + |PrintElement(nodes[0])|;
            var k := j + |Separator(nodes[1..])|;
            && Matches(s, i, PrintElement(nodes[0])) && SpacesBetween(s, j, k)
            && Matches(s, k, PrintSiblings(nodes[1..]))
            && i + |PrintSiblings(nodes)| == k + |PrintSiblings(nodes[1..])|
  {
    hide PrintElement, Matches;
    var first, sep, rest := PrintElement(nodes[0]), Separator(nodes[1..]), PrintSiblings(nodes[1..]);
    assert PrintSiblings(nodes) == first + sep + rest;
    hide PrintSiblings;
    assert first + sep + rest == first + sep + rest + [];
    MatchesPieces(s, i, first, sep, rest, []);
    if sep != [] {
      MatchesAt(s, i + |first|, sep, 0);
    }
  }

  /** Where a printed element starts there is a tag. */
  lemma ElementStarts(s: Text, i: nat, n: Node)
    requires n.Element? && GoodName(n.name) && Matches(s, i, PrintElement(n))
    ensures AtTag(s, i) && !Matches(s, i, CDSTART) && At(s, i + 1) != 0x21 && At(s, i + 1) != 0x3F
  {
    hide PrintAttrs, Matches, NextToken, GoodName, StartTag;
    ElementLayout(s, i, n);
    StartTagLayout(s, i, n.name, n.attrs);
    NameFirstByte(s, i + 1, n.name);
    OpenToken(s, i, n.name, 0);
  }

  /** A printed start tag with its attributes opens an element. */
  lemma OpenElement(s: Text, p: State, name: Text, attrs: seq<Attr>) returns (q: State)
    requires p.cur <= |s| && p.mode == ELEMENT && (p.stack == [] ==> !p.hasTop)
    requires GoodName(name) && GoodAttrs(attrs) && Matches(s, p.cur, StartTag(name, attrs))
    ensures GetsTo(s, p, q) && q.stack == [name] + p.stack && q.top == p.top && q.hasTop
    ensures q.path == [Frame(name, attrs, [])] + p.path
    ensures q.mode == CONTENT && q.cur == p.cur + |StartTag(name, attrs)|
  {
    hide Run, Matches, PrintAttrs, StartTag, GoodName, GoodValue, Invariant;
    StartTagLayout(s, p.cur, name, attrs);
    q := StartTurn(s, p, name, attrs);
    EmptyAttrs(attrs);
    if attrs != [] {
      assert attrs == q.path[0].attrs + attrs;
      q := AttrsRun(s, q, attrs, attrs);
    }
  }

  lemma WithAllKids(p: State, q: State, r: State, kids: seq<Node>)
    requires q.path != [] && q.path == [Frame(q.path[0].name, q.path[0].attrs, [])] + p.path
    requires WithKids(q, r, kids)
    ensures r.path != [] && r.path[1..] == p.path
    ensures Closed(r.path[0]) == Element(q.path[0].name, q.path[0].attrs, kids)
  {
    assert [] + kids == kids;
  }

  /** A printed element, from its start tag to the end of its end tag, adds its node. */
  lemma {:induction false} ParseElement(s: Text, p: State, n: Node) returns (q: State)
    requires p.cur <= |s| && p.mode == ELEMENT && (p.stack == [] ==> !p.hasTop)
    requires n.Element? && Printable([n]) && Matches(s, p.cur, PrintElement(n))
    ensures GetsTo(s, p, q) && WithKids(p, q, [n])
    ensures q.mode == CONTENT && q.cur == p.cur + |PrintElement(n)|
    decreases n, 1
  {
    hide Run, Matches, PrintElement, PrintSiblings, PrintAttrs, StartTag, EndTag, GoodName, GoodAttrs,
         AtTag, GoodText, Escaped, NextToken, Invariant;
    ElementLayout(s, p.cur, n);
    var open := OpenElement(s, p, n.name, n.attrs);
    var k := open.cur + |LeadIn(n.kids)|;
    var e := k + |PrintSiblings(n.kids)|;
    EndTagLayout(s, e, n.name);
    MatchesAt(s, e, ENDTAG, 0);
    CloseToken(s, e, 0);
    q := ParseSiblings(s, open, n.kids, k);
    WithAllKids(p, open, q, n.kids);
    q := ToTag(s, q, e);
    q := EndTurn(s, q, p, n.name);
  }

  lemma WithMoreKids(p: State, q: State, r: State, a: seq<Node>, b: seq<Node>)
    requires p.path != [] && WithKids(p, q, a) && WithKids(q, r, b)
    ensures WithKids(p, r, a + b)
  {
    assert p.path[0].kids + a + b == p.path[0].kids + (a + b);
  }

  /** Printed siblings, after white space unless text comes first, add their nodes. */
  lemma {:induction false} ParseSiblings(s: Text, p: State, nodes: seq<Node>, j: nat) returns (q: State)
    requires p.cur <= |s| && p.mode == CONTENT && p.path != [] && p.stack != [] && p.hasTop
    requires Printable(nodes) && Matches(s, j, PrintSiblings(nodes)) && SpacesBetween(s, p.cur, j)
    requires nodes != [] && nodes[0].TextNode? ==> p.cur == j
    requires At(s, j + |PrintSiblings(nodes)|) == LESS_THAN
    ensures GetsTo(s, p, q) && WithKids(p, q, nodes)
    ensures q.mode == CONTENT && SpacesBetween(s, q.cur, j + |PrintSiblings(nodes)|)
    decreases nodes, 0
  {
    hide Run, Matches, PrintElement, GoodName, GoodAttrs, GoodText, Escaped, Invariant;
    if nodes == [] {
      q := p;
      assert p.path[0].kids + [] == p.path[0].kids && [p.path[0]] + p.path[1..] == p.path;
    } else if nodes[0].TextNode? {
      q := TextTurn(s, p, nodes[0].value);
      assert nodes == [nodes[0]];
    } else {
      SiblingsLayout(s, j, nodes);
      ElementStarts(s, j, nodes[0]);
      q := ToTag(s, p, j);
      var after := ParseElement(s, q, nodes[0]);
      q := ParseSiblings(s, after, nodes[1..], after.cur + |Separator(nodes[1..])|);
      WithMoreKids(p, after, q, [nodes[0]], nodes[1..]);
      assert nodes == [nodes[0]] + nodes[1..];
    }
  }

  /* ---- whole documents ---- */

  lemma PrologIsEmpty(s: Text)
    requires AtTag(s, 0) && At(s, 1) != 0x21 && At(s, 1) != 0x3F
    ensures SkipProlog(s) == Skipped(true, 0)
  {
    SpacesEnd(s, 0, 0);
    TagStart(s, 0);
    NotAt(s, 0, XMLDECL, 1);
    NotAt(s, 0, BEGIN_DOCTYPE, 1);
    hide SkipMisc, Matches;
  }

  /** At the end of the input, but for white space, with nothing open the parser accepts. */
  lemma EndOfDocument(s: Text, p: State)
    requires p.cur <= |s| && p.mode == CONTENT && p.stack == [] && SpacesBetween(s, p.cur, |s|)
    ensures Run(s, p) == Accepted(p.top)
  {
    var q := p.(save := p.cur, cur := |s|);
    assert Turn(s, q) == Accepted(p.top);
    if p.cur < |s| {
      SpacesEnd(s, p.cur, |s|);
      assert ProcessContent(s, p) == Got(q, Nothing, false);
      hide ProcessContent;
      assert NextNode(s, p) == Got(q, Nothing, false);
      OneTurn(s, p, q);
    }
  }

  /** Print then parse, with the parser's state in front of the one element of the document. */
  lemma DocumentStarts(top: seq<Node>)
    requires top != [] && OneElement(top) && GoodName(top[0].name)
    ensures var s := PrintSiblings(top);
            SkipProlog(s) == Skipped(true, 0) && Matches(s, 0, PrintElement(top[0]))
            && |s| == |PrintElement(top[0])| + 1 && At(s, |PrintElement(top[0])|) == LINE_FEED
  {
    hide Run, PrintElement, GoodName, SkipProlog;
    var s := PrintSiblings(top);
    assert top == [top[0]];
    assert s[0..|s|] == s;
    SiblingsLayout(s, 0, top);
    ElementStarts(s, 0, top[0]);
    PrologIsEmpty(s);
    assert top[1..] == [];
    assert s == PrintElement(top[0]) + [LINE_FEED] + [];
  }

  lemma PlainThenParse(top: seq<Node>)
    requires Printable(top) && OneElement(top)
    ensures Parse(PrintSiblings(top)) == Accepted(top)
  {
    hide Run, PrintElement, GoodName, SkipProlog, Matches, Invariant;
    var s := PrintSiblings(top);
    if top == [] {
      assert SkipProlog([]) == Skipped(true, 0) by { EmptyProlog(); }
      EmptyRun();
    } else {
      assert top == [top[0]];
      DocumentStarts(top);
      var q := ParseElement(s, INITIAL, top[0]);
      assert [] + top == top;
      EndOfDocument(s, q);
    }
  }

  /** Print then parse is the identity on printable documents. */
  lemma PrintThenParse(top: seq<Node>)
    requires PrintableDocument(top)
    ensures Parse(PrintSiblings(top)) == Accepted(top)
  {
    hide Parse;
    PlainThenParse(top);
  }

  lemma EmptyProlog()
    ensures SkipProlog([]) == Skipped(true, 0)
  {
    SpacesEnd([], 0, 0);
    assert !MatchesNoCase([], 0, BEGIN_COMMENT) && !AtXmlDecl([], 0) && !MatchesNoCase([], 0, BEGIN_PI);
  }

  lemma EmptyRun()
    ensures Run([], INITIAL) == Accepted([])
  {
    assert NextNode([], INITIAL) == FileDone;
  }
}
