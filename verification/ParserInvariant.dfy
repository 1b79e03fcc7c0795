/** What every turn of the parse loop keeps: the element stack mirrors the path to the current
    node, and the tags, attributes and text read so far are those of the tree built so far. */
module ParserInvariant {
  import opened Bytes
  import opened Escape
  import opened XmlTree
  import opened Scanner
  import opened ParserSpec

  /** The stack, top first, is the node names from the current node up to the document. */
  predicate StackMirrorsPath(p: State) {
    |p.stack| == |p.path| && forall k :: 0 <= k < |p.stack| ==> p.stack[k] == p.path[k].name
  }

  predicate OneRoot(p: State) {
    p.hasTop == (p.path != [] || p.top != []) && |p.top| + (if p.path == [] then 0 else 1) <= 1
  }

  /** A start or end tag, not a comment or an instruction, begins at i. */
  predicate AtTag(s: Text, i: nat) {
    At(s, i) == LESS_THAN && !Matches(s, i, BEGIN_COMMENT) && !Matches(s, i, BEGIN_PI)
  }

  /** Outside CONTENT the last start tag read is the one on top of the stack, unless a new tag
      is about to be read. */
  predicate LastElemIsOpen(s: Text, p: State) {
    p.mode != CONTENT ==>
      || (p.stack != [] && p.lastElem == Some(p.stack[0]))
      || (p.stack == [] && p.lastElem == None && p.mode == ELEMENT)
      || (p.mode == ELEMENT && AtTag(s, p.cur))
  }

  /** An element gets attributes only before its first child. */
  predicate AttributesFirst(p: State) {
    p.mode == ATTRIBUTE ==> p.path != [] && p.path[0].kids == []
  }

  predicate Invariant(s: Text, p: State) {
    StackMirrorsPath(p) && OneRoot(p) && LastElemIsOpen(s, p) && AttributesFirst(p)
  }

  lemma InitialInvariant(s: Text, cur: nat)
    ensures Invariant(s, INITIAL.(cur := cur))
  {
  }

  /* ---- a tag about to be read is the next token ---- */

  lemma {:induction false} NoLettersNoCase(s: Text, i: nat, t: Text)
    requires 0 !in t && forall b :: b in t ==> b < 0x61
    ensures t != [] && MatchesNoCase(s, i, t) ==> Matches(s, i, t)
    decreases |t|
  {
    if t != [] && MatchesNoCase(s, i, t) {
      MatchesNoCaseBound(s, i, t);
      assert t[0] in t && forall b :: b in t[1..] ==> b in t;
      NoLettersNoCase(s, i + 1, t[1..]);
      assert s[i..i + |t|] == [s[i]] + s[i + 1..i + |t|];
      assert t == [t[0]] + t[1..];
    }
  }

  lemma {:induction false} NoCasePrefix(s: Text, i: nat, a: Text, b: Text)
    requires MatchesNoCase(s, i, a + b)
    ensures MatchesNoCase(s, i, a)
    decreases |a|
  {
    if a != [] {
      assert (a + b)[1..] == a[1..] + b;
      NoCasePrefix(s, i + 1, a[1..], b);
    }
  }

  lemma NotAtDecl(s: Text, i: nat)
    requires AtTag(s, i)
    ensures !MatchesNoCase(s, i, BEGIN_COMMENT) && !AtXmlDecl(s, i) && !MatchesNoCase(s, i, BEGIN_PI)
  {
    hide MatchesNoCase;
    NoLettersNoCase(s, i, BEGIN_COMMENT);
    NoLettersNoCase(s, i, BEGIN_PI);
    assert XMLDECL == BEGIN_PI + XMLDECL[2..] && XMLDECL2 == BEGIN_PI + XMLDECL2[2..];
    if MatchesNoCase(s, i, XMLDECL) {
      NoCasePrefix(s, i, BEGIN_PI, XMLDECL[2..]);
    }
    if MatchesNoCase(s, i, XMLDECL2) {
      NoCasePrefix(s, i, BEGIN_PI, XMLDECL2[2..]);
    }
  }

  lemma TagIsNextToken(s: Text, i: nat, save: nat)
    requires AtTag(s, i)
    ensures var t := NextToken(s, i, save);
            (t.text == [] || t.text[0] == LESS_THAN) && (t.len == 0 ==> t.cur == i)
  {
    NotAtDecl(s, i);
    assert SkipMisc(s, i) == Skipped(true, i);
    if TokenLength(s, i) > 0 {
      assert GetChar(s, i).c == LESS_THAN as int && GetChar(s, i).len == 1;
      CopyStarts(s, i, i + TokenLength(s, i));
    }
  }

  /* ---- the invariant over one turn ---- */

  /** A complete tag `/>` always names the element that is open. */
  lemma CompleteTagMatches(s: Text, p: State)
    requires Invariant(s, p) && p.mode != CONTENT
    requires NextToken(s, SkipSpaces(s, p.cur), p.save).text == COMPLETETAG
    ensures p.stack == [] <==> p.lastElem == None
    ensures p.stack != [] ==> p.lastElem == Some(p.stack[0])
  {
    if AtTag(s, p.cur) {
      assert SkipSpaces(s, p.cur) == p.cur;
      TagIsNextToken(s, p.cur, p.save);
    }
  }

  /** The scanner leaves the document and the element stack alone. */
  predicate SameDocument(p: State, q: State) {
    q.stack == p.stack && q.path == p.path && q.top == p.top && q.hasTop == p.hasTop
  }

  lemma ContentKeeps(s: Text, p: State)
    requires p.mode == CONTENT && ProcessContent(s, p).Got?
    ensures var r := ProcessContent(s, p);
            && SameDocument(p, r.p) && !r.etag && !r.node.NewElement? && !r.node.NewAttr? && r.p.mode != ATTRIBUTE
            && LastElemIsOpen(s, r.p)
  {
    hide CopyFrom, SkipComment, SkipPI, ContentEnd;
  }

  lemma TagsKeep(s: Text, p: State)
    ensures var r := ProcessETag(s, p);
            r.Got? ==> SameDocument(p, r.p) && r.etag && r.node.NewElement? && r.p.mode == p.mode
    ensures var r := ProcessSTag(s, p);
            r.Got? ==> SameDocument(p, r.p) && !r.etag && r.node.NewElement? && r.p.lastElem == Some(r.node.name)
  {
    hide NextToken;
  }

  lemma AttributeKeeps(s: Text, p: State)
    requires p.tokenBuf != [] && ProcessAttribute(s, p).Got?
    ensures var r := ProcessAttribute(s, p);
            SameDocument(p, r.p) && !r.etag && r.node.NewAttr?
            && (r.p.mode == CONTENT || (r.p.mode == p.mode && r.p.lastElem == p.lastElem))
  {
    hide NextToken, CopyFrom, EndQuote, ValueAllowed;
  }

  lemma NextNodeKeeps(s: Text, p: State)
    requires Invariant(s, p) && NextNode(s, p).Got?
    ensures var r := NextNode(s, p);
            && SameDocument(p, r.p)
            && (r.etag ==> r.node.NewElement?)
            && (r.node.NewElement? && !r.etag ==> r.p.lastElem == Some(r.node.name))
            && (!r.node.NewElement? ==> LastElemIsOpen(s, r.p))
            && (r.node.NewAttr? ==> p.mode == ATTRIBUTE)
            && (r.p.mode == ATTRIBUTE && !(r.node.NewElement? && !r.etag) ==> p.mode == ATTRIBUTE && !r.node.NewText?)
  {
    hide NextToken, ProcessContent, ProcessETag, ProcessSTag, ProcessAttribute, StackMirrorsPath, OneRoot,
         AttributesFirst, Matches;
    if p.mode == CONTENT {
      ContentKeeps(s, p);
    } else {
      var t := NextToken(s, SkipSpaces(s, p.cur), p.save);
      var q := Took(p, t);
      if AtTag(s, p.cur) {
        TagIsNextToken(s, p.cur, p.save);
      }
      TagsKeep(s, q);
      if t.text != [] && ProcessAttribute(s, q).Got? {
        AttributeKeeps(s, q);
      }
    }
  }

  lemma EndKeeps(p: State, name: Text)
    requires StackMirrorsPath(p) && OneRoot(p) && EndElement(p, name).Next?
    ensures var q := EndElement(p, name).p;
            StackMirrorsPath(q) && OneRoot(q) && q.cur == p.cur && q.lastElem == p.lastElem && q.mode == CONTENT
  {
  }

  lemma BuildKeeps(r: NodeResult)
    requires r.Got? && StackMirrorsPath(r.p) && OneRoot(r.p) && Build(r).Next?
    ensures var q := Build(r).p;
            && StackMirrorsPath(q) && OneRoot(q)
            && q.cur == r.p.cur && q.lastElem == r.p.lastElem
            && (if r.etag then q.mode == CONTENT
                else q.mode == r.p.mode
                     && q.stack == (if r.node.NewElement? then [r.node.name] else []) + r.p.stack
                     && (r.node.NewElement? ==> q.path != [] && q.path[0].kids == [])
                     && (r.node.Nothing? || r.node.NewAttr? ==>
                           |q.path| == |r.p.path| && (q.path != [] ==> q.path[0].kids == r.p.path[0].kids)))
  {
    hide EndElement;
    if r.etag {
      EndKeeps(r.p, r.node.name);
    }
  }

  /** One turn keeps the invariant, whatever the input. */
  lemma TurnKeepsInvariant(s: Text, p: State)
    requires Invariant(s, p) && Turn(s, p).Next?
    ensures Invariant(s, Turn(s, p).p)
  {
    hide NextNode, Build;
    NextNodeKeeps(s, p);
    BuildKeeps(NextNode(s, p));
  }

  /* ---- what is read is the tree ---- */

  /** The tag, attribute or text a turn reads. */
  function TagRead(r: NodeResult): seq<Tag> {
    if !r.Got? then []
    else
      match r.node
      case Nothing => []
      case NewElement(name) => [if r.etag then Close(name) else Open(name)]
      case NewText(value) => [Chars(value)]
      case NewAttr(a) => [Attribute(a)]
  }

  /** All that is read from a state to the end of the run. */
  function TagsRead(s: Text, p: State): seq<Tag>
    requires p.cur <= |s|
    decreases Measure(s, p)
  {
    var r := Turn(s, p);
    TagRead(NextNode(s, p)) + if r.Next? then TurnDecreases(s, p); TagsRead(s, r.p) else []
  }

  /** The pieces of the tree built so far, the open elements' end tags still missing. */
  function OpenTags(path: seq<Frame>): seq<Tag> {
    if path == [] then []
    else OpenTags(path[1..]) + [Open(path[0].name)] + AttrTags(path[0].attrs) + Tags(path[0].kids)
  }

  function TagsSoFar(p: State): seq<Tag> {
    Tags(p.top) + OpenTags(p.path)
  }

  lemma TagsSnoc(kids: seq<Node>, n: Node)
    ensures Tags(kids + [n]) == Tags(kids) + TagsOf(n)
  {
    TagsConcat(kids, [n]);
    assert Tags([n]) == TagsOf(n) + Tags([]);
  }

  lemma ClosedTags(f: Frame)
    ensures TagsOf(Closed(f)) == [Open(f.name)] + AttrTags(f.attrs) + Tags(f.kids) + [Close(f.name)]
  {
  }

  lemma OpenTagsUnfold(f: Frame, path: seq<Frame>)
    ensures OpenTags([f] + path) == OpenTags(path) + [Open(f.name)] + AttrTags(f.attrs) + Tags(f.kids)
  {
    assert ([f] + path)[1..] == path;
  }

  lemma EndElementTags(p: State, name: Text)
    requires StackMirrorsPath(p) && OneRoot(p) && EndElement(p, name).Next?
    ensures TagsSoFar(EndElement(p, name).p) == TagsSoFar(p) + [Close(name)]
  {
    hide Tags, TagsOf, OpenTags;
    var q := EndElement(p, name).p;
    var f := p.path[0];
    var done := Closed(f);
    ClosedTags(f);
    assert p.path == [f] + p.path[1..];
    OpenTagsUnfold(f, p.path[1..]);
    if |p.path| == 1 {
      TagsSnoc(p.top, done);
      NoOpenTags();
    } else {
      var g := p.path[1];
      assert p.path[1..] == [g] + p.path[2..];
      OpenTagsUnfold(g, p.path[2..]);
      OpenTagsUnfold(g.(kids := g.kids + [done]), p.path[2..]);
      TagsSnoc(g.kids, done);
    }
  }

  lemma NoOpenTags()
    ensures OpenTags([]) == [] && Tags([]) == []
  {
  }

  lemma BuildTags(r: NodeResult)
    requires r.Got? && StackMirrorsPath(r.p) && OneRoot(r.p) && Build(r).Next?
    requires r.node.NewAttr? && r.p.path != [] ==> r.p.path[0].kids == []
    ensures TagsSoFar(Build(r).p) == TagsSoFar(r.p) + TagRead(r)
  {
    var q := Build(r).p;
    if r.etag {
      EndElementTags(r.p, r.node.name);
    } else {
      match r.node
      case Nothing =>
      case NewElement(name) =>
        assert q.path[1..] == r.p.path;
      case NewText(value) =>
        TagsSnoc(r.p.path[0].kids, TextNode(value));
        assert q.path[1..] == r.p.path[1..];
      case NewAttr(a) =>
        AttrTagsSnoc(r.p.path[0].attrs, a);
        assert q.path[1..] == r.p.path[1..] && Tags([]) == [];
    }
  }

  lemma TurnTags(s: Text, p: State)
    requires Invariant(s, p) && Turn(s, p).Next?
    ensures TagsSoFar(Turn(s, p).p) == TagsSoFar(p) + TagRead(NextNode(s, p))
  {
    hide NextNode, Build, TagRead;
    NextNodeKeeps(s, p);
    BuildTags(NextNode(s, p));
  }

  lemma AcceptedAtEnd(s: Text, p: State)
    requires Invariant(s, p) && Turn(s, p).Accepted?
    ensures Turn(s, p).top == p.top && |p.top| <= 1
    ensures Tags(p.top) == TagsSoFar(p) && TagRead(NextNode(s, p)) == []
  {
    BuildGoesOn(s, p);
    assert p.path == [];
  }

  lemma BuildGoesOn(s: Text, p: State)
    requires Turn(s, p).Accepted?
    ensures NextNode(s, p).FileDone? && p.stack == []
  {
    hide NextNode, Build;
  }

  /** An accepted input has at most one root, and the tags, attributes and text read along the way are,
      in order, those of the document returned: start and end tags are balanced and match. */
  lemma {:induction false} AcceptedIsBalanced(s: Text, p: State)
    requires p.cur <= |s| && Invariant(s, p) && Run(s, p).Accepted?
    ensures |Run(s, p).top| <= 1
    ensures Tags(Run(s, p).top) == TagsSoFar(p) + TagsRead(s, p)
    decreases Measure(s, p)
  {
    hide NextNode, Build, Invariant, TagsSoFar, Tags, TagRead;
    var r := Turn(s, p);
    if r.Next? {
      TurnDecreases(s, p);
      TurnKeepsInvariant(s, p);
      TurnTags(s, p);
      AcceptedIsBalanced(s, r.p);
    } else {
      AcceptedAtEnd(s, p);
    }
  }

  lemma ParseIsBalanced(s: Text)
    requires Parse(s).Accepted?
    ensures |Parse(s).top| <= 1
    ensures Tags(Parse(s).top) == TagsRead(s, INITIAL.(cur := SkipProlog(s).pos))
  {
    hide NextNode, SkipProlog, Run, TagsRead;
    var p := INITIAL.(cur := SkipProlog(s).pos);
    InitialInvariant(s, p.cur);
    AcceptedIsBalanced(s, p);
    assert TagsSoFar(p) == [];
  }
}
