/** What every tree that comes out of the parser is like, whatever the input. */
module ParsedTrees {
  import opened Bytes
  import opened Utf8
  import opened Escape
  import opened Names
  import opened XmlTree
  import opened Scanner
  import opened ParserSpec
  import opened ParserInvariant
  import opened Printer
  import opened RoundTrip
  import opened Reparse

  /** The UTF-8 form of legal characters. */
  ghost predicate Legal(t: Text) {
    exists cs: seq<int> :: AllXml(cs) && t == Encoded(cs)
  }

  ghost predicate ParsedAttr(a: Attr) {
    GoodName(a.name) && (a.value.Some? ==> a.value.value != [] && Legal(a.value.value))
  }

  ghost predicate ParsedAttrs(attrs: seq<Attr>) {
    && (forall k :: 0 <= k < |attrs| ==> ParsedAttr(attrs[k]))
    && (forall j, k :: 0 <= j < k < |attrs| ==> attrs[j].name != attrs[k].name)
  }

  /** Names, texts and values are legal, attribute names distinct, and no value is empty. */
  ghost predicate Parsed(nodes: seq<Node>) {
    nodes != [] ==>
      match nodes[0]
      case TextNode(value) => Legal(value) && Parsed(nodes[1..])
      case Element(name, attrs, kids) =>
        GoodName(name) && ParsedAttrs(attrs) && Parsed(kids) && Parsed(nodes[1..])
  }

  lemma {:induction false} ParsedSnoc(nodes: seq<Node>, n: Node)
    requires Parsed(nodes) && Parsed([n])
    ensures Parsed(nodes + [n])
  {
    hide GoodName, ParsedAttrs, Legal;
    if nodes == [] {
      assert nodes + [n] == [n];
    } else {
      assert (nodes + [n])[1..] == nodes[1..] + [n];
      ParsedSnoc(nodes[1..], n);
    }
  }

  /* ---- tokens ---- */

  lemma {:induction false} CopyLegal(s: Text, i: nat, end: nat) returns (cs: seq<int>)
    ensures AllXml(cs) && CopyFrom(s, i, end).text == Encoded(cs)
    ensures i < end && CopyFrom(s, i, end).ok ==> CopyFrom(s, i, end).text != []
    decreases |s| - i
  {
    hide GetChar;
    var d := GetChar(s, i);
    if i >= end || d.c <= 0 {
      cs := [];
    } else {
      OneByteChar(s, i);
      GetCharIsXml(s, i);
      cs := CopyLegal(s, i + d.len, end);
      cs := [d.c] + cs;
    }
  }

  lemma {:induction false} NameLegal(s: Text, i: nat) returns (cs: seq<int>)
    ensures CopyFrom(s, i, NameEnd(s, i)).text == Encoded(cs)
    ensures forall k :: 0 <= k < |cs| ==> IsNameChar(cs[k], true)
    ensures IsNameChar(Utf8ToInt(s, i).c, true) ==> |cs| > 0 && cs[0] == Utf8ToInt(s, i).c
    decreases |s| - i
  {
    hide IsNameChar, GetChar, Utf8ToInt, IntToUtf8;
    var d := Utf8ToInt(s, i);
    if IsNameChar(d.c, true) {
      NameStep(s, i);
      cs := NameLegal(s, i + d.len);
      cs := [d.c] + cs;
    } else {
      cs := [];
    }
  }

  lemma NameStep(s: Text, i: nat)
    requires IsNameChar(Utf8ToInt(s, i).c, true)
    ensures var d := Utf8ToInt(s, i);
            && d.len > 0 && d.c > 0 && i + d.len <= |s| && GetChar(s, i) == d
            && (d.len == 1 ==> 0 <= d.c < 0x80 && IntToUtf8(d.c) == [d.c])
  {
    hide Entity;
    NameCharRange(Utf8ToInt(s, i).c);
    NameCharIsChar(s, i);
    OneByteChar(s, i);
  }

  lemma NameTokenGood(s: Text, i: nat)
    requires IsNameChar(Utf8ToInt(s, i).c, false)
    ensures GoodName(CopyFrom(s, i, NameEnd(s, i + Utf8ToInt(s, i).len)).text)
  {
    var cs := NameLegal(s, i);
    hide Utf8ToInt, CopyFrom;
    assert IsName(CopyFrom(s, i, NameEnd(s, i)).text, cs);
  }

  predicate IsDelimiter(b: Byte) {
    b == QUOTE || b == SINGLE_QUOTE || b == LESS_THAN || b == EQUALS || b == SLASH || b == GREATER_THAN
  }

  /** A token is a delimiter, or starts with one, or is a name. */
  lemma TakenToken(s: Text, i: nat, save: nat)
    ensures var t := TakeToken(s, i, save);
            && (t.text != [] ==> if IsDelimiter(At(s, i)) then t.text[0] == At(s, i) else GoodName(t.text))
            && (t.len > 0 && !IsDelimiter(At(s, i)) ==> IsNameChar(Utf8ToInt(s, i).c, false))
  {
    hide CopyFrom, Utf8ToInt, IsNameChar, NameEnd, GoodName;
    var b, n := At(s, i), TokenLength(s, i);
    if n > 0 {
      if b == LESS_THAN {
        TagTokenCopies(s, i, i + n);
      } else if IsDelimiter(b) {
        CopyDelimiters(s, i, n);
      } else {
        NameTokenGood(s, i);
      }
    }
  }

  lemma NextIsName(s: Text, cur: nat, save: nat)
    ensures var t := NextToken(s, cur, save);
            t.text != [] && !IsDelimiter(t.text[0]) ==> GoodName(t.text)
  {
    hide TakeToken, GoodName, SkipMisc;
    TakenToken(s, SkipMisc(s, cur).pos, save);
  }

  /** An overlong `/` after a `<` is a `/` all the same. */
  lemma ClosingCopied(s: Text, i: nat)
    requires At(s, i) == LESS_THAN && Utf8ToInt(s, i + 1).c == SLASH as int
    ensures CopyFrom(s, i, i + 2).text == ENDTAG
  {
    var d := Utf8ToInt(s, i + 1);
    assert GetChar(s, i) == Decoded(LESS_THAN, 1);
    assert GetChar(s, i + 1) == d;
    CopyUnfold(s, i, i + 2);
    CopyUnfold(s, i + 1, i + 2);
    CopyUnfold(s, i + 1 + d.len, i + 2);
    hide CopyFrom, Utf8ToInt, GetChar;
    assert CopyFrom(s, i + 1 + d.len, i + 2).text == [];
  }

  /** After a `<` that is no end tag a name begins. */
  lemma TakenOpening(s: Text, i: nat, save: nat)
    ensures var t := TakeToken(s, i, save);
            t.text != [] && t.text[0] == LESS_THAN && t.text != ENDTAG ==> IsNameChar(Utf8ToInt(s, t.cur).c, false)
  {
    hide CopyFrom, Utf8ToInt, IsNameChar, NameEnd, GoodName;
    var t := TakeToken(s, i, save);
    TakenToken(s, i, save);
    if t.text != [] && t.text[0] == LESS_THAN && t.text != ENDTAG {
      if !IsDelimiter(At(s, i)) {
        NameIsNoMarkup(t.text);
      } else if Utf8ToInt(s, i + 1).c == SLASH as int {
        ClosingCopied(s, i);
      } else {
        CopyDelimiters(s, i, 1);
      }
    }
  }

  lemma NextOpening(s: Text, cur: nat, save: nat)
    ensures var t := NextToken(s, cur, save);
            t.text != [] && t.text[0] == LESS_THAN && t.text != ENDTAG ==> IsNameChar(Utf8ToInt(s, t.cur).c, false)
  {
    hide TakeToken, SkipMisc, Utf8ToInt, IsNameChar;
    TakenOpening(s, SkipMisc(s, cur).pos, save);
  }

  lemma NameAhead(s: Text, cur: nat, save: nat)
    requires IsNameChar(Utf8ToInt(s, cur).c, false)
    ensures NextToken(s, cur, save).len > 0 ==> GoodName(NextToken(s, cur, save).text)
  {
    assert PlainStart(At(s, cur)) && !IsDelimiter(At(s, cur));
    PlainMisc(s, cur);
    hide TakeToken, GoodName, SkipMisc, Utf8ToInt, IsNameChar;
    TakenToken(s, cur, save);
  }

  /* ---- nodes ---- */

  ghost predicate ParsedNode(node: NewNode, etag: bool) {
    match node
    case Nothing => true
    case NewElement(name) => etag || GoodName(name)
    case NewText(value) => Legal(value)
    case NewAttr(a) => ParsedAttr(a)
  }

  lemma ContentParsed(s: Text, p: State)
    ensures var r := ProcessContent(s, p); r.Got? ==> ParsedNode(r.node, r.etag)
  {
    hide CopyFrom, SkipComment, SkipPI, ContentEnd;
    var cs := CopyLegal(s, p.cur, ContentEnd(s, p.cur));
  }

  lemma STagParsed(s: Text, p: State)
    requires IsNameChar(Utf8ToInt(s, p.cur).c, false)
    ensures var r := ProcessSTag(s, p); r.Got? ==> ParsedNode(r.node, r.etag)
  {
    hide NextToken, GoodName, Utf8ToInt, IsNameChar;
    NameAhead(s, p.cur, p.save);
  }

  lemma AttributeParsed(s: Text, p: State)
    requires p.tokenBuf != [] && (!IsDelimiter(p.tokenBuf[0]) ==> GoodName(p.tokenBuf))
    ensures var r := ProcessAttribute(s, p); r.Got? ==> ParsedNode(r.node, r.etag)
  {
    hide NextToken, CopyFrom, EndQuote, ValueAllowed, GoodName, Legal, AttributeEnd;
    var r := ProcessAttribute(s, p);
    if r.Got? {
      var eq := NextToken(s, p.cur, p.save);
      var quote := NextToken(s, eq.cur, eq.save);
      var end := EndQuote(s, quote.cur, quote.text).value;
      var copy := CopyFrom(s, quote.cur, end);
      ValueParsed(s, quote.cur, end);
      var a := Attr(p.tokenBuf, if end == quote.cur then None else Some(copy.text));
      EndKeepsAttr(s, p, end, a);
    }
  }

  lemma EndKeepsAttr(s: Text, p: State, end: nat, a: Attr)
    ensures var r := AttributeEnd(s, p, end, a); r.Got? ==> r.node == NewAttr(a) && !r.etag
  {
    hide NextToken;
  }

  lemma ValueParsed(s: Text, i: nat, end: nat)
    ensures Legal(CopyFrom(s, i, end).text)
    ensures CopyFrom(s, i, end).ok && i < end ==> CopyFrom(s, i, end).text != []
  {
    hide CopyFrom;
    var cs := CopyLegal(s, i, end);
  }

  /** Every node the scanner hands over is well formed. */
  lemma NextNodeParsed(s: Text, p: State)
    ensures var r := NextNode(s, p); r.Got? ==> ParsedNode(r.node, r.etag)
  {
    hide NextToken, ProcessContent, ProcessETag, ProcessSTag, ProcessAttribute, GoodName, Utf8ToInt, IsNameChar, Legal;
    if p.mode == CONTENT {
      ContentParsed(s, p);
    } else {
      var i := SkipSpaces(s, p.cur);
      var t := NextToken(s, i, p.save);
      var q := Took(p, t);
      NextIsName(s, i, p.save);
      NextOpening(s, i, p.save);
      TagsKeep(s, q);
      if t.text != [] {
        AttributeParsed(s, q);
        if t.text[0] == LESS_THAN && t.text != ENDTAG {
          STagParsed(s, q);
        }
      }
    }
  }

  /* ---- every turn ---- */

  ghost predicate ParsedFrame(f: Frame) {
    GoodName(f.name) && ParsedAttrs(f.attrs) && Parsed(f.kids)
  }

  ghost predicate ParsedState(p: State) {
    && Parsed(p.top) && (forall k :: 0 <= k < |p.top| ==> p.top[k].Element?)
    && (forall k :: 0 <= k < |p.path| ==> ParsedFrame(p.path[k]))
  }

  lemma ClosedParsed(f: Frame)
    requires ParsedFrame(f)
    ensures Parsed([Closed(f)])
  {
    assert [Closed(f)][1..] == [];
  }

  lemma EndParsed(p: State, name: Text)
    requires ParsedState(p) && EndElement(p, name).Next?
    ensures ParsedState(EndElement(p, name).p)
  {
    hide Parsed, GoodName, ParsedAttrs;
    var f := p.path[0];
    ClosedParsed(f);
    if |p.path| == 1 {
      ParsedSnoc(p.top, Closed(f));
    } else {
      assert ParsedFrame(p.path[1]);
      ParsedSnoc(p.path[1].kids, Closed(f));
    }
  }

  lemma StartParsed(p: State, name: Text)
    requires ParsedState(p) && GoodName(name) && StartElement(p, name).Next?
    ensures ParsedState(StartElement(p, name).p)
  {
    hide GoodName;
    assert ParsedFrame(Frame(name, [], []));
    hide Parsed, ParsedAttrs;
  }

  lemma TextParsed(p: State, value: Text)
    requires ParsedState(p) && Legal(value) && AddText(p, value).Next?
    ensures ParsedState(AddText(p, value).p)
  {
    hide GoodName, Legal;
    assert [TextNode(value)][1..] == [] && Parsed([TextNode(value)]);
    hide Parsed, ParsedAttrs;
    assert ParsedFrame(p.path[0]);
    ParsedSnoc(p.path[0].kids, TextNode(value));
  }

  lemma AttrParsed(p: State, a: Attr)
    requires ParsedState(p) && ParsedAttr(a) && AddAttr(p, a).Next?
    ensures ParsedState(AddAttr(p, a).p)
  {
    hide GoodName, Parsed, ParsedAttr;
    assert ParsedFrame(p.path[0]);
  }

  lemma TurnParsed(s: Text, p: State)
    requires Invariant(s, p) && ParsedState(p) && Turn(s, p).Next?
    ensures ParsedState(Turn(s, p).p)
  {
    hide NextNode, EndElement, StartElement, AddText, AddAttr, GoodName, Legal, ParsedAttr, Invariant, Parsed,
         ParsedFrame;
    NextNodeParsed(s, p);
    NextNodeKeeps(s, p);
    var r := NextNode(s, p);
    assert ParsedState(r.p);
    if r.etag {
      EndParsed(r.p, r.node.name);
    } else {
      match r.node
      case Nothing =>
      case NewElement(name) => StartParsed(r.p, name);
      case NewText(value) => TextParsed(r.p, value);
      case NewAttr(a) => AttrParsed(r.p, a);
    }
  }

  lemma {:induction false} RunParsed(s: Text, p: State)
    requires p.cur <= |s| && Invariant(s, p) && ParsedState(p) && Run(s, p).Accepted?
    ensures Parsed(Run(s, p).top) && OneElement(Run(s, p).top)
    decreases Measure(s, p)
  {
    hide NextNode, Build, Invariant, Parsed, ParsedFrame;
    var r := Turn(s, p);
    if r.Next? {
      TurnDecreases(s, p);
      TurnKeepsInvariant(s, p);
      TurnParsed(s, p);
      RunParsed(s, r.p);
    } else {
      AcceptedAtEnd(s, p);
    }
  }

  /** The tree of every accepted input has at most one root, an element, names and characters that
      are legal, distinct attribute names and no empty values. */
  lemma ParseParsed(s: Text)
    requires Parse(s).Accepted?
    ensures Parsed(Parse(s).top) && OneElement(Parse(s).top)
  {
    hide NextNode, SkipProlog, Run;
    var p := INITIAL.(cur := SkipProlog(s).pos);
    InitialInvariant(s, p.cur);
    RunParsed(s, p);
  }
}
