/** Exactly which documents come back when their printed form is parsed. */
module ComesBack {
  import opened Bytes
  import opened Utf8
  import opened Escape
  import opened Names
  import opened XmlTree
  import opened Scanner
  import opened ParserSpec
  import opened ParserInvariant
  import opened Printer
  import opened RoundTrip
  import opened Reparse
  import opened ReparseTree
  import opened ParsedTrees

  /* ---- copying never lengthens ---- */

  lemma {:induction false} PayloadBound(s: Text, i: nat, n: nat, lead: nat)
    ensures Payload(s, i, n, lead) < (lead + 1) * Pow64(n)
    decreases n
  {
    if n > 0 {
      PayloadBound(s, i, n - 1, lead);
      hide At;
      NextDigit(Payload(s, i, n - 1, lead), At(s, i + n) % 0x40, lead + 1, Pow64(n - 1));
    }
  }

  lemma NextDigit(x: nat, digit: nat, a: nat, p: nat)
    requires x < a * p && digit < 0x40
    ensures x * 0x40 + digit < a * (0x40 * p)
  {
    assert a * (0x40 * p) == 0x40 * (a * p);
  }

  /** No encoding is shorter than the one the parser writes. */
  lemma DecodedLength(s: Text, i: nat)
    requires IsXmlChar(Utf8ToInt(s, i).c)
    ensures 1 <= |IntToUtf8(Utf8ToInt(s, i).c)| <= Utf8ToInt(s, i).len
  {
    Powers();
    var b := At(s, i);
    if 0xC0 <= b < 0xE0 {
      PayloadBound(s, i, 1, b - 0xC0);
    } else if 0xE0 <= b < 0xF0 {
      PayloadBound(s, i, 2, b - 0xE0);
    }
  }

  lemma {:induction false} TwoDigits(s: Text, i: nat, base: int)
    requires base == 10 || base == 16
    ensures Digits(s, i, base, 0).end <= i + 1 ==> Digits(s, i, base, 0).sum < 16
  {
    if i < |s| && (if base == 16 then IsHexDigit(s[i]) else IsDigit(s[i])) {
      var d := DigitValue(s[i]);
      assert Digits(s, i, base, 0) == Digits(s, i + 1, base, d);
    }
  }

  lemma EntityLength(s: Text, i: nat)
    requires Entity(s, i).c > 0
    ensures |IntToUtf8(Entity(s, i).c)| < Entity(s, i).len
  {
    hide MatchesNoCase, Digits;
    if MatchesNoCase(s, i, ESC_HEX) {
      TwoDigits(s, i + 3, 16);
    } else if MatchesNoCase(s, i, ESC_DEC) {
      TwoDigits(s, i + 2, 10);
    }
  }

  /** What one character is copied to is no longer than the character, and shorter after an `&`. */
  lemma CharLength(s: Text, i: nat)
    requires GetChar(s, i).c > 0
    ensures var d := GetChar(s, i);
            && 1 <= |IntToUtf8(d.c)| <= d.len && (At(s, i) == AMPERSAND ==> |IntToUtf8(d.c)| < d.len && d.len > 1)
  {
    hide Entity, Utf8ToInt;
    if At(s, i) == AMPERSAND {
      EntityLength(s, i);
      GetCharIsXml(s, i);
      XmlNotEmpty(GetChar(s, i).c);
    } else if 0x80 <= At(s, i) {
      DecodedLength(s, i);
    } else {
      ShortChar(s, i);
    }
  }

  lemma XmlNotEmpty(c: int)
    requires IsXmlChar(c)
    ensures |IntToUtf8(c)| >= 1
  {
  }

  lemma ShortChar(s: Text, i: nat)
    requires GetChar(s, i).c > 0 && At(s, i) != AMPERSAND && At(s, i) < 0x80
    ensures |IntToUtf8(GetChar(s, i).c)| == GetChar(s, i).len == 1
  {
  }

  lemma {:induction false} CopyShrinks(s: Text, i: nat, end: nat)
    requires CopyFrom(s, i, end).ok
    ensures i + |CopyFrom(s, i, end).text| <= end
    decreases |s| - i
  {
    hide GetChar, IntToUtf8;
    CopyUnfold(s, i, end);
    if i < end {
      var d := GetChar(s, i);
      CharLength(s, i);
      CopyShrinks(s, i + d.len, end);
    }
  }

  /** Raw text with an `&` in it is copied to something shorter, if at all. */
  lemma {:induction false} RawShrinks(s: Text, i: nat, cs: seq<int>)
    requires AllXml(cs) && AMPERSAND as int in cs && Matches(s, i, Encoded(cs))
    requires CopyFrom(s, i, i + |Encoded(cs)|).ok
    ensures |CopyFrom(s, i, i + |Encoded(cs)|).text| < |Encoded(cs)|
    decreases |cs|
  {
    hide GetChar, IntToUtf8;
    var first, rest := IntToUtf8(cs[0]), Encoded(cs[1..]);
    var end := i + |Encoded(cs)|;
    assert Encoded(cs) == first + rest;
    XmlNotEmpty(cs[0]);
    MatchesSplit(s, i, first, rest);
    CopyUnfold(s, i, end);
    if cs[0] == AMPERSAND as int {
      AmpersandEncoded();
      MatchesAt(s, i, first, 0);
      CharLength(s, i);
      CopyShrinks(s, i + GetChar(s, i).len, end);
    } else {
      GetRawChar(s, i, cs[0]);
      CharLength(s, i);
      RawShrinks(s, i + |first|, cs[1..]);
    }
  }

  lemma AmpersandEncoded()
    ensures IntToUtf8(AMPERSAND as int) == [AMPERSAND]
  {
  }

  /* ---- attributes ---- */

  lemma {:induction false} EncodedHas(cs: seq<int>, b: Byte) returns (k: nat)
    requires b as int in cs && b < 0x80
    ensures k < |Encoded(cs)| && Encoded(cs)[k] == b
  {
    if cs[0] == b as int {
      k := 0;
    } else {
      k := EncodedHas(cs[1..], b);
      k := |IntToUtf8(cs[0])| + k;
    }
  }

  lemma {:induction false} NotAllowed(s: Text, i: nat, end: nat, k: nat)
    requires i <= k < end && At(s, k) == LESS_THAN && forall j :: i <= j < end ==> At(s, j) != AMPERSAND
    ensures !ValueAllowed(s, i, end)
    decreases end - i
  {
    if i < k {
      NotAllowed(s, i + 1, end, k);
    }
  }

  /** The bytes of a value are its characters, so the quote ends it where it is printed or before. */
  lemma QuoteInside(s: Text, start: nat, cs: seq<int>)
    requires AllXml(cs) && Matches(s, start, Encoded(cs)) && Matches(s, start + |Encoded(cs)|, [QUOTE])
    ensures var f := Find(s, start, [QUOTE]);
            At(s, f) != 0 && if QUOTE as int in cs then f < start + |Encoded(cs)| else f == start + |Encoded(cs)|
  {
    hide Encoded, Find, Matches;
    var end := start + |Encoded(cs)|;
    forall k | start <= k < end ensures At(s, k) != 0 && (At(s, k) == QUOTE ==> QUOTE as int in cs) {
      EncodedByte(cs, k - start);
      MatchesAt(s, start, Encoded(cs), k - start);
    }
    MatchesAt(s, end, [QUOTE], 0);
    if QUOTE as int in cs {
      var k := EncodedHas(cs, QUOTE);
      MatchesAt(s, start, Encoded(cs), k);
      FindsBefore(s, start, start + k);
    } else {
      FoundAt(s, start, end, [QUOTE]);
    }
  }

  lemma FindsBefore(s: Text, i: nat, k: nat)
    requires i <= k && At(s, k) == QUOTE && forall j :: i <= j < k ==> At(s, j) != 0
    ensures Find(s, i, [QUOTE]) <= k && At(s, Find(s, i, [QUOTE])) != 0
  {
    assert Matches(s, k, [QUOTE]);
  }

  /** What is read for a value with one of the three characters, if anything, is another value. */
  lemma BadValue(s: Text, start: nat, v: Text, cs: seq<int>)
    requires v == Encoded(cs) && AllXml(cs) && v != [] && !IsValue(v, cs)
    requires Matches(s, start, v) && Matches(s, start + |v|, [QUOTE])
    ensures var f := Find(s, start, [QUOTE]);
            ValueAllowed(s, start, f) && CopyFrom(s, start, f).ok ==> CopyFrom(s, start, f).text != v
  {
    hide Encoded, Find, CopyFrom, ValueAllowed, Matches;
    QuoteInside(s, start, cs);
    var f := Find(s, start, [QUOTE]);
    if CopyFrom(s, start, f).ok {
      CopyShrinks(s, start, f);
      if QUOTE as int !in cs {
        if AMPERSAND as int in cs {
          RawShrinks(s, start, cs);
        } else {
          RawMarkup(s, start, cs);
        }
      }
    }
  }

  lemma RawMarkup(s: Text, start: nat, cs: seq<int>)
    requires AllXml(cs) && LESS_THAN as int in cs && AMPERSAND as int !in cs && Matches(s, start, Encoded(cs))
    ensures !ValueAllowed(s, start, start + |Encoded(cs)|)
  {
    hide Encoded, ValueAllowed, Matches;
    var end := start + |Encoded(cs)|;
    forall k | start <= k < end ensures At(s, k) != AMPERSAND {
      EncodedByte(cs, k - start);
      MatchesAt(s, start, Encoded(cs), k - start);
    }
    var k := EncodedHas(cs, LESS_THAN);
    MatchesAt(s, start, Encoded(cs), k);
    NotAllowed(s, start, end, start + k);
  }

  /** Such an attribute is not read back: the turn fails or adds another one. */
  lemma BadAttrNode(s: Text, p: State, attrs: seq<Attr>)
    requires p.cur <= |s| && p.mode == ATTRIBUTE && attrs != []
    requires Matches(s, p.cur, PrintAttrs(attrs) + [GREATER_THAN])
    requires ParsedAttr(attrs[0]) && !GoodValue(attrs[0].value)
    ensures var r := NextNode(s, p);
            r == Failed || (r.Got? && !r.etag && r.node.NewAttr? && r.node.attr != attrs[0])
  {
    hide NextToken, NextNode, ProcessAttribute, PrintAttrs, GoodName, Matches, CopyFrom, Encoded, ValueAllowed, Find,
         IsNameChar, Utf8ToInt;
    var i, a := p.cur, attrs[0];
    AttrsLayout(s, i, attrs);
    NameToken(s, i + 1, a.name, p.save);
    NameIsNoMarkup(a.name);
    var t := NextToken(s, i + 1, p.save);
    AttrNode(s, p, a, t);
    var p1 := Took(p, t);
    DelimiterToken(s, p1.cur, p.save);
    DelimiterToken(s, p1.cur + 1, p.save);
    var v := a.value.value;
    var cs: seq<int> :| AllXml(cs) && v == Encoded(cs);
    assert !IsValue(v, cs);
    BadValue(s, ValueStart(i, a), v, cs);
    BadAttrResult(s, p1, i, a);
  }

  lemma BadAttrResult(s: Text, p: State, i: nat, a: Attr)
    requires p.tokenBuf == a.name != [] && p.cur == i + 1 + |a.name| && a.value.Some? && a.value.value != []
    requires NextToken(s, p.cur, p.save) == Token(1, [EQUALS], p.cur + 1, p.save)
    requires NextToken(s, p.cur + 1, p.save) == Token(1, [QUOTE], ValueStart(i, a), p.save)
    requires var f := Find(s, ValueStart(i, a), [QUOTE]);
             ValueAllowed(s, ValueStart(i, a), f) && CopyFrom(s, ValueStart(i, a), f).ok ==>
               CopyFrom(s, ValueStart(i, a), f).text != a.value.value
    ensures var r := ProcessAttribute(s, p);
            r == Failed || (r.Got? && !r.etag && r.node.NewAttr? && r.node.attr != a)
  {
    hide NextToken, ValueAllowed, CopyFrom, IsNameChar, Utf8ToInt, Find, AttributeEnd;
    var start, f := ValueStart(i, a), Find(s, ValueStart(i, a), [QUOTE]);
    var b := Attr(a.name, if f == start then None else Some(CopyFrom(s, start, f).text));
    EndKeepsAttr(s, p, f, b);
  }

  /* ---- following a run that rebuilds the document ---- */

  /** The run from p ends in the document `top`, of which everything but e has been read. */
  ghost predicate Left(s: Text, p: State, top: seq<Node>, e: seq<Tag>) {
    && p.cur <= |s| && Invariant(s, p) && Run(s, p) == Accepted(top)
    && Tags(top) == TagsSoFar(p) + e
  }

  /** What has been read after getting from p to q was still to come at p. */
  lemma LeftAfter(s: Text, p: State, q: State, top: seq<Node>, e: seq<Tag>, read: seq<Tag>) returns (f: seq<Tag>)
    requires Left(s, p, top, e) && GetsTo(s, p, q) && TagsSoFar(q) == TagsSoFar(p) + read
    ensures Left(s, q, top, f) && e == read + f
  {
    hide Run, Invariant, TagsSoFar, Tags, TagsRead;
    AcceptedIsBalanced(s, q);
    f := TagsRead(s, q);
    var before := TagsSoFar(p);
    assert before + e == (before + read) + f;
    assert (before + e)[|before|..] == e && ((before + read) + f)[|before|..] == read + f;
  }

  lemma WithKidsTags(p: State, q: State, kids: seq<Node>)
    requires WithKids(p, q, kids)
    ensures TagsSoFar(q) == TagsSoFar(p) + Tags(kids)
  {
    hide Tags, OpenTags;
    if p.path == [] {
      TagsConcat(p.top, kids);
      NoOpenTags();
    } else {
      var f := p.path[0];
      assert p.path == [f] + p.path[1..];
      OpenTagsUnfold(f, p.path[1..]);
      OpenTagsUnfold(f.(kids := f.kids + kids), p.path[1..]);
      TagsConcat(f.kids, kids);
    }
  }

  lemma OpenedTags(p: State, q: State, name: Text)
    requires q.path == [Frame(name, [], [])] + p.path && q.top == p.top
    ensures TagsSoFar(q) == TagsSoFar(p) + [Open(name)]
  {
    OpenTagsUnfold(Frame(name, [], []), p.path);
    assert AttrTags([]) == [] && Tags([]) == [];
  }

  lemma AttrAddedTags(p: State, q: State, a: Attr)
    requires p.path != [] && p.path[0].kids == [] && q.top == p.top
    requires q.path == [p.path[0].(attrs := p.path[0].attrs + [a])] + p.path[1..]
    ensures TagsSoFar(q) == TagsSoFar(p) + [Attribute(a)]
  {
    var f := p.path[0];
    assert p.path == [f] + p.path[1..];
    OpenTagsUnfold(f, p.path[1..]);
    OpenTagsUnfold(f.(attrs := f.attrs + [a]), p.path[1..]);
    AttrTagsSnoc(f.attrs, a);
    assert Tags([]) == [];
  }

  /** A bad attribute cannot be the next that is left. */
  lemma BadAttrLost(s: Text, p: State, attrs: seq<Attr>, top: seq<Node>, e: seq<Tag>)
    requires p.mode == ATTRIBUTE && attrs != [] && Matches(s, p.cur, PrintAttrs(attrs) + [GREATER_THAN])
    requires ParsedAttr(attrs[0]) && Left(s, p, top, [Attribute(attrs[0])] + e)
    ensures GoodValue(attrs[0].value)
  {
    hide NextNode, Run, Invariant, PrintAttrs, GoodValue, ParsedAttr, TagsSoFar, Tags, TagsRead, Matches;
    if !GoodValue(attrs[0].value) {
      BadAttrNode(s, p, attrs);
      var r := NextNode(s, p);
      RunTurn(s, p);
      AcceptedIsBalanced(s, p);
      SameRest(TagsSoFar(p), TagsRead(s, p), [Attribute(attrs[0])] + e);
      ReadFirst(s, p);
    }
  }

  lemma SameRest(a: seq<Tag>, b: seq<Tag>, c: seq<Tag>)
    requires a + b == a + c
    ensures b == c
  {
    assert (a + b)[|a|..] == b && (a + c)[|a|..] == c;
  }

  lemma RunTurn(s: Text, p: State)
    requires p.cur <= |s| && Run(s, p).Accepted?
    ensures NextNode(s, p) != Failed
  {
    hide NextNode, Build;
  }

  lemma ReadFirst(s: Text, p: State)
    requires p.cur <= |s|
    ensures TagRead(NextNode(s, p)) <= TagsRead(s, p)
  {
    hide NextNode, Turn, TagRead;
  }

  /** All printed attributes are good when the run rebuilds them. */
  lemma {:induction false} AttrsComeBack(s: Text, p: State, attrs: seq<Attr>, all: seq<Attr>, top: seq<Node>,
                                         e: seq<Tag>)
    requires p.mode == ATTRIBUTE && attrs != [] && Matches(s, p.cur, PrintAttrs(attrs) + [GREATER_THAN])
    requires p.path != [] && all == p.path[0].attrs + attrs && ParsedAttrs(all)
    requires Left(s, p, top, AttrTags(attrs) + e)
    ensures forall k :: 0 <= k < |attrs| ==> GoodValue(attrs[k].value)
    decreases |attrs|
  {
    hide Run, Invariant, PrintAttrs, GoodName, GoodValue, TagsSoFar, Tags, Matches;
    var done := p.path[0].attrs;
    assert all[|done|] == attrs[0] && (|attrs| > 1 ==> all[|done| + 1] == attrs[1]);
    forall k | 0 <= k < |done| ensures done[k].name != attrs[0].name {
      assert all[k] == done[k];
    }
    var rest := AttrTags(attrs[1..]) + e;
    assert AttrTags(attrs) + e == [Attribute(attrs[0])] + rest;
    BadAttrLost(s, p, attrs, top, rest);
    if |attrs| > 1 {
      var q := AttrTurn(s, p, attrs);
      FirstKid(s, p);
      AttrAddedTags(p, q, attrs[0]);
      var f := LeftAfter(s, p, q, top, [Attribute(attrs[0])] + rest, [Attribute(attrs[0])]);
      assert ([Attribute(attrs[0])] + rest)[1..] == rest && ([Attribute(attrs[0])] + f)[1..] == f;
      assert all == (done + [attrs[0]]) + attrs[1..];
      AttrsComeBack(s, q, attrs[1..], all, top, e);
      assert forall k :: 0 < k < |attrs| ==> attrs[k] == attrs[1..][k - 1];
    }
  }

  lemma FirstKid(s: Text, p: State)
    requires Invariant(s, p) && p.mode == ATTRIBUTE
    ensures p.path != [] && p.path[0].kids == []
  {
  }

  /** At an end tag the run reads the end of the element. */
  lemma ClosesHere(s: Text, p: State, k: nat, name: Text, top: seq<Node>, e: seq<Tag>)
    requires Left(s, p, top, e) && p.mode == CONTENT && SpacesBetween(s, p.cur, k)
    requires Matches(s, k, EndTag(name)) && GoodName(name)
    requires p.stack != [] && p.stack[0] == name && p.path != [] && p.path[0].name == name
    ensures e != [] && e[0] == Close(name)
  {
    hide Run, Invariant, GoodName, Tags, TagsOf, OpenTags, EndTag, Matches, AtTag, NextToken;
    EndTagLayout(s, k, name);
    MatchesAt(s, k, ENDTAG, 0);
    CloseToken(s, k, 0);
    var q := ToTag(s, p, k);
    AlwaysHasTop(s, p);
    var outer := p.(stack := p.stack[1..], path := p.path[1..]);
    assert p.stack == [name] + outer.stack;
    var r := EndTurn(s, q, outer, name);
    var f := p.path[0];
    WithKidsTags(outer, r, [Closed(f)]);
    ClosedTags(f);
    assert Tags([Closed(f)]) == TagsOf(Closed(f)) by { OneTags(Closed(f)); }
    assert p.path == [f] + p.path[1..];
    OpenTagsUnfold(f, p.path[1..]);
    assert TagsSoFar(r) == TagsSoFar(p) + [Close(name)];
    hide TagsSoFar;
    var rest := LeftAfter(s, p, r, top, e, [Close(name)]);
  }

  lemma OneTags(n: Node)
    ensures Tags([n]) == TagsOf(n)
  {
    assert [n][1..] == [] && Tags([]) == [];
  }

  lemma AlwaysHasTop(s: Text, p: State)
    requires Invariant(s, p) && p.path != []
    ensures p.hasTop
  {
  }

  /* ---- whole trees ---- */

  lemma {:induction false} BlankEscaped(v: Text)
    requires forall k :: 0 <= k < |v| ==> IsSpace(v[k])
    ensures Escaped(v) == v
  {
    if v != [] {
      BlankEscaped(v[1..]);
      SpaceEscaped(v[0]);
      hide EscapeByte, IsSpace;
      assert v == [v[0]] + v[1..];
    }
  }

  lemma SpaceEscaped(b: Byte)
    requires IsSpace(b)
    ensures EscapeByte(b) == [b]
  {
  }

  /** Printed text comes back only if it is not blank, and nothing follows it. */
  lemma TextComesBack(s: Text, p: State, v: Text, name: Text, top: seq<Node>, e: seq<Tag>)
    requires Left(s, p, top, [Chars(v)] + e) && p.mode == CONTENT && Legal(v) && GoodName(name)
    requires Matches(s, p.cur, Escaped(v)) && Matches(s, p.cur + |Escaped(v)|, EndTag(name))
    requires p.stack != [] && p.stack[0] == name && p.path != [] && p.path[0].name == name
    ensures GoodText(v) && e != [] && e[0] == Close(name)
  {
    hide Run, Invariant, GoodName, Tags, TagsSoFar, EndTag, Matches, Escaped, Encoded;
    var k := p.cur + |Escaped(v)|;
    EndTagLayout(s, k, name);
    MatchesAt(s, k, ENDTAG, 0);
    if forall j :: 0 <= j < |v| ==> IsSpace(v[j]) {
      BlankEscaped(v);
      forall j | p.cur <= j < k ensures IsSpace(At(s, j)) {
        MatchesAt(s, p.cur, v, j - p.cur);
      }
      ClosesHere(s, p, k, name, top, [Chars(v)] + e);
    } else {
      assert GoodText(v);
      var q := TextTurn(s, p, v);
      TextTags(p, q, v);
      var f := LeftAfter(s, p, q, top, [Chars(v)] + e, [Chars(v)]);
      assert ([Chars(v)] + e)[1..] == e && ([Chars(v)] + f)[1..] == f;
      ClosesHere(s, q, k, name, top, e);
    }
  }

  lemma TextTags(p: State, q: State, v: Text)
    requires p.path != [] && q.top == p.top
    requires q.path == [p.path[0].(kids := p.path[0].kids + [TextNode(v)])] + p.path[1..]
    ensures TagsSoFar(q) == TagsSoFar(p) + [Chars(v)]
  {
    var f := p.path[0];
    assert p.path == [f] + p.path[1..];
    OpenTagsUnfold(f, p.path[1..]);
    OpenTagsUnfold(f.(kids := f.kids + [TextNode(v)]), p.path[1..]);
    TagsSnoc(f.kids, TextNode(v));
    hide Tags, OpenTags;
  }

  lemma ParsedGood(attrs: seq<Attr>)
    requires ParsedAttrs(attrs) && forall k :: 0 <= k < |attrs| ==> GoodValue(attrs[k].value)
    ensures GoodAttrs(attrs)
  {
    hide GoodName, GoodValue, Legal;
  }

  /** The start tag with its attributes, and the state behind it. */
  lemma StartComesBack(s: Text, p: State, n: Node, top: seq<Node>, e: seq<Tag>) returns (open: State)
    requires p.mode == ELEMENT && (p.stack == [] ==> !p.hasTop) && n.Element? && GoodName(n.name)
    requires ParsedAttrs(n.attrs) && Matches(s, p.cur, StartTag(n.name, n.attrs))
    requires Left(s, p, top, [Open(n.name)] + (AttrTags(n.attrs) + e))
    ensures GoodAttrs(n.attrs) && Left(s, open, top, e)
    ensures open.stack == [n.name] + p.stack && open.hasTop && open.mode == CONTENT
    ensures open.path == [Frame(n.name, n.attrs, [])] + p.path
    ensures open.cur == p.cur + |StartTag(n.name, n.attrs)|
  {
    hide Run, Invariant, GoodName, Tags, TagsSoFar, StartTag, Matches, PrintAttrs, GoodValue;
    var attrs, all := n.attrs, AttrTags(n.attrs) + e;
    if attrs != [] {
      assert ParsedAttr(attrs[0]);
      StartTagLayout(s, p.cur, n.name, attrs);
      var q := StartTurn(s, p, n.name, attrs);
      OpenedTags(p, q, n.name);
      var f := LeftAfter(s, p, q, top, [Open(n.name)] + all, [Open(n.name)]);
      SameRest([Open(n.name)], f, all);
      assert [] + attrs == attrs;
      AttrsComeBack(s, q, attrs, attrs, top, e);
    }
    ParsedGood(attrs);
    open := OpenElement(s, p, n.name, attrs);
    StartedTags(p, open, n.name, attrs);
    var f := LeftAfter(s, p, open, top, [Open(n.name)] + all, [Open(n.name)] + AttrTags(attrs));
    assert [Open(n.name)] + all == ([Open(n.name)] + AttrTags(attrs)) + e;
    SameRest([Open(n.name)] + AttrTags(attrs), f, e);
  }

  lemma StartedTags(p: State, q: State, name: Text, attrs: seq<Attr>)
    requires q.path == [Frame(name, attrs, [])] + p.path && q.top == p.top
    ensures TagsSoFar(q) == TagsSoFar(p) + ([Open(name)] + AttrTags(attrs))
  {
    OpenTagsUnfold(Frame(name, attrs, []), p.path);
    assert Tags([]) == [];
  }

  /** A printed element is printable when the run rebuilds it. */
  lemma {:induction false} ElementComesBack(s: Text, p: State, n: Node, top: seq<Node>, e: seq<Tag>)
    requires p.mode == ELEMENT && (p.stack == [] ==> !p.hasTop) && n.Element? && Parsed([n])
    requires Matches(s, p.cur, PrintElement(n)) && Left(s, p, top, TagsOf(n) + e)
    ensures Printable([n])
    decreases n, 1
  {
    hide Run, Invariant, GoodName, Tags, TagsSoFar, Matches, PrintElement, PrintSiblings, StartTag, EndTag, AttrTags,
         ParsedAttrs, GoodAttrs;
    ElementLayout(s, p.cur, n);
    var rest := Tags(n.kids) + ([Close(n.name)] + e);
    assert TagsOf(n) + e == [Open(n.name)] + (AttrTags(n.attrs) + rest);
    var open := StartComesBack(s, p, n, top, rest);
    SiblingsComeBack(s, open, n.kids, open.cur + |LeadIn(n.kids)|, n.name, top, e);
    assert [n][1..] == [] && Printable([]);
  }

  /** Printed siblings in front of an end tag are printable when the run rebuilds them. */
  lemma {:induction false} SiblingsComeBack(s: Text, p: State, nodes: seq<Node>, j: nat, name: Text, top: seq<Node>,
                                            e: seq<Tag>)
    requires p.mode == CONTENT && p.hasTop && GoodName(name) && Parsed(nodes)
    requires p.stack != [] && p.stack[0] == name && p.path != [] && p.path[0].name == name
    requires Matches(s, j, PrintSiblings(nodes)) && SpacesBetween(s, p.cur, j)
    requires nodes != [] && nodes[0].TextNode? ==> p.cur == j
    requires Matches(s, j + |PrintSiblings(nodes)|, EndTag(name))
    requires Left(s, p, top, Tags(nodes) + ([Close(name)] + e))
    ensures Printable(nodes)
    decreases nodes, 0
  {
    hide Run, Invariant, GoodName, TagsSoFar, Matches, PrintElement, EndTag, Escaped, ParsedAttrs, GoodAttrs, Legal,
         GoodText, TagsOf;
    var end := [Close(name)] + e;
    if nodes == [] {
    } else if nodes[0].TextNode? {
      var v := nodes[0].value;
      TextTagsOf(v);
      assert Tags(nodes) + end == [Chars(v)] + (Tags(nodes[1..]) + end);
      TextComesBack(s, p, v, name, top, Tags(nodes[1..]) + end);
      NoneFollows(nodes[1..], name, end);
    } else {
      var n := nodes[0];
      SiblingsLayout(s, j, nodes);
      ElementStarts(s, j, n);
      var q := ToTag(s, p, j);
      SameTags(p, q);
      var rest := Tags(nodes[1..]) + end;
      assert Tags(nodes) + end == TagsOf(n) + rest;
      var f := LeftAfter(s, p, q, top, TagsOf(n) + rest, []);
      assert [] + f == f;
      assert Parsed([n]) by { assert [n][1..] == [] && Parsed([]); }
      ElementComesBack(s, q, n, top, rest);
      var after := ParseElement(s, q, n);
      WithKidsTags(q, after, [n]);
      OneTags(n);
      f := LeftAfter(s, q, after, top, TagsOf(n) + rest, TagsOf(n));
      SameRest(TagsOf(n), f, rest);
      SiblingsComeBack(s, after, nodes[1..], after.cur + |Separator(nodes[1..])|, name, top, e);
    }
  }

  lemma SameTags(p: State, q: State)
    requires q.top == p.top && q.path == p.path
    ensures TagsSoFar(q) == TagsSoFar(p) + []
  {
  }

  lemma TextTagsOf(v: Text)
    ensures TagsOf(TextNode(v)) == [Chars(v)]
  {
  }

  lemma NoneFollows(nodes: seq<Node>, name: Text, end: seq<Tag>)
    requires Tags(nodes) + end != [] && (Tags(nodes) + end)[0] == Close(name)
    ensures nodes == []
  {
    if nodes != [] {
      BeginsOpen(nodes, end);
    }
  }

  lemma BeginsOpen(nodes: seq<Node>, end: seq<Tag>)
    requires nodes != []
    ensures Tags(nodes) + end != [] && !(Tags(nodes) + end)[0].Close?
  {
    assert Tags(nodes) == TagsOf(nodes[0]) + Tags(nodes[1..]);
    match nodes[0]
    case Element(name, _, _) => assert TagsOf(nodes[0])[0] == Open(name);
    case TextNode(v) => assert TagsOf(nodes[0])[0] == Chars(v);
  }

  /* ---- whole documents ---- */

  lemma OnlyPrintable(top: seq<Node>)
    requires Parse(PrintSiblings(top)) == Accepted(top)
    ensures Printable(top) && OneElement(top)
  {
    hide Run, Invariant, GoodName, Tags, TagsOf, Matches, PrintElement, PrintSiblings, Parsed, SkipProlog, TagsRead;
    var s := PrintSiblings(top);
    ParseParsed(s);
    if top != [] {
      var n := top[0];
      assert top == [n];
      GoodRoot(top);
      DocumentStarts(top);
      InitialInvariant(s, 0);
      AcceptedIsBalanced(s, INITIAL);
      OneTags(n);
      NothingYet();
      assert TagsOf(n) + [] == TagsOf(n) && [] + TagsOf(n) == TagsOf(n);
      ElementComesBack(s, INITIAL, n, top, []);
    }
  }

  lemma GoodRoot(top: seq<Node>)
    requires Parsed(top) && top != [] && top[0].Element?
    ensures GoodName(top[0].name)
  {
  }

  lemma NothingYet()
    ensures TagsSoFar(INITIAL) == []
  {
  }

  /** A document comes back from its printed form exactly when it is printable; with names that have no
      prefix these are the documents promised. */
  lemma ComesBackExactly(top: seq<Node>)
    ensures Parse(PrintSiblings(top)) == Accepted(top) <==> Printable(top) && OneElement(top)
    ensures Unprefixed(top) ==> (Parse(PrintSiblings(top)) == Accepted(top) <==> PrintableDocument(top))
  {
    hide Parse, PrintSiblings, Printable;
    if Parse(PrintSiblings(top)) == Accepted(top) {
      OnlyPrintable(top);
    }
    if Printable(top) && OneElement(top) {
      PlainThenParse(top);
    }
  }
}
