/** Runs of the parser over printed documents. */
module Reparse {
  import opened Bytes
  import opened Utf8
  import opened Escape
  import opened Names
  import opened XmlTree
  import opened Scanner
  import opened ParserSpec
  import opened ParserInvariant
  import opened Printer
  import opened RoundTrip

  /** The parser gets from p to q, so both have the same outcome and the invariant is kept. */
  predicate GetsTo(s: Text, p: State, q: State) {
    p.cur <= |s| && q.cur <= |s| && Run(s, p) == Run(s, q) && (Invariant(s, p) ==> Invariant(s, q))
  }

  lemma OneTurn(s: Text, p: State, q: State)
    requires p.cur <= |s| && Turn(s, p) == Next(q)
    ensures GetsTo(s, p, q)
  {
    hide Turn, Invariant;
    TurnDecreases(s, p);
    if Invariant(s, p) {
      TurnKeepsInvariant(s, p);
    }
  }

  lemma NameIsNoMarkup(name: Text)
    requires GoodName(name)
    ensures name != [] && name[0] != LESS_THAN && name[0] != GREATER_THAN && name[0] != SLASH
    ensures IsNameChar(Utf8ToInt(name, 0).c, false)
  {
    hide IsNameChar, Utf8ToInt;
    var cs :| IsName(name, cs);
    assert Matches(name, 0, name);
    NameStarts(name, 0, name, cs);
    NameLengthPositive(cs);
  }

  lemma NameLengthPositive(cs: seq<int>)
    requires |cs| > 0 && IsNameChar(cs[0], false)
    ensures Encoded(cs) != []
  {
  }

  /* ---- start tags ---- */

  lemma STagResult(s: Text, p: State, name: Text, save: nat)
    requires NextToken(s, p.cur, p.save) == Token(|name|, name, p.cur + |name|, save) && name != []
    requires var u := NextToken(s, p.cur + |name|, p.cur + |name|);
             u.len > 0 && u.text != COMPLETETAG && u.save == p.cur + |name|
    ensures var u := NextToken(s, p.cur + |name|, p.cur + |name|);
            var r := ProcessSTag(s, p);
            && r.Got? && r.node == NewElement(name) && !r.etag
            && SameDocument(p, r.p)
            && (u.text == [GREATER_THAN] ==> r.p.mode == CONTENT && r.p.cur == u.cur)
            && (u.text != [GREATER_THAN] ==> r.p.mode == ATTRIBUTE && r.p.cur == p.cur + |name|)
  {
    hide NextToken;
  }

  lemma NextNodeSTag(s: Text, p: State, t: Token)
    requires At(s, p.cur) == LESS_THAN && p.mode == ELEMENT
    requires NextToken(s, p.cur, p.save) == t && t.len == 1 && t.text == [LESS_THAN]
    ensures NextNode(s, p) == ProcessSTag(s, Took(p, t))
  {
    hide NextToken, ProcessSTag;
    SpacesEnd(s, p.cur, p.cur);
  }

  /* ---- where the pieces of a printed start tag lie ---- */

  function AttrValue(a: Attr): Text {
    if a.value.Some? then a.value.value else []
  }

  /** Where the value of the first of some printed attributes starts. */
  function ValueStart(i: nat, a: Attr): nat {
    i + 1 + |a.name| + 2
  }

  /** Past the closing quote of the first of some printed attributes. */
  function ValueEnd(i: nat, a: Attr): nat {
    ValueStart(i, a) + |AttrValue(a)|
  }

  lemma AttrsUnfold(attrs: seq<Attr>)
    requires attrs != []
    ensures var a, rest := attrs[0], PrintAttrs(attrs[1..]) + [GREATER_THAN];
            PrintAttrs(attrs) + [GREATER_THAN]
            == [SPACE] + (a.name + ([EQUALS, QUOTE] + (AttrValue(a) + ([QUOTE] + rest))))
  {
    var a, rest := attrs[0], PrintAttrs(attrs[1..]);
    var gt: Text := [GREATER_THAN];
    assert PrintAttrs(attrs) + gt == [SPACE] + (PrintAttr(a) + rest) + gt;
    hide PrintAttrs;
    Assoc([SPACE], PrintAttr(a) + rest, gt);
    Assoc(PrintAttr(a), rest, gt);
    Assoc(a.name + [EQUALS, QUOTE] + AttrValue(a), [QUOTE], rest + gt);
    Assoc(a.name + [EQUALS, QUOTE], AttrValue(a), [QUOTE] + (rest + gt));
    Assoc(a.name, [EQUALS, QUOTE], AttrValue(a) + ([QUOTE] + (rest + gt)));
  }

  lemma AttrsLayout(s: Text, i: nat, attrs: seq<Attr>)
    requires attrs != [] && Matches(s, i, PrintAttrs(attrs) + [GREATER_THAN])
    ensures var a := attrs[0];
            && At(s, i) == SPACE && Matches(s, i + 1, a.name)
            && At(s, i + 1 + |a.name|) == EQUALS && At(s, i + 1 + |a.name| + 1) == QUOTE
            && Matches(s, ValueStart(i, a), AttrValue(a)) && Matches(s, ValueEnd(i, a), [QUOTE])
            && Matches(s, ValueEnd(i, a) + 1, PrintAttrs(attrs[1..]) + [GREATER_THAN])
  {
    hide PrintAttrs, AttrValue, Matches;
    var a, rest := attrs[0], PrintAttrs(attrs[1..]) + [GREATER_THAN];
    AttrsUnfold(attrs);
    var fromQuote := [QUOTE] + rest;
    var fromValue := AttrValue(a) + fromQuote;
    var fromEquals := [EQUALS, QUOTE] + fromValue;
    MatchesSplit(s, i, [SPACE], a.name + fromEquals);
    MatchesAt(s, i, [SPACE], 0);
    MatchesSplit(s, i + 1, a.name, fromEquals);
    MatchesSplit(s, i + 1 + |a.name|, [EQUALS, QUOTE], fromValue);
    MatchesAt(s, i + 1 + |a.name|, [EQUALS, QUOTE], 0);
    MatchesAt(s, i + 1 + |a.name|, [EQUALS, QUOTE], 1);
    MatchesSplit(s, ValueStart(i, a), AttrValue(a), fromQuote);
    MatchesSplit(s, ValueEnd(i, a), [QUOTE], rest);
  }

  /** The token after the name of a printed start tag. */
  lemma AfterName(s: Text, i: nat, attrs: seq<Attr>, save: nat)
    requires Matches(s, i, PrintAttrs(attrs) + [GREATER_THAN])
    requires attrs != [] ==> GoodName(attrs[0].name)
    ensures EndsName(At(s, i))
    ensures attrs == [] ==> NextToken(s, i, save) == Token(1, [GREATER_THAN], i + 1, save)
    ensures attrs != [] ==>
      && attrs[0].name != [] && attrs[0].name[0] != SLASH
      && attrs[0].name[0] != GREATER_THAN && attrs[0].name[0] != LESS_THAN
      && NextToken(s, i, save) == Token(|attrs[0].name|, attrs[0].name, i + 1 + |attrs[0].name|, save)
  {
    hide NextToken, PrintAttrs;
    if attrs == [] {
      EmptyAttrs(attrs);
      MatchesAt(s, i, PrintAttrs(attrs) + [GREATER_THAN], 0);
      DelimiterToken(s, i, save);
    } else {
      AttrsLayout(s, i, attrs);
      NameToken(s, i + 1, attrs[0].name, save);
      TokenAfterSpace(s, i, save);
      NameIsNoMarkup(attrs[0].name);
    }
  }

  lemma EmptyAttrs(attrs: seq<Attr>)
    ensures attrs == [] <==> PrintAttrs(attrs) == []
  {
  }

  lemma StartTagLayout(s: Text, i: nat, name: Text, attrs: seq<Attr>)
    requires Matches(s, i, StartTag(name, attrs))
    ensures At(s, i) == LESS_THAN && Matches(s, i + 1, name)
    ensures Matches(s, i + 1 + |name|, PrintAttrs(attrs) + [GREATER_THAN])
    ensures |StartTag(name, attrs)| == 1 + |name| + |PrintAttrs(attrs)| + 1
  {
    hide PrintAttrs;
    var tail := PrintAttrs(attrs) + [GREATER_THAN];
    Assoc([LESS_THAN], name, tail);
    MatchesSplit(s, i, [LESS_THAN], name + tail);
    MatchesAt(s, i, [LESS_THAN], 0);
    MatchesSplit(s, i + 1, name, tail);
  }

  /** A printed start tag is read in one turn, up to its attributes. */
  lemma StartTurn(s: Text, p: State, name: Text, attrs: seq<Attr>) returns (q: State)
    requires p.cur <= |s| && p.mode == ELEMENT && (p.stack == [] ==> !p.hasTop)
    requires Matches(s, p.cur, StartTag(name, attrs)) && GoodName(name)
    requires attrs != [] ==> GoodName(attrs[0].name)
    ensures GetsTo(s, p, q)
    ensures q.stack == [name] + p.stack && q.path == [Frame(name, [], [])] + p.path
    ensures q.top == p.top && q.hasTop
    ensures attrs == [] ==> q.mode == CONTENT && q.cur == p.cur + |StartTag(name, attrs)|
    ensures attrs != [] ==> q.mode == ATTRIBUTE && q.cur == p.cur + 1 + |name|
  {
    hide NextToken, NextNode, Turn, Run, PrintAttrs, StartTag, GoodName, Matches, Invariant;
    var i := p.cur;
    StartTagLayout(s, i, name, attrs);
    OpenToken(s, i, name, p.save);
    var t := NextToken(s, i, p.save);
    AfterName(s, i + 1 + |name|, attrs, i + 1 + |name|);
    NameToken(s, i + 1, name, p.save);
    var r := StartNode(s, p, name, t);
    q := StartBuild(s, p, r);
    OneTurn(s, p, q);
    EmptyAttrs(attrs);
  }

  lemma StartNode(s: Text, p: State, name: Text, t: Token) returns (r: NodeResult)
    requires p.mode == ELEMENT && At(s, p.cur) == LESS_THAN
    requires t == NextToken(s, p.cur, p.save) == Token(1, [LESS_THAN], p.cur + 1, p.save)
    requires NextToken(s, p.cur + 1, p.save) == Token(|name|, name, p.cur + 1 + |name|, p.save) && name != []
    requires var u := NextToken(s, p.cur + 1 + |name|, p.cur + 1 + |name|);
             u.len > 0 && u.text != COMPLETETAG && u.save == p.cur + 1 + |name|
    ensures r == NextNode(s, p)
    ensures var u := NextToken(s, p.cur + 1 + |name|, p.cur + 1 + |name|);
            && r.Got? && r.node == NewElement(name) && !r.etag
            && SameDocument(p, r.p)
            && (u.text == [GREATER_THAN] ==> r.p.mode == CONTENT && r.p.cur == u.cur)
            && (u.text != [GREATER_THAN] ==> r.p.mode == ATTRIBUTE && r.p.cur == p.cur + 1 + |name|)
  {
    hide NextNode, NextToken, ProcessSTag;
    NextNodeSTag(s, p, t);
    STagResult(s, Took(p, t), name, p.save);
    r := NextNode(s, p);
  }

  lemma StartBuild(s: Text, p: State, r: NodeResult) returns (q: State)
    requires r == NextNode(s, p) && r.Got? && r.node.NewElement? && !r.etag && SameDocument(p, r.p)
    requires p.stack == [] ==> !p.hasTop
    ensures Turn(s, p) == Next(q)
    ensures q.stack == [r.node.name] + p.stack && q.path == [Frame(r.node.name, [], [])] + p.path
    ensures q.top == p.top && q.hasTop && q.mode == r.p.mode && q.cur == r.p.cur
  {
    hide NextNode;
    q := Turn(s, p).p;
  }

  /* ---- attributes ---- */

  lemma ValueByte(s: Text, i: nat, cs: seq<int>, k: nat)
    requires IsValue(Encoded(cs), cs) && Matches(s, i, Encoded(cs)) && k < |Encoded(cs)|
    ensures var b := At(s, i + k);
            b != 0 && b != QUOTE && b != LESS_THAN && b != AMPERSAND
  {
    EncodedByte(cs, k);
    MatchesAt(s, i, Encoded(cs), k);
    hide Encoded;
  }

  /** The scanner on one printed attribute. */
  lemma AttrValueScan(s: Text, i: nat, a: Attr)
    requires GoodValue(a.value)
    requires Matches(s, ValueStart(i, a), AttrValue(a)) && Matches(s, ValueEnd(i, a), [QUOTE])
    ensures EndQuote(s, ValueStart(i, a), [QUOTE]) == Some(ValueEnd(i, a))
    ensures ValueAllowed(s, ValueStart(i, a), ValueEnd(i, a))
    ensures ValueEnd(i, a) == ValueStart(i, a) <==> a.value == None
    ensures a.value.Some? ==> CopyFrom(s, ValueStart(i, a), ValueEnd(i, a)) == Copied(true, a.value.value)
  {
    hide Find, CopyFrom, ValueAllowed, Encoded, Matches;
    var start, end := ValueStart(i, a), ValueEnd(i, a);
    if a.value.Some? {
      var cs :| IsValue(a.value.value, cs);
      forall k | start <= k < end
        ensures At(s, k) != 0 && At(s, k) != QUOTE && At(s, k) != LESS_THAN && At(s, k) != AMPERSAND
      {
        ValueByte(s, start, cs, k - start);
      }
      CopyInvertsWriting(s, start, cs, false);
    }
    FoundAt(s, start, end, [QUOTE]);
    AllAllowed(s, start, end);
  }

  lemma {:induction false} AllAllowed(s: Text, i: nat, end: nat)
    requires forall k :: i <= k < end ==> At(s, k) != LESS_THAN && At(s, k) != AMPERSAND
    ensures ValueAllowed(s, i, end)
    decreases end - i
  {
    if i < end {
      AllAllowed(s, i + 1, end);
    }
  }

  lemma AttrNode(s: Text, p: State, a: Attr, t: Token)
    requires p.mode == ATTRIBUTE && At(s, p.cur) == SPACE && PlainStart(At(s, p.cur + 1))
    requires t == NextToken(s, p.cur + 1, p.save) == Token(|a.name|, a.name, p.cur + 1 + |a.name|, p.save)
    requires a.name != [] && a.name[0] != LESS_THAN && a.name[0] != GREATER_THAN && a.name[0] != SLASH
    ensures NextNode(s, p) == ProcessAttribute(s, Took(p, t))
  {
    hide NextToken, ProcessAttribute;
    SpacesEnd(s, p.cur, p.cur + 1);
  }

  lemma AttrResult(s: Text, p: State, i: nat, a: Attr)
    requires p.tokenBuf == a.name != [] && p.cur == i + 1 + |a.name|
    requires IsNameChar(Utf8ToInt(a.name, 0).c, false)
    requires NextToken(s, p.cur, p.save) == Token(1, [EQUALS], p.cur + 1, p.save)
    requires NextToken(s, p.cur + 1, p.save) == Token(1, [QUOTE], ValueStart(i, a), p.save)
    requires EndQuote(s, ValueStart(i, a), [QUOTE]) == Some(ValueEnd(i, a))
    requires ValueAllowed(s, ValueStart(i, a), ValueEnd(i, a))
    requires ValueEnd(i, a) == ValueStart(i, a) <==> a.value == None
    requires a.value.Some? ==> CopyFrom(s, ValueStart(i, a), ValueEnd(i, a)) == Copied(true, a.value.value)
    requires var n := NextToken(s, ValueEnd(i, a) + 1, ValueEnd(i, a) + 1);
             n.len > 0 && n.text != [LESS_THAN] && n.save == ValueEnd(i, a) + 1
    ensures var n := NextToken(s, ValueEnd(i, a) + 1, ValueEnd(i, a) + 1);
            var r := ProcessAttribute(s, p);
            && r.Got? && r.node == NewAttr(a) && !r.etag && SameDocument(p, r.p)
            && (n.text == [GREATER_THAN] ==> r.p.mode == CONTENT && r.p.cur == n.cur)
            && (n.text != [GREATER_THAN] ==> r.p.mode == p.mode && r.p.cur == ValueEnd(i, a) + 1)
  {
    hide NextToken, EndQuote, ValueAllowed, CopyFrom, IsNameChar, Utf8ToInt;
  }

  /** One printed attribute is read in one turn. */
  lemma AttrTurn(s: Text, p: State, attrs: seq<Attr>) returns (q: State)
    requires p.cur <= |s| && p.mode == ATTRIBUTE && attrs != []
    requires Matches(s, p.cur, PrintAttrs(attrs) + [GREATER_THAN])
    requires GoodName(attrs[0].name) && GoodValue(attrs[0].value)
    requires |attrs| > 1 ==> GoodName(attrs[1].name)
    requires p.path != [] && !HasAttr(p.path[0].attrs, attrs[0].name)
    ensures GetsTo(s, p, q) && q.stack == p.stack && q.top == p.top && q.hasTop == p.hasTop
    ensures q.path == [p.path[0].(attrs := p.path[0].attrs + [attrs[0]])] + p.path[1..]
    ensures |attrs| == 1 ==> q.mode == CONTENT && q.cur == p.cur + |PrintAttrs(attrs)| + 1
    ensures |attrs| > 1 ==>
      && q.mode == ATTRIBUTE && q.cur + |PrintAttrs(attrs[1..])| == p.cur + |PrintAttrs(attrs)|
      && Matches(s, q.cur, PrintAttrs(attrs[1..]) + [GREATER_THAN])
  {
    hide NextToken, NextNode, ProcessAttribute, Turn, Run, PrintAttrs, GoodName, GoodValue, Matches,
         EndQuote, ValueAllowed, CopyFrom, IsNameChar, Utf8ToInt, Invariant;
    var i, a := p.cur, attrs[0];
    AttrsLayout(s, i, attrs);
    AttrsUnfold(attrs);
    NameToken(s, i + 1, a.name, p.save);
    NameIsNoMarkup(a.name);
    var t := NextToken(s, i + 1, p.save);
    AttrNode(s, p, a, t);
    var p1 := Took(p, t);
    DelimiterToken(s, p1.cur, p.save);
    DelimiterToken(s, p1.cur + 1, p.save);
    AttrValueScan(s, i, a);
    AfterName(s, ValueEnd(i, a) + 1, attrs[1..], ValueEnd(i, a) + 1);
    AttrResult(s, p1, i, a);
    q := AttrBuild(s, p, a, NextNode(s, p));
    OneTurn(s, p, q);
    EmptyAttrs(attrs[1..]);
  }

  lemma AttrBuild(s: Text, p: State, a: Attr, r: NodeResult) returns (q: State)
    requires r == NextNode(s, p) && r.Got? && r.node == NewAttr(a) && !r.etag && SameDocument(p, r.p)
    requires p.path != [] && !HasAttr(p.path[0].attrs, a.name)
    ensures Turn(s, p) == Next(q)
    ensures q == r.p.(path := [p.path[0].(attrs := p.path[0].attrs + [a])] + p.path[1..])
  {
    hide NextNode, HasAttr;
    q := Turn(s, p).p;
  }

  /** All the printed attributes of an element are read, in order. */
  lemma {:induction false} AttrsRun(s: Text, p: State, attrs: seq<Attr>, all: seq<Attr>) returns (q: State)
    requires p.cur <= |s| && p.mode == ATTRIBUTE && attrs != []
    requires Matches(s, p.cur, PrintAttrs(attrs) + [GREATER_THAN])
    requires p.path != [] && all == p.path[0].attrs + attrs && GoodAttrs(all)
    ensures GetsTo(s, p, q) && q.stack == p.stack && q.top == p.top && q.hasTop == p.hasTop
    ensures q.path == [p.path[0].(attrs := all)] + p.path[1..]
    ensures q.mode == CONTENT && q.cur == p.cur + |PrintAttrs(attrs)| + 1
    decreases |attrs|
  {
    hide Run, PrintAttrs, GoodName, GoodValue, Matches, Invariant;
    var done := p.path[0].attrs;
    assert all[|done|] == attrs[0] && (|attrs| > 1 ==> all[|done| + 1] == attrs[1]);
    forall k | 0 <= k < |done| ensures done[k].name != attrs[0].name {
      assert all[k] == done[k];
    }
    q := AttrTurn(s, p, attrs);
    if |attrs| > 1 {
      assert all == (done + [attrs[0]]) + attrs[1..];
      q := AttrsRun(s, q, attrs[1..], all);
    } else {
      assert all == done + [attrs[0]];
    }
  }
}
