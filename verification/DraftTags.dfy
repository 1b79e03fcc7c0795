/** Reading tags and attributes however they are laid out. */
module DraftTags {
  import opened Bytes
  import opened Utf8
  import opened Escape
  import opened Names
  import opened Scanner
  import opened XmlTree
  import opened Printer
  import opened ParserSpec
  import opened ParserInvariant
  import opened RoundTrip
  import opened Reparse
  import opened ReparseTree
  import opened Drafts
  import opened DraftChars

  /* ---- tokens ---- */

  lemma TokenAfterSpaces(s: Text, i: nat, j: nat, save: nat)
    requires SpacesBetween(s, i, j) && PlainStart(At(s, j))
    ensures NextToken(s, i, save) == NextToken(s, j, save)
  {
    hide TokenLength, CopyFrom;
    if i < j {
      PlainMisc(s, j);
      SpacesEnd(s, i, j);
      assert IsSpace(At(s, i)) && Lower(At(s, i)) != LESS_THAN;
    }
  }

  ghost predicate NameAt(s: Text, j: nat, name: Text) {
    GoodName(name) && Matches(s, j, name) && EndsName(At(s, j + |name|))
  }

  /** What may come next in a start tag: its end, or the name of an attribute. */
  ghost predicate TagNext(s: Text, j: nat) {
    At(s, j) == GREATER_THAN || Matches(s, j, COMPLETETAG) || exists name: Text :: NameAt(s, j, name)
  }

  lemma CompleteToken(s: Text, j: nat, save: nat)
    requires Matches(s, j, COMPLETETAG)
    ensures NextToken(s, j, save) == Token(2, COMPLETETAG, j + 2, j) && PlainStart(At(s, j)) && At(s, j) == SLASH
  {
    hide SkipMisc, CopyFrom, NextToken;
    MatchesAt(s, j, COMPLETETAG, 0);
    MatchesAt(s, j, COMPLETETAG, 1);
    PlainMisc(s, j);
    CopyDelimiters(s, j, 2);
    TokenAt(s, j, save, 2, COMPLETETAG);
  }

  lemma NextInTag(s: Text, k: nat, j: nat, save: nat)
    requires SpacesBetween(s, k, j) && TagNext(s, j)
    ensures var t := NextToken(s, k, save);
            && t.len > 0 && PlainStart(At(s, j)) && t.text != [LESS_THAN]
            && if At(s, j) == GREATER_THAN then t == Token(1, [GREATER_THAN], j + 1, save)
               else if Matches(s, j, COMPLETETAG) then t == Token(2, COMPLETETAG, j + 2, j)
               else t.text != [GREATER_THAN] && t.text != COMPLETETAG && t.save == save
  {
    hide NextToken, GoodName;
    if At(s, j) == GREATER_THAN {
      DelimiterToken(s, j, save);
    } else if Matches(s, j, COMPLETETAG) {
      CompleteToken(s, j, save);
    } else {
      var name :| NameAt(s, j, name);
      NameToken(s, j, name, save);
      NameIsNoMarkup(name);
    }
    TokenAfterSpaces(s, k, j, save);
  }

  /* ---- start tags ---- */

  lemma STagAt(s: Text, p: State, name: Text, save: nat, j: nat)
    requires NextToken(s, p.cur, p.save) == Token(|name|, name, p.cur + |name|, save) && name != []
    requires SpacesBetween(s, p.cur + |name|, j) && TagNext(s, j)
    ensures var r := ProcessSTag(s, p);
            && r.Got? && r.node == NewElement(name) && !r.etag && SameDocument(p, r.p)
            && if At(s, j) == GREATER_THAN then r.p.mode == CONTENT && r.p.cur == j + 1
               else if Matches(s, j, COMPLETETAG) then r.p.mode == ELEMENT && r.p.cur == j
               else r.p.mode == ATTRIBUTE && r.p.cur == p.cur + |name|
  {
    hide NextToken, TagNext, Matches;
    NextInTag(s, p.cur + |name|, j, p.cur + |name|);
  }

  /** A start tag is read in one turn, up to its attributes. */
  lemma StartTagTurn(s: Text, p: State, name: Text, j: nat) returns (q: State)
    requires p.cur <= |s| && p.mode == ELEMENT && (p.stack == [] ==> !p.hasTop)
    requires At(s, p.cur) == LESS_THAN && NameAt(s, p.cur + 1, name)
    requires SpacesBetween(s, p.cur + 1 + |name|, j) && TagNext(s, j)
    ensures GetsTo(s, p, q)
    ensures q.stack == [name] + p.stack && q.path == [Frame(name, [], [])] + p.path && q.top == p.top && q.hasTop
    ensures if At(s, j) == GREATER_THAN then q.mode == CONTENT && q.cur == j + 1
            else if Matches(s, j, COMPLETETAG) then q.mode == ELEMENT && q.cur == j
            else q.mode == ATTRIBUTE && q.cur == p.cur + 1 + |name|
  {
    hide NextToken, NextNode, Turn, Run, GoodName, Matches, Invariant, TagNext, ProcessSTag;
    OpenToken(s, p.cur, name, p.save);
    NameToken(s, p.cur + 1, name, p.save);
    var t := NextToken(s, p.cur, p.save);
    NextNodeSTag(s, p, t);
    STagAt(s, Took(p, t), name, p.save, j);
    q := StartBuild(s, p, NextNode(s, p));
    OneTurn(s, p, q);
  }

  /* ---- attributes ---- */

  /** Where the parts of an attribute lie: the equals sign, the quote, the value and its end. */
  lemma AttrLaidOut(s: Text, i: nat, a: DraftAttr)
    requires Matches(s, i, SpellAttr(a)) && White(a.before) && White(a.after)
    ensures var eq := i + |a.name| + |a.before|;
            var quote := eq + 1 + |a.after|;
            var end := quote + 1 + |SpelledAll(a.value)|;
            && Matches(s, i, a.name) && SpacesBetween(s, i + |a.name|, eq) && At(s, eq) == EQUALS
            && SpacesBetween(s, eq + 1, quote) && At(s, quote) == a.quote
            && Matches(s, quote + 1, SpelledAll(a.value)) && At(s, end) == a.quote
            && end + 1 == i + |SpellAttr(a)| && Matches(s, end, [a.quote])
  {
    hide Matches, SpelledAll, White, SpacesBetween;
    var back := AttrBack(a);
    AttrLength(a);
    var eq := i + |a.name| + |a.before|;
    MatchesSplit(s, i, a.name, a.before + ([EQUALS] + (a.after + back)));
    SpacesThen(s, i + |a.name|, a.before, EQUALS, a.after + back);
    var quote := eq + 1 + |a.after|;
    SpacesThen(s, eq + 1, a.after, a.quote, SpelledAll(a.value) + [a.quote]);
    MatchesSplit(s, quote + 1, SpelledAll(a.value), [a.quote]);
    MatchesAt(s, quote + 1 + |SpelledAll(a.value)|, [a.quote], 0);
  }

  function AttrBack(a: DraftAttr): Text {
    [a.quote] + (SpelledAll(a.value) + [a.quote])
  }

  lemma AttrLength(a: DraftAttr)
    ensures |SpellAttr(a)| == |a.name| + |a.before| + 1 + |a.after| + 1 + |SpelledAll(a.value)| + 1
  {
    hide SpelledAll;
  }

  /** White space, one byte, and the rest. */
  lemma SpacesThen(s: Text, i: nat, gap: Text, b: Byte, rest: Text)
    requires Matches(s, i, gap + ([b] + rest)) && White(gap)
    ensures SpacesBetween(s, i, i + |gap|) && At(s, i + |gap|) == b && Matches(s, i + |gap| + 1, rest)
  {
    hide Matches, White, SpacesBetween;
    MatchesSplit(s, i, gap, [b] + rest);
    WhiteBetween(s, i, gap);
    MatchesSplit(s, i + |gap|, [b], rest);
    MatchesAt(s, i + |gap|, [b], 0);
  }

  lemma WhiteBetween(s: Text, i: nat, t: Text)
    requires Matches(s, i, t) && White(t)
    ensures SpacesBetween(s, i, i + |t|)
  {
    forall k | i <= k < i + |t| ensures IsSpace(At(s, k)) {
      MatchesAt(s, i, t, k - i);
    }
  }

  /** The scanner on the value of an attribute. */
  lemma ValueScan(s: Text, start: nat, a: DraftAttr)
    requires GoodDraftAttr(a) && Matches(s, start, SpelledAll(a.value))
    requires Matches(s, start + |SpelledAll(a.value)|, [a.quote])
    ensures var end := start + |SpelledAll(a.value)|;
            && EndQuote(s, start, [a.quote]) == Some(end) && ValueAllowed(s, start, end)
            && (end == start <==> a.value == [])
            && CopyFrom(s, start, end) == Copied(true, Encoded(Values(a.value)))
  {
    hide Find, CopyFrom, ValueAllowed, Encoded, Matches, GoodName, SpelledAll, Values;
    var v, end := SpelledAll(a.value), start + |SpelledAll(a.value)|;
    forall k | start <= k < end ensures At(s, k) != 0 && At(s, k) != a.quote && At(s, k) != LESS_THAN {
      SpelledByte(a.value, k - start);
      MatchesAt(s, start, v, k - start);
    }
    FoundAt(s, start, end, [a.quote]);
    NoLessThan(s, start, end);
    CopySpelled(s, start, a.value);
    SpelledNothing(a.value);
  }

  lemma SpelledNothing(cs: seq<Char>)
    requires GoodChars(cs)
    ensures SpelledAll(cs) == [] <==> cs == []
  {
    if cs != [] {
      SpelledSome(cs[0]);
    }
    hide Spelled, GoodChar;
  }

  lemma {:induction false} NoLessThan(s: Text, i: nat, end: nat)
    requires forall k :: i <= k < end ==> At(s, k) != LESS_THAN
    ensures ValueAllowed(s, i, end)
    decreases end - i
  {
    if i < end {
      NoLessThan(s, if At(s, i) == AMPERSAND then i + 2 else i + 1, end);
    }
  }

  lemma AttrNodeAt(s: Text, p: State, i: nat, name: Text, t: Token)
    requires p.mode == ATTRIBUTE && SpacesBetween(s, p.cur, i) && PlainStart(At(s, i))
    requires t == NextToken(s, i, p.save) == Token(|name|, name, i + |name|, p.save)
    requires name != [] && name[0] != LESS_THAN && name[0] != GREATER_THAN && name[0] != SLASH
    ensures NextNode(s, p) == ProcessAttribute(s, Took(p, t))
  {
    hide NextToken, ProcessAttribute;
    SpacesEnd(s, p.cur, i);
    assert At(s, p.cur) != 0;
  }

  lemma AttrResultAt(s: Text, p: State, eq: nat, start: nat, end: nat, quote: Byte, value: seq<Char>, j: nat)
    requires p.tokenBuf != [] && IsNameChar(Utf8ToInt(p.tokenBuf, 0).c, false)
    requires NextToken(s, p.cur, p.save) == Token(1, [EQUALS], eq + 1, p.save)
    requires NextToken(s, eq + 1, p.save) == Token(1, [quote], start, p.save)
    requires quote == QUOTE || quote == SINGLE_QUOTE
    requires EndQuote(s, start, [quote]) == Some(end) && ValueAllowed(s, start, end)
    requires end == start <==> value == []
    requires CopyFrom(s, start, end) == Copied(true, Encoded(Values(value)))
    requires SpacesBetween(s, end + 1, j) && TagNext(s, j)
    ensures var r := ProcessAttribute(s, p);
            && r.Got? && !r.etag && SameDocument(p, r.p)
            && r.node == NewAttr(Attr(p.tokenBuf, if value == [] then None else Some(Encoded(Values(value)))))
            && if At(s, j) == GREATER_THAN then r.p.mode == CONTENT && r.p.cur == j + 1
               else if Matches(s, j, COMPLETETAG) then r.p.mode == p.mode && r.p.cur == j
               else r.p.mode == p.mode && r.p.cur == end + 1
  {
    hide NextToken, EndQuote, ValueAllowed, CopyFrom, IsNameChar, Utf8ToInt, TagNext, Matches, Encoded, Values;
    NextInTag(s, end + 1, j, end + 1);
  }

  /** One attribute is read in one turn. */
  lemma AttrTurnAt(s: Text, p: State, i: nat, a: DraftAttr, j: nat) returns (q: State)
    requires p.cur <= |s| && p.mode == ATTRIBUTE && SpacesBetween(s, p.cur, i) && Matches(s, i, SpellAttr(a))
    requires GoodDraftAttr(a) && SpacesBetween(s, i + |SpellAttr(a)|, j) && TagNext(s, j)
    requires p.path != [] && !HasAttr(p.path[0].attrs, a.name)
    ensures GetsTo(s, p, q) && q.stack == p.stack && q.top == p.top && q.hasTop == p.hasTop
    ensures q.path == [p.path[0].(attrs := p.path[0].attrs + [AttrMeant(a)])] + p.path[1..]
    ensures if At(s, j) == GREATER_THAN then q.mode == CONTENT && q.cur == j + 1
            else if Matches(s, j, COMPLETETAG) then q.mode == ATTRIBUTE && q.cur == j
            else q.mode == ATTRIBUTE && q.cur == i + |SpellAttr(a)|
  {
    hide NextToken, NextNode, ProcessAttribute, Turn, Run, GoodName, Matches, EndQuote, ValueAllowed, CopyFrom,
         IsNameChar, Utf8ToInt, Invariant, TagNext, SpellAttr, SpelledAll, Values, Encoded, HasAttr;
    AttrLaidOut(s, i, a);
    var eq := i + |a.name| + |a.before|;
    var quote := eq + 1 + |a.after|;
    var end := quote + 1 + |SpelledAll(a.value)|;
    SpaceOr(s, i + |a.name|, eq);
    NameToken(s, i, a.name, p.save);
    NameIsNoMarkup(a.name);
    var t := NextToken(s, i, p.save);
    AttrNodeAt(s, p, i, a.name, t);
    var p1 := Took(p, t);
    DelimiterToken(s, eq, p.save);
    TokenAfterSpaces(s, p1.cur, eq, p.save);
    DelimiterToken(s, quote, p.save);
    TokenAfterSpaces(s, eq + 1, quote, p.save);
    ValueScan(s, quote + 1, a);
    AttrResultAt(s, p1, eq, quote + 1, end, a.quote, a.value, j);
    q := AttrBuild(s, p, AttrMeant(a), NextNode(s, p));
    OneTurn(s, p, q);
  }

  /** After some white space, if any, before an equals sign the first byte ends a name. */
  lemma SpaceOr(s: Text, i: nat, j: nat)
    requires SpacesBetween(s, i, j) && At(s, j) == EQUALS
    ensures EndsName(At(s, i))
  {
  }
}
