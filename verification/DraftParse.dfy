/** Parsing a document however it is written. */
module DraftParse {
  import opened Bytes
  import opened Utf8
  import opened Escape
  import opened Names
  import opened Scanner
  import opened XmlTree
  import opened Printer
  import opened ParserSpec
  import opened ParserInvariant
  import opened RoundTrip
  import opened Reparse
  import opened ReparseTree
  import opened Drafts
  import opened DraftChars
  import opened DraftTags

  /* ---- the whole start tag ---- */

  ghost predicate TagEnds(s: Text, j: nat) {
    At(s, j) == GREATER_THAN || Matches(s, j, COMPLETETAG)
  }

  lemma EndIsNext(s: Text, j: nat)
    requires TagEnds(s, j)
    ensures TagNext(s, j)
  {
  }

  lemma AttrsSpelled(attrs: seq<DraftAttr>)
    requires attrs != []
    ensures SpellAttrs(attrs) == attrs[0].gap + (SpellAttr(attrs[0]) + SpellAttrs(attrs[1..]))
  {
    hide SpellAttr;
  }

  lemma AttrsSplit(s: Text, i: nat, attrs: seq<DraftAttr>)
    requires attrs != [] && Matches(s, i, SpellAttrs(attrs)) && White(attrs[0].gap)
    ensures var k := i + |attrs[0].gap|;
            var e := k + |SpellAttr(attrs[0])|;
            && SpacesBetween(s, i, k) && Matches(s, k, SpellAttr(attrs[0])) && Matches(s, e, SpellAttrs(attrs[1..]))
            && e + |SpellAttrs(attrs[1..])| == i + |SpellAttrs(attrs)|
  {
    AttrsSpelled(attrs);
    hide Matches, SpellAttr, SpellAttrs, White, SpacesBetween;
    var a := attrs[0];
    MatchesSplit(s, i, a.gap, SpellAttr(a) + SpellAttrs(attrs[1..]));
    WhiteBetween(s, i, a.gap);
    MatchesSplit(s, i + |a.gap|, SpellAttr(a), SpellAttrs(attrs[1..]));
  }

  /** The next attribute starts with its name. */
  lemma NextAttrNamed(s: Text, i: nat, a: DraftAttr)
    requires GoodDraftAttr(a) && Matches(s, i, SpellAttr(a))
    ensures NameAt(s, i, a.name) && TagNext(s, i)
  {
    hide GoodName, SpellAttr, GoodChars;
    AttrLaidOut(s, i, a);
    SpaceOr(s, i + |a.name|, i + |a.name| + |a.before|);
  }

  /** All attributes are read, in order. */
  lemma {:induction false} AttrsTurns(s: Text, p: State, i: nat, attrs: seq<DraftAttr>, j: nat) returns (q: State)
    requires p.cur <= |s| && p.mode == ATTRIBUTE && attrs != [] && SpacesBetween(s, p.cur, i)
    requires Matches(s, i, SpellAttrs(attrs)) && GoodDraftAttrs(attrs)
    requires SpacesBetween(s, i + |SpellAttrs(attrs)|, j) && TagEnds(s, j)
    requires p.path != [] && forall k :: 0 <= k < |attrs| ==> !HasAttr(p.path[0].attrs, attrs[k].name)
    ensures GetsTo(s, p, q) && q.stack == p.stack && q.top == p.top && q.hasTop == p.hasTop
    ensures q.path == [p.path[0].(attrs := p.path[0].attrs + AttrsMeant(attrs))] + p.path[1..]
    ensures if At(s, j) == GREATER_THAN then q.mode == CONTENT && q.cur == j + 1 else q.mode == ATTRIBUTE && q.cur == j
    decreases |attrs|
  {
    hide Run, Matches, SpellAttr, SpellAttrs, GoodDraftAttr, Invariant, TagNext, GoodChars;
    var a := attrs[0];
    GapWhite(a);
    AttrsSplit(s, i, attrs);
    var k := i + |a.gap|;
    var e := k + |SpellAttr(a)|;
    SpacesJoin(s, p.cur, i, k);
    if |attrs| == 1 {
      NoAttrsSpelled(attrs[1..]);
      EndIsNext(s, j);
      q := AttrTurnAt(s, p, k, a, j);
      MeantNext(p.path[0].attrs, attrs);
      assert AttrsMeant(attrs[1..]) == [];
      assert (p.path[0].attrs + [AttrMeant(a)]) + [] == p.path[0].attrs + [AttrMeant(a)];
    } else {
      var b := attrs[1];
      assert attrs[1..][0] == b;
      GapWhite(b);
      AttrsSplit(s, e, attrs[1..]);
      NextAttrNamed(s, e + |b.gap|, b);
      NameHere(s, e + |b.gap|, b.name);
      q := AttrTurnAt(s, p, k, a, e + |b.gap|);
      StillNew(p.path[0].attrs, AttrMeant(a), attrs);
      var r := AttrsTurns(s, q, e, attrs[1..], j);
      MeantNext(p.path[0].attrs, attrs);
      assert q.path[1..] == p.path[1..];
      q := r;
    }
  }

  lemma GapWhite(a: DraftAttr)
    requires GoodDraftAttr(a)
    ensures White(a.gap)
  {
  }

  lemma SpacesJoin(s: Text, i: nat, j: nat, k: nat)
    requires SpacesBetween(s, i, j) && SpacesBetween(s, j, k)
    ensures SpacesBetween(s, i, k)
  {
  }

  lemma NoAttrsSpelled(attrs: seq<DraftAttr>)
    ensures attrs == [] ==> SpellAttrs(attrs) == []
  {
  }

  /** Where a name is there is neither a `>` nor a `/>`. */
  lemma NameHere(s: Text, i: nat, name: Text)
    requires NameAt(s, i, name)
    ensures At(s, i) != GREATER_THAN && !Matches(s, i, COMPLETETAG)
  {
    var cs :| IsName(name, cs);
    NameStarts(s, i, name, cs);
    NotAt(s, i, COMPLETETAG, 0);
  }

  lemma StillNew(done: seq<Attr>, a: Attr, attrs: seq<DraftAttr>)
    requires attrs != [] && a.name == attrs[0].name && GoodDraftAttrs(attrs)
    requires forall k :: 0 <= k < |attrs| ==> !HasAttr(done, attrs[k].name)
    ensures forall k :: 0 <= k < |attrs[1..]| ==> !HasAttr(done + [a], attrs[1..][k].name)
    ensures GoodDraftAttrs(attrs[1..])
  {
    hide GoodDraftAttr;
    forall k | 0 <= k < |attrs[1..]| ensures !HasAttr(done + [a], attrs[1..][k].name) {
      assert attrs[1..][k] == attrs[k + 1] && attrs[0].name != attrs[k + 1].name;
      assert !HasAttr(done, attrs[k + 1].name);
    }
  }

  lemma MeantNext(done: seq<Attr>, attrs: seq<DraftAttr>)
    requires attrs != []
    ensures (done + [AttrMeant(attrs[0])]) + AttrsMeant(attrs[1..]) == done + AttrsMeant(attrs)
  {
  }

  /** Where the parts of a start tag lie. */
  lemma TagLaidOut(s: Text, i: nat, name: Text, attrs: seq<DraftAttr>, gap: Text, rest: Text)
    requires Matches(s, i, [LESS_THAN] + (name + (SpellAttrs(attrs) + (gap + rest)))) && White(gap)
    ensures var e := i + 1 + |name| + |SpellAttrs(attrs)|;
            && At(s, i) == LESS_THAN && Matches(s, i + 1, name) && Matches(s, i + 1 + |name|, SpellAttrs(attrs))
            && SpacesBetween(s, e, e + |gap|) && Matches(s, e + |gap|, rest)
  {
    hide Matches, SpellAttrs, White, SpacesBetween;
    var as_ := SpellAttrs(attrs);
    MatchesSplit(s, i, [LESS_THAN], name + (as_ + (gap + rest)));
    MatchesAt(s, i, [LESS_THAN], 0);
    MatchesSplit(s, i + 1, name, as_ + (gap + rest));
    MatchesSplit(s, i + 1 + |name|, as_, gap + rest);
    MatchesSplit(s, i + 1 + |name| + |as_|, gap, rest);
    WhiteBetween(s, i + 1 + |name| + |as_|, gap);
  }

  /** A byte that is a space or ends a tag ends a name. */
  lemma EndsNameHere(s: Text, i: nat, j: nat)
    requires SpacesBetween(s, i, j) && TagEnds(s, j)
    ensures EndsName(At(s, i))
  {
    if i == j && At(s, j) != GREATER_THAN {
      MatchesAt(s, j, COMPLETETAG, 0);
    }
  }

  lemma NonEmptyGap(s: Text, i: nat, j: nat)
    requires SpacesBetween(s, i, j) && i < j
    ensures EndsName(At(s, i))
  {
  }

  /** A start tag with all its attributes. */
  lemma TagOpens(s: Text, p: State, name: Text, attrs: seq<DraftAttr>, gap: Text, rest: Text) returns (q: State)
    requires p.cur <= |s| && p.mode == ELEMENT && (p.stack == [] ==> !p.hasTop)
    requires Matches(s, p.cur, [LESS_THAN] + (name + (SpellAttrs(attrs) + (gap + rest))))
    requires GoodName(name) && GoodDraftAttrs(attrs) && White(gap)
    requires TagEnds(s, p.cur + 1 + |name| + |SpellAttrs(attrs)| + |gap|)
    ensures var j := p.cur + 1 + |name| + |SpellAttrs(attrs)| + |gap|;
            if At(s, j) == GREATER_THAN then q.mode == CONTENT && q.cur == j + 1 else q.mode != CONTENT && q.cur == j
    ensures GetsTo(s, p, q) && q.stack == [name] + p.stack && q.top == p.top && q.hasTop
    ensures q.path == [Frame(name, AttrsMeant(attrs), [])] + p.path
  {
    hide Run, Matches, SpellAttr, SpellAttrs, GoodDraftAttr, Invariant, TagNext, GoodName, White, TagEnds;
    var e := p.cur + 1 + |name| + |SpellAttrs(attrs)|;
    var j := e + |gap|;
    TagLaidOut(s, p.cur, name, attrs, gap, rest);
    if attrs == [] {
      NoAttrsSpelled(attrs);
      EndsNameHere(s, p.cur + 1 + |name|, j);
      EndIsNext(s, j);
      EndsEither(s, j);
      q := StartTagTurn(s, p, name, j);
      assert AttrsMeant(attrs) == [];
    } else {
      var a, i := attrs[0], p.cur + 1 + |name|;
      GapThere(a);
      AttrsSplit(s, i, attrs);
      NonEmptyGap(s, i, i + |a.gap|);
      NextAttrNamed(s, i + |a.gap|, a);
      NameHere(s, i + |a.gap|, a.name);
      q := StartTagTurn(s, p, name, i + |a.gap|);
      NoneYet(attrs);
      var r := AttrsTurns(s, q, i, attrs, j);
      assert [] + AttrsMeant(attrs) == AttrsMeant(attrs);
      q := r;
    }
  }

  lemma EndsEither(s: Text, j: nat)
    requires TagEnds(s, j)
    ensures At(s, j) != GREATER_THAN ==> Matches(s, j, COMPLETETAG)
  {
  }

  lemma GapThere(a: DraftAttr)
    requires GoodDraftAttr(a)
    ensures White(a.gap) && a.gap != []
  {
  }

  lemma NoneYet(attrs: seq<DraftAttr>)
    ensures forall k :: 0 <= k < |attrs| ==> !HasAttr([], attrs[k].name)
  {
  }

  /* ---- how elements end ---- */

  /** An empty-element tag ends the element it opened. */
  lemma EmptyEnds(s: Text, p: State, outer: State, name: Text) returns (q: State)
    requires p.cur <= |s| && p.mode != CONTENT && Matches(s, p.cur, COMPLETETAG) && Invariant(s, p)
    requires p.stack == [name] + outer.stack && p.hasTop && p.top == outer.top
    requires p.path != [] && p.path[0].name == name && p.path[1..] == outer.path
    ensures GetsTo(s, p, q) && WithKids(outer, q, [Closed(p.path[0])])
    ensures q.mode == CONTENT && q.cur == p.cur + 2
  {
    hide NextToken, NextNode, Run, Turn, Matches, Invariant;
    CompleteToken(s, p.cur, p.save);
    SpacesEnd(s, p.cur, p.cur);
    CompleteTagMatches(s, p);
    CompleteNode(s, p, name);
    q := EndBuild(s, p, NextNode(s, p), name);
    OneTurn(s, p, q);
    assert p.stack[1..] == outer.stack;
    assert |p.path| > 1 ==> p.path[1] == outer.path[0] && p.path[2..] == outer.path[1..];
  }

  lemma CompleteNode(s: Text, p: State, name: Text)
    requires p.mode != CONTENT && At(s, p.cur) == SLASH && p.lastElem == Some(name)
    requires NextToken(s, p.cur, p.save) == Token(2, COMPLETETAG, p.cur + 2, p.cur)
    ensures var r := NextNode(s, p);
            && r.Got? && r.node == NewElement(name) && r.etag && SameDocument(p, r.p) && r.p.cur == p.cur + 2
  {
    hide NextToken;
    SpacesEnd(s, p.cur, p.cur);
  }

  lemma EndNodeAt(s: Text, p: State, name: Text, j: nat)
    requires p.mode == ELEMENT && At(s, p.cur) == LESS_THAN && name != []
    requires NextToken(s, p.cur, p.save) == Token(2, ENDTAG, p.cur + 2, p.save)
    requires NextToken(s, p.cur + 2, p.save) == Token(|name|, name, p.cur + 2 + |name|, p.save)
    requires SpacesBetween(s, p.cur + 2 + |name|, j) && At(s, j) == GREATER_THAN
    requires NextToken(s, j, p.save) == Token(1, [GREATER_THAN], j + 1, p.save)
    ensures var r := NextNode(s, p);
            && r.Got? && r.node == NewElement(name) && r.etag && SameDocument(p, r.p) && r.p.cur == j + 1
  {
    hide NextToken;
    SpacesEnd(s, p.cur, p.cur);
    SpacesEnd(s, p.cur + 2 + |name|, j);
  }

  lemma EndLaidOut(s: Text, i: nat, name: Text, gap: Text)
    requires Matches(s, i, SpellEnd(name, gap)) && White(gap)
    ensures var j := i + 2 + |name| + |gap|;
            && Matches(s, i, ENDTAG) && Matches(s, i + 2, name) && SpacesBetween(s, i + 2 + |name|, j)
            && At(s, j) == GREATER_THAN && j + 1 == i + |SpellEnd(name, gap)|
  {
    hide Matches, White, SpacesBetween;
    MatchesSplit(s, i, ENDTAG, name + (gap + [GREATER_THAN]));
    MatchesSplit(s, i + 2, name, gap + [GREATER_THAN]);
    MatchesSplit(s, i + 2 + |name|, gap, [GREATER_THAN]);
    WhiteBetween(s, i + 2 + |name|, gap);
    MatchesAt(s, i + 2 + |name| + |gap|, [GREATER_THAN], 0);
  }

  /** An end tag, with white space in it, closes the open element. */
  lemma EndTagTurn(s: Text, p: State, outer: State, name: Text, gap: Text) returns (q: State)
    requires p.cur <= |s| && p.mode == ELEMENT && GoodName(name) && White(gap) && Matches(s, p.cur, SpellEnd(name, gap))
    requires p.stack == [name] + outer.stack && p.hasTop && p.top == outer.top
    requires p.path != [] && p.path[0].name == name && p.path[1..] == outer.path
    ensures GetsTo(s, p, q) && WithKids(outer, q, [Closed(p.path[0])])
    ensures q.mode == CONTENT && q.cur == p.cur + |SpellEnd(name, gap)|
  {
    hide NextToken, NextNode, Run, Turn, GoodName, Matches, SpellEnd, Invariant, White;
    var i := p.cur;
    var j := i + 2 + |name| + |gap|;
    EndLaidOut(s, i, name, gap);
    MatchesAt(s, i, ENDTAG, 0);
    CloseToken(s, i, p.save);
    EndsNameBefore(s, i + 2 + |name|, j);
    NameToken(s, i + 2, name, p.save);
    DelimiterToken(s, j, p.save);
    EndNodeAt(s, p, name, j);
    q := EndBuild(s, p, NextNode(s, p), name);
    OneTurn(s, p, q);
    assert p.stack[1..] == outer.stack;
    assert |p.path| > 1 ==> p.path[1] == outer.path[0] && p.path[2..] == outer.path[1..];
  }

  lemma EndsNameBefore(s: Text, i: nat, j: nat)
    requires SpacesBetween(s, i, j) && At(s, j) == GREATER_THAN
    ensures EndsName(At(s, i))
  {
  }

  /* ---- between tags ---- */

  /** No occurrence of three bytes starts before the last one. */
  lemma CommentFound(s: Text, i: nat, t: Text)
    requires GoodComment(t) && Matches(s, i, BEGIN_COMMENT + (t + END_COMMENT))
    ensures SkipComment(s, i) == Skipped(true, i + 7 + |t|) && Matches(s, i, BEGIN_COMMENT)
  {
    CommentEnds(s, i, t);
    hide Contains, Matches, Find;
    MatchesSplit(s, i, BEGIN_COMMENT, t + END_COMMENT);
    MatchesSplit(s, i + 4, t, END_COMMENT);
    MatchesAt(s, i + 4, t, |t| - 1);
  }

  lemma CommentEnds(s: Text, i: nat, t: Text)
    requires GoodComment(t) && Matches(s, i, BEGIN_COMMENT + (t + END_COMMENT))
    ensures Find(s, i, END_COMMENT) == i + 4 + |t| && At(s, i + 4 + |t|) != 0
  {
    hide Contains, Matches, Find;
    var e := i + 4 + |t|;
    var inner := [0x2D, 0x2D] + t;
    assert BEGIN_COMMENT + (t + END_COMMENT) == [0x3C, 0x21] + (inner + END_COMMENT);
    MatchesSplit(s, i, BEGIN_COMMENT, t + END_COMMENT);
    MatchesSplit(s, i, [0x3C, 0x21], inner + END_COMMENT);
    MatchesSplit(s, i + 2, inner, END_COMMENT);
    MatchesAt(s, i, [0x3C, 0x21], 0);
    MatchesAt(s, i, [0x3C, 0x21], 1);
    MatchesAt(s, e, END_COMMENT, 0);
    MatchesAt(s, e, END_COMMENT, 1);
    forall k | i <= k < e ensures !Matches(s, k, END_COMMENT) && At(s, k) != 0 {
      if k < i + 2 {
        NotAt(s, k, END_COMMENT, 0);
      } else {
        NoCommentEnd(s, i + 2, inner, k);
      }
    }
    FindsFirst(s, i, e, END_COMMENT);
  }

  lemma NoCommentEnd(s: Text, i: nat, inner: Text, k: nat)
    requires Matches(s, i, inner) && !Contains(inner, END_COMMENT) && 0 !in inner && i <= k < i + |inner|
    requires At(s, i + |inner|) == 0x2D && At(s, i + |inner| + 1) == 0x2D
    ensures !Matches(s, k, END_COMMENT) && At(s, k) != 0
  {
    hide Contains, Matches;
    MatchesAt(s, i, inner, k - i);
    HyphenThird(s, i, |inner|, k);
    NotInside(s, i, inner, k, END_COMMENT);
  }

  /** An occurrence that reaches beyond the text has a hyphen where the `>` should be. */
  lemma HyphenThird(s: Text, i: nat, n: nat, k: nat)
    requires i <= k < i + n && At(s, i + n) == 0x2D && At(s, i + n + 1) == 0x2D
    ensures k + |END_COMMENT| > i + n ==> exists j :: 0 <= j < |END_COMMENT| && At(s, k + j) != END_COMMENT[j]
  {
    if k + 3 > i + n {
      assert At(s, k + 2) != END_COMMENT[2];
    }
  }

  lemma FindsFirst(s: Text, i: nat, e: nat, t: Text)
    requires i <= e && At(s, e) != 0 && Matches(s, e, t)
    requires forall k :: i <= k < e ==> !Matches(s, k, t) && At(s, k) != 0
    ensures Find(s, i, t) == e
  {
    hide Matches;
    var f := Find(s, i, t);
  }

  /** What does not occur in a text does not occur there; nor may it begin there and end in what follows. */
  lemma NotInside(s: Text, i: nat, inner: Text, k: nat, t: Text)
    requires Matches(s, i, inner) && !Contains(inner, t) && i <= k && t != []
    requires k + |t| > i + |inner| ==> exists j :: 0 <= j < |t| && At(s, k + j) != t[j]
    ensures !Matches(s, k, t)
  {
    if Matches(s, k, t) {
      if k + |t| <= i + |inner| {
        SliceOfSlice(s, i, |inner|, k - i, |t|);
        assert Matches(inner, k - i, t);
      } else {
        var j :| 0 <= j < |t| && At(s, k + j) != t[j];
        NotAt(s, k, t, j);
      }
    }
  }

  lemma SliceOfSlice(s: Text, i: nat, n: nat, a: nat, m: nat)
    requires i + n <= |s| && a + m <= n
    ensures s[i..i + n][a..a + m] == s[i + a..i + a + m]
  {
    var whole, left, right := s[i..i + n], s[i..i + n][a..a + m], s[i + a..i + a + m];
    assert forall k :: 0 <= k < m ==> left[k] == whole[a + k] == s[i + a + k] == right[k];
    assert left == right;
  }

  lemma CommentTurn(s: Text, p: State, j: nat, t: Text) returns (q: State)
    requires p.cur <= |s| && p.mode == CONTENT && SpacesBetween(s, p.cur, j)
    requires GoodComment(t) && Matches(s, j, BEGIN_COMMENT + (t + END_COMMENT))
    ensures GetsTo(s, p, q) && q == p.(save := p.cur, cur := j + 7 + |t|)
  {
    hide SkipComment, SkipPI, Matches, ContentEnd, CopyFrom, NextToken, Run, Invariant, GoodComment;
    CommentFound(s, j, t);
    MatchesAt(s, j, BEGIN_COMMENT, 0);
    MatchesAt(s, j, BEGIN_COMMENT, 2);
    SpacesEnd(s, p.cur, j);
    NotAt(s, j, CDSTART, 2);
    q := p.(save := p.cur, cur := j + 7 + |t|);
    assert At(s, p.cur) != 0;
    assert ProcessContent(s, p) == Got(q, Nothing, false);
    OneTurn(s, p, q);
  }

  lemma InstructionFound(s: Text, i: nat, t: Text)
    requires GoodInstruction(t) && Matches(s, i, BEGIN_PI + (t + END_PI))
    ensures Find(s, i, END_PI) == i + 2 + |t| && At(s, i + 2 + |t|) == 0x3F
    ensures Matches(s, i, BEGIN_PI) && !AtXmlDecl(s, i) && MatchesNoCase(s, i, BEGIN_PI)
  {
    InstructionEnds(s, i, t);
    NoDeclaration(s, i, t);
    hide Find, Contains, AtXmlDecl, MatchesNoCase, Matches;
    MatchesSplit(s, i, BEGIN_PI, t + END_PI);
    MatchesIgnoringCase(s, i, BEGIN_PI);
  }

  lemma InstructionEnds(s: Text, i: nat, t: Text)
    requires GoodInstruction(t) && Matches(s, i, BEGIN_PI + (t + END_PI))
    ensures Find(s, i, END_PI) == i + 2 + |t| && At(s, i + 2 + |t|) == 0x3F
  {
    hide Contains, Matches, Find, IsDeclaration;
    var e := i + 2 + |t|;
    var inner := [0x3F] + t;
    assert BEGIN_PI + (t + END_PI) == [0x3C] + (inner + END_PI);
    MatchesSplit(s, i, BEGIN_PI, t + END_PI);
    MatchesSplit(s, i, [0x3C], inner + END_PI);
    MatchesSplit(s, i + 1, inner, END_PI);
    MatchesAt(s, i, [0x3C], 0);
    MatchesAt(s, e, END_PI, 0);
    MatchesAt(s, e, END_PI, 1);
    forall k | i <= k < e ensures !Matches(s, k, END_PI) && At(s, k) != 0 {
      if k == i {
        NotAt(s, k, END_PI, 0);
      } else {
        MatchesAt(s, i + 1, inner, k - (i + 1));
        NotInside(s, i + 1, inner, k, END_PI);
      }
    }
    FindsFirst(s, i, e, END_PI);
  }

  lemma NoDeclaration(s: Text, i: nat, t: Text)
    requires !IsDeclaration(t) && Matches(s, i, BEGIN_PI + (t + END_PI))
    ensures !AtXmlDecl(s, i)
  {
    MatchesSplit(s, i, BEGIN_PI, t + END_PI);
    MatchesSplit(s, i + 2, t, END_PI);
    forall k | 0 <= k < |t| ensures At(s, i + 2 + k) == t[k] {
      MatchesAt(s, i + 2, t, k);
    }
    MatchesAt(s, i + 2 + |t|, END_PI, 0);
    MatchesAt(s, i + 2 + |t|, END_PI, 1);
    if MatchesNoCase(s, i, XMLDECL) { DeclarationBytes(s, i, XMLDECL); }
    if MatchesNoCase(s, i, XMLDECL2) { DeclarationBytes(s, i, XMLDECL2); }
    hide MatchesNoCase, Matches;
  }

  lemma DeclarationBytes(s: Text, i: nat, d: Text)
    requires (d == XMLDECL || d == XMLDECL2) && MatchesNoCase(s, i, d)
    ensures Lower(At(s, i + 2)) == 0x78 && Lower(At(s, i + 3)) == 0x6D && Lower(At(s, i + 4)) == 0x6C
    ensures Lower(At(s, i + 5)) == d[5]
  {
    assert d[1..][1..][1..][1..][1..][0] == d[5] && d[1..][1..][1..][1..][0] == 0x6C && d[1..][1..][1..][0] == 0x6D;
    assert MatchesNoCase(s, i + 1, d[1..]) && MatchesNoCase(s, i + 2, d[1..][1..]);
    assert MatchesNoCase(s, i + 3, d[1..][1..][1..]) && MatchesNoCase(s, i + 4, d[1..][1..][1..][1..]);
    assert MatchesNoCase(s, i + 5, d[1..][1..][1..][1..][1..]);
  }

  lemma InstructionSkipped(s: Text, i: nat, t: Text)
    requires Find(s, i, END_PI) == i + 2 + |t| && At(s, i + 2 + |t|) == 0x3F
    requires !AtXmlDecl(s, i) && MatchesNoCase(s, i, BEGIN_PI)
    ensures SkipPI(s, i) == Skipped(true, i + 4 + |t|)
  {
    hide Find, AtXmlDecl, MatchesNoCase;
  }

  lemma InstructionInContent(s: Text, p: State, j: nat, k: nat)
    requires p.mode == CONTENT && SkipSpaces(s, p.cur) == j && At(s, j) == LESS_THAN && SpacesBetween(s, p.cur, j)
    requires !Matches(s, j, CDSTART) && !Matches(s, j, BEGIN_COMMENT) && Matches(s, j, BEGIN_PI)
    requires SkipPI(s, j) == Skipped(true, k)
    ensures Turn(s, p) == Next(p.(save := p.cur, cur := k))
  {
    hide SkipComment, SkipPI, Matches, ContentEnd, CopyFrom, NextToken, SkipSpaces;
    assert At(s, p.cur) != 0;
  }

  lemma InstructionTurn(s: Text, p: State, j: nat, t: Text) returns (q: State)
    requires p.cur <= |s| && p.mode == CONTENT && SpacesBetween(s, p.cur, j)
    requires GoodInstruction(t) && Matches(s, j, BEGIN_PI + (t + END_PI))
    ensures GetsTo(s, p, q) && q == p.(save := p.cur, cur := j + 4 + |t|)
  {
    InstructionFound(s, j, t);
    hide SkipComment, SkipPI, Matches, ContentEnd, CopyFrom, NextToken, Run, Invariant, GoodInstruction, AtXmlDecl,
         MatchesNoCase;
    MatchesAt(s, j, BEGIN_PI, 0);
    MatchesAt(s, j, BEGIN_PI, 1);
    SpacesEnd(s, p.cur, j);
    NotAt(s, j, CDSTART, 1);
    NotAt(s, j, BEGIN_COMMENT, 1);
    InstructionSkipped(s, j, t);
    q := p.(save := p.cur, cur := j + 4 + |t|);
    InstructionInContent(s, p, j, j + 4 + |t|);
    hide ProcessContent, NextNode, SpacesBetween;
    OneTurn(s, p, q);
  }

  /* ---- text ---- */

  /** The scanner on text: it is not blank and ends where it ends. */
  lemma ProseScan(s: Text, i: nat, cs: seq<Char>)
    requires GoodProse(cs) && Matches(s, i, SpelledAll(cs)) && At(s, i + |SpelledAll(cs)|) == LESS_THAN
    ensures At(s, i) != 0 && SpelledAll(cs) != []
    ensures var j := SkipSpaces(s, i); At(s, j) != 0 && At(s, j) != LESS_THAN
    ensures ContentEnd(s, i) == i + |SpelledAll(cs)|
    ensures CopyFrom(s, i, i + |SpelledAll(cs)|) == Copied(true, Encoded(Values(cs)))
  {
    hide CopyFrom, Encoded, Matches, SpelledAll, Values, Contains;
    var v, end := SpelledAll(cs), i + |SpelledAll(cs)|;
    forall k | i <= k < end ensures At(s, k) != 0 && At(s, k) != LESS_THAN && At(s, k) == v[k - i] {
      SpelledByte(cs, k - i);
      MatchesAt(s, i, v, k - i);
    }
    var b :| 0 <= b < |v| && !IsSpace(v[b]);
    assert !IsSpace(At(s, i + b)) && SkipSpaces(s, i) <= i + b;
    forall k | i <= k < end ensures !Matches(s, k, CDEND) {
      NoEndInside(s, i, v, k);
    }
    var e := ContentEnd(s, i);
    assert e == end;
    CopySpelled(s, i, cs);
  }

  lemma NoEndInside(s: Text, i: nat, v: Text, k: nat)
    requires Matches(s, i, v) && !Contains(v, CDEND) && i <= k < i + |v| && At(s, i + |v|) == LESS_THAN
    ensures !Matches(s, k, CDEND)
  {
    if k + 3 > i + |v| {
      var j := i + |v| - k;
      assert At(s, k + j) != CDEND[j];
    }
    NotInside(s, i, v, k, CDEND);
  }

  /** Text is read in one turn. */
  lemma ProseTurn(s: Text, p: State, cs: seq<Char>) returns (q: State)
    requires p.cur <= |s| && p.mode == CONTENT && p.path != []
    requires GoodProse(cs) && Matches(s, p.cur, SpelledAll(cs)) && At(s, p.cur + |SpelledAll(cs)|) == LESS_THAN
    ensures GetsTo(s, p, q) && q.mode == CONTENT && q.cur == p.cur + |SpelledAll(cs)|
    ensures q.stack == p.stack && q.top == p.top && q.hasTop == p.hasTop
    ensures q.path == [p.path[0].(kids := p.path[0].kids + [TextNode(Encoded(Values(cs)))])] + p.path[1..]
  {
    hide NextNode, Run, CopyFrom, SpelledAll, SkipSpaces, ContentEnd, Matches, GoodProse, Invariant, Encoded, Values;
    var e := p.cur + |SpelledAll(cs)|;
    ProseScan(s, p.cur, cs);
    NoCdEnd(s, e);
    TextResult(s, p, e, Encoded(Values(cs)));
    q := Turn(s, p).p;
    OneTurn(s, p, q);
  }

  /* ---- whole trees ---- */

  /** What is written for anything but characters starts with a `<`. */
  lemma StartsWithLess(s: Text, i: nat, d: Draft)
    requires !IsCharacters(d) && Matches(s, i, SpellOne(d))
    ensures At(s, i) == LESS_THAN
  {
    hide SpellAttrs, Spell, SpellEnd, Matches;
    assert SpellOne(d) != [] && SpellOne(d)[0] == LESS_THAN;
    MatchesAt(s, i, SpellOne(d), 0);
  }

  lemma OneSpelled(s: Text, i: nat, ds: seq<Draft>)
    requires ds != [] && Matches(s, i, Spell(ds))
    ensures Matches(s, i, SpellOne(ds[0])) && Matches(s, i + |SpellOne(ds[0])|, Spell(ds[1..]))
    ensures i + |Spell(ds)| == i + |SpellOne(ds[0])| + |Spell(ds[1..])|
  {
    hide Matches, SpellOne;
    MatchesSplit(s, i, SpellOne(ds[0]), Spell(ds[1..]));
  }

  /** Characters end at a `<`. */
  lemma LessAfter(s: Text, i: nat, ds: seq<Draft>)
    requires ds != [] && IsCharacters(ds[0]) && WellWritten(ds) && Matches(s, i, Spell(ds))
    requires At(s, i + |Spell(ds)|) == LESS_THAN
    ensures At(s, i + |SpellOne(ds[0])|) == LESS_THAN
  {
    hide SpellOne, Matches, GoodDraft;
    OneSpelled(s, i, ds);
    if |ds| > 1 {
      OneSpelled(s, i + |SpellOne(ds[0])|, ds[1..]);
      StartsWithLess(s, i + |SpellOne(ds[0])|, ds[1]);
    } else {
      assert ds[1..] == [];
    }
  }

  /** Where an element starts there is a tag. */
  lemma ElementBegins(s: Text, i: nat, d: Draft)
    requires (d.Full? || d.Empty?) && GoodDraft(d) && Matches(s, i, SpellOne(d))
    ensures AtTag(s, i) && !Matches(s, i, CDSTART) && At(s, i + 1) != 0x21 && At(s, i + 1) != 0x3F
  {
    hide SpellAttrs, Matches, NextToken, GoodName, WellWritten, Spell, SpellEnd, AtTag;
    TagLaidOut(s, i, d.name, d.attrs, d.gap,
               if d.Full? then [GREATER_THAN] + (Spell(d.kids) + SpellEnd(d.name, d.endGap)) else COMPLETETAG);
    NameFirstByte(s, i + 1, d.name);
    OpenToken(s, i, d.name, 0);
  }

  lemma EmptyLaidOut(s: Text, i: nat, d: Draft)
    requires d.Empty? && White(d.gap) && Matches(s, i, SpellOne(d))
    ensures var j := i + 1 + |d.name| + |SpellAttrs(d.attrs)| + |d.gap|;
            && Matches(s, j, COMPLETETAG) && TagEnds(s, j) && At(s, j) != GREATER_THAN && j + 2 == i + |SpellOne(d)|
  {
    hide SpellAttrs, Matches, White;
    TagLaidOut(s, i, d.name, d.attrs, d.gap, COMPLETETAG);
    MatchesAt(s, i + 1 + |d.name| + |SpellAttrs(d.attrs)| + |d.gap|, COMPLETETAG, 0);
  }

  lemma FullLaidOut(s: Text, i: nat, d: Draft)
    requires d.Full? && White(d.gap) && Matches(s, i, SpellOne(d))
    ensures var j := i + 1 + |d.name| + |SpellAttrs(d.attrs)| + |d.gap|;
            var e := j + 1 + |Spell(d.kids)|;
            && TagEnds(s, j) && At(s, j) == GREATER_THAN && Matches(s, j + 1, Spell(d.kids))
            && Matches(s, e, SpellEnd(d.name, d.endGap)) && e + |SpellEnd(d.name, d.endGap)| == i + |SpellOne(d)|
  {
    hide SpellAttrs, Matches, White, Spell, SpellEnd;
    var rest := Spell(d.kids) + SpellEnd(d.name, d.endGap);
    TagLaidOut(s, i, d.name, d.attrs, d.gap, [GREATER_THAN] + rest);
    var j := i + 1 + |d.name| + |SpellAttrs(d.attrs)| + |d.gap|;
    MatchesSplit(s, j, [GREATER_THAN], rest);
    MatchesAt(s, j, [GREATER_THAN], 0);
    MatchesSplit(s, j + 1, Spell(d.kids), SpellEnd(d.name, d.endGap));
  }

  lemma EndStarts(s: Text, e: nat, name: Text, gap: Text)
    requires Matches(s, e, SpellEnd(name, gap)) && White(gap)
    ensures AtTag(s, e) && !Matches(s, e, CDSTART) && At(s, e) == LESS_THAN
  {
    hide Matches, SpellEnd, White, NextToken, AtTag;
    EndLaidOut(s, e, name, gap);
    MatchesAt(s, e, ENDTAG, 0);
    CloseToken(s, e, 0);
  }

  /** An element, from its start tag to its end, adds its node. */
  lemma {:induction false} ParseDraft(s: Text, p: State, d: Draft) returns (q: State)
    requires p.cur <= |s| && p.mode == ELEMENT && (p.stack == [] ==> !p.hasTop) && Invariant(s, p)
    requires (d.Full? || d.Empty?) && GoodDraft(d) && Matches(s, p.cur, SpellOne(d))
    ensures GetsTo(s, p, q) && WithKids(p, q, [NodeMeant(d)])
    ensures q.mode == CONTENT && q.cur == p.cur + |SpellOne(d)|
    decreases d, 1
  {
    hide Run, Matches, SpellOne, Spell, SpellEnd, SpellAttrs, GoodName, GoodDraftAttrs, White, Invariant, TagEnds,
         WellWritten, AtTag;
    TagText(d);
    if d.Empty? {
      EmptyLaidOut(s, p.cur, d);
      var open := TagOpens(s, p, d.name, d.attrs, d.gap, COMPLETETAG);
      q := EmptyEnds(s, open, p, d.name);
    } else {
      FullLaidOut(s, p.cur, d);
      var open := TagOpens(s, p, d.name, d.attrs, d.gap,
                           [GREATER_THAN] + (Spell(d.kids) + SpellEnd(d.name, d.endGap)));
      var e := open.cur + |Spell(d.kids)|;
      EndStarts(s, e, d.name, d.endGap);
      q := ParseDrafts(s, open, d.kids, open.cur);
      WithAllKids(p, open, q, Meant(d.kids));
      q := ToTag(s, q, e);
      q := EndTagTurn(s, q, p, d.name, d.endGap);
    }
  }

  lemma TagText(d: Draft)
    requires d.Full? || d.Empty?
    ensures SpellOne(d) == [LESS_THAN] + (d.name + (SpellAttrs(d.attrs) + (d.gap
              + if d.Full? then [GREATER_THAN] + (Spell(d.kids) + SpellEnd(d.name, d.endGap)) else COMPLETETAG)))
  {
    hide SpellAttrs, Spell, SpellEnd;
  }

  lemma NoKids(p: State, q: State)
    requires p.path != [] && q.stack == p.stack && q.hasTop && q.top == p.top && q.path == p.path
    ensures WithKids(p, q, [])
  {
    assert p.path[0].kids + [] == p.path[0].kids && [p.path[0]] + p.path[1..] == p.path;
  }

  /** The first of some siblings adds the node it means, if any. */
  lemma {:induction false} ParseFirst(s: Text, p: State, ds: seq<Draft>, j: nat) returns (q: State)
    requires p.cur <= |s| && p.mode == CONTENT && p.path != [] && p.stack != [] && p.hasTop && Invariant(s, p)
    requires ds != [] && WellWritten(ds) && Matches(s, j, Spell(ds)) && SpacesBetween(s, p.cur, j)
    requires ds[0].Prose? ==> p.cur == j
    requires At(s, j + |Spell(ds)|) == LESS_THAN
    ensures GetsTo(s, p, q) && WithKids(p, q, MeantOne(ds[0]))
    ensures q.mode == CONTENT && SpacesBetween(s, q.cur, j + |SpellOne(ds[0])|)
    ensures !ds[0].Blank? ==> q.cur == j + |SpellOne(ds[0])|
    decreases ds, 0
  {
    hide Run, Matches, Spell, SpellOne, Invariant, GoodProse, GoodComment, GoodInstruction, SpelledAll, AtTag,
         SpellAttrs, GoodName, GoodDraftAttrs, Meant, NodeMeant, WellWritten;
    var d := ds[0];
    FirstGood(ds);
    OneSpelled(s, j, ds);
    match d
    case Blank(space) =>
      BlankText(d);
      WhiteBetween(s, j, space);
      SpacesJoin(s, p.cur, j, j + |SpellOne(d)|);
      q := p;
      NoKids(p, q);
    case Comment(text) =>
      CommentText(d);
      q := CommentTurn(s, p, j, text);
      NoKids(p, q);
    case Instruction(text) =>
      InstructionText(d);
      q := InstructionTurn(s, p, j, text);
      NoKids(p, q);
    case Prose(chars) =>
      LessAfter(s, j, ds);
      ProseText(d);
      q := ProseTurn(s, p, chars);
    case _ =>
      ElementBegins(s, j, d);
      var tag := ToTag(s, p, j);
      q := ParseDraft(s, tag, d);
  }

  lemma FirstGood(ds: seq<Draft>)
    requires ds != [] && WellWritten(ds)
    ensures GoodDraft(ds[0]) && WellWritten(ds[1..])
    ensures IsCharacters(ds[0]) && ds[1..] != [] ==> !IsCharacters(ds[1..][0])
  {
    hide GoodDraft;
  }

  /** Siblings, after white space unless text comes first, add the nodes they mean. */
  lemma {:induction false} ParseDrafts(s: Text, p: State, ds: seq<Draft>, j: nat) returns (q: State)
    requires p.cur <= |s| && p.mode == CONTENT && p.path != [] && p.stack != [] && p.hasTop && Invariant(s, p)
    requires WellWritten(ds) && Matches(s, j, Spell(ds)) && SpacesBetween(s, p.cur, j)
    requires ds != [] && ds[0].Prose? ==> p.cur == j
    requires At(s, j + |Spell(ds)|) == LESS_THAN
    ensures GetsTo(s, p, q) && WithKids(p, q, Meant(ds))
    ensures q.mode == CONTENT && SpacesBetween(s, q.cur, j + |Spell(ds)|)
    decreases ds, 1
  {
    hide Run, Matches, SpellOne, Invariant, WellWritten, MeantOne, GoodDraft, Spell;
    if ds == [] {
      q := p;
      NoKids(p, q);
      NoneSpelt();
    } else {
      OneSpelled(s, j, ds);
      FirstGood(ds);
      var k := j + |SpellOne(ds[0])|;
      var after := ParseFirst(s, p, ds, j);
      StillInside(p, after, MeantOne(ds[0]));
      q := ParseDrafts(s, after, ds[1..], k);
      WithMoreKids(p, after, q, MeantOne(ds[0]), Meant(ds[1..]));
    }
  }

  lemma NoneSpelt()
    ensures Spell([]) == []
  {
  }

  lemma StillInside(p: State, q: State, kids: seq<Node>)
    requires p.path != [] && p.stack != [] && WithKids(p, q, kids)
    ensures q.path != [] && q.stack != [] && q.hasTop
  {
  }

  lemma BlankText(d: Draft)
    requires d.Blank?
    ensures SpellOne(d) == d.space
  {
  }

  lemma CommentText(d: Draft)
    requires d.Comment?
    ensures SpellOne(d) == BEGIN_COMMENT + (d.text + END_COMMENT) && |SpellOne(d)| == |d.text| + 7
  {
  }

  lemma InstructionText(d: Draft)
    requires d.Instruction?
    ensures SpellOne(d) == BEGIN_PI + (d.text + END_PI) && |SpellOne(d)| == |d.text| + 4
  {
  }

  lemma ProseText(d: Draft)
    requires d.Prose?
    ensures SpellOne(d) == SpelledAll(d.chars) && MeantOne(d) == [TextNode(Encoded(Values(d.chars)))]
  {
  }
}
