/** Documents with a prolog, and everything around the root: parsing gives the tree they mean. */
module DraftDocuments {
  import opened Bytes
  import opened Utf8
  import opened Escape
  import opened Names
  import opened Scanner
  import opened XmlTree
  import opened Printer
  import opened ParserSpec
  import opened ParserInvariant
  import opened RoundTrip
  import opened Reparse
  import opened ReparseTree
  import opened Drafts
  import opened DraftTags
  import opened DraftParse

  /* ---- in front of the root ---- */

  /** A start tag, not a comment, an instruction or a declaration, begins here. */
  predicate RootAt(s: Text, e: nat) {
    At(s, e) == LESS_THAN && At(s, e + 1) != 0x21 && At(s, e + 1) != 0x3F
  }

  lemma SpacesSkipped(s: Text, i: nat, j: nat)
    requires SpacesBetween(s, i, j)
    ensures SkipSpaces(s, i) == SkipSpaces(s, j)
  {
    SpacesEnd(s, i, SkipSpaces(s, j));
  }

  lemma NoSpaceHere(s: Text, i: nat)
    requires At(s, i) == LESS_THAN
    ensures SkipSpaces(s, i) == i
  {
  }

  lemma CommentSkipped(s: Text, i: nat, t: Text)
    requires GoodComment(t) && Matches(s, i, BEGIN_COMMENT + (t + END_COMMENT)) && i <= |s|
    ensures SkipMisc(s, i) == SkipMisc(s, SkipSpaces(s, i + 7 + |t|)) && At(s, i) == LESS_THAN
  {
    hide SkipComment, SkipSpaces, Matches, AtXmlDecl, GoodComment, MatchesNoCase;
    CommentFound(s, i, t);
    MatchesIgnoringCase(s, i, BEGIN_COMMENT);
    MatchesAt(s, i, BEGIN_COMMENT, 0);
    WithinText(s, i, BEGIN_COMMENT + (t + END_COMMENT));
  }

  lemma WithinText(s: Text, i: nat, t: Text)
    requires Matches(s, i, t)
    ensures i + |t| <= |s|
  {
  }

  lemma InstructionPassed(s: Text, i: nat, t: Text)
    requires GoodInstruction(t) && Matches(s, i, BEGIN_PI + (t + END_PI)) && i <= |s|
    ensures SkipMisc(s, i) == SkipMisc(s, SkipSpaces(s, i + 4 + |t|)) && At(s, i) == LESS_THAN
  {
    hide SkipSpaces, Matches, AtXmlDecl, GoodInstruction, MatchesNoCase, Find;
    InstructionFound(s, i, t);
    MatchesAt(s, i, BEGIN_PI, 0);
    MatchesAt(s, i, BEGIN_PI, 1);
    NoComment(s, i);
    WithinText(s, i, BEGIN_PI + (t + END_PI));
  }

  lemma NoComment(s: Text, i: nat)
    requires At(s, i + 1) == 0x3F
    ensures !MatchesNoCase(s, i, BEGIN_COMMENT)
  {
    assert MatchesNoCase(s, i, BEGIN_COMMENT) ==> MatchesNoCase(s, i + 1, BEGIN_COMMENT[1..]);
    assert BEGIN_COMMENT[1..][0] == 0x21;
  }

  lemma RootIsNext(s: Text, e: nat)
    requires RootAt(s, e)
    ensures SkipMisc(s, e) == Skipped(true, e) && AtTag(s, e)
    ensures !Matches(s, e, XMLDECL) && !Matches(s, e, BEGIN_DOCTYPE)
  {
    TagStart(s, e);
    NotAt(s, e, XMLDECL, 1);
    NotAt(s, e, BEGIN_DOCTYPE, 1);
    hide SkipMisc, Matches;
  }

  /** White space, comments and instructions are skipped. */
  lemma {:induction false} AroundSkipped(s: Text, i: nat, ds: seq<Draft>)
    requires Around(ds) && WellWritten(ds) && Matches(s, i, Spell(ds)) && RootAt(s, i + |Spell(ds)|) && i <= |s|
    ensures SkipMisc(s, SkipSpaces(s, i)) == Skipped(true, i + |Spell(ds)|)
    ensures !Matches(s, SkipSpaces(s, i), XMLDECL)
    decreases |ds|
  {
    hide SkipMisc, SkipSpaces, Matches, SpellOne, GoodComment, GoodInstruction, RootAt, WellWritten, Spell;
    if ds == [] {
      NoneSpelt();
      RootIsNext(s, i);
      RootNoSpace(s, i);
    } else {
      var d, k := ds[0], i + |SpellOne(ds[0])|;
      OneSpelled(s, i, ds);
      FirstGood(ds);
      WithinText(s, i, SpellOne(d));
      AroundSkipped(s, k, ds[1..]);
      match d
      case Blank(space) =>
        BlankText(d);
        WhiteBetween(s, i, space);
        SpacesSkipped(s, i, k);
      case Comment(text) =>
        CommentText(d);
        CommentSkipped(s, i, text);
        NoSpaceHere(s, i);
        CommentFound(s, i, text);
        CommentNoDeclaration(s, i);
      case Instruction(text) =>
        InstructionText(d);
        InstructionPassed(s, i, text);
        NoSpaceHere(s, i);
        InstructionFound(s, i, text);
        DeclarationNoCase(s, i);
    }
  }

  lemma RootNoSpace(s: Text, e: nat)
    requires RootAt(s, e)
    ensures SkipSpaces(s, e) == e
  {
    NoSpaceHere(s, e);
  }

  lemma CommentNoDeclaration(s: Text, i: nat)
    requires Matches(s, i, BEGIN_COMMENT)
    ensures !Matches(s, i, XMLDECL)
  {
    MatchesAt(s, i, BEGIN_COMMENT, 1);
    NotAt(s, i, XMLDECL, 1);
    hide Matches;
  }

  lemma DeclarationNoCase(s: Text, i: nat)
    requires !AtXmlDecl(s, i)
    ensures !Matches(s, i, XMLDECL)
  {
    if Matches(s, i, XMLDECL) {
      MatchesIgnoringCase(s, i, XMLDECL);
    }
    hide Matches, MatchesNoCase;
  }

  /** A declaration ends at the first `?>`. */
  lemma DeclarationEnds(s: Text, i: nat, b: Text)
    requires 0 !in b && !Contains(b, END_PI) && Matches(s, i, XMLDECL + (b + END_PI))
    ensures SkipString(s, i, END_PI) == Skipped(true, i + 8 + |b|) && Matches(s, i, XMLDECL)
  {
    hide Matches, Contains, Find;
    var e := i + 6 + |b|;
    MatchesSplit(s, i, XMLDECL, b + END_PI);
    MatchesSplit(s, i + 6, b, END_PI);
    MatchesAt(s, e, END_PI, 0);
    forall k | 0 <= k < 6 ensures At(s, i + k) == XMLDECL[k] {
      MatchesAt(s, i, XMLDECL, k);
    }
    forall k | i <= k < e ensures !Matches(s, k, END_PI) && At(s, k) != 0 {
      if k < i + 6 {
        assert At(s, i + (k - i)) == XMLDECL[k - i];
        NotYet(s, i, k);
      } else {
        MatchesAt(s, i + 6, b, k - (i + 6));
        EndsWithMark(s, i + 6, |b|, k);
        NotInside(s, i + 6, b, k, END_PI);
      }
    }
    FindsFirst(s, i, e, END_PI);
  }

  lemma NotYet(s: Text, i: nat, k: nat)
    requires i <= k < i + 6 && forall j :: 0 <= j < 6 ==> At(s, i + j) == XMLDECL[j]
    ensures !Matches(s, k, END_PI)
  {
    hide Matches;
    assert At(s, i + (k - i)) == XMLDECL[k - i] && At(s, i + 2) == XMLDECL[2];
    NotAt(s, k, END_PI, if k == i + 1 then 1 else 0);
  }

  lemma EndsWithMark(s: Text, i: nat, n: nat, k: nat)
    requires i <= k < i + n && At(s, i + n) == 0x3F
    ensures k + |END_PI| > i + n ==> exists j :: 0 <= j < |END_PI| && At(s, k + j) != END_PI[j]
  {
    if k + 2 > i + n {
      assert At(s, k + 1) != END_PI[1];
    }
  }

  /** With a declaration in front, whatever stands before the root. */
  lemma DeclaredProlog(s: Text, start: Text, b: Text, gap: Text, ds: seq<Draft>)
    requires White(start) && White(gap) && 0 !in b && !Contains(b, END_PI) && Around(ds) && WellWritten(ds)
    requires Matches(s, 0, start + (XMLDECL + (b + END_PI)))
    requires var k := |start| + 8 + |b|;
             && Matches(s, k, gap) && Matches(s, k + |gap|, Spell(ds)) && RootAt(s, k + |gap| + |Spell(ds)|)
    ensures SkipProlog(s) == Skipped(true, |start| + 8 + |b| + |gap| + |Spell(ds)|)
  {
    hide SkipMisc, SkipSpaces, Matches, RootAt, WellWritten, Spell, White, Contains, SkipString, Around;
    var i := |start|;
    var k := i + 8 + |b|;
    var e := k + |gap| + |Spell(ds)|;
    MatchesSplit(s, 0, start, XMLDECL + (b + END_PI));
    DeclarationEnds(s, i, b);
    WhiteBetween(s, 0, start);
    DeclarationHere(s, i);
    WhiteBetween(s, k, gap);
    SpacesSkipped(s, 0, i);
    SpacesSkipped(s, k, k + |gap|);
    WithinText(s, k, gap);
    AroundSkipped(s, k + |gap|, ds);
    RootIsNext(s, e);
  }

  lemma DeclarationHere(s: Text, i: nat)
    requires Matches(s, i, XMLDECL)
    ensures SkipSpaces(s, i) == i
  {
    MatchesAt(s, i, XMLDECL, 0);
    hide Matches;
  }

  lemma PlainProlog(s: Text, start: Text, ds: seq<Draft>)
    requires White(start) && Around(ds) && WellWritten(ds)
    requires Matches(s, 0, start) && Matches(s, |start|, Spell(ds)) && RootAt(s, |start| + |Spell(ds)|)
    ensures SkipProlog(s) == Skipped(true, |start| + |Spell(ds)|)
  {
    hide SkipMisc, SkipSpaces, Matches, RootAt, WellWritten, Spell, White, SkipString, Around;
    var e := |start| + |Spell(ds)|;
    WhiteBetween(s, 0, start);
    SpacesSkipped(s, 0, |start|);
    WithinText(s, 0, start);
    AroundSkipped(s, |start|, ds);
    RootIsNext(s, e);
  }

  /* ---- behind the root ---- */

  /** Nothing but white space, comments and instructions follows: the parser accepts. */
  lemma {:induction false} RestAccepted(s: Text, p: State, ds: seq<Draft>, j: nat)
    requires p.cur <= |s| && p.mode == CONTENT && p.stack == [] && SpacesBetween(s, p.cur, j)
    requires Around(ds) && WellWritten(ds) && Matches(s, j, Spell(ds)) && j + |Spell(ds)| == |s|
    ensures Run(s, p) == Accepted(p.top)
    decreases |ds|
  {
    hide Run, Matches, SpellOne, GoodComment, GoodInstruction, WellWritten, Spell, Invariant;
    if ds == [] {
      NoneSpelt();
      EndOfDocument(s, p);
    } else {
      var d, k := ds[0], j + |SpellOne(ds[0])|;
      OneSpelled(s, j, ds);
      FirstGood(ds);
      match d
      case Blank(space) =>
        BlankText(d);
        WhiteBetween(s, j, space);
        SpacesJoin(s, p.cur, j, k);
        RestAccepted(s, p, ds[1..], k);
      case Comment(text) =>
        CommentText(d);
        var q := CommentTurn(s, p, j, text);
        RestAccepted(s, q, ds[1..], k);
      case Instruction(text) =>
        InstructionText(d);
        var q := InstructionTurn(s, p, j, text);
        RestAccepted(s, q, ds[1..], k);
    }
  }

  /* ---- whole documents ---- */

  lemma Whole(s: Text)
    ensures Matches(s, 0, s)
  {
  }

  lemma RootBegins(s: Text, e: nat, d: Draft)
    requires (d.Full? || d.Empty?) && GoodDraft(d) && Matches(s, e, SpellOne(d))
    ensures RootAt(s, e)
  {
    hide GoodDraft, Matches, SpellOne, AtTag;
    ElementBegins(s, e, d);
    StartsWithLess(s, e, d);
  }

  /** Where the parts of a document lie, and that its prolog is skipped. */
  lemma PrologSkipped(d: Document)
    requires GoodDocument(d)
    ensures var s, e := SpellDocument(d), |SpellProlog(d)| + |Spell(d.before)|;
            && SkipProlog(s) == Skipped(true, e) && Matches(s, e, SpellOne(d.root))
            && Matches(s, e + |SpellOne(d.root)|, Spell(d.after))
            && e + |SpellOne(d.root)| + |Spell(d.after)| == |s|
  {
    hide Matches, Spell, SpellOne, WellWritten, GoodDraft, White, Contains, Around, SkipProlog, RootAt;
    var s, k := SpellDocument(d), |SpellProlog(d)|;
    var root, after := SpellOne(d.root), Spell(d.after);
    Whole(s);
    MatchesSplit(s, 0, SpellProlog(d), Spell(d.before) + (root + after));
    MatchesSplit(s, k, Spell(d.before), root + after);
    var e := k + |Spell(d.before)|;
    MatchesSplit(s, e, root, after);
    RootBegins(s, e, d.root);
    if d.declaration.Some? {
      var b := d.declaration.value;
      var front := d.start + (XMLDECL + (b + END_PI));
      assert SpellProlog(d) == front + d.gap;
      MatchesSplit(s, 0, front, d.gap);
      DeclaredProlog(s, d.start, b, d.gap, d.before);
    } else {
      assert SpellProlog(d) == d.start;
      PlainProlog(s, d.start, d.before);
    }
  }

  /** Every document, however it is written, is accepted and gives the tree it means. */
  lemma DraftsParse(d: Document)
    requires GoodDocument(d)
    ensures Parse(SpellDocument(d)) == Accepted([NodeMeant(d.root)])
  {
    hide Run, Matches, Spell, SpellOne, WellWritten, GoodDraft, SkipProlog, Invariant, SpellDocument, SpellProlog;
    var s, e := SpellDocument(d), |SpellProlog(d)| + |Spell(d.before)|;
    PrologSkipped(d);
    InitialInvariant(s, e);
    var p := INITIAL.(cur := e);
    var q := ParseDraft(s, p, d.root);
    assert [] + [NodeMeant(d.root)] == [NodeMeant(d.root)];
    RestAccepted(s, q, d.after, q.cur);
  }

  /** A printed document with a declaration in front of it comes back like the one without. */
  lemma DeclaredPrintThenParse(start: Text, b: Text, gap: Text, top: seq<Node>)
    requires White(start) && White(gap) && 0 !in b && !Contains(b, END_PI) && PrintableDocument(top)
    ensures Parse(start + XMLDECL + b + END_PI + gap + PrintSiblings(top)) == Accepted(top)
  {
    hide Parse, White, Contains, Printable, PrintSiblings, Unprefixed;
    Regrouped(start, b, gap, PrintSiblings(top));
    if top == [] {
      DeclaredNothing(start, b, gap);
      NonePrinted();
      assert (start + (XMLDECL + (b + END_PI)) + gap) + [] == start + (XMLDECL + (b + END_PI)) + gap;
    } else {
      assert top == [top[0]];
      DeclaredRoot(start, b, gap, top[0]);
    }
  }

  lemma Regrouped(start: Text, b: Text, gap: Text, rest: Text)
    ensures start + XMLDECL + b + END_PI + gap + rest == (start + (XMLDECL + (b + END_PI)) + gap) + rest
  {
    Assoc(start, XMLDECL, b + END_PI);
    Assoc(start + XMLDECL, b, END_PI);
  }

  lemma DeclaredRoot(start: Text, b: Text, gap: Text, n: Node)
    requires White(start) && White(gap) && 0 !in b && !Contains(b, END_PI) && n.Element? && Printable([n])
    ensures Parse((start + (XMLDECL + (b + END_PI)) + gap) + PrintSiblings([n])) == Accepted([n])
  {
    hide Run, GoodName, SkipProlog, White, Contains, Printable, PrintSiblings, Invariant, Matches, PrintElement, RootAt;
    var front := start + (XMLDECL + (b + END_PI));
    var s, e := (front + gap) + PrintSiblings([n]), |front + gap|;
    PrintedAt(front + gap, n);
    MatchesSplit(s, 0, front, gap);
    NothingBetween(s, e);
    OneGood(n);
    ElementStarts(s, e, n);
    TagIsRoot(s, e);
    assert e == |start| + 8 + |b| + |gap|;
    DeclaredProlog(s, start, b, gap, []);
    var q := ParseElement(s, INITIAL.(cur := e), n);
    assert [] + [n] == [n];
    EndOfDocument(s, q);
  }

  lemma OneGood(n: Node)
    requires Printable([n]) && n.Element?
    ensures GoodName(n.name)
  {
    hide GoodName;
  }

  lemma NonePrinted()
    ensures PrintSiblings([]) == []
  {
  }

  /** Where a printed root lies behind something else. */
  lemma PrintedAt(front: Text, n: Node)
    requires n.Element?
    ensures var s := front + PrintSiblings([n]);
            && Matches(s, 0, front) && Matches(s, |front|, PrintElement(n))
            && |s| == |front| + |PrintElement(n)| + 1 && At(s, |front| + |PrintElement(n)|) == LINE_FEED
  {
    hide Matches, PrintElement;
    var s := front + PrintSiblings([n]);
    assert [n][1..] == [];
    assert PrintSiblings([n]) == PrintElement(n) + [LINE_FEED] + [];
    assert PrintSiblings([n]) == PrintElement(n) + [LINE_FEED];
    Whole(s);
    MatchesSplit(s, 0, front, PrintElement(n) + [LINE_FEED]);
    MatchesSplit(s, |front|, PrintElement(n), [LINE_FEED]);
    MatchesAt(s, |front| + |PrintElement(n)|, [LINE_FEED], 0);
  }

  /** A declaration alone is the empty document. */
  lemma DeclaredNothing(start: Text, b: Text, gap: Text)
    requires White(start) && White(gap) && 0 !in b && !Contains(b, END_PI)
    ensures Parse(start + (XMLDECL + (b + END_PI)) + gap) == Accepted([])
  {
    hide Matches, White, Contains, SkipString, SkipMisc, SkipSpaces;
    var front := start + (XMLDECL + (b + END_PI));
    var s, k := front + gap, |front|;
    Whole(s);
    MatchesSplit(s, 0, front, gap);
    MatchesSplit(s, 0, start, XMLDECL + (b + END_PI));
    DeclarationEnds(s, |start|, b);
    WhiteBetween(s, 0, start);
    DeclarationHere(s, |start|);
    WhiteBetween(s, k, gap);
    SpacesSkipped(s, 0, |start|);
    SpacesSkipped(s, k, |s|);
    NothingLeft(s);
  }

  lemma NothingLeft(s: Text)
    ensures SkipSpaces(s, |s|) == |s| && SkipMisc(s, |s|) == Skipped(true, |s|) && !Matches(s, |s|, BEGIN_DOCTYPE)
    ensures Run(s, INITIAL.(cur := |s|)) == Accepted([])
  {
    assert Lower(At(s, |s|)) == 0;
    assert Turn(s, INITIAL.(cur := |s|)) == Accepted([]);
  }

  lemma TagIsRoot(s: Text, e: nat)
    requires AtTag(s, e) && At(s, e + 1) != 0x21 && At(s, e + 1) != 0x3F
    ensures RootAt(s, e)
  {
  }

  lemma NothingBetween(s: Text, e: nat)
    requires e <= |s|
    ensures Spell([]) == [] && Matches(s, e, Spell([])) && WellWritten([]) && Around([])
  {
  }
}
