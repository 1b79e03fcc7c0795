/** Parsing a printed document rebuilds it. */
module RoundTrip {
  import opened Bytes
  import opened Utf8
  import opened Escape
  import opened Names
  import opened XmlTree
  import opened Scanner
  import opened ParserSpec
  import opened ParserInvariant
  import opened Printer

  /* ---- scanning what the printer wrote ---- */

  lemma SpacesEnd(s: Text, i: nat, j: nat)
    requires i <= j && !IsSpace(At(s, j)) && forall k :: i <= k < j ==> IsSpace(At(s, k))
    ensures SkipSpaces(s, i) == j
  {
  }

  lemma FoundAt(s: Text, i: nat, e: nat, t: Text)
    requires t != [] && t[0] != 0 && i <= e && Matches(s, e, t)
    requires forall k :: i <= k < e ==> At(s, k) != 0 && At(s, k) != t[0]
    ensures Find(s, i, t) == e && At(s, e) == t[0]
  {
    MatchesAt(s, e, t, 0);
    var f := Find(s, i, t);
    if Matches(s, f, t) {
      MatchesAt(s, f, t, 0);
    }
  }

  /** Each byte of an encoding is one of the code points or has its top bit set. */
  lemma {:induction false} EncodedByte(cs: seq<int>, k: nat)
    requires AllXml(cs) && k < |Encoded(cs)|
    ensures Encoded(cs)[k] >= 0x80 || Encoded(cs)[k] as int in cs
    ensures Encoded(cs)[k] != 0
  {
    var first := IntToUtf8(cs[0]);
    assert IsXmlChar(cs[0]);
    if cs[0] > 0x7F {
      XmlCharBytes(cs[0]);
    }
    if k >= |first| {
      EncodedByte(cs[1..], k - |first|);
    }
  }

  /** Not the start of a comment, an instruction or white space. */
  predicate PlainStart(b: Byte) {
    b != LESS_THAN && b != 0 && !IsSpace(b)
  }

  lemma PlainMisc(s: Text, i: nat)
    requires PlainStart(At(s, i))
    ensures SkipMisc(s, i) == Skipped(true, i)
  {
    assert Lower(At(s, i)) != LESS_THAN;
    hide Find, SkipComment;
  }

  lemma TokenAt(s: Text, i: nat, save: nat, n: nat, text: Text)
    requires At(s, i) != 0 && SkipMisc(s, i) == Skipped(true, i)
    requires TokenLength(s, i) == n > 0 && CopyFrom(s, i, i + n) == Copied(true, text)
    ensures NextToken(s, i, save) == Token(n, text, i + n, if At(s, i) == SLASH then i else save)
  {
    hide SkipMisc, TokenLength, CopyFrom;
  }

  /** The next token is a delimiter of one byte. */
  lemma DelimiterToken(s: Text, i: nat, save: nat)
    requires At(s, i) == EQUALS || At(s, i) == QUOTE || At(s, i) == SINGLE_QUOTE || At(s, i) == GREATER_THAN
    ensures NextToken(s, i, save) == Token(1, [At(s, i)], i + 1, save)
  {
    hide SkipMisc, CopyFrom, NextToken;
    PlainMisc(s, i);
    CopyDelimiters(s, i, 1);
    TokenAt(s, i, save, 1, [At(s, i)]);
  }

  lemma {:induction false} NameEndsAt(s: Text, i: nat, cs: seq<int>)
    requires Matches(s, i, Encoded(cs)) && forall k :: 0 <= k < |cs| ==> IsNameChar(cs[k], true)
    requires !IsNameChar(Utf8ToInt(s, i + |Encoded(cs)|).c, true)
    ensures NameEnd(s, i) == i + |Encoded(cs)|
    decreases |cs|
  {
    hide IsNameChar, Utf8ToInt, IntToUtf8;
    if cs != [] {
      var first := IntToUtf8(cs[0]);
      MatchesSplit(s, i, first, Encoded(cs[1..]));
      NameCharRange(cs[0]);
      DecodeEncoded(s, i, cs[0]);
      NameEndsAt(s, i + |first|, cs[1..]);
    }
  }

  lemma NameCharRange(c: int)
    requires IsNameChar(c, true)
    ensures 0x2D <= c <= 0xD7A3 && IsXmlChar(c)
    ensures c != AMPERSAND as int && c != LESS_THAN as int && c != EQUALS as int
            && c != GREATER_THAN as int && c != SLASH as int
  {
  }

  /** A delimiter that can follow a name. */
  predicate EndsName(b: Byte) {
    IsSpace(b) || b == EQUALS || b == GREATER_THAN || b == SLASH
  }

  lemma NameStarts(s: Text, i: nat, name: Text, cs: seq<int>)
    requires IsName(name, cs) && Matches(s, i, name)
    ensures Utf8ToInt(s, i).c == cs[0]
    ensures At(s, i) >= 0x80 || At(s, i) as int == cs[0]
    ensures PlainStart(At(s, i)) && At(s, i) != QUOTE && At(s, i) != SINGLE_QUOTE
            && At(s, i) != EQUALS && At(s, i) != SLASH && At(s, i) != GREATER_THAN
  {
    var c := cs[0];
    NameCharRange(c);
    MatchesSplit(s, i, IntToUtf8(c), Encoded(cs[1..]));
    DecodeEncoded(s, i, c);
    MatchesAt(s, i, IntToUtf8(c), 0);
    if c > 0x7F {
      XmlCharBytes(c);
    }
  }

  lemma NameLength(s: Text, i: nat, name: Text, cs: seq<int>)
    requires IsName(name, cs) && Matches(s, i, name) && EndsName(At(s, i + |name|))
    ensures name != [] && TokenLength(s, i) == |name| && PlainStart(At(s, i)) && At(s, i) != SLASH
  {
    hide Utf8ToInt, IsNameChar, Matches, Encoded;
    NameStarts(s, i, name, cs);
    DelimiterDecodes(s, i + |name|);
    NameEndsAt(s, i, cs);
    NameGoesOn(s, i, cs[0]);
    FirstInside(cs[0]);
    EncodedSome(cs);
  }

  lemma DelimiterDecodes(s: Text, i: nat)
    requires EndsName(At(s, i))
    ensures !IsNameChar(Utf8ToInt(s, i).c, true)
  {
  }

  lemma FirstInside(c: int)
    requires IsNameChar(c, false)
    ensures IsNameChar(c, true)
  {
  }

  lemma NameGoesOn(s: Text, i: nat, c: int)
    requires Utf8ToInt(s, i).c == c && IsNameChar(c, true)
    ensures NameEnd(s, i) == NameEnd(s, i + Utf8ToInt(s, i).len)
  {
    hide Utf8ToInt, IsNameChar;
  }

  lemma EncodedSome(cs: seq<int>)
    requires cs != [] && IsNameChar(cs[0], true)
    ensures Encoded(cs) != []
  {
    NameCharRange(cs[0]);
  }

  /** The next token is the name printed here. */
  lemma NameToken(s: Text, i: nat, name: Text, save: nat)
    requires GoodName(name) && Matches(s, i, name) && EndsName(At(s, i + |name|))
    ensures name != [] && NextToken(s, i, save) == Token(|name|, name, i + |name|, save)
    ensures PlainStart(At(s, i))
  {
    hide SkipMisc, CopyFrom, NextToken, TokenLength;
    var cs :| IsName(name, cs);
    NameLength(s, i, name, cs);
    PlainMisc(s, i);
    forall k | 0 <= k < |cs| ensures IsXmlChar(cs[k]) && cs[k] != AMPERSAND as int {
      NameCharRange(cs[k]);
    }
    CopyInvertsWriting(s, i, cs, false);
    TokenAt(s, i, save, |name|, name);
  }

  lemma NameFirstByte(s: Text, i: nat, name: Text)
    requires GoodName(name) && Matches(s, i, name)
    ensures At(s, i) != 0x21 && At(s, i) != 0x3F
  {
    var cs :| IsName(name, cs);
    NameStarts(s, i, name, cs);
  }

  /** A `<` before a name is a token of its own. */
  lemma OpenToken(s: Text, i: nat, name: Text, save: nat)
    requires GoodName(name) && At(s, i) == LESS_THAN && Matches(s, i + 1, name)
    ensures AtTag(s, i) && !Matches(s, i, CDSTART)
    ensures NextToken(s, i, save) == Token(1, [LESS_THAN], i + 1, save)
  {
    hide SkipMisc, CopyFrom, NextToken, Utf8ToInt, IsNameChar, Matches, Encoded, AtTag;
    var cs :| IsName(name, cs);
    NameStarts(s, i + 1, name, cs);
    NameFirstByte(s, i + 1, name);
    TagStart(s, i);
    CopyDelimiters(s, i, 1);
    assert TokenLength(s, i) == 1 by { NoSlashName(cs[0]); }
    TokenAt(s, i, save, 1, [LESS_THAN]);
  }

  lemma NoSlashName(c: int)
    requires IsNameChar(c, false)
    ensures c != SLASH as int
  {
  }

  lemma TagStart(s: Text, i: nat)
    requires At(s, i) == LESS_THAN && At(s, i + 1) != 0x21 && At(s, i + 1) != 0x3F
    ensures AtTag(s, i) && !Matches(s, i, CDSTART) && SkipMisc(s, i) == Skipped(true, i)
  {
    NotAt(s, i, BEGIN_COMMENT, 1);
    NotAt(s, i, BEGIN_PI, 1);
    NotAt(s, i, CDSTART, 1);
    NotAtDecl(s, i);
    hide MatchesNoCase;
  }

  lemma CloseToken(s: Text, i: nat, save: nat)
    requires Matches(s, i, ENDTAG)
    ensures AtTag(s, i) && !Matches(s, i, CDSTART)
    ensures NextToken(s, i, save) == Token(2, ENDTAG, i + 2, save)
  {
    hide SkipMisc, NextToken;
    MatchesAt(s, i, ENDTAG, 0);
    MatchesAt(s, i, ENDTAG, 1);
    TagStart(s, i);
    CopyDelimiters(s, i, 2);
    TokenAt(s, i, save, 2, ENDTAG);
  }

  /** After white space and before anything that is not markup, the token is the one there. */
  lemma TokenAfterSpace(s: Text, i: nat, save: nat)
    requires At(s, i) == SPACE && PlainStart(At(s, i + 1))
    ensures NextToken(s, i, save) == NextToken(s, i + 1, save)
  {
    hide TokenLength, CopyFrom;
    PlainMisc(s, i + 1);
    SpacesEnd(s, i, i + 1);
    assert Lower(At(s, i)) != LESS_THAN;
  }
}
