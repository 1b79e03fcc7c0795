/** Escaping of text by the printer and its inverse in the parser's token copier. */
module Escape {
  import opened Bytes
  import opened Utf8

  // "&quot;" and its like, in lower case
  const QUOT: Text := [0x26, 0x71, 0x75, 0x6F, 0x74, 0x3B]
  const LT: Text := [0x26, 0x6C, 0x74, 0x3B]
  const GT: Text := [0x26, 0x67, 0x74, 0x3B]
  const APOS: Text := [0x26, 0x61, 0x70, 0x6F, 0x73, 0x3B]
  const AMP: Text := [0x26, 0x61, 0x6D, 0x70, 0x3B]
  const ESC_HEX: Text := [0x26, 0x23, 0x78]
  const ESC_DEC: Text := [0x26, 0x23]

  /* ---- the printer's side ---- */

  function EscapeByte(b: Byte): Text {
    if b == LESS_THAN then LT
    else if b == GREATER_THAN then GT
    else if b == AMPERSAND then AMP
    else if b == SINGLE_QUOTE then APOS
    else if b == QUOTE then QUOT
    else [b]
  }

  function Escaped(t: Text): Text {
    if t == [] then [] else EscapeByte(t[0]) + Escaped(t[1..])
  }

  class MemBuf {
    var data: Text

    constructor ()
      ensures data == []
    {
      data := [];
    }

    method Append(t: Text)
      modifies this
      ensures data == old(data) + t
    {
      data := data + t;
    }
  }

  lemma {:induction false} EscapedConcat(a: Text, b: Text)
    ensures Escaped(a + b) == Escaped(a) + Escaped(b)
  {
    if a == [] {
      assert a + b == b;
    } else {
      assert (a + b)[1..] == a[1..] + b;
      EscapedConcat(a[1..], b);
    }
  }

  lemma EscapedNext(p: Text, i: nat)
    requires i < |p|
    ensures Escaped(p[..i + 1]) == Escaped(p[..i]) + EscapeByte(p[i])
  {
    assert p[..i + 1] == p[..i] + [p[i]];
    EscapedConcat(p[..i], [p[i]]);
    assert Escaped([p[i]]) == EscapeByte(p[i]) + Escaped([]);
  }

  method AppendEscaped(buf: MemBuf, b: Byte)
    modifies buf
    ensures buf.data == old(buf.data) + EscapeByte(b)
  {
    if b == LESS_THAN {
      buf.Append(LT);
    } else if b == GREATER_THAN {
      buf.Append(GT);
    } else if b == AMPERSAND {
      buf.Append(AMP);
    } else if b == SINGLE_QUOTE {
      buf.Append(APOS);
    } else if b == QUOTE {
      buf.Append(QUOT);
    } else {
      buf.Append([b]);
    }
  }

  method CopyWithEscape(buf: MemBuf, p: Text)
    modifies buf
    ensures buf.data == old(buf.data) + Escaped(p)
  {
    hide EscapeByte;
    var i := 0;
    while i < |p|
      invariant i <= |p|
      invariant buf.data == old(buf.data) + Escaped(p[..i])
    {
      AppendEscaped(buf, p[i]);
      EscapedNext(p, i);
      i := i + 1;
    }
    assert p[..i] == p;
  }

  /** What the printer writes for a text node has no markup delimiter and no quote. */
  lemma {:induction false} EscapedHasNoMarkup(t: Text, k: nat)
    requires k < |Escaped(t)|
    ensures Escaped(t)[k] != LESS_THAN && Escaped(t)[k] != GREATER_THAN
    ensures Escaped(t)[k] != SINGLE_QUOTE && Escaped(t)[k] != QUOTE
  {
    var first := EscapeByte(t[0]);
    if k >= |first| {
      EscapedHasNoMarkup(t[1..], k - |first|);
    }
  }

  /* ---- the parser's side ---- */

  function Lower(b: Byte): Byte {
    if 0x41 <= b <= 0x5A then b + 0x20 else b
  }

  /** `t`, which is in lower case, occurs at position i in any mix of cases. */
  predicate MatchesNoCase(s: Text, i: nat, t: Text)
    decreases |t|
  {
    t == [] || (Lower(At(s, i)) == t[0] && MatchesNoCase(s, i + 1, t[1..]))
  }

  lemma {:induction false} MatchesNoCaseBound(s: Text, i: nat, t: Text)
    requires MatchesNoCase(s, i, t) && 0 !in t
    ensures t != [] ==> i + |t| <= |s|
    decreases |t|
  {
    if t != [] {
      assert t[0] in t;
      if |t| > 1 {
        MatchesNoCaseBound(s, i + 1, t[1..]);
      }
    }
  }

  lemma {:induction false} MatchesIgnoringCase(s: Text, i: nat, t: Text)
    requires Matches(s, i, t) && forall b :: b in t ==> Lower(b) == b
    ensures MatchesNoCase(s, i, t)
    decreases |t|
  {
    if t != [] {
      assert t == [t[0]] + t[1..];
      MatchesSplit(s, i, [t[0]], t[1..]);
      MatchesAt(s, i, t, 0);
      MatchesIgnoringCase(s, i + 1, t[1..]);
    }
  }

  predicate IsDigit(b: Byte) {
    0x30 <= b <= 0x39
  }

  predicate IsHexDigit(b: Byte) {
    IsDigit(b) || 0x41 <= b <= 0x46 || 0x61 <= b <= 0x66
  }

  function DigitValue(b: Byte): int {
    if b <= 0x39 then b - 0x30
    else if b <= 0x46 then b - 0x41 + 10
    else b - 0x61 + 10
  }

  datatype Number = Number(sum: int, end: nat)

  /** The run of digits in the given base from position i, accumulated onto `sum`. */
  function Digits(s: Text, i: nat, base: int, sum: int): (n: Number)
    requires base == 10 || base == 16
    ensures n.end >= i && n.end <= (if i > |s| then i else |s|)
    decreases |s| - i
  {
    if i < |s| && (if base == 16 then IsHexDigit(s[i]) else IsDigit(s[i])) then
      Digits(s, i + 1, base, sum * base + DigitValue(s[i]))
    else Number(sum, i)
  }

  /** A numeric reference starting at i whose digits start at `start`. */
  function Reference(s: Text, i: nat, start: nat, base: int): (d: Decoded)
    requires base == 10 || base == 16
    requires i < start
    ensures d.c > 0 ==> 0 < d.len && i + d.len <= |s|
  {
    var n := Digits(s, start, base, 0);
    if At(s, n.end) != SEMICOLON || !IsXmlChar(n.sum) then Decoded(-1, 0)
    else Decoded(n.sum, n.end - i + 1)
  }

  /** The next character at position i, entities translated, and how many bytes it takes;
      a character of -1 is a failure. */
  function GetChar(s: Text, i: nat): (d: Decoded)
    ensures d.c > 0 ==> 0 < d.len && i + d.len <= |s|
  {
    var b := At(s, i);
    if b != AMPERSAND then
      if 0 < b < 0x80 && IsXmlChar(b) then Decoded(b, 1)
      else
        var d := Utf8ToInt(s, i);
        if IsXmlChar(d.c) then d else Decoded(-1, d.len)
    else Entity(s, i)
  }

  function Entity(s: Text, i: nat): (d: Decoded)
    ensures d.c > 0 ==> 0 < d.len && i + d.len <= |s|
  {
    if MatchesNoCase(s, i, QUOT) then MatchesNoCaseBound(s, i, QUOT); Decoded(QUOTE, |QUOT|)
    else if MatchesNoCase(s, i, LT) then MatchesNoCaseBound(s, i, LT); Decoded(LESS_THAN, |LT|)
    else if MatchesNoCase(s, i, GT) then MatchesNoCaseBound(s, i, GT); Decoded(GREATER_THAN, |GT|)
    else if MatchesNoCase(s, i, APOS) then MatchesNoCaseBound(s, i, APOS); Decoded(SINGLE_QUOTE, |APOS|)
    else if MatchesNoCase(s, i, AMP) then MatchesNoCaseBound(s, i, AMP); Decoded(AMPERSAND, |AMP|)
    else if MatchesNoCase(s, i, ESC_HEX) then Reference(s, i, i + 3, 16)
    else if MatchesNoCase(s, i, ESC_DEC) then Reference(s, i, i + 2, 10)
    else Decoded(-1, 0)
  }

  /** Whatever GetChar returns is a legal character. */
  lemma GetCharIsXml(s: Text, i: nat)
    requires GetChar(s, i).c > 0
    ensures IsXmlChar(GetChar(s, i).c)
  {
    hide MatchesNoCase, Digits, Utf8ToInt;
  }

  datatype Copied = Copied(ok: bool, text: Text)

  /** The token buffer after copying positions i .. end, and whether all of it was legal. */
  function CopyFrom(s: Text, i: nat, end: nat): Copied
    decreases |s| - i
  {
    if i >= end then Copied(i == end, [])
    else
      var d := GetChar(s, i);
      if d.c <= 0 then Copied(false, [])
      else
        var rest := CopyFrom(s, i + d.len, end);
        Copied(rest.ok, (if d.len == 1 then [d.c] else IntToUtf8(d.c)) + rest.text)
  }

  /** One turn of the copying loop. */
  lemma CopyUnfold(s: Text, i: nat, end: nat)
    ensures i >= end ==> CopyFrom(s, i, end) == Copied(i == end, [])
    ensures i < end && GetChar(s, i).c <= 0 ==> CopyFrom(s, i, end) == Copied(false, [])
    ensures i < end && GetChar(s, i).c > 0 ==>
      var d := GetChar(s, i);
      && i + d.len <= |s| && d.len > 0 && (d.len == 1 ==> 0 <= d.c < 0x80)
      && CopyFrom(s, i, end) == Copied(CopyFrom(s, i + d.len, end).ok,
           (if d.len == 1 then [d.c] else IntToUtf8(d.c)) + CopyFrom(s, i + d.len, end).text)
  {
    OneByteChar(s, i);
    hide GetChar, IntToUtf8;
  }

  /** One turn of the copying loop, appending to a buffer. */
  lemma CopyAppends(s: Text, i: nat, end: nat, buffer: Text)
    requires i < end && GetChar(s, i).c > 0
    ensures var d := GetChar(s, i);
            && i + d.len <= |s| && d.len > 0 && (d.len == 1 ==> 0 <= d.c < 0x80)
            && CopyFrom(s, i, end).ok == CopyFrom(s, i + d.len, end).ok
            && buffer + CopyFrom(s, i, end).text
               == buffer + (if d.len == 1 then [d.c] else IntToUtf8(d.c)) + CopyFrom(s, i + d.len, end).text
  {
    hide GetChar, IntToUtf8, CopyFrom;
    CopyUnfold(s, i, end);
  }

  lemma OneByteChar(s: Text, i: nat)
    ensures GetChar(s, i).c > 0 && GetChar(s, i).len == 1 ==> 0 <= GetChar(s, i).c < 0x80
  {
    hide MatchesNoCase;
  }

  /* ---- one undoes the other ---- */

  predicate AllXml(cs: seq<int>) {
    forall k :: 0 <= k < |cs| ==> IsXmlChar(cs[k])
  }

  /** The UTF-8 form of a sequence of code points. */
  function Encoded(cs: seq<int>): Text {
    if cs == [] then [] else IntToUtf8(cs[0]) + Encoded(cs[1..])
  }

  lemma {:induction false} EscapedHigh(t: Text)
    requires forall k :: 0 <= k < |t| ==> t[k] >= 0x80
    ensures Escaped(t) == t
  {
    if t != [] {
      EscapedHigh(t[1..]);
      assert t == [t[0]] + t[1..];
      assert EscapeByte(t[0]) == [t[0]];
      hide EscapeByte;
    }
  }

  lemma {:induction false} EncodeHigh(c: nat, n: nat, mark: Byte)
    requires 0x80 <= mark && c < (0x100 - mark) * Pow64(n)
    ensures forall k :: 0 <= k <= n ==> Encode(c, n, mark)[k] >= 0x80
  {
    if n > 0 {
      OneDigitLess(c, 0x100 - mark, Pow64(n - 1));
      EncodeHigh(c / 0x40, n - 1, mark);
    }
  }

  /** Every byte of a multi-byte character has its top bit set. */
  lemma XmlCharBytes(c: int)
    requires IsXmlChar(c) && c > 0x7F
    ensures |IntToUtf8(c)| > 1
    ensures forall k :: 0 <= k < |IntToUtf8(c)| ==> IntToUtf8(c)[k] >= 0x80
  {
    Powers();
    if c <= 0x7FF {
      EncodeHigh(c, 1, 0xC0);
    } else if c <= 0xFFFF {
      EncodeHigh(c, 2, 0xE0);
    } else {
      EncodeHigh(c, 3, 0xF0);
    }
  }

  /** One legal character, written raw (never `&`), is read back whole. */
  lemma GetRawChar(s: Text, i: nat, c: int)
    requires IsXmlChar(c) && c != AMPERSAND && Matches(s, i, IntToUtf8(c))
    ensures GetChar(s, i) == Decoded(c, |IntToUtf8(c)|)
  {
    MatchesAt(s, i, IntToUtf8(c), 0);
    if c > 0x7F {
      XmlCharBytes(c);
    }
    DecodeEncoded(s, i, c);
  }

  lemma GetEntity(s: Text, i: nat, b: Byte)
    requires EscapeByte(b) != [b] && Matches(s, i, EscapeByte(b))
    ensures GetChar(s, i) == Decoded(b, |EscapeByte(b)|)
  {
    hide Matches, MatchesNoCase, Digits;
    var e := EscapeByte(b);
    MatchesIgnoringCase(s, i, e);
    MatchesAt(s, i, e, 0);
    OneEntity(s, i, e);
  }

  /** Any two of the entities differ in their first two letters. */
  lemma OneEntity(s: Text, i: nat, e: Text)
    requires e in {QUOT, LT, GT, APOS, AMP} && Matches(s, i, e)
    ensures forall t :: t in {QUOT, LT, GT, APOS, AMP} && MatchesNoCase(s, i, t) ==> t == e
  {
    MatchesAt(s, i, e, 1);
    MatchesAt(s, i, e, 2);
    forall t | t in {QUOT, LT, GT, APOS, AMP} && MatchesNoCase(s, i, t) ensures t == e {
      NoCaseAt(s, i, t);
    }
    hide Matches, MatchesNoCase;
  }

  lemma NoCaseAt(s: Text, i: nat, t: Text)
    requires |t| > 2 && MatchesNoCase(s, i, t)
    ensures Lower(At(s, i + 1)) == t[1] && Lower(At(s, i + 2)) == t[2]
  {
    assert MatchesNoCase(s, i + 1, t[1..]) && MatchesNoCase(s, i + 2, t[1..][1..]);
    assert t[1..][0] == t[1] && t[1..][1..][0] == t[2];
  }

  /** How the printer writes one character: escaped in text, raw in attribute values and names. */
  function Written(c: int, escape: bool): Text {
    if escape then Escaped(IntToUtf8(c)) else IntToUtf8(c)
  }

  function WrittenAll(cs: seq<int>, escape: bool): Text {
    if escape then Escaped(Encoded(cs)) else Encoded(cs)
  }

  lemma WrittenOne(c: int)
    requires IsXmlChar(c)
    ensures Escaped(IntToUtf8(c)) == if c <= 0x7F then EscapeByte(c) else IntToUtf8(c)
  {
    if c <= 0x7F {
      assert [c][1..] == [];
    } else {
      XmlCharBytes(c);
      EscapedHigh(IntToUtf8(c));
    }
  }

  /** One legal character is read back whole, translated. */
  lemma GetWrittenChar(s: Text, i: nat, c: int, escape: bool)
    requires IsXmlChar(c) && (escape || c != AMPERSAND) && Matches(s, i, Written(c, escape))
    ensures GetChar(s, i) == Decoded(c, |Written(c, escape)|)
    ensures |Written(c, escape)| == 1 ==> IntToUtf8(c) == [c]
  {
    WrittenOne(c);
    if c > 0x7F {
      XmlCharBytes(c);
      GetRawChar(s, i, c);
    } else if escape && EscapeByte(c) != [c] {
      GetEntity(s, i, c);
    } else {
      GetRawChar(s, i, c);
    }
  }

  lemma WrittenNext(cs: seq<int>, escape: bool)
    requires cs != []
    ensures WrittenAll(cs, escape) == Written(cs[0], escape) + WrittenAll(cs[1..], escape)
  {
    EscapedConcat(IntToUtf8(cs[0]), Encoded(cs[1..]));
  }

  /** Copying what the printer wrote for a text or an attribute value gives the original bytes. */
  lemma {:induction false} CopyInvertsWriting(s: Text, i: nat, cs: seq<int>, escape: bool)
    requires AllXml(cs) && (escape || AMPERSAND !in cs)
    requires Matches(s, i, WrittenAll(cs, escape))
    ensures CopyFrom(s, i, i + |WrittenAll(cs, escape)|) == Copied(true, Encoded(cs))
    decreases |cs|
  {
    hide GetChar, IntToUtf8, Written, WrittenAll, CopyFrom, Encoded, AllXml, Matches;
    CopyUnfold(s, i, i + |WrittenAll(cs, escape)|);
    if cs == [] {
      NoneWritten(escape);
    } else {
      var first, rest := Written(cs[0], escape), WrittenAll(cs[1..], escape);
      FirstLegal(cs);
      WrittenNext(cs, escape);
      MatchesSplit(s, i, first, rest);
      GetWrittenChar(s, i, cs[0], escape);
      CopyInvertsWriting(s, i + |first|, cs[1..], escape);
      assert i + |WrittenAll(cs, escape)| == i + |first| + |rest|;
    }
  }

  lemma NoneWritten(escape: bool)
    ensures WrittenAll([], escape) == [] && Encoded([]) == []
  {
  }

  lemma FirstLegal(cs: seq<int>)
    requires cs != [] && AllXml(cs)
    ensures IsXmlChar(cs[0]) && AllXml(cs[1..]) && Encoded(cs) == IntToUtf8(cs[0]) + Encoded(cs[1..])
  {
  }

  /** Unescaping undoes escaping. */
  lemma UnescapeInvertsEscape(cs: seq<int>)
    requires AllXml(cs)
    ensures var t := Encoded(cs);
            CopyFrom(Escaped(t), 0, |Escaped(t)|) == Copied(true, t)
  {
    hide CopyFrom, Escaped, Encoded;
    var e := WrittenAll(cs, true);
    assert e[0..|e|] == e;
    CopyInvertsWriting(e, 0, cs, true);
  }
}
