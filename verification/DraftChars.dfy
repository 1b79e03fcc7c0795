/** Copying characters however they are spelled. */
module DraftChars {
  import opened Bytes
  import opened Utf8
  import opened Escape
  import opened Scanner
  import opened RoundTrip
  import opened Drafts

  /* ---- one character ---- */

  lemma {:induction false} NoCaseOf(s: Text, i: nat, spelling: Text, name: Text)
    requires Matches(s, i, spelling) && |spelling| == |name|
    requires forall k :: 0 <= k < |spelling| ==> Lower(spelling[k]) == name[k]
    ensures MatchesNoCase(s, i, name)
    decreases |name|
  {
    if name != [] {
      assert spelling == [spelling[0]] + spelling[1..];
      MatchesSplit(s, i, [spelling[0]], spelling[1..]);
      MatchesAt(s, i, spelling, 0);
      NoCaseOf(s, i + 1, spelling[1..], name[1..]);
    }
  }

  lemma EntityApart(s: Text, i: nat, e: Text)
    requires e in {QUOT, LT, GT, APOS, AMP} && MatchesNoCase(s, i, e)
    ensures forall t :: t in {QUOT, LT, GT, APOS, AMP} && MatchesNoCase(s, i, t) ==> t == e
    ensures Lower(At(s, i)) == AMPERSAND
  {
    NoCaseAt(s, i, e);
    forall t | t in {QUOT, LT, GT, APOS, AMP} && MatchesNoCase(s, i, t) ensures t == e {
      NoCaseAt(s, i, t);
    }
    assert MatchesNoCase(s, i, e) ==> Lower(At(s, i)) == e[0];
    hide MatchesNoCase;
  }

  lemma GetNamed(s: Text, i: nat, c: Char)
    requires GoodChar(c) && c.Named? && Matches(s, i, Spelled(c))
    ensures GetChar(s, i) == Decoded(Value(c), |Spelled(c)|) && |Spelled(c)| > 1
  {
    hide Matches, MatchesNoCase, Digits, Utf8ToInt;
    var e := EntityName(c.sign);
    NoCaseOf(s, i, c.spelling, e);
    EntityApart(s, i, e);
    assert At(s, i) == AMPERSAND;
  }

  /** The digits in front of position i + k have been read. */
  lemma {:induction false} DigitsRead(s: Text, i: nat, base: int, t: Text, k: nat)
    requires (base == 10 || base == 16) && DigitsOnly(t, base) && Matches(s, i, t) && k <= |t|
    requires At(s, i + |t|) == SEMICOLON
    ensures Digits(s, i + k, base, Numeral(t[..k], base)) == Number(Numeral(t, base), i + |t|)
    decreases |t| - k
  {
    if k == |t| {
      assert t[..k] == t;
      DigitsEnd(s, i + |t|, base, Numeral(t, base));
    } else {
      hide Digits, Matches, Numeral;
      MatchesAt(s, i, t, k);
      NumeralNext(t, k, base);
      DigitsNext(s, i + k, base, Numeral(t[..k], base), t[k]);
      DigitsRead(s, i, base, t, k + 1);
      assert i + k + 1 == i + (k + 1);
    }
  }

  lemma DigitsEnd(s: Text, i: nat, base: int, sum: int)
    requires (base == 10 || base == 16) && At(s, i) == SEMICOLON
    ensures Digits(s, i, base, sum) == Number(sum, i)
  {
  }

  lemma DigitsNext(s: Text, i: nat, base: int, sum: int, b: Byte)
    requires (base == 10 || base == 16) && At(s, i) == b && if base == 16 then IsHexDigit(b) else IsDigit(b)
    ensures Digits(s, i, base, sum) == Digits(s, i + 1, base, sum * base + DigitOf(b))
  {
    assert DigitOf(b) == DigitValue(b);
  }

  lemma NumeralNext(t: Text, k: nat, base: int)
    requires k < |t|
    ensures Numeral(t[..k + 1], base) == Numeral(t[..k], base) * base + DigitOf(t[k])
  {
    assert t[..k + 1][..k] == t[..k];
  }

  lemma GetNumeric(s: Text, i: nat, start: nat, t: Text, base: int)
    requires (base == 10 || base == 16) && DigitsOnly(t, base) && i < start && Matches(s, start, t)
    requires At(s, start + |t|) == SEMICOLON && IsXmlChar(Numeral(t, base))
    ensures Reference(s, i, start, base) == Decoded(Numeral(t, base), start + |t| - i + 1)
  {
    hide Matches, Numeral;
    assert t[..0] == [];
    DigitsRead(s, start, base, t, 0);
    NoDigits(base);
    assert start + 0 == start;
  }

  lemma NoDigits(base: int)
    ensures Numeral([], base) == 0
  {
  }

  lemma NumeralNeedsDigits(t: Text, base: int)
    requires IsXmlChar(Numeral(t, base))
    ensures t != []
  {
  }

  /** Where the digits of a reference are. */
  lemma NumberLayout(s: Text, i: nat, start: Text, t: Text)
    requires Matches(s, i, start + (t + [SEMICOLON])) && |start| >= 2
    ensures Matches(s, i + |start|, t) && At(s, i + |start| + |t|) == SEMICOLON
    ensures forall k :: 0 <= k < |start| ==> At(s, i + k) == start[k]
    ensures t != [] ==> At(s, i + |start|) == t[0]
  {
    MatchesSplit(s, i, start, t + [SEMICOLON]);
    MatchesSplit(s, i + |start|, t, [SEMICOLON]);
    MatchesAt(s, i + |start| + |t|, [SEMICOLON], 0);
    forall k | 0 <= k < |start| ensures At(s, i + k) == start[k] {
      MatchesAt(s, i, start, k);
    }
    if t != [] {
      MatchesAt(s, i + |start|, t, 0);
    }
  }

  /** A reference is read by the branch of its base. */
  lemma NumberRead(s: Text, i: nat, hex: bool)
    requires At(s, i) == AMPERSAND && At(s, i + 1) == HASH_SIGN && (hex <==> Lower(At(s, i + 2)) == 0x78)
    ensures GetChar(s, i) == if hex then Reference(s, i, i + 3, 16) else Reference(s, i, i + 2, 10)
  {
    NumberStart(s, i);
    hide MatchesNoCase, Reference;
  }

  lemma DecimalSpelled(c: Char)
    requires GoodChar(c) && c.Decimal?
    ensures Spelled(c) == [AMPERSAND, HASH_SIGN] + (c.digits + [SEMICOLON]) && Value(c) == Numeral(c.digits, 10)
    ensures DigitsOnly(c.digits, 10) && IsXmlChar(Numeral(c.digits, 10))
    ensures c.digits != [] && Lower(c.digits[0]) != 0x78
  {
    hide Numeral, IsXmlChar;
    NumeralNeedsDigits(c.digits, 10);
    assert IsDigit(c.digits[0]);
  }

  lemma GetDecimal(s: Text, i: nat, c: Char)
    requires GoodChar(c) && c.Decimal? && Matches(s, i, Spelled(c))
    ensures GetChar(s, i) == Decoded(Value(c), |Spelled(c)|) && |Spelled(c)| > 1
  {
    hide GetChar, Matches, Reference, Numeral, GoodChar, Spelled, Value, DigitsOnly, IsXmlChar, Lower, At;
    var t, start := c.digits, [AMPERSAND, HASH_SIGN];
    DecimalSpelled(c);
    NumberLayout(s, i, start, t);
    assert At(s, i + 0) == start[0] && At(s, i + 1) == start[1];
    GetNumeric(s, i, i + 2, t, 10);
    NumberRead(s, i, false);
  }

  /** After `&#` only a numeric reference can follow. */
  lemma NumberStart(s: Text, i: nat)
    requires At(s, i) == AMPERSAND && At(s, i + 1) == HASH_SIGN
    ensures forall t :: t in {QUOT, LT, GT, APOS, AMP} ==> !MatchesNoCase(s, i, t)
    ensures MatchesNoCase(s, i, ESC_HEX) <==> Lower(At(s, i + 2)) == 0x78
    ensures MatchesNoCase(s, i, ESC_DEC)
  {
    forall t | t in {QUOT, LT, GT, APOS, AMP} ensures !MatchesNoCase(s, i, t) {
      if MatchesNoCase(s, i, t) { NoCaseAt(s, i, t); }
    }
    assert ESC_HEX[1..][0] == 0x23 && ESC_HEX[1..][1..][0] == 0x78 && ESC_HEX[1..][1..][1..] == [];
    assert ESC_DEC[1..][0] == 0x23 && ESC_DEC[1..][1..] == [];
    assert MatchesNoCase(s, i + 1, ESC_HEX[1..]) <==> MatchesNoCase(s, i + 2, ESC_HEX[1..][1..]);
    assert MatchesNoCase(s, i + 2, ESC_HEX[1..][1..]) <==> Lower(At(s, i + 2)) == 0x78;
    assert MatchesNoCase(s, i + 1, ESC_DEC[1..]);
  }

  lemma HexadecimalSpelled(c: Char)
    requires GoodChar(c) && c.Hexadecimal?
    ensures Spelled(c) == [AMPERSAND, HASH_SIGN, c.mark] + (c.digits + [SEMICOLON])
    ensures Value(c) == Numeral(c.digits, 16) && Lower(c.mark) == 0x78
    ensures DigitsOnly(c.digits, 16) && IsXmlChar(Numeral(c.digits, 16))
  {
    hide Numeral, IsXmlChar, DigitsOnly;
  }

  lemma GetHexadecimal(s: Text, i: nat, c: Char)
    requires GoodChar(c) && c.Hexadecimal? && Matches(s, i, Spelled(c))
    ensures GetChar(s, i) == Decoded(Value(c), |Spelled(c)|) && |Spelled(c)| > 1
  {
    hide GetChar, Matches, Reference, Numeral, GoodChar, Spelled, Value, DigitsOnly, IsXmlChar, Lower, At;
    var t, start := c.digits, [AMPERSAND, HASH_SIGN, c.mark];
    HexadecimalSpelled(c);
    NumberLayout(s, i, start, t);
    assert At(s, i + 0) == start[0] && At(s, i + 1) == start[1] && At(s, i + 2) == start[2];
    GetNumeric(s, i, i + 3, t, 16);
    NumberRead(s, i, true);
  }

  /** A character is read as what it means, however it is spelled. */
  lemma GetSpelled(s: Text, i: nat, c: Char)
    requires GoodChar(c) && Matches(s, i, Spelled(c))
    ensures GetChar(s, i) == Decoded(Value(c), |Spelled(c)|)
    ensures |Spelled(c)| == 1 ==> IntToUtf8(Value(c)) == [Value(c)]
  {
    hide GetChar, Matches, Numeral, IntToUtf8;
    match c
    case Plain(v) =>
      GetRawChar(s, i, v);
      if |IntToUtf8(v)| == 1 {
        OneByte(v);
      }
    case Named(_, _) => GetNamed(s, i, c);
    case Decimal(_) => GetDecimal(s, i, c);
    case Hexadecimal(_, _) => GetHexadecimal(s, i, c);
  }

  lemma OneByte(c: int)
    requires IsXmlChar(c) && |IntToUtf8(c)| == 1
    ensures IntToUtf8(c) == [c]
  {
    if c > 0x7F {
      XmlCharBytes(c);
    }
  }

  /* ---- many ---- */

  lemma SpelledNext(cs: seq<Char>)
    requires cs != [] && GoodChars(cs)
    ensures SpelledAll(cs) == Spelled(cs[0]) + SpelledAll(cs[1..]) && GoodChar(cs[0]) && GoodChars(cs[1..])
    ensures Encoded(Values(cs)) == IntToUtf8(Value(cs[0])) + Encoded(Values(cs[1..]))
  {
    assert Values(cs)[1..] == Values(cs[1..]);
  }

  lemma NoneSpelled()
    ensures SpelledAll([]) == [] && Encoded(Values([])) == []
  {
  }

  /** Copying gives the characters meant. */
  lemma {:induction false} CopySpelled(s: Text, i: nat, cs: seq<Char>)
    requires GoodChars(cs) && Matches(s, i, SpelledAll(cs))
    ensures CopyFrom(s, i, i + |SpelledAll(cs)|) == Copied(true, Encoded(Values(cs)))
    decreases |cs|
  {
    hide GetChar, IntToUtf8, CopyFrom, Encoded, Matches, SpelledAll, Spelled, Value, Values, GoodChar, GoodChars;
    CopyUnfold(s, i, i + |SpelledAll(cs)|);
    if cs == [] {
      NoneSpelled();
    } else {
      var first, rest := Spelled(cs[0]), SpelledAll(cs[1..]);
      SpelledNext(cs);
      MatchesSplit(s, i, first, rest);
      GetSpelled(s, i, cs[0]);
      ValueIsXml(cs[0]);
      CopySpelled(s, i + |first|, cs[1..]);
      assert i + |SpelledAll(cs)| == i + |first| + |rest|;
      SpelledSome(cs[0]);
    }
  }

  lemma ValueIsXml(c: Char)
    requires GoodChar(c)
    ensures IsXmlChar(Value(c)) && Value(c) > 0
  {
    hide Numeral;
  }

  lemma SpelledSome(c: Char)
    requires GoodChar(c)
    ensures Spelled(c) != []
  {
    hide Numeral;
  }

  /** The bytes of references. */
  predicate ReferenceByte(b: Byte) {
    b == AMPERSAND || b == HASH_SIGN || b == SEMICOLON || IsDigit(b) || 0x41 <= b <= 0x5A || 0x61 <= b <= 0x7A
  }

  lemma NamedByte(c: Char, k: nat)
    requires GoodChar(c) && c.Named? && k < |Spelled(c)|
    ensures ReferenceByte(Spelled(c)[k])
  {
    assert Lower(c.spelling[k]) == EntityName(c.sign)[k];
  }

  lemma OneSpelledByte(c: Char, k: nat)
    requires GoodChar(c) && k < |Spelled(c)|
    ensures var b := Spelled(c)[k]; b != 0 && (b >= 0x80 || ReferenceByte(b) || c == Plain(b as int))
  {
    match c
    case Plain(v) => if v > 0x7F { XmlCharBytes(v); }
    case Named(_, _) => NamedByte(c, k);
    case _ => hide Numeral, IntToUtf8;
  }

  /** Every byte belongs to a reference, or to a character that is written as itself. */
  lemma {:induction false} SpelledByte(cs: seq<Char>, k: nat)
    requires GoodChars(cs) && k < |SpelledAll(cs)|
    ensures var b := SpelledAll(cs)[k]; b != 0 && (b >= 0x80 || ReferenceByte(b) || Plain(b as int) in cs)
  {
    hide Spelled, GoodChar, Value;
    var first := Spelled(cs[0]);
    assert GoodChar(cs[0]);
    if k < |first| {
      OneSpelledByte(cs[0], k);
    } else {
      SpelledByte(cs[1..], k - |first|);
    }
  }
}
