/** The parser's scanning functions over a buffer: what each one skips or reads from a position. */
module Scanner {
  import opened Bytes
  import opened Utf8
  import opened Escape
  import opened Names

  const BEGIN_COMMENT: Text := [0x3C, 0x21, 0x2D, 0x2D]
  const END_COMMENT: Text := [0x2D, 0x2D, 0x3E]
  const BEGIN_PI: Text := [0x3C, 0x3F]
  const END_PI: Text := [0x3F, 0x3E]
  const XMLDECL: Text := [0x3C, 0x3F, 0x78, 0x6D, 0x6C, 0x20]
  const XMLDECL2: Text := [0x3C, 0x3F, 0x78, 0x6D, 0x6C, 0x3F]
  const CDSTART: Text := [0x3C, 0x21, 0x5B, 0x43, 0x44, 0x41, 0x54, 0x41, 0x5B]
  const CDEND: Text := [0x5D, 0x5D, 0x3E]
  const BEGIN_DOCTYPE: Text := [0x3C, 0x21, 0x44, 0x4F, 0x43, 0x54, 0x59, 0x50, 0x45]
  const ENDTAG: Text := [0x3C, 0x2F]
  const COMPLETETAG: Text := [0x2F, 0x3E]

  /** The end of the C string that starts at or before i: the first NUL from i on. */
  function EndOfString(s: Text, i: nat): (e: nat)
    ensures e >= i && At(s, e) == 0 && (i <= |s| ==> e <= |s|)
    ensures forall k :: i <= k < e ==> At(s, k) != 0
    decreases |s| - i
  {
    if At(s, i) == 0 then i else EndOfString(s, i + 1)
  }

  function SkipSpaces(s: Text, i: nat): (e: nat)
    ensures e >= i && (i <= |s| ==> e <= |s|)
    ensures !IsSpace(At(s, e))
    ensures forall k :: i <= k < e ==> IsSpace(At(s, k))
    decreases |s| - i
  {
    if IsSpace(At(s, i)) then SkipSpaces(s, i + 1) else i
  }

  /** The first occurrence of a non-empty `t` from position i on, or the end of the string. */
  function Find(s: Text, i: nat, t: Text): (e: nat)
    ensures e >= i && (i <= |s| ==> e <= |s|)
    ensures At(s, e) == 0 || Matches(s, e, t)
    ensures forall k :: i <= k < e ==> !Matches(s, k, t) && At(s, k) != 0
    decreases |s| - i
  {
    if At(s, i) == 0 || Matches(s, i, t) then i else Find(s, i + 1, t)
  }

  datatype Skipped = Skipped(ok: bool, pos: nat)

  /** Past the first occurrence of the key. */
  function SkipString(s: Text, i: nat, key: Text): Skipped {
    var e := Find(s, i, key);
    if At(s, e) == 0 then Skipped(false, e) else Skipped(true, e + |key|)
  }

  function SkipComment(s: Text, i: nat): Skipped {
    var e := Find(s, i, END_COMMENT);
    if At(s, e) != 0 && e != i && At(s, e - 1) != 0x2D then Skipped(true, e + |END_COMMENT|)
    else Skipped(false, i)
  }

  predicate AtXmlDecl(s: Text, i: nat) {
    MatchesNoCase(s, i, XMLDECL) || MatchesNoCase(s, i, XMLDECL2)
  }

  function SkipPI(s: Text, i: nat): Skipped {
    if AtXmlDecl(s, i) then Skipped(false, i)
    else if MatchesNoCase(s, i, BEGIN_PI) then
      var e := Find(s, i, END_PI);
      if At(s, e) != 0 && e != i then Skipped(true, e + |BEGIN_PI|) else Skipped(false, i)
    else Skipped(true, i)
  }

  /** Comments, processing instructions and white space. */
  function SkipMisc(s: Text, i: nat): (k: Skipped)
    ensures k.pos >= i && (i <= |s| ==> k.pos <= |s|)
    decreases |s| - i
  {
    if MatchesNoCase(s, i, BEGIN_COMMENT) then
      SkipMiscRest(s, i, SkipComment(s, i))
    else if AtXmlDecl(s, i) then
      Skipped(false, SkipSpaces(s, i))
    else if MatchesNoCase(s, i, BEGIN_PI) then
      SkipMiscRest(s, i, SkipString(s, i, END_PI))
    else Skipped(true, SkipSpaces(s, i))
  }

  /** The turns of the loop after one comment or instruction has been skipped. */
  function SkipMiscRest(s: Text, i: nat, k: Skipped): (r: Skipped)
    requires k.pos >= i && (k.ok ==> i < k.pos <= |s|) && (i <= |s| ==> k.pos <= |s|)
    ensures r.pos >= i && (i <= |s| ==> r.pos <= |s|)
    decreases |s| - i, 0
  {
    var j := SkipSpaces(s, k.pos);
    if k.ok then SkipMisc(s, j) else Skipped(false, j)
  }

  /** Past the characters a name continues with. */
  function NameEnd(s: Text, i: nat): (e: nat)
    ensures e >= i && (i <= |s| ==> e <= |s|)
    decreases |s| - i
  {
    var d := Utf8ToInt(s, i);
    if IsNameChar(d.c, true) then NameEnd(s, i + d.len) else i
  }

  /** How many bytes the token at position i takes; 0 when there is none. */
  function TokenLength(s: Text, i: nat): (n: nat)
    ensures n > 0 ==> i + n <= |s|
  {
    var b := At(s, i);
    if b == QUOTE || b == SINGLE_QUOTE then 1
    else if b == LESS_THAN then
      var c := Utf8ToInt(s, i + 1).c;
      if c == SLASH as int then 2 else if IsNameChar(c, false) then 1 else 0
    else if b == EQUALS then 1
    else if b == SLASH then (if At(s, i + 1) == GREATER_THAN then 2 else 0)
    else if b == GREATER_THAN then 1
    else
      var d := Utf8ToInt(s, i);
      if IsNameChar(d.c, false) then NameEnd(s, i + d.len) - i else 0
  }

  /** A token read: its length in the buffer (0 for none), the token buffer, and the two pointers
      after. */
  datatype Token = Token(len: nat, text: Text, cur: nat, save: nat)

  /** A token whose copy fails leaves what was copied in the token buffer. */
  function NextToken(s: Text, cur: nat, save: nat): (t: Token)
    ensures t.cur >= cur + t.len && (cur <= |s| ==> t.cur <= |s|)
    ensures t.len > 0 ==> t.text != []
    ensures t.len == 0 ==> t.text == [] || t.text[0] == LESS_THAN
  {
    if At(s, cur) == 0 then Token(0, [], cur, save)
    else
      var k := SkipMisc(s, cur);
      if !k.ok then Token(0, [], k.pos, save)
      else
        TakeToken(s, k.pos, save)
  }

  /** The token at position i, copied. */
  function TakeToken(s: Text, i: nat, save: nat): (t: Token)
    ensures t.cur >= i + t.len && (i <= |s| ==> t.cur <= |s|)
    ensures t.len > 0 ==> t.text != []
    ensures t.len == 0 ==> t.text == [] || t.text[0] == LESS_THAN
  {
    var n := TokenLength(s, i);
    if n == 0 then Token(0, [], i, save)
    else
      TokenCopies(s, i);
      var copy := CopyFrom(s, i, i + n);
      var saved := if At(s, i) == SLASH then i else save;
      if copy.ok then Token(n, copy.text, i + n, saved) else Token(0, copy.text, i, saved)
  }

  /** Every name character is one the token copier accepts. */
  lemma NameCharIsChar(s: Text, i: nat)
    requires IsNameChar(Utf8ToInt(s, i).c, true)
    ensures GetChar(s, i) == Utf8ToInt(s, i)
  {
  }

  lemma {:induction false} NameCopies(s: Text, i: nat)
    ensures CopyFrom(s, i, NameEnd(s, i)).ok
    decreases |s| - i
  {
    var d := Utf8ToInt(s, i);
    if IsNameChar(d.c, true) {
      NameCharIsChar(s, i);
      NameCopies(s, i + d.len);
    }
  }

  lemma CopyDelimiters(s: Text, i: nat, n: nat)
    requires 1 <= n <= 2
    requires forall k :: i <= k < i + n ==> 0x21 <= At(s, k) <= 0x7F && At(s, k) != AMPERSAND
    ensures CopyFrom(s, i, i + n) == Copied(true, if n == 1 then [At(s, i)] else [At(s, i), At(s, i + 1)])
    decreases n
  {
    assert GetChar(s, i) == Decoded(At(s, i), 1);
    if n == 2 {
      CopyDelimiters(s, i + 1, 1);
      assert At(s, i + 1) == At(s, (i + 1) + 0);
    } else {
      assert CopyFrom(s, i + 1, i + 1) == Copied(true, []);
    }
  }

  lemma CopyStarts(s: Text, i: nat, end: nat)
    requires i < end && GetChar(s, i).c > 0
    ensures CopyFrom(s, i, end).text != []
    ensures GetChar(s, i).len == 1 ==> CopyFrom(s, i, end).text[0] == GetChar(s, i).c
  {
    hide GetChar;
    var d := GetChar(s, i);
    GetCharIsXml(s, i);
    assert d.len != 1 ==> IntToUtf8(d.c) != [];
  }

  lemma NameTokenCopies(s: Text, i: nat)
    requires IsNameChar(Utf8ToInt(s, i).c, false)
    ensures CopyFrom(s, i, NameEnd(s, i + Utf8ToInt(s, i).len)).ok
    ensures CopyFrom(s, i, NameEnd(s, i + Utf8ToInt(s, i).len)).text != []
  {
    NameCharIsChar(s, i);
    NameCopies(s, i);
    CopyStarts(s, i, NameEnd(s, i));
    assert NameEnd(s, i) == NameEnd(s, i + Utf8ToInt(s, i).len);
    hide GetChar, CopyFrom, Utf8ToInt;
  }

  lemma TagTokenCopies(s: Text, i: nat, end: nat)
    requires At(s, i) == LESS_THAN && i < end
    ensures CopyFrom(s, i, end).text != [] && CopyFrom(s, i, end).text[0] == LESS_THAN
  {
    assert GetChar(s, i) == Decoded(LESS_THAN, 1);
    CopyStarts(s, i, end);
    hide GetChar, CopyFrom;
  }

  /** Copying a token fails only after a `<`, and always copies something. */
  lemma TokenCopies(s: Text, i: nat)
    requires TokenLength(s, i) > 0
    ensures var copy := CopyFrom(s, i, i + TokenLength(s, i));
            copy.text != [] && (copy.ok || copy.text[0] == LESS_THAN)
  {
    hide GetChar, CopyFrom, Utf8ToInt, IsNameChar, NameEnd;
    var b, n := At(s, i), TokenLength(s, i);
    if b == QUOTE || b == SINGLE_QUOTE || b == EQUALS || b == SLASH || b == GREATER_THAN {
      CopyDelimiters(s, i, n);
    } else if b == LESS_THAN {
      TagTokenCopies(s, i, i + n);
    } else {
      NameTokenCopies(s, i);
    }
  }
}
