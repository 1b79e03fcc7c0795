/** The pull parser as the object it is: fields updated in place, loops over the buffer. */
module Parser {
  import opened Bytes
  import opened Utf8
  import opened Escape
  import opened Names
  import opened XmlTree
  import opened Scanner
  import opened ParserSpec

  class Parser {
    const buf: Text
    var curPtr: nat
    var savePtr: nat
    var tokenBuf: Text
    var lastElem: Option<Text>
    var pCurElement: seq<Text>
    var state: Mode
    var bHasTopLevel: bool
    // the document under construction: from the current node up, and the document's children
    var path: seq<Frame>
    var top: seq<Node>

    constructor (xml: Text)
      ensures buf == xml && St() == INITIAL
    {
      buf := xml;
      curPtr, savePtr, tokenBuf, lastElem := 0, 0, [], None;
      pCurElement, state, bHasTopLevel, path, top := [], ELEMENT, false, [], [];
    }

    function St(): State
      reads this
    {
      State(curPtr, savePtr, tokenBuf, lastElem, pCurElement, state, bHasTopLevel, path, top)
    }

    /* ---- scanning ---- */

    method SkipWhiteSpaces()
      modifies this`curPtr
      ensures curPtr == SkipSpaces(buf, old(curPtr))
    {
      while IsSpace(At(buf, curPtr))
        invariant SkipSpaces(buf, curPtr) == SkipSpaces(buf, old(curPtr))
        decreases |buf| - curPtr
      {
        curPtr := curPtr + 1;
      }
    }

    /** The digits of a numeric reference. */
    method ReadDigits(i: nat, base: int) returns (sum: int, pnum: nat)
      requires base == 10 || base == 16
      ensures Number(sum, pnum) == Digits(buf, i, base, 0)
    {
      sum, pnum := 0, i;
      while pnum < |buf| && (if base == 16 then IsHexDigit(buf[pnum]) else IsDigit(buf[pnum]))
        invariant Digits(buf, pnum, base, sum) == Digits(buf, i, base, 0)
        decreases |buf| - pnum
      {
        sum := sum * base + DigitValue(buf[pnum]);
        pnum := pnum + 1;
      }
    }

    method ReadChar(src: nat) returns (c: int, cLen: nat)
      ensures Decoded(c, cLen) == GetChar(buf, src)
    {
      hide Utf8ToInt, Digits;
      var b := At(buf, src);
      if b != AMPERSAND {
        if 0 < b < 0x80 && IsXmlChar(b) {
          return b, 1;
        }
        var d := Utf8ToInt(buf, src);
        return if IsXmlChar(d.c) then d.c else -1, d.len;
      } else if MatchesNoCase(buf, src, QUOT) {
        return QUOTE, |QUOT|;
      } else if MatchesNoCase(buf, src, LT) {
        return LESS_THAN, |LT|;
      } else if MatchesNoCase(buf, src, GT) {
        return GREATER_THAN, |GT|;
      } else if MatchesNoCase(buf, src, APOS) {
        return SINGLE_QUOTE, |APOS|;
      } else if MatchesNoCase(buf, src, AMP) {
        return AMPERSAND, |AMP|;
      } else if MatchesNoCase(buf, src, ESC_HEX) {
        var sum, pnum := ReadDigits(src + 3, 16);
        if At(buf, pnum) != SEMICOLON || !IsXmlChar(sum) {
          return -1, 0;
        }
        return sum, pnum - src + 1;
      } else if MatchesNoCase(buf, src, ESC_DEC) {
        var sum, pnum := ReadDigits(src + 2, 10);
        if At(buf, pnum) != SEMICOLON || !IsXmlChar(sum) {
          return -1, 0;
        }
        return sum, pnum - src + 1;
      }
      return -1, 0;
    }

    /** One character of a token, translated, goes to the token buffer. */
    method CopyChar(psrc: nat, ghost pend: nat) returns (ok: bool, cl: nat)
      requires psrc < pend
      modifies this`tokenBuf
      ensures !ok ==> CopyFrom(buf, psrc, pend) == Copied(false, []) && tokenBuf == old(tokenBuf)
      ensures ok ==>
        && 0 < cl && psrc + cl <= |buf|
        && CopyFrom(buf, psrc, pend).ok == CopyFrom(buf, psrc + cl, pend).ok
        && old(tokenBuf) + CopyFrom(buf, psrc, pend).text == tokenBuf + CopyFrom(buf, psrc + cl, pend).text
    {
      hide GetChar, IntToUtf8, CopyFrom;
      CopyUnfold(buf, psrc, pend);
      var c;
      c, cl := ReadChar(psrc);
      if c <= 0 {
        return false, cl;
      }
      CopyAppends(buf, psrc, pend, tokenBuf);
      if cl == 1 {
        tokenBuf := tokenBuf + [c];
      } else {
        tokenBuf := tokenBuf + IntToUtf8(c);
      }
      return true, cl;
    }

    method CopyToken(src: nat, len: nat) returns (ok: bool)
      modifies this`tokenBuf
      ensures len == 0 ==> !ok && tokenBuf == old(tokenBuf)
      ensures len > 0 ==>
        var copy := CopyFrom(buf, src, src + len);
        ok == copy.ok && tokenBuf == old(tokenBuf) + copy.text
    {
      hide CopyFrom, GetChar, IntToUtf8;
      if len == 0 {
        return false;
      }
      var psrc, pend := src, src + len;
      ghost var copy := CopyFrom(buf, src, pend);
      ghost var all := tokenBuf + copy.text;
      while psrc < pend
        invariant copy.ok == CopyFrom(buf, psrc, pend).ok
        invariant all == tokenBuf + CopyFrom(buf, psrc, pend).text
        decreases |buf| - psrc
      {
        var cl;
        ok, cl := CopyChar(psrc, pend);
        if !ok {
          return false;
        }
        psrc := psrc + cl;
      }
      CopyUnfold(buf, psrc, pend);
      assert tokenBuf + [] == tokenBuf;
      return psrc == pend;
    }

    method SkipString(i: nat, key: Text) returns (ok: bool, pos: nat)
      requires key != [] && key[0] != 0
      ensures Skipped(ok, pos) == Scanner.SkipString(buf, i, key)
    {
      pos := i;
      while At(buf, pos) != 0 && !Matches(buf, pos, key)
        invariant Find(buf, pos, key) == Find(buf, i, key)
        decreases |buf| - pos
      {
        pos := pos + 1;
      }
      ok := At(buf, pos) != 0;
      if ok {
        pos := pos + |key|;
      }
    }

    method SkipMisc() returns (ok: bool)
      modifies this`curPtr
      ensures Skipped(ok, curPtr) == Scanner.SkipMisc(buf, old(curPtr))
    {
      hide SkipComment, MatchesNoCase, Scanner.SkipString;
      ok := true;
      var done := false;
      while !done && ok
        invariant ok && !done ==> Scanner.SkipMisc(buf, curPtr) == Scanner.SkipMisc(buf, old(curPtr))
        invariant !ok || done ==> Skipped(ok, curPtr) == Scanner.SkipMisc(buf, old(curPtr))
        decreases if done || !ok then 0 else 1, |buf| - curPtr
      {
        MiscProgress(curPtr);
        if MatchesNoCase(buf, curPtr, BEGIN_COMMENT) {
          var k := SkipComment(buf, curPtr);
          ok, curPtr := k.ok, k.pos;
        } else if AtXmlDecl(buf, curPtr) {
          ok := false;
        } else if MatchesNoCase(buf, curPtr, BEGIN_PI) {
          ok, curPtr := SkipString(curPtr, END_PI);
        } else {
          done := true;
        }
        SkipWhiteSpaces();
      }
    }

    lemma MiscProgress(i: nat)
      ensures SkipComment(buf, i).ok ==> i < SkipComment(buf, i).pos <= |buf|
      ensures MatchesNoCase(buf, i, BEGIN_PI) && Scanner.SkipString(buf, i, END_PI).ok ==>
                i < Scanner.SkipString(buf, i, END_PI).pos <= |buf|
    {
    }

    method GetNextToken() returns (len: nat)
      modifies this`curPtr, this`savePtr, this`tokenBuf
      ensures Token(len, tokenBuf, curPtr, savePtr) == NextToken(buf, old(curPtr), old(savePtr))
    {
      hide Scanner.SkipMisc, CopyFrom, Utf8ToInt, IsNameChar;
      tokenBuf := [];
      if At(buf, curPtr) == 0 {
        return 0;
      }
      var ok := SkipMisc();
      if !ok {
        return 0;
      }
      var b := At(buf, curPtr);
      len := 0;
      if b == QUOTE {
        len := 1;
      } else if b == SINGLE_QUOTE {
        len := 1;
      } else if b == LESS_THAN {
        var c := Utf8ToInt(buf, curPtr + 1).c;
        if c == SLASH as int {
          len := 2;
        } else if IsNameChar(c, false) {
          len := 1;
        } else {
          return 0;
        }
      } else if b == EQUALS {
        len := 1;
      } else if b == SLASH {
        if At(buf, curPtr + 1) == GREATER_THAN {
          len := 2;
          savePtr := curPtr;
        }
      } else if b == GREATER_THAN {
        len := 1;
      } else if IsNameChar(Utf8ToInt(buf, curPtr).c, false) {
        len := ReadName();
      } else {
        return 0;
      }
      assert len == TokenLength(buf, curPtr);
      ok := CopyToken(curPtr, len);
      if !ok {
        return 0;
      }
      curPtr := curPtr + len;
    }

    /** The length of the name that starts at the current position. */
    method ReadName() returns (index: nat)
      ensures curPtr + index == NameEnd(buf, curPtr + Utf8ToInt(buf, curPtr).len)
    {
      hide Continued, Payload, InRanges;
      index := Utf8ToInt(buf, curPtr).len;
      while IsNameChar(Utf8ToInt(buf, curPtr + index).c, true)
        invariant NameEnd(buf, curPtr + index) == NameEnd(buf, curPtr + Utf8ToInt(buf, curPtr).len)
        decreases |buf| - curPtr - index
      {
        index := index + Utf8ToInt(buf, curPtr + index).len;
      }
    }

    /* ---- nodes ---- */

    /** After `<`. */
    method ProcessSTag() returns (ok: bool, node: NewNode)
      modifies this`curPtr, this`savePtr, this`tokenBuf, this`lastElem, this`state
      ensures ok == ParserSpec.ProcessSTag(buf, old(St())).Got?
      ensures ok ==> Got(St(), node, false) == ParserSpec.ProcessSTag(buf, old(St()))
    {
      hide NextToken;
      node := Nothing;
      var len := GetNextToken();
      if len == 0 {
        return false, node;
      }
      var name := tokenBuf;
      lastElem := Some(name);
      savePtr := curPtr;
      len := GetNextToken();
      if len == 0 {
        return false, node;
      }
      if tokenBuf == COMPLETETAG {
        state := ELEMENT;
        curPtr := savePtr;
      } else if tokenBuf == [GREATER_THAN] {
        state := CONTENT;
      } else {
        state := ATTRIBUTE;
        curPtr := savePtr;
      }
      return true, NewElement(name);
    }

    /** After `</`. */
    method ProcessETag() returns (ok: bool, node: NewNode)
      modifies this`curPtr, this`savePtr, this`tokenBuf
      ensures ok == ParserSpec.ProcessETag(buf, old(St())).Got?
      ensures ok ==> Got(St(), node, true) == ParserSpec.ProcessETag(buf, old(St()))
    {
      hide NextToken;
      node := Nothing;
      var len := GetNextToken();
      if len == 0 {
        return false, node;
      }
      var name := tokenBuf;
      SkipWhiteSpaces();
      len := GetNextToken();
      if len == 0 || tokenBuf != [GREATER_THAN] {
        return false, node;
      }
      return true, NewElement(name);
    }

    method ProcessContent() returns (ok: bool, node: NewNode)
      modifies this`curPtr, this`savePtr, this`tokenBuf, this`state
      ensures ok == ParserSpec.ProcessContent(buf, old(St())).Got?
      ensures ok ==> Got(St(), node, false) == ParserSpec.ProcessContent(buf, old(St()))
    {
      hide SkipComment, SkipPI, CopyFrom, Matches;
      node := Nothing;
      savePtr := curPtr;
      SkipWhiteSpaces();
      if At(buf, curPtr) == 0 {
        return true, node;
      }
      if At(buf, curPtr) == LESS_THAN {
        if Matches(buf, curPtr, CDSTART) {
          return false, node;
        } else if Matches(buf, curPtr, BEGIN_COMMENT) {
          var k := SkipComment(buf, curPtr);
          ok, curPtr := k.ok, k.pos;
        } else if Matches(buf, curPtr, BEGIN_PI) {
          var k := SkipPI(buf, curPtr);
          ok, curPtr := k.ok, k.pos;
        } else {
          state := ELEMENT;
          ok := true;
        }
      } else {
        curPtr := savePtr;
        var end := FindContentEnd();
        if Matches(buf, end, CDEND) {
          return false, node;
        }
        tokenBuf := [];
        ok := CopyToken(curPtr, end - curPtr);
        assert end > curPtr ==> tokenBuf == CopyFrom(buf, curPtr, end).text;
        if ok {
          node := NewText(tokenBuf);
          curPtr := end;
        }
      }
    }

    method FindContentEnd() returns (end: nat)
      ensures end == ContentEnd(buf, curPtr) >= curPtr
    {
      end := curPtr;
      while At(buf, end) != LESS_THAN && !Matches(buf, end, CDEND) && At(buf, end) != 0
        invariant end >= curPtr && ContentEnd(buf, end) == ContentEnd(buf, curPtr)
        decreases |buf| - end
      {
        end := end + 1;
      }
    }

    /** The bytes up to the closing quote. */
    method CheckValue(end: nat) returns (allowed: bool)
      ensures allowed == ValueAllowed(buf, curPtr, end)
    {
      var pCur := curPtr;
      while pCur < end
        invariant ValueAllowed(buf, pCur, end) == ValueAllowed(buf, curPtr, end)
        decreases end - pCur
      {
        if At(buf, pCur) == LESS_THAN {
          return false;
        }
        if At(buf, pCur) == AMPERSAND {
          pCur := pCur + 1;
        }
        pCur := pCur + 1;
      }
      return true;
    }

    method ProcessAttribute() returns (ok: bool, node: NewNode)
      requires tokenBuf != []
      modifies this`curPtr, this`savePtr, this`tokenBuf, this`state
      ensures ok == ParserSpec.ProcessAttribute(buf, old(St())).Got?
      ensures ok ==> Got(St(), node, false) == ParserSpec.ProcessAttribute(buf, old(St()))
    {
      hide NextToken, CopyFrom, ValueAllowed, EndQuote, Utf8ToInt, IsNameChar;
      ok, node := false, Nothing;
      if !IsNameChar(Utf8ToInt(tokenBuf, 0).c, false) {
        return;
      }
      var name := tokenBuf;
      var len := GetNextToken();
      if len == 0 || tokenBuf[0] != EQUALS {
        return;
      }
      len := GetNextToken();
      if len == 0 || (tokenBuf[0] != QUOTE && tokenBuf[0] != SINGLE_QUOTE) {
        return;
      }
      var end := EndQuote(buf, curPtr, tokenBuf);
      if end.None? {
        return;
      }
      var allowed := CheckValue(end.value);
      if !allowed {
        return;
      }
      var value;
      ok, value := ReadValue(end.value);
      if !ok {
        return;
      }
      var a := Attr(name, value);
      ok := LookAhead(end.value, a);
      node := NewAttr(a);
    }

    /** The characters of an attribute value; none at all is no value. */
    method ReadValue(end: nat) returns (ok: bool, value: Option<Text>)
      requires curPtr <= end
      modifies this`tokenBuf
      ensures ok == (end == curPtr || CopyFrom(buf, curPtr, end).ok)
      ensures ok ==> value == if end == curPtr then None else Some(CopyFrom(buf, curPtr, end).text)
    {
      hide CopyFrom;
      tokenBuf := [];
      value := None;
      ok := true;
      if end != curPtr {
        ok := CopyToken(curPtr, end - curPtr);
        assert tokenBuf == CopyFrom(buf, curPtr, end).text;
        value := Some(tokenBuf);
      }
    }

    /** Past the closing quote, to see whether the start tag ends here. */
    method LookAhead(end: nat, ghost a: Attr) returns (ok: bool)
      modifies this`curPtr, this`savePtr, this`tokenBuf, this`state
      ensures var r := AttributeEnd(buf, old(St()), end, a);
              if ok then r == Got(St(), NewAttr(a), false) else r.Failed?
    {
      hide NextToken;
      curPtr := end + 1;
      savePtr := curPtr;
      var len := GetNextToken();
      if len == 0 || tokenBuf == [LESS_THAN] {
        return false;
      } else if tokenBuf != [GREATER_THAN] {
        curPtr := savePtr;
      } else {
        state := CONTENT;
      }
      return true;
    }

    /** The next node; `done` when the input is used up. */
    method GetNextNode() returns (ok: bool, node: NewNode, etag: bool, done: bool)
      modifies this`curPtr, this`savePtr, this`tokenBuf, this`lastElem, this`state
      ensures done == NextNode(buf, old(St())).FileDone?
      ensures ok == NextNode(buf, old(St())).Got?
      ensures ok ==> Got(St(), node, etag) == NextNode(buf, old(St()))
    {
      hide NextToken, ParserSpec.ProcessSTag, ParserSpec.ProcessETag, ParserSpec.ProcessContent,
           ParserSpec.ProcessAttribute;
      ok, node, etag, done := false, Nothing, false, false;
      if At(buf, curPtr) == 0 {
        done := true;
        return;
      }
      if state == CONTENT {
        ok, node := ProcessContent();
        return;
      }
      SkipWhiteSpaces();
      var len := GetNextToken();
      if len == 0 && pCurElement == [] && At(buf, curPtr) == 0 {
        ok := true;
      } else if tokenBuf == [] {
        return;
      } else if tokenBuf[0] == GREATER_THAN {
        ok := true;
      } else if tokenBuf == ENDTAG {
        ok, node := ProcessETag();
        etag := true;
      } else if tokenBuf[0] == LESS_THAN {
        ok, node := ProcessSTag();
      } else if tokenBuf == COMPLETETAG {
        if lastElem.Some? {
          ok, node, etag := true, NewElement(lastElem.value), true;
        }
      } else if state == ATTRIBUTE {
        ok, node := ProcessAttribute();
      }
    }

    /* ---- building the document ---- */

    method PushElement(name: Text)
      modifies this`pCurElement
      ensures pCurElement == [name] + old(pCurElement)
    {
      pCurElement := [name] + pCurElement;
    }

    method PopElement()
      modifies this`pCurElement
      ensures old(pCurElement) != [] ==> pCurElement == old(pCurElement)[1..]
      ensures old(pCurElement) == [] ==> pCurElement == []
    {
      if pCurElement != [] {
        pCurElement := pCurElement[1..];
      }
    }

    method ProcessElementName(name: Text) returns (ok: bool)
      modifies this`bHasTopLevel, this`savePtr, this`path, this`pCurElement
      ensures if ok then StartElement(old(St()), name) == Next(St()) else StartElement(old(St()), name).Rejected?
    {
      if bHasTopLevel {
        if pCurElement == [] {
          return false;
        }
      } else {
        bHasTopLevel := true;
      }
      savePtr := curPtr;
      path := [Frame(name, [], [])] + path;
      PushElement(name);
      return true;
    }

    method ETagVerification(name: Text) returns (ok: bool)
      modifies this`pCurElement, this`path, this`top, this`state
      ensures if ok then EndElement(old(St()), name) == Next(St()) else EndElement(old(St()), name).Rejected?
    {
      if pCurElement == [] || pCurElement[0] != name {
        return false;
      }
      PopElement();
      if path == [] || path[0].name != name {
        return false;
      }
      var done := Closed(path[0]);
      if |path| == 1 {
        top := top + [done];
        path := [];
      } else {
        path := [path[1].(kids := path[1].kids + [done])] + path[2..];
      }
      state := CONTENT;
      return true;
    }

    method AppendText(value: Text) returns (ok: bool)
      modifies this`path
      ensures if ok then AddText(old(St()), value) == Next(St()) else AddText(old(St()), value).Rejected?
    {
      if path == [] {
        return false;
      }
      path := [path[0].(kids := path[0].kids + [TextNode(value)])] + path[1..];
      return true;
    }

    method IsDuplicateAttribute(name: Text) returns (duplicate: bool)
      requires path != []
      ensures duplicate == HasAttr(path[0].attrs, name)
    {
      var k := 0;
      while k < |path[0].attrs|
        invariant k <= |path[0].attrs|
        invariant forall j :: 0 <= j < k ==> path[0].attrs[j].name != name
      {
        if path[0].attrs[k].name == name {
          return true;
        }
        k := k + 1;
      }
      return false;
    }

    method ProcessAttributeName(a: Attr) returns (ok: bool)
      modifies this`path
      ensures if ok then AddAttr(old(St()), a) == Next(St()) else AddAttr(old(St()), a).Rejected?
    {
      if path == [] {
        return false;
      }
      var duplicate := IsDuplicateAttribute(a.name);
      if duplicate {
        return false;
      }
      path := [path[0].(attrs := path[0].attrs + [a])] + path[1..];
      return true;
    }

    method SkipProlog() returns (ok: bool)
      modifies this`curPtr
      requires curPtr == 0
      ensures Skipped(ok, curPtr) == ParserSpec.SkipProlog(buf)
    {
      hide Scanner.SkipMisc, Scanner.SkipString, Matches;
      SkipWhiteSpaces();
      if Matches(buf, curPtr, XMLDECL) {
        ok, curPtr := SkipString(curPtr, END_PI);
        SkipWhiteSpaces();
        if !ok {
          return;
        }
      }
      ok := SkipMisc();
      if ok && Matches(buf, curPtr, BEGIN_DOCTYPE) {
        return false;
      }
      if ok {
        ok := SkipMisc();
      }
    }

    /** The parse loop: the whole document, or nothing. */
    method ParseDocument() returns (result: Outcome)
      requires St() == INITIAL
      modifies this
      ensures result == Parse(buf)
    {
      hide NextNode, StartElement, EndElement, AddText, AddAttr, ParserSpec.SkipProlog;
      var ok := SkipProlog();
      if !ok {
        return Rejected;
      }
      while true
        invariant curPtr <= |buf| && ParserSpec.SkipProlog(buf).ok
        invariant Run(buf, St()) == Parse(buf)
        decreases Measure(buf, St())
      {
        ghost var before := St();
        var node, etag, done;
        ok, node, etag, done := GetNextNode();
        if done {
          return if pCurElement != [] then Rejected else Accepted(top);
        }
        if !ok {
          return Rejected;
        }
        if etag {
          ok := node.NewElement?;
          if ok {
            ok := ETagVerification(node.name);
          }
        } else {
          match node
          case Nothing =>
          case NewElement(name) => ok := ProcessElementName(name);
          case NewText(value) => ok := AppendText(value);
          case NewAttr(a) => ok := ProcessAttributeName(a);
        }
        if !ok {
          return Rejected;
        }
        TurnDecreases(buf, before);
      }
    }
  }
}
