/** The pull parser as a function: one turn of its loop, and the run of turns. */
module ParserSpec {
  import opened Bytes
  import opened Utf8
  import opened Escape
  import opened Names
  import opened XmlTree
  import opened Scanner

  datatype Mode = ELEMENT | ATTRIBUTE | CONTENT

  /** A node of the document that is still open: its children so far. */
  datatype Frame = Frame(name: Text, attrs: seq<Attr>, kids: seq<Node>)

  /** The parser's fields.  `path` runs from the current node up to, but without, the document
      node; `top` holds the document's children.  `stack` is the separate element stack, top
      first. */
  datatype State = State(
    cur: nat, save: nat, tokenBuf: Text, lastElem: Option<Text>,
    stack: seq<Text>, mode: Mode, hasTop: bool,
    path: seq<Frame>, top: seq<Node>)

  /** The node handed from the scanner to the document builder. */
  datatype NewNode =
    | Nothing
    | NewElement(name: Text)
    | NewText(value: Text)
    | NewAttr(attr: Attr)

  datatype NodeResult =
    | Failed
    | FileDone
    | Got(p: State, node: NewNode, etag: bool)

  const INITIAL := State(0, 0, [], None, [], ELEMENT, false, [], [])

  function Took(p: State, t: Token): State {
    p.(cur := t.cur, save := t.save, tokenBuf := t.text)
  }

  /** From `</`: the name, white space, and `>`. */
  function ProcessETag(s: Text, p: State): (r: NodeResult)
    ensures !r.FileDone?
  {
    var t := NextToken(s, p.cur, p.save);
    if t.len == 0 then Failed
    else
      var u := NextToken(s, SkipSpaces(s, t.cur), t.save);
      if u.len == 0 || u.text != [GREATER_THAN] then Failed
      else Got(Took(p, u), NewElement(t.text), true)
  }

  /** From `<`: the name, and a look at the next token to choose the mode. */
  function ProcessSTag(s: Text, p: State): (r: NodeResult)
    ensures !r.FileDone?
  {
    var t := NextToken(s, p.cur, p.save);
    if t.len == 0 then Failed
    else
      var u := NextToken(s, t.cur, t.cur);
      if u.len == 0 then Failed
      else
        var q := Took(p, u).(lastElem := Some(t.text));
        if u.text == COMPLETETAG then Got(q.(mode := ELEMENT, cur := u.save), NewElement(t.text), false)
        else if u.text == [GREATER_THAN] then Got(q.(mode := CONTENT), NewElement(t.text), false)
        else Got(q.(mode := ATTRIBUTE, cur := u.save), NewElement(t.text), false)
  }

  /** Where character data from position i stops. */
  function ContentEnd(s: Text, i: nat): (e: nat)
    ensures e >= i && (i <= |s| ==> e <= |s|)
    ensures At(s, e) == LESS_THAN || At(s, e) == 0 || Matches(s, e, CDEND)
    ensures forall k :: i <= k < e ==> At(s, k) != LESS_THAN && At(s, k) != 0 && !Matches(s, k, CDEND)
    decreases |s| - i
  {
    if At(s, i) == LESS_THAN || Matches(s, i, CDEND) || At(s, i) == 0 then i else ContentEnd(s, i + 1)
  }

  function ProcessContent(s: Text, p: State): (r: NodeResult)
    ensures !r.FileDone?
  {
    var q := p.(save := p.cur);
    var j := SkipSpaces(s, p.cur);
    if At(s, j) == 0 then Got(q.(cur := j), Nothing, false)
    else if At(s, j) == LESS_THAN then
      if Matches(s, j, CDSTART) then Failed
      else if Matches(s, j, BEGIN_COMMENT) then
        var k := SkipComment(s, j);
        if k.ok then Got(q.(cur := k.pos), Nothing, false) else Failed
      else if Matches(s, j, BEGIN_PI) then
        var k := SkipPI(s, j);
        if k.ok then Got(q.(cur := k.pos), Nothing, false) else Failed
      else Got(q.(cur := j, mode := ELEMENT), Nothing, false)
    else
      var e := ContentEnd(s, p.cur);
      var copy := CopyFrom(s, p.cur, e);
      if Matches(s, e, CDEND) || e == p.cur || !copy.ok then Failed
      else Got(q.(cur := e, tokenBuf := copy.text), NewText(copy.text), false)
  }

  /** The closing quote of an attribute value that starts at i. */
  function EndQuote(s: Text, i: nat, quote: Text): (e: Option<nat>)
    requires quote != []
    ensures e.Some? ==> i <= e.value && e.value + |quote| <= |s|
  {
    var e := Find(s, i, quote);
    if At(s, e) == 0 then None else Some(e)
  }

  /** The bytes of an attribute value hold no `<`, not counting bytes that follow an `&`. */
  predicate ValueAllowed(s: Text, i: nat, end: nat)
    decreases end - i
  {
    i >= end || (At(s, i) != LESS_THAN && ValueAllowed(s, if At(s, i) == AMPERSAND then i + 2 else i + 1, end))
  }

  function ProcessAttribute(s: Text, p: State): (r: NodeResult)
    requires p.tokenBuf != []
    ensures !r.FileDone?
  {
    var name := p.tokenBuf;
    if !IsNameChar(Utf8ToInt(name, 0).c, false) then Failed
    else
      var eq := NextToken(s, p.cur, p.save);
      if eq.len == 0 || eq.text[0] != EQUALS then Failed
      else
        var quote := NextToken(s, eq.cur, eq.save);
        if quote.len == 0 || (quote.text[0] != QUOTE && quote.text[0] != SINGLE_QUOTE) then Failed
        else
          var end := EndQuote(s, quote.cur, quote.text);
          if end.None? || !ValueAllowed(s, quote.cur, end.value) then Failed
          else
            var copy := CopyFrom(s, quote.cur, end.value);
            if end.value != quote.cur && !copy.ok then Failed
            else
              AttributeEnd(s, p, end.value,
                           Attr(name, if end.value == quote.cur then None else Some(copy.text)))
  }

  /** Past the closing quote: a look at the next token. */
  function AttributeEnd(s: Text, p: State, end: nat, attr: Attr): (r: NodeResult)
    ensures !r.FileDone?
  {
    var next := NextToken(s, end + 1, end + 1);
    if next.len == 0 || next.text == [LESS_THAN] then Failed
    else if next.text != [GREATER_THAN] then
      Got(Took(p, next).(cur := next.save), NewAttr(attr), false)
    else Got(Took(p, next).(mode := CONTENT), NewAttr(attr), false)
  }

  function NextNode(s: Text, p: State): NodeResult {
    if At(s, p.cur) == 0 then FileDone
    else if p.mode == CONTENT then ProcessContent(s, p)
    else
      var t := NextToken(s, SkipSpaces(s, p.cur), p.save);
      var q := Took(p, t);
      if t.len == 0 && p.stack == [] && At(s, t.cur) == 0 then Got(q, Nothing, false)
      else if t.text == [] then Failed
      else if t.text[0] == GREATER_THAN then Got(q, Nothing, false)
      else if t.text == ENDTAG then ProcessETag(s, q)
      else if t.text[0] == LESS_THAN then ProcessSTag(s, q)
      else if t.text == COMPLETETAG then
        if p.lastElem.None? then Failed else Got(q, NewElement(p.lastElem.value), true)
      else if p.mode == ATTRIBUTE then ProcessAttribute(s, q)
      else Failed
  }

  datatype Outcome =
    | Rejected
    | Accepted(top: seq<Node>)
    | Next(p: State)

  function Closed(f: Frame): Node {
    Element(f.name, f.attrs, f.kids)
  }

  /** An end tag must match the element stack and then the current node; its node joins its
      parent's children.  (An end tag with nothing open is rejected.) */
  function EndElement(p: State, name: Text): (r: Outcome)
    ensures !r.Accepted?
  {
    if p.stack == [] || p.stack[0] != name then Rejected
    else if p.path == [] || p.path[0].name != name then Rejected
    else
      var done := Closed(p.path[0]);
      Next(if |p.path| == 1 then
             p.(stack := p.stack[1..], path := [], top := p.top + [done], mode := CONTENT)
           else
             p.(stack := p.stack[1..], mode := CONTENT,
                path := [p.path[1].(kids := p.path[1].kids + [done])] + p.path[2..]))
  }

  /** A second top-level element is rejected. */
  function StartElement(p: State, name: Text): (r: Outcome)
    ensures !r.Accepted?
  {
    if p.hasTop && p.stack == [] then Rejected
    else Next(p.(hasTop := true, save := p.cur,
                 stack := [name] + p.stack, path := [Frame(name, [], [])] + p.path))
  }

  /** Character data outside the top-level element is rejected. */
  function AddText(p: State, value: Text): (r: Outcome)
    ensures !r.Accepted?
  {
    if p.path == [] then Rejected
    else Next(p.(path := [p.path[0].(kids := p.path[0].kids + [TextNode(value)])] + p.path[1..]))
  }

  predicate HasAttr(attrs: seq<Attr>, name: Text) {
    exists k :: 0 <= k < |attrs| && attrs[k].name == name
  }

  function AddAttr(p: State, a: Attr): (r: Outcome)
    ensures !r.Accepted?
  {
    if p.path == [] || HasAttr(p.path[0].attrs, a.name) then Rejected
    else Next(p.(path := [p.path[0].(attrs := p.path[0].attrs + [a])] + p.path[1..]))
  }

  function Build(r: NodeResult): (o: Outcome)
    requires r.Got?
    ensures !o.Accepted?
  {
    if r.etag then
      if r.node.NewElement? then EndElement(r.p, r.node.name) else Rejected
    else
      match r.node
      case Nothing => Next(r.p)
      case NewElement(name) => StartElement(r.p, name)
      case NewText(value) => AddText(r.p, value)
      case NewAttr(a) => AddAttr(r.p, a)
  }

  /** One turn of the parse loop. */
  function Turn(s: Text, p: State): Outcome {
    match NextNode(s, p)
    case Failed => Rejected
    case FileDone => if p.stack != [] then Rejected else Accepted(p.top)
    case Got(q, node, etag) => Build(Got(q, node, etag))
  }

  /* ---- every turn makes progress ---- */

  /** Twice the input left, and one for the state that may turn into ELEMENT without reading. */
  function Measure(s: Text, p: State): int {
    2 * (|s| - p.cur) + if p.mode == CONTENT then 1 else 0
  }

  predicate Advances(s: Text, p: State, q: State) {
    p.cur < q.cur <= |s|
  }

  lemma ETagAdvances(s: Text, p: State)
    requires p.cur <= |s| && ProcessETag(s, p).Got?
    ensures Advances(s, p, ProcessETag(s, p).p)
  {
    hide NextToken, SkipSpaces;
  }

  lemma STagAdvances(s: Text, p: State)
    requires p.cur <= |s| && ProcessSTag(s, p).Got?
    ensures Advances(s, p, ProcessSTag(s, p).p)
  {
    NextTokenSaves(s, NextToken(s, p.cur, p.save).cur, NextToken(s, p.cur, p.save).cur);
    hide NextToken, SkipSpaces;
  }

  /** The pointer to back up to is the one given or lies ahead of the start. */
  lemma NextTokenSaves(s: Text, cur: nat, save: nat)
    ensures NextToken(s, cur, save).save == save || cur <= NextToken(s, cur, save).save <= NextToken(s, cur, save).cur
  {
    hide CopyFrom, TokenLength, SkipMisc;
  }

  lemma SkipsAdvance(s: Text, i: nat)
    requires i <= |s|
    ensures SkipComment(s, i).ok ==> i < SkipComment(s, i).pos <= |s|
    ensures SkipPI(s, i).ok && MatchesNoCase(s, i, BEGIN_PI) ==> i < SkipPI(s, i).pos <= |s|
  {
  }

  lemma ContentAdvances(s: Text, p: State)
    requires p.cur <= |s| && At(s, p.cur) != 0 && ProcessContent(s, p).Got?
    ensures var q := ProcessContent(s, p).p;
            Advances(s, p, q) || (q.mode == ELEMENT && p.cur <= q.cur <= |s|)
  {
    hide CopyFrom, SkipComment, SkipPI, Find, MatchesNoCase;
    var j := SkipSpaces(s, p.cur);
    if At(s, j) == LESS_THAN {
      SkipsAdvance(s, j);
      if Matches(s, j, BEGIN_PI) {
        MatchesIgnoringCase(s, j, BEGIN_PI);
      }
    }
  }

  lemma AttributeAdvances(s: Text, p: State)
    requires p.cur <= |s| && p.tokenBuf != [] && ProcessAttribute(s, p).Got?
    ensures Advances(s, p, ProcessAttribute(s, p).p)
  {
    var eq := NextToken(s, p.cur, p.save);
    var quote := NextToken(s, eq.cur, eq.save);
    var end := EndQuote(s, quote.cur, quote.text).value;
    NextTokenSaves(s, end + 1, end + 1);
    hide NextToken, CopyFrom, EndQuote, ValueAllowed, Utf8ToInt, IsNameChar;
  }

  lemma NextNodeAdvances(s: Text, p: State)
    requires p.cur <= |s| && NextNode(s, p).Got?
    ensures var q := NextNode(s, p).p;
            Advances(s, p, q) || (p.mode == CONTENT && q.mode == ELEMENT && p.cur <= q.cur <= |s|)
  {
    hide NextToken, ProcessContent, ProcessETag, ProcessSTag, ProcessAttribute;
    if p.mode == CONTENT {
      ContentAdvances(s, p);
    } else {
      var t := NextToken(s, SkipSpaces(s, p.cur), p.save);
      var q := Took(p, t);
      if t.text == ENDTAG {
        if ProcessETag(s, q).Got? { ETagAdvances(s, q); }
      } else if t.text != [] && t.text[0] == LESS_THAN {
        if ProcessSTag(s, q).Got? { STagAdvances(s, q); }
      } else if t.text != [] && p.mode == ATTRIBUTE {
        if ProcessAttribute(s, q).Got? { AttributeAdvances(s, q); }
      }
    }
  }

  lemma NoEndInContent(s: Text, p: State)
    requires p.mode == CONTENT && NextNode(s, p).Got?
    ensures !NextNode(s, p).etag
  {
    hide CopyFrom, SkipComment, SkipPI, ContentEnd;
  }

  /** The document builder reads nothing; an end tag leads to content. */
  lemma BuildReadsNothing(r: NodeResult)
    requires r.Got? && Build(r).Next?
    ensures Build(r).p.cur == r.p.cur && (!r.etag ==> Build(r).p.mode == r.p.mode)
  {
  }

  /** Every turn that goes on leaves less to do, on every input. */
  lemma TurnDecreases(s: Text, p: State)
    requires p.cur <= |s| && Turn(s, p).Next?
    ensures Turn(s, p).p.cur <= |s| && Measure(s, Turn(s, p).p) < Measure(s, p)
  {
    hide NextNode, Build;
    NextNodeAdvances(s, p);
    BuildReadsNothing(NextNode(s, p));
    if p.mode == CONTENT {
      NoEndInContent(s, p);
    }
  }

  /** The whole parse loop from a state on. */
  function Run(s: Text, p: State): (r: Outcome)
    requires p.cur <= |s|
    ensures !r.Next?
    decreases Measure(s, p)
  {
    var r := Turn(s, p);
    if r.Next? then TurnDecreases(s, p); Run(s, r.p) else r
  }

  /** White space, an XML declaration, and what SkipMisc skips.  (A document type declaration is
      not part of this model and is rejected.) */
  function SkipProlog(s: Text): (k: Skipped)
    ensures k.ok ==> k.pos <= |s|
  {
    var i := SkipSpaces(s, 0);
    var k := if Matches(s, i, XMLDECL) then
               var d := SkipString(s, i, END_PI);
               Skipped(d.ok, SkipSpaces(s, d.pos))
             else Skipped(true, i);
    if !k.ok then k
    else
      var m := SkipMisc(s, k.pos);
      if !m.ok || Matches(s, m.pos, BEGIN_DOCTYPE) then Skipped(false, m.pos)
      else SkipMisc(s, m.pos)
  }

  function Parse(s: Text): (r: Outcome)
    ensures !r.Next?
  {
    var k := SkipProlog(s);
    if k.ok then Run(s, INITIAL.(cur := k.pos)) else Rejected
  }
}
