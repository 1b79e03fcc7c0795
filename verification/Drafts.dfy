/** Documents as they may be written, with all the freedom the syntax leaves: references for characters, either
    kind of quote, white space inside tags, empty-element tags, comments and instructions between nodes. */
module Drafts {
  import opened Bytes
  import opened Utf8
  import opened Escape
  import opened Scanner
  import opened XmlTree
  import opened Printer

  /* ---- characters ---- */

  datatype Char =
    | Plain(c: int)                            // the character itself
    | Named(sign: Byte, spelling: Text)        // &lt; and its like, in any mix of cases
    | Decimal(digits: Text)                    // &#60;
    | Hexadecimal(mark: Byte, digits: Text)    // &#x3C; with either x

  /** The number that a digit stands for. */
  function DigitOf(b: Byte): int {
    if b < 0x41 then b - 0x30 else if b < 0x61 then b - 0x37 else b - 0x57
  }

  predicate DigitsOnly(t: Text, base: int) {
    forall k :: 0 <= k < |t| ==> if base == 16 then IsHexDigit(t[k]) else IsDigit(t[k])
  }

  /** The number written with these digits. */
  function Numeral(t: Text, base: int): int {
    if t == [] then 0 else Numeral(t[..|t| - 1], base) * base + DigitOf(t[|t| - 1])
  }

  function EntityName(c: Byte): Text {
    if c == QUOTE then QUOT
    else if c == LESS_THAN then LT
    else if c == GREATER_THAN then GT
    else if c == SINGLE_QUOTE then APOS
    else if c == AMPERSAND then AMP
    else []
  }

  /** The character meant. */
  function Value(c: Char): int {
    match c
    case Plain(v) => v
    case Named(v, _) => v
    case Decimal(digits) => Numeral(digits, 10)
    case Hexadecimal(_, digits) => Numeral(digits, 16)
  }

  function Spelled(c: Char): Text {
    match c
    case Plain(v) => IntToUtf8(v)
    case Named(_, spelling) => spelling
    case Decimal(digits) => [AMPERSAND, HASH_SIGN] + digits + [SEMICOLON]
    case Hexadecimal(mark, digits) => [AMPERSAND, HASH_SIGN, mark] + digits + [SEMICOLON]
  }

  const HASH_SIGN: Byte := 0x23

  predicate GoodChar(c: Char) {
    IsXmlChar(Value(c)) &&
    match c
    case Plain(v) => v != AMPERSAND as int
    case Named(v, spelling) =>
      && EntityName(v) != [] && |spelling| == |EntityName(v)|
      && forall k :: 0 <= k < |spelling| ==> Lower(spelling[k]) == EntityName(v)[k]
    case Decimal(digits) => DigitsOnly(digits, 10)
    case Hexadecimal(mark, digits) => (mark == 0x58 || mark == 0x78) && DigitsOnly(digits, 16)
  }

  function Values(cs: seq<Char>): seq<int> {
    if cs == [] then [] else [Value(cs[0])] + Values(cs[1..])
  }

  function SpelledAll(cs: seq<Char>): Text {
    if cs == [] then [] else Spelled(cs[0]) + SpelledAll(cs[1..])
  }

  predicate GoodChars(cs: seq<Char>) {
    forall k :: 0 <= k < |cs| ==> GoodChar(cs[k])
  }

  predicate White(t: Text) {
    forall k :: 0 <= k < |t| ==> IsSpace(t[k])
  }

  /** t occurs somewhere in s. */
  predicate Contains(s: Text, t: Text) {
    exists k :: 0 <= k <= |s| && Matches(s, k, t)
  }

  /* ---- nodes ---- */

  /** An attribute, with the white space in front of it and around the equals sign. */
  datatype DraftAttr = DraftAttr(gap: Text, name: Text, before: Text, after: Text, quote: Byte, value: seq<Char>)

  datatype Draft =
    | Full(name: Text, attrs: seq<DraftAttr>, gap: Text, kids: seq<Draft>, endGap: Text)
    | Empty(name: Text, attrs: seq<DraftAttr>, gap: Text)
    | Prose(chars: seq<Char>)
    | Blank(space: Text)
    | Comment(text: Text)
    | Instruction(text: Text)

  ghost predicate GoodDraftAttr(a: DraftAttr) {
    && a.gap != [] && White(a.gap) && White(a.before) && White(a.after) && GoodName(a.name)
    && (a.quote == QUOTE || a.quote == SINGLE_QUOTE)
    && GoodChars(a.value) && Plain(LESS_THAN as int) !in a.value && Plain(a.quote as int) !in a.value
  }

  ghost predicate GoodDraftAttrs(attrs: seq<DraftAttr>) {
    && (forall k :: 0 <= k < |attrs| ==> GoodDraftAttr(attrs[k]))
    && (forall j, k :: 0 <= j < k < |attrs| ==> attrs[j].name != attrs[k].name)
  }

  /** Not blank as it is written, and without `<` and `]]>` as such. */
  predicate GoodProse(cs: seq<Char>) {
    && GoodChars(cs) && Plain(LESS_THAN as int) !in cs
    && !White(SpelledAll(cs)) && !Contains(SpelledAll(cs), CDEND)
  }

  /** The text of a comment the parser skips: not empty, no `-->` even with the two hyphens in front of it, and no
      hyphen at the end. */
  predicate GoodComment(t: Text) {
    0 !in t && t != [] && t[|t| - 1] != 0x2D && !Contains([0x2D, 0x2D] + t, END_COMMENT)
  }

  /** The text of an instruction: no `?>` even with the question mark in front of it, and no declaration. */
  predicate GoodInstruction(t: Text) {
    0 !in t && !Contains([0x3F] + t, END_PI) && !IsDeclaration(t)
  }

  /** `xml` in any mix of cases, and then a space, a question mark or nothing. */
  predicate IsDeclaration(t: Text) {
    && |t| >= 3 && Lower(t[0]) == 0x78 && Lower(t[1]) == 0x6D && Lower(t[2]) == 0x6C
    && (|t| == 3 || t[3] == SPACE || t[3] == 0x3F)
  }

  predicate IsCharacters(d: Draft) {
    d.Prose? || d.Blank?
  }

  /** Siblings: characters do not follow characters. */
  ghost predicate WellWritten(ds: seq<Draft>) {
    ds != [] ==>
      && GoodDraft(ds[0]) && WellWritten(ds[1..])
      && (IsCharacters(ds[0]) && |ds| > 1 ==> !IsCharacters(ds[1]))
  }

  ghost predicate GoodDraft(d: Draft) {
    match d
    case Full(name, attrs, gap, kids, endGap) =>
      GoodName(name) && GoodDraftAttrs(attrs) && White(gap) && WellWritten(kids) && White(endGap)
    case Empty(name, attrs, gap) => GoodName(name) && GoodDraftAttrs(attrs) && White(gap)
    case Prose(chars) => GoodProse(chars)
    case Blank(space) => White(space)
    case Comment(text) => GoodComment(text)
    case Instruction(text) => GoodInstruction(text)
  }

  /* ---- how it is written ---- */

  function SpellAttr(a: DraftAttr): Text {
    a.name + (a.before + ([EQUALS] + (a.after + ([a.quote] + (SpelledAll(a.value) + [a.quote])))))
  }

  function SpellAttrs(attrs: seq<DraftAttr>): Text {
    if attrs == [] then [] else attrs[0].gap + (SpellAttr(attrs[0]) + SpellAttrs(attrs[1..]))
  }

  function SpellEnd(name: Text, gap: Text): Text {
    ENDTAG + (name + (gap + [GREATER_THAN]))
  }

  function SpellOne(d: Draft): Text
    decreases d, 1
  {
    match d
    case Full(name, attrs, gap, kids, endGap) =>
      [LESS_THAN] + (name + (SpellAttrs(attrs) + (gap + ([GREATER_THAN] + (Spell(kids) + SpellEnd(name, endGap))))))
    case Empty(name, attrs, gap) => [LESS_THAN] + (name + (SpellAttrs(attrs) + (gap + COMPLETETAG)))
    case Prose(chars) => SpelledAll(chars)
    case Blank(space) => space
    case Comment(text) => BEGIN_COMMENT + (text + END_COMMENT)
    case Instruction(text) => BEGIN_PI + (text + END_PI)
  }

  function Spell(ds: seq<Draft>): Text
    decreases ds, 0
  {
    if ds == [] then [] else SpellOne(ds[0]) + Spell(ds[1..])
  }

  /* ---- what it means ---- */

  function AttrMeant(a: DraftAttr): Attr {
    Attr(a.name, if a.value == [] then None else Some(Encoded(Values(a.value))))
  }

  function AttrsMeant(attrs: seq<DraftAttr>): seq<Attr> {
    if attrs == [] then [] else [AttrMeant(attrs[0])] + AttrsMeant(attrs[1..])
  }

  /** The nodes written; white space between them, comments and instructions are none. */
  function Meant(ds: seq<Draft>): seq<Node>
    decreases ds, 0
  {
    if ds == [] then [] else MeantOne(ds[0]) + Meant(ds[1..])
  }

  function MeantOne(d: Draft): seq<Node>
    decreases d, 2
  {
    if d.Full? || d.Empty? || d.Prose? then [NodeMeant(d)] else []
  }

  function NodeMeant(d: Draft): Node
    requires d.Full? || d.Empty? || d.Prose?
    decreases d, 1
  {
    match d
    case Full(name, attrs, _, kids, _) => Element(name, AttrsMeant(attrs), Meant(kids))
    case Empty(name, attrs, _) => Element(name, AttrsMeant(attrs), [])
    case Prose(chars) => TextNode(Encoded(Values(chars)))
  }

  /* ---- documents ---- */

  /** White space, perhaps a declaration with white space after it, and one element with comments, instructions
      and white space around it. */
  datatype Document = Document(start: Text, declaration: Option<Text>, gap: Text, before: seq<Draft>, root: Draft,
                               after: seq<Draft>)

  predicate Around(ds: seq<Draft>) {
    forall k :: 0 <= k < |ds| ==> ds[k].Blank? || ds[k].Comment? || ds[k].Instruction?
  }

  ghost predicate GoodDocument(d: Document) {
    && White(d.start) && White(d.gap) && Around(d.before) && WellWritten(d.before) && Around(d.after)
    && WellWritten(d.after) && (d.root.Full? || d.root.Empty?) && GoodDraft(d.root)
    && (d.declaration.Some? ==> 0 !in d.declaration.value && !Contains(d.declaration.value, END_PI))
    && (d.declaration.None? ==> d.gap == [])
  }

  function SpellProlog(d: Document): Text {
    d.start + (if d.declaration.Some? then XMLDECL + (d.declaration.value + (END_PI + d.gap)) else [])
  }

  function SpellDocument(d: Document): Text {
    SpellProlog(d) + (Spell(d.before) + (SpellOne(d.root) + Spell(d.after)))
  }
}
