/** The characters of XML names (XML 1.0, second edition, appendix B). */
module Names {

  // Ranges beyond ASCII, of letters and of the other name characters.  Everything proved here
  // holds whatever these tables contain.
  const LETTER: seq<(int, int)>
  const NAME_CHAR: seq<(int, int)>

  predicate InRanges(c: int, table: seq<(int, int)>) {
    exists r :: r in table && r.0 <= c <= r.1
  }

  /** May c start a name, or, when `inside` is set, stand anywhere in one?  No character beyond
      U+D7A3, the end of the last range of letters, does. */
  predicate IsNameChar(c: int, inside: bool) {
    if c < 0x80 then
      || 0x41 <= c <= 0x5A || 0x61 <= c <= 0x7A || c == 0x3A || c == 0x5F
      || (inside && (0x30 <= c <= 0x39 || c == 0x2D || c == 0x2E))
    else
      c <= 0xD7A3 && (InRanges(c, LETTER) || (inside && InRanges(c, NAME_CHAR)))
  }
}
