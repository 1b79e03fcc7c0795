/** Conversion between code points and their UTF-8 byte sequences, one to six
    bytes long (section 2 of RFC 2279). */
module Utf8 {
  import opened Bytes

  datatype Decoded = Decoded(c: int, len: nat)

  /** The characters XML 1.0 admits, section 2.2. */
  predicate IsXmlChar(c: int) {
    || c == 0x9 || c == 0xA || c == 0xD
    || 0x20 <= c <= 0xD7FF
    || 0xE000 <= c <= 0xFFFD
    || 0x10000 <= c <= 0x10FFFF
  }

  /** `n` continuation bytes holding the low 6n bits of c, after a lead byte holding the rest. */
  function Encode(c: nat, n: nat, mark: Byte): (t: Text)
    ensures |t| == n + 1
  {
    if n == 0 then [(mark + c) % 0x100]
    else Encode(c / 0x40, n - 1, mark) + [0x80 + c % 0x40]
  }

  /** The empty result is the source's "illegal" return of length 0. */
  function IntToUtf8(c: int): Text {
    if c < 0 then []
    else if c <= 0x7F then [c]
    else if c <= 0x7FF then Encode(c, 1, 0xC0)
    else if c <= 0xFFFF then Encode(c, 2, 0xE0)
    else if c <= 0x1F_FFFF then Encode(c, 3, 0xF0)
    else if c <= 0x3FF_FFFF then Encode(c, 4, 0xF8)
    else if c <= 0x7FFF_FFFF then Encode(c, 5, 0xFC)
    else []
  }

  predicate IsContinuation(b: Byte) {
    0x80 <= b < 0xC0
  }

  /** Positions i+1 .. i+n all hold continuation bytes. */
  predicate Continued(s: Text, i: nat, n: nat)
    decreases n
  {
    n == 0 || (Continued(s, i, n - 1) && IsContinuation(At(s, i + n)))
  }

  /** The lead payload followed by the payloads of the n continuation bytes after position i. */
  function Payload(s: Text, i: nat, n: nat, lead: nat): nat
    decreases n
  {
    if n == 0 then lead else Payload(s, i, n - 1, lead) * 0x40 + At(s, i + n) % 0x40
  }

  /** The code point whose encoding starts at position i and its length; (-1, 0) when the bytes
      there are no encoding. */
  function Utf8ToInt(s: Text, i: nat): (d: Decoded)
    ensures d.len <= 6 && (d.c > 0 ==> d.len > 0 && i + d.len <= |s|)
  {
    var b := At(s, i);
    if b <= 0x7F then Decoded(b, 1)
    else if 0xC0 <= b < 0xE0 && Continued(s, i, 1) then Decoded(Payload(s, i, 1, b - 0xC0), 2)
    else if 0xE0 <= b < 0xF0 && Continued(s, i, 2) then Decoded(Payload(s, i, 2, b - 0xE0), 3)
    else if 0xF0 <= b < 0xF8 && Continued(s, i, 3) then Decoded(Payload(s, i, 3, b - 0xF0), 4)
    else if 0xF8 <= b < 0xFC && Continued(s, i, 4) then Decoded(Payload(s, i, 4, b - 0xF8), 5)
    else if 0xFC <= b < 0xFE && Continued(s, i, 5) then Decoded(Payload(s, i, 5, b - 0xFC), 6)
    else Decoded(-1, 0)
  }

  function Pow64(n: nat): nat {
    if n == 0 then 1 else 0x40 * Pow64(n - 1)
  }

  lemma OneDigitLess(c: nat, room: nat, p: nat)
    requires c < room * (0x40 * p)
    ensures c / 0x40 < room * p
  {
    assert room * (0x40 * p) == 0x40 * (room * p);
  }

  /** Decoding inverts encoding for a lead byte that leaves `room` values. */
  lemma {:induction false} DecodeTail(s: Text, i: nat, c: nat, n: nat, mark: Byte, room: nat)
    requires mark + room <= 0x100 && c < room * Pow64(n)
    requires Matches(s, i, Encode(c, n, mark))
    ensures Continued(s, i, n) && mark <= At(s, i) < mark + room
    ensures Payload(s, i, n, At(s, i) - mark) == c
  {
    hide Matches, Pow64, Encode, Payload, Continued;
    if n == 0 {
      DecodeLead(s, i, c, mark, room);
    } else {
      EncodeLast(c, n, mark, room);
      MatchesSplit(s, i, Encode(c / 0x40, n - 1, mark), [0x80 + c % 0x40]);
      MatchesAt(s, i + n, [0x80 + c % 0x40], 0);
      DecodeTail(s, i, c / 0x40, n - 1, mark, room);
      DecodeLast(s, i, c, n, At(s, i) - mark);
    }
  }

  /** A single byte, which holds all of c. */
  lemma DecodeLead(s: Text, i: nat, c: nat, mark: Byte, room: nat)
    requires mark + room <= 0x100 && c < room * Pow64(0) && Matches(s, i, Encode(c, 0, mark))
    ensures Continued(s, i, 0) && mark <= At(s, i) < mark + room && Payload(s, i, 0, At(s, i) - mark) == c
  {
    MatchesAt(s, i, Encode(c, 0, mark), 0);
    hide Matches;
  }

  /** The last byte holds the low bits, and the others encode the rest. */
  lemma EncodeLast(c: nat, n: nat, mark: Byte, room: nat)
    requires n > 0 && c < room * Pow64(n)
    ensures Encode(c, n, mark) == Encode(c / 0x40, n - 1, mark) + [0x80 + c % 0x40]
    ensures c / 0x40 < room * Pow64(n - 1)
  {
    OneDigitLess(c, room, Pow64(n - 1));
  }

  lemma DecodeLast(s: Text, i: nat, c: nat, n: nat, lead: nat)
    requires n > 0 && Continued(s, i, n - 1) && Payload(s, i, n - 1, lead) == c / 0x40
    requires At(s, i + n) == 0x80 + c % 0x40
    ensures Continued(s, i, n) && Payload(s, i, n, lead) == c
  {
  }

  lemma Powers()
    ensures Pow64(1) == 0x40 && Pow64(2) == 0x1000 && Pow64(3) == 0x4_0000
    ensures Pow64(4) == 0x100_0000 && Pow64(5) == 0x4000_0000
  {
    assert Pow64(1) == 0x40;
    assert Pow64(2) == 0x1000;
    assert Pow64(3) == 0x4_0000;
    assert Pow64(4) == 0x100_0000;
  }

  /** Decoding inverts encoding, for all six lengths. */
  lemma DecodeEncoded(s: Text, i: nat, c: int)
    requires 0 <= c <= 0x7FFF_FFFF && Matches(s, i, IntToUtf8(c))
    ensures Utf8ToInt(s, i) == Decoded(c, |IntToUtf8(c)|)
  {
    Powers();
    if c <= 0x7F {
      MatchesAt(s, i, IntToUtf8(c), 0);
    } else if c <= 0x7FF {
      DecodeTail(s, i, c, 1, 0xC0, 0x20);
    } else if c <= 0xFFFF {
      DecodeTail(s, i, c, 2, 0xE0, 0x10);
    } else if c <= 0x1F_FFFF {
      DecodeTail(s, i, c, 3, 0xF0, 0x8);
    } else if c <= 0x3FF_FFFF {
      DecodeTail(s, i, c, 4, 0xF8, 0x4);
    } else {
      DecodeTail(s, i, c, 5, 0xFC, 0x2);
    }
  }
}
