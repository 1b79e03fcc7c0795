/** Byte strings as the XML code sees them: a buffer followed by a NUL. */
module Bytes {

  type Byte = x: int | 0 <= x < 256
  type Text = seq<Byte>

  const TAB: Byte := 0x09
  const LINE_FEED: Byte := 0x0A
  const CARRIAGE_RETURN: Byte := 0x0D
  const SPACE: Byte := 0x20
  const QUOTE: Byte := 0x22
  const AMPERSAND: Byte := 0x26
  const SINGLE_QUOTE: Byte := 0x27
  const SLASH: Byte := 0x2F
  const SEMICOLON: Byte := 0x3B
  const LESS_THAN: Byte := 0x3C
  const EQUALS: Byte := 0x3D
  const GREATER_THAN: Byte := 0x3E

  /** The byte at position i, or the terminating NUL. */
  function At(s: Text, i: nat): Byte {
    if i < |s| then s[i] else 0
  }

  /** `t` occurs in `s` at position i. */
  predicate Matches(s: Text, i: nat, t: Text) {
    i + |t| <= |s| && s[i..i + |t|] == t
  }

  predicate IsSpace(b: int) {
    b == LINE_FEED || b == TAB || b == CARRIAGE_RETURN || b == SPACE
  }

  lemma MatchesAt(s: Text, i: nat, t: Text, k: nat)
    requires Matches(s, i, t) && k < |t|
    ensures At(s, i + k) == t[k]
  {
    assert s[i..i + |t|][k] == t[k];
  }

  lemma NotAt(s: Text, i: nat, t: Text, k: nat)
    requires k < |t| && At(s, i + k) != t[k]
    ensures !Matches(s, i, t)
  {
    if i + |t| <= |s| {
      assert s[i..i + |t|][k] == s[i + k];
    }
  }

  lemma MatchesSplit(s: Text, i: nat, a: Text, b: Text)
    requires Matches(s, i, a + b)
    ensures Matches(s, i, a) && Matches(s, i + |a|, b)
  {
    assert s[i..i + |a| + |b|] == a + b;
    assert s[i..i + |a|] == (a + b)[..|a|];
    assert s[i + |a|..i + |a| + |b|] == (a + b)[|a|..];
  }

  lemma Assoc(a: Text, b: Text, c: Text)
    ensures (a + b) + c == a + (b + c)
  {
  }

  /** The pieces of an occurrence lie one after the other. */
  lemma MatchesPieces(s: Text, i: nat, a: Text, b: Text, c: Text, d: Text)
    requires Matches(s, i, a + b + c + d)
    ensures Matches(s, i, a) && Matches(s, i + |a|, b) && Matches(s, i + |a| + |b|, c)
    ensures Matches(s, i + |a| + |b| + |c|, d)
  {
    hide Matches;
    MatchesSplit(s, i, a + b + c, d);
    MatchesSplit(s, i, a + b, c);
    MatchesSplit(s, i, a, b);
  }
}
