/** The abstract state of talloc: a forest of chunks and the references between them. */
module Forest {

  type Ptr = nat
  const NULL: Ptr := 0

  /** A chunk: its children in list order, its parent, its proper ancestors, the handles that
      refer to it, newest first, and, for a handle, the chunk it refers to. */
  datatype Node = Node(kids: seq<Ptr>, par: Ptr, anc: set<Ptr>, refs: seq<Ptr>, target: Ptr)

  type Forest = map<Ptr, Node>

  predicate NoDup(s: seq<Ptr>) {
    forall i, j :: 0 <= i < j < |s| ==> s[i] != s[j]
  }

  /** `s` without the members of `out`. */
  function Without(s: seq<Ptr>, out: set<Ptr>): (r: seq<Ptr>)
    ensures forall x :: x in r <==> x in s && x !in out
  {
    if s == [] then []
    else (if s[0] in out then [] else [s[0]]) + Without(s[1..], out)
  }

  /** The i-th of some addresses, NULL outside. */
  function Nth(s: seq<Ptr>, i: int): Ptr {
    if 0 <= i < |s| then s[i] else NULL
  }

  /** Where an address stands. */
  ghost function IndexOf(s: seq<Ptr>, x: Ptr): (i: nat)
    requires x in s
    ensures i < |s| && s[i] == x
  {
    var i :| 0 <= i < |s| && s[i] == x;
    i
  }

  /** `s` without its i-th element. */
  function Drop(s: seq<Ptr>, i: nat): (r: seq<Ptr>)
    requires i < |s|
    ensures |r| == |s| - 1
    ensures forall k :: 0 <= k < |r| ==> r[k] == if k < i then s[k] else s[k + 1]
  {
    s[..i] + s[i + 1..]
  }

  /* ---- the invariant ---- */

  function AncestorsOf(f: Forest, par: Ptr): set<Ptr> {
    if par in f then {par} + f[par].anc else {}
  }

  /** The list of children and the parent agree. */
  ghost predicate KidsOk(f: Forest, x: Ptr)
    requires x in f
  {
    && NoDup(f[x].kids)
    && (forall c :: c in f[x].kids ==> c in f && f[c].par == x)
    && (f[x].par == NULL || (f[x].par in f && x in f[f[x].par].kids))
  }

  predicate AncestorsOk(f: Forest, x: Ptr)
    requires x in f
  {
    f[x].anc == AncestorsOf(f, f[x].par) && x !in f[x].anc
  }

  /** Handles and the lists of references match one to one; a handle is a leaf nobody refers to. */
  ghost predicate RefsOk(f: Forest, x: Ptr)
    requires x in f
  {
    && NoDup(f[x].refs)
    && (forall h :: h in f[x].refs ==> h in f && f[h].target == x)
    && (f[x].target == NULL ||
        (f[x].target in f && x in f[f[x].target].refs && f[x].kids == [] && f[x].refs == []))
  }

  ghost predicate NodeOk(f: Forest, x: Ptr)
    requires x in f
  {
    KidsOk(f, x) && AncestorsOk(f, x) && RefsOk(f, x)
  }

  ghost predicate Tree(f: Forest) {
    NULL !in f && forall x {:trigger NodeOk(f, x)} :: x in f ==> NodeOk(f, x)
  }

  /** The chunks at or below one of the given ones. */
  function Below(f: Forest, roots: set<Ptr>): set<Ptr> {
    set x | x in f && (x in roots || f[x].anc * roots != {})
  }

  /* ---- basic facts ---- */

  lemma {:induction false} AncestorsExist(f: Forest, x: Ptr)
    requires Tree(f) && x in f
    ensures forall y :: y in f[x].anc ==> y in f && f[y].anc <= f[x].anc && y !in f[y].anc
    decreases f[x].anc
  {
    assert NodeOk(f, x);
    var p := f[x].par;
    if p in f {
      assert NodeOk(f, p);
      AncestorsExist(f, p);
    }
  }

  lemma NoDupIndex(s: seq<Ptr>, i: nat, j: nat)
    requires NoDup(s) && i < |s| && j < |s| && s[i] == s[j]
    ensures i == j
  {
  }

  lemma {:induction false} WithoutKeepsNoDup(s: seq<Ptr>, out: set<Ptr>)
    requires NoDup(s)
    ensures NoDup(Without(s, out))
  {
    if s != [] {
      var rest := Without(s[1..], out);
      WithoutKeepsNoDup(s[1..], out);
      assert forall i :: 0 <= i < |rest| ==> rest[i] in s[1..];
    }
  }

  lemma WithoutFirst(h: Ptr, s: seq<Ptr>, out: set<Ptr>)
    ensures Without([h] + s, out) == (if h in out then [] else [h]) + Without(s, out)
  {
    assert ([h] + s)[1..] == s;
  }

  lemma WithoutHead(s: seq<Ptr>, out: set<Ptr>)
    requires s != []
    ensures Without(s, out) == (if s[0] in out then [] else [s[0]]) + Without(s[1..], out)
  {
  }

  lemma {:induction false} WithoutTwice(s: seq<Ptr>, a: set<Ptr>, b: set<Ptr>)
    ensures Without(Without(s, a), b) == Without(s, a + b)
  {
    if s != [] {
      hide Without;
      var rest := Without(s[1..], a);
      WithoutTwice(s[1..], a, b);
      WithoutHead(s, a + b);
      WithoutHead(s, a);
      if s[0] in a {
        assert [] + rest == rest;
      } else {
        WithoutFirst(s[0], rest, b);
      }
    }
  }

  lemma {:induction false} WithoutNone(s: seq<Ptr>, out: set<Ptr>)
    requires forall x :: x in s ==> x !in out
    ensures Without(s, out) == s
  {
    if s != [] {
      assert s[0] in s && forall x :: x in s[1..] ==> x in s;
      WithoutNone(s[1..], out);
    }
  }

  /** Removing one element of a duplicate-free sequence. */
  lemma {:induction false} WithoutOne(s: seq<Ptr>, i: nat)
    requires NoDup(s) && i < |s|
    ensures Without(s, {s[i]}) == s[..i] + s[i + 1..]
  {
    hide Without;
    var t := s[1..];
    WithoutHead(s, {s[i]});
    if i == 0 {
      WithoutNone(t, {s[0]});
      assert [] + t == t;
    } else {
      assert t[i - 1] == s[i];
      WithoutOne(t, i - 1);
      assert [s[0]] + (t[..i - 1] + t[i..]) == s[..i] + s[i + 1..];
    }
  }

  /* ---- the operations ---- */

  /** c and everything below it become a tree of their own. */
  function Detached(f: Forest, c: Ptr): (g: Forest)
    requires c in f
    ensures g.Keys == f.Keys
  {
    map x | x in f :: f[x].(
      kids := Without(f[x].kids, {c}),
      par := if x == c then NULL else f[x].par,
      anc := if x in Below(f, {c}) then f[x].anc - f[c].anc else f[x].anc)
  }

  /** The tree of root c is hung below o, as its first child. */
  function Attached(f: Forest, c: Ptr, o: Ptr): (g: Forest)
    requires c in f && o in f
    ensures g.Keys == f.Keys
  {
    map x | x in f :: f[x].(
      kids := if x == o then [c] + f[x].kids else f[x].kids,
      par := if x == c then o else f[x].par,
      anc := if x in Below(f, {c}) then f[x].anc + {o} + f[o].anc else f[x].anc)
  }

  /** The handle h no longer refers to anything. */
  function Dropped(f: Forest, h: Ptr): (g: Forest)
    requires h in f
    ensures g.Keys == f.Keys
  {
    map x | x in f :: f[x].(
      refs := Without(f[x].refs, {h}),
      target := if x == h then NULL else f[x].target)
  }

  /** A childless, unreferenced root is gone. */
  function Removed(f: Forest, c: Ptr): Forest {
    f - {c}
  }

  /** A new root. */
  function Created(f: Forest, c: Ptr): Forest {
    f[c := Node([], NULL, {}, [], NULL)]
  }

  /** h becomes the newest handle of x. */
  function Referenced(f: Forest, h: Ptr, x: Ptr): (g: Forest)
    requires h in f && x in f
    ensures g.Keys == f.Keys
  {
    map y | y in f :: f[y].(
      refs := if y == x then [h] + f[y].refs else f[y].refs,
      target := if y == h then x else f[y].target)
  }

  lemma DetachedNode(f: Forest, c: Ptr, x: Ptr)
    requires Tree(f) && c in f && x in f
    ensures KidsOk(Detached(f, c), x) && RefsOk(Detached(f, c), x)
  {
    assert NodeOk(f, x);
    WithoutKeepsNoDup(f[x].kids, {c});
    hide Below, Without, NoDup, AncestorsOk;
  }

  lemma DetachedAncestor(f: Forest, c: Ptr, x: Ptr)
    requires Tree(f) && c in f && x in f
    ensures AncestorsOk(Detached(f, c), x)
  {
    hide KidsOk, RefsOk, Without;
    assert NodeOk(f, x);
    AncestorsExist(f, x);
    AncestorsExist(f, c);
    var p := f[x].par;
    if x in Below(f, {c}) && x != c {
      assert c in f[x].anc;
      assert p in Below(f, {c}) && f[x].anc == {p} + f[p].anc;
      assert p !in f[c].anc;
    }
  }

  lemma DetachedTree(f: Forest, c: Ptr)
    requires Tree(f) && c in f
    ensures Tree(Detached(f, c)) && Detached(f, c)[c].par == NULL
  {
    forall x | x in f ensures NodeOk(Detached(f, c), x) {
      DetachedNode(f, c, x);
      DetachedAncestor(f, c, x);
    }
    hide NodeOk;
  }

  lemma AttachedNode(f: Forest, c: Ptr, o: Ptr, x: Ptr)
    requires Tree(f) && c in f && o in f && f[c].par == NULL && o !in Below(f, {c}) && f[o].target == NULL
    requires x in f
    ensures KidsOk(Attached(f, c, o), x) && RefsOk(Attached(f, c, o), x)
  {
    assert NodeOk(f, x) && NodeOk(f, c) && NodeOk(f, o);
    hide Below, Without, AncestorsOk;
  }

  lemma AttachedAncestor(f: Forest, c: Ptr, o: Ptr, x: Ptr)
    requires Tree(f) && c in f && o in f && f[c].par == NULL && o !in Below(f, {c})
    requires x in f
    ensures AncestorsOk(Attached(f, c, o), x)
  {
    hide KidsOk, RefsOk, Without;
    assert NodeOk(f, x) && NodeOk(f, o);
    AncestorsExist(f, x);
    AncestorsExist(f, o);
    var p := f[x].par;
    if p in f {
      assert NodeOk(f, p);
      assert x in Below(f, {c}) <==> x == c || p in Below(f, {c});
    }
    assert o != c && c !in f[o].anc;
  }

  lemma AttachedTree(f: Forest, c: Ptr, o: Ptr)
    requires Tree(f) && c in f && o in f && f[c].par == NULL && o !in Below(f, {c}) && f[o].target == NULL
    ensures Tree(Attached(f, c, o))
  {
    forall x | x in f ensures NodeOk(Attached(f, c, o), x) {
      AttachedNode(f, c, o, x);
      AttachedAncestor(f, c, o, x);
    }
    hide NodeOk;
  }

  lemma DroppedTree(f: Forest, h: Ptr)
    requires Tree(f) && h in f
    ensures Tree(Dropped(f, h))
  {
    forall x | x in f ensures NodeOk(Dropped(f, h), x) {
      assert NodeOk(f, x);
      WithoutKeepsNoDup(f[x].refs, {h});
      hide Without, NoDup;
    }
    hide NodeOk;
  }

  lemma RemovedTree(f: Forest, c: Ptr)
    requires Tree(f) && c in f && f[c].par == NULL && f[c].kids == [] && f[c].refs == [] && f[c].target == NULL
    ensures Tree(Removed(f, c))
  {
    var g := Removed(f, c);
    forall x | x in g ensures NodeOk(g, x) {
      assert NodeOk(f, x) && NodeOk(f, c);
      assert x in f && g[x] == f[x];
      hide NoDup;
    }
    hide NodeOk;
  }

  lemma CreatedTree(f: Forest, c: Ptr)
    requires Tree(f) && c !in f && c != NULL
    ensures Tree(Created(f, c))
  {
    var g := Created(f, c);
    forall x | x in g ensures NodeOk(g, x) {
      if x != c {
        assert NodeOk(f, x) && g[x] == f[x];
      }
    }
    hide NodeOk;
  }

  lemma ReferencedTree(f: Forest, h: Ptr, x: Ptr)
    requires Tree(f) && h in f && x in f && h != x && f[x].target == NULL
    requires f[h].target == NULL && f[h].kids == [] && f[h].refs == []
    ensures Tree(Referenced(f, h, x))
  {
    var g := Referenced(f, h, x);
    forall y | y in g ensures NodeOk(g, y) {
      assert NodeOk(f, y) && NodeOk(f, x);
    }
    hide NodeOk;
  }
}
