/** What freeing an unreferenced chunk spares. */
module FreeSpares {
  import opened Forest
  import opened FreeSpec
  import opened FreeFrame

  /** f became g when p was freed. */
  ghost predicate Freeing(f: Forest, g: Forest, p: Ptr) {
    && Tree(f) && Tree(g) && p in f && f[p].refs == [] && OwnedOutside(f, {p}, {})
    && Frees(f, g, Freed(f, {p}), Top(f, {p}))
  }

  lemma HandleApart(f: Forest, p: Ptr, x: Ptr, h: Ptr)
    requires Tree(f) && p in f && f[p].refs == [] && OwnedOutside(f, {p}, {}) && x in Below(f, {p}) && h in f[x].refs
    ensures h in f && h !in Below(f, {p}) && f[h].target == x && f[h].kids == []
    ensures f[h].par in f && f[h].par !in Below(f, {p}) && f[f[h].par].kids != []
  {
    if f[p].kids == [] {
      HandleIsFreed(f, p);
    }
    assert NodeOk(f, x) && NodeOk(f, h);
    assert {p} + {} == {p};
    assert NodeOk(f, f[h].par);
    assert h != p;
  }

  /** A chunk at or below p goes exactly when nothing referenced is at or above it. */
  lemma GoneUnlessHeld(f: Forest, g: Forest, p: Ptr, x: Ptr)
    requires Freeing(f, g, p) && x in Below(f, {p})
    ensures x in g <==> Held(f, {p}, x)
  {
    if x in NewestOf(f, Top(f, {p})) {
      var q :| q in Top(f, {p}) && q in f && f[q].refs != [] && x == Newest(f, q);
      assert x in f[q].refs;
      HandleApart(f, p, q, x);
    }
  }

  /** Of the handles of a topmost referenced chunk only the newest goes, and its owner stays. */
  lemma OneHandleGone(f: Forest, p: Ptr, q: Ptr, h: Ptr)
    requires Tree(f) && p in f && f[p].refs == [] && OwnedOutside(f, {p}, {}) && q in Top(f, {p}) && h in f[q].refs
    ensures h in Freed(f, {p}) <==> h == Newest(f, q)
    ensures f[h].par !in Freed(f, {p}) && f[h].par in f
  {
    assert q in Below(f, {p});
    assert q in f && Newest(f, q) in NewestOf(f, Top(f, {p}));
    hide Below;
    HandleApart(f, p, q, h);
    if h in NewestOf(f, Top(f, {p})) {
      var r :| r in Top(f, {p}) && r in f && f[r].refs != [] && h == Newest(f, r);
      assert h in f[r].refs && NodeOk(f, r) && NodeOk(f, q);
      assert r == q;
    }
    var o := f[h].par;
    if o in NewestOf(f, Top(f, {p})) {
      var r :| r in Top(f, {p}) && r in f && f[r].refs != [] && o == Newest(f, r);
      assert o in f[r].refs;
      HandleApart(f, p, r, o);
    }
  }

  lemma {:induction false} KeptBelow(f: Forest, g: Forest, p: Ptr, q: Ptr, x: Ptr)
    requires Freeing(f, g, p) && q in Top(f, {p}) && x in Below(f, {q})
    ensures x in g && x in Below(g, {q})
    decreases f[x].anc
  {
    AncestorsExist(f, x);
    assert x in Below(f, {p}) && Held(f, {p}, x);
    GoneUnlessHeld(f, g, p, x);
    if x != q {
      assert NodeOk(f, x) && NodeOk(g, x);
      var y := f[x].par;
      assert NodeOk(f, y) && y in Below(f, {q});
      assert x !in Top(f, {p});
      KeptBelow(f, g, p, q, y);
    }
  }

  lemma {:induction false} NoneGained(f: Forest, g: Forest, p: Ptr, q: Ptr, x: Ptr)
    requires Freeing(f, g, p) && q in Top(f, {p}) && x in g && x !in Below(f, {q})
    ensures x !in Below(g, {q})
    decreases g[x].anc
  {
    assert NodeOk(f, x) && NodeOk(g, x);
    var o := g[x].par;
    if o in g {
      assert NodeOk(g, o);
      if x in Top(f, {p}) {
        assert Newest(f, x) in f[x].refs;
        HandleApart(f, p, x, Newest(f, x));
        if o in Below(f, {q}) { AncestorsExist(f, o); }
      }
      hide Top, Freed;
      NoneGained(f, g, p, q, o);
    }
  }

  /** A topmost referenced chunk keeps its whole subtree, loses its newest handle and becomes a
      child of that handle's owner. */
  lemma SparesReferenced(f: Forest, g: Forest, p: Ptr, q: Ptr)
    requires Freeing(f, g, p) && q in Top(f, {p})
    ensures q in g && Below(g, {q}) == Below(f, {q})
    ensures g[q].par == f[Newest(f, q)].par && g[q].par in g && q in g[g[q].par].kids
    ensures g[q].refs == f[q].refs[1..] && Newest(f, q) !in g
  {
    assert q in Below(f, {q});
    KeptBelow(f, g, p, q, q);
    forall x | x in Below(f, {q}) ensures x in Below(g, {q}) {
      KeptBelow(f, g, p, q, x);
    }
    forall x | x in Below(g, {q}) ensures x in Below(f, {q}) {
      if x !in Below(f, {q}) { NoneGained(f, g, p, q, x); }
    }
    assert Newest(f, q) in f[q].refs;
    OneHandleGone(f, p, q, Newest(f, q));
    HandleApart(f, p, q, Newest(f, q));
    RefsAfter(f, p, q);
    assert NodeOk(g, q);
    hide Below, Top, Freed, Tree, NodeOk, Without;
  }

  lemma RefsAfter(f: Forest, p: Ptr, q: Ptr)
    requires Tree(f) && p in f && f[p].refs == [] && OwnedOutside(f, {p}, {}) && q in Top(f, {p})
    ensures Without(f[q].refs, Freed(f, {p})) == f[q].refs[1..]
  {
    var hs := f[q].refs;
    assert NoDup(hs) by { assert NodeOk(f, q); }
    forall h | h in hs ensures h in Freed(f, {p}) <==> h == hs[0] {
      OneHandleGone(f, p, q, h);
    }
    hide Freed, Top, Below, Tree, OwnedOutside, Without;
    WithoutFirstOnly(hs, Freed(f, {p}));
  }

  lemma WithoutFirstOnly(s: seq<Ptr>, out: set<Ptr>)
    requires s != [] && NoDup(s) && forall x :: x in s ==> (x in out <==> x == s[0])
    ensures Without(s, out) == s[1..]
  {
    WithoutHead(s, out);
    hide Without;
    WithoutNone(s[1..], out);
  }
}
