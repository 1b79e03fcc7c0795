/** Freeing some children of a chunk leaves the others and what is below them as they were. */
module FreeFrame {
  import opened Forest
  import opened FreeSpec

  /** p, which is a root being freed, has had the children `done` freed: f became g. */
  ghost predicate Midway(f: Forest, g: Forest, p: Ptr, done: set<Ptr>, limbo: set<Ptr>) {
    && Tree(f) && Tree(g) && p in f && f[p].par == NULL && f[p].refs == []
    && done <= Members(f[p].kids) && OwnedOutside(f, {p}, limbo)
    && Frees(f, g, Freed(f, done), Top(f, done))
  }

  /** A handle of a chunk below p is not below p. */
  lemma HandleOutside(f: Forest, p: Ptr, limbo: set<Ptr>, x: Ptr, h: Ptr)
    requires Tree(f) && p in f && f[p].par == NULL && OwnedOutside(f, {p}, limbo)
    requires x in Below(f, {p}) && h in f[x].refs
    ensures h in f && f[h].par in f && h !in Below(f, {p} + limbo - {h}) && h != p
    ensures f[h].refs == [] && f[h].target == x && f[f[h].par].target == NULL
  {
    assert NodeOk(f, x) && NodeOk(f, h) && NodeOk(f, f[h].par);
    AncestorsExist(f, h);
  }

  /** Which chunks disappear: those below `done`, and handles outside. */
  lemma GoneApart(f: Forest, p: Ptr, done: set<Ptr>, limbo: set<Ptr>, y: Ptr)
    requires Tree(f) && p in f && f[p].par == NULL && OwnedOutside(f, {p}, limbo)
    requires done <= Members(f[p].kids) && y in Freed(f, done)
    ensures y in Below(f, done) || (y !in Below(f, {p}) && y in f && f[y].target in Below(f, done))
  {
    KidsBelow(f, p);
    if y !in Below(f, done) {
      var q :| q in Top(f, done) && f[q].refs != [] && y == Newest(f, q);
      assert q in Below(f, {p}) by {
        assert Below(f, done) <= Below(f, Members(f[p].kids));
      }
      HandleOutside(f, p, limbo, q, y);
    }
  }

  /** The new owner of a moved chunk is outside. */
  lemma OwnerOutside(f: Forest, p: Ptr, done: set<Ptr>, limbo: set<Ptr>, x: Ptr)
    requires Tree(f) && p in f && OwnedOutside(f, {p}, limbo) && done <= Members(f[p].kids)
    requires x in Top(f, done)
    ensures x in Below(f, done) && NewOwner(f, x) in f && NewOwner(f, x) !in Below(f, {p} + limbo)
  {
    KidsBelow(f, p);
    assert Below(f, done) <= Below(f, Members(f[p].kids));
    assert x in Below(f, {p});
    assert Newest(f, x) in f[x].refs;
    hide Below;
  }

  /** What is left of a chunk that was not below l is not below l either. */
  lemma {:induction false} StaysOutside(f: Forest, g: Forest, p: Ptr, done: set<Ptr>, limbo: set<Ptr>, l: Ptr, x: Ptr)
    requires Midway(f, g, p, done, limbo) && l in {p} + limbo
    requires x in g && x !in Below(f, {l})
    ensures x !in Below(g, {l})
    decreases g[x].anc
  {
    hide Midway, Tree, NodeOk;
    var o := g[x].par;
    if o in g {
      ParentOutside(f, g, p, done, limbo, l, x);
      StaysOutside(f, g, p, done, limbo, l, o);
    } else {
      RootOutside(f, g, p, done, limbo, x);
    }
  }

  /** A new parent is the old one or the owner of a handle, and so is not below l. */
  lemma ParentOutside(f: Forest, g: Forest, p: Ptr, done: set<Ptr>, limbo: set<Ptr>, l: Ptr, x: Ptr)
    requires Midway(f, g, p, done, limbo) && l in {p} + limbo
    requires x in g && x !in Below(f, {l}) && g[x].par in g
    ensures g[x].par !in Below(f, {l}) && g[x].anc == {g[x].par} + g[g[x].par].anc && g[x].par !in g[g[x].par].anc
    ensures x in f
  {
    hide Top, Freed, Tree, Below, Midway;
    StillThere(f, g, p, done, limbo, x);
    ParentAnc(g, x);
    if x in Top(f, done) {
      OwnerOutside(f, p, done, limbo, x);
      BelowMore(f, l, {p} + limbo, g[x].par);
    } else {
      AboveOutside(f, l, x);
    }
  }

  lemma StillThere(f: Forest, g: Forest, p: Ptr, done: set<Ptr>, limbo: set<Ptr>, x: Ptr)
    requires Midway(f, g, p, done, limbo) && x in g
    ensures Tree(f) && Tree(g) && x in f && p in f && done <= Members(f[p].kids) && OwnedOutside(f, {p}, limbo)
    ensures g[x].par == if x in Top(f, done) then NewOwner(f, x) else f[x].par
  {
    hide Tree, Top, Freed, Below, OwnedOutside;
  }

  lemma ParentAnc(g: Forest, x: Ptr)
    requires Tree(g) && x in g && g[x].par in g
    ensures g[x].anc == {g[x].par} + g[g[x].par].anc && g[x].par !in g[g[x].par].anc
  {
    assert NodeOk(g, x) && NodeOk(g, g[x].par);
    AncestorsExist(g, g[x].par);
    hide Tree;
  }

  lemma BelowMore(f: Forest, l: Ptr, roots: set<Ptr>, o: Ptr)
    requires l in roots && o !in Below(f, roots)
    ensures o !in Below(f, {l})
  {
  }

  /** The parent of a chunk not below l is not below l either. */
  lemma AboveOutside(f: Forest, l: Ptr, x: Ptr)
    requires Tree(f) && x in f && x !in Below(f, {l})
    ensures f[x].par !in Below(f, {l})
  {
    hide Below, Tree;
    BelowOne(f, l, x);
    BelowOne(f, l, f[x].par);
    if f[x].par in f {
      ParentAnc(f, x);
    }
  }

  lemma BelowOne(f: Forest, l: Ptr, x: Ptr)
    ensures x in Below(f, {l}) <==> x in f && (x == l || l in f[x].anc)
  {
    if x in f {
      if l in f[x].anc {
        assert l in f[x].anc * {l};
      }
    }
  }

  lemma RootOutside(f: Forest, g: Forest, p: Ptr, done: set<Ptr>, limbo: set<Ptr>, x: Ptr)
    requires Midway(f, g, p, done, limbo) && x in g && g[x].par !in g
    ensures g[x].anc == {} && x in f
  {
    assert NodeOk(g, x);
    hide Top, Freed, Below, OwnedOutside;
  }

  lemma SiblingParent(f: Forest, g: Forest, p: Ptr, done: set<Ptr>, limbo: set<Ptr>, c: Ptr, x: Ptr)
    requires Midway(f, g, p, done, limbo) && c in f[p].kids && c !in done
    requires x in Below(f, {c})
    ensures x in g && g[x].par == f[x].par && g[x].refs == f[x].refs
  {
    hide Below, Top, Freed, Tree, OwnedOutside, Without;
    SiblingSpared(f, p, done, limbo, c, x);
    WithoutNone(f[x].refs, Freed(f, done));
  }

  /** Nothing below another child goes or moves, and its handles stay. */
  lemma SiblingSpared(f: Forest, p: Ptr, done: set<Ptr>, limbo: set<Ptr>, c: Ptr, x: Ptr)
    requires Tree(f) && p in f && f[p].par == NULL && done <= Members(f[p].kids) && OwnedOutside(f, {p}, limbo)
    requires c in f[p].kids && c !in done && x in Below(f, {c})
    ensures x in f && x !in Freed(f, done) && x !in Top(f, done) && forall h :: h in f[x].refs ==> h !in Freed(f, done)
  {
    SiblingsApart(f, p, done, c);
    assert x in f && x !in Below(f, done) && x in Below(f, {p});
    if x in Freed(f, done) {
      GoneApart(f, p, done, limbo, x);
    }
    assert x !in Top(f, done);
    assert NodeOk(f, x);
    forall h | h in f[x].refs ensures h !in Freed(f, done) {
      HandleOutside(f, p, limbo, x, h);
      if h in Freed(f, done) {
        GoneApart(f, p, done, limbo, h);
      }
    }
    hide Below, Top, Freed, Tree;
  }

  /** The freed parent itself stays, still a root. */
  lemma ParentStays(f: Forest, g: Forest, p: Ptr, done: set<Ptr>, limbo: set<Ptr>)
    requires Midway(f, g, p, done, limbo)
    ensures p in g && g[p].par == NULL && g[p].refs == []
  {
    KidsBelow(f, p);
    assert p !in Below(f, done) && p in Below(f, {p});
    if p in Freed(f, done) {
      GoneApart(f, p, done, limbo, p);
    }
    assert p !in Top(f, done);
    assert f[p].refs == [];
    hide Below, Top, Freed, Tree;
  }

  /** A chunk below a sibling keeps its ancestors. */
  lemma {:induction false} SiblingAncestors(f: Forest, g: Forest, p: Ptr, done: set<Ptr>, limbo: set<Ptr>, c: Ptr,
      x: Ptr)
    requires Midway(f, g, p, done, limbo) && c in f[p].kids && c !in done
    requires x in Below(f, {c})
    ensures x in g && g[x].anc == f[x].anc
    decreases f[x].anc
  {
    SiblingParent(f, g, p, done, limbo, c, x);
    assert NodeOk(f, x) && NodeOk(g, x);
    var y := f[x].par;
    if x == c {
      ParentStays(f, g, p, done, limbo);
      assert NodeOk(f, p) && NodeOk(g, p);
    } else {
      assert NodeOk(f, y);
      assert y in Below(f, {c});
      hide Top, Freed;
      SiblingAncestors(f, g, p, done, limbo, c, y);
    }
  }

  /** What is left and was not below a sibling is not below it now. */
  lemma {:induction false} SiblingGainsNothing(f: Forest, g: Forest, p: Ptr, done: set<Ptr>, limbo: set<Ptr>, c: Ptr,
      x: Ptr)
    requires Midway(f, g, p, done, limbo) && c in f[p].kids && c !in done
    requires x in g && x !in Below(f, {c})
    ensures x !in Below(g, {c})
    decreases g[x].anc
  {
    assert NodeOk(f, x) && NodeOk(g, x);
    var o := g[x].par;
    if o in g {
      assert NodeOk(g, o);
      if x in Top(f, done) {
        OwnerOutside(f, p, done, limbo, x);
        SiblingsApart(f, p, done, c);
        assert o !in Below(f, {p}) && o !in Below(f, {c});
      }
      hide Top, Freed;
      SiblingGainsNothing(f, g, p, done, limbo, c, o);
    }
  }

  lemma SiblingBelow(f: Forest, g: Forest, p: Ptr, done: set<Ptr>, limbo: set<Ptr>, c: Ptr)
    requires Midway(f, g, p, done, limbo) && c in f[p].kids && c !in done
    ensures Below(g, {c}) == Below(f, {c})
    ensures forall x :: x in Below(f, {c}) ==> x in g && g[x].anc == f[x].anc && g[x].refs == f[x].refs
  {
    hide Midway;
    forall x | x in Below(f, {c})
      ensures x in g && g[x].anc == f[x].anc && g[x].refs == f[x].refs
    {
      SiblingParent(f, g, p, done, limbo, c, x);
      SiblingAncestors(f, g, p, done, limbo, c, x);
    }
    forall x | x in Below(g, {c}) ensures x in Below(f, {c}) {
      if x !in Below(f, {c}) {
        SiblingGainsNothing(f, g, p, done, limbo, c, x);
      }
    }
  }

  /** f and g agree on everything at or below c that the freeing of c depends on. */
  predicate SameBelow(f: Forest, g: Forest, c: Ptr) {
    && Below(g, {c}) == Below(f, {c})
    && forall x :: x in Below(f, {c}) ==>
         && x in f && x in g && g[x].refs == f[x].refs
         && forall r :: r in Below(f, {c}) ==> (r in g[x].anc <==> r in f[x].anc)
  }

  lemma SameFreed(f: Forest, g: Forest, c: Ptr)
    requires SameBelow(f, g, c)
    ensures Top(g, {c}) == Top(f, {c}) && Freed(g, {c}) == Freed(f, {c})
  {
    forall x | x in Below(f, {c}) ensures Held(f, {c}, x) == Held(g, {c}, x) {
    }
    hide Held, Below;
  }

  /** Handles of what is below a sibling stay, and so do their owners. */
  lemma HandleStays(f: Forest, g: Forest, p: Ptr, done: set<Ptr>, limbo: set<Ptr>, c: Ptr, x: Ptr, h: Ptr)
    requires Midway(f, g, p, done, limbo) && c in f[p].kids && c !in done
    requires x in Below(f, {c}) && h in f[x].refs
    ensures h in g && g[h].par == f[h].par && g[h].par in g && g[h].par !in Below(g, {c} + (limbo + {p}))
  {
    SiblingsApart(f, p, done, c);
    HandleOutside(f, p, limbo, x, h);
    SiblingParent(f, g, p, done, limbo, c, x);
    assert NodeOk(g, x) && NodeOk(g, h);
    assert h !in Top(f, done);
    var o := f[h].par;
    assert o !in Below(f, {p} + limbo);
    OutsideStaysOutside(f, g, p, done, limbo, c, o);
  }

  lemma OutsideStaysOutside(f: Forest, g: Forest, p: Ptr, done: set<Ptr>, limbo: set<Ptr>, c: Ptr, o: Ptr)
    requires Midway(f, g, p, done, limbo) && c in f[p].kids && c !in done
    requires o in g && o !in Below(f, {p} + limbo)
    ensures o !in Below(g, {c} + (limbo + {p}))
  {
    forall l | l in {p} + limbo ensures o !in Below(g, {l}) {
      StaysOutside(f, g, p, done, limbo, l, o);
    }
    assert o !in Below(f, {c}) by { SiblingsApart(f, p, done, c); }
    SiblingGainsNothing(f, g, p, done, limbo, c, o);
    hide Midway;
  }

  lemma SiblingSame(f: Forest, g: Forest, p: Ptr, done: set<Ptr>, limbo: set<Ptr>, c: Ptr)
    requires Midway(f, g, p, done, limbo) && c in f[p].kids && c !in done
    ensures Below(g, {c}) == Below(f, {c}) && Top(g, {c}) == Top(f, {c}) && Freed(g, {c}) == Freed(f, {c})
  {
    SiblingBelow(f, g, p, done, limbo, c);
    SameFreed(f, g, c);
    hide Midway, Below, Top, Freed, Tree;
  }

  lemma SiblingOwnedOutside(f: Forest, g: Forest, p: Ptr, done: set<Ptr>, limbo: set<Ptr>, c: Ptr)
    requires Midway(f, g, p, done, limbo) && c in f[p].kids && c !in done
    ensures OwnedOutside(g, {c}, limbo + {p})
  {
    hide Midway, Below;
    SiblingBelow(f, g, p, done, limbo, c);
    forall x, h | x in Below(g, {c}) && h in g[x].refs
      ensures h in g && g[h].par in g && g[h].par !in Below(g, {c} + (limbo + {p}))
    {
      HandleStays(f, g, p, done, limbo, c, x, h);
    }
  }

  lemma SiblingOwner(f: Forest, g: Forest, p: Ptr, done: set<Ptr>, limbo: set<Ptr>, c: Ptr, x: Ptr)
    requires Midway(f, g, p, done, limbo) && c in f[p].kids && c !in done
    requires x in Top(f, {c})
    ensures NewOwner(g, x) == NewOwner(f, x)
  {
    SiblingBelow(f, g, p, done, limbo, c);
    assert x in Below(f, {c}) && Newest(f, x) in f[x].refs;
    HandleStays(f, g, p, done, limbo, c, x, Newest(f, x));
    hide Midway, Below;
  }

  /** The next child to free is still there. */
  lemma SiblingThere(f: Forest, g: Forest, p: Ptr, done: set<Ptr>, limbo: set<Ptr>, c: Ptr)
    requires Midway(f, g, p, done, limbo) && c in f[p].kids && c !in done
    ensures c in g && g[c].par == p
  {
    assert NodeOk(f, p) && NodeOk(f, c);
    SiblingParent(f, g, p, done, limbo, c, c);
  }

  lemma Compose(f: Forest, g: Forest, k: Forest, a: set<Ptr>, ma: set<Ptr>, b: set<Ptr>, mb: set<Ptr>)
    requires Frees(f, g, a, ma) && Frees(g, k, b, mb) && ma !! mb
    requires forall x :: x in mb ==> NewOwner(g, x) == NewOwner(f, x)
    ensures Frees(f, k, a + b, ma + mb)
  {
    hide NewOwner, Without;
    assert k.Keys == f.Keys - (a + b);
    forall x | x in k
      ensures k[x].par == if x in ma + mb then NewOwner(f, x) else f[x].par
      ensures k[x].refs == Without(f[x].refs, a + b) && k[x].target == f[x].target
    {
      assert x in g && x in f;
      WithoutTwice(f[x].refs, a, b);
    }
  }

  /** Freeing one more sibling composes. */
  lemma OneMoreSibling(f: Forest, g: Forest, k: Forest, p: Ptr, done: set<Ptr>, limbo: set<Ptr>, c: Ptr)
    requires Midway(f, g, p, done, limbo) && c in f[p].kids && c !in done
    requires Tree(k) && Frees(g, k, Freed(g, {c}), Top(g, {c}))
    ensures Midway(f, k, p, done + {c}, limbo)
  {
    hide Freed, Top, Tree, OwnedOutside, Below, NewOwner, Frees;
    SiblingSame(f, g, p, done, limbo, c);
    FreedSplits(f, p, done, c);
    forall x | x in Top(f, {c}) ensures NewOwner(g, x) == NewOwner(f, x) {
      SiblingOwner(f, g, p, done, limbo, c, x);
    }
    Compose(f, g, k, Freed(f, done), Top(f, done), Freed(f, {c}), Top(f, {c}));
  }

  /* ---- the first and the last step ---- */

  /** Cutting a chunk off its parent changes nothing at or below it. */
  lemma DetachedSame(f: Forest, p: Ptr)
    requires Tree(f) && p in f
    ensures SameBelow(f, Detached(f, p), p)
  {
    hide Tree, Without, NodeOk, Below;
    AncestorsExist(f, p);
    forall x | x in f ensures forall y :: y in f[x].anc ==> y in f && f[y].anc <= f[x].anc && y !in f[y].anc {
      AncestorsExist(f, x);
    }
    OwnAncestorsApart(f, p);
    DetachedBelow(f, p);
  }

  lemma OwnAncestorsApart(f: Forest, p: Ptr)
    requires Tree(f) && p in f
    ensures p !in f[p].anc
  {
    assert NodeOk(f, p);
    AncestorsExist(f, p);
  }

  lemma DetachedBelow(f: Forest, p: Ptr)
    requires p in f && p !in f[p].anc
    requires forall x, y :: x in f && y in f[x].anc ==> y in f && f[y].anc <= f[x].anc && y !in f[y].anc
    ensures SameBelow(f, Detached(f, p), p)
  {
    hide Without;
  }

  lemma OwnerNotAbove(f: Forest, p: Ptr, limbo: set<Ptr>, x: Ptr, h: Ptr)
    requires Tree(f) && p in f && f[p].target == NULL && OwnedOutside(f, {p}, limbo)
    requires x in Below(f, {p}) && h in f[x].refs
    ensures h in f && h != p && Detached(f, p)[h].par == f[h].par
    ensures f[h].par in f && f[h].par !in Below(Detached(f, p), {p} + limbo)
  {
    var o, g := f[h].par, Detached(f, p);
    assert NodeOk(f, x);
    assert o !in Below(f, {p} + limbo);
    assert g[o].anc <= f[o].anc;
    assert f[o].anc * ({p} + limbo) == {};
    hide Tree, Without, NodeOk, NoDup;
  }

  lemma DetachedOwnedOutside(f: Forest, p: Ptr, limbo: set<Ptr>)
    requires Tree(f) && p in f && f[p].target == NULL && OwnedOutside(f, {p}, limbo)
    ensures OwnedOutside(Detached(f, p), {p}, limbo)
  {
    var g := Detached(f, p);
    DetachedSame(f, p);
    forall x, h | x in Below(g, {p}) && h in g[x].refs
      ensures h in g && g[h].par in g && g[h].par !in Below(g, {p} + limbo)
    {
      OwnerNotAbove(f, p, limbo, x, h);
    }
    hide Below, Tree, Detached;
  }

  lemma DetachedOwner(f: Forest, p: Ptr, limbo: set<Ptr>, x: Ptr)
    requires Tree(f) && p in f && f[p].target == NULL && OwnedOutside(f, {p}, limbo)
    requires x in Top(f, {p})
    ensures NewOwner(Detached(f, p), x) == NewOwner(f, x)
  {
    assert x in Below(f, {p}) && Newest(f, x) in f[x].refs;
    OwnerNotAbove(f, p, limbo, x, Newest(f, x));
    hide Below, Tree, Without;
  }

  /** Nothing freed, nothing changed. */
  lemma NothingFreed(g: Forest)
    ensures Top(g, {}) == {} && Freed(g, {}) == {} && Frees(g, g, {}, {})
  {
    assert Below(g, {}) == {};
    forall x | x in g ensures Without(g[x].refs, {}) == g[x].refs {
      WithoutNone(g[x].refs, {});
    }
    hide Without;
  }

  /** Once cut off, an unreferenced chunk is ready to have its children freed. */
  lemma FreeStarts(f: Forest, p: Ptr, limbo: set<Ptr>)
    requires Tree(f) && p in f && f[p].refs == [] && f[p].target == NULL && OwnedOutside(f, {p}, limbo)
    ensures Midway(Detached(f, p), Detached(f, p), p, {}, limbo)
    ensures Freed(Detached(f, p), {p}) == Freed(f, {p}) && Top(Detached(f, p), {p}) == Top(f, {p})
  {
    hide Below, Tree, Top, Freed, OwnedOutside, Without, Frees;
    var g := Detached(f, p);
    DetachedTree(f, p);
    DetachedSame(f, p);
    SameFreed(f, g, p);
    DetachedOwnedOutside(f, p, limbo);
    NothingFreed(g);
  }

  /** What freeing the children did, together with releasing the chunk itself. */
  lemma FreeEndsFor(f: Forest, g: Forest, p: Ptr, gone: set<Ptr>, moved: set<Ptr>)
    requires p in g && Frees(f, g, gone, moved) && forall x :: x in g ==> p !in g[x].refs
    ensures Frees(f, Removed(g, p), {p} + gone, moved)
  {
    forall x | x in Removed(g, p) ensures g[x].refs == Without(f[x].refs, {p} + gone) {
      WithoutTwice(f[x].refs, gone, {p});
      WithoutNone(g[x].refs, {p});
      assert gone + {p} == {p} + gone;
    }
    hide Without, NewOwner;
  }

  /** When all children are done the chunk itself goes. */
  lemma FreeEnds(f: Forest, g: Forest, p: Ptr, limbo: set<Ptr>)
    requires p in f && Midway(f, g, p, Members(f[p].kids), limbo)
    requires f[p].target == NULL && p in g && g[p].kids == []
    ensures Tree(Removed(g, p)) && g[p].par == NULL && g[p].refs == [] && g[p].target == NULL
    ensures Frees(f, Removed(g, p), Freed(f, {p}), Top(f, {p}))
  {
    var done := Members(f[p].kids);
    ParentStays(f, g, p, done, limbo);
    assert g[p].target == NULL;
    RemovedTree(g, p);
    FreedOfKids(f, p);
    forall x | x in g ensures p !in g[x].refs {
      assert NodeOk(g, x);
    }
    hide Tree, Top, Freed, OwnedOutside, Frees;
    FreeEndsFor(f, g, p, Freed(f, done), Top(f, done));
  }

  /** A referenced chunk stays with everything below it and loses its newest handle. */
  lemma ReferencedIsHeld(f: Forest, p: Ptr)
    requires Tree(f) && p in f && f[p].refs != []
    ensures Top(f, {p}) == {p} && Freed(f, {p}) == {Newest(f, p)}
  {
    assert NodeOk(f, p);
    assert p in Below(f, {p});
    forall x | x in Below(f, {p}) ensures Held(f, {p}, x) && (x != p ==> p in f[x].anc) {
    }
    forall r | r in Below(f, {p}) ensures r !in f[p].anc {
      if r in f[p].anc { AncestorsExist(f, p); }
    }
    assert NewestOf(f, {p}) == {Newest(f, p)};
    hide Held, Tree;
  }

  /** Freeing a handle frees nothing else. */
  lemma HandleIsFreed(f: Forest, h: Ptr)
    requires Tree(f) && h in f && f[h].kids == [] && f[h].refs == []
    ensures Below(f, {h}) == {h} && Freed(f, {h}) == {h} && Top(f, {h}) == {}
  {
    KidsBelow(f, h);
    FreedOfKids(f, h);
    assert Members(f[h].kids) == {} && Below(f, {}) == {};
    NothingFreed(f);
    hide Top, Freed, Below, Tree;
  }

  lemma FreesFromSame(f: Forest, g: Forest, k: Forest, gone: set<Ptr>, moved: set<Ptr>)
    requires Frees(g, k, gone, moved) && f.Keys == g.Keys
    requires forall x :: x in k && x in f && x in g ==>
      g[x].par == f[x].par && g[x].refs == f[x].refs && g[x].target == f[x].target
    requires forall x :: x in moved ==> NewOwner(g, x) == NewOwner(f, x)
    ensures Frees(f, k, gone, moved)
  {
    hide NewOwner, Without;
  }

  /** Cutting the chunk off first makes no difference to what freeing it does. */
  lemma DetachedFrees(f: Forest, k: Forest, p: Ptr, limbo: set<Ptr>)
    requires Tree(f) && p in f && f[p].target == NULL && OwnedOutside(f, {p}, limbo)
    requires Frees(Detached(f, p), k, Freed(f, {p}), Top(f, {p})) && p !in k
    ensures Frees(f, k, Freed(f, {p}), Top(f, {p}))
  {
    hide Top, Freed, Tree, OwnedOutside, NewOwner, Without, Frees;
    forall x | x in Top(f, {p}) ensures NewOwner(Detached(f, p), x) == NewOwner(f, x) {
      DetachedOwner(f, p, limbo, x);
    }
    FreesFromSame(f, Detached(f, p), k, Freed(f, {p}), Top(f, {p}));
  }

  /** Nor does dropping the reference first when the chunk is a handle. */
  lemma DroppedFrees(f: Forest, k: Forest, h: Ptr)
    requires Tree(f) && h in f && f[h].kids == [] && f[h].refs == []
    requires Frees(Dropped(f, h), k, {h}, {})
    ensures Frees(f, k, {h}, {})
  {
    forall x | x in k
      ensures k[x].refs == Without(f[x].refs, {h}) && k[x].par == f[x].par && k[x].target == f[x].target
    {
      WithoutTwice(f[x].refs, {h}, {h});
      assert {h} + {h} == {h};
    }
    hide Without;
  }

  lemma NotMovedUnder(f: Forest, p: Ptr, done: set<Ptr>, limbo: set<Ptr>, x: Ptr)
    requires Tree(f) && p in f && OwnedOutside(f, {p}, limbo) && done <= Members(f[p].kids)
    requires x in Top(f, done)
    ensures NewOwner(f, x) != p
  {
    OwnerOutside(f, p, done, limbo, x);
    assert NewOwner(f, x) !in {p};
  }

  /** A child that is done was freed or moved. */
  lemma DoneGone(f: Forest, p: Ptr, done: set<Ptr>, c: Ptr)
    requires Tree(f) && p in f && done <= Members(f[p].kids) && c in done
    ensures c in Freed(f, done) || c in Top(f, done)
  {
    KidsBelow(f, p);
    forall r | r in Below(f, done) ensures r !in f[c].anc {
      if r in f[p].anc { AncestorsExist(f, p); AncestorsExist(f, r); }
    }
    assert c in Below(f, done);
    hide Tree, NodeOk;
  }

  lemma KidStays(f: Forest, g: Forest, p: Ptr, done: set<Ptr>, limbo: set<Ptr>, x: Ptr)
    requires Midway(f, g, p, done, limbo) && p in g && x in g[p].kids
    ensures x in f[p].kids && x !in done
  {
    assert NodeOk(g, p) && NodeOk(f, x);
    if x in Top(f, done) {
      NotMovedUnder(f, p, done, limbo, x);
    }
    if x in done {
      DoneGone(f, p, done, x);
    }
    hide Top, Freed, Tree, OwnedOutside, NewOwner;
  }

  /** The children that are left are those not freed yet. */
  lemma KidsLeft(f: Forest, g: Forest, p: Ptr, done: set<Ptr>, limbo: set<Ptr>)
    requires Midway(f, g, p, done, limbo)
    ensures p in g && Members(g[p].kids) == Members(f[p].kids) - done
  {
    ParentStays(f, g, p, done, limbo);
    forall x | x in g[p].kids ensures x in f[p].kids && x !in done {
      KidStays(f, g, p, done, limbo, x);
    }
    forall c | c in f[p].kids && c !in done ensures c in g[p].kids {
      SiblingThere(f, g, p, done, limbo, c);
      assert NodeOk(g, c);
    }
    hide Midway;
  }

  /* ---- a referenced chunk: one handle goes, then it is moved ---- */

  /** When nothing moves, ancestors stay. */
  lemma {:induction false} SameAncestors(f: Forest, g: Forest, gone: set<Ptr>, x: Ptr)
    requires Tree(f) && Tree(g) && Frees(f, g, gone, {}) && x in g
    ensures x in f && g[x].anc == f[x].anc
    decreases g[x].anc
  {
    assert NodeOk(f, x) && NodeOk(g, x);
    var o := g[x].par;
    if o in g {
      assert NodeOk(g, o);
      SameAncestors(f, g, gone, o);
    }
  }

  /** The newest handle of a chunk, and its owner. */
  lemma NewestHandle(f: Forest, c: Ptr, limbo: set<Ptr>)
    requires Tree(f) && c in f && f[c].refs != [] && OwnedOutside(f, {c}, limbo)
    ensures var h := Newest(f, c);
            && h in f && h != c && f[h].kids == [] && f[h].refs == [] && f[h].target == c
            && NewOwner(f, c) == f[h].par && f[h].par in f && f[f[h].par].target == NULL
            && f[h].par != h && f[h].par !in Below(f, {c} + limbo)
            && c !in f[h].anc && ({h} + f[h].anc) * ({c} + limbo) <= {h} * limbo
  {
    var h := Newest(f, c);
    assert NodeOk(f, c) && h in f[c].refs && c in Below(f, {c});
    assert NodeOk(f, h) && NodeOk(f, f[h].par);
    assert f[h].anc == {f[h].par} + f[f[h].par].anc;
  }

  /** Without its newest handle a referenced chunk can be moved to the handle's owner. */
  lemma MoveReady(f: Forest, g: Forest, c: Ptr, limbo: set<Ptr>)
    requires Tree(f) && Tree(g) && c in f && f[c].refs != [] && OwnedOutside(f, {c}, limbo)
    requires Frees(f, g, {Newest(f, c)}, {})
    ensures c in g && NewOwner(f, c) in g && NewOwner(f, c) !in Below(g, {c})
    ensures NewOwner(f, c) != NULL && NewOwner(f, c) != c && g[NewOwner(f, c)].target == NULL
  {
    NewestHandle(f, c, limbo);
    var o := NewOwner(f, c);
    assert o in g;
    SameAncestors(f, g, {Newest(f, c)}, o);
  }

  lemma MovedFrees(f: Forest, g: Forest, k: Forest, c: Ptr)
    requires Tree(f) && c in f && f[c].refs != [] && Frees(f, g, {Newest(f, c)}, {})
    requires k.Keys == g.Keys
    requires forall x :: x in k ==>
      && k[x].par == (if x == c then NewOwner(f, c) else g[x].par)
      && k[x].refs == g[x].refs && k[x].target == g[x].target
    ensures Frees(f, k, Freed(f, {c}), Top(f, {c}))
  {
    ReferencedIsHeld(f, c);
    hide Freed, Top, NewOwner, Without, Tree;
  }

  /* ---- the destructor of a handle comes first ---- */

  /** f after the destructor of ptr has run. */
  ghost predicate DestructorRan(f: Forest, g: Forest, ptr: Ptr)
    requires ptr in f
  {
    if f[ptr].target == NULL then g == f else g == Dropped(f, ptr)
  }

  lemma DestructorFrame(f: Forest, g: Forest, ptr: Ptr, limbo: set<Ptr>)
    requires Tree(f) && ptr in f && f[ptr].refs == [] && DestructorRan(f, g, ptr) && OwnedOutside(f, {ptr}, limbo)
    ensures Tree(g) && g.Keys == f.Keys
    ensures g[ptr].refs == [] && g[ptr].target == NULL && g[ptr].kids == f[ptr].kids
    ensures Below(g, {ptr}) == Below(f, {ptr}) && OwnedOutside(g, {ptr}, limbo)
  {
    hide Tree, Freed, Top, Dropped, Below, NodeOk;
    if f[ptr].target != NULL {
      HandleDropped(f, ptr);
      HandleIsFreed(f, ptr);
      HandleIsFreed(g, ptr);
    }
  }

  lemma HandleDropped(f: Forest, h: Ptr)
    requires Tree(f) && h in f && f[h].target != NULL
    ensures var g := Dropped(f, h);
            && Tree(g) && f[h].kids == [] && f[h].refs == []
            && g[h].kids == [] && g[h].refs == [] && g[h].target == NULL
  {
    assert NodeOk(f, h);
    DroppedTree(f, h);
    hide Tree;
  }

  /** Destructor, cutting off, children and the chunk itself together. */
  lemma FreeComplete(f: Forest, a: Forest, b: Forest, c: Forest, ptr: Ptr, limbo: set<Ptr>)
    requires Tree(f) && ptr in f && f[ptr].refs == [] && OwnedOutside(f, {ptr}, limbo)
    requires DestructorRan(f, a, ptr) && ptr in a && b == Detached(a, ptr)
    requires Midway(b, c, ptr, Members(b[ptr].kids), limbo) && ptr in c && c[ptr].kids == []
    ensures Tree(Removed(c, ptr)) && c[ptr].par == NULL && c[ptr].refs == [] && c[ptr].target == NULL
    ensures Frees(f, Removed(c, ptr), Freed(f, {ptr}), Top(f, {ptr}))
  {
    hide Below, Tree, Freed, Top, Frees, OwnedOutside, Dropped, Midway;
    DestructorFrame(f, a, ptr, limbo);
    FreeStarts(a, ptr, limbo);
    assert b[ptr].target == a[ptr].target;
    FreeEnds(b, c, ptr, limbo);
    DetachedFrees(a, Removed(c, ptr), ptr, limbo);
    if f[ptr].target != NULL {
      HandleFrees(f, a, Removed(c, ptr), ptr);
    }
  }

  lemma HandleFrees(f: Forest, a: Forest, k: Forest, h: Ptr)
    requires Tree(f) && Tree(a) && h in f && f[h].target != NULL && a == Dropped(f, h)
    requires Frees(a, k, Freed(a, {h}), Top(a, {h}))
    ensures Frees(f, k, Freed(f, {h}), Top(f, {h}))
  {
    assert NodeOk(f, h) && NodeOk(a, h);
    assert a[h].kids == [] && a[h].refs == [];
    HandleIsFreed(f, h);
    HandleIsFreed(a, h);
    DroppedFrees(f, k, h);
    hide Tree, Freed, Top, Frees;
  }
}
