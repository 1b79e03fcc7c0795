/** What freeing a tree does to the forest, said without following the recursion. */
module FreeSpec {
  import opened Forest

  /** x is at or below a referenced chunk that is itself at or below one of the roots. */
  ghost predicate Held(f: Forest, roots: set<Ptr>, x: Ptr)
    requires x in f
  {
    exists q :: q in Below(f, roots) && (q == x || q in f[x].anc) && f[q].refs != []
  }

  /** The topmost referenced chunks at or below the roots. */
  function Top(f: Forest, roots: set<Ptr>): set<Ptr> {
    set q | q in Below(f, roots) && f[q].refs != []
            && forall r :: r in Below(f, roots) && r in f[q].anc ==> f[r].refs == []
  }

  function Newest(f: Forest, q: Ptr): Ptr
    requires q in f && f[q].refs != []
  {
    f[q].refs[0]
  }

  /** The newest handles of some referenced chunks. */
  function NewestOf(f: Forest, qs: set<Ptr>): set<Ptr> {
    set q | q in qs && q in f && f[q].refs != [] :: Newest(f, q)
  }

  /** Everything not at or below a referenced chunk, and the newest handle of each topmost
      referenced chunk. */
  ghost function Freed(f: Forest, roots: set<Ptr>): set<Ptr> {
    (set x | x in Below(f, roots) && !Held(f, roots, x)) + NewestOf(f, Top(f, roots))
  }

  /** The owner of the newest handle. */
  function NewOwner(f: Forest, q: Ptr): Ptr {
    if q in f && f[q].refs != [] && Newest(f, q) in f then f[Newest(f, q)].par else NULL
  }

  /** From f to g the chunks `gone` disappear, each chunk in `moved` becomes a child of the owner
      of its newest handle, and nothing else changes. */
  ghost predicate Frees(f: Forest, g: Forest, gone: set<Ptr>, moved: set<Ptr>) {
    && g.Keys == f.Keys - gone
    && (forall x :: x in g ==>
          && g[x].par == (if x in moved then NewOwner(f, x) else f[x].par)
          && g[x].refs == Without(f[x].refs, gone)
          && g[x].target == f[x].target)
  }

  /** Every reference to a chunk at or below the roots is owned by a chunk that is neither there
      nor at or below a chunk now being freed. */
  ghost predicate OwnedOutside(f: Forest, roots: set<Ptr>, limbo: set<Ptr>) {
    forall x, h :: x in Below(f, roots) && h in f[x].refs ==>
      h in f && f[h].par in f && f[h].par !in Below(f, roots + limbo)
  }

  function Members(s: seq<Ptr>): set<Ptr> {
    set x | x in s
  }

  /* ---- the order of ancestors ---- */

  /** Two chunks at or above the same one are related. */
  lemma {:induction false} Comparable(f: Forest, x: Ptr, a: Ptr, b: Ptr)
    requires Tree(f) && x in f && a in {x} + f[x].anc && b in {x} + f[x].anc
    ensures a in f && b in f && (a == b || a in f[b].anc || b in f[a].anc)
    decreases f[x].anc
  {
    assert NodeOk(f, x);
    AncestorsExist(f, x);
    if a != x && b != x {
      Comparable(f, f[x].par, a, b);
    }
  }

  /** A chunk below p is at or below one of the children of p. */
  lemma {:induction false} BelowKid(f: Forest, p: Ptr, x: Ptr)
    requires Tree(f) && p in f && x in f && p in f[x].anc
    ensures x in Below(f, Members(f[p].kids))
    decreases f[x].anc
  {
    assert NodeOk(f, x);
    var y := f[x].par;
    if y != p {
      assert NodeOk(f, y);
      BelowKid(f, p, y);
    }
  }

  lemma KidsBelow(f: Forest, p: Ptr)
    requires Tree(f) && p in f
    ensures Below(f, {p}) == {p} + Below(f, Members(f[p].kids))
    ensures p !in Below(f, Members(f[p].kids))
    ensures forall c :: c in f[p].kids ==> c in f && f[c].anc == {p} + f[p].anc
  {
    var kids := Members(f[p].kids);
    assert NodeOk(f, p);
    forall c | c in f[p].kids ensures c in f && f[c].anc == {p} + f[p].anc && c !in f[p].anc && c != p {
      assert NodeOk(f, c);
      if c in f[p].anc {
        AncestorsExist(f, p);
      }
    }
    forall x | x in Below(f, {p}) && x != p ensures x in Below(f, kids) {
      BelowKid(f, p, x);
    }
    forall x | x in Below(f, kids) ensures x in Below(f, {p}) {
      AncestorsExist(f, x);
    }
  }

  /* ---- freeing a chunk is freeing its children and itself ---- */

  lemma TopOfKids(f: Forest, p: Ptr)
    requires Tree(f) && p in f && f[p].refs == []
    ensures Top(f, {p}) == Top(f, Members(f[p].kids))
  {
    KidsBelow(f, p);
    hide Below, Tree;
  }

  lemma HeldByKids(f: Forest, p: Ptr, x: Ptr)
    requires Tree(f) && p in f && f[p].refs == [] && x in f
    ensures Held(f, {p}, x) <==> Held(f, Members(f[p].kids), x)
  {
    KidsBelow(f, p);
    hide Below, Tree;
  }

  lemma FreedOfKids(f: Forest, p: Ptr)
    requires Tree(f) && p in f && f[p].refs == []
    ensures Freed(f, {p}) == {p} + Freed(f, Members(f[p].kids))
    ensures Top(f, {p}) == Top(f, Members(f[p].kids))
  {
    TopOfKids(f, p);
    KidsBelow(f, p);
    forall x | x in f ensures Held(f, {p}, x) <==> Held(f, Members(f[p].kids), x) {
      HeldByKids(f, p, x);
    }
    assert !Held(f, {p}, p) by {
      assert NodeOk(f, p);
      forall q | q in Below(f, {p}) && q in f[p].anc ensures false {
        AncestorsExist(f, p);
      }
    }
    hide Below, Tree, Held, Top, NewestOf;
  }

  /* ---- and children are freed independently ---- */

  /** Of two chunks with the same ancestors neither is an ancestor of the other. */
  lemma SameAncestorsApart(f: Forest, c: Ptr, d: Ptr)
    requires Tree(f) && c in f && d in f && f[c].anc == f[d].anc
    ensures c !in f[d].anc && d !in f[c].anc
  {
    AncestorsExist(f, c);
    AncestorsExist(f, d);
    assert NodeOk(f, c) && NodeOk(f, d);
  }

  lemma SiblingsApart(f: Forest, p: Ptr, done: set<Ptr>, c: Ptr)
    requires Tree(f) && p in f && done <= Members(f[p].kids) && c in f[p].kids && c !in done
    ensures Below(f, done) !! Below(f, {c})
    ensures Below(f, done + {c}) == Below(f, done) + Below(f, {c})
    ensures Below(f, done) <= Below(f, {p}) && Below(f, {c}) <= Below(f, {p})
  {
    KidsBelow(f, p);
    forall x | x in Below(f, done) && x in Below(f, {c}) ensures false {
      var d :| d in done && d in {x} + f[x].anc;
      assert d in f[p].kids && f[c].anc == {p} + f[p].anc && f[d].anc == {p} + f[p].anc;
      Comparable(f, x, c, d);
      SameAncestorsApart(f, c, d);
    }
  }

  /** No chunk below one sibling is above a chunk below another. */
  lemma NoCrossing(f: Forest, p: Ptr, done: set<Ptr>, c: Ptr, q: Ptr, r: Ptr)
    requires Tree(f) && p in f && done <= Members(f[p].kids) && c in f[p].kids && c !in done
    requires q in f && r in f[q].anc && r in f
    ensures q in Below(f, {c}) ==> r !in Below(f, done)
    ensures q in Below(f, done) ==> r !in Below(f, {c})
  {
    SiblingsApart(f, p, done, c);
    AncestorsExist(f, q);
    hide Tree, Members;
  }

  lemma TopSplits(f: Forest, p: Ptr, done: set<Ptr>, c: Ptr)
    requires Tree(f) && p in f && done <= Members(f[p].kids) && c in f[p].kids && c !in done
    ensures Top(f, done + {c}) == Top(f, done) + Top(f, {c}) && Top(f, done) !! Top(f, {c})
  {
    SiblingsApart(f, p, done, c);
    forall q, r | q in f && r in f[q].anc && r in f
      ensures q in Below(f, {c}) ==> r !in Below(f, done)
      ensures q in Below(f, done) ==> r !in Below(f, {c})
    {
      NoCrossing(f, p, done, c, q, r);
    }
    hide Below, Tree, Members;
  }

  lemma HeldSplits(f: Forest, p: Ptr, done: set<Ptr>, c: Ptr, x: Ptr)
    requires Tree(f) && p in f && done <= Members(f[p].kids) && c in f[p].kids && c !in done && x in f
    ensures x in Below(f, done) ==> (Held(f, done + {c}, x) <==> Held(f, done, x))
    ensures x in Below(f, {c}) ==> (Held(f, done + {c}, x) <==> Held(f, {c}, x))
  {
    SiblingsApart(f, p, done, c);
    AncestorsExist(f, x);
    forall r | r in f[x].anc
      ensures x in Below(f, {c}) ==> r !in Below(f, done)
      ensures x in Below(f, done) ==> r !in Below(f, {c})
    {
      NoCrossing(f, p, done, c, x, r);
    }
    hide Below, Tree, Members;
  }

  lemma FreedSplits(f: Forest, p: Ptr, done: set<Ptr>, c: Ptr)
    requires Tree(f) && p in f && done <= Members(f[p].kids) && c in f[p].kids && c !in done
    ensures Freed(f, done + {c}) == Freed(f, done) + Freed(f, {c})
    ensures Top(f, done + {c}) == Top(f, done) + Top(f, {c}) && Top(f, done) !! Top(f, {c})
  {
    TopSplits(f, p, done, c);
    SiblingsApart(f, p, done, c);
    forall x | x in f
      ensures x in Below(f, done) ==> (Held(f, done + {c}, x) <==> Held(f, done, x))
      ensures x in Below(f, {c}) ==> (Held(f, done + {c}, x) <==> Held(f, {c}, x))
    {
      HeldSplits(f, p, done, c, x);
    }
    hide Below, Tree, Members, Held, Top;
    assert NewestOf(f, Top(f, done) + Top(f, {c})) == NewestOf(f, Top(f, done)) + NewestOf(f, Top(f, {c}));
    hide NewestOf;
  }
}
