/** Who owns a chunk: its parent and the owners of its handles, counted with multiplicity. */
module Ownership {
  import opened Forest
  import opened FreeSpec
  import opened FreeFrame

  function OwnerOf(f: Forest, h: Ptr): Ptr {
    if h in f then f[h].par else NULL
  }

  function HandleOwners(f: Forest, hs: seq<Ptr>): multiset<Ptr> {
    if hs == [] then multiset{} else multiset{OwnerOf(f, hs[0])} + HandleOwners(f, hs[1..])
  }

  function Owners(f: Forest, x: Ptr): multiset<Ptr>
    requires x in f
  {
    multiset{f[x].par} + HandleOwners(f, f[x].refs)
  }

  /** The newest of some handles that the context owns. */
  function HandleOf(f: Forest, context: Ptr, hs: seq<Ptr>): Ptr {
    if hs == [] then NULL
    else if OwnerOf(f, hs[0]) == context then hs[0]
    else HandleOf(f, context, hs[1..])
  }

  /** From f to g one handle of x disappears, x may get another parent, and nothing else changes. */
  ghost predicate LosesHandle(f: Forest, g: Forest, x: Ptr, h: Ptr) {
    && x in f && x in g && h in f[x].refs && g.Keys == f.Keys - {h}
    && (forall y :: y in g ==>
          (y != x ==> g[y].par == f[y].par) && g[y].refs == Without(f[y].refs, {h}) && g[y].target == f[y].target)
  }

  /** talloc_unlink succeeded: the context is one time less among the owners of x, and x was
      freed, as talloc_free does it, just when no owner is left. */
  ghost predicate Unlinked(f: Forest, g: Forest, x: Ptr, context: Ptr)
    requires x in f
  {
    if Owners(f, x) == multiset{context} then
      x !in g && Frees(f, g, Freed(f, {x}), Top(f, {x}))
    else
      && x in g && Owners(g, x) == Owners(f, x) - multiset{context}
      && exists h :: LosesHandle(f, g, x, h)
  }

  lemma {:induction false} HandleOfOwner(f: Forest, context: Ptr, hs: seq<Ptr>)
    requires NULL !in hs
    ensures HandleOf(f, context, hs) != NULL <==> context in HandleOwners(f, hs)
    ensures var h := HandleOf(f, context, hs); h != NULL ==> h in hs && OwnerOf(f, h) == context
  {
    if hs != [] {
      assert hs[0] in hs && forall x :: x in hs[1..] ==> x in hs;
      HandleOfOwner(f, context, hs[1..]);
    }
  }

  lemma {:induction false} OwnersWithout(f: Forest, hs: seq<Ptr>, h: Ptr)
    requires NoDup(hs) && h in hs
    ensures HandleOwners(f, Without(hs, {h})) == HandleOwners(f, hs) - multiset{OwnerOf(f, h)}
  {
    hide Without;
    WithoutHead(hs, {h});
    var rest := Without(hs[1..], {h});
    var o := OwnerOf(f, hs[0]);
    HandleOwnersHead(f, hs);
    hide HandleOwners;
    if hs[0] == h {
      WithoutNone(hs[1..], {h});
      assert Without(hs, {h}) == hs[1..];
    } else {
      OwnersWithout(f, hs[1..], h);
      OwnerAmong(f, hs[1..], h);
      assert ([hs[0]] + rest)[1..] == rest;
      HandleOwnersHead(f, [hs[0]] + rest);
      SumMinus(multiset{o}, HandleOwners(f, hs[1..]), OwnerOf(f, h));
    }
  }

  lemma SumMinus(a: multiset<Ptr>, b: multiset<Ptr>, x: Ptr)
    requires x in b
    ensures a + (b - multiset{x}) == (a + b) - multiset{x}
  {
  }

  lemma HandleOwnersHead(f: Forest, hs: seq<Ptr>)
    requires hs != []
    ensures HandleOwners(f, hs) == multiset{OwnerOf(f, hs[0])} + HandleOwners(f, hs[1..])
  {
  }

  lemma {:induction false} OwnerAmong(f: Forest, hs: seq<Ptr>, h: Ptr)
    requires h in hs
    ensures OwnerOf(f, h) in HandleOwners(f, hs)
  {
    if hs[0] != h {
      OwnerAmong(f, hs[1..], h);
    }
  }

  lemma {:induction false} OwnersSame(f: Forest, g: Forest, hs: seq<Ptr>)
    requires forall h :: h in hs ==> OwnerOf(g, h) == OwnerOf(f, h)
    ensures HandleOwners(g, hs) == HandleOwners(f, hs)
  {
    if hs != [] {
      assert hs[0] in hs && forall x :: x in hs[1..] ==> x in hs;
      OwnersSame(f, g, hs[1..]);
    }
  }

  /** Losing a handle takes its owner away once. */
  lemma LosesOwner(f: Forest, g: Forest, x: Ptr, h: Ptr)
    requires Tree(f) && LosesHandle(f, g, x, h)
    ensures HandleOwners(g, g[x].refs) == HandleOwners(f, f[x].refs) - multiset{OwnerOf(f, h)}
    ensures OwnerOf(f, h) in HandleOwners(f, f[x].refs)
  {
    assert NodeOk(f, x);
    OwnersWithout(f, f[x].refs, h);
    OwnerAmong(f, f[x].refs, h);
    forall k | k in g[x].refs ensures OwnerOf(g, k) == OwnerOf(f, k) {
      assert k in f && k in g && f[k].target == x;
    }
    OwnersSame(f, g, g[x].refs);
  }

  lemma NoOwnersLeft(f: Forest, x: Ptr, context: Ptr)
    requires x in f
    ensures Owners(f, x) == multiset{context} <==> f[x].refs == [] && f[x].par == context
  {
    if f[x].refs != [] {
      assert |HandleOwners(f, f[x].refs)| >= 1;
      assert |Owners(f, x)| >= 2;
    } else {
      assert Owners(f, x) == multiset{f[x].par};
      if f[x].par != context {
        assert multiset{f[x].par}[context] == 0;
      }
    }
  }

  /** The context owns x through a handle: that handle goes. */
  lemma UnlinkedByHandle(f: Forest, g: Forest, x: Ptr, context: Ptr, h: Ptr)
    requires Tree(f) && x in f && h in f[x].refs && OwnerOf(f, h) == context
    requires Frees(f, g, {h}, {})
    ensures context in Owners(f, x) && Unlinked(f, g, x, context)
  {
    hide Frees, Tree, LosesHandle, HandleOwners;
    HandleElsewhere(f, x, h);
    LosesByFrees(f, g, x, h);
    LosesKeeps(f, g, x, h);
    LosesOwner(f, g, x, h);
    NoOwnersLeft(f, x, context);
    LosesParent(f, g, x, h);
    assert Owners(g, x) == Owners(f, x) - multiset{context};
  }

  lemma HandleElsewhere(f: Forest, x: Ptr, h: Ptr)
    requires Tree(f) && x in f && h in f[x].refs
    ensures h in f && h != x && f[x].refs != []
  {
    assert NodeOk(f, x) && NodeOk(f, h);
    hide Tree;
  }

  lemma LosesByFrees(f: Forest, g: Forest, x: Ptr, h: Ptr)
    requires x in f && h in f[x].refs && h in f && h != x && Frees(f, g, {h}, {})
    ensures LosesHandle(f, g, x, h)
  {
    hide Without;
  }

  lemma LosesParent(f: Forest, g: Forest, x: Ptr, h: Ptr)
    requires x in f && x in g && Frees(f, g, {h}, {})
    ensures g[x].par == f[x].par
  {
  }

  /** The context is the parent: the owner of the newest handle takes its place. */
  lemma UnlinkedByParent(f: Forest, g: Forest, k: Forest, x: Ptr)
    requires Tree(f) && x in f && f[x].refs != [] && Frees(f, g, {Newest(f, x)}, {})
    requires k.Keys == g.Keys
    requires forall y :: y in k ==>
      && k[y].par == (if y == x then OwnerOf(f, Newest(f, x)) else g[y].par)
      && k[y].refs == g[y].refs && k[y].target == g[y].target
    ensures Unlinked(f, k, x, f[x].par)
  {
    hide Frees, Tree, LosesHandle, HandleOwners, Without;
    var h, context := Newest(f, x), f[x].par;
    HandleElsewhere(f, x, h);
    LosesByFrees(f, g, x, h);
    LosesSame(f, g, k, x, h);
    LosesOwner(f, k, x, h);
    NoOwnersLeft(f, x, context);
    LosesKeeps(f, k, x, h);
    assert Owners(k, x) == Owners(f, x) - multiset{context};
  }

  lemma LosesSame(f: Forest, g: Forest, k: Forest, x: Ptr, h: Ptr)
    requires LosesHandle(f, g, x, h) && k.Keys == g.Keys
    requires forall y :: y in k ==>
      (y != x ==> k[y].par == g[y].par) && k[y].refs == g[y].refs && k[y].target == g[y].target
    ensures LosesHandle(f, k, x, h)
  {
    hide Without;
  }

  lemma LosesKeeps(f: Forest, g: Forest, x: Ptr, h: Ptr)
    requires LosesHandle(f, g, x, h)
    ensures x in g
  {
  }

  /** Once the newest handle is gone x can be moved to its owner. */
  lemma MoveReadyAny(f: Forest, g: Forest, x: Ptr)
    requires Tree(f) && Tree(g) && x in f && f[x].refs != [] && Frees(f, g, {Newest(f, x)}, {})
    requires OwnerOf(f, Newest(f, x)) !in Below(f, {x})
    ensures x in g
    ensures var o := OwnerOf(f, Newest(f, x));
            o == NULL || (o in g && o != x && o !in Below(g, {x}) && g[o].target == NULL)
  {
    var h := Newest(f, x);
    assert NodeOk(f, x) && h in f[x].refs && NodeOk(f, h);
    var o := f[h].par;
    if o != NULL {
      assert NodeOk(f, o) && o != h;
      SameAncestors(f, g, {h}, o);
    }
    hide Without;
  }

  lemma NewestIsFirst(f: Forest, x: Ptr)
    requires x in f && f[x].refs != []
    ensures HandleOf(f, OwnerOf(f, Newest(f, x)), f[x].refs) == Newest(f, x)
  {
  }
}
