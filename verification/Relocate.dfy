/** A chunk that reallocation moved to another address: the same forest under another name. */
module Relocate {
  import opened Forest
  import opened TallocHeap

  function Ren(x: Ptr, p: Ptr, q: Ptr): Ptr {
    if x == p then q else x
  }

  function RenAll(s: seq<Ptr>, p: Ptr, q: Ptr): (r: seq<Ptr>)
    ensures |r| == |s| && forall i :: 0 <= i < |s| ==> r[i] == Ren(s[i], p, q)
  {
    seq(|s|, i requires 0 <= i < |s| => Ren(s[i], p, q))
  }

  function RenSet(s: set<Ptr>, p: Ptr, q: Ptr): set<Ptr> {
    if p in s then (s - {p}) + {q} else s
  }

  /** f with the chunk p called q. */
  function Renamed(f: Forest, p: Ptr, q: Ptr): (g: Forest)
    requires p in f && q !in f
    ensures g.Keys == (f.Keys - {p}) + {q}
  {
    map x | x in (f.Keys - {p}) + {q} ::
      var n := f[Ren(x, q, p)];
      n.(kids := RenAll(n.kids, p, q), par := Ren(n.par, p, q), anc := RenSet(n.anc, p, q))
  }

  lemma RenAllMembers(s: seq<Ptr>, p: Ptr, q: Ptr)
    requires q !in s && p != q
    ensures forall y :: y in RenAll(s, p, q) <==> y != p && Ren(y, q, p) in s
  {
    forall y | y != p && Ren(y, q, p) in s ensures y in RenAll(s, p, q) {
      var i :| 0 <= i < |s| && s[i] == Ren(y, q, p);
      assert RenAll(s, p, q)[i] == y;
    }
  }

  lemma RenAllNoDup(s: seq<Ptr>, p: Ptr, q: Ptr)
    requires NoDup(s) && q !in s
    ensures NoDup(RenAll(s, p, q))
  {
    forall i | 0 <= i < |s| ensures s[i] in s {
    }
  }

  /** Nothing in a forest mentions an address that is not a chunk. */
  lemma NotMentioned(f: Forest, q: Ptr, x: Ptr)
    requires Tree(f) && q !in f && x in f
    ensures q !in f[x].kids && q !in f[x].refs && q !in f[x].anc && (q != NULL ==> q != f[x].par)
  {
    assert NodeOk(f, x);
    AncestorsExist(f, x);
  }

  lemma RenamedKids(f: Forest, p: Ptr, q: Ptr, x: Ptr)
    requires Tree(f) && p in f && q !in f && q != NULL && x in Renamed(f, p, q)
    ensures KidsOk(Renamed(f, p, q), x)
  {
    var g, y := Renamed(f, p, q), Ren(x, q, p);
    assert NodeOk(f, y);
    NotMentioned(f, q, y);
    RenAllMembers(f[y].kids, p, q);
    RenAllNoDup(f[y].kids, p, q);
    hide NoDup, RenAll;
    if f[y].par != NULL {
      NotMentioned(f, q, f[y].par);
      RenAllMembers(f[f[y].par].kids, p, q);
    }
  }

  lemma RenamedAncestor(f: Forest, p: Ptr, q: Ptr, x: Ptr)
    requires Tree(f) && p in f && q !in f && q != NULL && x in Renamed(f, p, q)
    ensures AncestorsOk(Renamed(f, p, q), x)
  {
    var g, y := Renamed(f, p, q), Ren(x, q, p);
    assert NodeOk(f, y);
    NotMentioned(f, q, y);
    if f[y].par in f {
      NotMentioned(f, q, f[y].par);
    }
    hide KidsOk, RefsOk, RenAll;
  }

  lemma RenamedRefs(f: Forest, p: Ptr, q: Ptr, x: Ptr)
    requires Tree(f) && p in f && q !in f && q != NULL && x in Renamed(f, p, q)
    requires f[p].refs == [] && f[p].target == NULL
    ensures RefsOk(Renamed(f, p, q), x)
  {
    var g, y := Renamed(f, p, q), Ren(x, q, p);
    assert NodeOk(f, y) && NodeOk(f, p);
    NotMentioned(f, q, y);
    if f[y].target != NULL {
      assert f[y].target != p;
    }
    assert p !in f[y].refs;
    hide KidsOk, NoDup, AncestorsOk;
  }

  lemma RenamedTree(f: Forest, p: Ptr, q: Ptr)
    requires Tree(f) && p in f && q !in f && q != NULL && f[p].refs == [] && f[p].target == NULL
    ensures Tree(Renamed(f, p, q))
  {
    forall x | x in Renamed(f, p, q) ensures NodeOk(Renamed(f, p, q), x) {
      RenamedKids(f, p, q, x);
      RenamedAncestor(f, p, q, x);
      RenamedRefs(f, p, q, x);
      hide KidsOk, AncestorsOk, RefsOk, Renamed;
    }
    hide NodeOk, Renamed;
  }

  /** m2 is m with the chunk p copied to q, its neighbours redirected, and p released. */
  predicate Relocated(m: Heap, m2: Heap, p: Ptr, q: Ptr) {
    && p in m && q !in m && m2.Keys == (m.Keys - {p}) + {q}
    && m2[q] == m[p].(size := m2[q].size)
    && forall y :: y in m && y != p ==>
         m2[y] == m[y].(child := if y == m[p].parent then q else m[y].child,
                        parent := if y == m[p].child then q else m[y].parent,
                        next := if y == m[p].prev then q else m[y].next,
                        prev := if y == m[p].next then q else m[y].prev)
  }

  lemma NthRen(s: seq<Ptr>, p: Ptr, q: Ptr, i: int)
    requires p != NULL
    ensures Nth(RenAll(s, p, q), i) == Ren(Nth(s, i), p, q)
  {
  }

  /** Where p sits, seen from one list of children: as its owner, as one of them, or not at all. */
  lemma RelocatedSibling(m: Heap, m2: Heap, f: Forest, p: Ptr, q: Ptr, o: Ptr, k: nat)
    requires Tree(f) && Represents(m, f, {}) && p in f && q !in f && q != NULL
    requires Relocated(m, m2, p, q) && o in f && k < |f[o].kids|
    ensures SiblingOk(m2, Ren(o, p, q), RenAll(f[o].kids, p, q), k)
  {
    var kids := f[o].kids;
    var c := kids[k];
    assert NodeOk(f, o) && NodeOk(f, p) && ChunkOk(m, f, {}, o) && ChunkOk(m, f, {}, p);
    assert SiblingOk(m, o, kids, k) && c in kids && f[c].par == o;
    NthRen(kids, p, q, k + 1);
    NthRen(kids, p, q, k - 1);
    hide Tree, Represents, RenAll, KidsLinked, RefsLinked;
    if f[p].par == o {
      var i := IndexOf(kids, p);
      OwnPlace(m, f, p, o, i);
      RelocatedAmong(m, m2, kids, p, q, o, i, k);
    } else {
      Elsewhere(m, f, p, q, o, k);
    }
  }

  lemma OwnPlace(m: Heap, f: Forest, p: Ptr, o: Ptr, i: nat)
    requires Tree(f) && Represents(m, f, {}) && p in f && o in f && f[p].par == o
    requires i < |f[o].kids| && f[o].kids[i] == p
    ensures KidsLinked(m, o, f[o].kids) && NoDup(f[o].kids) && o !in f[o].kids && NULL !in m
    ensures m[p].child == NULL || m[p].child !in f[o].kids
  {
    assert NodeOk(f, o) && NodeOk(f, p) && ChunkOk(m, f, {}, o);
    FirstChild(m, f, {}, p);
  }

  lemma RelocatedAmong(m: Heap, m2: Heap, kids: seq<Ptr>, p: Ptr, q: Ptr, o: Ptr, i: nat, k: nat)
    requires KidsLinked(m, o, kids) && NoDup(kids) && o !in kids && NULL !in m
    requires Relocated(m, m2, p, q) && i < |kids| && kids[i] == p && k < |kids| && q != NULL
    requires m[p].child == NULL || m[p].child !in kids
    ensures SiblingOk(m2, o, RenAll(kids, p, q), k)
  {
    assert SiblingOk(m, o, kids, i) && SiblingOk(m, o, kids, k);
    NthRen(kids, p, q, k + 1);
    NthRen(kids, p, q, k - 1);
    assert kids[k] in kids;
    if i > 0 { assert SiblingOk(m, o, kids, i - 1); }
    if i + 1 < |kids| { assert SiblingOk(m, o, kids, i + 1); }
    hide KidsLinked;
  }

  /** A child of another chunk is no sibling of p. */
  lemma Elsewhere(m: Heap, f: Forest, p: Ptr, q: Ptr, o: Ptr, k: nat)
    requires Tree(f) && Represents(m, f, {}) && p in f && o in f && f[p].par != o && k < |f[o].kids|
    ensures var c := f[o].kids[k];
            && c in f && c != p && c != m[p].next && c != m[p].prev && (c == m[p].child <==> o == p && k == 0)
    ensures RenAll(f[o].kids, p, q) == f[o].kids
  {
    var c := f[o].kids[k];
    assert NodeOk(f, o) && NodeOk(f, p) && c in f[o].kids && f[c].par == o;
    assert p !in f[o].kids;
    assert ChunkOk(m, f, {}, p);
    FirstChild(m, f, {}, p);
    if f[p].par in f {
      var i := Sibling(m, f, {}, p);
      SiblingNeighbours(m, f, {}, p, i);
    }
  }

  lemma RelocatedKids(m: Heap, m2: Heap, f: Forest, p: Ptr, q: Ptr, o: Ptr)
    requires Tree(f) && Represents(m, f, {}) && p in f && q !in f && q != NULL
    requires Relocated(m, m2, p, q) && o in f
    ensures KidsLinked(m2, Ren(o, p, q), RenAll(f[o].kids, p, q))
  {
    forall k | 0 <= k < |f[o].kids| ensures SiblingOk(m2, Ren(o, p, q), RenAll(f[o].kids, p, q), k) {
      RelocatedSibling(m, m2, f, p, q, o, k);
    }
    NthRen(f[o].kids, p, q, 0);
    assert ChunkOk(m, f, {}, o) && NodeOk(f, o);
    ParentField(m, f, p);
    hide Tree, Represents, RenAll, SiblingOk, RefsLinked;
  }

  /** The parent pointer of p leads to the chunk whose first child p is. */
  lemma ParentField(m: Heap, f: Forest, p: Ptr)
    requires Tree(f) && Represents(m, f, {}) && p in f
    ensures forall o :: o in f ==> (o == m[p].parent <==> m[o].child == p)
    ensures p != m[p].parent && p != m[p].child && NULL !in f && NULL !in m
  {
    assert NodeOk(f, p) && ChunkOk(m, f, {}, p);
    forall o | o in f ensures o == m[p].parent <==> m[o].child == p {
      FirstChild(m, f, {}, o);
      if f[p].par in f {
        var i := Sibling(m, f, {}, p);
        FirstChild(m, f, {}, f[p].par);
      }
    }
    FirstChild(m, f, {}, p);
  }

  lemma RelocatedRefs(m: Heap, m2: Heap, f: Forest, p: Ptr, q: Ptr, o: Ptr)
    requires Tree(f) && Represents(m, f, {}) && p in f && q !in f && q != NULL
    requires Relocated(m, m2, p, q) && o in f && f[p].refs == [] && f[p].target == NULL
    ensures RefsLinked(m2, Ren(o, p, q), f[o].refs)
  {
    assert ChunkOk(m, f, {}, o) && NodeOk(f, o);
    forall k | 0 <= k < |f[o].refs| ensures HandleOk(m2, f[o].refs, k) {
      assert HandleOk(m, f[o].refs, k) && f[o].refs[k] in f[o].refs;
      assert f[o].refs[k] != p;
    }
    hide Tree, Represents, KidsLinked;
  }

  lemma RelocatedRoot(m: Heap, m2: Heap, f: Forest, p: Ptr, q: Ptr, o: Ptr)
    requires Tree(f) && Represents(m, f, {}) && p in f && q !in f && q != NULL
    requires Relocated(m, m2, p, q) && o in f && f[p].refs == [] && f[p].target == NULL
    ensures RootOk(m2, Renamed(f, p, q), {}, Ren(o, p, q)) && TargetOk(m2, Renamed(f, p, q), Ren(o, p, q))
  {
    RenamedFields(f, p, q, o);
    hide Renamed;
    RootPlace(m, f, p, o);
    assert NodeOk(f, o);
    hide Tree, Represents, KidsOk, RefsOk, NodeOk, AncestorsOk;
  }

  lemma RenamedFields(f: Forest, p: Ptr, q: Ptr, o: Ptr)
    requires p in f && q !in f && o in f
    ensures var g, x := Renamed(f, p, q), Ren(o, p, q);
            x in g && g[x].par == Ren(f[o].par, p, q) && g[x].target == f[o].target
  {
  }

  /** A root is not next to p, and as a first child it has a parent. */
  lemma RootPlace(m: Heap, f: Forest, p: Ptr, o: Ptr)
    requires Tree(f) && Represents(m, f, {}) && p in f && o in f
    ensures m[o].loop == false && p != NULL && TargetOk(m, f, o) && RootOk(m, f, {}, o)
    ensures f[o].par == NULL ==> o != m[p].next && o != m[p].prev && o != m[p].child
  {
    assert ChunkOk(m, f, {}, o) && ChunkOk(m, f, {}, p) && NodeOk(f, o) && NodeOk(f, p);
    FirstChild(m, f, {}, p);
    if f[p].par in f {
      var i := Sibling(m, f, {}, p);
      SiblingNeighbours(m, f, {}, p, i);
    }
    hide Tree, Represents, KidsLinked, RefsLinked, NodeOk;
  }

  lemma RelocatedRepresents(m: Heap, m2: Heap, f: Forest, p: Ptr, q: Ptr)
    requires Tree(f) && Represents(m, f, {}) && p in f && q !in f && q != NULL
    requires Relocated(m, m2, p, q) && f[p].refs == [] && f[p].target == NULL
    ensures Represents(m2, Renamed(f, p, q), {})
  {
    var g := Renamed(f, p, q);
    forall x | x in g ensures ChunkOk(m2, g, {}, x) {
      var o := Ren(x, q, p);
      RelocatedKids(m, m2, f, p, q, o);
      RelocatedRefs(m, m2, f, p, q, o);
      RelocatedRoot(m, m2, f, p, q, o);
      hide Tree, Represents, KidsLinked, RefsLinked, RootOk, TargetOk, RenAll;
    }
    hide Tree, ChunkOk, Renamed;
  }
}
