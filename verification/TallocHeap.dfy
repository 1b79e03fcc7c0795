/** Chunks in memory, and when they represent a forest. */
module TallocHeap {
  import opened Forest

  /** What freeing a chunk runs first. */
  datatype Destructor =
    | NoDestructor
    | HandleDestructor          // takes a handle off the list of its target
    | UserDestructor(rc: int)   // returns rc and leaves talloc's own data alone
    | Running                   // set while the destructor runs

  /** `next` and `prev` link siblings, and only the first sibling knows its parent.  A handle also
      holds the links of its target's list of references. */
  datatype Chunk = Chunk(
    next: Ptr, prev: Ptr, parent: Ptr, child: Ptr,
    refs: Ptr, refNext: Ptr, refPrev: Ptr, target: Ptr,
    destructor: Destructor, size: nat, loop: bool)

  type Heap = map<Ptr, Chunk>

  predicate SiblingOk(m: Heap, p: Ptr, kids: seq<Ptr>, i: nat)
    requires i < |kids|
  {
    && kids[i] in m
    && m[kids[i]].next == Nth(kids, i + 1) && m[kids[i]].prev == Nth(kids, i - 1)
    && m[kids[i]].parent == if i == 0 then p else NULL
  }

  predicate KidsLinked(m: Heap, p: Ptr, kids: seq<Ptr>) {
    p in m && m[p].child == Nth(kids, 0) && forall i :: 0 <= i < |kids| ==> SiblingOk(m, p, kids, i)
  }

  predicate HandleOk(m: Heap, hs: seq<Ptr>, i: nat)
    requires i < |hs|
  {
    hs[i] in m && m[hs[i]].refNext == Nth(hs, i + 1) && m[hs[i]].refPrev == Nth(hs, i - 1)
  }

  predicate RefsLinked(m: Heap, x: Ptr, hs: seq<Ptr>) {
    x in m && m[x].refs == Nth(hs, 0) && forall i :: 0 <= i < |hs| ==> HandleOk(m, hs, i)
  }

  /** A root has no siblings; one being freed keeps stale links and is flagged. */
  predicate RootOk(m: Heap, f: Forest, limbo: set<Ptr>, x: Ptr)
    requires x in m && x in f
  {
    && (m[x].loop <==> x in limbo)
    && (x in limbo ==> f[x].par == NULL)
    && (f[x].par == NULL && x !in limbo ==> m[x].parent == NULL && m[x].prev == NULL && m[x].next == NULL)
  }

  predicate TargetOk(m: Heap, f: Forest, x: Ptr)
    requires x in m && x in f
  {
    && (m[x].destructor == HandleDestructor <==> f[x].target != NULL)
    && (f[x].target != NULL ==> m[x].target == f[x].target)
  }

  predicate ChunkOk(m: Heap, f: Forest, limbo: set<Ptr>, x: Ptr)
    requires x in m && x in f
  {
    && KidsLinked(m, x, f[x].kids) && RefsLinked(m, x, f[x].refs)
    && RootOk(m, f, limbo, x) && TargetOk(m, f, x)
  }

  ghost predicate Represents(m: Heap, f: Forest, limbo: set<Ptr>) {
    m.Keys == f.Keys && forall x {:trigger ChunkOk(m, f, limbo, x)} :: x in f ==> ChunkOk(m, f, limbo, x)
  }

  /* ---- where a chunk sits among its siblings ---- */

  lemma Sibling(m: Heap, f: Forest, limbo: set<Ptr>, c: Ptr) returns (i: nat)
    requires Tree(f) && Represents(m, f, limbo) && c in f && f[c].par in f
    ensures i < |f[f[c].par].kids| && f[f[c].par].kids[i] == c
    ensures KidsLinked(m, f[c].par, f[f[c].par].kids) && SiblingOk(m, f[c].par, f[f[c].par].kids, i)
    ensures c !in limbo
  {
    assert NodeOk(f, c) && ChunkOk(m, f, limbo, c) && ChunkOk(m, f, limbo, f[c].par);
    i := IndexOf(f[f[c].par].kids, c);
  }

  /* ---- taking a chunk out of its list of siblings ---- */

  /** Everything but the sibling links and parents is the same. */
  predicate SameButLinks(a: Chunk, b: Chunk) {
    b == a.(next := b.next, prev := b.prev, parent := b.parent, child := b.child)
  }

  /** m2 is m with c bypassed by its neighbours; c's own links and its flag do not matter. */
  predicate Bypassed(m: Heap, m2: Heap, c: Ptr) {
    && c in m && m2.Keys == m.Keys
    && m2[c] == m[c].(next := m2[c].next, prev := m2[c].prev, parent := m2[c].parent, loop := m2[c].loop)
    && forall y :: y in m && y != c ==>
         && SameButLinks(m[y], m2[y])
         && m2[y].next == (if y == m[c].prev then m[c].next else m[y].next)
         && m2[y].prev == (if y == m[c].next then m[c].prev else m[y].prev)
         && m2[y].parent == (if y == m[c].next && m[c].parent != NULL then m[c].parent else m[y].parent)
         && m2[y].child == (if y == m[c].parent then m[c].next else m[y].child)
  }

  lemma BypassSibling(m: Heap, m2: Heap, p: Ptr, kids: seq<Ptr>, i: nat, k: nat)
    requires KidsLinked(m, p, kids) && NoDup(kids) && p !in kids && NULL !in m && i < |kids|
    requires Bypassed(m, m2, kids[i]) && k < |kids| - 1
    ensures SiblingOk(m2, p, Drop(kids, i), k)
  {
    var j := if k < i then k else k + 1;
    assert SiblingOk(m, p, kids, i) && SiblingOk(m, p, kids, j);
    if j > 0 { assert SiblingOk(m, p, kids, j - 1); }
    if j + 1 < |kids| { assert SiblingOk(m, p, kids, j + 1); }
    hide KidsLinked;
  }

  /** The list that lost the chunk is linked correctly. */
  lemma BypassKids(m: Heap, m2: Heap, p: Ptr, kids: seq<Ptr>, i: nat)
    requires KidsLinked(m, p, kids) && NoDup(kids) && p !in kids && NULL !in m && i < |kids|
    requires Bypassed(m, m2, kids[i])
    ensures KidsLinked(m2, p, Without(kids, {kids[i]}))
  {
    WithoutOne(kids, i);
    assert Without(kids, {kids[i]}) == Drop(kids, i);
    forall k | 0 <= k < |kids| - 1 ensures SiblingOk(m2, p, Drop(kids, i), k) {
      BypassSibling(m, m2, p, kids, i, k);
    }
    assert SiblingOk(m, p, kids, i);
    if i > 0 { assert SiblingOk(m, p, kids, 0); }
    hide Without;
  }

  lemma BypassOtherSibling(m: Heap, m2: Heap, f: Forest, limbo: set<Ptr>, c: Ptr, q: Ptr, k: nat)
    requires Tree(f) && Represents(m, f, limbo) && c in f && c !in limbo && Bypassed(m, m2, c)
    requires q in f && q != f[c].par && k < |f[q].kids|
    ensures SiblingOk(m2, q, f[q].kids, k)
  {
    var y := f[q].kids[k];
    assert NodeOk(f, q) && NodeOk(f, c) && ChunkOk(m, f, limbo, q) && ChunkOk(m, f, limbo, c);
    assert SiblingOk(m, q, f[q].kids, k) && f[y].par == q;
    if f[c].par in f {
      var i := Sibling(m, f, limbo, c);
      SiblingNeighbours(m, f, limbo, c, i);
    }
    hide NodeOk, ChunkOk, KidsLinked, RefsLinked, NoDup, Tree;
  }

  /** The neighbours of a chunk have the same parent. */
  lemma SiblingNeighbours(m: Heap, f: Forest, limbo: set<Ptr>, c: Ptr, i: nat)
    requires Tree(f) && Represents(m, f, limbo) && c in f && f[c].par in f
    requires i < |f[f[c].par].kids| && f[f[c].par].kids[i] == c && SiblingOk(m, f[c].par, f[f[c].par].kids, i)
    ensures m[c].next == NULL || (m[c].next in f && f[m[c].next].par == f[c].par)
    ensures m[c].prev == NULL || (m[c].prev in f && f[m[c].prev].par == f[c].par)
    ensures m[c].parent == NULL || m[c].parent == f[c].par
  {
    var kids := f[f[c].par].kids;
    assert NodeOk(f, f[c].par);
    if i > 0 { assert kids[i - 1] in kids; }
    if i + 1 < |kids| { assert kids[i + 1] in kids; }
  }

  lemma BypassOthers(m: Heap, m2: Heap, f: Forest, limbo: set<Ptr>, c: Ptr, q: Ptr)
    requires Tree(f) && Represents(m, f, limbo) && c in f && c !in limbo && Bypassed(m, m2, c)
    requires q in f && q != f[c].par
    ensures KidsLinked(m2, q, f[q].kids)
  {
    forall k | 0 <= k < |f[q].kids| ensures SiblingOk(m2, q, f[q].kids, k) {
      BypassOtherSibling(m, m2, f, limbo, c, q, k);
    }
    assert NodeOk(f, c) && ChunkOk(m, f, limbo, q) && ChunkOk(m, f, limbo, c);
    if f[c].par in f {
      var i := Sibling(m, f, limbo, c);
    }
    hide NodeOk, RefsLinked, NoDup, Tree, SiblingOk;
  }

  lemma BypassRefs(m: Heap, m2: Heap, c: Ptr, x: Ptr, hs: seq<Ptr>)
    requires Bypassed(m, m2, c) && RefsLinked(m, x, hs)
    ensures RefsLinked(m2, x, hs)
  {
    forall i | 0 <= i < |hs| ensures HandleOk(m2, hs, i) {
      assert HandleOk(m, hs, i);
    }
  }

  /** A chunk with no children left out is linked as before when it is not in the list. */
  lemma WithoutOther(f: Forest, c: Ptr, q: Ptr)
    requires Tree(f) && c in f && q in f && q != f[c].par
    ensures Detached(f, c)[q].kids == f[q].kids
  {
    assert NodeOk(f, q) && NodeOk(f, c);
    WithoutNone(f[q].kids, {c});
    hide Below;
  }

  lemma BypassChunkKids(m: Heap, m2: Heap, f: Forest, limbo: set<Ptr>, c: Ptr, x: Ptr)
    requires Tree(f) && Represents(m, f, limbo) && c in f && c !in limbo && Bypassed(m, m2, c)
    requires x in f
    ensures KidsLinked(m2, x, Detached(f, c)[x].kids)
  {
    if x == f[c].par {
      var i := Sibling(m, f, limbo, c);
      assert NodeOk(f, x);
      BypassKids(m, m2, x, f[x].kids, i);
      assert Detached(f, c)[x].kids == Without(f[x].kids, {c});
    } else {
      BypassOthers(m, m2, f, limbo, c, x);
      WithoutOther(f, c, x);
    }
    hide KidsLinked, Below, Without;
  }

  lemma BypassChunkRoot(m: Heap, m2: Heap, f: Forest, limbo: set<Ptr>, limbo2: set<Ptr>, c: Ptr, x: Ptr)
    requires Tree(f) && Represents(m, f, limbo) && c in f && c !in limbo && Bypassed(m, m2, c)
    requires limbo2 - {c} == limbo && RootOk(m2, Detached(f, c), limbo2, c)
    requires x in f
    ensures RootOk(m2, Detached(f, c), limbo2, x) && TargetOk(m2, Detached(f, c), x)
  {
    hide KidsLinked, RefsLinked, Below, Without, KidsOk, AncestorsOk, RefsOk;
    assert ChunkOk(m, f, limbo, x) && ChunkOk(m, f, limbo, c) && NodeOk(f, x) && NodeOk(f, c);
    if x != c && f[c].par in f {
      var i := Sibling(m, f, limbo, c);
      SiblingNeighbours(m, f, limbo, c, i);
    } else if x != c {
      RootHasNoParent(f, c);
    }
    assert Detached(f, c)[x].par == if x == c then NULL else f[x].par;
    assert Detached(f, c)[x].target == f[x].target;
  }

  lemma RootHasNoParent(f: Forest, c: Ptr)
    requires Tree(f) && c in f && f[c].par !in f
    ensures f[c].par == NULL
  {
    assert NodeOk(f, c);
  }

  lemma BypassChunk(m: Heap, m2: Heap, f: Forest, limbo: set<Ptr>, limbo2: set<Ptr>, c: Ptr, x: Ptr)
    requires Tree(f) && Represents(m, f, limbo) && c in f && c !in limbo && Bypassed(m, m2, c)
    requires limbo2 - {c} == limbo && RootOk(m2, Detached(f, c), limbo2, c)
    requires x in f
    ensures ChunkOk(m2, Detached(f, c), limbo2, x)
  {
    hide KidsLinked, RefsLinked, RootOk, TargetOk, Below, Without, Tree;
    assert ChunkOk(m, f, limbo, x);
    BypassRefs(m, m2, c, x, f[x].refs);
    BypassChunkKids(m, m2, f, limbo, c, x);
    BypassChunkRoot(m, m2, f, limbo, limbo2, c, x);
    assert Detached(f, c)[x].refs == f[x].refs;
  }

  /** After a chunk is taken out of its list, the memory represents the forest without that edge. */
  lemma BypassRepresents(m: Heap, m2: Heap, f: Forest, limbo: set<Ptr>, limbo2: set<Ptr>, c: Ptr)
    requires Tree(f) && Represents(m, f, limbo) && c in f && c !in limbo && Bypassed(m, m2, c)
    requires limbo2 - {c} == limbo && RootOk(m2, Detached(f, c), limbo2, c)
    ensures Represents(m2, Detached(f, c), limbo2)
  {
    forall x | x in f ensures ChunkOk(m2, Detached(f, c), limbo2, x) {
      BypassChunk(m, m2, f, limbo, limbo2, c, x);
    }
    hide ChunkOk;
  }

  /* ---- putting a root in front of a list of children ---- */

  /** m2 is m with c linked in as the first child of o. */
  predicate Hooked(m: Heap, m2: Heap, c: Ptr, o: Ptr) {
    && c in m && o in m && c != o && m2.Keys == m.Keys
    && m2[c] == m[c].(next := m[o].child, prev := NULL, parent := o)
    && forall y :: y in m && y != c ==>
         m2[y] == m[y].(child := if y == o then c else m[y].child,
                        prev := if y == m[o].child then c else m[y].prev,
                        parent := if y == m[o].child then NULL else m[y].parent)
  }

  lemma HookSibling(m: Heap, m2: Heap, o: Ptr, kids: seq<Ptr>, c: Ptr, k: nat)
    requires KidsLinked(m, o, kids) && NoDup(kids) && NULL !in m && c !in kids && o !in kids
    requires Hooked(m, m2, c, o) && k <= |kids|
    ensures SiblingOk(m2, o, [c] + kids, k)
  {
    if k > 0 { assert SiblingOk(m, o, kids, k - 1); }
    if k > 1 { assert SiblingOk(m, o, kids, 0); assert kids[0] != kids[k - 1]; }
    hide KidsLinked;
  }

  lemma HookKids(m: Heap, m2: Heap, o: Ptr, kids: seq<Ptr>, c: Ptr)
    requires KidsLinked(m, o, kids) && NoDup(kids) && NULL !in m && c !in kids && o !in kids
    requires Hooked(m, m2, c, o)
    ensures KidsLinked(m2, o, [c] + kids)
  {
    forall k | 0 <= k < |[c] + kids| ensures SiblingOk(m2, o, [c] + kids, k) {
      HookSibling(m, m2, o, kids, c, k);
    }
  }

  lemma HookOtherKids(m: Heap, m2: Heap, f: Forest, limbo: set<Ptr>, c: Ptr, o: Ptr, q: Ptr)
    requires Tree(f) && Represents(m, f, limbo) && c in f && f[c].par == NULL && Hooked(m, m2, c, o)
    requires q in f && q != o
    ensures KidsLinked(m2, q, f[q].kids)
  {
    assert ChunkOk(m, f, limbo, q) && ChunkOk(m, f, limbo, o) && NodeOk(f, q) && NodeOk(f, o);
    forall k | 0 <= k < |f[q].kids| ensures SiblingOk(m2, q, f[q].kids, k) {
      assert SiblingOk(m, q, f[q].kids, k);
      assert f[q].kids[k] in f[q].kids;
      if f[o].kids != [] { assert f[o].kids[0] in f[o].kids; }
      hide KidsLinked, RefsLinked, NoDup, Tree;
    }
    hide RefsLinked, NoDup, Tree, SiblingOk;
  }

  lemma HookRefs(m: Heap, m2: Heap, c: Ptr, o: Ptr, x: Ptr, hs: seq<Ptr>)
    requires Hooked(m, m2, c, o) && RefsLinked(m, x, hs)
    ensures RefsLinked(m2, x, hs)
  {
    forall i | 0 <= i < |hs| ensures HandleOk(m2, hs, i) {
      assert HandleOk(m, hs, i);
    }
  }

  lemma HookRoot(m: Heap, m2: Heap, f: Forest, limbo: set<Ptr>, c: Ptr, o: Ptr, x: Ptr)
    requires Tree(f) && Represents(m, f, limbo) && c in f && c !in limbo && f[c].par == NULL
    requires Hooked(m, m2, c, o) && x in f
    ensures RootOk(m2, Attached(f, c, o), limbo, x) && TargetOk(m2, Attached(f, c, o), x)
  {
    hide KidsLinked, RefsLinked, Below, KidsOk, AncestorsOk, RefsOk;
    assert ChunkOk(m, f, limbo, x) && ChunkOk(m, f, limbo, o) && NodeOk(f, o);
    FirstChild(m, f, limbo, o);
    assert NULL !in f;
  }

  lemma FirstChild(m: Heap, f: Forest, limbo: set<Ptr>, o: Ptr)
    requires Tree(f) && Represents(m, f, limbo) && o in f
    ensures m[o].child == Nth(f[o].kids, 0)
    ensures f[o].kids != [] ==>
      var c := m[o].child;
      c in f && f[c].par == o && m[c].parent == o && m[c].prev == NULL && c !in limbo
    ensures f[o].kids == [] ==> m[o].child == NULL
  {
    assert ChunkOk(m, f, limbo, o) && NodeOk(f, o);
    if f[o].kids != [] {
      assert SiblingOk(m, o, f[o].kids, 0) && f[o].kids[0] in f[o].kids;
      assert ChunkOk(m, f, limbo, f[o].kids[0]);
    }
  }

  lemma HookChunk(m: Heap, m2: Heap, f: Forest, limbo: set<Ptr>, c: Ptr, o: Ptr, x: Ptr)
    requires Tree(f) && Represents(m, f, limbo) && c in f && c !in limbo && f[c].par == NULL
    requires Hooked(m, m2, c, o) && x in f
    ensures ChunkOk(m2, Attached(f, c, o), limbo, x)
  {
    assert ChunkOk(m, f, limbo, x) && NodeOk(f, x);
    if x == o {
      assert o !in f[o].kids && c !in f[o].kids;
      HookKids(m, m2, o, f[o].kids, c);
    } else {
      HookOtherKids(m, m2, f, limbo, c, o, x);
    }
    HookRefs(m, m2, c, o, x, f[x].refs);
    HookRoot(m, m2, f, limbo, c, o, x);
    assert Attached(f, c, o)[x].refs == f[x].refs;
    assert Attached(f, c, o)[x].kids == if x == o then [c] + f[x].kids else f[x].kids;
    hide KidsLinked, RefsLinked, RootOk, TargetOk, Tree, Attached;
  }

  lemma HookRepresents(m: Heap, m2: Heap, f: Forest, limbo: set<Ptr>, c: Ptr, o: Ptr)
    requires Tree(f) && Represents(m, f, limbo) && c in f && c !in limbo && f[c].par == NULL
    requires Hooked(m, m2, c, o)
    ensures Represents(m2, Attached(f, c, o), limbo)
  {
    forall x | x in f ensures ChunkOk(m2, Attached(f, c, o), limbo, x) {
      HookChunk(m, m2, f, limbo, c, o, x);
    }
    hide ChunkOk;
  }

  /* ---- the list of references ---- */

  /** m2 is m with h linked in as the newest handle of x. */
  predicate RefAdded(m: Heap, m2: Heap, h: Ptr, x: Ptr) {
    && h in m && x in m && h != x && m2.Keys == m.Keys
    && m2[h] == m[h].(refNext := m[x].refs, refPrev := NULL, target := x, destructor := HandleDestructor)
    && forall y :: y in m && y != h ==>
         m2[y] == m[y].(refs := if y == x then h else m[y].refs,
                        refPrev := if y == m[x].refs then h else m[y].refPrev)
  }

  /** m2 is m with h taken off the list of references of its target. */
  predicate RefRemoved(m: Heap, m2: Heap, h: Ptr) {
    && h in m && m2.Keys == m.Keys
    && m2[h] == m[h].(refNext := m2[h].refNext, refPrev := m2[h].refPrev, destructor := m2[h].destructor)
    && forall y :: y in m && y != h ==>
         m2[y] == m[y].(refs := if y == m[h].target && m[y].refs == h then m[h].refNext else m[y].refs,
                        refNext := if y == m[h].refPrev then m[h].refNext else m[y].refNext,
                        refPrev := if y == m[h].refNext then m[h].refPrev else m[y].refPrev)
  }

  predicate SameLinks(a: Chunk, b: Chunk) {
    a.next == b.next && a.prev == b.prev && a.parent == b.parent && a.child == b.child && a.loop == b.loop
  }

  lemma SameLinksKids(m: Heap, m2: Heap, p: Ptr, kids: seq<Ptr>)
    requires m2.Keys == m.Keys && forall y :: y in m ==> SameLinks(m[y], m2[y])
    requires KidsLinked(m, p, kids)
    ensures KidsLinked(m2, p, kids)
  {
    forall k | 0 <= k < |kids| ensures SiblingOk(m2, p, kids, k) {
      assert SiblingOk(m, p, kids, k);
    }
  }

  lemma RefAddedHandle(m: Heap, m2: Heap, f: Forest, limbo: set<Ptr>, h: Ptr, x: Ptr, y: Ptr, k: nat)
    requires Tree(f) && Represents(m, f, limbo) && h in f && x in f && f[h].target == NULL
    requires RefAdded(m, m2, h, x) && y in f && k < |f[y].refs|
    ensures var hs := f[y].refs;
            && hs[k] in m2 && m2[hs[k]].refNext == Nth(hs, k + 1)
            && m2[hs[k]].refPrev == if y == x && k == 0 then h else Nth(hs, k - 1)
  {
    var hs := f[y].refs;
    assert ChunkOk(m, f, limbo, y) && ChunkOk(m, f, limbo, x) && NodeOk(f, y) && NodeOk(f, x);
    assert HandleOk(m, hs, k) && hs[k] in hs;
    if f[x].refs != [] { assert f[x].refs[0] in f[x].refs; }
    if y == x && k > 0 { assert hs[0] != hs[k]; }
    hide Tree, Represents, KidsLinked, RefsLinked;
  }

  lemma RefsConsed(m: Heap, x: Ptr, h: Ptr, hs: seq<Ptr>)
    requires x in m && h in m && m[x].refs == h && m[h].refNext == Nth(hs, 0) && m[h].refPrev == NULL
    requires forall k :: 0 <= k < |hs| ==>
      && hs[k] in m && m[hs[k]].refNext == Nth(hs, k + 1)
      && m[hs[k]].refPrev == if k == 0 then h else Nth(hs, k - 1)
    ensures RefsLinked(m, x, [h] + hs)
  {
    var all := [h] + hs;
    forall k | 0 <= k < |all| ensures HandleOk(m, all, k) {
      if k > 0 { assert all[k] == hs[k - 1]; }
    }
  }

  lemma RefAddedRefs(m: Heap, m2: Heap, f: Forest, limbo: set<Ptr>, h: Ptr, x: Ptr, y: Ptr)
    requires Tree(f) && Represents(m, f, limbo) && h in f && x in f && f[h].target == NULL && f[h].refs == []
    requires RefAdded(m, m2, h, x) && y in f
    ensures RefsLinked(m2, y, Referenced(f, h, x)[y].refs)
  {
    var hs := f[y].refs;
    assert ChunkOk(m, f, limbo, y);
    hide Tree, Represents, KidsLinked, Referenced;
    forall k | 0 <= k < |hs|
      ensures hs[k] in m2 && m2[hs[k]].refNext == Nth(hs, k + 1)
      ensures m2[hs[k]].refPrev == if y == x && k == 0 then h else Nth(hs, k - 1)
    {
      RefAddedHandle(m, m2, f, limbo, h, x, y, k);
    }
    ReferencedRefs(f, h, x, y);
    if y == x {
      RefsConsed(m2, x, h, hs);
    } else {
      forall k | 0 <= k < |hs| ensures HandleOk(m2, hs, k) {
      }
    }
  }

  lemma ReferencedRefs(f: Forest, h: Ptr, x: Ptr, y: Ptr)
    requires h in f && x in f && y in f
    ensures Referenced(f, h, x)[y].refs == if y == x then [h] + f[y].refs else f[y].refs
  {
  }

  lemma RefAddedChunk(m: Heap, m2: Heap, f: Forest, limbo: set<Ptr>, h: Ptr, x: Ptr, y: Ptr)
    requires Tree(f) && Represents(m, f, limbo) && h in f && x in f && f[h].target == NULL && f[h].refs == []
    requires RefAdded(m, m2, h, x) && y in f
    ensures ChunkOk(m2, Referenced(f, h, x), limbo, y)
  {
    assert ChunkOk(m, f, limbo, y) && x != NULL;
    RefAddedRefs(m, m2, f, limbo, h, x, y);
    SameLinksKids(m, m2, y, f[y].kids);
    assert Referenced(f, h, x)[y] == f[y].(refs := Referenced(f, h, x)[y].refs,
                                           target := if y == h then x else f[y].target);
    hide KidsLinked, RefsLinked, Referenced, Tree;
  }

  lemma RefAddedRepresents(m: Heap, m2: Heap, f: Forest, limbo: set<Ptr>, h: Ptr, x: Ptr)
    requires Tree(f) && Represents(m, f, limbo) && h in f && x in f && f[h].target == NULL && f[h].refs == []
    requires RefAdded(m, m2, h, x)
    ensures Represents(m2, Referenced(f, h, x), limbo)
  {
    forall y | y in f ensures ChunkOk(m2, Referenced(f, h, x), limbo, y) {
      RefAddedChunk(m, m2, f, limbo, h, x, y);
    }
    hide ChunkOk;
  }

  /** A handle sits in the list of its target. */
  lemma HandlePlace(m: Heap, f: Forest, limbo: set<Ptr>, h: Ptr) returns (i: nat)
    requires Tree(f) && Represents(m, f, limbo) && h in f && f[h].target != NULL
    ensures f[h].target in f && m[h].target == f[h].target && h != f[h].target
    ensures var hs := f[f[h].target].refs;
            && i < |hs| && hs[i] == h && NoDup(hs) && RefsLinked(m, f[h].target, hs)
            && (m[h].refNext == NULL || m[h].refNext in hs) && (m[h].refPrev == NULL || m[h].refPrev in hs)
            && (m[f[h].target].refs == h <==> i == 0)
  {
    var x := f[h].target;
    assert NodeOk(f, h) && ChunkOk(m, f, limbo, h);
    assert NodeOk(f, x) && ChunkOk(m, f, limbo, x);
    i := IndexOf(f[x].refs, h);
    assert HandleOk(m, f[x].refs, i);
  }

  lemma RefRemovedHandle(m: Heap, m2: Heap, x: Ptr, hs: seq<Ptr>, i: nat, k: nat)
    requires RefsLinked(m, x, hs) && NoDup(hs) && NULL !in m && i < |hs|
    requires hs[i] in m && m[hs[i]].target == x && RefRemoved(m, m2, hs[i]) && k < |hs| - 1
    ensures HandleOk(m2, Drop(hs, i), k)
  {
    var j := if k < i then k else k + 1;
    assert HandleOk(m, hs, i) && HandleOk(m, hs, j);
    if j > 0 { assert HandleOk(m, hs, j - 1); }
    if j + 1 < |hs| { assert HandleOk(m, hs, j + 1); }
    hide RefsLinked;
  }

  lemma RefRemovedRefs(m: Heap, m2: Heap, x: Ptr, hs: seq<Ptr>, i: nat)
    requires RefsLinked(m, x, hs) && NoDup(hs) && NULL !in m && i < |hs| && x != hs[i]
    requires hs[i] in m && m[hs[i]].target == x && RefRemoved(m, m2, hs[i])
    ensures RefsLinked(m2, x, Without(hs, {hs[i]}))
  {
    WithoutOne(hs, i);
    assert Without(hs, {hs[i]}) == Drop(hs, i);
    forall k | 0 <= k < |hs| - 1 ensures HandleOk(m2, Drop(hs, i), k) {
      RefRemovedHandle(m, m2, x, hs, i, k);
    }
    assert HandleOk(m, hs, i);
    assert i > 0 ==> hs[0] != hs[i];
    hide Without;
  }

  lemma RefRemovedOthers(m: Heap, m2: Heap, f: Forest, limbo: set<Ptr>, h: Ptr, y: Ptr)
    requires Tree(f) && Represents(m, f, limbo) && h in f && f[h].target != NULL
    requires RefRemoved(m, m2, h) && y in f && y != f[h].target
    ensures RefsLinked(m2, y, f[y].refs) && Dropped(f, h)[y].refs == f[y].refs
  {
    hide Tree, Represents, RefRemoved, RefsLinked, NoDup, Without;
    OtherHandles(m, f, limbo, h, y);
    WithoutNone(f[y].refs, {h});
    OthersStayLinked(m, m2, h, y, f[y].refs);
  }

  /** The handles of another target are neither h nor next to it. */
  lemma OtherHandles(m: Heap, f: Forest, limbo: set<Ptr>, h: Ptr, y: Ptr)
    requires Tree(f) && Represents(m, f, limbo) && h in f && f[h].target != NULL
    requires y in f && y != f[h].target
    ensures h in m && m[h].target != y && RefsLinked(m, y, f[y].refs)
    ensures forall x :: x in f[y].refs ==> x != h && x != m[h].refNext && x != m[h].refPrev
  {
    var i := HandlePlace(m, f, limbo, h);
    assert ChunkOk(m, f, limbo, y) && NodeOk(f, y) && NodeOk(f, f[h].target);
    hide KidsLinked, NoDup, Tree, HandleOk, RefsLinked;
  }

  lemma OthersStayLinked(m: Heap, m2: Heap, h: Ptr, y: Ptr, hs: seq<Ptr>)
    requires RefRemoved(m, m2, h) && RefsLinked(m, y, hs) && h in m && m[h].target != y
    requires forall x :: x in hs ==> x != h && x != m[h].refNext && x != m[h].refPrev
    ensures RefsLinked(m2, y, hs)
  {
    forall k | 0 <= k < |hs| ensures HandleOk(m2, hs, k) {
      assert HandleOk(m, hs, k) && hs[k] in hs;
    }
  }

  lemma RefRemovedChunk(m: Heap, m2: Heap, f: Forest, limbo: set<Ptr>, h: Ptr, y: Ptr)
    requires Tree(f) && Represents(m, f, limbo) && h in f && f[h].target != NULL
    requires RefRemoved(m, m2, h) && m2[h].destructor != HandleDestructor && y in f
    ensures ChunkOk(m2, Dropped(f, h), limbo, y)
  {
    var i := HandlePlace(m, f, limbo, h);
    assert ChunkOk(m, f, limbo, y);
    if y == f[h].target {
      RefRemovedRefs(m, m2, y, f[y].refs, i);
      assert Dropped(f, h)[y].refs == Without(f[y].refs, {h});
    } else {
      RefRemovedOthers(m, m2, f, limbo, h, y);
    }
    SameLinksKids(m, m2, y, f[y].kids);
    assert Dropped(f, h)[y] == f[y].(refs := Dropped(f, h)[y].refs, target := if y == h then NULL else f[y].target);
    hide KidsLinked, RefsLinked, Dropped, Tree, Without, NoDup;
  }

  lemma RefRemovedRepresents(m: Heap, m2: Heap, f: Forest, limbo: set<Ptr>, h: Ptr)
    requires Tree(f) && Represents(m, f, limbo) && h in f && f[h].target != NULL
    requires RefRemoved(m, m2, h) && m2[h].destructor != HandleDestructor
    ensures Represents(m2, Dropped(f, h), limbo)
  {
    forall y | y in f ensures ChunkOk(m2, Dropped(f, h), limbo, y) {
      RefRemovedChunk(m, m2, f, limbo, h, y);
    }
    hide ChunkOk;
  }

  /* ---- creating and releasing ---- */

  lemma CreatedRepresents(m: Heap, f: Forest, limbo: set<Ptr>, c: Ptr, chunk: Chunk)
    requires Tree(f) && Represents(m, f, limbo) && c !in m && c != NULL && c !in limbo
    requires chunk.next == chunk.prev == chunk.parent == chunk.child == chunk.refs == NULL && !chunk.loop
    requires chunk.destructor != HandleDestructor
    ensures Represents(m[c := chunk], Created(f, c), limbo)
  {
    var m2, g := m[c := chunk], Created(f, c);
    forall x | x in g ensures ChunkOk(m2, g, limbo, x) {
      if x != c {
        assert ChunkOk(m, f, limbo, x);
        forall k | 0 <= k < |f[x].kids| ensures SiblingOk(m2, x, f[x].kids, k) {
          assert SiblingOk(m, x, f[x].kids, k);
        }
        forall k | 0 <= k < |f[x].refs| ensures HandleOk(m2, f[x].refs, k) {
          assert HandleOk(m, f[x].refs, k);
        }
      }
    }
  }

  lemma RemovedRepresents(m: Heap, f: Forest, limbo: set<Ptr>, c: Ptr)
    requires Tree(f) && Represents(m, f, limbo) && c in f
    requires f[c].par == NULL && f[c].kids == [] && f[c].refs == [] && f[c].target == NULL
    ensures Represents(m - {c}, Removed(f, c), limbo - {c})
  {
    var m2, g := m - {c}, Removed(f, c);
    forall x | x in g ensures ChunkOk(m2, g, limbo - {c}, x) {
      assert ChunkOk(m, f, limbo, x) && NodeOk(f, x);
      forall k | 0 <= k < |f[x].kids| ensures SiblingOk(m2, x, f[x].kids, k) {
        assert SiblingOk(m, x, f[x].kids, k) && f[x].kids[k] in f[x].kids;
      }
      forall k | 0 <= k < |f[x].refs| ensures HandleOk(m2, f[x].refs, k) {
        assert HandleOk(m, f[x].refs, k) && f[x].refs[k] in f[x].refs;
      }
    }
  }
}
