/** talloc over chunks in memory. */
module Talloc {
  import opened Addresses
  import opened Forest
  import opened FreeSpec
  import opened FreeFrame
  import opened TallocHeap
  import opened Ownership
  import opened Relocate
  import opened TotalSize

  const MAX_TALLOC_SIZE: nat := 0x10000000
  // three pointers
  const HANDLE_SIZE: nat := 24

  class Talloc {
    var mem: Heap
    ghost var f: Forest
    // chunks unlinked by a free that has not finished
    ghost var limbo: set<Ptr>

    ghost predicate Valid()
      reads this
    {
      Tree(f) && Represents(mem, f, limbo)
    }

    constructor ()
      ensures Valid() && mem == map[] && f == map[] && limbo == {}
    {
      mem, f, limbo := map[], map[], {};
    }

    /* ---- walking ---- */

    /** Back to the first sibling, which knows the parent. */
    method ParentChunk(ptr: Ptr) returns (p: Ptr)
      requires Valid() && ptr in f && ptr !in limbo
      ensures p == f[ptr].par
    {
      var tc := ptr;
      ghost var top := f[ptr].par;
      ghost var kids, i := [], 0;
      assert ChunkOk(mem, f, limbo, ptr) && NodeOk(f, ptr);
      if top != NULL {
        kids := f[top].kids;
        i := Sibling(mem, f, limbo, ptr);
        assert NodeOk(f, top);
        assert forall k :: 0 <= k < |kids| ==> kids[k] in kids;
      }
      while mem[tc].prev != NULL
        invariant tc in mem && (top == NULL ==> tc == ptr)
        invariant top != NULL ==> 0 <= i < |kids| && kids[i] == tc
        decreases i
      {
        assert SiblingOk(mem, top, kids, i);
        i := i - 1;
        tc := mem[tc].prev;
        assert SiblingOk(mem, top, kids, i);
      }
      if top != NULL {
        assert SiblingOk(mem, top, kids, i);
      }
      return mem[tc].parent;
    }

    /** Is ptr the context or one of its ancestors? */
    method IsParent(context: Ptr, ptr: Ptr) returns (r: bool)
      requires Valid() && (context != NULL ==> context in f && ({context} + f[context].anc) !! limbo)
      ensures r == (context != NULL && ptr in {context} + f[context].anc)
    {
      var tc := context;
      while tc != NULL
        invariant tc == NULL || (tc in f && ({tc} + f[tc].anc) !! limbo)
        invariant (context != NULL && ptr in {context} + f[context].anc) == (tc != NULL && ptr in {tc} + f[tc].anc)
        decreases if tc == NULL then {} else {tc} + f[tc].anc
      {
        if tc == ptr {
          return true;
        }
        assert NodeOk(f, tc);
        var p := ParentChunk(tc);
        if p != NULL {
          assert NodeOk(f, p);
        }
        tc := p;
      }
      return false;
    }

    /* ---- moving ---- */

    /** Takes a chunk out of its list of siblings; if it was the first, its next sibling becomes
        the one that knows the parent. */
    method Unlink(tc: Ptr)
      requires Valid() && tc in f && tc !in limbo
      modifies this`mem
      ensures Bypassed(old(mem), mem, tc) && mem[tc].loop == old(mem[tc].loop)
    {
      Neighbours(tc);
      if mem[tc].parent != NULL {
        UnlinkFirst(tc);
      } else {
        UnlinkLater(tc);
      }
    }

    method UnlinkFirst(tc: Ptr)
      requires NeighboursOk(mem, tc) && mem[tc].parent != NULL
      modifies this`mem
      ensures Bypassed(old(mem), mem, tc) && mem[tc].loop == old(mem[tc].loop)
    {
      hide PassedFirst;
      var p := mem[tc].parent;
      ghost var before := mem;
      PassFirst(tc);
      ghost var passed := mem;
      FirstPassed(before, passed, tc);
      mem := mem[tc := mem[tc].(next := NULL, prev := NULL)];
      if mem[p].child != NULL {
        mem := mem[mem[p].child := mem[mem[p].child].(parent := p)];
      }
      FirstBypassed(before, passed, mem, tc);
    }

    static lemma FirstPassed(m: Heap, m2: Heap, tc: Ptr)
      requires NeighboursOk(m, tc) && m[tc].parent != NULL && PassedFirst(m, m2, tc)
      ensures var p, next := m[tc].parent, m[tc].next;
              && tc in m2 && p in m2 && p != tc && m2[p].child == next && m2[tc].loop == m[tc].loop
              && (next != NULL ==> next in m2 && next != tc && next != p)
    {
    }

    static lemma FirstBypassed(m: Heap, m2: Heap, m3: Heap, tc: Ptr)
      requires NeighboursOk(m, tc) && m[tc].parent != NULL && PassedFirst(m, m2, tc) && tc in m2
      requires m[tc].next != NULL ==> m[tc].next in m2
      requires var next, cut := m[tc].next, m2[tc := m2[tc].(next := NULL, prev := NULL)];
               m3 == if next != NULL then cut[next := cut[next].(parent := m[tc].parent)] else cut
      ensures Bypassed(m, m3, tc)
    {
    }

    /** m2 is m with the parent and the next sibling of tc leading past it. */
    static predicate PassedFirst(m: Heap, m2: Heap, tc: Ptr) {
      && tc in m && m2.Keys == m.Keys
      && forall y :: y in m ==>
           m2[y] == m[y].(child := if y == m[tc].parent then m[tc].next else m[y].child,
                          prev := if y == m[tc].next then NULL else m[y].prev)
    }

    method PassFirst(tc: Ptr)
      requires NeighboursOk(mem, tc) && mem[tc].parent != NULL
      modifies this`mem
      ensures PassedFirst(old(mem), mem, tc)
    {
      var p, next := mem[tc].parent, mem[tc].next;
      mem := mem[p := mem[p].(child := next)];
      if next != NULL {
        mem := mem[next := mem[next].(prev := NULL)];
      }
    }

    method UnlinkLater(tc: Ptr)
      requires NeighboursOk(mem, tc) && mem[tc].parent == NULL
      modifies this`mem
      ensures Bypassed(old(mem), mem, tc) && mem[tc].loop == old(mem[tc].loop)
    {
      var next, prev := mem[tc].next, mem[tc].prev;
      if prev != NULL {
        mem := mem[prev := mem[prev].(next := next)];
      }
      if next != NULL {
        mem := mem[next := mem[next].(prev := prev)];
      }
    }

    static predicate NeighboursOk(m: Heap, tc: Ptr) {
      && NULL !in m && tc in m
      && var c := m[tc];
         && (c.next != NULL ==> c.next in m && c.next != tc && c.next != c.prev && c.next != c.parent)
         && (c.prev != NULL ==> c.prev in m && c.prev != tc)
         && (c.parent != NULL ==> c.parent in m && c.parent != tc && c.prev == NULL && m[c.parent].child == tc)
    }

    /** The chunks an unlinking touches are all there and distinct. */
    lemma Neighbours(tc: Ptr)
      requires Valid() && tc in f && tc !in limbo
      ensures NeighboursOk(mem, tc)
    {
      assert ChunkOk(mem, f, limbo, tc) && NodeOk(f, tc);
      if f[tc].par != NULL {
        var p := f[tc].par;
        var i := Sibling(mem, f, limbo, tc);
        SiblingNeighbours(mem, f, limbo, tc, i);
        assert NodeOk(f, p) && ChunkOk(mem, f, limbo, p);
        if i > 0 { assert f[p].kids[i - 1] in f[p].kids; }
        if i + 1 < |f[p].kids| { assert f[p].kids[i + 1] in f[p].kids; }
      }
    }

    /** Makes a chunk, already out of its list, the first child of another. */
    method LinkFirst(tc: Ptr, newTc: Ptr, ghost unlinked: Heap)
      requires tc in mem && newTc in mem && tc != newTc && mem[newTc].child != tc
      requires mem[newTc].child == NULL || (mem[newTc].child in mem && mem[newTc].child != newTc)
      requires NULL !in mem
      requires unlinked == mem[tc := mem[tc].(next := NULL, prev := NULL, parent := NULL)]
      modifies this`mem
      ensures Hooked(unlinked, mem, tc, newTc)
    {
      mem := mem[tc := mem[tc].(parent := newTc)];
      var first := mem[newTc].child;
      if first != NULL {
        mem := mem[first := mem[first].(parent := NULL)];
      }
      if first == NULL {
        mem := mem[newTc := mem[newTc].(child := tc)];
        mem := mem[tc := mem[tc].(next := NULL, prev := NULL)];
      } else {
        mem := mem[first := mem[first].(prev := tc)];
        mem := mem[tc := mem[tc].(next := first, prev := NULL)];
        mem := mem[newTc := mem[newTc].(child := tc)];
      }
    }

    /** The forest with ptr hung, as first child, below the new context. */
    static ghost function Moved(f: Forest, ptr: Ptr, newCtx: Ptr): Forest
      requires ptr in f && (newCtx == NULL || newCtx in f)
    {
      if newCtx == NULL then Detached(f, ptr)
      else if newCtx == ptr then f
      else Attached(Detached(f, ptr), ptr, newCtx)
    }

    /** ptr is now the first child of newCtx, or a root; everything else is as it was. */
    static ghost predicate MovedTo(f: Forest, g: Forest, ptr: Ptr, newCtx: Ptr) {
      && g.Keys == f.Keys
      && forall x :: x in f ==>
           && g[x].par == (if x == ptr then newCtx else f[x].par)
           && g[x].refs == f[x].refs && g[x].target == f[x].target
           && g[x].kids == (if x == newCtx then [ptr] else []) + Without(f[x].kids, {ptr})
    }

    static lemma MovesTo(f: Forest, ptr: Ptr, newCtx: Ptr)
      requires ptr in f && (newCtx == NULL || newCtx in f) && NULL !in f
      ensures newCtx != ptr ==> MovedTo(f, Moved(f, ptr, newCtx), ptr, newCtx)
    {
      hide Below, Without;
    }

    /** Sizes and destructors are as they were. */
    static predicate SameData(m: Heap, m2: Heap) {
      m2.Keys <= m.Keys &&
      forall x :: x in m2 ==> m2[x].size == m[x].size && m2[x].destructor == m[x].destructor
    }

    method Steal(newCtx: Ptr, ptr: Ptr)
      requires Valid() && ptr in f && ptr !in limbo
      requires newCtx == NULL || newCtx == ptr ||
               (newCtx in f && newCtx !in Below(f, {ptr}) && f[newCtx].target == NULL)
      modifies this`mem, this`f
      ensures Valid() && f == Moved(old(f), ptr, newCtx)
      ensures SameData(old(mem), mem)
      ensures if newCtx == ptr then f == old(f) else MovedTo(old(f), f, ptr, newCtx)
    {
      MovesTo(f, ptr, newCtx);
      if newCtx == NULL {
        Orphan(ptr);
      } else if ptr == newCtx || mem[ptr].parent == newCtx {
        if ptr != newCtx {
          FirstStays(ptr, newCtx);
        }
      } else {
        Adopt(ptr, newCtx);
      }
    }

    method Orphan(ptr: Ptr)
      requires Valid() && ptr in f && ptr !in limbo
      modifies this`mem, this`f
      ensures Valid() && f == Detached(old(f), ptr) && SameData(old(mem), mem)
    {
      hide Tree, Represents, Detached, Bypassed;
      NotFlagged(ptr);
      Unlink(ptr);
      assert ptr in mem by { assert Bypassed(old(mem), mem, ptr); BypassKeeps(old(mem), mem, ptr); }
      ghost var mid := mem;
      mem := mem[ptr := mem[ptr].(parent := NULL, next := NULL, prev := NULL)];
      BypassUpTo(old(mem), mid, mem, ptr);
      CutRepresents(old(mem), mem, ptr);
      f := Detached(f, ptr);
    }

    lemma NotFlagged(ptr: Ptr)
      requires Valid() && ptr in f && ptr !in limbo
      ensures ptr in mem && !mem[ptr].loop
    {
      assert ChunkOk(mem, f, limbo, ptr);
    }

    lemma BypassKeeps(m: Heap, m2: Heap, c: Ptr)
      requires Bypassed(m, m2, c)
      ensures c in m2 && m2.Keys == m.Keys
    {
    }

    /** The links of the bypassed chunk do not matter. */
    lemma BypassUpTo(m: Heap, m2: Heap, m3: Heap, c: Ptr)
      requires Bypassed(m, m2, c) && c in m2
      requires m3 == m2[c := m2[c].(parent := NULL, next := NULL, prev := NULL)]
      ensures Bypassed(m, m3, c)
    {
    }

    lemma CutRepresents(before: Heap, after: Heap, c: Ptr)
      requires Tree(f) && Represents(before, f, limbo) && c in f && c !in limbo && Bypassed(before, after, c)
      requires after[c].parent == NULL && after[c].next == NULL && after[c].prev == NULL && !after[c].loop
      ensures Tree(Detached(f, c)) && Represents(after, Detached(f, c), limbo)
      ensures SameData(before, after) && after.Keys == before.Keys
    {
      assert limbo - {c} == limbo;
      BypassRepresents(before, after, f, limbo, limbo, c);
      DetachedTree(f, c);
      hide Tree, Represents;
    }

    method Adopt(ptr: Ptr, newCtx: Ptr)
      requires Valid() && ptr in f && ptr !in limbo && newCtx in f
      requires newCtx !in Below(f, {ptr}) && f[newCtx].target == NULL
      modifies this`mem, this`f
      ensures Valid() && f == Attached(Detached(old(f), ptr), ptr, newCtx) && SameData(old(mem), mem)
    {
      hide Tree, Represents, Bypassed, Hooked, Attached;
      NotFlagged(ptr);
      CutFromBelow(ptr, newCtx);
      Unlink(ptr);
      assert ptr in mem by { BypassKeeps(old(mem), mem, ptr); }
      ghost var cut := mem[ptr := mem[ptr].(parent := NULL, next := NULL, prev := NULL)];
      BypassUpTo(old(mem), mem, cut, ptr);
      CutRepresents(old(mem), cut, ptr);
      ghost var g := Detached(f, ptr);
      assert g[ptr].par == NULL && g[newCtx].target == NULL;
      hide Detached, Below;
      AdoptReady(cut, g, ptr, newCtx);
      LinkFirst(ptr, newCtx, cut);
      HookRepresents(cut, mem, g, limbo, ptr, newCtx);
      AttachedTree(g, ptr, newCtx);
      HookData(old(mem), cut, mem, ptr, newCtx);
      f := Attached(g, ptr, newCtx);
    }

    static lemma HookData(m: Heap, cut: Heap, m2: Heap, c: Ptr, o: Ptr)
      requires SameData(m, cut) && m.Keys == cut.Keys && Hooked(cut, m2, c, o)
      ensures SameData(m, m2)
    {
    }

    lemma AdoptReady(m: Heap, g: Forest, ptr: Ptr, newCtx: Ptr)
      requires Tree(g) && Represents(m, g, limbo) && ptr in g && g[ptr].par == NULL && newCtx in g
      ensures m[newCtx].child == NULL || (m[newCtx].child in m && m[newCtx].child != newCtx)
      ensures m[newCtx].child != ptr && NULL !in m && ptr in m && newCtx in m
    {
      FirstChild(m, g, limbo, newCtx);
      assert NodeOk(g, newCtx);
      if g[newCtx].kids != [] { assert NodeOk(g, g[newCtx].kids[0]) && g[newCtx].kids[0] in g[newCtx].kids; }
    }

    lemma CutFromBelow(ptr: Ptr, newCtx: Ptr)
      requires Tree(f) && ptr in f && newCtx in f && newCtx !in Below(f, {ptr})
      ensures newCtx !in Below(Detached(f, ptr), {ptr})
    {
    }

    /** Moving the first child to the front changes nothing. */
    lemma FirstStays(ptr: Ptr, newCtx: Ptr)
      requires Valid() && ptr in f && ptr !in limbo && newCtx in f && ptr != newCtx
      requires newCtx !in Below(f, {ptr}) && mem[ptr].parent == newCtx
      ensures f == Moved(f, ptr, newCtx)
    {
      FirstOfList(ptr, newCtx);
      forall x | x in f ensures Moved(f, ptr, newCtx)[x] == f[x] {
        FirstStaysNode(x, ptr, newCtx);
      }
      hide Tree, Represents, Below, Without;
    }

    lemma FirstOfList(ptr: Ptr, newCtx: Ptr)
      requires Valid() && ptr in f && ptr !in limbo && newCtx in f && mem[ptr].parent == newCtx
      ensures f[ptr].par == newCtx && f[newCtx].kids == [ptr] + Without(f[newCtx].kids, {ptr})
    {
      hide Without;
      assert ChunkOk(mem, f, limbo, ptr) && NodeOk(f, ptr);
      assert f[ptr].par != NULL;
      var i := Sibling(mem, f, limbo, ptr);
      assert i == 0 && f[ptr].par == newCtx;
      assert NodeOk(f, newCtx);
      hide Tree, Represents, KidsLinked, RefsLinked;
      FirstWithout(f[newCtx].kids);
    }

    static lemma FirstWithout(s: seq<Ptr>)
      requires NoDup(s) && s != []
      ensures s == [s[0]] + Without(s, {s[0]})
    {
      WithoutOne(s, 0);
      assert s == [s[0]] + (s[..0] + s[1..]);
    }

    lemma FirstStaysNode(x: Ptr, ptr: Ptr, newCtx: Ptr)
      requires Tree(f) && ptr in f && newCtx in f && ptr != newCtx && x in f
      requires newCtx !in Below(f, {ptr}) && f[ptr].par == newCtx
      requires f[newCtx].kids == [ptr] + Without(f[newCtx].kids, {ptr})
      ensures Moved(f, ptr, newCtx)[x] == f[x]
    {
      assert NodeOk(f, x) && NodeOk(f, ptr);
      AncestorsExist(f, x);
      if x != newCtx {
        WithoutNone(f[x].kids, {ptr});
      }
      assert Detached(f, ptr)[newCtx].anc == f[newCtx].anc;
      CutFromBelow(ptr, newCtx);
      var d := Detached(f, ptr);
      assert x in Below(f, {ptr}) <==> x in Below(d, {ptr});
      if x in Below(f, {ptr}) {
        assert f[ptr].anc <= f[x].anc;
        assert (f[x].anc - f[ptr].anc) + {newCtx} + f[newCtx].anc == f[x].anc;
      }
      hide Without, NoDup, Tree;
    }

    /* ---- freeing ---- */

    /** Freeing the chunk will not be refused by a destructor. */
    static predicate Willing(c: Chunk) {
      c.destructor != Running && c.destructor != UserDestructor(-1)
    }

    /** The user gives a chunk, but no handle, another destructor or none. */
    method SetDestructor(ptr: Ptr, destructor: Destructor)
      requires Valid() && ptr in f && f[ptr].target == NULL && limbo == {}
      requires destructor.NoDestructor? || destructor.UserDestructor?
      modifies this`mem
      ensures Valid() && ptr in old(mem) && mem == old(mem)[ptr := old(mem)[ptr].(destructor := destructor)]
    {
      hide Tree, Represents;
      KeysAgree(ptr);
      mem := mem[ptr := mem[ptr].(destructor := destructor)];
      NewDestructor(old(mem), mem, ptr);
    }

    lemma NewDestructor(before: Heap, after: Heap, ptr: Ptr)
      requires Tree(f) && Represents(before, f, limbo) && ptr in f && ptr in before && f[ptr].target == NULL
      requires ptr in after && after == before[ptr := before[ptr].(destructor := after[ptr].destructor)]
      requires after[ptr].destructor.NoDestructor? || after[ptr].destructor.UserDestructor?
      ensures Represents(after, f, limbo)
    {
      forall x | x in f ensures ChunkOk(after, f, limbo, x) {
        assert ChunkOk(before, f, limbo, x);
        SameLinksKids(before, after, x, f[x].kids);
        forall i | 0 <= i < |f[x].refs| ensures HandleOk(after, f[x].refs, i) {
          assert HandleOk(before, f[x].refs, i);
        }
      }
      hide ChunkOk;
    }

    static ghost predicate WillingBelow(f: Forest, m: Heap, ptr: Ptr) {
      forall x :: x in Below(f, {ptr}) && x != ptr && x in m ==> Willing(m[x])
    }

    /** talloc_free may be asked to free ptr: see the README for what this leaves out. */
    ghost predicate Freeable(ptr: Ptr)
      reads this
    {
      && (ptr in limbo && ptr in f ==> f[ptr].refs == [])
      && (ptr !in limbo ==> OwnedOutside(f, {ptr}, limbo) && WillingBelow(f, mem, ptr))
    }

    /** The chunks that taking a handle off its list touches are all there and distinct. */
    static predicate HandleInList(m: Heap, h: Ptr) {
      && NULL !in m && h in m && m[h].target in m && m[h].target != h
      && var c := m[h];
         && (c.refNext != NULL ==> c.refNext in m && c.refNext != h && c.refNext != c.target && c.refNext != c.refPrev)
         && (c.refPrev != NULL ==> c.refPrev in m && c.refPrev != h)
         && (m[c.target].refs == h <==> c.refPrev == NULL)
    }

    method TakeOffList(h: Ptr)
      requires HandleInList(mem, h)
      modifies this`mem
      ensures RefRemoved(old(mem), mem, h) && mem[h].destructor == old(mem[h].destructor)
    {
      var x := mem[h].target;
      var next, prev := mem[h].refNext, mem[h].refPrev;
      if mem[x].refs == h {
        mem := mem[x := mem[x].(refs := next)];
        if next != NULL {
          mem := mem[next := mem[next].(refPrev := NULL)];
        }
      } else {
        mem := mem[prev := mem[prev].(refNext := next)];
        if next != NULL {
          mem := mem[next := mem[next].(refPrev := prev)];
        }
      }
      mem := mem[h := mem[h].(refNext := NULL, refPrev := NULL)];
    }

    /** The handle's destructor. */
    method RunHandleDestructor(h: Ptr)
      requires Valid() && h in f && f[h].target != NULL
      modifies this`mem, this`f
      ensures Valid() && f == Dropped(old(f), h) && OnlyDestructorOf(old(mem), mem, h)
      ensures mem[h].destructor == NoDestructor
    {
      hide KidsLinked, RefsLinked, Tree, Represents, RefRemoved, HandleInList, Dropped;
      InList(h);
      mem := mem[h := mem[h].(destructor := Running)];
      InListStill(old(mem), mem, h);
      TakeOffList(h);
      RemovedKeys(old(mem)[h := old(mem)[h].(destructor := Running)], mem, h);
      ghost var mid := mem;
      mem := mem[h := mem[h].(destructor := NoDestructor)];
      RemovedUpTo(old(mem), mid, mem, h);
      RefRemovedRepresents(old(mem), mem, f, limbo, h);
      DroppedTree(f, h);
      f := Dropped(f, h);
    }

    lemma InList(h: Ptr)
      requires Valid() && h in f && f[h].target != NULL
      ensures HandleInList(mem, h) && h in mem
    {
      var i := HandlePlace(mem, f, limbo, h);
      var x := f[h].target;
      var hs := f[x].refs;
      assert NodeOk(f, x) && HandleOk(mem, hs, i);
      if i > 0 { assert hs[i - 1] in hs && HandleOk(mem, hs, i - 1); }
      if i + 1 < |hs| { assert hs[i + 1] in hs && NodeOk(f, hs[i + 1]); }
    }

    static lemma InListStill(m: Heap, m2: Heap, h: Ptr)
      requires HandleInList(m, h) && h in m && m2 == m[h := m[h].(destructor := Running)]
      ensures HandleInList(m2, h)
    {
    }

    static lemma RemovedKeys(m: Heap, m2: Heap, h: Ptr)
      requires RefRemoved(m, m2, h)
      ensures h in m2 && m2.Keys == m.Keys
    {
    }

    static lemma RemovedUpTo(m: Heap, m2: Heap, m3: Heap, h: Ptr)
      requires h in m && h in m2 && RefRemoved(m[h := m[h].(destructor := Running)], m2, h)
      requires m3 == m2[h := m2[h].(destructor := NoDestructor)] && HandleInList(m, h)
      ensures RefRemoved(m, m3, h) && OnlyDestructorOf(m, m3, h)
    {
    }

    /** Sizes, and destructors but that of h, are as they were. */
    static predicate OnlyDestructorOf(m: Heap, m2: Heap, h: Ptr) {
      m2.Keys == m.Keys &&
      forall x :: x in m2 ==> m2[x].size == m[x].size && (x != h ==> m2[x].destructor == m[x].destructor)
    }

    /** What talloc_free did to the forest. */
    static ghost predicate FreeResult(f: Forest, g: Forest, ptr: Ptr)
      requires ptr in f
    {
      if f[ptr].refs != [] then Frees(f, g, {Newest(f, ptr)}, {})
      else Frees(f, g, Freed(f, {ptr}), Top(f, {ptr}))
    }

    method Free(ptr: Ptr) returns (rc: int)
      requires Valid() && (ptr != NULL ==> ptr in f && Freeable(ptr))
      modifies this
      ensures Valid() && limbo == old(limbo) && SameData(old(mem), mem)
      ensures ptr == NULL ==> rc == -1 && unchanged(this)
      ensures ptr != NULL ==>
        rc == if old(f[ptr].refs != [] || (ptr !in limbo && !Willing(mem[ptr]))) then -1 else 0
      ensures ptr != NULL && old(f[ptr].refs == [] && (ptr in limbo || !Willing(mem[ptr]))) ==>
        mem == old(mem) && f == old(f)
      ensures ptr != NULL && old(f[ptr].refs != [] || (ptr !in limbo && Willing(mem[ptr]))) ==>
        FreeResult(old(f), f, ptr)
      decreases if ptr in f && f[ptr].kids == [] && f[ptr].refs == [] then 0 else 1, Below(f, {ptr}), 1
    {
      hide Tree, Represents, Freed, Top, Frees, Below, OwnedOutside, Newest, NewOwner;
      if ptr == NULL {
        return -1;
      }
      RefsHead(ptr);
      if mem[ptr].refs != NULL {
        var h := mem[ptr].refs;
        HandleReady(ptr);
        var isChild := IsParent(h, ptr);
        // a reference from below its own target is outside this model
        assert !isChild;
        var freed := Free(h);
        return -1;
      }
      if mem[ptr].loop {
        return 0;
      }
      rc := FreeUnreferenced(ptr);
    }

    /** The rest of talloc_free: the destructor, the children, the chunk itself. */
    method FreeUnreferenced(ptr: Ptr) returns (rc: int)
      requires Valid() && ptr in f && ptr !in limbo && f[ptr].refs == [] && Freeable(ptr)
      modifies this
      ensures Valid() && limbo == old(limbo) && SameData(old(mem), mem)
      ensures rc == if old(Willing(mem[ptr])) then 0 else -1
      ensures rc == -1 ==> mem == old(mem) && f == old(f)
      ensures rc == 0 ==> Frees(old(f), f, Freed(old(f), {ptr}), Top(old(f), {ptr}))
      decreases if f[ptr].kids == [] then 0 else 1, Below(f, {ptr}), 0, 1
    {
      hide Tree, Represents, Freed, Top, Frees, Below, OwnedOutside, Midway, DestructorRan, Bypassed, Detached;
      ghost var f0, m0, lim := f, mem, limbo;
      KeysAgree(ptr);
      assert OwnedOutside(f, {ptr}, limbo);
      rc := RunDestructor(ptr);
      if rc == -1 {
        return;
      }
      ghost var a, m1 := f, mem;
      DestructorFrame(f0, a, ptr, lim);
      FreeStarts(a, ptr, lim);
      CutOff(ptr);
      CutOffFrame(f0, a, m0, m1, ptr);
      ghost var b, m2 := f, mem;
      FreeChildren(ptr);
      ghost var c, m3 := f, mem;
      assert (lim + {ptr}) - {ptr} == lim;
      FreeComplete(f0, a, b, c, ptr, lim);
      ReleaseChunk(ptr);
      FreeData(m0, m1, m2, m3, mem, ptr);
    }

    static lemma FreeData(m0: Heap, m1: Heap, m2: Heap, m3: Heap, m4: Heap, ptr: Ptr)
      requires OnlyDestructorOf(m0, m1, ptr) && SameData(m1, m2) && SameData(m2, m3) && SameData(m3, m4)
      requires ptr !in m4
      ensures SameData(m0, m4)
    {
    }

    lemma KeysAgree(ptr: Ptr)
      requires Valid() && ptr in f
      ensures ptr in mem && mem.Keys == f.Keys && ptr != NULL
    {
    }

    /** Runs the destructor of a chunk; -1 when the chunk must stay. */
    method RunDestructor(ptr: Ptr) returns (rc: int)
      requires Valid() && ptr in f && ptr in mem
      modifies this`mem, this`f
      ensures Valid() && OnlyDestructorOf(old(mem), mem, ptr) && ptr in mem
      ensures rc == if old(Willing(mem[ptr])) then 0 else -1
      ensures rc == -1 ==> mem == old(mem) && f == old(f)
      ensures rc == 0 ==> DestructorRan(old(f), f, ptr)
    {
      hide Tree, Represents;
      rc := 0;
      HandleOrNot(ptr);
      var d := mem[ptr].destructor;
      if d == Running {
        return -1;
      } else if d == HandleDestructor {
        RunHandleDestructor(ptr);
        KeysAgree(ptr);
      } else if d.UserDestructor? {
        mem := mem[ptr := mem[ptr].(destructor := Running)];
        if d.rc == -1 {
          mem := mem[ptr := mem[ptr].(destructor := d)];
          assert mem == old(mem);
          return -1;
        }
        mem := mem[ptr := mem[ptr].(destructor := NoDestructor)];
        DestructorSet(old(mem), mem, ptr);
      }
    }

    /** Unlinks the chunk and flags it. */
    method CutOff(ptr: Ptr)
      requires Valid() && ptr in f && ptr !in limbo
      modifies this
      ensures Valid() && f == Detached(old(f), ptr) && limbo == old(limbo) + {ptr} && SameData(old(mem), mem)
      ensures mem.Keys == old(mem.Keys)
    {
      hide Tree, Represents, Bypassed, Detached;
      Unlink(ptr);
      BypassKeeps(old(mem), mem, ptr);
      ghost var mid := mem;
      mem := mem[ptr := mem[ptr].(loop := true)];
      FlagRepresents(old(mem), mid, mem, ptr);
      f := Detached(f, ptr);
      limbo := limbo + {ptr};
    }

    method ReleaseChunk(ptr: Ptr)
      requires Valid() && ptr in f && f[ptr].par == NULL && f[ptr].kids == [] && f[ptr].refs == []
      requires f[ptr].target == NULL
      modifies this
      ensures Valid() && f == Removed(old(f), ptr) && limbo == old(limbo) - {ptr}
      ensures SameData(old(mem), mem) && ptr !in mem
    {
      RemovedRepresents(mem, f, limbo, ptr);
      RemovedTree(f, ptr);
      hide Tree, Represents;
      mem := mem - {ptr};
      f := Removed(f, ptr);
      limbo := limbo - {ptr};
    }

    /** Frees the children one by one; one that cannot be freed moves to the owner of the handle
        it was referenced by. */
    method FreeChildren(ptr: Ptr)
      requires Valid() && ptr in f && ptr in limbo
      requires Midway(f, f, ptr, {}, limbo - {ptr}) && WillingBelow(f, mem, ptr)
      modifies this
      ensures Valid() && limbo == old(limbo) && SameData(old(mem), mem)
      ensures Midway(old(f), f, ptr, Members(old(f)[ptr].kids), limbo - {ptr})
      ensures ptr in f && f[ptr].kids == []
      decreases if f[ptr].kids == [] then 0 else 1, Below(f, {ptr}), 0, 0
    {
      hide Midway, Tree, Represents, Freed, Top, Frees, Below, OwnedOutside;
      ghost var f0, lim := f, limbo - {ptr};
      ghost var done: set<Ptr> := {};
      KeysAgree(ptr);
      AtHead(ptr);
      KidsLeft(f0, f, ptr, done, lim);
      while mem[ptr].child != NULL
        invariant Valid() && limbo == old(limbo) && ptr in f && ptr in mem && SameData(old(mem), mem)
        invariant Midway(f0, f, ptr, done, lim) && done <= Members(f0[ptr].kids)
        invariant Members(f[ptr].kids) == Members(f0[ptr].kids) - done
        invariant mem[ptr].child == Nth(f[ptr].kids, 0) && (f[ptr].kids != [] ==> f[ptr].kids[0] != NULL)
        decreases Members(f0[ptr].kids) - done
      {
        var child := mem[ptr].child;
        ghost var g := f;
        ChildNext(f0, ptr, done, lim, child);
        WillingChild(f0, old(mem), ptr, child);
        ReleaseChild(child);
        OneMoreSibling(f0, g, f, ptr, done, lim, child);
        done := done + {child};
        KidsLeft(f0, f, ptr, done, lim);
        AtHead(ptr);
      }
      assert f[ptr].kids == [];
      assert Members(f0[ptr].kids) - done == {};
      assert done == Members(f0[ptr].kids);
    }

    /** One turn of the loop over the children. */
    method ReleaseChild(child: Ptr)
      requires Valid() && child in f && child !in limbo && Freeable(child) && child in mem && Willing(mem[child])
      modifies this
      ensures Valid() && limbo == old(limbo) && SameData(old(mem), mem)
      ensures Frees(old(f), f, Freed(old(f), {child}), Top(old(f), {child}))
      decreases if f[child].kids == [] && f[child].refs == [] then 0 else 1, Below(f, {child}), 2, 0
    {
      hide Tree, Represents, Freed, Top, Frees, Below, OwnedOutside, Newest, NewOwner;
      ghost var f0 := f;
      assert OwnedOutside(f, {child}, limbo);
      KeysAgree(child);
      RefsHead(child);
      var newParent := NULL;
      if mem[child].refs != NULL {
        HandleReady(child);
        var p := ParentChunk(mem[child].refs);
        if p != NULL {
          newParent := p;
        }
      }
      var rc := Free(child);
      if rc == -1 {
        // the owner is a chunk, so the parent of the freed chunk is never needed
        MoveReady(f0, f, child, limbo);
        ghost var g := f;
        Steal(newParent, child);
        MovedChild(f0, g, child);
      }
    }

    /* ---- allocating and referencing ---- */

    /** A fresh address, holding the given chunk. */
    method Malloc(chunk: Chunk) returns (p: Ptr)
      modifies this`mem
      ensures p != NULL && p !in old(mem) && mem == old(mem)[p := chunk]
    {
      FreshAddress(mem.Keys);
      p :| p != NULL && p !in mem;
      mem := mem[p := chunk];
    }

    /** A new chunk below the context, or a root. */
    static ghost function Allocated(f: Forest, p: Ptr, context: Ptr): Forest
      requires context == NULL || context in f
    {
      if context == NULL then Created(f, p) else Attached(Created(f, p), p, context)
    }

    /** p is new, without children or references, and the first child of the context, or a root; all
        else is as it was. */
    static ghost predicate NewBelow(f: Forest, g: Forest, p: Ptr, context: Ptr) {
      && p !in f && g.Keys == f.Keys + {p}
      && g[p].par == context && g[p].kids == [] && g[p].refs == [] && g[p].target == NULL
      && forall x :: x in f ==>
           && g[x].par == f[x].par && g[x].refs == f[x].refs && g[x].target == f[x].target
           && g[x].kids == (if x == context then [p] else []) + f[x].kids
    }

    static lemma AllocatedBelow(f: Forest, p: Ptr, context: Ptr)
      requires p !in f && NULL !in f && (context == NULL || context in f)
      ensures NewBelow(f, Allocated(f, p, context), p, context)
    {
      hide Below;
    }

    /** h is a new handle of ptr, its newest, below the context; all else is as it was. */
    static ghost predicate HandleBelow(f: Forest, g: Forest, h: Ptr, context: Ptr, ptr: Ptr) {
      && h !in f && g.Keys == f.Keys + {h}
      && g[h].par == context && g[h].kids == [] && g[h].refs == [] && g[h].target == ptr
      && forall x :: x in f ==>
           && g[x].par == f[x].par && g[x].target == f[x].target
           && g[x].kids == (if x == context then [h] else []) + f[x].kids
           && g[x].refs == (if x == ptr then [h] else []) + f[x].refs
    }

    static lemma ReferencedBelow(f: Forest, g: Forest, h: Ptr, context: Ptr, ptr: Ptr)
      requires NewBelow(f, g, h, context) && ptr in f
      ensures HandleBelow(f, Referenced(g, h, ptr), h, context, ptr)
    {
    }

    method Alloc(context: Ptr, size: nat) returns (p: Ptr)
      requires Valid() && (context != NULL ==> context in f && f[context].target == NULL)
      requires limbo == {}
      modifies this`mem, this`f
      ensures Valid() && (p == NULL <==> size >= MAX_TALLOC_SIZE)
      ensures p == NULL ==> mem == old(mem) && f == old(f)
      ensures p != NULL ==>
        && p !in old(f) && f == Allocated(old(f), p, context)
        && p in mem && mem[p].size == size && mem[p].destructor == NoDestructor
      ensures Kept(old(mem), mem)
      ensures p != NULL ==> NewBelow(old(f), f, p, context)
    {
      hide Tree, Represents, Attached, Hooked, NewBelow;
      if size >= MAX_TALLOC_SIZE {
        return NULL;
      }
      KeysSame();
      p := Malloc(Chunk(NULL, NULL, NULL, NULL, NULL, NULL, NULL, NULL, NoDestructor, size, false));
      AllocatedBelow(f, p, context);
      CreatedRepresents(old(mem), f, limbo, p, mem[p]);
      CreatedTree(f, p);
      f := Created(f, p);
      if context != NULL {
        NewIsApart(old(f), p, context);
        AdoptReady(mem, f, p, context);
        ghost var before := mem;
        assert before == mem[p := mem[p].(next := NULL, prev := NULL, parent := NULL)];
        LinkFirst(p, context, before);
        HookRepresents(before, mem, f, limbo, p, context);
        HookFacts(before, mem, p, context);
        AttachedTree(f, p, context);
        f := Attached(f, p, context);
      }
    }

    lemma KeysSame()
      requires Valid()
      ensures mem.Keys == f.Keys && NULL !in f
    {
    }

    static lemma NewIsApart(f: Forest, p: Ptr, context: Ptr)
      requires Tree(f) && p !in f && p != NULL && context in f
      ensures context in Created(f, p) && context !in Below(Created(f, p), {p})
      ensures Created(f, p)[context].target == f[context].target && Created(f, p)[p].par == NULL
    {
      AncestorsExist(f, context);
    }

    static lemma HookFacts(m: Heap, m2: Heap, c: Ptr, o: Ptr)
      requires Hooked(m, m2, c, o)
      ensures Kept(m, m2)
    {
    }

    /** A handle for ptr, owned by the context, becomes the newest reference to ptr. */
    method Reference(context: Ptr, ptr: Ptr) returns (h: Ptr)
      requires Valid() && ptr in f && f[ptr].target == NULL && limbo == {}
      requires context != NULL ==> context in f && f[context].target == NULL
      modifies this`mem, this`f
      ensures Valid() && h != NULL && h !in old(f)
      ensures f == Referenced(Allocated(old(f), h, context), h, ptr) && HandleBelow(old(f), f, h, context, ptr)
      ensures Kept(old(mem), mem) && h in mem && mem[h].size == HANDLE_SIZE && mem[h].destructor == HandleDestructor
    {
      hide Tree, Represents, Referenced, RefAdded, NewBelow, HandleBelow, Below, Kept, SameSize, Allocated;
      KeysSame();
      h := Alloc(context, HANDLE_SIZE);
      ReferencedBelow(old(f), f, h, context, ptr);
      ghost var before := mem;
      NewIsLeaf(old(f), h, context, ptr);
      KeysSame();
      RefsHead(ptr);
      AddReference(h, ptr);
      KeptTwice(old(mem), before, mem, h);
      RefAddedRepresents(before, mem, f, limbo, h, ptr);
      ReferencedTree(f, h, ptr);
      f := Referenced(f, h, ptr);
    }

    static lemma KeptTwice(m: Heap, m1: Heap, m2: Heap, h: Ptr)
      requires Kept(m, m1) && h !in m && forall x :: x in m1 && x != h ==> x in m2 && SameSize(m1[x], m2[x])
      ensures Kept(m, m2)
    {
    }

    static lemma NewIsLeaf(f: Forest, h: Ptr, context: Ptr, ptr: Ptr)
      requires Tree(f) && h !in f && ptr in f && (context != NULL ==> context in f) && h != NULL
      ensures var g := Allocated(f, h, context);
              && h in g && ptr in g && h != ptr && g[h].target == NULL && g[h].kids == [] && g[h].refs == []
              && g[ptr].target == f[ptr].target && g[ptr].refs == f[ptr].refs
    {
      hide Below, Tree;
    }

    method AddReference(h: Ptr, ptr: Ptr)
      requires h in mem && ptr in mem && h != ptr && mem[ptr].refs != h && NULL !in mem
      requires mem[ptr].refs != NULL ==> mem[ptr].refs in mem
      modifies this`mem
      ensures RefAdded(old(mem), mem, h, ptr)
      ensures forall x :: x in old(mem) && x != h ==> x in mem && SameSize(old(mem)[x], mem[x])
      ensures h in mem && mem[h].size == old(mem)[h].size && mem[h].destructor == HandleDestructor
    {
      mem := mem[h := mem[h].(destructor := HandleDestructor)];
      mem := mem[h := mem[h].(target := ptr)];
      var first := mem[ptr].refs;
      if first == NULL {
        mem := mem[ptr := mem[ptr].(refs := h)];
        mem := mem[h := mem[h].(refNext := NULL, refPrev := NULL)];
      } else {
        mem := mem[first := mem[first].(refPrev := h)];
        mem := mem[h := mem[h].(refNext := first, refPrev := NULL)];
        mem := mem[ptr := mem[ptr].(refs := h)];
      }
    }

    /* ---- taking references back ---- */

    method Unreference(context: Ptr, ptr: Ptr) returns (rc: int)
      requires Valid() && limbo == {} && ptr in f
      modifies this
      ensures Valid() && limbo == {} && SameData(old(mem), mem)
      ensures var h := HandleOf(old(f), context, old(f[ptr].refs));
              if h == NULL then rc == -1 && mem == old(mem) && f == old(f)
              else rc == 0 && Frees(old(f), f, {h}, {})
    {
      hide Tree, Represents, Frees, Freed, Top, Below, OwnedOutside;
      KeysAgree(ptr);
      RefsHead(ptr);
      ghost var hs, i := f[ptr].refs, 0;
      var h := mem[ptr].refs;
      while h != NULL
        invariant 0 <= i <= |hs| && h == Nth(hs, i) && (i < |hs| ==> h != NULL)
        invariant HandleOf(f, context, hs) == HandleOf(f, context, hs[i..])
        invariant Valid() && mem == old(mem) && f == old(f) && limbo == {}
        decreases |hs| - i
      {
        HandleAt(ptr, i);
        var p := ParentChunk(h);
        if p == context {
          break;
        }
        assert hs[i..][1..] == hs[i + 1..];
        h := mem[h].refNext;
        i := i + 1;
        if i < |hs| {
          HandleAt(ptr, i);
        }
      }
      if h == NULL {
        assert hs[i..] == [];
        return -1;
      }
      rc := Free(h);
    }

    method UnlinkFrom(context: Ptr, ptr: Ptr) returns (rc: int)
      requires Valid() && limbo == {} && (ptr != NULL ==> ptr in f)
      requires ptr != NULL ==> forall h :: h in f[ptr].refs ==> OwnerOf(f, h) !in Below(f, {ptr})
      requires ptr != NULL && f[ptr].refs == [] ==> Freeable(ptr)
      modifies this
      ensures Valid() && limbo == {} && SameData(old(mem), mem)
      ensures ptr == NULL ==> rc == -1
      ensures ptr != NULL ==>
        rc == if context in old(Owners(f, ptr)) && old(f[ptr].refs != [] || Willing(mem[ptr])) then 0 else -1
      ensures rc == -1 ==> mem == old(mem) && f == old(f)
      ensures rc == 0 ==> Unlinked(old(f), f, ptr, context)
    {
      hide Tree, Represents, Frees, Freed, Top, Below, OwnedOutside, Owners, HandleOf, HandleOwners, Unlinked, Moved;
      if ptr == NULL {
        return -1;
      }
      ghost var f0 := f;
      KeysAgree(ptr);
      RefsHead(ptr);
      OwnerCases(context, ptr);
      rc := Unreference(context, ptr);
      if rc == 0 {
        UnlinkedByHandle(f0, f, ptr, context, HandleOf(f0, context, f0[ptr].refs));
        return;
      }
      var p := ParentChunk(ptr);
      if p != context {
        return -1;
      }
      if mem[ptr].refs == NULL {
        rc := Free(ptr);
        if rc == 0 {
          LastOwner(f0, f, ptr, context);
        }
        return;
      }
      assert mem[ptr].refs in f[ptr].refs;
      HandleAt(ptr, 0);
      var newParent := ParentChunk(mem[ptr].refs);
      NewestIsFirst(f, ptr);
      rc := Unreference(newParent, ptr);
      ghost var g := f;
      MoveReadyAny(f0, g, ptr);
      Steal(newParent, ptr);
      MovedNodes(g, ptr, newParent);
      UnlinkedByParent(f0, g, f, ptr);
    }

    lemma OwnerCases(context: Ptr, ptr: Ptr)
      requires Valid() && ptr in f
      ensures var h := HandleOf(f, context, f[ptr].refs);
              && (context in Owners(f, ptr) <==> context == f[ptr].par || h != NULL)
              && (h != NULL ==> h in f[ptr].refs && OwnerOf(f, h) == context)
    {
      assert NodeOk(f, ptr);
      HandleOfOwner(f, context, f[ptr].refs);
    }

    static lemma LastOwner(f0: Forest, g: Forest, ptr: Ptr, context: Ptr)
      requires Tree(f0) && ptr in f0 && f0[ptr].refs == [] && f0[ptr].par == context
      requires Frees(f0, g, Freed(f0, {ptr}), Top(f0, {ptr}))
      ensures Unlinked(f0, g, ptr, context)
    {
      NoOwnersLeft(f0, ptr, context);
      FreedOfKids(f0, ptr);
      hide Tree, Freed, Top;
    }

    static lemma MovedNodes(g: Forest, ptr: Ptr, newCtx: Ptr)
      requires ptr in g && newCtx != ptr && (newCtx == NULL || newCtx in g)
      ensures Moved(g, ptr, newCtx).Keys == g.Keys
      ensures forall y :: y in g ==>
        && Moved(g, ptr, newCtx)[y].par == (if y == ptr then newCtx else g[y].par)
        && Moved(g, ptr, newCtx)[y].refs == g[y].refs && Moved(g, ptr, newCtx)[y].target == g[y].target
    {
      hide Below, Without;
    }

    lemma HandleAt(ptr: Ptr, i: nat)
      requires Valid() && limbo == {} && ptr in f && i < |f[ptr].refs|
      ensures var h := f[ptr].refs[i];
              && h in f && h in mem && h != NULL && h != ptr && mem[h].refNext == Nth(f[ptr].refs, i + 1)
              && f[h].kids == [] && f[h].refs == [] && Freeable(h) && Willing(mem[h])
              && Freed(f, {h}) == {h} && Top(f, {h}) == {}
    {
      hide Tree, Represents, Freed, Top, Below;
      var h := f[ptr].refs[i];
      HandleOfTarget(ptr, i);
      HandleIsFreed(f, h);
      KeysAgree(h);
    }

    lemma HandleOfTarget(ptr: Ptr, i: nat)
      requires Valid() && limbo == {} && ptr in f && i < |f[ptr].refs|
      ensures var h := f[ptr].refs[i];
              && h in f && h in mem && h != NULL && h != ptr && mem[h].refNext == Nth(f[ptr].refs, i + 1)
              && f[h].kids == [] && f[h].refs == [] && mem[h].destructor == HandleDestructor
    {
      var h := f[ptr].refs[i];
      assert h in f[ptr].refs && NodeOk(f, ptr) && ChunkOk(mem, f, limbo, ptr) && HandleOk(mem, f[ptr].refs, i);
      assert NodeOk(f, h) && ChunkOk(mem, f, limbo, h);
      hide Tree, Represents, KidsLinked, RefsLinked;
    }

    /* ---- reallocating ---- */

    /** The forest with ptr at its new address, or the same one if it stayed. */
    static ghost function Reallocated(f: Forest, ptr: Ptr, p: Ptr): Forest
      requires ptr in f && (p != ptr ==> p !in f)
    {
      if p == ptr then f else Renamed(f, ptr, p)
    }

    /** g is f with p for ptr. */
    static ghost predicate SameShape(f: Forest, g: Forest, ptr: Ptr, p: Ptr) {
      && g.Keys == f.Keys - {ptr} + {p}
      && forall x :: x in f ==>
           var n := g[if x == ptr then p else x];
           && n.par == (if f[x].par == ptr then p else f[x].par) && n.refs == f[x].refs && n.target == f[x].target
           && |n.kids| == |f[x].kids|
           && forall i :: 0 <= i < |n.kids| ==> n.kids[i] == if f[x].kids[i] == ptr then p else f[x].kids[i]
    }

    static lemma ReallocatedShape(f: Forest, ptr: Ptr, p: Ptr)
      requires ptr in f && (p != ptr ==> p !in f) && NULL !in f
      ensures SameShape(f, Reallocated(f, ptr, p), ptr, p)
    {
    }

    method Realloc(context: Ptr, ptr: Ptr, size: nat) returns (p: Ptr)
      requires Valid() && limbo == {} && (context != NULL ==> context in f && f[context].target == NULL)
      requires ptr != NULL ==> ptr in f && f[ptr].target == NULL && (size == 0 ==> Freeable(ptr))
      modifies this
      ensures Valid() && limbo == {}
      ensures size == 0 && ptr != NULL && old(f[ptr].refs == [] && Willing(mem[ptr])) ==>
        p == NULL && Frees(old(f), f, Freed(old(f), {ptr}), Top(old(f), {ptr}))
      ensures size == 0 && ptr != NULL && old(f[ptr].refs != []) ==>
        p == NULL && Frees(old(f), f, {Newest(old(f), ptr)}, {})
      ensures size == 0 && (ptr == NULL || old(f[ptr].refs == [] && !Willing(mem[ptr]))) ==>
        p == NULL && mem == old(mem) && f == old(f)
      ensures size >= MAX_TALLOC_SIZE || (size != 0 && ptr != NULL && old(f[ptr].refs != [])) ==>
        p == NULL && mem == old(mem) && f == old(f)
      ensures 0 < size < MAX_TALLOC_SIZE && ptr == NULL ==>
        && p != NULL && p !in old(f) && f == Allocated(old(f), p, context) && NewBelow(old(f), f, p, context)
        && p in mem && mem[p].size == size && mem[p].destructor == NoDestructor
        && Kept(old(mem), mem)
      ensures size == 0 ==> SameData(old(mem), mem)
      ensures 0 < size < MAX_TALLOC_SIZE && ptr != NULL && old(f[ptr].refs == []) ==>
        && p != NULL && (p != ptr ==> p !in old(f)) && f == Reallocated(old(f), ptr, p)
        && SameShape(old(f), f, ptr, p)
        && p in mem && mem[p].size == size && mem[p].destructor == old(mem[ptr].destructor)
        && forall x :: x in old(mem) && x != ptr ==> x in mem && SameSize(old(mem)[x], mem[x])
    {
      hide Tree, Represents, Freed, Top, Frees, Below, OwnedOutside, Renamed, Relocated, Attached, SameShape, NewBelow;
      if size == 0 {
        if ptr != NULL {
          assert ptr !in limbo;
        }
        var rc := Free(ptr);
        return NULL;
      }
      if size >= MAX_TALLOC_SIZE {
        return NULL;
      }
      if ptr == NULL {
        p := Alloc(context, size);
        return;
      }
      KeysAgree(ptr);
      KeysSame();
      RefsHead(ptr);
      if mem[ptr].refs != NULL {
        return NULL;
      }
      var stays: bool := *;
      if stays {
        p := ptr;
        mem := mem[ptr := mem[ptr].(size := size)];
        Resized(old(mem), mem, ptr);
      } else {
        p := Move(ptr, size);
      }
      ReallocatedShape(old(f), ptr, p);
    }

    /** Every chunk is still there with its size and destructor. */
    static predicate Kept(m: Heap, m2: Heap) {
      forall x :: x in m ==> x in m2 && SameSize(m[x], m2[x])
    }

    static predicate SameSize(a: Chunk, b: Chunk) {
      b.size == a.size && b.destructor == a.destructor
    }

    /** The chunk is copied to a fresh address and its neighbours are told. */
    method Move(ptr: Ptr, size: nat) returns (p: Ptr)
      requires Valid() && limbo == {} && ptr in f && f[ptr].target == NULL && f[ptr].refs == []
      modifies this`mem, this`f
      ensures Valid() && p != NULL && p !in old(f) && f == Renamed(old(f), ptr, p)
      ensures p in mem && mem[p].size == size && mem[p].destructor == old(mem[ptr].destructor)
      ensures forall x :: x in old(mem) && x != ptr ==> x in mem && SameSize(old(mem)[x], mem[x])
    {
      hide Tree, Represents, Renamed, Relocated;
      KeysAgree(ptr);
      p := Malloc(mem[ptr]);
      mem := mem - {ptr};
      assert mem == old(mem)[p := old(mem)[ptr]] - {ptr};
      Redirect(ptr, p, old(mem));
      ghost var mid := mem;
      mem := mem[p := mem[p].(size := size)];
      RedirectedSize(old(mem), mid, mem, ptr, p, size);
      RelocatedRepresents(old(mem), mem, f, ptr, p);
      RenamedTree(f, ptr, p);
      f := Renamed(f, ptr, p);
    }

    method Redirect(ptr: Ptr, p: Ptr, ghost before: Heap)
      requires Tree(f) && Represents(before, f, {}) && ptr in f && ptr in before && p !in before && p != NULL
      requires mem == before[p := before[ptr]] - {ptr}
      modifies this`mem
      ensures p in mem && Relocated(before, mem, ptr, p) && mem[p] == before[ptr]
    {
      Surroundings(before, ptr);
      hide Tree, Represents;
      var tc := mem[p];
      ghost var m0 := mem;
      assert tc == before[ptr];
      RedirectEnds(p, tc);
      ghost var m1 := mem;
      RedirectSides(p, tc);
      AllTold(before, m0, m1, mem, ptr, p);
    }

    static predicate EndsTold(m: Heap, m2: Heap, p: Ptr, tc: Chunk) {
      m2.Keys == m.Keys &&
      forall y :: y in m ==>
        m2[y] == m[y].(child := if y == tc.parent then p else m[y].child,
                       parent := if y == tc.child then p else m[y].parent)
    }

    static predicate SidesTold(m: Heap, m2: Heap, p: Ptr, tc: Chunk) {
      m2.Keys == m.Keys &&
      forall y :: y in m ==>
        m2[y] == m[y].(next := if y == tc.prev then p else m[y].next,
                       prev := if y == tc.next then p else m[y].prev)
    }

    static lemma AllTold(before: Heap, m0: Heap, m1: Heap, m2: Heap, ptr: Ptr, p: Ptr)
      requires ptr in before && p !in before && m0 == before[p := before[ptr]] - {ptr}
      requires EndsTold(m0, m1, p, before[ptr]) && SidesTold(m1, m2, p, before[ptr])
      requires var c := before[ptr]; c.parent != p && c.child != p && c.next != p && c.prev != p
      ensures p in m2 && Relocated(before, m2, ptr, p) && m2[p] == before[ptr]
    {
      assert m2.Keys == (before.Keys - {ptr}) + {p};
      forall y | y in before && y != ptr ensures y in m0 && y in m1 && y in m2 && m0[y] == before[y] {
      }
    }

    method RedirectEnds(p: Ptr, tc: Chunk)
      requires tc.parent != NULL ==> tc.parent in mem && tc.parent != p
      requires tc.child != NULL ==> tc.child in mem && tc.child != p && tc.child != tc.parent
      requires NULL !in mem
      modifies this`mem
      ensures EndsTold(old(mem), mem, p, tc)
    {
      if tc.parent != NULL {
        mem := mem[tc.parent := mem[tc.parent].(child := p)];
      }
      if tc.child != NULL {
        mem := mem[tc.child := mem[tc.child].(parent := p)];
      }
    }

    method RedirectSides(p: Ptr, tc: Chunk)
      requires tc.prev != NULL ==> tc.prev in mem && tc.prev != p && tc.prev != tc.next
      requires tc.next != NULL ==> tc.next in mem && tc.next != p
      requires NULL !in mem
      modifies this`mem
      ensures SidesTold(old(mem), mem, p, tc)
    {
      if tc.prev != NULL {
        mem := mem[tc.prev := mem[tc.prev].(next := p)];
      }
      if tc.next != NULL {
        mem := mem[tc.next := mem[tc.next].(prev := p)];
      }
    }

    /** The chunks that moving a chunk touches are all there and distinct. */
    lemma Surroundings(m: Heap, ptr: Ptr)
      requires Tree(f) && Represents(m, f, {}) && ptr in f
      ensures NULL !in m && ptr in m && var c := m[ptr];
        && (c.parent != NULL ==> c.parent in m && c.parent != ptr)
        && (c.child != NULL ==> c.child in m && c.child != ptr && c.child != c.parent)
        && (c.prev != NULL ==> c.prev in m && c.prev != ptr && c.prev != c.child && c.parent == NULL)
        && (c.next != NULL ==> c.next in m && c.next != ptr && c.next != c.child && c.next != c.parent)
        && (c.prev != NULL ==> c.prev != c.next)
    {
      assert NodeOk(f, ptr) && ChunkOk(m, f, {}, ptr);
      FirstChild(m, f, {}, ptr);
      if f[ptr].par in f {
        assert NodeOk(f, f[ptr].par);
        var i := Sibling(m, f, {}, ptr);
        SiblingNeighbours(m, f, {}, ptr, i);
      }
    }

    static lemma RedirectedSize(m: Heap, mid: Heap, m2: Heap, ptr: Ptr, p: Ptr, size: nat)
      requires Relocated(m, mid, ptr, p) && ptr in m && p in mid && mid[p] == m[ptr]
      requires m2 == mid[p := mid[p].(size := size)]
      ensures Relocated(m, m2, ptr, p)
      ensures forall x :: x in m && x != ptr ==> x in m2 && SameSize(m[x], m2[x])
    {
    }

    lemma Resized(before: Heap, after: Heap, ptr: Ptr)
      requires Tree(f) && Represents(before, f, limbo) && ptr in f && ptr in before
      requires after.Keys == before.Keys && after[ptr] == before[ptr].(size := after[ptr].size)
      requires forall x :: x in before && x != ptr ==> after[x] == before[x]
      ensures Represents(after, f, limbo)
    {
      forall x | x in f ensures ChunkOk(after, f, limbo, x) {
        assert ChunkOk(before, f, limbo, x);
        SameLinksKids(before, after, x, f[x].kids);
        forall i | 0 <= i < |f[x].refs| ensures HandleOk(after, f[x].refs, i) {
          assert HandleOk(before, f[x].refs, i);
        }
      }
      hide ChunkOk;
    }

    /* ---- measuring ---- */

    /** The sizes at or below ptr, added up; the flags are as before, and ptr in a traversal
        already under way counts for nothing. */
    method Total(ptr: Ptr) returns (total: nat)
      requires Tree(f) && Represents(Unflagged(mem), f, {}) && (ptr != NULL ==> ptr in f && ptr in mem)
      requires ptr != NULL && !mem[ptr].loop ==> forall x :: x in Below(f, {ptr}) && x in mem ==> !mem[x].loop
      modifies this`mem
      ensures mem == old(mem) && mem.Keys == f.Keys
      ensures total == if ptr == NULL || mem[ptr].loop then 0 else SizeSum(mem, Below(f, {ptr}))
      decreases Below(f, {ptr})
    {
      hide Tree, Represents, Below, KidsLinked;
      total := 0;
      ghost var m0 := mem;
      UnflaggedKeys();
      if ptr == NULL || mem[ptr].loop {
        return;
      }
      mem := mem[ptr := mem[ptr].(loop := true)];
      assert Unflagged(mem) == Unflagged(m0);
      ghost var kids, i := f[ptr].kids, 0;
      total := mem[ptr].size;
      var c := mem[ptr].child;
      SizeStarts(m0, f, ptr);
      Children(ptr);
      assert kids[..0] == [] && Members([]) == {};
      while c != NULL
        invariant 0 <= i <= |kids| && c == Nth(kids, i) && mem == m0[ptr := m0[ptr].(loop := true)]
        invariant total == m0[ptr].size + SizeSum(m0, Below(f, Members(kids[..i])))
        decreases |kids| - i
      {
        ChildReady(m0, ptr, i);
        var t := Total(c);
        SizeSumSame(m0, mem, Below(f, {c}));
        SizeGrows(m0, f, ptr, i);
        total := total + t;
        c := mem[c].next;
        i := i + 1;
      }
      assert i == |kids| && kids[..i] == kids;
      mem := mem[ptr := mem[ptr].(loop := false)];
      assert mem == m0;
    }

    lemma UnflaggedKeys()
      requires Represents(Unflagged(mem), f, {})
      ensures mem.Keys == f.Keys && forall s: set<Ptr> :: Below(f, s) <= f.Keys
    {
      assert Unflagged(mem).Keys == mem.Keys;
    }

    lemma Children(ptr: Ptr)
      requires Tree(f) && Represents(Unflagged(mem), f, {}) && ptr in f && ptr in mem
      ensures mem[ptr].child == Nth(f[ptr].kids, 0) && NULL !in f
      ensures forall i :: 0 <= i < |f[ptr].kids| ==> f[ptr].kids[i] != NULL
    {
      FirstChild(Unflagged(mem), f, {}, ptr);
      assert NodeOk(f, ptr);
    }

    lemma ChildReady(m0: Heap, ptr: Ptr, i: nat)
      requires Tree(f) && Represents(Unflagged(m0), f, {}) && ptr in f && ptr in m0 && m0.Keys == f.Keys
      requires mem == m0[ptr := m0[ptr].(loop := true)] && i < |f[ptr].kids|
      requires !m0[ptr].loop && forall x :: x in Below(f, {ptr}) && x in m0 ==> !m0[x].loop
      ensures Represents(Unflagged(mem), f, {})
      ensures var c := f[ptr].kids[i];
              && c in f && c in mem && c != NULL && !mem[c].loop && mem[c].next == Nth(f[ptr].kids, i + 1)
              && Below(f, {c}) < Below(f, {ptr}) && Below(f, {c}) <= m0.Keys && Below(f, {c}) <= mem.Keys
              && forall x :: x in Below(f, {c}) && x in mem ==> !mem[x].loop
    {
      var c := f[ptr].kids[i];
      assert Unflagged(mem) == Unflagged(m0);
      assert c in f[ptr].kids && NodeOk(f, ptr) && ChunkOk(Unflagged(m0), f, {}, ptr);
      assert SiblingOk(Unflagged(m0), ptr, f[ptr].kids, i);
      KidStrictlyBelow(f, ptr, c);
      assert c in Below(f, {c});
    }

    /* ---- facts the methods above need ---- */

    lemma RefsHead(ptr: Ptr)
      requires Valid() && ptr in f
      ensures ptr in mem && (mem[ptr].refs != NULL <==> f[ptr].refs != [])
      ensures f[ptr].refs != [] ==>
        mem[ptr].refs == Newest(f, ptr) && mem[ptr].refs in f && f[mem[ptr].refs].target == ptr
      ensures mem[ptr].loop <==> ptr in limbo
    {
      assert ChunkOk(mem, f, limbo, ptr) && NodeOk(f, ptr);
      if f[ptr].refs != [] {
        assert f[ptr].refs[0] in f[ptr].refs;
      }
    }

    lemma HandleReady(ptr: Ptr)
      requires Valid() && ptr in f && ptr !in limbo && f[ptr].refs != [] && Freeable(ptr)
      ensures var h := Newest(f, ptr);
              && h in f && h != NULL && h !in limbo && ({h} + f[h].anc) !! limbo && Freeable(h)
              && f[h].kids == [] && f[h].refs == [] && h in mem && Willing(mem[h])
              && ptr !in {h} + f[h].anc && f[h].par == NewOwner(f, ptr)
              && Freed(f, {h}) == {h} && Top(f, {h}) == {}
    {
      var h := Newest(f, ptr);
      NewestHandle(f, ptr, limbo);
      HandleIsFreed(f, h);
      assert ChunkOk(mem, f, limbo, h) && NodeOk(f, h);
      hide Tree, Represents, KidsLinked, RefsLinked, Freed, Top;
    }

    lemma AtHead(ptr: Ptr)
      requires Valid() && ptr in f
      ensures ptr in mem && mem[ptr].child == Nth(f[ptr].kids, 0)
      ensures f[ptr].kids != [] ==> f[ptr].kids[0] != NULL
    {
      FirstChild(mem, f, limbo, ptr);
    }

    lemma HandleOrNot(ptr: Ptr)
      requires Valid() && ptr in f && ptr in mem
      ensures mem[ptr].destructor == HandleDestructor <==> f[ptr].target != NULL
    {
      assert ChunkOk(mem, f, limbo, ptr);
    }

    lemma DestructorSet(before: Heap, after: Heap, ptr: Ptr)
      requires Tree(f) && Represents(before, f, limbo) && ptr in f && f[ptr].target == NULL && ptr in before
      requires after == before[ptr := before[ptr].(destructor := NoDestructor)]
      ensures Represents(after, f, limbo)
    {
      forall x | x in f ensures ChunkOk(after, f, limbo, x) {
        assert ChunkOk(before, f, limbo, x);
        SameLinksKids(before, after, x, f[x].kids);
        forall i | 0 <= i < |f[x].refs| ensures HandleOk(after, f[x].refs, i) {
          assert HandleOk(before, f[x].refs, i);
        }
      }
      hide ChunkOk;
    }

    lemma FlagRepresents(before: Heap, mid: Heap, after: Heap, ptr: Ptr)
      requires Tree(f) && Represents(before, f, limbo) && ptr in f && ptr !in limbo && Bypassed(before, mid, ptr)
      requires ptr in mid && after == mid[ptr := mid[ptr].(loop := true)]
      ensures Tree(Detached(f, ptr)) && Represents(after, Detached(f, ptr), limbo + {ptr})
      ensures SameData(before, after) && after.Keys == before.Keys
    {
      hide Tree, Represents, Bypassed, Detached, RootOk;
      assert (limbo + {ptr}) - {ptr} == limbo;
      FlagBypasses(before, mid, after, ptr);
      FlaggedRoot(f, after, limbo, ptr);
      BypassRepresents(before, after, f, limbo, limbo + {ptr}, ptr);
      DetachedTree(f, ptr);
    }

    static lemma FlagBypasses(before: Heap, mid: Heap, after: Heap, ptr: Ptr)
      requires ptr in mid && Bypassed(before, mid, ptr) && after == mid[ptr := mid[ptr].(loop := true)]
      ensures Bypassed(before, after, ptr) && ptr in after && after[ptr].loop
      ensures SameData(before, after) && after.Keys == before.Keys
    {
    }

    static lemma FlaggedRoot(f: Forest, m: Heap, limbo: set<Ptr>, ptr: Ptr)
      requires ptr in f && ptr in m && m[ptr].loop
      ensures ptr in Detached(f, ptr) && RootOk(m, Detached(f, ptr), limbo + {ptr}, ptr)
    {
      hide Below, Without;
    }

    lemma ChildNext(f0: Forest, ptr: Ptr, done: set<Ptr>, lim: set<Ptr>, child: Ptr)
      requires Valid() && ptr in limbo && lim == limbo - {ptr} && Midway(f0, f, ptr, done, lim)
      requires ptr in f && f[ptr].kids != [] && child == f[ptr].kids[0] && ptr in f0
      requires Members(f[ptr].kids) == Members(f0[ptr].kids) - done
      ensures child in f0[ptr].kids && child !in done && child in f && child !in limbo && child in mem
      ensures OwnedOutside(f, {child}, limbo) && ptr !in Below(f, {child}) && child != ptr
      ensures Below(f, {child}) == Below(f0, {child}) && Below(f, {child}) < Below(f0, {ptr})
    {
      hide Midway, Tree, Represents, Below, OwnedOutside;
      assert child in Members(f[ptr].kids);
      SiblingThere(f0, f, ptr, done, lim, child);
      SiblingOwnedOutside(f0, f, ptr, done, lim, child);
      SiblingSame(f0, f, ptr, done, lim, child);
      assert lim + {ptr} == limbo;
      KidStrictlyBelow(f0, ptr, child) by { MidwayTree(f0, f, ptr, done, lim); }
      NotLimbo(child);
    }

    static lemma MidwayTree(f0: Forest, g: Forest, ptr: Ptr, done: set<Ptr>, lim: set<Ptr>)
      requires Midway(f0, g, ptr, done, lim)
      ensures Tree(f0)
    {
    }

    static lemma KidStrictlyBelow(f0: Forest, ptr: Ptr, child: Ptr)
      requires Tree(f0) && ptr in f0 && child in f0[ptr].kids
      ensures Below(f0, {child}) < Below(f0, {ptr}) && ptr !in Below(f0, {child}) && child != ptr
    {
      SiblingsApart(f0, ptr, {}, child);
      KidsBelow(f0, ptr);
      assert ptr in Below(f0, {ptr});
    }

    lemma NotLimbo(child: Ptr)
      requires Valid() && child in f && f[child].par in f
      ensures child !in limbo && child in mem
    {
      assert ChunkOk(mem, f, limbo, child) && NodeOk(f, child);
    }

    lemma WillingChild(f0: Forest, m0: Heap, ptr: Ptr, child: Ptr)
      requires Valid() && WillingBelow(f0, m0, ptr) && SameData(m0, mem) && m0.Keys == f0.Keys
      requires child in f && child != ptr && child in mem && ptr !in Below(f, {child})
      requires Below(f, {child}) == Below(f0, {child}) && Below(f, {child}) < Below(f0, {ptr})
      ensures WillingBelow(f, mem, child) && Willing(mem[child])
    {
      assert child in Below(f, {child});
    }

    lemma CutOffFrame(f0: Forest, a: Forest, m0: Heap, m1: Heap, ptr: Ptr)
      requires Tree(a) && ptr in f0 && ptr in a && f == Detached(a, ptr) && a.Keys == f0.Keys == m0.Keys
      requires Below(a, {ptr}) == Below(f0, {ptr}) && a[ptr].kids == f0[ptr].kids
      requires WillingBelow(f0, m0, ptr) && OnlyDestructorOf(m0, m1, ptr) && SameData(m1, mem)
      ensures WillingBelow(f, mem, ptr) && ptr in f && f[ptr].kids == f0[ptr].kids
      ensures Below(f, {ptr}) == Below(f0, {ptr})
    {
      DetachedSame(a, ptr);
      assert NodeOk(a, ptr);
      WithoutNone(a[ptr].kids, {ptr});
      hide Tree, Without;
    }

    lemma MovedChild(f0: Forest, g: Forest, child: Ptr)
      requires Tree(f0) && Tree(g) && child in f0 && f0[child].refs != [] && child in g
      requires Frees(f0, g, {Newest(f0, child)}, {})
      requires NewOwner(f0, child) in g && NewOwner(f0, child) != child && NewOwner(f0, child) != NULL
      requires f == Moved(g, child, NewOwner(f0, child))
      ensures Frees(f0, f, Freed(f0, {child}), Top(f0, {child}))
    {
      hide Below, Without, Tree, Frees, Newest, NewOwner, Freed, Top;
      MovedFrees(f0, g, f, child);
    }
  }
}
