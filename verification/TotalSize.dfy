/** The size of everything at or below a chunk. */
module TotalSize {
  import opened Forest
  import opened FreeSpec
  import opened TallocHeap

  /** The sizes of some chunks, added up. */
  ghost function SizeSum(m: Heap, s: set<Ptr>): nat
    requires s <= m.Keys
    decreases s
  {
    if s == {} then 0
    else var x :| x in s; m[x].size + SizeSum(m, s - {x})
  }

  lemma {:induction false} SizeSumTake(m: Heap, s: set<Ptr>, x: Ptr)
    requires s <= m.Keys && x in s
    ensures SizeSum(m, s) == m[x].size + SizeSum(m, s - {x})
    decreases s
  {
    var y :| y in s && SizeSum(m, s) == m[y].size + SizeSum(m, s - {y});
    if y != x {
      SizeSumTake(m, s - {y}, x);
      SizeSumTake(m, s - {x}, y);
      assert (s - {y}) - {x} == (s - {x}) - {y};
    }
  }

  lemma {:induction false} SizeSumUnion(m: Heap, a: set<Ptr>, b: set<Ptr>)
    requires a <= m.Keys && b <= m.Keys && a !! b
    ensures SizeSum(m, a + b) == SizeSum(m, a) + SizeSum(m, b)
    decreases a
  {
    if a == {} {
      assert a + b == b;
    } else {
      var x :| x in a;
      SizeSumUnion(m, a - {x}, b);
      SizeSumTake(m, a, x);
      SizeSumTake(m, a + b, x);
      assert (a + b) - {x} == (a - {x}) + b;
    }
  }

  lemma {:induction false} SizeSumSame(m: Heap, m2: Heap, s: set<Ptr>)
    requires s <= m.Keys && s <= m2.Keys && forall x :: x in s ==> m2[x].size == m[x].size
    ensures SizeSum(m2, s) == SizeSum(m, s)
    decreases s
  {
    if s != {} {
      var x :| x in s;
      SizeSumTake(m, s, x);
      SizeSumTake(m2, s, x);
      SizeSumSame(m, m2, s - {x});
    }
  }

  /** The memory without the flags that mark chunks on the way from the root of a traversal. */
  function Unflagged(m: Heap): Heap {
    map x | x in m :: m[x].(loop := false)
  }

  /** The size at or below a chunk is its own size and that of its children. */
  lemma SizeStarts(m: Heap, f: Forest, p: Ptr)
    requires Tree(f) && m.Keys == f.Keys && p in f
    ensures Below(f, {}) == {} && SizeSum(m, {p}) == m[p].size
    ensures {p} !! Below(f, Members(f[p].kids)) && Below(f, {p}) == {p} + Below(f, Members(f[p].kids))
    ensures SizeSum(m, Below(f, {p})) == m[p].size + SizeSum(m, Below(f, Members(f[p].kids)))
  {
    KidsBelow(f, p);
    SizeSumTake(m, {p}, p);
    assert {p} - {p} == {};
    SizeSumUnion(m, {p}, Below(f, Members(f[p].kids)));
  }

  lemma SizeGrows(m: Heap, f: Forest, p: Ptr, i: nat)
    requires Tree(f) && m.Keys == f.Keys && p in f && i < |f[p].kids|
    ensures var done := Members(f[p].kids[..i]);
            && Members(f[p].kids[..i + 1]) == done + {f[p].kids[i]}
            && SizeSum(m, Below(f, Members(f[p].kids[..i + 1])))
               == SizeSum(m, Below(f, done)) + SizeSum(m, Below(f, {f[p].kids[i]}))
  {
    var c, done := f[p].kids[i], Members(f[p].kids[..i]);
    assert NodeOk(f, p);
    assert f[p].kids[..i + 1] == f[p].kids[..i] + [c];
    assert forall x :: x in f[p].kids[..i] ==> x in f[p].kids;
    SiblingsApart(f, p, done, c);
    SizeSumUnion(m, Below(f, done), Below(f, {c}));
  }
}
