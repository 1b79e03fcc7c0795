/** The document tree in memory: parent, first child and sibling pointers. */
module DomTree {
  import opened Forest
  import opened FreeSpec

  datatype NodeType = ElementNode | AttributeNode | TextNode | CDataNode | DocumentNode | OtherNode

  datatype DomNode = DomNode(
    nodeType: NodeType, parentNode: Ptr, firstChild: Ptr, prevSibling: Ptr, nextSibling: Ptr, ownerDocument: Ptr)

  type Nodes = map<Ptr, DomNode>

  predicate ChildOk(m: Nodes, p: Ptr, kids: seq<Ptr>, i: nat)
    requires i < |kids|
  {
    && kids[i] in m && m[kids[i]].parentNode == p
    && m[kids[i]].nextSibling == Nth(kids, i + 1) && m[kids[i]].prevSibling == Nth(kids, i - 1)
  }

  predicate ChildrenOk(m: Nodes, p: Ptr, kids: seq<Ptr>) {
    p in m && m[p].firstChild == Nth(kids, 0) && forall i :: 0 <= i < |kids| ==> ChildOk(m, p, kids, i)
  }

  predicate LinksOk(m: Nodes, f: Forest, x: Ptr)
    requires x in m && x in f
  {
    && ChildrenOk(m, x, f[x].kids)
    && (f[x].par == NULL ==> m[x].parentNode == m[x].prevSibling == m[x].nextSibling == NULL)
  }

  /** The pointers are those of the forest, whose references play no part here. */
  ghost predicate Shows(m: Nodes, f: Forest) {
    m.Keys == f.Keys && forall x {:trigger LinksOk(m, f, x)} :: x in f ==> LinksOk(m, f, x)
  }

  /** Where a child stands among its siblings. */
  lemma Standing(m: Nodes, f: Forest, c: Ptr) returns (i: nat)
    requires Tree(f) && Shows(m, f) && c in f && f[c].par in f
    ensures i < |f[f[c].par].kids| && f[f[c].par].kids[i] == c
    ensures ChildOk(m, f[c].par, f[f[c].par].kids, i) && ChildrenOk(m, f[c].par, f[f[c].par].kids)
    ensures NoDup(f[f[c].par].kids) && f[c].par !in f[f[c].par].kids
  {
    var p := f[c].par;
    assert NodeOk(f, c) && NodeOk(f, p) && LinksOk(m, f, p);
    i := IndexOf(f[p].kids, c);
  }

  /** The parent pointer is the parent. */
  lemma ParentIs(m: Nodes, f: Forest, c: Ptr)
    requires Tree(f) && Shows(m, f) && c in f
    ensures c in m && m[c].parentNode == f[c].par && (f[c].par == NULL || f[c].par in f)
    ensures f[c].par == NULL ==> m[c].prevSibling == m[c].nextSibling == NULL
  {
    assert NodeOk(f, c) && LinksOk(m, f, c);
    if f[c].par != NULL {
      var i := Standing(m, f, c);
    }
  }

  /* ---- taking a child out ---- */

  predicate TakenOut(m: Nodes, m2: Nodes, p: Ptr, c: Ptr) {
    && c in m && p in m && c != p && m2.Keys == m.Keys
    && m2[c] == m[c].(parentNode := NULL, prevSibling := NULL, nextSibling := NULL)
    && forall y :: y in m && y != c ==>
         m2[y] == m[y].(nextSibling := if y == m[c].prevSibling then m[c].nextSibling else m[y].nextSibling,
                        prevSibling := if y == m[c].nextSibling then m[c].prevSibling else m[y].prevSibling,
                        firstChild := if y == p && m[p].firstChild == c then m[c].nextSibling else m[y].firstChild)
  }

  lemma TakenOutSibling(m: Nodes, m2: Nodes, p: Ptr, kids: seq<Ptr>, i: nat, k: nat)
    requires ChildrenOk(m, p, kids) && NoDup(kids) && p !in kids && NULL !in m && i < |kids|
    requires TakenOut(m, m2, p, kids[i]) && k < |kids| - 1
    ensures ChildOk(m2, p, Drop(kids, i), k)
  {
    var j := if k < i then k else k + 1;
    assert ChildOk(m, p, kids, i) && ChildOk(m, p, kids, j);
    if j > 0 { assert ChildOk(m, p, kids, j - 1); }
    if j + 1 < |kids| { assert ChildOk(m, p, kids, j + 1); }
    hide ChildrenOk;
  }

  lemma TakenOutList(m: Nodes, m2: Nodes, p: Ptr, kids: seq<Ptr>, i: nat)
    requires ChildrenOk(m, p, kids) && NoDup(kids) && p !in kids && NULL !in m && i < |kids|
    requires TakenOut(m, m2, p, kids[i])
    ensures ChildrenOk(m2, p, Without(kids, {kids[i]}))
  {
    hide Without;
    WithoutOne(kids, i);
    assert Without(kids, {kids[i]}) == Drop(kids, i);
    forall k | 0 <= k < |kids| - 1 ensures ChildOk(m2, p, Drop(kids, i), k) {
      TakenOutSibling(m, m2, p, kids, i, k);
    }
    assert ChildOk(m, p, kids, i);
    if i > 0 { assert ChildOk(m, p, kids, 0); }
  }

  lemma TakenOutElsewhere(m: Nodes, m2: Nodes, f: Forest, p: Ptr, c: Ptr, x: Ptr)
    requires Tree(f) && Shows(m, f) && c in f && f[c].par == p && p in f && TakenOut(m, m2, p, c)
    requires x in f && x != p
    ensures ChildrenOk(m2, x, f[x].kids)
  {
    hide RefsOk, AncestorsOk;
    var i := Standing(m, f, c);
    assert LinksOk(m, f, x) && NodeOk(f, x) && NodeOk(f, p);
    Neighbours(m, f, p, i);
    forall k | 0 <= k < |f[x].kids| ensures ChildOk(m2, x, f[x].kids, k) {
      assert ChildOk(m, x, f[x].kids, k) && f[x].kids[k] in f[x].kids;
      assert f[f[x].kids[k]].par == x;
    }
    hide Tree, Shows;
  }

  /** The siblings next to a child have the same parent. */
  lemma Neighbours(m: Nodes, f: Forest, p: Ptr, i: nat)
    requires Tree(f) && Shows(m, f) && p in f && i < |f[p].kids|
    ensures var c := f[p].kids[i];
            && c in f && c in m
            && (m[c].nextSibling == NULL || (m[c].nextSibling in f && f[m[c].nextSibling].par == p))
            && (m[c].prevSibling == NULL || (m[c].prevSibling in f && f[m[c].prevSibling].par == p))
  {
    assert NodeOk(f, p) && LinksOk(m, f, p) && ChildOk(m, p, f[p].kids, i);
    assert f[p].kids[i] in f[p].kids;
    if i > 0 { assert f[p].kids[i - 1] in f[p].kids; }
    if i + 1 < |f[p].kids| { assert f[p].kids[i + 1] in f[p].kids; }
  }

  lemma TakenOutNode(m: Nodes, m2: Nodes, f: Forest, p: Ptr, c: Ptr, x: Ptr)
    requires Tree(f) && Shows(m, f) && c in f && f[c].par == p && p in f && TakenOut(m, m2, p, c) && x in f
    ensures LinksOk(m2, Detached(f, c), x)
  {
    hide Below, Without, ChildrenOk;
    var i := Standing(m, f, c);
    assert NodeOk(f, x) && LinksOk(m, f, x);
    if x == p {
      TakenOutList(m, m2, p, f[p].kids, i);
    } else {
      TakenOutElsewhere(m, m2, f, p, c, x);
      NotAmong(f, c, x);
    }
    Neighbours(m, f, p, i);
  }

  lemma NotAmong(f: Forest, c: Ptr, x: Ptr)
    requires Tree(f) && c in f && x in f && x != f[c].par
    ensures Without(f[x].kids, {c}) == f[x].kids
  {
    assert NodeOk(f, x);
    WithoutNone(f[x].kids, {c});
  }

  lemma TakenOutShows(m: Nodes, m2: Nodes, f: Forest, p: Ptr, c: Ptr)
    requires Tree(f) && Shows(m, f) && c in f && f[c].par == p && p in f && TakenOut(m, m2, p, c)
    ensures Shows(m2, Detached(f, c))
  {
    forall x | x in f ensures LinksOk(m2, Detached(f, c), x) {
      TakenOutNode(m, m2, f, p, c, x);
    }
    hide LinksOk;
  }

  /* ---- putting a root among the children of a node ---- */

  function KidsWith(s: seq<Ptr>, i: nat, c: Ptr): (r: seq<Ptr>)
    requires i <= |s|
    ensures |r| == |s| + 1
    ensures forall k :: 0 <= k < |r| ==> r[k] == if k < i then s[k] else if k == i then c else s[k - 1]
  {
    s[..i] + [c] + s[i..]
  }

  /** The tree of root c is hung below p, as its i-th child. */
  function InsertedAt(f: Forest, c: Ptr, p: Ptr, i: nat): (g: Forest)
    requires c in f && p in f && i <= |f[p].kids|
    ensures g.Keys == f.Keys
  {
    map x | x in f :: f[x].(
      kids := if x == p then KidsWith(f[x].kids, i, c) else f[x].kids,
      par := if x == c then p else f[x].par,
      anc := if x in Below(f, {c}) then f[x].anc + {p} + f[p].anc else f[x].anc)
  }

  lemma KidsWithMembers(s: seq<Ptr>, i: nat, c: Ptr)
    requires i <= |s| && NoDup(s) && c !in s
    ensures NoDup(KidsWith(s, i, c)) && forall x :: x in KidsWith(s, i, c) <==> x in s || x == c
  {
    var r := KidsWith(s, i, c);
    assert r[i] == c;
    forall x | x in s ensures x in r {
      var k := IndexOf(s, x);
      assert r[if k < i then k else k + 1] == x;
    }
    forall k | 0 <= k < |s| ensures s[k] != c {
      assert s[k] in s;
    }
  }

  lemma InsertedKids(f: Forest, c: Ptr, p: Ptr, i: nat, x: Ptr)
    requires Tree(f) && c in f && p in f && f[c].par == NULL && p !in Below(f, {c}) && f[p].target == NULL
    requires i <= |f[p].kids| && x in f
    ensures KidsOk(InsertedAt(f, c, p, i), x) && RefsOk(InsertedAt(f, c, p, i), x)
  {
    hide Below, AncestorsOk, KidsWith;
    assert NodeOk(f, x) && NodeOk(f, c) && NodeOk(f, p);
    KidsWithMembers(f[p].kids, i, c);
    hide NoDup;
  }

  lemma InsertedAncestor(f: Forest, c: Ptr, p: Ptr, i: nat, x: Ptr)
    requires Tree(f) && c in f && p in f && f[c].par == NULL && p !in Below(f, {c})
    requires i <= |f[p].kids| && x in f
    ensures AncestorsOk(InsertedAt(f, c, p, i), x)
  {
    hide KidsOk, RefsOk, KidsWith;
    assert NodeOk(f, x) && NodeOk(f, p);
    AncestorsExist(f, x);
    AncestorsExist(f, p);
    var y := f[x].par;
    if y in f {
      assert NodeOk(f, y);
      assert x in Below(f, {c}) <==> x == c || y in Below(f, {c});
    }
    assert p != c && c !in f[p].anc;
  }

  /** Never a cycle: the result is a forest. */
  lemma InsertedTree(f: Forest, c: Ptr, p: Ptr, i: nat)
    requires Tree(f) && c in f && p in f && f[c].par == NULL && p !in Below(f, {c}) && f[p].target == NULL
    requires i <= |f[p].kids|
    ensures Tree(InsertedAt(f, c, p, i))
  {
    forall x | x in f ensures NodeOk(InsertedAt(f, c, p, i), x) {
      InsertedKids(f, c, p, i, x);
      InsertedAncestor(f, c, p, i, x);
    }
    hide NodeOk;
  }

  /** m2 is m with the root c linked in front of the i-th of the children of p, or at the end. */
  predicate PutIn(m: Nodes, m2: Nodes, p: Ptr, kids: seq<Ptr>, i: nat, c: Ptr) {
    && c in m && p in m && c != p && m2.Keys == m.Keys
    && m2[c] == m[c].(parentNode := p, prevSibling := Nth(kids, i - 1), nextSibling := Nth(kids, i),
                      ownerDocument := m2[c].ownerDocument)
    && forall y :: y in m && y != c ==>
         m2[y] == m[y].(nextSibling := if y == Nth(kids, i - 1) then c else m[y].nextSibling,
                        prevSibling := if y == Nth(kids, i) then c else m[y].prevSibling,
                        firstChild := if y == p && i == 0 then c else m[y].firstChild)
  }

  lemma PutInSibling(m: Nodes, m2: Nodes, p: Ptr, kids: seq<Ptr>, i: nat, c: Ptr, k: nat)
    requires ChildrenOk(m, p, kids) && NoDup(kids) && p !in kids && c !in kids && NULL !in m && i <= |kids|
    requires PutIn(m, m2, p, kids, i, c) && k <= |kids|
    ensures ChildOk(m2, p, KidsWith(kids, i, c), k)
  {
    if k < i {
      assert ChildOk(m, p, kids, k) && kids[k] in kids;
    } else if k > i {
      assert ChildOk(m, p, kids, k - 1) && kids[k - 1] in kids;
    }
    hide ChildrenOk;
  }

  lemma PutInList(m: Nodes, m2: Nodes, p: Ptr, kids: seq<Ptr>, i: nat, c: Ptr)
    requires ChildrenOk(m, p, kids) && NoDup(kids) && p !in kids && c !in kids && NULL !in m && i <= |kids|
    requires PutIn(m, m2, p, kids, i, c)
    ensures ChildrenOk(m2, p, KidsWith(kids, i, c))
  {
    forall k | 0 <= k < |kids| + 1 ensures ChildOk(m2, p, KidsWith(kids, i, c), k) {
      PutInSibling(m, m2, p, kids, i, c, k);
    }
    if i > 0 { assert ChildOk(m, p, kids, 0); }
  }

  /** The place of the new child among the children of p touches no other list. */
  lemma Apart(f: Forest, p: Ptr, i: nat, x: Ptr, y: Ptr)
    requires Tree(f) && p in f && x in f && x != p && y in f[x].kids
    ensures y in f && f[y].par == x && y != Nth(f[p].kids, i - 1) && y != Nth(f[p].kids, i) && y != NULL
  {
    assert NodeOk(f, x) && NodeOk(f, p);
    if 0 <= i - 1 < |f[p].kids| { assert f[p].kids[i - 1] in f[p].kids; }
    if i < |f[p].kids| { assert f[p].kids[i] in f[p].kids; }
  }

  lemma PutInElsewhere(m: Nodes, m2: Nodes, f: Forest, p: Ptr, i: nat, c: Ptr, x: Ptr)
    requires Tree(f) && Shows(m, f) && c in f && f[c].par == NULL && p in f && i <= |f[p].kids|
    requires PutIn(m, m2, p, f[p].kids, i, c) && x in f && x != p
    ensures ChildrenOk(m2, x, f[x].kids)
  {
    assert LinksOk(m, f, x);
    forall k | 0 <= k < |f[x].kids| ensures ChildOk(m2, x, f[x].kids, k) {
      assert ChildOk(m, x, f[x].kids, k);
      Apart(f, p, i, x, f[x].kids[k]);
    }
    hide Tree, Shows;
  }

  /** A root is no one's child. */
  lemma RootApart(f: Forest, p: Ptr, i: nat, x: Ptr)
    requires Tree(f) && p in f && x in f && f[x].par == NULL
    ensures x !in f[p].kids && x != Nth(f[p].kids, i - 1) && x != Nth(f[p].kids, i)
  {
    assert NodeOk(f, p);
    assert NULL !in f;
  }

  lemma PutInNode(m: Nodes, m2: Nodes, f: Forest, p: Ptr, i: nat, c: Ptr, x: Ptr)
    requires Tree(f) && Shows(m, f) && c in f && f[c].par == NULL && p in f && i <= |f[p].kids|
    requires PutIn(m, m2, p, f[p].kids, i, c) && x in f && p !in f[p].kids
    ensures LinksOk(m2, InsertedAt(f, c, p, i), x)
  {
    hide Below, ChildrenOk, KidsWith;
    assert NodeOk(f, p) && LinksOk(m, f, x);
    RootApart(f, p, i, c);
    if x == p {
      PutInList(m, m2, p, f[p].kids, i, c);
    } else {
      PutInElsewhere(m, m2, f, p, i, c, x);
    }
    if f[x].par == NULL {
      RootApart(f, p, i, x);
    }
  }

  lemma PutInShows(m: Nodes, m2: Nodes, f: Forest, p: Ptr, i: nat, c: Ptr)
    requires Tree(f) && Shows(m, f) && c in f && f[c].par == NULL && p in f && i <= |f[p].kids|
    requires PutIn(m, m2, p, f[p].kids, i, c)
    ensures Shows(m2, InsertedAt(f, c, p, i))
  {
    NotOwnChild(f, p);
    forall x | x in f ensures LinksOk(m2, InsertedAt(f, c, p, i), x) {
      PutInNode(m, m2, f, p, i, c, x);
    }
    hide LinksOk;
  }

  lemma NotOwnChild(f: Forest, p: Ptr)
    requires Tree(f) && p in f
    ensures p !in f[p].kids
  {
    assert NodeOk(f, p);
  }

  /* ---- ancestors ---- */

  /** A node and its later siblings. */
  ghost function Later(f: Forest, a: Ptr): set<Ptr>
    requires a in f
  {
    if f[a].par in f && a in f[f[a].par].kids then
      Members(f[f[a].par].kids[IndexOf(f[f[a].par].kids, a)..])
    else {a}
  }

  lemma LaterKids(f: Forest, a: Ptr)
    requires Tree(f) && a in f && f[a].kids != []
    ensures f[a].kids[0] in f && Later(f, f[a].kids[0]) == Members(f[a].kids)
  {
    assert NodeOk(f, a);
    var c := f[a].kids[0];
    assert c in f[a].kids;
    NoDupIndex(f[a].kids, IndexOf(f[a].kids, c), 0);
    assert f[a].kids[0..] == f[a].kids;
  }

  lemma LaterNext(m: Nodes, f: Forest, a: Ptr)
    requires Tree(f) && Shows(m, f) && a in f
    ensures a in m && a in Later(f, a)
    ensures var n := m[a].nextSibling;
            if n == NULL then Later(f, a) == {a}
            else n in f && Later(f, a) == {a} + Later(f, n) && Below(f, {a}) !! Below(f, Later(f, n))
  {
    hide Tree, Shows, Below, Later, Members;
    ParentIs(m, f, a);
    if f[a].par == NULL {
      RootLater(m, f, a);
    } else {
      var p := f[a].par;
      var i := Standing(m, f, a);
      LaterAt(f, p, i);
      MembersFrom(f[p].kids, i);
      if i + 1 < |f[p].kids| {
        Neighbours(m, f, p, i);
        LaterAt(f, p, i + 1);
        LaterApart(f, p, i);
      }
    }
  }

  lemma RootLater(m: Nodes, f: Forest, a: Ptr)
    requires Tree(f) && Shows(m, f) && a in f && f[a].par == NULL
    ensures Later(f, a) == {a} && m[a].nextSibling == NULL
  {
    assert LinksOk(m, f, a);
  }

  /** A child's later siblings are those from its place on. */
  lemma LaterAt(f: Forest, p: Ptr, i: nat)
    requires Tree(f) && p in f && i < |f[p].kids|
    ensures f[p].kids[i] in f && f[p].kids[i] != NULL && Later(f, f[p].kids[i]) == Members(f[p].kids[i..])
  {
    var kids := f[p].kids;
    assert NodeOk(f, p) && kids[i] in kids;
    NoDupIndex(kids, IndexOf(kids, kids[i]), i);
    hide Members, Tree;
  }

  lemma MembersFrom(s: seq<Ptr>, i: nat)
    requires i < |s|
    ensures Members(s[i..]) == {s[i]} + Members(s[i + 1..])
    ensures i + 1 == |s| ==> Members(s[i + 1..]) == {}
  {
    assert s[i..] == [s[i]] + s[i + 1..];
  }

  lemma LaterApart(f: Forest, p: Ptr, i: nat)
    requires Tree(f) && p in f && i < |f[p].kids|
    ensures Below(f, {f[p].kids[i]}) !! Below(f, Members(f[p].kids[i + 1..]))
  {
    var kids := f[p].kids;
    assert NodeOk(f, p) && kids[i] in kids;
    forall x | x in kids[i + 1..] ensures x in kids && x != kids[i] {
      var k :| 0 <= k < |kids[i + 1..]| && kids[i + 1..][k] == x;
      assert kids[i + 1 + k] == x;
    }
    SiblingsApart(f, p, Members(kids[i + 1..]), kids[i]);
  }

  lemma BelowUnion(f: Forest, a: set<Ptr>, b: set<Ptr>)
    ensures Below(f, a + b) == Below(f, a) + Below(f, b)
  {
  }

  /** What the search for an ancestor goes through, and that it gets smaller. */
  lemma SearchSplits(m: Nodes, f: Forest, a: Ptr)
    requires Tree(f) && Shows(m, f) && a in f
    ensures a in m
    ensures m[a].firstChild == NULL <==> f[a].kids == []
    ensures var c, n := m[a].firstChild, m[a].nextSibling;
            var below := if c == NULL then {} else if c in f then Below(f, Later(f, c)) else {};
            var after := if n == NULL then {} else if n in f then Below(f, Later(f, n)) else {};
            && (c == NULL || c in f) && (n == NULL || n in f)
            && Below(f, Later(f, a)) == {a} + below + after && a !in below && a !in after
  {
    hide Below, Later, KidsOk, RefsOk, AncestorsOk, ChildrenOk, Tree, Shows;
    FirstIs(m, f, a);
    LaterNext(m, f, a);
    KidsBelow(f, a);
    InOwn(f, a);
    var n := m[a].nextSibling;
    if n != NULL {
      BelowUnion(f, {a}, Later(f, n));
    }
    if f[a].kids == [] {
      NoneBelow(f, a);
    } else {
      LaterKids(f, a);
    }
  }

  lemma FirstIs(m: Nodes, f: Forest, a: Ptr)
    requires Tree(f) && Shows(m, f) && a in f
    ensures a in m && m[a].firstChild == Nth(f[a].kids, 0) && (f[a].kids != [] ==> f[a].kids[0] != NULL)
  {
    assert LinksOk(m, f, a) && NodeOk(f, a);
    if f[a].kids != [] {
      assert f[a].kids[0] in f[a].kids;
    }
  }

  lemma InOwn(f: Forest, a: Ptr)
    requires a in f
    ensures a in Below(f, {a})
  {
  }

  lemma NoneBelow(f: Forest, a: Ptr)
    requires a in f && f[a].kids == []
    ensures Below(f, Members(f[a].kids)) == {}
  {
  }

  /** For a root the search asks for proper ancestry. */
  lemma RootSearch(f: Forest, a: Ptr, x: Ptr)
    requires Tree(f) && a in f && x in f && f[a].par == NULL
    ensures f[x].par in Below(f, Later(f, a)) <==> a in f[x].anc
  {
    assert NodeOk(f, x);
    assert Later(f, a) == {a};
    if f[x].par in f {
      assert NodeOk(f, f[x].par);
    }
  }

  /** A child of x, or a later sibling of one, is never above x. */
  lemma ChildSearch(f: Forest, a: Ptr, x: Ptr)
    requires Tree(f) && a in f && x in f && f[a].par == x
    ensures f[x].par !in Below(f, Later(f, a))
  {
    assert NodeOk(f, a) && NodeOk(f, x);
    KidsBelow(f, x);
    AncestorsExist(f, x);
    var kids := f[x].kids;
    forall y | y in Later(f, a) ensures y in kids {
    }
    assert Below(f, Later(f, a)) <= Below(f, Members(kids));
    if f[x].par in f {
      AncestorsExist(f, f[x].par);
    }
  }
}
