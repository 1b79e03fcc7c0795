/** Changing the children of a document node. */
module Dom {
  import opened Forest
  import opened FreeSpec
  import opened DomTree
  import opened Addresses

  datatype Code = Success | InvalidParameter | HierarchyRequestErr | WrongDocumentErr | NotFoundErr

  /** May a node of one type have a child of another? */
  predicate AllowChildren(node: NodeType, child: NodeType) {
    match node
    case AttributeNode => false
    case TextNode => false
    case CDataNode => false
    case ElementNode => child != AttributeNode && child != DocumentNode
    case DocumentNode => child == ElementNode
    case OtherNode => true
  }

  /** The forest of a document refers to nothing. */
  ghost predicate Plain(f: Forest) {
    forall x :: x in f ==> f[x].refs == [] && f[x].target == NULL
  }

  /** f without c among the children of p. */
  ghost function Cleared(f: Forest, c: Ptr): Forest
    requires c in f
  {
    if f[c].par == NULL then f else Detached(f, c)
  }

  /** c, detached or a child of p, becomes the child of p in front of the i-th of the others. */
  ghost predicate ChildPut(f: Forest, g: Forest, p: Ptr, c: Ptr, i: nat) {
    && c in f && p in f && i <= |Cleared(f, c)[p].kids| && g == InsertedAt(Cleared(f, c), c, p, i)
  }

  class Dom {
    var nodes: Nodes
    ghost var f: Forest

    ghost predicate Valid()
      reads this
    {
      Tree(f) && Plain(f) && Shows(nodes, f)
    }

    /** Which types may be children of which: of a document only elements, of an element no attribute and no
        document, and of text, character data and attributes nothing. */
    static ghost predicate Typed(m: Nodes, f: Forest) {
      forall x {:trigger f[x]} :: x in f && x in m ==> ChildrenTyped(m, m[x].nodeType, f[x].kids)
    }

    static predicate ChildrenTyped(m: Nodes, t: NodeType, kids: seq<Ptr>) {
      && (t == TextNode || t == CDataNode || t == AttributeNode ==> kids == [])
      && (t == DocumentNode ==> forall c :: c in kids ==> c in m && m[c].nodeType == ElementNode)
      && (t == ElementNode ==>
            forall c :: c in kids ==> c in m && m[c].nodeType != AttributeNode && m[c].nodeType != DocumentNode)
    }

    static ghost predicate SameTypes(m: Nodes, m2: Nodes) {
      m2.Keys == m.Keys && forall x :: x in m ==> m2[x].nodeType == m[x].nodeType
    }

    static lemma PutTyped(m: Nodes, m2: Nodes, f: Forest, g: Forest, p: Ptr, c: Ptr, i: nat)
      requires Tree(f) && ChildPut(f, g, p, c, i) && c != p && SameTypes(m, m2) && m.Keys == f.Keys && Typed(m, f)
      requires p in f && c in f && (f[c].par == NULL || f[c].par == p) && AllowChildren(m[p].nodeType, m[c].nodeType)
      ensures Typed(m2, g)
    {
      hide Tree, ChildPut, Without, ChildrenTyped, SameTypes, AllowChildren;
      ChildSequence(f, g, p, c, i);
      var others := Without(f[p].kids, {c});
      MembersPut(f[p].kids, c, i);
      SameKeys(m, m2);
      forall x | x in g && x in m2 ensures ChildrenTyped(m2, m2[x].nodeType, g[x].kids) {
        if x == p {
          OneMoreTyped(m, m2, p, f[p].kids, c, g[p].kids);
        } else {
          StillTyped(m, m2, x, f[x].kids);
        }
      }
    }

    static lemma SameKeys(m: Nodes, m2: Nodes)
      requires SameTypes(m, m2)
      ensures m2.Keys == m.Keys
    {
    }

    static lemma MembersPut(kids: seq<Ptr>, c: Ptr, i: nat)
      requires i <= |Without(kids, {c})|
      ensures var others := Without(kids, {c}); forall x :: x in others[..i] + [c] + others[i..] ==> x in kids || x == c
    {
      hide Without;
    }

    static lemma OneMoreTyped(m: Nodes, m2: Nodes, p: Ptr, kids: seq<Ptr>, c: Ptr, kids2: seq<Ptr>)
      requires SameTypes(m, m2) && p in m && c in m && p in m2 && ChildrenTyped(m, m[p].nodeType, kids)
      requires AllowChildren(m[p].nodeType, m[c].nodeType) && forall x :: x in kids2 ==> x in kids || x == c
      ensures ChildrenTyped(m2, m2[p].nodeType, kids2)
    {
    }

    static lemma StillTyped(m: Nodes, m2: Nodes, x: Ptr, kids: seq<Ptr>)
      requires SameTypes(m, m2) && x in m && x in m2 && ChildrenTyped(m, m[x].nodeType, kids)
      ensures ChildrenTyped(m2, m2[x].nodeType, kids)
    {
    }

    static lemma NoneWithout(c: Ptr)
      ensures Without([], {c}) == []
    {
    }

    static lemma CutTyped(m: Nodes, m2: Nodes, f: Forest, c: Ptr)
      requires c in f && SameTypes(m, m2) && Typed(m, f)
      ensures Typed(m2, Detached(f, c))
    {
      NoneWithout(c);
      hide Below, Without;
    }

    constructor ()
      ensures Valid() && f == map[] && Typed(nodes, f)
    {
      nodes, f := map[], map[];
    }

    /* ---- creating ---- */

    /** A new node of its own; `own` is set for a document, which owns itself. */
    method CreateSingle(nodeType: NodeType, owner: Ptr, own: bool) returns (x: Ptr)
      requires Valid()
      modifies this
      ensures Valid() && x != NULL && x !in old(f) && x !in old(nodes) && f == Created(old(f), x)
      ensures nodes == old(nodes)[x := DomNode(nodeType, NULL, NULL, NULL, NULL, if own then x else owner)]
      ensures old(Typed(nodes, f)) ==> Typed(nodes, f)
    {
      hide Tree, Plain, Shows, Typed;
      KeysAgree();
      FreshAddress(nodes.Keys);
      x :| x != NULL && x !in nodes;
      nodes := nodes[x := DomNode(nodeType, NULL, NULL, NULL, NULL, if own then x else owner)];
      CreatedTree(f, x);
      CreatedShows(old(nodes), nodes, f, x);
      CreatedTyped(old(nodes), nodes, f, x);
      f := Created(f, x);
    }

    static lemma CreatedTyped(m: Nodes, m2: Nodes, f: Forest, x: Ptr)
      requires m.Keys == f.Keys && x !in m && x in m2 && m2 == m[x := m2[x]]
      ensures Typed(m, f) ==> Typed(m2, Created(f, x))
    {
    }

    static lemma CreatedShows(m: Nodes, m2: Nodes, f: Forest, x: Ptr)
      requires Tree(f) && Plain(f) && Shows(m, f) && x !in m && x != NULL
      requires x in m2 && m2 == m[x := m2[x]]
      requires m2[x].parentNode == m2[x].firstChild == m2[x].prevSibling == m2[x].nextSibling == NULL
      ensures Shows(m2, Created(f, x)) && Plain(Created(f, x))
    {
      var g := Created(f, x);
      forall y | y in g ensures LinksOk(m2, g, y) {
        if y != x {
          assert LinksOk(m, f, y) && NULL !in m;
          forall i | 0 <= i < |f[y].kids| ensures ChildOk(m2, y, g[y].kids, i) {
            assert ChildOk(m, y, f[y].kids, i);
          }
        }
      }
      hide LinksOk, Tree;
    }

    method CreateDocument() returns (doc: Ptr)
      requires Valid()
      modifies this
      ensures Valid() && doc != NULL && doc !in old(f) && f == Created(old(f), doc)
      ensures nodes == old(nodes)[doc := DomNode(DocumentNode, NULL, NULL, NULL, NULL, doc)]
      ensures old(Typed(nodes, f)) ==> Typed(nodes, f)
    {
      hide Typed;
      doc := CreateSingle(DocumentNode, NULL, true);
    }

    /** A detached node of the document. */
    method CreateNode(doc: Ptr, nodeType: NodeType) returns (x: Ptr)
      requires Valid()
      modifies this
      ensures Valid() && (x == NULL <==> doc == NULL)
      ensures x == NULL ==> nodes == old(nodes) && f == old(f)
      ensures x != NULL ==>
        && x !in old(f) && f == Created(old(f), x)
        && nodes == old(nodes)[x := DomNode(nodeType, NULL, NULL, NULL, NULL, doc)]
      ensures old(Typed(nodes, f)) ==> Typed(nodes, f)
    {
      hide Typed;
      if doc == NULL {
        return NULL;
      }
      x := CreateSingle(nodeType, doc, false);
    }

    /** Is the parent of toFind at or below the node or one of its later siblings? */
    method IsAncestor(ancestorNode: Ptr, toFind: Ptr) returns (found: bool)
      requires Valid() && (ancestorNode != NULL ==> ancestorNode in f) && (toFind != NULL ==> toFind in f)
      ensures found == (ancestorNode != NULL && toFind != NULL && f[toFind].par in Below(f, Later(f, ancestorNode)))
      decreases if ancestorNode != NULL && ancestorNode in f then Below(f, Later(f, ancestorNode)) else {}
    {
      hide Tree, Plain, Shows, Below, Later;
      found := false;
      if ancestorNode != NULL && toFind != NULL {
        SearchSplits(nodes, f, ancestorNode);
        ParentIs(nodes, f, toFind);
        if nodes[toFind].parentNode == ancestorNode {
          return true;
        }
        found := IsAncestor(nodes[ancestorNode].firstChild, toFind);
        if !found {
          found := IsAncestor(nodes[ancestorNode].nextSibling, toFind);
        }
      }
    }

    /** For a node that is detached, or already a child, the search is for a proper ancestor. */
    lemma SearchIsAncestry(c: Ptr, p: Ptr)
      requires Valid() && c in f && p in f && (f[c].par == NULL || f[c].par == p)
      ensures f[p].par in Below(f, Later(f, c)) <==> c in f[p].anc
    {
      hide Below, Later, Plain, Shows;
      if f[c].par == NULL {
        RootSearch(f, c, p);
      } else {
        ChildSearch(f, c, p);
        NotAbove(c, p);
      }
    }

    lemma NotAbove(c: Ptr, p: Ptr)
      requires Valid() && c in f && p in f && f[c].par == p
      ensures c !in f[p].anc && p in f[c].anc && c != p
    {
      assert NodeOk(f, c) && NodeOk(f, p);
      AncestorsExist(f, p);
    }

    /* ---- removing ---- */

    method RemoveChild(p: Ptr, c: Ptr) returns (code: Code)
      requires Valid() && (p != NULL ==> p in f) && (c != NULL ==> c in f)
      modifies this
      ensures Valid()
      ensures code == if p == NULL || c == NULL then InvalidParameter
                      else if old(f[c].par != p) then NotFoundErr else Success
      ensures code != Success ==> nodes == old(nodes) && f == old(f)
      ensures code == Success ==> f == Detached(old(f), c) && SameData(old(nodes), nodes)
      ensures old(Typed(nodes, f)) ==> Typed(nodes, f)
    {
      hide Tree, Plain, Shows, Detached, TakenOut, Typed;
      if p == NULL || c == NULL {
        return InvalidParameter;
      }
      ParentIs(nodes, f, c);
      if nodes[c].parentNode != p {
        return NotFoundErr;
      }
      ghost var before := nodes;
      TakeOut(p, c);
      TakenOutShows(before, nodes, f, p, c);
      DetachedTree(f, c);
      TakenOutData(before, nodes, p, c);
      if Typed(before, f) {
        CutTyped(before, nodes, f, c);
      }
      StillPlain(f, c);
      f := Detached(f, c);
      return Success;
    }

    /** Types and documents are as they were, but perhaps for the document of c. */
    static predicate SameDataBut(m: Nodes, m2: Nodes, c: Ptr) {
      m2.Keys == m.Keys &&
      forall x :: x in m ==> m2[x].nodeType == m[x].nodeType && (x != c ==> m2[x].ownerDocument == m[x].ownerDocument)
    }

    static lemma PutInData(m: Nodes, m2: Nodes, p: Ptr, kids: seq<Ptr>, i: nat, c: Ptr)
      requires PutIn(m, m2, p, kids, i, c)
      ensures SameDataBut(m, m2, c) && p in m && c in m
      ensures m2[c].ownerDocument == m[c].ownerDocument ==> SameData(m, m2)
    {
    }

    static predicate SameData(m: Nodes, m2: Nodes) {
      m2.Keys == m.Keys &&
      forall x :: x in m ==> m2[x].nodeType == m[x].nodeType && m2[x].ownerDocument == m[x].ownerDocument
    }

    static lemma TakenOutData(m: Nodes, m2: Nodes, p: Ptr, c: Ptr)
      requires TakenOut(m, m2, p, c)
      ensures SameData(m, m2)
    {
    }

    static lemma StillPlain(f: Forest, c: Ptr)
      requires Plain(f) && c in f
      ensures Plain(Detached(f, c))
    {
      hide Below, Without;
    }

    /** Unlinks a child from its siblings and its parent. */
    method TakeOut(p: Ptr, c: Ptr)
      requires Valid() && p in f && c in f && f[c].par == p
      modifies this`nodes
      ensures TakenOut(old(nodes), nodes, p, c)
    {
      hide Tree, Plain, Shows, Passed, TakenOut;
      Surroundings(p, c);
      ghost var before := nodes;
      PassBy(p, c);
      ghost var passed := nodes;
      PassedKeys(before, passed, p, c);
      nodes := nodes[c := nodes[c].(nextSibling := NULL, prevSibling := NULL, parentNode := NULL)];
      PassedOut(before, passed, nodes, p, c);
    }

    /** m2 is m with the neighbours and the parent of c leading past it. */
    static predicate Passed(m: Nodes, m2: Nodes, p: Ptr, c: Ptr) {
      && c in m && p in m && m2.Keys == m.Keys
      && forall y :: y in m ==>
           m2[y] == m[y].(nextSibling := if y == m[c].prevSibling then m[c].nextSibling else m[y].nextSibling,
                          prevSibling := if y == m[c].nextSibling then m[c].prevSibling else m[y].prevSibling,
                          firstChild := if y == p && m[p].firstChild == c then m[c].nextSibling else m[y].firstChild)
    }

    static lemma PassedKeys(m: Nodes, m2: Nodes, p: Ptr, c: Ptr)
      requires Passed(m, m2, p, c)
      ensures c in m && c in m2
    {
    }

    static lemma PassedOut(m: Nodes, m2: Nodes, m3: Nodes, p: Ptr, c: Ptr)
      requires Passed(m, m2, p, c) && c != p && c in m && c in m2 && c != m[c].nextSibling && c != m[c].prevSibling
      requires m3 == m2[c := m2[c].(nextSibling := NULL, prevSibling := NULL, parentNode := NULL)]
      ensures TakenOut(m, m3, p, c)
    {
    }

    method PassBy(p: Ptr, c: Ptr)
      requires NULL !in nodes && c in nodes && p in nodes && p != c
      requires var next, prev := nodes[c].nextSibling, nodes[c].prevSibling;
               && (next != NULL ==> next in nodes && next != c && next != p && next != prev)
               && (prev != NULL ==> prev in nodes && prev != c && prev != p)
      modifies this`nodes
      ensures Passed(old(nodes), nodes, p, c)
    {
      var next, prev := nodes[c].nextSibling, nodes[c].prevSibling;
      if prev != NULL {
        nodes := nodes[prev := nodes[prev].(nextSibling := next)];
      }
      if nodes[p].firstChild == c {
        nodes := nodes[p := nodes[p].(firstChild := next)];
      }
      if next != NULL {
        nodes := nodes[next := nodes[next].(prevSibling := prev)];
      }
    }

    /** The nodes that unlinking a child touches are all there and distinct. */
    lemma Surroundings(p: Ptr, c: Ptr)
      requires Valid() && p in f && c in f && f[c].par == p
      ensures NULL !in nodes && c in nodes && p in nodes && p != c
      ensures var next, prev := nodes[c].nextSibling, nodes[c].prevSibling;
              && (next != NULL ==> next in nodes && next != c && next != p && next != prev)
              && (prev != NULL ==> prev in nodes && prev != c && prev != p)
    {
      var i := Standing(nodes, f, c);
      Neighbours(nodes, f, p, i);
      NotOwnChild(f, p);
      hide KidsOk, RefsOk, AncestorsOk, ChildrenOk;
    }

    /* ---- adding ---- */

    method AppendChild(p: Ptr, c: Ptr) returns (code: Code)
      requires Valid() && (p != NULL ==> p in f) && (c != NULL ==> c in f)
      requires p != NULL && c != NULL ==> c != p && (f[c].par == NULL || f[c].par == p)
      modifies this
      ensures Valid()
      ensures code == if p == NULL || c == NULL then InvalidParameter
                      else if old(nodes[c].ownerDocument != NULL && nodes[p].ownerDocument != nodes[c].ownerDocument)
                      then WrongDocumentErr
                      else if old(c in f[p].anc || !AllowChildren(nodes[p].nodeType, nodes[c].nodeType))
                      then HierarchyRequestErr else Success
      ensures code != Success ==> nodes == old(nodes) && f == old(f)
      ensures code == Success ==> ChildPut(old(f), f, p, c, |Cleared(old(f), c)[p].kids|)
      ensures code == Success ==> SameDataBut(old(nodes), nodes, c) && c in nodes && p in old(nodes)
                                  && nodes[c].ownerDocument == old(nodes)[p].ownerDocument
      ensures old(Typed(nodes, f)) ==> Typed(nodes, f)
    {
      hide Tree, Plain, Shows, Below, Later, AllowChildren, Detached, InsertedAt, ChildPut, Typed;
      if p == NULL || c == NULL {
        return InvalidParameter;
      }
      KeysAgree();
      if nodes[c].ownerDocument != NULL && nodes[p].ownerDocument != nodes[c].ownerDocument {
        return WrongDocumentErr;
      }
      SearchIsAncestry(c, p);
      var isAncestor := IsAncestor(c, p);
      if isAncestor {
        return HierarchyRequestErr;
      }
      if !AllowChildren(nodes[p].nodeType, nodes[c].nodeType) {
        return HierarchyRequestErr;
      }
      ghost var f0 := f;
      Clear(p, c);
      LinkLast(p, c);
      Put(f0, f, p, c, |Cleared(f0, c)[p].kids|);
      if old(Typed(nodes, f)) {
        PutTyped(old(nodes), nodes, f0, f, p, c, |Cleared(f0, c)[p].kids|);
      }
      return Success;
    }

    lemma KeysAgree()
      requires Valid()
      ensures nodes.Keys == f.Keys && NULL !in f
    {
    }

    static lemma Put(f: Forest, g: Forest, p: Ptr, c: Ptr, i: nat)
      requires c in f && p in f && p in Cleared(f, c) && c in Cleared(f, c) && i <= |Cleared(f, c)[p].kids|
      requires g == InsertedAt(Cleared(f, c), c, p, i)
      ensures ChildPut(f, g, p, c, i)
    {
    }

    /** A new child that is already among the children of p is taken out first. */
    method Clear(p: Ptr, c: Ptr)
      requires Valid() && p in f && c in f && c != p && (f[c].par == NULL || f[c].par == p) && c !in f[p].anc
      modifies this
      ensures Valid() && f == Cleared(old(f), c) && c in f && p in f && f[c].par == NULL && p !in Below(f, {c})
      ensures SameData(old(nodes), nodes) && f[p].target == NULL
    {
      hide Tree, Plain, Shows, Below, Detached;
      ParentIs(nodes, f, c);
      NoTarget(p);
      NoTarget(c);
      NotBelow(f, p, c);
      if nodes[c].parentNode == p {
        var code := RemoveChild(p, c);
      }
    }

    lemma NoTarget(p: Ptr)
      requires Valid() && p in f
      ensures f[p].target == NULL && p != NULL
    {
    }

    static lemma NotBelow(f: Forest, p: Ptr, c: Ptr)
      requires Tree(f) && p in f && c in f && c != p && c !in f[p].anc
      ensures p !in Below(f, {c}) && p in Detached(f, c) && c in Detached(f, c)
      ensures p !in Below(Detached(f, c), {c}) && Detached(f, c)[c].par == NULL
      ensures Detached(f, c)[p].target == f[p].target
    {
      hide Without;
    }

    /** Puts a root behind the last child. */
    method LinkLast(p: Ptr, c: Ptr)
      requires Valid() && p in f && c in f && f[c].par == NULL && c != p && p !in Below(f, {c}) && f[p].target == NULL
      modifies this
      ensures Valid() && f == InsertedAt(old(f), c, p, |old(f)[p].kids|)
      ensures SameDataBut(old(nodes), nodes, c) && p in old(nodes) && c in nodes
      ensures nodes[c].ownerDocument == old(nodes)[p].ownerDocument
    {
      hide Tree, Plain, Shows, Below, InsertedAt, PutIn;
      ghost var before, kids := nodes, f[p].kids;
      var prev := LastChild(p);
      LinkAfter(p, c, prev);
      PutInData(before, nodes, p, kids, |kids|, c);
      PutInShows(before, nodes, f, p, |kids|, c);
      InsertedTree(f, c, p, |kids|);
      InsertedPlain(f, c, p, |kids|);
      f := InsertedAt(f, c, p, |kids|);
    }

    static lemma InsertedPlain(f: Forest, c: Ptr, p: Ptr, i: nat)
      requires Plain(f) && c in f && p in f && i <= |f[p].kids|
      ensures Plain(InsertedAt(f, c, p, i))
    {
      hide Below, KidsWith;
    }

    /** The last child, or NULL. */
    method LastChild(p: Ptr) returns (last: Ptr)
      requires Valid() && p in f
      ensures last == Nth(f[p].kids, |f[p].kids| - 1) && p in nodes
    {
      hide Tree, Plain, Shows;
      FirstIs(nodes, f, p);
      var next := nodes[p].firstChild;
      last := NULL;
      ghost var kids, i := f[p].kids, 0;
      while next != NULL
        invariant i <= |kids| && next == Nth(kids, i) && last == Nth(kids, i - 1) && (i < |kids| ==> next != NULL)
        decreases |kids| - i
      {
        KidLinks(p, i);
        last := next;
        next := nodes[last].nextSibling;
        i := i + 1;
      }
    }

    lemma KidLinks(p: Ptr, i: nat)
      requires Valid() && p in f && i < |f[p].kids|
      ensures ChildOk(nodes, p, f[p].kids, i) && f[p].kids[i] in f && f[p].kids[i] in nodes
      ensures i + 1 < |f[p].kids| ==> f[p].kids[i + 1] != NULL
    {
      assert LinksOk(nodes, f, p) && NodeOk(f, p);
      assert f[p].kids[i] in f[p].kids;
      if i + 1 < |f[p].kids| { assert f[p].kids[i + 1] in f[p].kids; }
    }

    method LinkAfter(p: Ptr, c: Ptr, prev: Ptr)
      requires Valid() && p in f && c in f && f[c].par == NULL && c != p && prev == Nth(f[p].kids, |f[p].kids| - 1)
      modifies this`nodes
      ensures PutIn(old(nodes), nodes, p, f[p].kids, |f[p].kids|, c)
      ensures p in old(nodes) && c in nodes && nodes[c].ownerDocument == old(nodes)[p].ownerDocument
    {
      PlaceApart(p, c, |f[p].kids|);
      hide Tree, Plain, Shows;
      nodes := nodes[c := nodes[c].(parentNode := p, ownerDocument := nodes[p].ownerDocument)];
      if nodes[p].firstChild == NULL {
        nodes := nodes[p := nodes[p].(firstChild := c)];
      } else {
        nodes := nodes[prev := nodes[prev].(nextSibling := c)];
        nodes := nodes[c := nodes[c].(prevSibling := prev)];
      }
    }

    /** The nodes around a place among the children of p, and a root, are all there and distinct. */
    lemma PlaceApart(p: Ptr, c: Ptr, i: nat)
      requires Valid() && p in f && c in f && f[c].par == NULL && c != p && i <= |f[p].kids|
      ensures NULL !in nodes && p in nodes && c in nodes && (nodes[p].firstChild == NULL <==> f[p].kids == [])
      ensures nodes[c].parentNode == nodes[c].prevSibling == nodes[c].nextSibling == NULL
      ensures var prev, next := Nth(f[p].kids, i - 1), Nth(f[p].kids, i);
              && (i > 0 ==> prev in nodes && prev != c && prev != p && prev != NULL && prev != next)
              && (i < |f[p].kids| ==> next in nodes && next != c && next != p && next != NULL)
              && (i < |f[p].kids| ==> nodes[next].prevSibling == prev && nodes[next].parentNode == p)
    {
      ParentIs(nodes, f, c);
      FirstIs(nodes, f, p);
      NotOwnChild(f, p);
      RootApart(f, p, i, c);
      assert NodeOk(f, p);
      if i > 0 {
        KidLinks(p, i - 1);
        assert f[p].kids[i - 1] in f[p].kids;
      }
      if i < |f[p].kids| {
        KidLinks(p, i);
        assert f[p].kids[i] in f[p].kids;
      }
    }

    /** Inserts a child in front of another, which must be given. */
    method InsertBefore(p: Ptr, c: Ptr, r: Ptr) returns (code: Code)
      requires Valid() && (p != NULL ==> p in f) && (c != NULL ==> c in f)
      requires p != NULL && c != NULL ==>
        r in f && c != p && c != r && (f[c].par == NULL || f[c].par == p)
      modifies this
      ensures Valid()
      ensures code == if p == NULL || c == NULL then InvalidParameter
                      else if old(!AllowChildren(nodes[p].nodeType, nodes[c].nodeType) || c in f[p].anc)
                      then HierarchyRequestErr
                      else if old(nodes[p].ownerDocument != nodes[c].ownerDocument) then WrongDocumentErr
                      else if old(f[r].par != p) then NotFoundErr else Success
      ensures code != Success ==> nodes == old(nodes) && f == old(f)
      ensures code == Success ==>
        exists i :: 0 <= i < |Cleared(old(f), c)[p].kids| && Cleared(old(f), c)[p].kids[i] == r
            && ChildPut(old(f), f, p, c, i)
      ensures code == Success ==> SameData(old(nodes), nodes)
      ensures old(Typed(nodes, f)) ==> Typed(nodes, f)
    {
      hide Tree, Plain, Shows, Below, Later, AllowChildren, Detached, InsertedAt, ChildPut, Typed;
      if p == NULL || c == NULL {
        return InvalidParameter;
      }
      KeysAgree();
      if !AllowChildren(nodes[p].nodeType, nodes[c].nodeType) {
        return HierarchyRequestErr;
      }
      SearchIsAncestry(c, p);
      var isAncestor := IsAncestor(c, p);
      if isAncestor {
        return HierarchyRequestErr;
      }
      if nodes[p].ownerDocument != nodes[c].ownerDocument {
        return WrongDocumentErr;
      }
      ParentIs(nodes, f, r);
      if nodes[r].parentNode != p {
        return NotFoundErr;
      }
      ghost var f0 := f;
      OtherStays(f, p, c, r);
      Clear(p, c);
      ghost var i := KidPlace(p, r);
      LinkBefore(p, c, r, i);
      Put(f0, f, p, c, i);
      if old(Typed(nodes, f)) {
        PutTyped(old(nodes), nodes, f0, f, p, c, i);
      }
      return Success;
    }

    /** Taking c out leaves r a child. */
    static lemma OtherStays(f: Forest, p: Ptr, c: Ptr, r: Ptr)
      requires Tree(f) && p in f && c in f && r in f && r != c && f[r].par == p
      ensures r in Cleared(f, c) && Cleared(f, c)[r].par == p && p in Cleared(f, c)
    {
      hide Below, Without;
    }

    lemma KidPlace(p: Ptr, r: Ptr) returns (i: nat)
      requires Valid() && p in f && r in f && f[r].par == p
      ensures i < |f[p].kids| && f[p].kids[i] == r
    {
      i := Standing(nodes, f, r);
    }

    method LinkBefore(p: Ptr, c: Ptr, r: Ptr, ghost i: nat)
      requires Valid() && p in f && c in f && f[c].par == NULL && c != p && p !in Below(f, {c}) && f[p].target == NULL
      requires i < |f[p].kids| && f[p].kids[i] == r
      modifies this
      ensures Valid() && f == InsertedAt(old(f), c, p, i) && SameData(old(nodes), nodes)
    {
      hide Tree, Plain, Shows, Below, InsertedAt, PutIn;
      ghost var before := nodes;
      LinkInFront(p, c, r, i);
      PutInData(before, nodes, p, f[p].kids, i, c);
      PutInShows(before, nodes, f, p, i, c);
      InsertedTree(f, c, p, i);
      InsertedPlain(f, c, p, i);
      f := InsertedAt(f, c, p, i);
    }

    method LinkInFront(p: Ptr, c: Ptr, r: Ptr, ghost i: nat)
      requires Valid() && p in f && c in f && f[c].par == NULL && c != p && i < |f[p].kids| && f[p].kids[i] == r
      modifies this`nodes
      ensures PutIn(old(nodes), nodes, p, f[p].kids, i, c)
      ensures c in nodes && c in old(nodes) && nodes[c].ownerDocument == old(nodes)[c].ownerDocument
    {
      hide Tree, Plain, Shows, PutIn, BesideLinked;
      PlaceApart(p, c, i);
      ghost var before := nodes;
      LinkBeside(c, r);
      ghost var beside := nodes;
      BesideKept(before, beside, c, r, p);
      if nodes[c].prevSibling == NULL {
        nodes := nodes[p := nodes[p].(firstChild := c)];
      }
      nodes := nodes[c := nodes[c].(parentNode := p)];
      LinkedInFront(before, beside, nodes, p, c, r, f[p].kids, i);
    }

    /** m2 is m with c between r and what was in front of it. */
    static predicate BesideLinked(m: Nodes, m2: Nodes, c: Ptr, r: Ptr) {
      && c in m && r in m && m2.Keys == m.Keys
      && m2[c] == m[c].(nextSibling := r, prevSibling := m[r].prevSibling)
      && forall y :: y in m && y != c ==>
           m2[y] == m[y].(nextSibling := if y == m[r].prevSibling then c else m[y].nextSibling,
                          prevSibling := if y == r then c else m[y].prevSibling)
    }

    method LinkBeside(c: Ptr, r: Ptr)
      requires NULL !in nodes && c in nodes && r in nodes && c != r && nodes[c].prevSibling == NULL
      requires var prev := nodes[r].prevSibling; prev != NULL ==> prev in nodes && prev != c && prev != r
      modifies this`nodes
      ensures BesideLinked(old(nodes), nodes, c, r)
    {
      nodes := nodes[c := nodes[c].(nextSibling := r)];
      var prev := nodes[r].prevSibling;
      if prev != NULL {
        nodes := nodes[prev := nodes[prev].(nextSibling := c)];
        nodes := nodes[c := nodes[c].(prevSibling := prev)];
      }
      nodes := nodes[r := nodes[r].(prevSibling := c)];
    }

    static lemma BesideKept(m: Nodes, m2: Nodes, c: Ptr, r: Ptr, p: Ptr)
      requires BesideLinked(m, m2, c, r) && p in m && r in m
      ensures c in m && c in m2 && p in m2 && m2[c].ownerDocument == m[c].ownerDocument
      ensures m2[c].prevSibling == m[r].prevSibling
    {
    }

    /** With parent and first child set the child is put in. */
    static lemma LinkedInFront(m: Nodes, m2: Nodes, m3: Nodes, p: Ptr, c: Ptr, r: Ptr, kids: seq<Ptr>, i: nat)
      requires BesideLinked(m, m2, c, r) && i < |kids| && r == kids[i] && r in m && m[r].prevSibling == Nth(kids, i - 1)
      requires NULL !in m && p in m && p in m2 && c in m2 && c != p && r != c && r != p
      requires i > 0 ==> kids[i - 1] in m && kids[i - 1] != c && kids[i - 1] != p && kids[i - 1] != r
      requires var first := if m2[c].prevSibling == NULL then m2[p := m2[p].(firstChild := c)] else m2;
               m3 == first[c := first[c].(parentNode := p)]
      ensures PutIn(m, m3, p, kids, i, c)
    {
    }

    /** Puts a child in the place of another. */
    method ReplaceChild(p: Ptr, c: Ptr, o: Ptr) returns (code: Code)
      requires Valid() && (p != NULL ==> p in f) && (c != NULL ==> c in f) && (o != NULL ==> o in f)
      requires p != NULL && c != NULL && o != NULL ==> c != p && c != o && (f[c].par == NULL || f[c].par == p)
      modifies this
      ensures Valid()
      ensures code == if p == NULL || c == NULL || o == NULL then InvalidParameter
                      else if old(c in f[p].anc || !AllowChildren(nodes[p].nodeType, nodes[c].nodeType))
                      then HierarchyRequestErr
                      else if old(nodes[p].ownerDocument != nodes[c].ownerDocument) then WrongDocumentErr
                      else if old(f[o].par != p) then NotFoundErr else Success
      ensures code != Success ==> nodes == old(nodes) && f == old(f)
      ensures code == Success ==> exists i ::
        && 0 <= i < |Cleared(old(f), c)[p].kids| && Cleared(old(f), c)[p].kids[i] == o
        && ReplacedAt(old(f), f, p, c, o, i)
        && o in f && p in f && f[o].par == NULL && f[p].kids == Cleared(old(f), c)[p].kids[i := c]
      ensures code == Success ==> SameData(old(nodes), nodes)
      ensures old(Typed(nodes, f)) ==> Typed(nodes, f)
    {
      hide Tree, Plain, Shows, Below, Later, AllowChildren, Detached, InsertedAt, ChildPut, Typed;
      if p == NULL || c == NULL || o == NULL {
        return InvalidParameter;
      }
      KeysAgree();
      SearchIsAncestry(c, p);
      var isAncestor := IsAncestor(c, p);
      if isAncestor {
        return HierarchyRequestErr;
      }
      if !AllowChildren(nodes[p].nodeType, nodes[c].nodeType) {
        return HierarchyRequestErr;
      }
      if nodes[p].ownerDocument != nodes[c].ownerDocument {
        return WrongDocumentErr;
      }
      ParentIs(nodes, f, o);
      if nodes[o].parentNode != p {
        return NotFoundErr;
      }
      ghost var f0 := f;
      code := InsertBefore(p, c, o);
      ghost var i :| 0 <= i < |Cleared(f0, c)[p].kids| && Cleared(f0, c)[p].kids[i] == o && ChildPut(f0, f, p, c, i);
      ghost var f1 := f;
      PutParent(f0, f1, p, c, o, i);
      code := RemoveChild(p, o);
      Replaced(f0, f1, f, p, c, o, i);
      assert ReplacedAt(f0, f, p, c, o, i);
    }

    /** The new child is put in front of the old one, which is then cut off. */
    static ghost predicate ReplacedAt(f: Forest, f2: Forest, p: Ptr, c: Ptr, o: Ptr, i: nat) {
      exists g :: ChildPut(f, g, p, c, i) && o in g && f2 == Detached(g, o)
    }

    static lemma PutParent(f: Forest, g: Forest, p: Ptr, c: Ptr, o: Ptr, i: nat)
      requires Tree(f) && c in f && o in f && p in f && c != o && f[o].par == p && ChildPut(f, g, p, c, i)
      ensures o in g && p in g && g[o].par == p
    {
      OtherStays(f, p, c, o);
      hide Below, Detached, KidsWith;
    }

    static lemma Replaced(f0: Forest, f1: Forest, f2: Forest, p: Ptr, c: Ptr, o: Ptr, i: nat)
      requires Tree(f1) && ChildPut(f0, f1, p, c, i) && c != o && o in f1 && f2 == Detached(f1, o)
      requires i < |Cleared(f0, c)[p].kids| && Cleared(f0, c)[p].kids[i] == o
      ensures o in f2 && p in f2 && f2[o].par == NULL && f2[p].kids == Cleared(f0, c)[p].kids[i := c]
    {
      hide Below, Without, Tree;
      var kids := Cleared(f0, c)[p].kids;
      NoTwins(f1, p);
      assert f1[p].kids == KidsWith(kids, i, c);
      assert f1[p].kids[i + 1] == o;
      WithoutOne(f1[p].kids, i + 1);
      KidsSwapped(kids, i, c);
    }

    static lemma NoTwins(f: Forest, p: Ptr)
      requires Tree(f) && p in f
      ensures NoDup(f[p].kids)
    {
      assert NodeOk(f, p);
    }

    static lemma KidsSwapped(s: seq<Ptr>, i: nat, c: Ptr)
      requires i < |s|
      ensures var r := KidsWith(s, i, c); r[..i + 1] + r[i + 2..] == s[i := c]
    {
    }
  }

  /** What the operations mean for the sequence of children: c is taken out if it was there and put
      in front of the i-th of the others; no other node's children change, and no node's parent
      but that of c. */
  lemma ChildSequence(f: Forest, g: Forest, p: Ptr, c: Ptr, i: nat)
    requires Tree(f) && ChildPut(f, g, p, c, i) && (f[c].par == NULL || f[c].par == p) && c != p
    ensures var others := Without(f[p].kids, {c});
            && p in g && c in g && g.Keys == f.Keys && i <= |others|
            && g[p].kids == others[..i] + [c] + others[i..] && g[c].par == p
    ensures forall x :: x in f && x != p ==> g[x].kids == f[x].kids
    ensures forall x :: x in f && x != c ==> g[x].par == f[x].par
  {
    ClearedKids(f, p, c);
    hide Below, Detached, Without, Tree;
  }

  lemma ClearedKids(f: Forest, p: Ptr, c: Ptr)
    requires Tree(f) && p in f && c in f && (f[c].par == NULL || f[c].par == p)
    ensures var g := Cleared(f, c);
            && g.Keys == f.Keys && g[p].kids == Without(f[p].kids, {c})
            && (forall x :: x in f && x != p ==> g[x].kids == f[x].kids)
            && (forall x :: x in f && x != c ==> g[x].par == f[x].par)
  {
    hide Below;
    forall x | x in f && (x != p || f[c].par == NULL) ensures Without(f[x].kids, {c}) == f[x].kids {
      assert NodeOk(f, x) && NodeOk(f, c);
      WithoutNone(f[x].kids, {c});
    }
    hide Without, Tree;
  }

  /** What replacing means: the new child stands in the old one's place, the old one is a root, and no
      other node's children or parent change. */
  lemma ReplacedSequence(f: Forest, f2: Forest, p: Ptr, c: Ptr, o: Ptr, i: nat)
    requires Tree(f) && Dom.ReplacedAt(f, f2, p, c, o, i) && c in f && p in f && o in f && c != p && c != o
    requires (f[c].par == NULL || f[c].par == p) && f[o].par == p && c !in f[p].anc && f[p].target == NULL
    requires i < |Without(f[p].kids, {c})| && Without(f[p].kids, {c})[i] == o
    ensures f2.Keys == f.Keys && f2[p].kids == Without(f[p].kids, {c})[i := c]
    ensures f2[c].par == p && f2[o].par == NULL
    ensures forall x :: x in f && x != p ==> f2[x].kids == f[x].kids
    ensures forall x :: x in f && x != c && x != o ==> f2[x].par == f[x].par
  {
    hide Tree, Below, Without, Detached, ChildPut;
    var g :| ChildPut(f, g, p, c, i) && o in g && f2 == Detached(g, o);
    ChildSequence(f, g, p, c, i);
    PutTree(f, g, p, c, i);
    ClearedKids(f, p, c);
    Dom.Replaced(f, g, f2, p, c, o, i);
    ClearedKids(g, p, o);
    assert Cleared(g, o) == f2;
  }

  /** Putting a child in leaves a forest. */
  lemma PutTree(f: Forest, g: Forest, p: Ptr, c: Ptr, i: nat)
    requires Tree(f) && ChildPut(f, g, p, c, i) && c in f && p in f && c != p && c !in f[p].anc
    requires f[p].target == NULL
    ensures Tree(g)
  {
    Dom.NotBelow(f, p, c);
    hide Tree, Below, Detached;
    if f[c].par != NULL {
      DetachedTree(f, c);
    }
    InsertedTree(Cleared(f, c), c, p, i);
  }

  /** What removing means: the child is a root, and no other node's children or parent change. */
  lemma RemovedSequence(f: Forest, p: Ptr, c: Ptr)
    requires Tree(f) && p in f && c in f && f[c].par == p
    ensures var g := Detached(f, c);
            && g.Keys == f.Keys && g[c].par == NULL && g[p].kids == Without(f[p].kids, {c})
            && (forall x :: x in f && x != p ==> g[x].kids == f[x].kids)
            && (forall x :: x in f && x != c ==> g[x].par == f[x].par)
  {
    ClearedKids(f, p, c);
    assert f[c].par != NULL by { ParentThere(f, c, p); }
    hide Tree, Below, Without;
  }

  lemma ParentThere(f: Forest, c: Ptr, p: Ptr)
    requires Tree(f) && p in f
    ensures p != NULL
  {
  }
}
