/** The doubly linked list with sentinels that every queue is made of, and the recycler of its nodes. */
module LinkedList {

  type Item = int

  // at most one fewer nodes are kept for reuse
  const FREELISTSIZE := 100

  class ListNode {
    var prev: ListNode?
    var next: ListNode?
    var item: Item

    constructor (item: Item)
      ensures prev == null && next == null && this.item == item
    {
      prev, next, this.item := null, null, item;
    }
  }

  /** Elements released are kept, last in first out, up to a bound, and handed out again. */
  class FreeList {
    var kept: seq<ListNode>
    const maxFreeListLength: int

    constructor (maxFreeListLength: int)
      ensures kept == [] && this.maxFreeListLength == maxFreeListLength
    {
      kept, this.maxFreeListLength := [], maxFreeListLength;
    }

    method Alloc() returns (element: ListNode)
      modifies this
      ensures if old(kept) != [] then element == old(kept)[0] && kept == old(kept)[1..]
              else fresh(element) && kept == []
    {
      if kept != [] {
        element := kept[0];
        kept := kept[1..];
      } else {
        element := new ListNode(0);
      }
    }

    method Free(element: ListNode)
      modifies this
      ensures kept == if |old(kept)| + 1 < maxFreeListLength then [element] + old(kept) else old(kept)
    {
      if |kept| + 1 < maxFreeListLength {
        kept := [element] + kept;
      }
    }

    method Destroy()
      modifies this
      ensures kept == []
    {
      while kept != []
        decreases |kept|
      {
        kept := kept[1..];
      }
    }
  }

  ghost predicate NoTwice(s: seq<ListNode>) {
    forall i, j :: 0 <= i < j < |s| ==> s[i] != s[j]
  }

  class LinkedList {
    const head: ListNode
    const tail: ListNode
    const free: FreeList
    const matches: (Item, Item) -> bool
    var size: int
    // all nodes in list order, the sentinels among them
    ghost var spine: seq<ListNode>

    /** Two neighbours in a chain of nodes. */
    static ghost predicate Joined(s: seq<ListNode>, k: nat)
      requires k + 1 < |s|
      reads s
    {
      s[k].next == s[k + 1] && s[k + 1].prev == s[k]
    }

    ghost predicate Valid()
      reads this, spine, free
    {
      && |spine| == size + 2 >= 2 && spine[0] == head && spine[|spine| - 1] == tail
      && NoTwice(spine + free.kept)
      && (forall i {:trigger Joined(spine, i)} :: 0 <= i < |spine| - 1 ==> Joined(spine, i))
      && tail.next == null && head.prev == null
    }

    /** The items of the list. */
    ghost function Items(): (items: seq<Item>)
      requires |spine| >= 2
      reads this, spine
      ensures |items| == |spine| - 2
    {
      seq(|spine| - 2, i requires 0 <= i < |spine| - 2 reads this, spine => spine[i + 1].item)
    }

    constructor (matches: (Item, Item) -> bool)
      ensures Valid() && Items() == [] && fresh(spine) && fresh(free) && free.kept == [] && this.matches == matches
    {
      var h := new ListNode(0);
      var t := new ListNode(0);
      var recycler := new FreeList(FREELISTSIZE);
      head, tail, free, size, this.matches := h, t, recycler, 0, matches;
      spine := [h, t];
      new;
      head.next := tail;
      tail.prev := head;
      assert Joined(spine, 0);
    }

    static ghost function PutAt<T>(s: seq<T>, i: nat, x: T): (r: seq<T>)
      requires i <= |s|
      ensures |r| == |s| + 1
      ensures forall k :: 0 <= k < |r| ==> r[k] == if k < i then s[k] else if k == i then x else s[k - 1]
    {
      s[..i] + [x] + s[i..]
    }

    static ghost function TakenAt<T>(s: seq<T>, i: nat): (r: seq<T>)
      requires i < |s|
      ensures |r| == |s| - 1
      ensures forall k :: 0 <= k < |r| ==> r[k] == s[if k < i then k else k + 1]
    {
      s[..i] + s[i + 1..]
    }

    /** A node for the item, recycled if possible. */
    method CreateListNode(item: Item) returns (node: ListNode)
      requires Valid()
      modifies free, free.kept
      ensures spine == old(spine) && node !in spine && node !in free.kept
      ensures node.item == item && Valid() && Items() == old(Items())
      ensures if old(free.kept) != [] then node == old(free.kept)[0] && free.kept == old(free.kept)[1..]
              else fresh(node) && free.kept == []
    {
      hide NoTwice;
      ghost var kept := free.kept;
      KeptApart(spine, kept);
      node := free.Alloc();
      node.prev := null;
      node.next := null;
      node.item := item;
      forall i | 0 <= i < |spine| - 1 ensures Joined(spine, i) {
        assert old(Joined(spine, i)) && spine[i] != node && spine[i + 1] != node;
      }
    }

    /** Nodes kept for reuse are not in the list, and without the first of them still are not. */
    static lemma KeptApart(spine: seq<ListNode>, kept: seq<ListNode>)
      requires NoTwice(spine + kept)
      ensures NoTwice(spine + []) && (kept != [] ==>
        NoTwice(spine + kept[1..]) && kept[0] !in spine && kept[0] !in kept[1..])
    {
      var all := spine + kept;
      assert forall i :: 0 <= i < |kept| ==> kept[i] == all[|spine| + i];
      assert forall i :: 0 <= i < |spine| ==> spine[i] == all[i];
    }

    /** Links a new node between two neighbours. */
    method AddBetween(item: Item, b: ListNode, a: ListNode, ghost i: nat) returns (node: ListNode)
      requires Valid() && i + 1 < |spine| && b == spine[i] && a == spine[i + 1]
      modifies this, free, free.kept, b, a
      ensures Valid() && spine == PutAt(old(spine), i + 1, node) && Items() == PutAt(old(Items()), i, item)
      ensures if old(free.kept) != [] then node == old(free.kept)[0] && free.kept == old(free.kept)[1..]
              else fresh(node) && free.kept == []
    {
      hide NoTwice, PutAt;
      ghost var items := Items();
      node := CreateListNode(item);
      ghost var before := spine;
      LinkBetween(node, b, a, i);
      size := size + 1;
      Relinked(before, free.kept, node, i);
      Spliced(before, node, i);
      spine := PutAt(before, i + 1, node);
      ItemsPut(before, items, node, i);
    }

    method LinkBetween(node: ListNode, b: ListNode, a: ListNode, ghost i: nat)
      requires Valid() && i + 1 < |spine| && b == spine[i] && a == spine[i + 1] && node !in spine
      modifies node, b, a
      ensures b.next == node == a.prev && node.prev == b && node.next == a
      ensures forall k {:trigger Joined(spine, k)} :: 0 <= k < |spine| - 1 && k != i ==> Joined(spine, k)
      ensures tail.next == null && head.prev == null && node.item == old(node.item)
      ensures forall n :: n in spine ==> n.item == old(n.item)
    {
      hide NoTwice;
      Ends(i);
      b.next := node;
      node.prev := b;
      node.next := a;
      a.prev := node;
      forall k | 0 <= k < |spine| - 1 && k != i ensures Joined(spine, k) {
        assert old(Joined(spine, k));
        assert spine[k] != node && spine[k + 1] != node;
      }
    }

    static lemma Spliced(before: seq<ListNode>, node: ListNode, i: nat)
      requires i + 1 < |before| && before[i].next == node == before[i + 1].prev
      requires node.prev == before[i] && node.next == before[i + 1]
      requires forall k {:trigger Joined(before, k)} :: 0 <= k < |before| - 1 && k != i ==> Joined(before, k)
      ensures var after := PutAt(before, i + 1, node);
              && (forall k {:trigger Joined(after, k)} :: 0 <= k < |after| - 1 ==> Joined(after, k))
              && after[0] == before[0] && after[|after| - 1] == before[|before| - 1]
    {
      var after := PutAt(before, i + 1, node);
      forall k | 0 <= k < |after| - 1 ensures Joined(after, k) {
        if k < i {
          assert Joined(before, k);
        } else if k > i + 1 {
          assert Joined(before, k - 1);
        }
      }
    }

    lemma ItemsPut(before: seq<ListNode>, items: seq<Item>, node: ListNode, i: nat)
      requires i + 1 < |before| && spine == PutAt(before, i + 1, node) && |items| == |before| - 2
      requires forall k :: 0 <= k < |items| ==> items[k] == before[k + 1].item
      ensures Items() == PutAt(items, i, node.item)
    {
    }

    lemma Ends(i: nat)
      requires Valid() && i + 1 < |spine|
      ensures forall k :: 0 <= k < |spine| && k != i ==> spine[k] != spine[i]
      ensures forall k :: 0 <= k < |spine| && k != i + 1 ==> spine[k] != spine[i + 1]
    {
      var all := spine + free.kept;
      assert forall k :: 0 <= k < |spine| ==> spine[k] == all[k];
    }

    static lemma Relinked(before: seq<ListNode>, kept: seq<ListNode>, node: ListNode, i: nat)
      requires i + 1 < |before| && NoTwice(before + kept) && node !in before && node !in kept
      ensures NoTwice(PutAt(before, i + 1, node) + kept)
    {
      var all, now := before + kept, PutAt(before, i + 1, node) + kept;
      forall j, k | 0 <= j < k < |now| ensures now[j] != now[k] {
        var j0 := if j <= i then j else j - 1;
        var k0 := if k <= i then k else k - 1;
        assert j != i + 1 ==> now[j] == all[j0];
        assert k != i + 1 ==> now[k] == all[k0];
        assert all[j0] in before || all[j0] in kept;
        assert all[k0] in before || all[k0] in kept;
      }
    }

    method AddAfter(item: Item, bnode: ListNode, ghost i: nat) returns (node: ListNode)
      requires Valid() && i + 1 < |spine| && bnode == spine[i]
      modifies this, free, free.kept, spine
      ensures Valid() && spine == PutAt(old(spine), i + 1, node) && Items() == PutAt(old(Items()), i, item)
      ensures node in old(free.kept) || fresh(node)
    {
      assert Joined(spine, i);
      node := AddBetween(item, bnode, bnode.next, i);
    }

    method AddBefore(item: Item, anode: ListNode, ghost i: nat) returns (node: ListNode)
      requires Valid() && i + 1 < |spine| && anode == spine[i + 1]
      modifies this, free, free.kept, spine
      ensures Valid() && spine == PutAt(old(spine), i + 1, node) && Items() == PutAt(old(Items()), i, item)
      ensures node in old(free.kept) || fresh(node)
    {
      assert Joined(spine, i);
      node := AddBetween(item, anode.prev, anode, i);
    }

    method AddHead(item: Item) returns (node: ListNode)
      requires Valid()
      modifies this, free, free.kept, spine
      ensures Valid() && Items() == [item] + old(Items()) && spine == PutAt(old(spine), 1, node)
    {
      node := AddAfter(item, head, 0);
    }

    method AddTail(item: Item) returns (node: ListNode)
      requires Valid()
      modifies this, free, free.kept, spine
      ensures Valid() && Items() == old(Items()) + [item] && spine == PutAt(old(spine), |old(spine)| - 1, node)
    {
      node := AddBefore(item, tail, |spine| - 2);
    }

    /** Takes a node out; it is kept for reuse, or released when enough are kept. */
    method DelNode(dnode: ListNode, ghost i: nat) returns (item: Item)
      requires Valid() && 0 < i < |spine| - 1 && dnode == spine[i]
      modifies this, free, spine
      ensures Valid() && item == old(Items())[i - 1]
      ensures spine == TakenAt(old(spine), i) && Items() == TakenAt(old(Items()), i - 1)
      ensures free.kept == old(free.kept) || free.kept == [dnode] + old(free.kept)
    {
      hide NoTwice, TakenAt, Valid, Joined;
      Parts();
      ghost var before, items := spine, Items();
      item := dnode.item;
      PassBy(dnode, i);
      Bypassed(before, i);
      Unlinked(before, free.kept, i);
      free.Free(dnode);
      size := size - 1;
      spine := TakenAt(before, i);
      Whole();
      ItemsTaken(before, items, i);
    }

    /** What a valid list is, but for the links inside. */
    lemma Parts()
      requires Valid()
      ensures |spine| == size + 2 >= 2 && spine[0] == head && spine[|spine| - 1] == tail
      ensures NoTwice(spine + free.kept) && tail.next == null && head.prev == null
    {
    }

    lemma Whole()
      requires |spine| == size + 2 >= 2 && spine[0] == head && spine[|spine| - 1] == tail
      requires NoTwice(spine + free.kept) && tail.next == null && head.prev == null
      requires forall i {:trigger Joined(spine, i)} :: 0 <= i < |spine| - 1 ==> Joined(spine, i)
      ensures Valid()
    {
    }

    /** The neighbours of a node lead past it. */
    method PassBy(dnode: ListNode, ghost i: nat)
      requires Valid() && 0 < i < |spine| - 1 && dnode == spine[i]
      modifies spine
      ensures spine[i - 1].next == spine[i + 1] && spine[i + 1].prev == spine[i - 1]
      ensures forall k {:trigger Joined(spine, k)} :: 0 <= k < |spine| - 1 && k != i - 1 && k != i ==> Joined(spine, k)
      ensures tail.next == null && head.prev == null && forall n :: n in spine ==> n.item == old(n.item)
    {
      hide NoTwice;
      Around(i);
      dnode.prev.next := dnode.next;
      dnode.next.prev := dnode.prev;
      forall k | 0 <= k < |spine| - 1 && k != i - 1 && k != i ensures Joined(spine, k) {
        assert old(Joined(spine, k));
      }
    }

    /** A node that is no sentinel, its neighbours, and that they are distinct from all others. */
    lemma Around(i: nat)
      requires Valid() && 0 < i < |spine| - 1
      ensures spine[i].prev == spine[i - 1] && spine[i].next == spine[i + 1]
      ensures forall k :: 0 <= k < |spine| && k != i - 1 ==> spine[k] != spine[i - 1]
      ensures forall k :: 0 <= k < |spine| && k != i + 1 ==> spine[k] != spine[i + 1]
    {
      assert Joined(spine, i - 1) && Joined(spine, i);
      Ends(i - 1);
      Ends(i);
    }

    static lemma Bypassed(before: seq<ListNode>, i: nat)
      requires 0 < i < |before| - 1 && before[i - 1].next == before[i + 1] && before[i + 1].prev == before[i - 1]
      requires forall k {:trigger Joined(before, k)} ::
        0 <= k < |before| - 1 && k != i - 1 && k != i ==> Joined(before, k)
      ensures var after := TakenAt(before, i);
              && (forall k {:trigger Joined(after, k)} :: 0 <= k < |after| - 1 ==> Joined(after, k))
              && after[0] == before[0] && after[|after| - 1] == before[|before| - 1]
    {
      var after := TakenAt(before, i);
      forall k | 0 <= k < |after| - 1 ensures Joined(after, k) {
        if k < i - 1 {
          assert Joined(before, k);
        } else if k >= i {
          assert Joined(before, k + 1);
        }
      }
    }

    /** The node taken out may be kept for reuse or not. */
    static lemma Unlinked(before: seq<ListNode>, kept: seq<ListNode>, i: nat)
      requires i < |before| && NoTwice(before + kept)
      ensures NoTwice(TakenAt(before, i) + kept) && NoTwice(TakenAt(before, i) + ([before[i]] + kept))
    {
      var all := before + kept;
      var now := TakenAt(before, i) + ([before[i]] + kept);
      forall j, k | 0 <= j < k < |now| ensures now[j] != now[k] {
        assert now[j] == all[Origin(before, i, j)];
        assert now[k] == all[Origin(before, i, k)];
      }
      var less := TakenAt(before, i) + kept;
      forall j, k | 0 <= j < k < |less| ensures less[j] != less[k] {
        assert less[j] == all[if j < i then j else j + 1];
        assert less[k] == all[if k < i then k else k + 1];
      }
    }

    /** Where an element stood before the i-th was moved behind the last. */
    static function Origin(before: seq<ListNode>, i: nat, j: nat): nat {
      if j < i then j else if j < |before| - 1 then j + 1 else if j == |before| - 1 then i else j
    }

    lemma ItemsTaken(before: seq<ListNode>, items: seq<Item>, i: nat)
      requires 0 < i < |before| - 1 && spine == TakenAt(before, i) && |items| == |before| - 2
      requires forall k :: 0 <= k < |items| ==> items[k] == before[k + 1].item
      ensures Items() == TakenAt(items, i - 1)
    {
    }

    method Head() returns (node: ListNode?)
      requires Valid()
      ensures node == if Items() == [] then null else spine[1]
    {
      assert Joined(spine, 0);
      node := if size == 0 then null else head.next;
    }

    method Next(node: ListNode, ghost i: nat) returns (next: ListNode?)
      requires Valid() && 0 <= i < |spine| - 1 && node == spine[i]
      ensures next == if i + 2 == |spine| then null else spine[i + 1]
    {
      assert Joined(spine, i);
      Ends(i);
      assert i + 2 < |spine| ==> spine[|spine| - 1] != spine[i + 1];
      next := if node.next == tail then null else node.next;
    }

    /** The first node behind the start whose item matches, or null. */
    method Find(start: ListNode?, item: Item, ghost i: nat) returns (finger: ListNode?)
      requires Valid() && i < |spine| - 1 && (start == spine[i] || (start == null && i == 0))
      ensures if exists k :: i < k < |spine| - 1 && matches(item, spine[k].item) then
                exists k :: i < k < |spine| - 1 && finger == spine[k] && matches(item, spine[k].item)
                  && forall j :: i < j < k ==> !matches(item, spine[j].item)
              else finger == null
    {
      var from := if start == null then head else start;
      ghost var k := i + 1;
      assert Joined(spine, i);
      finger := from.next;
      while finger != tail
        invariant i < k < |spine| && finger == spine[k]
        invariant forall j :: i < j < k ==> !matches(item, spine[j].item)
        decreases |spine| - k
      {
        if matches(item, finger.item) {
          return finger;
        }
        assert Joined(spine, k);
        finger := finger.next;
        k := k + 1;
      }
      LastOnly(k);
      return null;
    }

    lemma LastOnly(k: nat)
      requires Valid() && 0 < k < |spine| && spine[k] == tail
      ensures k == |spine| - 1
    {
      Ends(k - 1);
    }

    /** Deletes every node and releases those kept. */
    method Destroy()
      requires Valid()
      modifies this, free, spine
      ensures Valid() && Items() == [] && size == 0 && free.kept == []
    {
      while size > 0
        invariant Valid() && forall k :: 0 <= k < |spine| ==> spine[k] in old(spine)
        decreases size
      {
        assert Joined(spine, 0);
        var item := DelNode(head.next, 1);
      }
      free.Destroy();
      assert spine == [head, tail];
      assert Joined(spine, 0);
    }
  }
}
