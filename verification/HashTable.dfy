/** The hash table: bucket heads in an array, overflow cells linked in memory. */
module HashTable {
  import opened Addresses
  import opened Primes
  import opened HashSpec
  import opened HashCells
  import opened HashSizing

  class HashTable {
    var bucket: array<Cell>
    var nBuckets: nat
    var nBucketsUsed: nat
    var nEntries: nat
    var tuning: Tuning
    const functions: Functions
    var freeEntryList: Addr
    // the overflow cells allocated so far
    var cells: Cells
    ghost var place: Places
    ghost var lists: Lists
    ghost var gen: nat

    /** Chains and free list are linked as the ghost lists say. */
    ghost predicate Memory()
      reads this`cells, this`place, this`lists, this`freeEntryList
    {
      && Linked(cells, place, lists) && FreeList in lists && freeEntryList == Top(lists[FreeList])
      && place.Keys <= cells.Keys
    }

    /** Every chain belongs to a bucket of this table, and every cell is in a chain or free. */
    ghost predicate Shape()
      reads this`cells, this`place, this`lists, this`freeEntryList, this`gen,
            this`bucket, this`nBuckets, bucket
    {
      && bucket.Length == nBuckets && nBuckets > 0
      && Memory() && cells.Keys == place.Keys && HeadsOk(bucket[..], lists, gen) && OnlyLists(lists, gen, nBuckets)
    }

    static ghost predicate OnlyLists(lists: Lists, gen: nat, n: nat) {
      forall id :: id in lists ==> id == FreeList || (id.Chain? && id.gen == gen && id.i < n)
    }

    ghost function Contents(): Contents
      reads this`cells, this`lists, this`gen, this`bucket, bucket
    {
      ContentsOf(bucket[..], cells, lists, gen)
    }

    ghost predicate Valid()
      reads this, bucket
    {
      && Shape() && Compatible(functions) && WellPlaced(Contents(), functions)
      && Distinct(Elements(Contents()), functions)
      && nBucketsUsed == NonEmpty(Contents()) && nEntries == |Flatten(Contents())|
    }

    /* ---- cells ---- */

    method AllocateEntry() returns (a: Addr)
      requires Memory() && cells.Keys == place.Keys
      modifies this`cells, this`place, this`lists, this`freeEntryList
      ensures Memory() && a != NULL && a !in place && cells.Keys == place.Keys + {a}
      ensures KeptBut(old(cells), old(lists), cells, lists, {FreeList})
      ensures if old(freeEntryList) != NULL then a == old(freeEntryList) && cells == old(cells)
              else a !in old(cells) && cells.Keys == old(cells.Keys) + {a}
    {
      if freeEntryList != NULL {
        TopOk(cells, place, lists, FreeList);
        Popped(cells, place, lists, FreeList);
        a := freeEntryList;
        KeptAround(cells, place, lists, cells, lists[FreeList := lists[FreeList][..|lists[FreeList]| - 1]], FreeList,
            a);
        freeEntryList := cells[a].next;
        place := place - {a};
        lists := lists[FreeList := lists[FreeList][..|lists[FreeList]| - 1]];
      } else {
        FreshAddress(cells.Keys);
        a :| a != NULL && a !in cells;
        FloatLinked(a);
        KeptAround(cells, place, lists, cells[a := Cell(NULL, NULL)], lists, FreeList, a);
        cells := cells[a := Cell(NULL, NULL)];
      }
    }

    lemma FloatLinked(a: Addr)
      requires Linked(cells, place, lists) && a !in cells && a != NULL
      ensures Linked(cells[a := Cell(NULL, NULL)], place, lists)
    {
      forall x | x in place ensures CellOk(cells[a := Cell(NULL, NULL)], place, lists, x) {
        assert CellOk(cells, place, lists, x);
      }
    }

    /** A cell that is in no list goes to the front of the free list. */
    method FreeEntry(a: Addr)
      requires Memory() && a != NULL && a in cells && a !in place && cells.Keys == place.Keys + {a}
      modifies this`cells, this`place, this`lists, this`freeEntryList
      ensures Memory() && cells.Keys == place.Keys == old(cells.Keys) && freeEntryList == a
      ensures KeptBut(old(cells), old(lists), cells, lists, {FreeList})
    {
      ghost var s, cells0 := lists[FreeList], cells;
      Pushed(cells, place, lists, FreeList, a, NULL);
      KeptAround(cells, place, lists, cells[a := Cell(NULL, Top(s))], lists[FreeList := s + [a]], FreeList, a);
      cells := cells[a := cells[a].(data := NULL)];
      cells := cells[a := cells[a].(next := freeEntryList)];
      freeEntryList := a;
      assert cells == cells0[a := Cell(NULL, Top(s))];
      hide Linked, KeptBut;
      place := place[a := Place(FreeList, |s|)];
      lists := lists[FreeList := s + [a]];
    }

    /** Links a cell that is in no list right behind the head of a bucket. */
    method AddOverflow(b: array<Cell>, i: nat, a: Addr, data: Data, ghost g: nat)
      requires Memory() && a != NULL && a in cells && a !in place && cells.Keys == place.Keys + {a}
      requires i < b.Length && HeadsOk(b[..], lists, g) && b[i].data != NULL
      modifies b, this`cells, this`place, this`lists
      ensures Memory() && cells.Keys == place.Keys == old(cells.Keys)
      ensures HeadsOk(b[..], lists, g) && KeptBut(old(cells), old(lists), cells, lists, {Chain(g, i)})
      ensures var c := old(ContentsOf(b[..], cells, lists, g));
              ContentsOf(b[..], cells, lists, g) == c[i := Added(c[i], data)]
    {
      ghost var heads, cells0, lists0, id := b[..], cells, lists, Chain(g, i);
      assert HeadOk(heads, lists, g, i);
      ghost var s := lists[id];
      ListedCells(id);
      Pushed(cells, place, lists, id, a, data);
      KeptAround(cells, place, lists, cells[a := Cell(data, Top(s))], lists[id := s + [a]], id, a);
      cells := cells[a := cells[a].(data := data)];
      cells := cells[a := cells[a].(next := b[i].next)];
      b[i] := b[i].(next := a);
      assert cells == cells0[a := Cell(data, Top(s))];
      assert b[..] == heads[i := heads[i].(next := a)];
      hide Linked, KeptBut, HeadsOk;
      place := place[a := Place(id, |s|)];
      lists := lists[id := s + [a]];
      ChainGrew(heads, cells0, lists0, b[..], cells, lists, g, i, a);
    }

    lemma ListedCells(id: ListId)
      requires Linked(cells, place, lists) && id in lists
      ensures forall x :: x in lists[id] ==> x in cells && x in place && place[x].id == id
    {
      assert ListOk(place, lists, id);
      forall x | x in lists[id] ensures x in cells {
        assert CellOk(cells, place, lists, x);
      }
    }

    static lemma ChainGrew(heads: seq<Cell>, cells: Cells, lists: Lists, heads2: seq<Cell>, cells2: Cells,
        lists2: Lists,
                           g: nat, i: nat, a: Addr)
      requires HeadsOk(heads, lists, g) && i < |heads| && Chain(g, i) in lists && heads[i].data != NULL
      requires heads2 == heads[i := heads[i].(next := a)] && a !in lists[Chain(g, i)] && a in cells2
      requires lists2 == lists[Chain(g, i) := lists[Chain(g, i)] + [a]]
      requires KeptBut(cells, lists, cells2, lists2, {Chain(g, i)})
      requires forall x :: x in cells && x != a ==> x in cells2 && cells2[x].data == cells[x].data
      requires forall x :: x in lists[Chain(g, i)] ==> x in cells
      ensures HeadsOk(heads2, lists2, g)
      ensures var c := ContentsOf(heads, cells, lists, g);
              ContentsOf(heads2, cells2, lists2, g) == c[i := Added(c[i], cells2[a].data)]
    {
      var s := lists[Chain(g, i)];
      DataSame(cells, cells2, s);
      DataPushed(cells2, s, a);
      hide DataOf;
      var c := ContentsOf(heads, cells, lists, g);
      assert BucketData(heads2[i], cells2, s + [a]) == Added(c[i], cells2[a].data);
      forall j | 0 <= j < |heads| && j != i ensures SameList(cells, lists, cells2, lists2, Chain(g, j)) {
        assert HeadOk(heads, lists, g, j);
      }
      ContentsUpdated(heads, cells, lists, heads2, cells2, lists2, g, i, Added(c[i], cells2[a].data));
    }

    /* ---- removal from a bucket ---- */

    /** A cell just unlinked from its bucket is put on the free list. */
    method Recycle(a: Addr)
      requires bucket.Length == nBuckets && nBuckets > 0 && Memory() && HeadsOk(bucket[..], lists, gen)
      requires OnlyLists(lists, gen, nBuckets) && a != NULL && a !in place && a in cells
      requires cells.Keys == place.Keys + {a}
      modifies this`cells, this`place, this`lists, this`freeEntryList
      ensures Shape() && cells.Keys == old(cells.Keys) && Contents() == old(Contents())
    {
      ghost var cells1, lists1 := cells, lists;
      hide Linked, KeptBut, DataOf, HeadOk, HeadsOk, ContentsOf, OnlyLists;
      FreeEntry(a);
      ContentsKept(bucket[..], cells1, lists1, cells, lists, gen, {FreeList});
      SameKeys(cells1, lists1, cells, lists, {FreeList}, gen, nBuckets);
    }

    /** The first entry goes; the second, if there is one, moves into the head. */
    method DropHead(i: nat)
      requires Shape() && i < nBuckets && bucket[i].data != NULL && NULL !in Contents()[i]
      modifies bucket, this`cells, this`place, this`lists, this`freeEntryList
      ensures Shape() && cells.Keys == old(cells.Keys)
      ensures Contents() == old(Contents())[i := old(Contents())[i][1..]]
    {
      ghost var heads := bucket[..];
      ghost var id := Chain(gen, i);
      assert HeadOk(heads, lists, gen, i);
      ListedCells(id);
      hide Linked, KeptBut, DataOf, HeadOk, HeadsOk;
      if bucket[i].next != NULL {
        BumpOverflow(i);
      } else {
        HeadEmptied(heads, cells, lists, gen, i);
        bucket[i] := bucket[i].(data := NULL);
        assert bucket[..] == heads[i := heads[i].(data := NULL)];
      }
    }

    method BumpOverflow(i: nat)
      requires Shape() && i < nBuckets && bucket[i].data != NULL && NULL !in Contents()[i] && bucket[i].next != NULL
      requires Chain(gen, i) in lists
      modifies bucket, this`cells, this`place, this`lists, this`freeEntryList
      ensures Shape() && cells.Keys == old(cells.Keys)
      ensures Contents() == old(Contents())[i := old(Contents())[i][1..]]
    {
      ghost var heads, id := bucket[..], Chain(gen, i);
      ghost var s := lists[id];
      var next := bucket[i].next;
      Bumped(heads, cells, place, lists, gen, i);
      ghost var c := Contents();
      hide Linked, KeptBut, DataOf, HeadOk, HeadsOk, ContentsOf, OnlyLists;
      bucket[i] := cells[next];
      assert bucket[..] == heads[i := cells[next]];
      place := place - {next};
      lists := lists[id := s[..|s| - 1]];
      Recycle(next);
    }

    static lemma Bumped(heads: seq<Cell>, cells: Cells, place: Places, lists: Lists, g: nat, i: nat)
      requires Linked(cells, place, lists) && HeadsOk(heads, lists, g) && i < |heads| && Chain(g, i) in lists
      requires heads[i].data != NULL && heads[i].next != NULL && NULL !in ContentsOf(heads, cells, lists, g)[i]
      ensures var a, s, c := heads[i].next, lists[Chain(g, i)], ContentsOf(heads, cells, lists, g);
              && a in cells && a in place && s != []
              && var heads2, lists2 := heads[i := cells[a]], lists[Chain(g, i) := s[..|s| - 1]];
                 && HeadsOk(heads2, lists2, g) && ContentsOf(heads2, cells, lists2, g) == c[i := c[i][1..]]
                 && Linked(cells, place - {a}, lists2) && lists2.Keys == lists.Keys
                 && forall n :: OnlyLists(lists, g, n) ==> OnlyLists(lists2, g, n)
    {
      HeadDropped(heads, cells, place, lists, g, i);
      assert heads[i].next == Top(lists[Chain(g, i)]) by { assert HeadOk(heads, lists, g, i); }
      TopOk(cells, place, lists, Chain(g, i));
      Popped(cells, place, lists, Chain(g, i));
      hide Linked, DataOf, HeadOk, HeadsOk, ContentsOf;
    }

    static lemma SameKeys(cells: Cells, lists: Lists, cells2: Cells, lists2: Lists, except: set<ListId>,
                          g: nat, n: nat)
      requires KeptBut(cells, lists, cells2, lists2, except) && OnlyLists(lists, g, n)
      ensures OnlyLists(lists2, g, n) && lists2.Keys == lists.Keys
    {
    }

    static lemma HeadDropped(heads: seq<Cell>, cells: Cells, place: Places, lists: Lists, g: nat, i: nat)
      requires Linked(cells, place, lists) && HeadsOk(heads, lists, g) && i < |heads|
      requires heads[i].data != NULL && heads[i].next != NULL
      requires NULL !in ContentsOf(heads, cells, lists, g)[i]
      requires Chain(g, i) in lists
      ensures var a, c := heads[i].next, ContentsOf(heads, cells, lists, g);
              var s := lists[Chain(g, i)];
              && a in cells && s != []
              && var heads2, lists2 := heads[i := cells[a]], lists[Chain(g, i) := s[..|s| - 1]];
                 HeadsOk(heads2, lists2, g) && ContentsOf(heads2, cells, lists2, g) == c[i := c[i][1..]]
    {
      var id := Chain(g, i);
      assert HeadOk(heads, lists, g, i);
      TopOk(cells, place, lists, id);
      var a, s, c := heads[i].next, lists[id], ContentsOf(heads, cells, lists, g);
      var heads2, lists2 := heads[i := cells[a]], lists[id := s[..|s| - 1]];
      assert c[i] == [heads[i].data] + DataOf(cells, s);
      assert DataOf(cells, s) == [cells[a].data] + DataOf(cells, s[..|s| - 1]);
      hide DataOf, Linked;
      assert cells[a].data in c[i];
      assert c[i][1..] == BucketData(heads2[i], cells, At(lists2, id));
      assert HeadOk(heads2, lists2, g, i);
      ContentsUpdated(heads, cells, lists, heads2, cells, lists2, g, i, c[i][1..]);
    }

    static lemma HeadEmptied(heads: seq<Cell>, cells: Cells, lists: Lists, g: nat, i: nat)
      requires HeadsOk(heads, lists, g) && i < |heads| && heads[i].data != NULL && heads[i].next == NULL
      requires Chain(g, i) in lists && NULL !in lists[Chain(g, i)]
      ensures var heads2, c := heads[i := heads[i].(data := NULL)], ContentsOf(heads, cells, lists, g);
              HeadsOk(heads2, lists, g) && ContentsOf(heads2, cells, lists, g) == c[i := c[i][1..]]
    {
      assert HeadOk(heads, lists, g, i);
      var heads2, c := heads[i := heads[i].(data := NULL)], ContentsOf(heads, cells, lists, g);
      assert lists[Chain(g, i)] == [];
      assert c[i] == [heads[i].data];
      hide DataOf;
      assert HeadOk(heads2, lists, g, i);
      ContentsUpdated(heads, cells, lists, heads2, cells, lists, g, i, []);
    }

    /** The cell behind the cursor goes; NULL stands for the head of the bucket. */
    method DropBehind(i: nat, cursor: Addr, ghost k: nat)
      requires Shape() && i < nBuckets && bucket[i].data != NULL && Behind(At(lists, Chain(gen, i)), cursor, k)
      modifies bucket, this`cells, this`place, this`lists, this`freeEntryList
      ensures Shape() && cells.Keys == old(cells.Keys)
      ensures var c, j := old(Contents()), old(|At(lists, Chain(gen, i))|) - k;
              j < |c[i]| && Contents() == c[i := RemovedAt(c[i], j)]
    {
      hide Linked, DataOf, HeadOk, HeadsOk, ContentsOf, OnlyLists, Shape, Contents, RemovedAt;
      NotNull(i);
      if cursor == NULL {
        DropSecond(i);
      } else {
        DropLater(i, cursor, k);
      }
    }

    /** The cursor is in front of the k-th cell, counted from the end. */
    static predicate Behind(s: seq<Addr>, cursor: Addr, k: nat) {
      k < |s| && cursor == if k == |s| - 1 then NULL else s[k + 1]
    }

    lemma NotNull(i: nat)
      requires Shape() && i < nBuckets
      ensures Chain(gen, i) in lists && NULL !in lists[Chain(gen, i)]
    {
      assert HeadOk(bucket[..], lists, gen, i);
      ListedCells(Chain(gen, i));
    }

    method DropSecond(i: nat)
      requires Shape() && i < nBuckets && bucket[i].data != NULL
      requires Chain(gen, i) in lists && lists[Chain(gen, i)] != []
      modifies bucket, this`cells, this`place, this`lists, this`freeEntryList
      ensures Shape() && cells.Keys == old(cells.Keys)
      ensures var c := old(Contents()); 1 < |c[i]| && Contents() == c[i := RemovedAt(c[i], 1)]
    {
      ghost var heads, id := bucket[..], Chain(gen, i);
      ghost var s, c := lists[id], Contents();
      SecondDropped(heads, cells, place, lists, gen, i);
      hide Linked, KeptBut, DataOf, HeadOk, HeadsOk, ContentsOf, OnlyLists;
      var next := bucket[i].next;
      bucket[i] := bucket[i].(next := cells[next].next);
      assert bucket[..] == heads[i := heads[i].(next := cells[next].next)];
      place := place - {next};
      lists := lists[id := s[..|s| - 1]];
      Recycle(next);
    }

    static lemma SecondDropped(heads: seq<Cell>, cells: Cells, place: Places, lists: Lists, g: nat, i: nat)
      requires Linked(cells, place, lists) && HeadsOk(heads, lists, g) && i < |heads| && Chain(g, i) in lists
      requires heads[i].data != NULL && lists[Chain(g, i)] != []
      ensures var a, s, c := heads[i].next, lists[Chain(g, i)], ContentsOf(heads, cells, lists, g);
              && a in cells && a in place && 1 < |c[i]|
              && var heads2, lists2 := heads[i := heads[i].(next := cells[a].next)], lists[Chain(g, i) := s[..|s| - 1]];
                 && HeadsOk(heads2, lists2, g) && ContentsOf(heads2, cells, lists2, g) == c[i := RemovedAt(c[i], 1)]
                 && Linked(cells, place - {a}, lists2) && lists2.Keys == lists.Keys
                 && forall n :: OnlyLists(lists, g, n) ==> OnlyLists(lists2, g, n)
    {
      var id := Chain(g, i);
      assert HeadOk(heads, lists, g, i);
      TopOk(cells, place, lists, id);
      Popped(cells, place, lists, id);
      var a, s, c := heads[i].next, lists[id], ContentsOf(heads, cells, lists, g);
      var heads2, lists2 := heads[i := heads[i].(next := cells[a].next)], lists[id := s[..|s| - 1]];
      assert c[i] == [heads[i].data] + DataOf(cells, s);
      assert DataOf(cells, s) == [cells[a].data] + DataOf(cells, s[..|s| - 1]);
      hide DataOf, Linked;
      assert RemovedAt(c[i], 1) == BucketData(heads2[i], cells, At(lists2, id));
      assert HeadOk(heads2, lists2, g, i);
      ContentsUpdated(heads, cells, lists, heads2, cells, lists2, g, i, RemovedAt(c[i], 1));
    }

    method DropLater(i: nat, cursor: Addr, ghost k: nat)
      requires Shape() && i < nBuckets && bucket[i].data != NULL && Chain(gen, i) in lists
      requires var s := lists[Chain(gen, i)]; k + 1 < |s| && cursor == s[k + 1]
      modifies this`cells, this`place, this`lists, this`freeEntryList
      ensures Shape() && cells.Keys == old(cells.Keys)
      ensures var c, j := old(Contents()), old(|lists[Chain(gen, i)]|) - k;
              j < |c[i]| && Contents() == c[i := RemovedAt(c[i], j)]
    {
      hide Linked, KeptBut, DataOf, HeadOk, HeadsOk, ContentsOf, OnlyLists, Cut, CutPlaces;
      ghost var id := Chain(gen, i);
      ghost var s, c := lists[id], Contents();
      LaterDropped(bucket[..], cells, place, lists, gen, i, k);
      var next := cells[cursor].next;
      cells := cells[cursor := cells[cursor].(next := cells[next].next)];
      place := CutPlaces(place, id, k, next);
      lists := lists[id := Cut(s, k)];
      Recycle(next);
    }

    static lemma LaterDropped(heads: seq<Cell>, cells: Cells, place: Places, lists: Lists, g: nat, i: nat, k: nat)
      requires Linked(cells, place, lists) && HeadsOk(heads, lists, g) && i < |heads| && Chain(g, i) in lists
      requires heads[i].data != NULL && k + 1 < |lists[Chain(g, i)]|
      ensures var s, c := lists[Chain(g, i)], ContentsOf(heads, cells, lists, g);
              && |s| - k < |c[i]| && s[k] in cells && s[k + 1] in cells && cells[s[k + 1]].next == s[k] != NULL
              && var cells2 := cells[s[k + 1] := cells[s[k + 1]].(next := cells[s[k]].next)];
                 var lists2 := lists[Chain(g, i) := Cut(s, k)];
                 && HeadsOk(heads, lists2, g)
                     && ContentsOf(heads, cells2, lists2, g) == c[i := RemovedAt(c[i], |s| - k)]
                 && Linked(cells2, CutPlaces(place, Chain(g, i), k, s[k]), lists2)
                 && CutPlaces(place, Chain(g, i), k, s[k]).Keys == place.Keys - {s[k]} && s[k] in place
                 && cells2.Keys == cells.Keys
                 && lists2.Keys == lists.Keys && forall n :: OnlyLists(lists, g, n) ==> OnlyLists(lists2, g, n)
    {
      hide DataOf, Linked, CutPlaces, ListOk;
      var id := Chain(g, i);
      assert HeadOk(heads, lists, g, i);
      Bypassed(cells, place, lists, id, k);
      CutKeys(place, id, k, lists[id][k]);
      var s, c := lists[id], ContentsOf(heads, cells, lists, g);
      NotNullIn(cells, place, lists, s[k]);
      var cells2 := cells[s[k + 1] := cells[s[k + 1]].(next := cells[s[k]].next)];
      var lists2 := lists[id := Cut(s, k)];
      ListIsOk(cells, place, lists, id);
      ListedIn(cells, place, lists, id, k + 1);
      KeptAround(cells, place, lists, cells2, lists2, id, s[k + 1]) by { assert ListOk(place, lists, id); }
      DataSame(cells, cells2, Cut(s, k));
      DataCut(cells, s, k);
      assert c[i] == [heads[i].data] + DataOf(cells, s);
      assert RemovedAt(c[i], |s| - k) == [heads[i].data] + RemovedAt(DataOf(cells, s), |s| - 1 - k);
      assert HeadOk(heads, lists2, g, i);
      forall j | 0 <= j < |heads| && j != i ensures SameList(cells, lists, cells2, lists2, Chain(g, j)) {
        assert HeadOk(heads, lists, g, j);
      }
      ContentsUpdated(heads, cells, lists, heads, cells2, lists2, g, i, RemovedAt(c[i], |s| - k));
    }

    /* ---- finding ---- */

    /** Looks for an entry equal to the given one and, if asked to, takes it out. */
    method FindEntry(entry: Data, delete: bool) returns (data: Data, i: nat)
      requires Shape() && Compatible(functions) && WellPlaced(Contents(), functions)
      modifies bucket, this`cells, this`place, this`lists, this`freeEntryList
      ensures Shape() && cells.Keys == old(cells.Keys)
      ensures i == Slot(old(Contents()), functions, entry) < nBuckets
      ensures data == StoredIn(functions, old(Contents())[i], entry)
      ensures !delete || data == NULL ==> Contents() == old(Contents()) && cells == old(cells)
      ensures delete && data != NULL ==>
        && Match(functions, old(Contents())[i], entry) < |old(Contents())[i]|
        && Contents() == Deleted(old(Contents()), functions, entry)
    {
      hide Linked, HeadOk, HeadsOk, ContentsOf, OnlyLists, WellPlaced, DataOf, BucketOk;
      ghost var c := Contents();
      i := functions.hasher(entry, nBuckets);
      BucketEntries(i);
      if bucket[i].data == NULL {
        return NULL, i;
      }
      if functions.comparator(entry, bucket[i].data) {
        data := bucket[i].data;
        MatchIs(functions, c[i], entry, 0);
        if delete {
          assert RemovedAt(c[i], 0) == c[i][1..];
          DropHead(i);
        }
        return;
      }
      var cursor, next, j := Scan(i, entry);
      if next == NULL {
        return NULL, i;
      }
      data := cells[next].data;
      if delete {
        DropBehind(i, cursor, |lists[Chain(gen, i)]| - 1 - j);
      }
    }

    /** Walks the overflow of a bucket up to the first cell whose entry is equal to the given one. */
    method Scan(i: nat, entry: Data) returns (cursor: Addr, next: Addr, ghost j: nat)
      requires Shape() && WellPlaced(Contents(), functions) && i < nBuckets && Chain(gen, i) in lists
      requires bucket[i].data != NULL && !functions.comparator(entry, bucket[i].data)
      ensures var s, b := lists[Chain(gen, i)], Contents()[i];
              && j <= |s| && |b| == |s| + 1
              && Match(functions, b, entry) == j + 1
              && cursor == (if j == 0 then NULL else s[|s| - j])
              && next == (if j == |s| then NULL else s[|s| - 1 - j])
              && (j < |s| <==> next != NULL)
              && (j < |s| ==> next in cells && b[j + 1] == cells[next].data && cells[next].data != NULL)
    {
      hide Linked, HeadOk, HeadsOk, ContentsOf, OnlyLists, WellPlaced, DataOf, BucketOk, Shape, BucketData, Contents;
      ContentsLength();
      BucketsCounted();
      BucketEntries(i);
      ghost var s, b := lists[Chain(gen, i)], Contents()[i];
      cursor, next, j := NULL, bucket[i].next, 0;
      while next != NULL && !functions.comparator(entry, cells[next].data)
        invariant j <= |s| && cursor == (if j == 0 then NULL else s[|s| - j])
        invariant next == if j == |s| then NULL else s[|s| - 1 - j]
        invariant j < |s| ==> next in cells && b[j + 1] == cells[next].data && cells[next].data != NULL
        invariant forall l :: 0 <= l <= j ==> !functions.comparator(entry, b[l])
        decreases |s| - j
      {
        BucketCell(i, j);
        cursor := next;
        next := cells[cursor].next;
        j := j + 1;
      }
      NoneBefore(functions, b, entry, j + 1);
    }

    static lemma NoneBefore(k: Functions, chain: seq<Data>, e: Data, j: nat)
      requires j <= |chain| && forall i :: 0 <= i < j ==> !k.comparator(e, chain[i])
      requires j < |chain| ==> k.comparator(e, chain[j])
      ensures Match(k, chain, e) == j
    {
    }

    static lemma MatchIs(k: Functions, chain: seq<Data>, e: Data, j: nat)
      requires j < |chain| && k.comparator(e, chain[j]) && forall i :: 0 <= i < j ==> !k.comparator(e, chain[i])
      ensures Match(k, chain, e) == j && StoredIn(k, chain, e) == chain[j]
    {
    }

    /** How the entries of a bucket are laid out. */
    lemma BucketEntries(i: nat)
      requires Shape() && WellPlaced(Contents(), functions) && i < nBuckets
      ensures var id, b := Chain(gen, i), Contents()[i];
              && id in lists && NULL !in b && NULL !in lists[id]
              && (b == [] <==> bucket[i].data == NULL)
              && (b != [] ==> |b| == |lists[id]| + 1 && b[0] == bucket[i].data)
              && bucket[i].next == Top(lists[id])
              && (lists[id] != [] ==> var a := Top(lists[id]);
                    a in cells && b != [] && b[1] == cells[a].data && cells[a].data != NULL)
    {
      assert HeadOk(bucket[..], lists, gen, i) && BucketOk(Contents(), functions, i);
      ListedCells(Chain(gen, i));
      if lists[Chain(gen, i)] != [] {
        DataAt(cells, lists[Chain(gen, i)], 0);
        assert Contents()[i][1] in Contents()[i];
      }
      hide Linked, HeadsOk;
    }

    lemma BucketCell(i: nat, j: nat)
      requires Shape() && WellPlaced(Contents(), functions) && i < nBuckets && Chain(gen, i) in lists
      requires j < |lists[Chain(gen, i)]|
      ensures var s, b := lists[Chain(gen, i)], Contents()[i];
              && |b| == |s| + 1
              && (j + 1 < |s| ==> var a := s[|s| - 2 - j];
                   a in cells && b[j + 2] == cells[a].data && cells[a].data != NULL)
              && s[|s| - 1 - j] in cells
              && cells[s[|s| - 1 - j]].next == if j + 1 == |s| then NULL else s[|s| - 2 - j]
    {
      hide Linked, HeadsOk, DataOf, CellOk, ListOk, Contents;
      ContentsLength();
      var s, b := lists[Chain(gen, i)], Contents()[i];
      BucketEntries(i);
      BucketLayout(i);
      ChainCell(cells, place, lists, Chain(gen, i), |s| - 1 - j);
      if j + 1 < |s| {
        DataAt(cells, s, j + 1);
        assert b[j + 2] in b;
      }
    }

    static lemma ChainCell(cells: Cells, place: Places, lists: Lists, id: ListId, k: nat)
      requires Linked(cells, place, lists) && id in lists && k < |lists[id]|
      ensures var s := lists[id];
              && s[k] in cells && cells[s[k]].next == (if k == 0 then NULL else s[k - 1])
              && (k > 0 ==> s[k - 1] in cells)
    {
      assert ListOk(place, lists, id);
      assert CellOk(cells, place, lists, lists[id][k]);
      if k > 0 { assert CellOk(cells, place, lists, lists[id][k - 1]); }
      hide Linked;
    }

    method Lookup(entry: Data) returns (data: Data)
      requires Valid()
      ensures Slot(Contents(), functions, entry) < nBuckets && data == Stored(Contents(), functions, entry)
      ensures data == NULL <==> forall x :: x in Elements(Contents()) ==> !functions.comparator(entry, x)
      ensures data != NULL ==> data in Elements(Contents()) && functions.comparator(entry, data)
    {
      ghost var c := Contents();
      var i := functions.hasher(entry, nBuckets);
      StoredIsTheOne(c, functions, entry);
      BucketEntries(i);
      hide Linked, HeadOk, HeadsOk, ContentsOf, OnlyLists, Compatible, WellPlaced, DataOf, BucketOk, Elements, Distinct,
           NonEmpty;
      if bucket[i].data == NULL {
        return NULL;
      }
      if functions.comparator(entry, bucket[i].data) {
        MatchIs(functions, c[i], entry, 0);
        return bucket[i].data;
      }
      data := LookupOverflow(i, entry);
    }

    method LookupOverflow(i: nat, entry: Data) returns (data: Data)
      requires Shape() && WellPlaced(Contents(), functions) && i < nBuckets && Chain(gen, i) in lists
      requires bucket[i].data != NULL && !functions.comparator(entry, bucket[i].data)
      ensures data == StoredIn(functions, Contents()[i], entry)
    {
      hide Linked, HeadOk, HeadsOk, ContentsOf, OnlyLists, WellPlaced, DataOf, BucketOk, Shape, BucketData, Contents;
      ContentsLength();
      BucketsCounted();
      BucketEntries(i);
      ghost var s, b, j := lists[Chain(gen, i)], Contents()[i], 0;
      var cursor := bucket[i].next;
      while cursor != NULL
        invariant j <= |s| && cursor == if j == |s| then NULL else s[|s| - 1 - j]
        invariant j < |s| ==> cursor in cells && b[j + 1] == cells[cursor].data && cells[cursor].data != NULL
        invariant forall l :: 0 <= l <= j ==> !functions.comparator(entry, b[l])
        decreases |s| - j
      {
        if functions.comparator(entry, cells[cursor].data) {
          NoneBefore(functions, b, entry, j + 1);
          return cells[cursor].data;
        }
        BucketCell(i, j);
        cursor := cells[cursor].next;
        j := j + 1;
      }
      NoneBefore(functions, b, entry, j + 1);
      return NULL;
    }

    /* ---- adding an entry to a bucket ---- */

    /** The entry goes into the head of an empty bucket, or into a cell right behind the head. */
    method AddEntry(b: array<Cell>, i: nat, data: Data, ghost g: nat) returns (headUsed: bool)
      requires Memory() && cells.Keys == place.Keys && i < b.Length && HeadsOk(b[..], lists, g) && data != NULL
      modifies b, this`cells, this`place, this`lists, this`freeEntryList
      ensures Memory() && cells.Keys == place.Keys && old(cells.Keys) <= cells.Keys && HeadsOk(b[..], lists, g)
      ensures var c := old(ContentsOf(b[..], cells, lists, g));
              && ContentsOf(b[..], cells, lists, g) == c[i := Added(c[i], data)]
              && headUsed == (c[i] == [])
      ensures KeptBut(old(cells), old(lists), cells, lists, {FreeList, Chain(g, i)})
    {
      ghost var heads, cells0, lists0 := b[..], cells, lists;
      HeadFilled(heads, cells, lists, g, i, data);
      hide Linked, KeptBut, HeadsOk, HeadOk, ContentsOf, DataOf;
      if b[i].data != NULL {
        var a := AllocateEntry();
        ghost var cells1, lists1 := cells, lists;
        ContentsKept(heads, cells0, lists0, cells, lists, g, {FreeList});
        AddOverflow(b, i, a, data, g);
        KeptTwice(cells0, lists0, cells1, lists1, cells, lists, {FreeList}, {Chain(g, i)});
        assert {FreeList} + {Chain(g, i)} == {FreeList, Chain(g, i)};
        return false;
      } else {
        b[i] := b[i].(data := data);
        assert b[..] == heads[i := heads[i].(data := data)];
        KeptSelf({FreeList, Chain(g, i)});
        return true;
      }
    }

    lemma KeptSelf(except: set<ListId>)
      ensures KeptBut(cells, lists, cells, lists, except)
    {
    }

    static lemma HeadFilled(heads: seq<Cell>, cells: Cells, lists: Lists, g: nat, i: nat, data: Data)
      requires HeadsOk(heads, lists, g) && i < |heads| && data != NULL
      ensures var c := ContentsOf(heads, cells, lists, g);
              && (heads[i].data == NULL <==> c[i] == [])
              && (heads[i].data == NULL ==>
                    var heads2 := heads[i := heads[i].(data := data)];
                    HeadsOk(heads2, lists, g) && ContentsOf(heads2, cells, lists, g) == c[i := Added(c[i], data)])
    {
      assert HeadOk(heads, lists, g, i);
      if heads[i].data == NULL {
        var heads2 := heads[i := heads[i].(data := data)];
        assert HeadOk(heads2, lists, g, i);
        ContentsUpdated(heads, cells, lists, heads2, cells, lists, g, i, [data]);
      }
    }

    /* ---- rehashing ---- */

    /** The new buckets, of generation g, are well formed while entries move into them. */
    ghost predicate Moving(nb: array<Cell>, g: nat)
      reads this`cells, this`place, this`lists, this`freeEntryList, this`gen, nb
    {
      Memory() && cells.Keys == place.Keys && HeadsOk(nb[..], lists, g) && g != gen && nb.Length > 0
    }

    ghost function NewContents(nb: array<Cell>, g: nat): (c: Contents)
      reads this`cells, this`lists, nb
      ensures |c| == nb.Length
    {
      ContentsOf(nb[..], cells, lists, g)
    }

    /** Puts an entry found in a cell of an old chain where the hasher says: its cell moves along
        if the new bucket has a head, and is recycled otherwise. */
    method MoveCell(nb: array<Cell>, i: nat, cursor: Addr, h: nat, ghost g: nat) returns (headUsed: bool)
      requires Moving(nb, g) && h < nb.Length
      requires Chain(gen, i) in lists && lists[Chain(gen, i)] != [] && cursor == Top(lists[Chain(gen, i)])
      requires DataIn(cells, cursor) != NULL
      modifies nb, this`cells, this`place, this`lists, this`freeEntryList
      ensures Moving(nb, g) && cells.Keys == old(cells.Keys)
      ensures var c := old(NewContents(nb, g));
              && NewContents(nb, g) == c[h := Added(c[h], old(DataIn(cells, cursor)))]
              && headUsed == (c[h] == [])
      ensures var s := old(lists[Chain(gen, i)]);
              && Chain(gen, i) in lists && lists[Chain(gen, i)] == s[..|s| - 1]
              && DataOf(cells, s[..|s| - 1]) == old(DataOf(cells, s[..|s| - 1]))
      ensures KeptBut(old(cells), old(lists), cells, lists, {FreeList, Chain(g, h), Chain(gen, i)})
    {
      ghost var id, cells0, lists0 := Chain(gen, i), cells, lists;
      ghost var s := lists[id];
      hide Linked, KeptBut, HeadsOk, HeadOk, ContentsOf, DataOf, Added;
      PopOld(nb, i, g);
      ghost var cells1, lists1 := cells, lists;
      var data := cells[cursor].data;
      HeadUse(nb, h, g);
      if nb[h].data != NULL {
        AddOverflow(nb, h, cursor, data, g);
        KeptMore(cells1, lists1, cells, lists, {Chain(g, h)}, {FreeList, Chain(g, h)});
        headUsed := false;
      } else {
        FillHead(nb, h, cursor, data, g);
        KeptMore(cells1, lists1, cells, lists, {FreeList}, {FreeList, Chain(g, h)});
        headUsed := true;
      }
      MovedFrame(cells0, lists0, cells1, lists1, cells, lists, id, s, {FreeList, Chain(g, h)},
                 {FreeList, Chain(g, h), id});
    }

    lemma HeadUse(nb: array<Cell>, h: nat, g: nat)
      requires HeadsOk(nb[..], lists, g) && h < nb.Length
      ensures nb[h].data == NULL <==> ContentsOf(nb[..], cells, lists, g)[h] == []
    {
      hide DataOf;
    }

    /** The first cell of an old chain is in no list any more. */
    ghost method PopOld(nb: array<Cell>, i: nat, g: nat)
      requires Moving(nb, g) && Chain(gen, i) in lists && lists[Chain(gen, i)] != []
      modifies this`place, this`lists
      ensures Memory() && HeadsOk(nb[..], lists, g) && ContentsOf(nb[..], cells, lists, g) == old(NewContents(nb, g))
      ensures var a, s := old(Top(lists[Chain(gen, i)])), old(lists[Chain(gen, i)]);
              && a != NULL && a in cells && a !in place && cells.Keys == place.Keys + {a}
              && lists == old(lists)[Chain(gen, i) := s[..|s| - 1]]
      ensures KeptBut(cells, old(lists), cells, lists, {Chain(gen, i)})
    {
      var id := Chain(gen, i);
      var s := lists[id];
      TakenOff(nb[..], id, g);
      hide Linked, KeptBut, HeadsOk, HeadOk, ContentsOf, DataOf;
      place := place - {Top(s)};
      lists := lists[id := s[..|s| - 1]];
    }

    /** The entry goes into an empty head, and the cell it came from onto the free list. */
    method FillHead(nb: array<Cell>, h: nat, cursor: Addr, data: Data, ghost g: nat)
      requires Memory() && cursor != NULL && cursor in cells && cursor !in place && cells.Keys == place.Keys + {cursor}
      requires h < nb.Length && HeadsOk(nb[..], lists, g) && nb[h].data == NULL && data != NULL
      modifies nb, this`cells, this`place, this`lists, this`freeEntryList
      ensures Memory() && cells.Keys == place.Keys == old(cells.Keys)
      ensures HeadsOk(nb[..], lists, g) && KeptBut(old(cells), old(lists), cells, lists, {FreeList})
      ensures var c := old(ContentsOf(nb[..], cells, lists, g));
              ContentsOf(nb[..], cells, lists, g) == c[h := Added(c[h], data)]
    {
      ghost var heads, cells1, lists1 := nb[..], cells, lists;
      HeadFilled(heads, cells, lists, g, h, data);
      hide Linked, KeptBut, HeadsOk, HeadOk, ContentsOf, DataOf, Added;
      nb[h] := nb[h].(data := data);
      assert nb[..] == heads[h := heads[h].(data := data)];
      FreeEntry(cursor);
      ContentsKept(nb[..], cells1, lists1, cells, lists, g, {FreeList});
    }

    /** Taking the first cell off an old chain leaves the new chains alone. */
    lemma TakenOff(heads: seq<Cell>, id: ListId, g: nat)
      requires Linked(cells, place, lists) && HeadsOk(heads, lists, g) && cells.Keys == place.Keys
      requires id.Chain? && id.gen != g && id in lists && lists[id] != [] && FreeList in lists
      ensures var a, s := Top(lists[id]), lists[id];
              var lists2 := lists[id := s[..|s| - 1]];
              && a in cells && a in place && a != NULL
              && Linked(cells, place - {a}, lists2) && lists2.Keys == lists.Keys
              && HeadsOk(heads, lists2, g)
              && ContentsOf(heads, cells, lists2, g) == ContentsOf(heads, cells, lists, g)
              && KeptBut(cells, lists, cells, lists2, {id})
    {
      var s := lists[id];
      TopOk(cells, place, lists, id);
      Popped(cells, place, lists, id);
      var lists2 := lists[id := s[..|s| - 1]];
      KeptAround(cells, place, lists, cells, lists2, id, Top(s));
      forall i | 0 <= i < |heads|
        ensures HeadOk(heads, lists2, g, i) && At(lists2, Chain(g, i)) == At(lists, Chain(g, i))
      {
        assert HeadOk(heads, lists, g, i);
      }
      hide Linked, KeptBut, DataOf;
    }

    static lemma KeptMore(cells: Cells, lists: Lists, cells2: Cells, lists2: Lists, a: set<ListId>, b: set<ListId>)
      requires KeptBut(cells, lists, cells2, lists2, a) && a <= b
      ensures KeptBut(cells, lists, cells2, lists2, b)
    {
    }

    static lemma MovedFrame(cells0: Cells, lists0: Lists, cells1: Cells, lists1: Lists, cells2: Cells, lists2: Lists,
                            id: ListId, s: seq<Addr>, touched: set<ListId>, all: set<ListId>)
      requires id in lists0 && lists0[id] == s && s != []
      requires lists1 == lists0[id := s[..|s| - 1]] && cells1 == cells0 && id !in touched
      requires KeptBut(cells0, lists0, cells1, lists1, {id}) && KeptBut(cells1, lists1, cells2, lists2, touched)
      requires touched + {id} <= all
      ensures KeptBut(cells0, lists0, cells2, lists2, all)
      ensures id in lists2 && lists2[id] == s[..|s| - 1]
      ensures DataOf(cells2, s[..|s| - 1]) == DataOf(cells0, s[..|s| - 1])
    {
      KeptTwice(cells0, lists0, cells1, lists1, cells2, lists2, {id}, touched);
      KeptMore(cells0, lists0, cells2, lists2, {id} + touched, all);
      assert SameList(cells1, lists1, cells2, lists2, id);
    }

    /** The entries of the i-th old bucket that are still to be moved. */
    ghost predicate OldBucket(i: nat)
      reads this`cells, this`lists, this`gen, this`bucket, bucket
    {
      && i < bucket.Length && HeadOk(bucket[..], lists, gen, i)
      && NULL !in BucketData(bucket[i], cells, At(lists, Chain(gen, i)))
    }

    /** From one memory to another the chains of the later old buckets stay as they are. */
    static ghost predicate OldKept(cells: Cells, lists: Lists, cells2: Cells, lists2: Lists, g: nat, i: nat) {
      && lists2.Keys == lists.Keys
      && forall j {:trigger Chain(g, j)} :: j != i && Chain(g, j) in lists ==>
           SameList(cells, lists, cells2, lists2, Chain(g, j))
    }

    static lemma KeptToOld(cells: Cells, lists: Lists, cells2: Cells, lists2: Lists, except: set<ListId>, g: nat,
        i: nat)
      requires KeptBut(cells, lists, cells2, lists2, except)
      requires forall j :: Chain(g, j) in except ==> j == i
      ensures OldKept(cells, lists, cells2, lists2, g, i)
    {
    }

    static lemma OldKeptTwice(cells: Cells, lists: Lists, cells2: Cells, lists2: Lists, cells3: Cells, lists3: Lists,
                              g: nat, i: nat)
      requires OldKept(cells, lists, cells2, lists2, g, i) && OldKept(cells2, lists2, cells3, lists3, g, i)
      ensures OldKept(cells, lists, cells3, lists3, g, i)
    {
      hide DataOf;
    }

    lemma OldSelf(i: nat)
      ensures OldKept(cells, lists, cells, lists, gen, i)
    {
    }

    method PlaceHead(nb: array<Cell>, i: nat, used0: nat, ghost g: nat) returns (used: nat)
      requires Moving(nb, g)
      requires i < bucket.Length && bucket[i].data != NULL && Chain(gen, i) in lists && Compatible(functions)
      requires used0 == NonEmpty(NewContents(nb, g))
      modifies nb, this`cells, this`place, this`lists, this`freeEntryList
      ensures Moving(nb, g) && old(cells.Keys) <= cells.Keys
      ensures var c, d := old(NewContents(nb, g)), old(bucket[i].data);
              Slot(c, functions, d) < |c| && NewContents(nb, g) == Inserted(c, functions, d)
      ensures used == NonEmpty(NewContents(nb, g))
      ensures SameList(old(cells), old(lists), cells, lists, Chain(gen, i))
      ensures OldKept(old(cells), old(lists), cells, lists, gen, i)
    {
      ghost var c, cells0, lists0 := NewContents(nb, g), cells, lists;
      var data := bucket[i].data;
      var h := functions.hasher(data, nb.Length);
      InsertedHere(c, data, h);
      hide Inserted, Added, Slot, Linked, HeadsOk, ContentsOf, DataOf, NonEmpty, Compatible, KeptBut, Flatten,
          Elements, OldKept, SameList;
      var headUsed := AddEntry(nb, h, data, g);
      used := if headUsed then used0 + 1 else used0;
      KeptToOld(cells0, lists0, cells, lists, {FreeList, Chain(g, h)}, gen, i);
      KeptOne(cells0, lists0, cells, lists, {FreeList, Chain(g, h)}, Chain(gen, i));
    }

    lemma InsertedHere(c: Contents, data: Data, h: nat)
      requires Compatible(functions) && |c| > 0 && h == functions.hasher(data, |c|)
      ensures h < |c| && Slot(c, functions, data) == h
      ensures c[h := Added(c[h], data)] == Inserted(c, functions, data)
      ensures NonEmpty(Inserted(c, functions, data)) == NonEmpty(c) + if c[h] == [] then 1 else 0
    {
      InsertedElements(c, functions, data);
    }

    static lemma KeptOne(cells: Cells, lists: Lists, cells2: Cells, lists2: Lists, except: set<ListId>, id: ListId)
      requires KeptBut(cells, lists, cells2, lists2, except) && id in lists && id !in except
      ensures SameList(cells, lists, cells2, lists2, id)
    {
    }

    method PlaceCell(nb: array<Cell>, i: nat, cursor: Addr, used0: nat, ghost g: nat) returns (next: Addr, used: nat)
      requires Moving(nb, g)
      requires Chain(gen, i) in lists && lists[Chain(gen, i)] != [] && cursor == Top(lists[Chain(gen, i)])
      requires DataIn(cells, cursor) != NULL && Compatible(functions)
      requires used0 == NonEmpty(NewContents(nb, g))
      modifies nb, this`cells, this`place, this`lists, this`freeEntryList
      ensures Moving(nb, g) && cells.Keys == old(cells.Keys)
      ensures var c, d := old(NewContents(nb, g)), old(DataIn(cells, cursor));
              Slot(c, functions, d) < |c| && NewContents(nb, g) == Inserted(c, functions, d)
      ensures used == NonEmpty(NewContents(nb, g))
      ensures var s := old(lists[Chain(gen, i)]);
              && Chain(gen, i) in lists && lists[Chain(gen, i)] == s[..|s| - 1] && next == Top(s[..|s| - 1])
              && DataOf(cells, s[..|s| - 1]) == old(DataOf(cells, s[..|s| - 1]))
      ensures OldKept(old(cells), old(lists), cells, lists, gen, i)
    {
      ghost var c, cells0, lists0 := NewContents(nb, g), cells, lists;
      TopOk(cells, place, lists, Chain(gen, i));
      var data := cells[cursor].data;
      var h := functions.hasher(data, nb.Length);
      InsertedHere(c, data, h);
      next := cells[cursor].next;
      hide Inserted, Added, Slot, Linked, HeadsOk, ContentsOf, DataOf, NonEmpty, Compatible, KeptBut, Flatten,
          Elements, OldKept, Moving,
           NewContents, Memory;
      var headUsed := MoveCell(nb, i, cursor, h, g);
      used := if headUsed then used0 + 1 else used0;
      KeptToOld(cells0, lists0, cells, lists, {FreeList, Chain(g, h), Chain(gen, i)}, gen, i);
    }

    /** All entries of one old bucket are moved, its head first. */
    method RehashBucket(nb: array<Cell>, i: nat, used0: nat, ghost g: nat) returns (used: nat)
      requires Moving(nb, g)
      requires OldBucket(i) && Compatible(functions) && nb != bucket
      requires used0 == NonEmpty(NewContents(nb, g))
      modifies nb, this`cells, this`place, this`lists, this`freeEntryList
      ensures Moving(nb, g) && old(cells.Keys) <= cells.Keys
      ensures var ds := old(BucketData(bucket[i], cells, At(lists, Chain(gen, i))));
              NewContents(nb, g) == PlaceAll(old(NewContents(nb, g)), functions, ds)
      ensures used == NonEmpty(NewContents(nb, g))
      ensures At(lists, Chain(gen, i)) == [] && OldKept(old(cells), old(lists), cells, lists, gen, i)
    {
      used := used0;
      if bucket[i].data == NULL {
        OldSelf(i);
        return;
      }
      ghost var id, c0 := Chain(gen, i), NewContents(nb, g);
      ghost var d, rest := bucket[i].data, DataOf(cells, lists[id]);
      ghost var cells0, lists0 := cells, lists;
      PlaceSingle(c0, functions, d);
      PlaceAllSplits(c0, functions, [d], rest);
      hide Linked, HeadsOk, HeadOk, ContentsOf, DataOf, PlaceAll, NonEmpty, Compatible, OldKept, Inserted, Moving,
           NewContents, Memory, Slot;
      used := PlaceHead(nb, i, used, g);
      ghost var cells1, lists1 := cells, lists;
      used := RehashOverflow(nb, i, used, g);
      OldKeptTwice(cells0, lists0, cells1, lists1, cells, lists, gen, i);
    }

    method RehashOverflow(nb: array<Cell>, i: nat, used0: nat, ghost g: nat) returns (used: nat)
      requires Moving(nb, g) && Compatible(functions) && nb != bucket && i < bucket.Length && nb.Length > 0
      requires Chain(gen, i) in lists && bucket[i].next == Top(lists[Chain(gen, i)])
      requires NULL !in DataOf(cells, lists[Chain(gen, i)]) && used0 == NonEmpty(NewContents(nb, g))
      modifies nb, this`cells, this`place, this`lists, this`freeEntryList
      ensures Moving(nb, g) && cells.Keys == old(cells.Keys)
      ensures NewContents(nb, g)
              == PlaceAll(old(NewContents(nb, g)), functions, old(DataOf(cells, lists[Chain(gen, i)])))
      ensures used == NonEmpty(NewContents(nb, g))
      ensures At(lists, Chain(gen, i)) == [] && OldKept(old(cells), old(lists), cells, lists, gen, i)
    {
      ghost var id, cells0, lists0 := Chain(gen, i), cells, lists;
      ghost var rest := DataOf(cells, lists[id]);
      ghost var all := PlaceAll(NewContents(nb, g), functions, rest);
      OldSelf(i);
      hide Linked, HeadsOk, ContentsOf, DataOf, PlaceAll, NonEmpty, Compatible, OldKept, Inserted, Moving,
           NewContents, Memory, Slot;
      used := used0;
      var next := bucket[i].next;
      while next != NULL
        invariant Moving(nb, g) && cells.Keys == old(cells.Keys)
        invariant id in lists && next == Top(lists[id]) && DataOf(cells, lists[id]) == rest
        invariant NULL !in rest && PlaceAll(NewContents(nb, g), functions, rest) == all
        invariant used == NonEmpty(NewContents(nb, g))
        invariant OldKept(cells0, lists0, cells, lists, gen, i)
        decreases |rest|
      {
        ghost var cells1, lists1 := cells, lists;
        NextData(lists[id], rest);
        PlaceFirst(NewContents(nb, g), functions, rest);
        next, used := PlaceCell(nb, i, next, used, g);
        OldKeptTwice(cells0, lists0, cells1, lists1, cells, lists, gen, i);
        rest := rest[1..];
      }
      NoneLeft(nb, g, id);
      PlaceNone(NewContents(nb, g), functions);
    }

    lemma NoneLeft(nb: array<Cell>, g: nat, id: ListId)
      requires Moving(nb, g) && id in lists && Top(lists[id]) == NULL
      ensures lists[id] == []
    {
      ListedCells(id);
    }

    lemma NextData(s: seq<Addr>, rest: seq<Data>)
      requires s != [] && DataOf(cells, s) == rest && NULL !in rest
      ensures DataIn(cells, Top(s)) == rest[0] != NULL && DataOf(cells, s[..|s| - 1]) == rest[1..] && NULL !in rest[1..]
    {
    }

    /** The old buckets from the i-th on still hold what they held. */
    static ghost predicate OldFrom(heads: seq<Cell>, cells: Cells, lists: Lists, g: nat, c: Contents, i: nat) {
      |c| == |heads| && forall j {:trigger HeadOk(heads, lists, g, j)} :: i <= j < |heads| ==>
        HeadOk(heads, lists, g, j) && BucketData(heads[j], cells, At(lists, Chain(g, j))) == c[j]
    }

    static ghost predicate OldDone(lists: Lists, g: nat, i: nat) {
      forall j {:trigger Chain(g, j)} :: 0 <= j < i ==> At(lists, Chain(g, j)) == []
    }

    static lemma OldStep(heads: seq<Cell>, cells: Cells, lists: Lists, cells2: Cells, lists2: Lists, g: nat,
                         c: Contents, i: nat)
      requires OldFrom(heads, cells, lists, g, c, i) && OldDone(lists, g, i) && i < |heads|
      requires OldKept(cells, lists, cells2, lists2, g, i) && At(lists2, Chain(g, i)) == []
      ensures OldFrom(heads, cells2, lists2, g, c, i + 1) && OldDone(lists2, g, i + 1)
    {
      hide DataOf;
      forall j | i < j < |heads|
        ensures HeadOk(heads, lists2, g, j) && BucketData(heads[j], cells2, At(lists2, Chain(g, j))) == c[j]
      {
        assert HeadOk(heads, lists, g, j);
        assert SameList(cells, lists, cells2, lists2, Chain(g, j));
      }
      forall j | 0 <= j < i + 1 ensures At(lists2, Chain(g, j)) == [] {
        if j < i && Chain(g, j) in lists {
          assert SameList(cells, lists, cells2, lists2, Chain(g, j));
        }
      }
    }

    /** Empty chains for a new generation of n buckets. */
    static function Opened(lists: Lists, g: nat, n: nat): Lists {
      map id | id in lists.Keys + (set i | 0 <= i < n :: Chain(g, i)) :: At(lists, id)
    }

    lemma OpenedReady(nb: array<Cell>, n: nat)
      requires Shape() && nb.Length == n > 0 && forall i :: 0 <= i < n ==> nb[i] == Cell(NULL, NULL)
      ensures var g := gen + 1;
              var lists2 := Opened(lists, g, n);
              && Linked(cells, place, lists2) && FreeList in lists2 && lists2[FreeList] == lists[FreeList]
              && HeadsOk(nb[..], lists2, g) && ContentsOf(nb[..], cells, lists2, g) == Empty(n)
              && NonEmpty(Empty(n)) == 0
              && OldFrom(bucket[..], cells, lists2, gen, Contents(), 0)
              && OnlyTwo(lists2, gen, g, nBuckets, n)
    {
      hide Linked, HeadOk, HeadsOk, ContentsOf, NonEmpty, DataOf, OldFrom, Empty;
      Widened(cells, place, lists, Opened(lists, gen + 1, n));
      EmptyHasNone(Empty(n));
      OldHeadsKept(bucket[..], cells, lists, gen, n);
      NewHeadsEmpty(nb[..], cells, lists, gen, nBuckets);
    }

    static lemma OldHeadsKept(heads: seq<Cell>, cells: Cells, lists: Lists, gen: nat, n: nat)
      requires HeadsOk(heads, lists, gen) && OnlyLists(lists, gen, |heads|)
      ensures OldFrom(heads, cells, Opened(lists, gen + 1, n), gen, ContentsOf(heads, cells, lists, gen), 0)
    {
      var lists2 := Opened(lists, gen + 1, n);
      forall j | 0 <= j < |heads|
        ensures HeadOk(heads, lists2, gen, j) && At(lists2, Chain(gen, j)) == At(lists, Chain(gen, j))
      {
        assert HeadOk(heads, lists, gen, j);
      }
    }

    static lemma NewHeadsEmpty(heads: seq<Cell>, cells: Cells, lists: Lists, gen: nat, n: nat)
      requires OnlyLists(lists, gen, n) && forall i :: 0 <= i < |heads| ==> heads[i] == Cell(NULL, NULL)
      ensures var lists2 := Opened(lists, gen + 1, |heads|);
              HeadsOk(heads, lists2, gen + 1) && ContentsOf(heads, cells, lists2, gen + 1) == Empty(|heads|)
    {
      var g := gen + 1;
      var lists2 := Opened(lists, g, |heads|);
      assert forall i :: 0 <= i < |heads| ==> HeadOk(heads, lists2, g, i);
    }

    static ghost predicate OnlyTwo(lists: Lists, g1: nat, g2: nat, n1: nat, n2: nat) {
      forall id :: id in lists ==>
        id == FreeList || (id.Chain? && ((id.gen == g1 && id.i < n1) || (id.gen == g2 && id.i < n2)))
    }

    /** Only the chains of the new generation are left. */
    static function Closed(lists: Lists, g: nat): Lists {
      map id | id in lists && (id == FreeList || id.gen == g) :: lists[id]
    }

    static lemma ClosedReady(heads: seq<Cell>, cells: Cells, place: Places, lists: Lists, g1: nat, g2: nat, n1: nat,
        n2: nat)
      requires Linked(cells, place, lists) && FreeList in lists && HeadsOk(heads, lists, g2) && OldDone(lists, g1, n1)
      requires OnlyTwo(lists, g1, g2, n1, n2) && g1 != g2
      ensures var lists2 := Closed(lists, g2);
              && Linked(cells, place, lists2) && FreeList in lists2 && lists2[FreeList] == lists[FreeList]
              && HeadsOk(heads, lists2, g2)
                  && ContentsOf(heads, cells, lists2, g2) == ContentsOf(heads, cells, lists, g2)
              && OnlyLists(lists2, g2, n2)
    {
      var lists2 := Closed(lists, g2);
      forall id | id in lists && id !in lists2 ensures lists[id] == [] {
        assert id == Chain(g1, id.i);
        assert At(lists, Chain(g1, id.i)) == [];
      }
      Forgotten(cells, place, lists, lists2);
      forall i | 0 <= i < |heads|
        ensures HeadOk(heads, lists2, g2, i) && At(lists2, Chain(g2, i)) == At(lists, Chain(g2, i))
      {
        assert HeadOk(heads, lists, g2, i);
      }
      hide DataOf, Linked;
    }

    lemma PlacedNext(c: Contents, n: nat, i: nat)
      requires Compatible(functions) && n > 0 && i < |c|
      ensures PlaceAll(PlaceAll(Empty(n), functions, Flatten(c[..i])), functions, c[i])
              == PlaceAll(Empty(n), functions, Flatten(c[..i + 1]))
    {
      PlaceAllSplits(Empty(n), functions, Flatten(c[..i]), c[i]);
      FlattenSnoc(c[..i], c[i]);
      assert c[..i] + [c[i]] == c[..i + 1];
    }

    lemma OldReady(c: Contents, i: nat)
      requires OldFrom(bucket[..], cells, lists, gen, c, i) && WellPlaced(c, functions) && i < bucket.Length
      ensures OldBucket(i) && BucketData(bucket[i], cells, At(lists, Chain(gen, i))) == c[i]
    {
      assert HeadOk(bucket[..], lists, gen, i) && BucketOk(c, functions, i);
      hide DataOf;
    }

    /** Walks the old table and moves every entry. */
    method MoveAll(nb: array<Cell>, ghost c: Contents, ghost g: nat) returns (used: nat)
      requires Moving(nb, g) && NewContents(nb, g) == Empty(nb.Length) && nb != bucket
          && NonEmpty(Empty(nb.Length)) == 0
      requires OldFrom(bucket[..], cells, lists, gen, c, 0) && WellPlaced(c, functions) && Compatible(functions)
      modifies nb, this`cells, this`place, this`lists, this`freeEntryList
      ensures Moving(nb, g) && old(cells.Keys) <= cells.Keys && lists.Keys == old(lists.Keys)
      ensures NewContents(nb, g) == Rehashed(c, functions, nb.Length) && used == NonEmpty(NewContents(nb, g))
      ensures OldDone(lists, gen, bucket.Length)
    {
      used := 0;
      var i := 0;
      ghost var e := Empty(nb.Length);
      assert |c| == bucket.Length && nb.Length > 0 && OldDone(lists, gen, 0);
      PlaceNone(e, functions);
      assert Flatten(c[..0]) == [];
      hide Linked, HeadsOk, HeadOk, ContentsOf, DataOf, PlaceAll, NonEmpty, Compatible, WellPlaced, OldFrom, OldDone,
           OldKept, Flatten, Moving, NewContents, Memory, OldBucket, BucketData, Empty;
      while i < bucket.Length
        invariant i <= bucket.Length == |c| && Moving(nb, g) && old(cells.Keys) <= cells.Keys
        invariant NewContents(nb, g) == PlaceAll(e, functions, Flatten(c[..i])) && used == NonEmpty(NewContents(nb, g))
        invariant OldFrom(bucket[..], cells, lists, gen, c, i) && OldDone(lists, gen, i)
        invariant lists.Keys == old(lists.Keys)
      {
        ghost var cells1, lists1 := cells, lists;
        OldReady(c, i);
        PlacedNext(c, nb.Length, i);
        used := RehashBucket(nb, i, used, g);
        OldStep(bucket[..], cells1, lists1, cells, lists, gen, c, i);
        OldKeys(cells1, lists1, cells, lists, gen, i);
        i := i + 1;
      }
      assert c[..i] == c;
    }

    static lemma OldKeys(cells: Cells, lists: Lists, cells2: Cells, lists2: Lists, g: nat, i: nat)
      requires OldKept(cells, lists, cells2, lists2, g, i)
      ensures lists2.Keys == lists.Keys
    {
    }

    static lemma SameTwo(lists: Lists, lists2: Lists, g1: nat, g2: nat, n1: nat, n2: nat)
      requires OnlyTwo(lists, g1, g2, n1, n2) && lists2.Keys == lists.Keys
      ensures OnlyTwo(lists2, g1, g2, n1, n2)
    {
      forall id | id in lists2 ensures id in lists {
        assert id in lists2.Keys;
      }
    }

    /** Moves all entries to a table of the size wanted for the candidate. */
    method Rehash(candidate: nat) returns (ok: bool)
      requires Shape() && Compatible(functions) && WellPlaced(Contents(), functions)
      modifies this
      ensures ok == Reasonable(tuning) && tuning == old(tuning) && nEntries == old(nEntries)
      ensures !ok ==> unchanged(this)
      ensures ok ==>
        && Shape() && fresh(bucket) && old(cells.Keys) <= cells.Keys
        && NextPrimeIs(Wanted(tuning, candidate), nBuckets)
        && Contents() == Rehashed(old(Contents()), functions, nBuckets) && nBucketsUsed == NonEmpty(Contents())
    {
      if !Reasonable(tuning) {
        return false;
      }
      var n := NextPrime(Wanted(tuning, candidate));
      assert n > 0;
      var nb := new Cell[n](_ => Cell(NULL, NULL));
      hide Shape, Contents, Compatible, WellPlaced, NextPrimeIs, Wanted, Reasonable, Rehashed;
      MoveInto(nb);
      return true;
    }

    /** The new array of heads takes the place of the old one. */
    method MoveInto(nb: array<Cell>)
      requires Shape() && Compatible(functions) && WellPlaced(Contents(), functions)
      requires nb != bucket && nb.Length > 0 && forall i :: 0 <= i < nb.Length ==> nb[i] == Cell(NULL, NULL)
      modifies this, nb
      ensures tuning == old(tuning) && nEntries == old(nEntries) && old(cells.Keys) <= cells.Keys
      ensures Shape() && bucket == nb && nBuckets == nb.Length && nBucketsUsed == NonEmpty(Contents())
      ensures Contents() == Rehashed(old(Contents()), functions, nb.Length)
    {
      hide Moving, NewContents, Compatible, WellPlaced, OnlyTwo, OldFrom, OldDone, Empty, Rehashed, Contents, Shape,
           NonEmpty;
      ghost var c, g := Contents(), gen + 1;
      BucketsCounted();
      Open(nb);
      ghost var lists1 := lists;
      var used := MoveAll(nb, c, g);
      SameTwo(lists1, lists, gen, g, nBuckets, nb.Length);
      Switch(nb, used, g);
    }

    /** Empty chains for the new heads, and the old ones still there. */
    ghost method Open(nb: array<Cell>)
      requires Shape() && nb.Length > 0 && forall i :: 0 <= i < nb.Length ==> nb[i] == Cell(NULL, NULL)
      modifies this`lists
      ensures Moving(nb, gen + 1) && NewContents(nb, gen + 1) == Empty(nb.Length) && NonEmpty(Empty(nb.Length)) == 0
      ensures OldFrom(bucket[..], cells, lists, gen, old(Contents()), 0)
      ensures OnlyTwo(lists, gen, gen + 1, nBuckets, nb.Length)
    {
      OpenedReady(nb, nb.Length);
      hide Linked, HeadsOk, HeadOk, ContentsOf, DataOf, NonEmpty, OnlyLists, OnlyTwo, OldFrom, Opened, Empty;
      lists := Opened(lists, gen + 1, nb.Length);
    }

    /** The old heads and their empty chains are dropped. */
    method Switch(nb: array<Cell>, used: nat, ghost g: nat)
      requires Moving(nb, g) && OldDone(lists, gen, nBuckets) && OnlyTwo(lists, gen, g, nBuckets, nb.Length)
      modifies this`lists, this`bucket, this`nBuckets, this`nBucketsUsed, this`gen
      ensures Shape() && bucket == nb && nBuckets == nb.Length && nBucketsUsed == used
      ensures Contents() == old(NewContents(nb, g))
    {
      ClosedReady(nb[..], cells, place, lists, gen, g, nBuckets, nb.Length);
      hide Linked, HeadsOk, HeadOk, ContentsOf, DataOf, OnlyLists, OnlyTwo, OldDone, Closed;
      lists := Closed(lists, g);
      bucket := nb;
      nBuckets := nb.Length;
      nBucketsUsed := used;
      gen := g;
    }

    /* ---- inserting ---- */

    /** What becomes of the tuning and the contents when a table may have got too full. */
    static ghost predicate GrownTo(k: Functions, t: Tuning, c: Contents, t2: Tuning, d: Contents)
      requires Compatible(k)
    {
      if TooFull(t, NonEmpty(c), |c|) then
        t2 == Checked(t) && ResizedIf(k, TooFull(t2, NonEmpty(c), |c|), Wanted(t2, Grown(t2, |c|)), c, d)
      else t2 == t && d == c
    }

    static ghost predicate ShrunkTo(k: Functions, t: Tuning, c: Contents, t2: Tuning, d: Contents)
      requires Compatible(k)
    {
      if TooEmpty(t, NonEmpty(c), |c|) then
        t2 == Checked(t) && ResizedIf(k, TooEmpty(t2, NonEmpty(c), |c|), Wanted(t2, Shrunk(t2, |c|)), c, d)
      else t2 == t && d == c
    }

    static ghost predicate ResizedIf(k: Functions, really: bool, wanted: nat, c: Contents, d: Contents)
      requires Compatible(k)
    {
      if really then |d| > 0 && NextPrimeIs(wanted, |d|) && d == Rehashed(c, k, |d|) else d == c
    }

    /** A different number of buckets, if rehashing succeeds: the same set. */
    method Resize(candidate: nat)
      requires Valid() && Reasonable(tuning)
      modifies this
      ensures Valid() && tuning == old(tuning) && fresh(bucket) && old(cells.Keys) <= cells.Keys
      ensures ResizedIf(functions, true, Wanted(tuning, candidate), old(Contents()), Contents())
      ensures Elements(Contents()) == old(Elements(Contents()))
    {
      ghost var c := Contents();
      hide Shape, Contents, Compatible, WellPlaced, NextPrimeIs, Wanted, Reasonable, Rehashed, NonEmpty, Flatten,
           Elements, Distinct;
      var ok := Rehash(candidate);
      assert |Contents()| == nBuckets && nBuckets > 0 by { ContentsLength(); }
      RehashedSet(c, functions, nBuckets);
    }

    lemma BucketsCounted()
      requires Shape()
      ensures bucket.Length == nBuckets > 0
    {
    }

    lemma ContentsLength()
      requires Shape()
      ensures |Contents()| == nBuckets > 0
    {
    }

    method GrowIfNeeded()
      requires Valid()
      modifies this
      ensures Valid() && (bucket == old(bucket) || fresh(bucket)) && old(cells.Keys) <= cells.Keys
      ensures GrownTo(functions, old(tuning), old(Contents()), tuning, Contents())
      ensures Elements(Contents()) == old(Elements(Contents()))
    {
      ContentsLength();
      hide Shape, Contents, Compatible, WellPlaced, NextPrimeIs, Wanted, Reasonable, Rehashed, NonEmpty, Flatten,
           Elements, Distinct, Checked, Grown, TooFull;
      if TooFull(tuning, nBucketsUsed, nBuckets) {
        // the user may have made the tuning unreasonable; then it is replaced
        tuning := Checked(tuning);
        if TooFull(tuning, nBucketsUsed, nBuckets) {
          Resize(Grown(tuning, nBuckets));
        }
      }
    }

    /** What inserting e makes of the contents, and what it returns: the equal entry that is there
        already, or e after adding it. */
    static ghost predicate InsertedTo(k: Functions, t: Tuning, c: Contents, e: Data, r: Data, t2: Tuning, d: Contents)
      requires Compatible(k) && |c| > 0
    {
      var i := Slot(c, k, e);
      assert i < |c|;
      if Stored(c, k, e) != NULL then r == Stored(c, k, e) && d == c && t2 == t
      else
        && r == e
        && if c[i] != [] then d == Inserted(c, k, e) && t2 == t else GrownTo(k, t, Inserted(c, k, e), t2, d)
    }

    method Insert(entry: Data) returns (r: Data)
      requires Valid() && entry != NULL
      modifies this, bucket
      ensures Valid() && (bucket == old(bucket) || fresh(bucket)) && old(cells.Keys) <= cells.Keys
      ensures |old(Contents())| > 0
      ensures InsertedTo(functions, old(tuning), old(Contents()), entry, r, tuning, Contents())
    {
      hide Valid, Shape, Contents, Compatible, WellPlaced, Rehashed, NonEmpty, Flatten, Elements, Distinct, GrownTo,
           Inserted, StoredIn, Match;
      Parts();
      StoredIsTheOne(Contents(), functions, entry);
      var data, i := FindEntry(entry, false);
      Combined();
      if data != NULL {
        return data;
      }
      var headUsed := AddNew(i, entry);
      if headUsed {
        GrowIfNeeded();
      }
      return entry;
    }

    /** An entry equal to none in the table goes into its bucket. */
    method AddNew(i: nat, entry: Data) returns (headUsed: bool)
      requires Valid() && entry != NULL && i == Slot(Contents(), functions, entry) < |Contents()|
      requires Stored(Contents(), functions, entry) == NULL
      modifies bucket, this`cells, this`place, this`lists, this`freeEntryList, this`nEntries, this`nBucketsUsed
      ensures Valid() && old(cells.Keys) <= cells.Keys
      ensures Contents() == Inserted(old(Contents()), functions, entry) && headUsed == (old(Contents())[i] == [])
    {
      hide Valid, Shape, Contents, Compatible, WellPlaced, NonEmpty, Flatten, Elements, Distinct, Inserted, StoredIn,
           Match, Stored, Slot;
      Parts();
      InsertedSet(Contents(), functions, entry);
      headUsed := AddToBucket(i, entry);
      nEntries := nEntries + 1;
      if headUsed {
        nBucketsUsed := nBucketsUsed + 1;
      }
      Combined();
    }

    lemma Parts()
      requires Valid()
      ensures Shape() && Compatible(functions) && WellPlaced(Contents(), functions)
      ensures Distinct(Elements(Contents()), functions) && |Contents()| == nBuckets > 0
      ensures nBucketsUsed == NonEmpty(Contents()) && nEntries == |Flatten(Contents())|
    {
    }

    lemma Combined()
      requires Shape() && Compatible(functions) && WellPlaced(Contents(), functions)
      requires Distinct(Elements(Contents()), functions)
      requires nBucketsUsed == NonEmpty(Contents()) && nEntries == |Flatten(Contents())|
      ensures Valid()
    {
    }

    method AddToBucket(i: nat, entry: Data) returns (headUsed: bool)
      requires Shape() && entry != NULL && i == Slot(Contents(), functions, entry) < |Contents()|
      modifies bucket, this`cells, this`place, this`lists, this`freeEntryList
      ensures Shape() && old(cells.Keys) <= cells.Keys
      ensures Contents() == Inserted(old(Contents()), functions, entry) && headUsed == (old(Contents())[i] == [])
    {
      hide Linked, KeptBut, HeadsOk, ContentsOf, OnlyLists, Added;
      ghost var cells1, lists1 := cells, lists;
      headUsed := AddEntry(bucket, i, entry, gen);
      SameKeys(cells1, lists1, cells, lists, {FreeList, Chain(gen, i)}, gen, nBuckets);
    }

    /** Inserting, seen as an operation on sets: an equal entry that is there is returned and
        nothing is added, otherwise exactly the new entry is. */
    static lemma InsertedSetOf(k: Functions, t: Tuning, c: Contents, e: Data, r: Data, t2: Tuning, d: Contents)
      requires Compatible(k) && WellPlaced(c, k) && Distinct(Elements(c), k) && e != NULL
      requires InsertedTo(k, t, c, e, r, t2, d)
      ensures WellPlaced(d, k) && Distinct(Elements(d), k)
      ensures if exists x :: x in Elements(c) && k.comparator(e, x) then
                r in Elements(c) && k.comparator(e, r) && Elements(d) == Elements(c)
              else r == e && Elements(d) == Elements(c) + multiset{e}
    {
      hide WellPlaced, Distinct, Elements, Stored, Inserted, Rehashed, NextPrimeIs, Wanted, Checked, Grown, TooFull;
      StoredIsTheOne(c, k, e);
      if Stored(c, k, e) == NULL {
        InsertedSet(c, k, e);
        if d != Inserted(c, k, e) {
          RehashedSet(Inserted(c, k, e), k, |d|);
        }
      }
    }

    /** While fewer entries than the candidate are in a table initialised for it, inserting one
        leaves the number of buckets alone. */
    static lemma FewEntriesNoGrowth(k: Functions, t: Tuning, candidate: nat, c: Contents, e: Data, r: Data, t2: Tuning,
                                    d: Contents)
      requires Compatible(k) && Reasonable(t) && !t.isNBuckets && NextPrimeIs(Wanted(t, candidate), |c|) && |c| > 0
      requires InsertedTo(k, t, c, e, r, t2, d) && |Flatten(c)| + 1 < candidate
      ensures |d| == |c| && t2 == t
    {
      hide TooFull, Wanted, Elements, Flatten, NonEmpty, Rehashed;
      if Stored(c, k, e) == NULL {
        InsertedElements(c, k, e);
        NonEmptyAtMost(Inserted(c, k, e));
        NoEarlyGrowth(t, candidate, |c|, NonEmpty(Inserted(c, k, e)));
      }
    }

    /* ---- deleting ---- */

    /** What deleting e makes of the contents: the equal entry, if there is one, goes. */
    static ghost predicate DeletedFrom(k: Functions, t: Tuning, c: Contents, e: Data, r: Data, t2: Tuning, d: Contents)
      requires Compatible(k) && |c| > 0
    {
      var i := Slot(c, k, e);
      assert i < |c|;
      if Stored(c, k, e) == NULL then r == NULL && d == c && t2 == t
      else
        && r == Stored(c, k, e) && Match(k, c[i], e) < |c[i]|
        && var c2 := Deleted(c, k, e);
           if c2[i] != [] then d == c2 && t2 == t else ShrunkTo(k, t, c2, t2, d)
    }

    /** Deleting, seen as an operation on sets: the one equal entry goes and is returned, or there
        is none and nothing changes. */
    static lemma DeletedSetOf(k: Functions, t: Tuning, c: Contents, e: Data, r: Data, t2: Tuning, d: Contents)
      requires Compatible(k) && WellPlaced(c, k) && Distinct(Elements(c), k)
      requires DeletedFrom(k, t, c, e, r, t2, d)
      ensures WellPlaced(d, k) && Distinct(Elements(d), k)
      ensures if exists x :: x in Elements(c) && k.comparator(e, x) then
                r in Elements(c) && k.comparator(e, r) && Elements(d) == Elements(c) - multiset{r}
              else r == NULL && Elements(d) == Elements(c)
      ensures forall x :: x in Elements(d) ==> !k.comparator(e, x)
    {
      hide WellPlaced, Elements, Stored, Deleted, Rehashed, NextPrimeIs, Wanted, Checked, Shrunk, TooEmpty;
      StoredIsTheOne(c, k, e);
      if Stored(c, k, e) != NULL {
        DeletedSet(c, k, e);
        var c2 := Deleted(c, k, e);
        if d != c2 {
          RehashedSet(c2, k, |d|);
        }
        OnlyOne(k, Elements(c), e, r);
      }
    }

    /** At most one entry of the table is equal to a given one. */
    static lemma OnlyOne(k: Functions, m: multiset<Data>, e: Data, r: Data)
      requires Compatible(k) && Distinct(m, k) && r in m && k.comparator(e, r)
      ensures forall x :: x in m - multiset{r} ==> !k.comparator(e, x)
    {
      forall x | x in m && k.comparator(e, x) ensures x == r {
        assert k.comparator(r, e) && k.comparator(r, x);
      }
    }

    method ShrinkIfNeeded()
      requires Valid()
      modifies this
      ensures Valid() && (bucket == old(bucket) || fresh(bucket)) && old(cells.Keys) <= cells.Keys
      ensures ShrunkTo(functions, old(tuning), old(Contents()), tuning, Contents())
    {
      hide Shape, Contents, Compatible, WellPlaced, NextPrimeIs, Wanted, Reasonable, Rehashed, NonEmpty, Flatten,
           Elements, Distinct, Checked, Shrunk, TooEmpty;
      ContentsLength();
      if TooEmpty(tuning, nBucketsUsed, nBuckets) {
        // the user may have made the tuning unreasonable; then it is replaced
        tuning := Checked(tuning);
        if TooEmpty(tuning, nBucketsUsed, nBuckets) {
          Resize(Shrunk(tuning, nBuckets));
        }
      }
    }

    method Delete(entry: Data) returns (data: Data)
      requires Valid()
      modifies this, bucket
      ensures Valid() && (bucket == old(bucket) || fresh(bucket)) && old(cells.Keys) <= cells.Keys
      ensures |old(Contents())| > 0
      ensures DeletedFrom(functions, old(tuning), old(Contents()), entry, data, tuning, Contents())
    {
      hide Valid, Shape, Contents, Compatible, WellPlaced, Rehashed, NonEmpty, Flatten, Elements, Distinct, ShrunkTo,
           Deleted, StoredIn, Match;
      Parts();
      StoredIsTheOne(Contents(), functions, entry);
      if Stored(Contents(), functions, entry) != NULL {
        DeletedSet(Contents(), functions, entry);
      }
      var i;
      data, i := FindEntry(entry, true);
      if data == NULL {
        Combined();
        return NULL;
      }
      nEntries := nEntries - 1;
      HeadOfBucket(i);
      if bucket[i].data == NULL {
        nBucketsUsed := nBucketsUsed - 1;
        Combined();
        ShrinkIfNeeded();
      } else {
        Combined();
      }
    }

    lemma HeadOfBucket(i: nat)
      requires Shape() && i < |Contents()|
      ensures i < bucket.Length && |Contents()| == nBuckets && (bucket[i].data == NULL <==> Contents()[i] == [])
    {
      hide DataOf, Linked, HeadsOk;
    }

    /* ---- creating and clearing ---- */

    /** A table of the size the tuning asks for, for a candidate number of entries. */
    constructor (candidate: nat, tuning: Tuning, functions: Functions)
      requires Reasonable(tuning) && Compatible(functions)
      ensures Valid() && fresh(bucket) && this.tuning == tuning && this.functions == functions && cells == map[]
      ensures NextPrimeIs(Wanted(tuning, candidate), nBuckets) && Contents() == Empty(nBuckets)
    {
      var n := NextPrime(Wanted(tuning, candidate));
      bucket := new Cell[n](_ => Cell(NULL, NULL));
      nBuckets := n;
      nBucketsUsed, nEntries := 0, 0;
      this.tuning := tuning;
      this.functions := functions;
      freeEntryList := NULL;
      cells, place := map[], map[];
      lists := Opened(map[FreeList := []], 0, n);
      gen := 0;
      new;
      hide NextPrimeIs, Wanted, Reasonable, NonEmpty, Flatten, Elements, DataOf;
      StartsEmpty();
    }

    lemma StartsEmpty()
      requires bucket.Length == nBuckets > 0 && cells == map[] && place == map[] && gen == 0
      requires lists == Opened(map[FreeList := []], 0, nBuckets) && freeEntryList == NULL
      requires forall i :: 0 <= i < nBuckets ==> bucket[i] == Cell(NULL, NULL)
      requires Compatible(functions) && nBucketsUsed == 0 && nEntries == 0
      ensures Valid() && Contents() == Empty(nBuckets)
    {
      assert forall id :: id in lists ==> lists[id] == [];
      assert Linked(cells, place, lists);
      assert forall i :: 0 <= i < nBuckets ==> HeadOk(bucket[..], lists, gen, i);
      assert Contents() == Empty(nBuckets);
      EmptyHasNone(Empty(nBuckets));
      assert forall i :: 0 <= i < nBuckets ==> BucketOk(Empty(nBuckets), functions, i);
    }

    /** Fails when the tuning is not reasonable. */
    static method Initialize(candidate: nat, tuning: Tuning, functions: Functions) returns (t: HashTable?)
      requires Compatible(functions)
      ensures t == null <==> !Reasonable(tuning)
      ensures t != null ==>
        && fresh(t) && fresh(t.bucket) && t.Valid() && t.tuning == tuning && t.functions == functions
        && NextPrimeIs(Wanted(tuning, candidate), t.nBuckets) && t.Contents() == Empty(t.nBuckets)
        && Wanted(tuning, candidate)
           == if tuning.isNBuckets then candidate else (candidate as real / tuning.growthThreshold).Floor
    {
      if !Reasonable(tuning) {
        return null;
      }
      t := new HashTable(candidate, tuning, functions);
    }

    /** Empties one bucket; its overflow cells go to the free list.  Returns the entries handed to
        the user's freer, those in the overflow first. */
    method ClearBucket(i: nat) returns (freed: seq<Data>)
      requires Shape() && i < nBuckets
      modifies bucket, this`cells, this`place, this`lists, this`freeEntryList
      ensures Shape() && cells.Keys == old(cells.Keys)
      ensures Contents() == old(Contents())[i := []] && multiset(freed) == multiset(old(Contents())[i])
    {
      hide Linked, HeadsOk, HeadOk, ContentsOf, DataOf, OnlyLists, KeptBut;
      ghost var heads, id, cells0, lists0 := bucket[..], Chain(gen, i), cells, lists;
      ghost var c := Contents();
      BucketLayout(i);
      freed := [];
      if bucket[i].data != NULL {
        freed := FreeOverflow(i, bucket[i].next);
        freed := freed + [bucket[i].data];
        bucket[i] := Cell(NULL, NULL);
        assert bucket[..] == heads[i := Cell(NULL, NULL)];
        BucketCleared(heads, cells0, lists0, bucket[..], cells, lists, gen, i);
        SameKeys(cells0, lists0, cells, lists, {FreeList, id}, gen, nBuckets);
      } else {
        assert c[i := []] == c;
      }
    }

    lemma BucketLayout(i: nat)
      requires Shape() && i < nBuckets
      ensures var id := Chain(gen, i);
              && id in lists && bucket[i].next == Top(lists[id])
              && Contents()[i] == (if bucket[i].data == NULL then [] else [bucket[i].data] + DataOf(cells, lists[id]))
    {
      assert HeadOk(bucket[..], lists, gen, i);
      hide DataOf, Linked;
    }

    static lemma BucketCleared(heads: seq<Cell>, cells: Cells, lists: Lists, heads2: seq<Cell>, cells2: Cells,
        lists2: Lists,
                               g: nat, i: nat)
      requires HeadsOk(heads, lists, g) && i < |heads| && heads2 == heads[i := Cell(NULL, NULL)]
      requires KeptBut(cells, lists, cells2, lists2, {FreeList, Chain(g, i)})
      requires Chain(g, i) in lists2 && lists2[Chain(g, i)] == []
      ensures HeadsOk(heads2, lists2, g)
      ensures ContentsOf(heads2, cells2, lists2, g) == ContentsOf(heads, cells, lists, g)[i := []]
    {
      hide DataOf;
      forall j | 0 <= j < |heads| && j != i ensures SameList(cells, lists, cells2, lists2, Chain(g, j)) {
        assert HeadOk(heads, lists, g, j);
      }
      ContentsUpdated(heads, cells, lists, heads2, cells2, lists2, g, i, []);
    }

    method FreeOverflow(i: nat, first: Addr) returns (freed: seq<Data>)
      requires Memory() && cells.Keys == place.Keys && Chain(gen, i) in lists && first == Top(lists[Chain(gen, i)])
      modifies this`cells, this`place, this`lists, this`freeEntryList
      ensures Memory() && cells.Keys == place.Keys == old(cells.Keys)
      ensures KeptBut(old(cells), old(lists), cells, lists, {FreeList, Chain(gen, i)})
      ensures Chain(gen, i) in lists && lists[Chain(gen, i)] == []
      ensures freed == old(DataOf(cells, lists[Chain(gen, i)]))
    {
      hide Linked, DataOf, KeptBut, Memory;
      ghost var id, cells0, lists0 := Chain(gen, i), cells, lists;
      ghost var rest := DataOf(cells, lists[id]);
      ghost var all := rest;
      var cursor := first;
      freed := [];
      KeptSelf({FreeList, id});
      while cursor != NULL
        invariant Memory() && cells.Keys == place.Keys == old(cells.Keys)
        invariant id in lists && cursor == Top(lists[id]) && DataOf(cells, lists[id]) == rest && freed + rest == all
        invariant KeptBut(cells0, lists0, cells, lists, {FreeList, id})
        decreases |lists[id]|
      {
        ghost var cells1, lists1 := cells, lists;
        FirstData(id);
        freed := freed + [cells[cursor].data];
        cursor := FreeFirst(id, cursor);
        KeptTwice(cells0, lists0, cells1, lists1, cells, lists, {FreeList, id}, {FreeList, id});
        assert {FreeList, id} + {FreeList, id} == {FreeList, id};
        rest := rest[1..];
      }
      Unlisted(id);
    }

    lemma FirstData(id: ListId)
      requires Memory() && id in lists && lists[id] != []
      ensures var a, s := Top(lists[id]), lists[id];
              && a in cells && DataOf(cells, s) == [cells[a].data] + DataOf(cells, s[..|s| - 1])
    {
      TopOk(cells, place, lists, id);
    }

    lemma Unlisted(id: ListId)
      requires Memory() && id in lists && Top(lists[id]) == NULL
      ensures lists[id] == []
    {
      ListedCells(id);
    }

    /** The first cell of a chain goes to the free list; the next one is returned. */
    method FreeFirst(ghost id: ListId, cursor: Addr) returns (next: Addr)
      requires Memory() && cells.Keys == place.Keys && id in lists && id != FreeList && lists[id] != []
      requires cursor == Top(lists[id])
      modifies this`cells, this`place, this`lists, this`freeEntryList
      ensures Memory() && cells.Keys == place.Keys == old(cells.Keys)
      ensures KeptBut(old(cells), old(lists), cells, lists, {FreeList, id})
      ensures var s := old(lists[id]);
              && id in lists && lists[id] == s[..|s| - 1] && next == Top(s[..|s| - 1])
              && DataOf(cells, s[..|s| - 1]) == old(DataOf(cells, s[..|s| - 1]))
    {
      hide Linked, DataOf, KeptBut;
      ghost var s, cells0, lists0 := lists[id], cells, lists;
      TopOk(cells, place, lists, id);
      Popped(cells, place, lists, id);
      next := cells[cursor].next;
      KeptAround(cells, place, lists, cells, lists[id := s[..|s| - 1]], id, cursor);
      place := place - {cursor};
      lists := lists[id := s[..|s| - 1]];
      ghost var cells1, lists1 := cells, lists;
      FreeEntry(cursor);
      MovedFrame(cells0, lists0, cells1, lists1, cells, lists, id, s, {FreeList}, {FreeList, id});
    }

    /** Makes all buckets empty; every entry is handed to the user's freer once. */
    method Clear() returns (freed: seq<Data>)
      requires Valid()
      modifies this`cells, this`place, this`lists, this`freeEntryList, this`nEntries, this`nBucketsUsed, bucket
      ensures Valid() && Contents() == Empty(nBuckets) && cells.Keys == old(cells.Keys)
      ensures multiset(freed) == old(Elements(Contents()))
    {
      hide Valid, Shape, Contents, Elements, Flatten, NonEmpty, Distinct, WellPlaced, Compatible;
      Parts();
      ghost var c, n := Contents(), nBuckets;
      var i := 0;
      freed := [];
      NothingYet(c);
      while i < nBuckets
        invariant 0 <= i <= nBuckets == n == |c| && Shape() && cells.Keys == old(cells.Keys)
        invariant |Contents()| == |c|
        invariant forall j :: 0 <= j < i ==> Contents()[j] == []
        invariant forall j :: i <= j < n ==> Contents()[j] == c[j]
        invariant multiset(freed) == Elements(c[..i])
      {
        ghost var done := freed;
        var more := ClearBucket(i);
        freed := freed + more;
        OneMoreFreed(c, i, done, more);
        i := i + 1;
      }
      assert c[..i] == c;
      nBucketsUsed := 0;
      nEntries := 0;
      assert Contents() == Empty(n);
      EmptyPlaced(n);
      Combined();
    }

    static lemma NothingYet(c: Contents)
      ensures Flatten(c[..0]) == [] && multiset([]) == Elements(c[..0])
    {
    }

    static lemma OneMoreFreed(c: Contents, i: nat, done: seq<Data>, more: seq<Data>)
      requires i < |c| && multiset(done) == Elements(c[..i]) && multiset(more) == multiset(c[i])
      ensures multiset(done + more) == Elements(c[..i + 1])
    {
      FlattenSnoc(c[..i], c[i]);
      assert c[..i] + [c[i]] == c[..i + 1];
    }

    lemma EmptyPlaced(n: nat)
      requires n > 0
      ensures WellPlaced(Empty(n), functions) && Distinct(Elements(Empty(n)), functions)
      ensures NonEmpty(Empty(n)) == 0 && |Flatten(Empty(n))| == 0
    {
      EmptyHasNone(Empty(n));
      assert forall i :: 0 <= i < n ==> BucketOk(Empty(n), functions, i);
    }

    /* ---- walking ---- */

    /** The first entry of the walk, or NULL when the table is empty. */
    method GetFirst() returns (data: Data)
      requires Valid()
      ensures var w := Flatten(Contents()); data == if w == [] then NULL else w[0]
    {
      hide Valid, Shape, Contents, Elements, Flatten, NonEmpty, Distinct, WellPlaced, Compatible;
      Parts();
      ghost var c := Contents();
      if nEntries == 0 {
        return NULL;
      }
      data := FirstFrom(0);
      assert c[0..] == c;
    }

    /** The first entry in the buckets from the i-th on, or NULL. */
    method FirstFrom(i: nat) returns (data: Data)
      requires Shape() && WellPlaced(Contents(), functions) && i <= nBuckets
      ensures i <= |Contents()|
      ensures var w := Flatten(Contents()[i..]); data == if w == [] then NULL else w[0]
    {
      hide Shape, Contents, Flatten, WellPlaced;
      ContentsLength();
      ghost var c := Contents()[i..];
      var b := i;
      while b < nBuckets
        invariant i <= b <= nBuckets && forall j :: 0 <= j < b - i ==> c[j] == []
      {
        HeadOfBucket(b);
        FirstInWalk(c, b - i);
        if bucket[b].data != NULL {
          HeadIsFirst(b);
          return bucket[b].data;
        }
        b := b + 1;
      }
      EmptyHasNone(c);
      return NULL;
    }

    lemma HeadIsFirst(i: nat)
      requires Shape() && i < nBuckets && i < bucket.Length && bucket[i].data != NULL
      ensures i < |Contents()| && Contents()[i] != [] && Contents()[i][0] == bucket[i].data
    {
      BucketLayout(i);
    }

    /** The entry after a given one that is in the table, or NULL after the last. */
    method GetNext(entry: Data) returns (data: Data)
      requires Valid() && entry in Elements(Contents())
      ensures forall p :: 0 <= p < |Flatten(Contents())| && Flatten(Contents())[p] == entry ==>
        data == if p + 1 < |Flatten(Contents())| then Flatten(Contents())[p + 1] else NULL
    {
      hide Valid, Shape, Contents, Elements, Flatten, NonEmpty, Distinct, WellPlaced, Compatible, BucketOk;
      Parts();
      ghost var c := Contents();
      var i := functions.hasher(entry, nBuckets);
      ghost var j := EntryPlace(c, functions, entry);
      ghost var p := |Flatten(c[..i])| + j;
      InWalk(c, i, j);
      forall q | 0 <= q < |Flatten(c)| && Flatten(c)[q] == entry ensures q == p {
        OnceInWalk(c, functions, p, q);
      }
      data := NextInBucket(i, entry, j);
      if data != NULL {
        return data;
      }
      data := FirstFrom(i + 1);
      assert p + 1 < |Flatten(c)| ==> Flatten(c)[p + 1..][0] == Flatten(c)[p + 1];
    }

    /** Where an entry of the table is. */
    static lemma EntryPlace(c: Contents, k: Functions, e: Data) returns (j: nat)
      requires Compatible(k) && WellPlaced(c, k) && Distinct(Elements(c), k) && e in Elements(c)
      ensures var i := Slot(c, k, e);
              && i < |c| && j < |c[i]| && c[i][j] == e
              && forall l :: 0 <= l < |c[i]| && c[i][l] == e ==> l == j
    {
      InFlatten(c, e);
      var i :| 0 <= i < |c| && e in c[i];
      j :| 0 <= j < |c[i]| && c[i][j] == e;
      assert BucketOk(c, k, i);
      forall l | 0 <= l < |c[i]| && c[i][l] == e ensures l == j {
        InWalk(c, i, j);
        InWalk(c, i, l);
        OnceInWalk(c, k, |Flatten(c[..i])| + j, |Flatten(c[..i])| + l);
      }
    }

    /** The entry behind the j-th one of a bucket, or NULL when that is the last. */
    method NextInBucket(i: nat, entry: Data, ghost j: nat) returns (data: Data)
      requires Shape() && WellPlaced(Contents(), functions) && i < nBuckets
      requires i < |Contents()| && j < |Contents()[i]| && Contents()[i][j] == entry
      requires forall l :: 0 <= l < |Contents()[i]| && Contents()[i][l] == entry ==> l == j
      ensures data == if j + 1 < |Contents()[i]| then Contents()[i][j + 1] else NULL
      ensures data == NULL <==> j + 1 == |Contents()[i]|
    {
      hide Linked, HeadOk, HeadsOk, ContentsOf, OnlyLists, WellPlaced, DataOf, BucketOk, Shape, BucketData, Contents;
      BucketEntries(i);
      HeadOfBucket(i);
      BucketLength(i);
      ghost var s, b, l := lists[Chain(gen, i)], Contents()[i], 0;
      var current, next := bucket[i].data, bucket[i].next;
      while next != NULL
        invariant l <= |s| && current == b[l] && next == if l == |s| then NULL else s[|s| - 1 - l]
        invariant l < |s| ==> next in cells && b[l + 1] == cells[next].data && cells[next].data != NULL
        invariant l <= j
        decreases |s| - l
      {
        if current == entry {
          return cells[next].data;
        }
        BucketCell(i, l);
        current := cells[next].data;
        next := cells[next].next;
        l := l + 1;
      }
      return NULL;
    }

    lemma BucketLength(i: nat)
      requires Shape() && i < nBuckets && i < bucket.Length && Contents()[i] != []
      ensures Chain(gen, i) in lists && |Contents()[i]| == |lists[Chain(gen, i)]| + 1
    {
      BucketLayout(i);
    }

    /** The entries of the table in the order of the walk, as many as fit. */
    method GetEntries(bufferSize: nat) returns (buffer: seq<Data>)
      requires Valid()
      ensures var w := Flatten(Contents()); buffer == w[..if bufferSize < |w| then bufferSize else |w|]
    {
      hide Valid, Shape, Contents, Elements, Flatten, NonEmpty, Distinct, WellPlaced, Compatible;
      Parts();
      ghost var c := Contents();
      var i := 0;
      buffer := [];
      NothingYet(c);
      while i < nBuckets
        invariant i <= nBuckets && buffer == Flatten(c[..i]) && |buffer| <= bufferSize
      {
        NextInWalk(c, i);
        ghost var before := buffer;
        var full;
        buffer, full := CopyBucket(i, buffer, bufferSize);
        if full {
          Prefix(before + c[i], Flatten(c[i + 1..]), bufferSize);
          return buffer;
        }
        i := i + 1;
      }
      assert c[..i] == c;
    }

    /** Copies the entries of a bucket until the buffer is full. */
    method CopyBucket(i: nat, buffer: seq<Data>, bufferSize: nat) returns (r: seq<Data>, full: bool)
      requires Shape() && WellPlaced(Contents(), functions) && i < nBuckets && |buffer| <= bufferSize
      ensures i < |Contents()| && full == (|buffer| + |Contents()[i]| > bufferSize)
      ensures r == if full then (buffer + Contents()[i])[..bufferSize] else buffer + Contents()[i]
    {
      hide Linked, HeadOk, HeadsOk, ContentsOf, OnlyLists, WellPlaced, DataOf, BucketOk, Shape, BucketData, Contents;
      ContentsLength();
      BucketEntries(i);
      HeadOfBucket(i);
      ghost var s, b, l := lists[Chain(gen, i)], Contents()[i], 0;
      r, full := buffer, false;
      if bucket[i].data == NULL {
        return;
      }
      BucketLength(i);
      var data, next, more := bucket[i].data, bucket[i].next, true;
      while more
        invariant l <= |b| && r == buffer + b[..l] && |r| <= bufferSize && (more <==> l < |b|)
        invariant l < |b| ==> data == b[l] && next == if l == |s| then NULL else s[|s| - 1 - l]
        invariant l < |s| ==> next in cells && b[l + 1] == cells[next].data && next != NULL
        decreases |b| - l
      {
        if |r| >= bufferSize {
          assert (buffer + b)[..bufferSize] == r;
          return r, true;
        }
        r := r + [data];
        more := next != NULL;
        if more {
          BucketCell(i, l);
          data := cells[next].data;
          next := cells[next].next;
        }
        l := l + 1;
      }
    }
  }
}
