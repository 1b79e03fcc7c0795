/** The overflow cells of a hash table: every cell is in exactly one chain or on the free list. */
module HashCells {
  import opened HashSpec

  type Addr = nat

  datatype Cell = Cell(data: Data, next: Addr)

  type Cells = map<Addr, Cell>

  /** The overflow chain of a bucket of one generation of the table, or the free list. */
  datatype ListId = Chain(gen: nat, i: nat) | FreeList

  datatype Place = Place(id: ListId, k: nat)

  type Places = map<Addr, Place>

  /** The cells of each list, last one first: adding to the front of a list appends here. */
  type Lists = map<ListId, seq<Addr>>

  function Top(s: seq<Addr>): Addr {
    if s == [] then NULL else s[|s| - 1]
  }

  function Under(s: seq<Addr>, k: nat): Addr
    requires k < |s|
  {
    if k == 0 then NULL else s[k - 1]
  }

  function At(lists: Lists, id: ListId): seq<Addr> {
    if id in lists then lists[id] else []
  }

  predicate CellOk(cells: Cells, place: Places, lists: Lists, a: Addr)
    requires a in place
  {
    var p := place[a];
    a in cells && p.id in lists && p.k < |lists[p.id]| && lists[p.id][p.k] == a
    && cells[a].next == Under(lists[p.id], p.k)
  }

  predicate ListOk(place: Places, lists: Lists, id: ListId)
    requires id in lists
  {
    forall k :: 0 <= k < |lists[id]| ==> lists[id][k] in place && place[lists[id][k]] == Place(id, k)
  }

  ghost predicate Linked(cells: Cells, place: Places, lists: Lists) {
    && NULL !in cells
    && (forall a {:trigger CellOk(cells, place, lists, a)} :: a in place ==> CellOk(cells, place, lists, a))
    && (forall id {:trigger ListOk(place, lists, id)} :: id in lists ==> ListOk(place, lists, id))
  }

  lemma TopOk(cells: Cells, place: Places, lists: Lists, id: ListId)
    requires Linked(cells, place, lists) && id in lists && lists[id] != []
    ensures var a, s := Top(lists[id]), lists[id];
            && a in place && a in cells && a != NULL && place[a] == Place(id, |s| - 1)
            && cells[a].next == Top(s[..|s| - 1])
  {
    assert ListOk(place, lists, id);
    assert CellOk(cells, place, lists, Top(lists[id]));
  }

  /** The first cell of a list is taken off. */
  lemma Popped(cells: Cells, place: Places, lists: Lists, id: ListId)
    requires Linked(cells, place, lists) && id in lists && lists[id] != []
    ensures var a, s := Top(lists[id]), lists[id];
            Linked(cells, place - {a}, lists[id := s[..|s| - 1]])
  {
    var a, s := Top(lists[id]), lists[id];
    var place2, lists2 := place - {a}, lists[id := s[..|s| - 1]];
    TopOk(cells, place, lists, id);
    forall x | x in place2 ensures CellOk(cells, place2, lists2, x) {
      assert CellOk(cells, place, lists, x);
    }
    forall l | l in lists2 ensures ListOk(place2, lists2, l) {
      assert ListOk(place, lists, l);
    }
  }

  /** A cell that is nowhere becomes the first of a list. */
  lemma Pushed(cells: Cells, place: Places, lists: Lists, id: ListId, a: Addr, d: Data)
    requires Linked(cells, place, lists) && id in lists && a !in place && a != NULL
    ensures var s := lists[id];
            Linked(cells[a := Cell(d, Top(s))], place[a := Place(id, |s|)], lists[id := s + [a]])
  {
    var s := lists[id];
    var cells2, place2, lists2 := cells[a := Cell(d, Top(s))], place[a := Place(id, |s|)], lists[id := s + [a]];
    forall x | x in place2 ensures CellOk(cells2, place2, lists2, x) {
      if x != a { assert CellOk(cells, place, lists, x); }
    }
    forall l | l in lists2 ensures ListOk(place2, lists2, l) {
      assert ListOk(place, lists, l);
    }
  }

  function Cut(s: seq<Addr>, k: nat): (r: seq<Addr>)
    requires k < |s|
    ensures |r| == |s| - 1 && forall j :: 0 <= j < |r| ==> r[j] == s[if j < k then j else j + 1]
  {
    s[..k] + s[k + 1..]
  }

  function CutPlaces(place: Places, id: ListId, k: nat, a: Addr): Places {
    map x | x in place && x != a ::
      if place[x].id == id && place[x].k > k then Place(id, place[x].k - 1) else place[x]
  }

  /** A cell behind another one is bypassed. */
  lemma Bypassed(cells: Cells, place: Places, lists: Lists, id: ListId, k: nat)
    requires Linked(cells, place, lists) && id in lists && k + 1 < |lists[id]|
    ensures var s := lists[id];
            && s[k] in cells && s[k + 1] in cells && cells[s[k + 1]].next == s[k] && s[k] in place
            && Linked(cells[s[k + 1] := cells[s[k + 1]].(next := cells[s[k]].next)],
                      CutPlaces(place, id, k, s[k]), lists[id := Cut(s, k)])
  {
    hide CellOk, ListOk, Cut, CutPlaces;
    var s := lists[id];
    assert ListOk(place, lists, id);
    ListedIn(cells, place, lists, id, k);
    ListedIn(cells, place, lists, id, k + 1);
    assert CellOk(cells, place, lists, s[k]) && CellOk(cells, place, lists, s[k + 1]);
    NextIs(cells, place, lists, id, k);
    var cells2 := cells[s[k + 1] := cells[s[k + 1]].(next := cells[s[k]].next)];
    var place2, lists2 := CutPlaces(place, id, k, s[k]), lists[id := Cut(s, k)];
    CutKeys(place, id, k, s[k]);
    forall x | x in place2 ensures CellOk(cells2, place2, lists2, x) {
      assert CellOk(cells, place, lists, x);
      BypassedCell(cells, place, lists, id, k, x);
    }
    forall l | l in lists2 ensures ListOk(place2, lists2, l) {
      assert ListOk(place, lists, l);
      BypassedList(place, lists, id, k, l);
    }
  }

  lemma ListIsOk(cells: Cells, place: Places, lists: Lists, id: ListId)
    requires Linked(cells, place, lists) && id in lists
    ensures ListOk(place, lists, id)
  {
    assert ListOk(place, lists, id);
  }

  lemma NotNullIn(cells: Cells, place: Places, lists: Lists, a: Addr)
    requires Linked(cells, place, lists) && a in cells
    ensures a != NULL
  {
  }

  lemma ListedIn(cells: Cells, place: Places, lists: Lists, id: ListId, k: nat)
    requires id in lists && k < |lists[id]| && ListOk(place, lists, id)
    ensures lists[id][k] in place
  {
  }

  lemma NextIs(cells: Cells, place: Places, lists: Lists, id: ListId, k: nat)
    requires id in lists && k + 1 < |lists[id]| && ListOk(place, lists, id)
    requires lists[id][k + 1] in place && CellOk(cells, place, lists, lists[id][k + 1])
    requires lists[id][k] in place && CellOk(cells, place, lists, lists[id][k])
    ensures var s := lists[id]; s[k] in cells && s[k + 1] in cells && cells[s[k + 1]].next == s[k]
  {
  }

  lemma CutKeys(place: Places, id: ListId, k: nat, a: Addr)
    ensures CutPlaces(place, id, k, a).Keys == place.Keys - {a}
  {
  }

  lemma BypassedList(place: Places, lists: Lists, id: ListId, k: nat, l: ListId)
    requires id in lists && k < |lists[id]| && l in lists && ListOk(place, lists, l) && ListOk(place, lists, id)
    ensures ListOk(CutPlaces(place, id, k, lists[id][k]), lists[id := Cut(lists[id], k)], l)
  {
  }

  lemma BypassedCell(cells: Cells, place: Places, lists: Lists, id: ListId, k: nat, x: Addr)
    requires id in lists && k + 1 < |lists[id]| && ListOk(place, lists, id)
    requires lists[id][k] in cells && lists[id][k + 1] in cells && x in place && CellOk(cells, place, lists, x)
    requires CellOk(cells, place, lists, lists[id][k]) && x != lists[id][k]
    ensures var s := lists[id];
            CellOk(cells[s[k + 1] := cells[s[k + 1]].(next := cells[s[k]].next)],
                   CutPlaces(place, id, k, s[k]), lists[id := Cut(s, k)], x)
  {
  }

  /** Lists of other generations that are empty can be forgotten. */
  lemma Forgotten(cells: Cells, place: Places, lists: Lists, lists2: Lists)
    requires Linked(cells, place, lists) && lists2.Keys <= lists.Keys
    requires forall id :: id in lists ==> if id in lists2 then lists2[id] == lists[id] else lists[id] == []
    ensures Linked(cells, place, lists2)
  {
    forall x | x in place ensures CellOk(cells, place, lists2, x) {
      assert CellOk(cells, place, lists, x);
    }
    forall l | l in lists2 ensures ListOk(place, lists2, l) {
      assert ListOk(place, lists, l);
    }
  }

  /** New empty lists can be added. */
  lemma Widened(cells: Cells, place: Places, lists: Lists, lists2: Lists)
    requires Linked(cells, place, lists) && lists.Keys <= lists2.Keys
    requires forall id :: id in lists2 ==> if id in lists then lists2[id] == lists[id] else lists2[id] == []
    ensures Linked(cells, place, lists2)
  {
    forall x | x in place ensures CellOk(cells, place, lists2, x) {
      assert CellOk(cells, place, lists, x);
    }
    forall l | l in lists2 ensures ListOk(place, lists2, l) {
      if l in lists { assert ListOk(place, lists, l); }
    }
  }

  /* ---- the entries in the cells ---- */

  function DataIn(cells: Cells, a: Addr): Data {
    if a in cells then cells[a].data else NULL
  }

  /** The entries of a list, in list order. */
  function DataOf(cells: Cells, s: seq<Addr>): (r: seq<Data>)
    ensures |r| == |s|
  {
    if s == [] then [] else [DataIn(cells, s[|s| - 1])] + DataOf(cells, s[..|s| - 1])
  }

  lemma {:induction false} DataAt(cells: Cells, s: seq<Addr>, j: nat)
    requires j < |s|
    ensures DataOf(cells, s)[j] == DataIn(cells, s[|s| - 1 - j])
  {
    if j > 0 {
      DataAt(cells, s[..|s| - 1], j - 1);
    }
  }

  lemma {:induction false} DataSame(cells: Cells, cells2: Cells, s: seq<Addr>)
    requires forall a :: a in s ==> DataIn(cells2, a) == DataIn(cells, a)
    ensures DataOf(cells2, s) == DataOf(cells, s)
  {
    if s != [] {
      assert s[|s| - 1] in s && forall a :: a in s[..|s| - 1] ==> a in s;
      DataSame(cells, cells2, s[..|s| - 1]);
    }
  }

  lemma DataPushed(cells: Cells, s: seq<Addr>, a: Addr)
    ensures DataOf(cells, s + [a]) == [DataIn(cells, a)] + DataOf(cells, s)
  {
    assert (s + [a])[..|s|] == s;
  }

  lemma DataCut(cells: Cells, s: seq<Addr>, k: nat)
    requires k < |s|
    ensures DataOf(cells, Cut(s, k)) == RemovedAt(DataOf(cells, s), |s| - 1 - k)
  {
    var r, t := DataOf(cells, Cut(s, k)), RemovedAt(DataOf(cells, s), |s| - 1 - k);
    forall j | 0 <= j < |r| ensures r[j] == t[j] {
      DataAt(cells, Cut(s, k), j);
      DataAt(cells, s, if j < |s| - 1 - k then j else j + 1);
      hide DataOf;
    }
  }

  /* ---- buckets ---- */

  /** The head of a bucket holds the first entry and leads to the rest of the chain. */
  predicate HeadOk(heads: seq<Cell>, lists: Lists, gen: nat, i: nat)
    requires i < |heads|
  {
    var id := Chain(gen, i);
    id in lists && heads[i].next == Top(lists[id]) && (heads[i].data == NULL ==> lists[id] == [])
  }

  ghost predicate HeadsOk(heads: seq<Cell>, lists: Lists, gen: nat) {
    forall i {:trigger HeadOk(heads, lists, gen, i)} :: 0 <= i < |heads| ==> HeadOk(heads, lists, gen, i)
  }

  function BucketData(head: Cell, cells: Cells, s: seq<Addr>): seq<Data> {
    if head.data == NULL then [] else [head.data] + DataOf(cells, s)
  }

  function ContentsOf(heads: seq<Cell>, cells: Cells, lists: Lists, gen: nat): (c: Contents)
    ensures |c| == |heads|
  {
    seq(|heads|, i requires 0 <= i < |heads| => BucketData(heads[i], cells, At(lists, Chain(gen, i))))
  }

  /** From one memory to another a list and its entries stay as they are. */
  predicate SameList(cells: Cells, lists: Lists, cells2: Cells, lists2: Lists, id: ListId) {
    At(lists2, id) == At(lists, id) && (id in lists ==> id in lists2)
    && DataOf(cells2, At(lists2, id)) == DataOf(cells, At(lists, id))
  }

  /** Only one bucket and lists of no bucket of this generation changed. */
  lemma ContentsUpdated(heads: seq<Cell>, cells: Cells, lists: Lists, heads2: seq<Cell>, cells2: Cells, lists2: Lists,
                        gen: nat, i: nat, s: seq<Data>)
    requires i < |heads| && |heads2| == |heads|
    requires forall j :: 0 <= j < |heads| && j != i ==>
      heads2[j] == heads[j] && SameList(cells, lists, cells2, lists2, Chain(gen, j))
    requires BucketData(heads2[i], cells2, At(lists2, Chain(gen, i))) == s
    ensures ContentsOf(heads2, cells2, lists2, gen) == ContentsOf(heads, cells, lists, gen)[i := s]
    ensures HeadsOk(heads, lists, gen) && HeadOk(heads2, lists2, gen, i) ==> HeadsOk(heads2, lists2, gen)
  {
    hide DataOf;
    if HeadsOk(heads, lists, gen) && HeadOk(heads2, lists2, gen, i) {
      forall j | 0 <= j < |heads2| ensures HeadOk(heads2, lists2, gen, j) {
        assert HeadOk(heads, lists, gen, j);
        if j != i { assert SameList(cells, lists, cells2, lists2, Chain(gen, j)); }
      }
    }
  }

  /** A list not holding the one cell that changed is the same. */
  lemma ListUntouched(cells: Cells, place: Places, lists: Lists, cells2: Cells, lists2: Lists, id: ListId, a: Addr)
    requires Linked(cells, place, lists) && (a in place ==> place[a].id != id)
    requires id in lists && id in lists2 && lists2[id] == lists[id]
    requires forall x :: x in cells && x != a ==> x in cells2 && cells2[x].data == cells[x].data
    ensures SameList(cells, lists, cells2, lists2, id)
  {
    assert ListOk(place, lists, id);
    forall x | x in lists[id] ensures DataIn(cells2, x) == DataIn(cells, x) {
      assert CellOk(cells, place, lists, x);
    }
    DataSame(cells, cells2, lists[id]);
  }

  /** All lists but the given ones stay as they are. */
  ghost predicate KeptBut(cells: Cells, lists: Lists, cells2: Cells, lists2: Lists, except: set<ListId>) {
    && lists2.Keys == lists.Keys
    && forall id {:trigger SameList(cells, lists, cells2, lists2, id)} ::
         id in lists && id !in except ==> SameList(cells, lists, cells2, lists2, id)
  }

  lemma KeptTwice(cells: Cells, lists: Lists, cells2: Cells, lists2: Lists, cells3: Cells, lists3: Lists,
                  a: set<ListId>, b: set<ListId>)
    requires KeptBut(cells, lists, cells2, lists2, a) && KeptBut(cells2, lists2, cells3, lists3, b)
    ensures KeptBut(cells, lists, cells3, lists3, a + b)
  {
    hide DataOf;
    forall id | id in lists && id !in a + b ensures SameList(cells, lists, cells3, lists3, id) {
      assert SameList(cells, lists, cells2, lists2, id) && SameList(cells2, lists2, cells3, lists3, id);
    }
  }

  /** When one cell of one list, or of none, changed and at most one list changed. */
  lemma KeptAround(cells: Cells, place: Places, lists: Lists, cells2: Cells, lists2: Lists, id: ListId, a: Addr)
    requires Linked(cells, place, lists) && (a in place ==> place[a].id == id)
    requires lists2.Keys == lists.Keys && forall l :: l in lists && l != id ==> lists2[l] == lists[l]
    requires forall x :: x in cells && x != a ==> x in cells2 && cells2[x].data == cells[x].data
    ensures KeptBut(cells, lists, cells2, lists2, {id})
  {
    forall l | l in lists && l != id ensures SameList(cells, lists, cells2, lists2, l) {
      ListUntouched(cells, place, lists, cells2, lists2, l, a);
    }
  }

  /** A bucket none of whose lists changed. */
  lemma ContentsKept(heads: seq<Cell>, cells: Cells, lists: Lists, cells2: Cells, lists2: Lists, gen: nat,
      except: set<ListId>)
    requires HeadsOk(heads, lists, gen) && KeptBut(cells, lists, cells2, lists2, except)
    requires forall i :: Chain(gen, i) !in except
    ensures HeadsOk(heads, lists2, gen)
        && ContentsOf(heads, cells2, lists2, gen) == ContentsOf(heads, cells, lists, gen)
  {
    hide DataOf;
    forall i | 0 <= i < |heads|
      ensures HeadOk(heads, lists2, gen, i) && SameList(cells, lists, cells2, lists2, Chain(gen, i))
    {
      assert HeadOk(heads, lists, gen, i);
      assert SameList(cells, lists, cells2, lists2, Chain(gen, i));
    }
  }
}
