/** What a hash table holds, bucket by bucket, and what it stands for: a set of entries no two of
    which compare equal. */
module HashSpec {

  // user entries are pointers, and none is NULL
  type Data = nat
  const NULL: nat := 0

  /** The functions the user supplies. */
  datatype Functions = Functions(hasher: (Data, nat) -> nat, comparator: (Data, Data) -> bool)

  /** The hasher keeps within the table, the comparator is an equivalence, and entries that
      compare equal hash alike. */
  ghost predicate Compatible(k: Functions) {
    && (forall d, n {:trigger k.hasher(d, n)} :: n > 0 ==> k.hasher(d, n) < n)
    && (forall d {:trigger k.comparator(d, d)} :: k.comparator(d, d))
    && (forall a, b {:trigger k.comparator(a, b)} :: k.comparator(a, b) ==> k.comparator(b, a))
    && (forall a, b, c {:trigger k.comparator(a, b), k.comparator(b, c)} ::
          k.comparator(a, b) && k.comparator(b, c) ==> k.comparator(a, c))
    && (forall a, b, n {:trigger k.comparator(a, b), k.hasher(a, n)} ::
          k.comparator(a, b) && n > 0 ==> k.hasher(a, n) == k.hasher(b, n))
  }

  /** The entries of each bucket, in the order of its chain. */
  type Contents = seq<seq<Data>>

  function Flatten(c: Contents): seq<Data> {
    if c == [] then [] else c[0] + Flatten(c[1..])
  }

  function Elements(c: Contents): multiset<Data> {
    multiset(Flatten(c))
  }

  function NonEmpty(c: Contents): nat {
    if c == [] then 0 else (if c[0] != [] then 1 else 0) + NonEmpty(c[1..])
  }

  predicate BucketOk(c: Contents, k: Functions, i: nat)
    requires i < |c|
  {
    forall j :: 0 <= j < |c[i]| ==> c[i][j] != NULL && k.hasher(c[i][j], |c|) == i
  }

  /** Every entry is in the bucket it hashes to. */
  ghost predicate WellPlaced(c: Contents, k: Functions) {
    |c| > 0 && forall i {:trigger BucketOk(c, k, i)} :: 0 <= i < |c| ==> BucketOk(c, k, i)
  }

  /** No two entries compare equal. */
  ghost predicate Distinct(m: multiset<Data>, k: Functions) {
    && (forall d :: d in m ==> m[d] == 1)
    && (forall a, b {:trigger k.comparator(a, b)} :: a in m && b in m && k.comparator(a, b) ==> a == b)
  }

  /* ---- the operations ---- */

  /** Where the first entry equal to e is, or the length. */
  function Match(k: Functions, chain: seq<Data>, e: Data): (j: nat)
    ensures j <= |chain| && (j < |chain| ==> k.comparator(e, chain[j]))
    ensures forall i :: 0 <= i < j ==> !k.comparator(e, chain[i])
  {
    if chain == [] || k.comparator(e, chain[0]) then 0 else 1 + Match(k, chain[1..], e)
  }

  /** The stored entry equal to e, or NULL. */
  function StoredIn(k: Functions, chain: seq<Data>, e: Data): Data {
    var j := Match(k, chain, e);
    if j < |chain| then chain[j] else NULL
  }

  function Slot(c: Contents, k: Functions, e: Data): nat {
    k.hasher(e, |c|)
  }

  function Stored(c: Contents, k: Functions, e: Data): Data
    requires Slot(c, k, e) < |c|
  {
    StoredIn(k, c[Slot(c, k, e)], e)
  }

  /** A new entry goes right behind the head of the chain. */
  function Added(chain: seq<Data>, e: Data): seq<Data> {
    if chain == [] then [e] else [chain[0], e] + chain[1..]
  }

  function Inserted(c: Contents, k: Functions, e: Data): (r: Contents)
    requires Slot(c, k, e) < |c|
    ensures |r| == |c|
  {
    c[Slot(c, k, e) := Added(c[Slot(c, k, e)], e)]
  }

  function RemovedAt(chain: seq<Data>, j: nat): seq<Data>
    requires j < |chain|
  {
    chain[..j] + chain[j + 1..]
  }

  function Deleted(c: Contents, k: Functions, e: Data): Contents
    requires Slot(c, k, e) < |c| && Match(k, c[Slot(c, k, e)], e) < |c[Slot(c, k, e)]|
  {
    var i := Slot(c, k, e);
    c[i := RemovedAt(c[i], Match(k, c[i], e))]
  }

  function Empty(n: nat): (c: Contents)
    ensures |c| == n && forall i :: 0 <= i < n ==> c[i] == []
  {
    seq(n, i => [])
  }

  /** Entries placed one after the other. */
  ghost function PlaceAll(c: Contents, k: Functions, ds: seq<Data>): (r: Contents)
    requires Compatible(k) && |c| > 0
    ensures |r| == |c|
  {
    if ds == [] then c else Inserted(PlaceAll(c, k, ds[..|ds| - 1]), k, ds[|ds| - 1])
  }

  /** All entries placed into n empty buckets, in the order they are walked. */
  ghost function Rehashed(c: Contents, k: Functions, n: nat): Contents
    requires Compatible(k) && n > 0
  {
    PlaceAll(Empty(n), k, Flatten(c))
  }

  /* ---- changing one bucket ---- */

  lemma ElementsHead(c: Contents)
    requires c != []
    ensures Elements(c) == multiset(c[0]) + Elements(c[1..])
  {
  }

  lemma Cancel(x: multiset<Data>, a: multiset<Data>, y: multiset<Data>, b: multiset<Data>)
    requires x + a == y + (a + b)
    ensures x == y + b
  {
    forall d ensures x[d] == (y + b)[d] {
      assert (x + a)[d] == (y + (a + b))[d];
    }
  }

  lemma AddBoth(m: multiset<Data>, a: multiset<Data>, x: multiset<Data>, b: multiset<Data>, y: multiset<Data>)
    requires a + x == b + y
    ensures (m + a) + x == (m + b) + y
  {
    assert (m + a) + x == m + (a + x);
    assert (m + b) + y == m + (b + y);
  }

  lemma {:induction false} FlattenUpdate(c: Contents, i: nat, s: seq<Data>)
    requires i < |c|
    ensures Elements(c[i := s]) + multiset(c[i]) == Elements(c) + multiset(s)
  {
    hide Elements, Flatten;
    var d := c[i := s];
    ElementsHead(c);
    ElementsHead(d);
    UpdatedRest(c, i, s);
    if i == 0 {
      SwapEnds(multiset(s), multiset(c[0]), Elements(c[1..]));
    } else {
      FlattenUpdate(c[1..], i - 1, s);
      AddBoth(multiset(c[0]), Elements(d[1..]), multiset(c[i]), Elements(c[1..]), multiset(s));
    }
  }

  lemma UpdatedRest(c: Contents, i: nat, s: seq<Data>)
    requires i < |c|
    ensures c[i := s] != [] && c[i := s][0] == if i == 0 then s else c[0]
    ensures c[i := s][1..] == if i == 0 then c[1..] else c[1..][i - 1 := s]
    ensures i > 0 ==> c[1..][i - 1] == c[i]
  {
  }

  lemma SwapEnds(a: multiset<Data>, b: multiset<Data>, rest: multiset<Data>)
    ensures (a + rest) + b == (b + rest) + a
  {
  }

  lemma {:induction false} NonEmptyUpdate(c: Contents, i: nat, s: seq<Data>)
    requires i < |c|
    ensures NonEmpty(c[i := s]) + (if c[i] != [] then 1 else 0) == NonEmpty(c) + (if s != [] then 1 else 0)
  {
    var d := c[i := s];
    if i == 0 {
      assert d[1..] == c[1..];
    } else {
      NonEmptyUpdate(c[1..], i - 1, s);
      assert d[1..] == c[1..][i - 1 := s];
    }
  }

  lemma {:induction false} InFlatten(c: Contents, d: Data)
    ensures d in Flatten(c) <==> exists i :: 0 <= i < |c| && d in c[i]
  {
    if c != [] {
      InFlatten(c[1..], d);
      assert forall i :: 0 < i < |c| ==> c[i] == c[1..][i - 1];
    }
  }

  lemma {:induction false} FlattenSnoc(c: Contents, s: seq<Data>)
    ensures Flatten(c + [s]) == Flatten(c) + s
  {
    if c == [] {
      assert [s][1..] == [];
    } else {
      FlattenSnoc(c[1..], s);
      assert (c + [s])[1..] == c[1..] + [s];
      assert c[0] + (Flatten(c[1..]) + s) == (c[0] + Flatten(c[1..])) + s;
    }
  }

  lemma {:induction false} NonEmptyAtMost(c: Contents)
    ensures NonEmpty(c) <= |c| && NonEmpty(c) <= |Flatten(c)|
  {
    if c != [] {
      NonEmptyAtMost(c[1..]);
    }
  }

  lemma {:induction false} EmptyHasNone(c: Contents)
    requires forall i :: 0 <= i < |c| ==> c[i] == []
    ensures Flatten(c) == [] && NonEmpty(c) == 0
  {
    if c != [] {
      EmptyHasNone(c[1..]);
    }
  }

  lemma AddedElements(chain: seq<Data>, e: Data)
    ensures multiset(Added(chain, e)) == multiset(chain) + multiset{e}
  {
    if chain != [] {
      assert chain == [chain[0]] + chain[1..];
      assert [chain[0], e] + chain[1..] == [chain[0]] + ([e] + chain[1..]);
    }
  }

  lemma RemovedElements(chain: seq<Data>, j: nat)
    requires j < |chain|
    ensures multiset(RemovedAt(chain, j)) + multiset{chain[j]} == multiset(chain)
  {
    assert chain == chain[..j] + ([chain[j]] + chain[j + 1..]);
  }

  /* ---- what the operations do to the set ---- */

  lemma InsertedElements(c: Contents, k: Functions, e: Data)
    requires Slot(c, k, e) < |c|
    ensures Elements(Inserted(c, k, e)) == Elements(c) + multiset{e}
    ensures NonEmpty(Inserted(c, k, e)) == NonEmpty(c) + (if c[Slot(c, k, e)] == [] then 1 else 0)
    ensures |Flatten(Inserted(c, k, e))| == |Flatten(c)| + 1
  {
    var i := Slot(c, k, e);
    FlattenUpdate(c, i, Added(c[i], e));
    NonEmptyUpdate(c, i, Added(c[i], e));
    AddedElements(c[i], e);
    hide Flatten, NonEmpty;
    Cancel(Elements(Inserted(c, k, e)), multiset(c[i]), Elements(c), multiset{e});
    assert |Elements(Inserted(c, k, e))| == |Elements(c)| + 1;
  }

  lemma InsertedPlaced(c: Contents, k: Functions, e: Data)
    requires Slot(c, k, e) < |c| && WellPlaced(c, k) && e != NULL
    ensures WellPlaced(Inserted(c, k, e), k)
  {
    var d := Inserted(c, k, e);
    forall i | 0 <= i < |d| ensures BucketOk(d, k, i) {
      assert BucketOk(c, k, i);
    }
  }

  lemma DeletedElements(c: Contents, k: Functions, e: Data)
    requires Slot(c, k, e) < |c| && Match(k, c[Slot(c, k, e)], e) < |c[Slot(c, k, e)]|
    ensures Elements(Deleted(c, k, e)) + multiset{Stored(c, k, e)} == Elements(c)
    ensures NonEmpty(Deleted(c, k, e)) + (if |c[Slot(c, k, e)]| == 1 then 1 else 0) == NonEmpty(c)
    ensures |Flatten(Deleted(c, k, e))| == |Flatten(c)| - 1
  {
    var i := Slot(c, k, e);
    var j := Match(k, c[i], e);
    var s := RemovedAt(c[i], j);
    FlattenUpdate(c, i, s);
    NonEmptyUpdate(c, i, s);
    RemovedElements(c[i], j);
    assert |s| == |c[i]| - 1;
    hide Flatten, NonEmpty, Match, RemovedAt;
    var d := Deleted(c, k, e);
    assert Elements(d) + multiset(c[i]) == Elements(c) + multiset(s);
    assert Elements(c) + multiset(s) == Elements(d) + (multiset(s) + multiset{c[i][j]});
    Cancel(Elements(c), multiset(s), Elements(d), multiset{c[i][j]});
    assert |Elements(c)| == |Elements(d)| + 1;
  }

  lemma DeletedPlaced(c: Contents, k: Functions, e: Data)
    requires WellPlaced(c, k)
    requires Slot(c, k, e) < |c| && Match(k, c[Slot(c, k, e)], e) < |c[Slot(c, k, e)]|
    ensures WellPlaced(Deleted(c, k, e), k)
  {
    var d := Deleted(c, k, e);
    forall i | 0 <= i < |d| ensures BucketOk(d, k, i) {
      assert BucketOk(c, k, i);
    }
  }

  /** The only entry equal to e, if there is one, is found. */
  lemma StoredIsTheOne(c: Contents, k: Functions, e: Data)
    requires Compatible(k) && WellPlaced(c, k)
    ensures Slot(c, k, e) < |c|
    ensures var d := Stored(c, k, e);
            if d == NULL then forall x :: x in Elements(c) ==> !k.comparator(e, x)
            else d in Elements(c) && k.comparator(e, d)
    ensures Stored(c, k, e) == NULL <==> Match(k, c[Slot(c, k, e)], e) == |c[Slot(c, k, e)]|
  {
    var i := Slot(c, k, e);
    assert BucketOk(c, k, i);
    InFlatten(c, Stored(c, k, e));
    forall x | x in Elements(c) && k.comparator(e, x) ensures Stored(c, k, e) != NULL {
      InFlatten(c, x);
      var j :| 0 <= j < |c| && x in c[j];
      assert BucketOk(c, k, j);
      assert k.hasher(e, |c|) == k.hasher(x, |c|) == j;
    }
  }

  lemma InsertedDistinct(m: multiset<Data>, k: Functions, e: Data)
    requires Compatible(k) && Distinct(m, k) && forall x :: x in m ==> !k.comparator(e, x)
    ensures Distinct(m + multiset{e}, k)
  {
    assert k.comparator(e, e);
  }

  lemma DeletedDistinct(m: multiset<Data>, k: Functions, d: Data)
    requires Distinct(m + multiset{d}, k)
    ensures Distinct(m, k) && d !in m
  {
    var n := m + multiset{d};
    assert n[d] == m[d] + 1;
    forall x | x in m ensures m[x] == 1 {
      assert x in n;
    }
    forall a, b | a in m && b in m && k.comparator(a, b) ensures a == b {
      assert a in n && b in n;
    }
  }

  /** Placing entries keeps the multiset and puts each where the hasher says. */
  lemma {:induction false} PlaceAllKeeps(c: Contents, k: Functions, ds: seq<Data>)
    requires Compatible(k) && WellPlaced(c, k) && NULL !in ds
    ensures WellPlaced(PlaceAll(c, k, ds), k)
    ensures Elements(PlaceAll(c, k, ds)) == Elements(c) + multiset(ds)
  {
    hide Compatible, WellPlaced, Elements, Inserted, Slot;
    if ds == [] {
      assert multiset(ds) == multiset{};
    } else {
      var front, d := ds[..|ds| - 1], ds[|ds| - 1];
      assert d in ds && forall x :: x in front ==> x in ds;
      PlaceAllKeeps(c, k, front);
      HasBuckets(c, k);
      PlacedLast(c, k, ds);
      SnocBag(ds);
      InsertedElements(PlaceAll(c, k, front), k, d);
      InsertedPlaced(PlaceAll(c, k, front), k, d);
    }
  }

  lemma HasBuckets(c: Contents, k: Functions)
    requires WellPlaced(c, k)
    ensures |c| > 0
  {
  }

  /** The last entry is put into its bucket after the others. */
  lemma PlacedLast(c: Contents, k: Functions, ds: seq<Data>)
    requires Compatible(k) && |c| > 0 && ds != []
    ensures var r, d := PlaceAll(c, k, ds[..|ds| - 1]), ds[|ds| - 1];
            |r| == |c| && Slot(r, k, d) < |r| && PlaceAll(c, k, ds) == Inserted(r, k, d)
  {
  }

  lemma SnocBag(ds: seq<Data>)
    requires ds != []
    ensures multiset(ds) == multiset(ds[..|ds| - 1]) + multiset{ds[|ds| - 1]}
  {
    assert ds == ds[..|ds| - 1] + [ds[|ds| - 1]];
  }

  /** Rehashing preserves the set, and every entry is in the bucket of its new hash. */
  lemma RehashedKeeps(c: Contents, k: Functions, n: nat)
    requires Compatible(k) && WellPlaced(c, k) && n > 0
    ensures WellPlaced(Rehashed(c, k, n), k) && |Rehashed(c, k, n)| == n
    ensures Elements(Rehashed(c, k, n)) == Elements(c)
    ensures |Flatten(Rehashed(c, k, n))| == |Flatten(c)|
  {
    NoNulls(c, k);
    EmptyHasNone(Empty(n));
    assert WellPlaced(Empty(n), k);
    PlaceAllKeeps(Empty(n), k, Flatten(c));
    assert |Elements(Rehashed(c, k, n))| == |Elements(c)|;
  }

  lemma NoNulls(c: Contents, k: Functions)
    requires WellPlaced(c, k)
    ensures NULL !in Flatten(c)
  {
    InFlatten(c, NULL);
    forall i | 0 <= i < |c| ensures NULL !in c[i] {
      assert BucketOk(c, k, i);
    }
  }

  lemma {:induction false} PlaceAllSplits(c: Contents, k: Functions, a: seq<Data>, b: seq<Data>)
    requires Compatible(k) && |c| > 0
    ensures PlaceAll(PlaceAll(c, k, a), k, b) == PlaceAll(c, k, a + b)
  {
    if b == [] {
      assert a + b == a;
    } else {
      var front := b[..|b| - 1];
      PlaceAllSplits(c, k, a, front);
      assert (a + b)[..|a + b| - 1] == a + front;
    }
  }

  lemma PlaceOne(c: Contents, k: Functions, ds: seq<Data>, d: Data)
    requires Compatible(k) && |c| > 0
    ensures Slot(PlaceAll(c, k, ds), k, d) < |c|
    ensures PlaceAll(c, k, ds + [d]) == Inserted(PlaceAll(c, k, ds), k, d)
  {
    assert (ds + [d])[..|ds|] == ds;
    assert k.hasher(d, |c|) < |c|;
  }

  lemma PlaceSingle(c: Contents, k: Functions, d: Data)
    requires Compatible(k) && |c| > 0
    ensures Slot(c, k, d) < |c| && PlaceAll(c, k, [d]) == Inserted(c, k, d)
  {
    PlaceOne(c, k, [], d);
    assert [] + [d] == [d];
  }

  lemma HeadTail(ds: seq<Data>)
    requires ds != []
    ensures [ds[0]] + ds[1..] == ds
  {
  }

  lemma PlaceFirst(c: Contents, k: Functions, ds: seq<Data>)
    requires Compatible(k) && |c| > 0 && ds != []
    ensures Slot(c, k, ds[0]) < |c|
    ensures PlaceAll(c, k, ds) == PlaceAll(Inserted(c, k, ds[0]), k, ds[1..])
  {
    PlaceSingle(c, k, ds[0]);
    HeadTail(ds);
    hide PlaceAll, Inserted, Compatible, Slot;
    PlaceAllSplits(c, k, [ds[0]], ds[1..]);
  }

  lemma PlaceNone(c: Contents, k: Functions)
    requires Compatible(k) && |c| > 0
    ensures PlaceAll(c, k, []) == c
  {
  }

  /* ---- the set an operation leaves ---- */

  lemma InsertedSet(c: Contents, k: Functions, e: Data)
    requires Compatible(k) && WellPlaced(c, k) && Distinct(Elements(c), k) && e != NULL
    requires Slot(c, k, e) < |c| && Stored(c, k, e) == NULL
    ensures WellPlaced(Inserted(c, k, e), k) && Distinct(Elements(Inserted(c, k, e)), k)
    ensures Elements(Inserted(c, k, e)) == Elements(c) + multiset{e}
    ensures NonEmpty(Inserted(c, k, e)) == NonEmpty(c) + (if c[Slot(c, k, e)] == [] then 1 else 0)
    ensures |Flatten(Inserted(c, k, e))| == |Flatten(c)| + 1
  {
    StoredIsTheOne(c, k, e);
    InsertedElements(c, k, e);
    InsertedPlaced(c, k, e);
    InsertedDistinct(Elements(c), k, e);
  }

  lemma DeletedSet(c: Contents, k: Functions, e: Data)
    requires Compatible(k) && WellPlaced(c, k) && Distinct(Elements(c), k)
    requires Slot(c, k, e) < |c| && Stored(c, k, e) != NULL
    ensures Match(k, c[Slot(c, k, e)], e) < |c[Slot(c, k, e)]|
    ensures var d := Deleted(c, k, e);
            && WellPlaced(d, k) && Distinct(Elements(d), k) && |d| == |c|
            && Elements(d) == Elements(c) - multiset{Stored(c, k, e)} && Stored(c, k, e) in Elements(c)
            && NonEmpty(d) + (if d[Slot(c, k, e)] == [] then 1 else 0) == NonEmpty(c)
            && |Flatten(d)| + 1 == |Flatten(c)|
  {
    StoredIsTheOne(c, k, e);
    DeletedElements(c, k, e);
    DeletedPlaced(c, k, e);
    var d := Deleted(c, k, e);
    assert Elements(d) + multiset{Stored(c, k, e)} == Elements(c);
    DeletedDistinct(Elements(d), k, Stored(c, k, e));
    hide Elements, WellPlaced, Compatible, NonEmpty, Distinct, Flatten;
    assert |Elements(d)| + 1 == |Elements(c)|;
  }

  lemma RehashedSet(c: Contents, k: Functions, n: nat)
    requires Compatible(k) && WellPlaced(c, k) && Distinct(Elements(c), k) && n > 0
    ensures var d := Rehashed(c, k, n);
            && |d| == n && WellPlaced(d, k) && Distinct(Elements(d), k)
            && Elements(d) == Elements(c) && |Flatten(d)| == |Flatten(c)|
  {
    RehashedKeeps(c, k, n);
  }

  /* ---- walking ---- */

  lemma {:induction false} FlattenSplit(c: Contents, i: nat)
    requires i <= |c|
    ensures Flatten(c) == Flatten(c[..i]) + Flatten(c[i..])
  {
    if i == 0 {
      assert c[0..] == c && Flatten(c[..0]) == [];
    } else {
      FlattenSplit(c[1..], i - 1);
      assert c[..i][1..] == c[1..][..i - 1] && c[1..][i - 1..] == c[i..];
      assert c[0] + (Flatten(c[..i][1..]) + Flatten(c[i..])) == (c[0] + Flatten(c[..i][1..])) + Flatten(c[i..]);
    }
  }

  lemma NextInWalk(c: Contents, i: nat)
    requires i < |c|
    ensures Flatten(c[..i + 1]) == Flatten(c[..i]) + c[i]
    ensures Flatten(c) == (Flatten(c[..i]) + c[i]) + Flatten(c[i + 1..])
  {
    TakeOneMore(c, i);
    FlattenSplit(c, i + 1);
    hide *;
  }

  lemma TakeOneMore(c: Contents, i: nat)
    requires i < |c|
    ensures Flatten(c[..i + 1]) == Flatten(c[..i]) + c[i]
  {
    var a, b := c[..i], c[..i + 1];
    assert b == a + [c[i]];
    FlattenSnoc(a, c[i]);
    hide Flatten;
  }

  lemma Prefix(a: seq<Data>, b: seq<Data>, n: nat)
    requires n <= |a|
    ensures (a + b)[..n] == a[..n]
  {
  }

  /** Where an entry of a bucket comes in the order of the walk. */
  lemma InWalk(c: Contents, i: nat, j: nat)
    requires i < |c| && j < |c[i]|
    ensures var p := |Flatten(c[..i])| + j;
            && p < |Flatten(c)| && Flatten(c)[p] == c[i][j]
            && (j + 1 == |c[i]| ==> Flatten(c)[p + 1..] == Flatten(c[i + 1..]))
            && (j + 1 < |c[i]| ==> p + 1 < |Flatten(c)| && Flatten(c)[p + 1] == c[i][j + 1])
  {
    FlattenSplit(c, i);
    assert c[i..][0] == c[i] && c[i..][1..] == c[i + 1..];
    var before, after := Flatten(c[..i]), Flatten(c[i + 1..]);
    assert Flatten(c) == before + (c[i] + after);
    if j + 1 == |c[i]| {
      assert (before + (c[i] + after))[|before| + j + 1..] == after;
    }
  }

  /** The first entry of the first bucket that has one. */
  lemma {:induction false} FirstInWalk(c: Contents, i: nat)
    requires i <= |c| && forall j :: 0 <= j < i ==> c[j] == []
    ensures Flatten(c) == Flatten(c[i..])
    ensures i < |c| && c[i] != [] ==> Flatten(c) != [] && Flatten(c)[0] == c[i][0]
  {
    FlattenSplit(c, i);
    EmptyHasNone(c[..i]);
    if i < |c| {
      assert c[i..][0] == c[i];
    }
  }

  /** An entry occurs once in the walk. */
  lemma OnceInWalk(c: Contents, k: Functions, p: nat, q: nat)
    requires Distinct(Elements(c), k) && p < |Flatten(c)| && q < |Flatten(c)| && Flatten(c)[p] == Flatten(c)[q]
    ensures p == q
  {
    var s := Flatten(c);
    assert s[p] in Elements(c);
    if p < q {
      Twice(s, p, q);
    } else if q < p {
      Twice(s, q, p);
    }
  }

  lemma Twice(s: seq<Data>, p: nat, q: nat)
    requires p < q < |s| && s[p] == s[q]
    ensures multiset(s)[s[p]] >= 2
  {
    var a, b := s[..q], s[q..];
    assert s == a + b && a[p] == s[p] && b[0] == s[q];
    assert s[p] in multiset(a) && s[p] in multiset(b);
    assert multiset(s) == multiset(a) + multiset(b);
  }
}
