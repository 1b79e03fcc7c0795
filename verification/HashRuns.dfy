/** A hash table over whole sequences of operations, however often it grows and shrinks. */
module HashRuns {
  import opened Primes
  import opened HashSpec
  import opened HashSizing
  import T = HashTable

  datatype Op = Insert(e: Data) | Delete(e: Data) | Lookup(e: Data) | Clear

  datatype Table = Table(tuning: Tuning, contents: Contents)

  /** What an operation makes of a table, and its answer r, as the methods of the table state it. */
  ghost predicate Step(k: Functions, s: Table, op: Op, r: Data, s2: Table)
    requires Compatible(k) && |s.contents| > 0
  {
    match op
    case Insert(e) => e != NULL && T.HashTable.InsertedTo(k, s.tuning, s.contents, e, r, s2.tuning, s2.contents)
    case Delete(e) => T.HashTable.DeletedFrom(k, s.tuning, s.contents, e, r, s2.tuning, s2.contents)
    case Lookup(e) => r == Stored(s.contents, k, e) && s2 == s
    case Clear => r == NULL && s2 == Table(s.tuning, Empty(|s.contents|))
  }

  ghost predicate StepOk(k: Functions, ss: seq<Table>, ops: seq<Op>, rs: seq<Data>, i: nat)
    requires Compatible(k) && i < |ops| && |ss| == |ops| + 1 && |rs| == |ops|
  {
    |ss[i].contents| > 0 && Step(k, ss[i], ops[i], rs[i], ss[i + 1])
  }

  /** ss are the tables and rs the answers as the operations are done one after the other on a table
      that starts empty. */
  ghost predicate IsRun(k: Functions, ss: seq<Table>, ops: seq<Op>, rs: seq<Data>)
    requires Compatible(k)
  {
    && |ss| == |ops| + 1 && |rs| == |ops| && |ss[0].contents| > 0 && ss[0].contents == Empty(|ss[0].contents|)
    && forall i :: 0 <= i < |ops| ==> StepOk(k, ss, ops, rs, i)
  }

  /* ---- the set ---- */

  /** The entry of the set equal to e, or NULL. */
  ghost function Equal(k: Functions, m: multiset<Data>, e: Data): (r: Data)
    ensures (exists x :: x in m && k.comparator(e, x)) ==> r in m && k.comparator(e, r)
    ensures (forall x :: x in m ==> !k.comparator(e, x)) ==> r == NULL
  {
    if x: Data :| x in m && k.comparator(e, x) then x else NULL
  }

  ghost predicate Has(k: Functions, m: multiset<Data>, e: Data) {
    exists x :: x in m && k.comparator(e, x)
  }

  /** What an operation makes of a set of entries no two of which are equal. */
  ghost function After(k: Functions, m: multiset<Data>, op: Op): multiset<Data> {
    match op
    case Insert(e) => if Has(k, m, e) then m else m + multiset{e}
    case Delete(e) => if Has(k, m, e) then m - multiset{Equal(k, m, e)} else m
    case Lookup(e) => m
    case Clear => multiset{}
  }

  ghost function Answer(k: Functions, m: multiset<Data>, op: Op): Data {
    match op
    case Insert(e) => if Has(k, m, e) then Equal(k, m, e) else e
    case Delete(e) => Equal(k, m, e)
    case Lookup(e) => Equal(k, m, e)
    case Clear => NULL
  }

  /** The set after some operations, beginning with the empty one; buckets play no part. */
  ghost function SetAfter(k: Functions, ops: seq<Op>): multiset<Data> {
    if ops == [] then multiset{} else After(k, SetAfter(k, ops[..|ops| - 1]), ops[|ops| - 1])
  }

  lemma EqualIsOne(k: Functions, m: multiset<Data>, e: Data, r: Data)
    requires Compatible(k) && Distinct(m, k) && r in m && k.comparator(e, r)
    ensures Equal(k, m, e) == r && Has(k, m, e)
  {
    var x := Equal(k, m, e);
    assert x in m && k.comparator(e, x);
    assert k.comparator(r, e) && k.comparator(r, x);
  }

  ghost predicate Good(k: Functions, s: Table, m: multiset<Data>)
    requires Compatible(k)
  {
    WellPlaced(s.contents, k) && Distinct(Elements(s.contents), k) && Elements(s.contents) == m
  }

  lemma StepRefines(k: Functions, s: Table, op: Op, r: Data, s2: Table, m: multiset<Data>)
    requires Compatible(k) && |s.contents| > 0 && Step(k, s, op, r, s2) && Good(k, s, m)
    ensures r == Answer(k, m, op) && Good(k, s2, After(k, m, op))
  {
    match op
    case Insert(e) => InsertRefines(k, s, e, r, s2, m);
    case Delete(e) => DeleteRefines(k, s, e, r, s2, m);
    case Lookup(e) =>
      StoredIsTheOne(s.contents, k, e);
      hide WellPlaced, Elements, Stored, Compatible, Distinct, Equal;
      if r != NULL {
        EqualIsOne(k, m, e, r);
      }
    case Clear => EmptyGood(k, s2);
  }

  lemma InsertRefines(k: Functions, s: Table, e: Data, r: Data, s2: Table, m: multiset<Data>)
    requires Compatible(k) && |s.contents| > 0 && Step(k, s, Insert(e), r, s2) && Good(k, s, m)
    ensures r == Answer(k, m, Insert(e)) && Good(k, s2, After(k, m, Insert(e)))
  {
    hide WellPlaced, Elements, T.HashTable.InsertedTo, Compatible, Distinct, Equal;
    T.HashTable.InsertedSetOf(k, s.tuning, s.contents, e, r, s2.tuning, s2.contents);
    if Has(k, m, e) {
      EqualIsOne(k, m, e, r);
    }
  }

  lemma DeleteRefines(k: Functions, s: Table, e: Data, r: Data, s2: Table, m: multiset<Data>)
    requires Compatible(k) && |s.contents| > 0 && Step(k, s, Delete(e), r, s2) && Good(k, s, m)
    ensures r == Answer(k, m, Delete(e)) && Good(k, s2, After(k, m, Delete(e)))
  {
    hide WellPlaced, Elements, T.HashTable.DeletedFrom, Compatible, Distinct, Equal;
    T.HashTable.DeletedSetOf(k, s.tuning, s.contents, e, r, s2.tuning, s2.contents);
    if Has(k, m, e) {
      EqualIsOne(k, m, e, r);
    }
  }

  lemma EmptyGood(k: Functions, s: Table)
    requires Compatible(k) && |s.contents| > 0 && s.contents == Empty(|s.contents|)
    ensures Good(k, s, multiset{})
  {
    EmptyHasNone(s.contents);
    assert forall i :: 0 <= i < |s.contents| ==> BucketOk(s.contents, k, i);
  }

  lemma {:induction false} RunGood(k: Functions, ss: seq<Table>, ops: seq<Op>, rs: seq<Data>, i: nat)
    requires Compatible(k) && IsRun(k, ss, ops, rs) && i < |ss|
    ensures Good(k, ss[i], SetAfter(k, ops[..i]))
  {
    hide Compatible, Step, Good, After;
    if i == 0 {
      EmptyGood(k, ss[0]);
    } else {
      RunGood(k, ss, ops, rs, i - 1);
      assert StepOk(k, ss, ops, rs, i - 1);
      StepRefines(k, ss[i - 1], ops[i - 1], rs[i - 1], ss[i], SetAfter(k, ops[..i - 1]));
      assert ops[..i][..i - 1] == ops[..i - 1];
    }
  }

  /** Over any sequence of operations, with all growths and shrinks on the way, the table holds the
      set the operations describe, every entry where it hashes to, and every answer is the set's. */
  lemma RunRefines(k: Functions, ss: seq<Table>, ops: seq<Op>, rs: seq<Data>, i: nat)
    requires Compatible(k) && IsRun(k, ss, ops, rs) && i < |ops|
    ensures WellPlaced(ss[i + 1].contents, k) && Distinct(Elements(ss[i + 1].contents), k)
    ensures Elements(ss[i + 1].contents) == SetAfter(k, ops[..i + 1])
    ensures rs[i] == Answer(k, SetAfter(k, ops[..i]), ops[i])
  {
    hide Compatible, Step, WellPlaced, Distinct, Elements, SetAfter, Answer;
    RunGood(k, ss, ops, rs, i);
    RunGood(k, ss, ops, rs, i + 1);
    assert StepOk(k, ss, ops, rs, i);
    StepRefines(k, ss[i], ops[i], rs[i], ss[i + 1], SetAfter(k, ops[..i]));
  }

  /* ---- the number of buckets ---- */

  function Insertions(ops: seq<Op>): nat {
    if ops == [] then 0 else Insertions(ops[..|ops| - 1]) + if ops[|ops| - 1].Insert? then 1 else 0
  }

  /** The table has not been resized, and holds no more than was inserted. */
  ghost predicate Unchanged(s0: Table, s: Table, most: nat) {
    s.tuning == s0.tuning && |s.contents| == |s0.contents| > 0 && |Flatten(s.contents)| <= most
  }

  lemma StepUnchanged(k: Functions, candidate: nat, s0: Table, s: Table, op: Op, r: Data, s2: Table, most: nat)
    requires Compatible(k) && Reasonable(s0.tuning) && !s0.tuning.isNBuckets
    requires NextPrimeIs(Wanted(s0.tuning, candidate), |s0.contents|) && Unchanged(s0, s, most)
    requires Step(k, s, op, r, s2) && (op.Delete? ==> s0.tuning.shrinkThreshold == 0.0)
    requires op.Insert? ==> most + 1 < candidate
    ensures Unchanged(s0, s2, if op.Insert? then most + 1 else most)
  {
    match op
    case Insert(e) =>
      hide Flatten, Elements, NonEmpty, Rehashed, Wanted, TooFull, NextPrimeIs, StoredIn, Match;
      T.HashTable.FewEntriesNoGrowth(k, s.tuning, candidate, s.contents, e, r, s2.tuning, s2.contents);
      if Stored(s.contents, k, e) == NULL {
        InsertedElements(s.contents, k, e);
        NonEmptyAtMost(Inserted(s.contents, k, e));
        NoEarlyGrowth(s.tuning, candidate, |s.contents|, NonEmpty(Inserted(s.contents, k, e)));
      }
    case Delete(e) =>
      hide Flatten, Elements, NonEmpty, Rehashed, Wanted, NextPrimeIs, StoredIn, Match, Deleted;
      if r != NULL && Match(k, s.contents[Slot(s.contents, k, e)], e) < |s.contents[Slot(s.contents, k, e)]| {
        FewerDeleted(s.contents, k, e);
      }
    case Lookup(e) =>
    case Clear => EmptyHasNone(s2.contents);
  }

  lemma FewerDeleted(c: Contents, k: Functions, e: Data)
    requires Slot(c, k, e) < |c| && Match(k, c[Slot(c, k, e)], e) < |c[Slot(c, k, e)]|
    ensures |Flatten(Deleted(c, k, e))| <= |Flatten(c)| && |Deleted(c, k, e)| == |c|
  {
    var i := Slot(c, k, e);
    var s := RemovedAt(c[i], Match(k, c[i], e));
    FlattenUpdate(c, i, s);
    assert |Elements(c[i := s]) + multiset(c[i])| == |Elements(c) + multiset(s)|;
  }

  lemma {:induction false} RunUnchanged(k: Functions, candidate: nat, ss: seq<Table>, ops: seq<Op>, rs: seq<Data>,
                                        i: nat)
    requires Compatible(k) && IsRun(k, ss, ops, rs) && i < |ss|
    requires Reasonable(ss[0].tuning) && !ss[0].tuning.isNBuckets
    requires NextPrimeIs(Wanted(ss[0].tuning, candidate), |ss[0].contents|)
    requires ss[0].tuning.shrinkThreshold == 0.0 || forall j :: 0 <= j < i ==> !ops[j].Delete?
    requires Insertions(ops[..i]) < candidate
    ensures Unchanged(ss[0], ss[i], Insertions(ops[..i]))
  {
    hide Compatible, Step, Wanted, NextPrimeIs, Reasonable, Unchanged;
    if i == 0 {
      StartUnchanged(ss[0]);
    } else {
      assert ops[..i][..i - 1] == ops[..i - 1];
      RunUnchanged(k, candidate, ss, ops, rs, i - 1);
      assert StepOk(k, ss, ops, rs, i - 1);
      StepUnchanged(k, candidate, ss[0], ss[i - 1], ops[i - 1], rs[i - 1], ss[i], Insertions(ops[..i - 1]));
    }
  }

  lemma StartUnchanged(s: Table)
    requires |s.contents| > 0 && s.contents == Empty(|s.contents|)
    ensures Unchanged(s, s, 0)
  {
    EmptyHasNone(s.contents);
  }

  /** A table initialised for some entries keeps its number of buckets while fewer have been inserted,
      with lookups and clearing in between, and with deleting when the table does not shrink. */
  lemma NoGrowthBeforeCandidate(k: Functions, candidate: nat, ss: seq<Table>, ops: seq<Op>, rs: seq<Data>, i: nat)
    requires Compatible(k) && IsRun(k, ss, ops, rs) && i < |ss|
    requires Reasonable(ss[0].tuning) && !ss[0].tuning.isNBuckets
    requires NextPrimeIs(Wanted(ss[0].tuning, candidate), |ss[0].contents|)
    requires ss[0].tuning.shrinkThreshold == 0.0 || forall j :: 0 <= j < i ==> !ops[j].Delete?
    requires Insertions(ops[..i]) < candidate
    ensures |ss[i].contents| == |ss[0].contents| && ss[i].tuning == ss[0].tuning
  {
    hide Compatible, Step, Wanted, NextPrimeIs, Reasonable, IsRun, Insertions;
    RunUnchanged(k, candidate, ss, ops, rs, i);
  }

  /* ---- when a table is resized, and to which size ---- */

  /** The size asked for when a table of n buckets has got too full, spelled out. */
  ghost function GrowthAsked(t: Tuning, n: nat): int
    requires t.growthThreshold > 0.0
  {
    if t.isNBuckets then (n as real * t.growthFactor).Floor
    else ((n as real * t.growthFactor * t.growthThreshold).Floor as real / t.growthThreshold).Floor
  }

  ghost function ShrinkAsked(t: Tuning, n: nat): int
    requires t.growthThreshold > 0.0
  {
    if t.isNBuckets then (n as real * t.shrinkFactor).Floor
    else ((n as real * t.shrinkFactor * t.growthThreshold).Floor as real / t.growthThreshold).Floor
  }

  lemma AskedIsWanted(t: Tuning, n: nat)
    requires Reasonable(t)
    ensures GrowthAsked(t, n) == Wanted(t, Grown(t, n)) && ShrinkAsked(t, n) == Wanted(t, Shrunk(t, n))
  {
    hide *;
    GrowthIs(t, n);
    ShrinkIs(t, n);
  }

  lemma GrowthIs(t: Tuning, n: nat)
    requires Reasonable(t)
    ensures t.growthThreshold > 0.0 && GrowthAsked(t, n) == Wanted(t, Grown(t, n))
  {
    GrownFloor(t, n);
    WantedFloor(t, Grown(t, n));
    hide Grown, Wanted, Reasonable;
  }

  lemma ShrinkIs(t: Tuning, n: nat)
    requires Reasonable(t)
    ensures t.growthThreshold > 0.0 && ShrinkAsked(t, n) == Wanted(t, Shrunk(t, n))
  {
    ShrunkFloor(t, n);
    WantedFloor(t, Shrunk(t, n));
    hide Shrunk, Wanted, Reasonable;
  }

  lemma GrownFloor(t: Tuning, n: nat)
    requires Reasonable(t)
    ensures Grown(t, n) == if t.isNBuckets then (n as real * t.growthFactor).Floor
                           else (n as real * t.growthFactor * t.growthThreshold).Floor
  {
    hide Reasonable;
  }

  lemma ShrunkFloor(t: Tuning, n: nat)
    requires Reasonable(t)
    ensures Shrunk(t, n) == if t.isNBuckets then (n as real * t.shrinkFactor).Floor
                            else (n as real * t.shrinkFactor * t.growthThreshold).Floor
  {
    hide Reasonable;
  }

  lemma WantedFloor(t: Tuning, c: nat)
    requires Reasonable(t)
    ensures t.growthThreshold > 0.0
    ensures Wanted(t, c) == if t.isNBuckets then c else (c as real / t.growthThreshold).Floor
  {
  }

  /** The least prime at or above ten and what is asked for. */
  ghost predicate SizeFor(asked: int, n: nat) {
    asked >= 0 && NextPrimeIs(asked, n)
  }

  /** The operation puts a new entry into a bucket that was empty, which makes the table too full. */
  ghost predicate Overfills(k: Functions, s: Table, op: Op)
    requires Compatible(k) && |s.contents| > 0
  {
    var n := |s.contents|;
    && op.Insert? && k.hasher(op.e, n) < n && s.contents[k.hasher(op.e, n)] == []
    && (NonEmpty(s.contents) + 1) as real > s.tuning.growthThreshold * n as real
  }

  /** The operation takes the only entry out of its bucket, which makes the table too empty. */
  ghost predicate Underfills(k: Functions, s: Table, op: Op, r: Data)
    requires Compatible(k) && |s.contents| > 0
  {
    var n := |s.contents|;
    && op.Delete? && r != NULL && k.hasher(op.e, n) < n && s.contents[k.hasher(op.e, n)] == [r]
    && ((NonEmpty(s.contents) - 1) as real) < s.tuning.shrinkThreshold * n as real
  }

  ghost predicate Resizes(k: Functions, s: Table, op: Op, r: Data, s2: Table)
    requires Compatible(k) && |s.contents| > 0 && s.tuning.growthThreshold > 0.0
  {
    var n, n2 := |s.contents|, |s2.contents|;
    if Overfills(k, s, op) then SizeFor(GrowthAsked(s.tuning, n), n2)
    else if Underfills(k, s, op, r) then SizeFor(ShrinkAsked(s.tuning, n), n2)
    else n2 == n
  }

  lemma StepResizes(k: Functions, s: Table, op: Op, r: Data, s2: Table, m: multiset<Data>)
    requires Compatible(k) && |s.contents| > 0 && Reasonable(s.tuning) && Good(k, s, m) && Step(k, s, op, r, s2)
    ensures Resizes(k, s, op, r, s2) && s2.tuning == s.tuning && |s2.contents| > 0
  {
    AskedIsWanted(s.tuning, |s.contents|);
    match op
    case Insert(e) => InsertResizes(k, s, e, r, s2);
    case Delete(e) => DeleteResizes(k, s, e, r, s2, m);
    case _ =>
  }

  lemma InsertResizes(k: Functions, s: Table, e: Data, r: Data, s2: Table)
    requires Compatible(k) && |s.contents| > 0 && Reasonable(s.tuning) && Step(k, s, Insert(e), r, s2)
    ensures Resizes(k, s, Insert(e), r, s2) && s2.tuning == s.tuning && |s2.contents| > 0
  {
    hide Flatten, Elements, NonEmpty, Rehashed, Wanted, Grown, NextPrimeIs, GrowthAsked, ShrinkAsked;
    AskedIsWanted(s.tuning, |s.contents|);
    if Stored(s.contents, k, e) == NULL {
      InsertedElements(s.contents, k, e);
    }
  }

  lemma DeleteResizes(k: Functions, s: Table, e: Data, r: Data, s2: Table, m: multiset<Data>)
    requires Compatible(k) && |s.contents| > 0 && Reasonable(s.tuning) && Step(k, s, Delete(e), r, s2)
    requires Good(k, s, m)
    ensures Resizes(k, s, Delete(e), r, s2) && s2.tuning == s.tuning && |s2.contents| > 0
  {
    hide Flatten, Elements, NonEmpty, Rehashed, Wanted, Shrunk, NextPrimeIs, GrowthAsked, ShrinkAsked, Good, Match,
         Deleted, Compatible;
    AskedIsWanted(s.tuning, |s.contents|);
    var c, i := s.contents, Slot(s.contents, k, e);
    SlotWithin(k, s, e);
    if r != NULL && Match(k, c[i], e) < |c[i]| {
      TakenFrom(k, c, e, r);
      if c[i] == [r] {
        NonEmptyUpdate(c, i, []);
      }
    }
  }

  lemma SlotWithin(k: Functions, s: Table, e: Data)
    requires Compatible(k) && |s.contents| > 0
    ensures Slot(s.contents, k, e) < |s.contents|
  {
  }

  /** A bucket is empty after one entry was taken out of it exactly when that was the only one. */
  lemma TakenFrom(k: Functions, c: Contents, e: Data, r: Data)
    requires Slot(c, k, e) < |c| && Match(k, c[Slot(c, k, e)], e) < |c[Slot(c, k, e)]| && r == Stored(c, k, e)
    ensures var i, d := Slot(c, k, e), Deleted(c, k, e);
            |d| == |c| && (d[i] == [] <==> c[i] == [r]) && (d[i] == [] ==> d == c[i := []])
  {
    var b := c[Slot(c, k, e)];
    assert |RemovedAt(b, Match(k, b, e))| == |b| - 1;
    if |b| == 1 {
      assert b == [b[0]];
    }
  }

  /** Over every run the tuning stays, a table grows exactly when an insertion overfills it and shrinks exactly
      when a deletion underfills it, to the size that is asked for; otherwise it keeps its size. */
  lemma {:induction false} RunResizes(k: Functions, ss: seq<Table>, ops: seq<Op>, rs: seq<Data>, i: nat)
    requires Compatible(k) && IsRun(k, ss, ops, rs) && i < |ops| && Reasonable(ss[0].tuning)
    ensures ss[i].tuning == ss[i + 1].tuning == ss[0].tuning && |ss[i].contents| > 0
    ensures Resizes(k, ss[i], ops[i], rs[i], ss[i + 1])
  {
    hide Compatible, Step, Good, Reasonable, Resizes;
    if i > 0 {
      RunResizes(k, ss, ops, rs, i - 1);
    }
    RunGood(k, ss, ops, rs, i);
    assert StepOk(k, ss, ops, rs, i);
    StepResizes(k, ss[i], ops[i], rs[i], ss[i + 1], SetAfter(k, ops[..i]));
  }

  /** Tables that start with ten buckets or more never have fewer. */
  lemma {:induction false} NeverBelowTen(k: Functions, ss: seq<Table>, ops: seq<Op>, rs: seq<Data>, i: nat)
    requires Compatible(k) && IsRun(k, ss, ops, rs) && i < |ss| && Reasonable(ss[0].tuning) && |ss[0].contents| >= 10
    ensures |ss[i].contents| >= 10
  {
    hide Compatible, Step, Reasonable, Overfills, Underfills, GrowthAsked, ShrinkAsked;
    if i > 0 {
      NeverBelowTen(k, ss, ops, rs, i - 1);
      RunResizes(k, ss, ops, rs, i - 1);
    }
  }

  /** With default tuning: when more than eight tenths of the buckets get used by an insertion, the table gets
      more buckets, about 1.414 times as many; it never shrinks. */
  lemma DefaultResizes(k: Functions, ss: seq<Table>, ops: seq<Op>, rs: seq<Data>, i: nat)
    requires Compatible(k) && IsRun(k, ss, ops, rs) && i < |ops| && |ss[0].contents| >= 10
    requires ss[0].tuning == DEFAULT_TUNING
    ensures var n, n2 := |ss[i].contents|, |ss[i + 1].contents|;
            && n >= 10
            && var fills := ops[i].Insert? && k.hasher(ops[i].e, n) < n && ss[i].contents[k.hasher(ops[i].e, n)] == []
                            && 10 * (NonEmpty(ss[i].contents) + 1) > 8 * n;
               if fills then n2 > n && SizeFor(((n as real * 1.414 * 0.8).Floor as real / 0.8).Floor, n2) else n2 == n
  {
    hide Compatible, Step, NextPrimeIs, StepOk;
    NeverBelowTen(k, ss, ops, rs, i);
    RunResizes(k, ss, ops, rs, i);
    var n, used := |ss[i].contents|, NonEmpty(ss[i].contents);
    DefaultEnlarges(n);
    AskedIsWanted(DEFAULT_TUNING, n);
    NextAtLeast(GrowthAsked(DEFAULT_TUNING, n), |ss[i + 1].contents|);
    EightTenths(used + 1, n);
    UsedSome(k, ss[i], ops[i], rs[i]);
  }

  lemma EightTenths(used: nat, n: nat)
    ensures used as real > 0.8 * n as real <==> 10 * used > 8 * n
  {
  }

  lemma NextAtLeast(asked: int, n: nat)
    ensures SizeFor(asked, n) ==> n >= asked
  {
  }

  lemma UsedSome(k: Functions, s: Table, op: Op, r: Data)
    requires Compatible(k) && |s.contents| > 0 && s.tuning.shrinkThreshold == 0.0
    ensures !Underfills(k, s, op, r)
  {
    if op.Delete? && k.hasher(op.e, |s.contents|) < |s.contents| && s.contents[k.hasher(op.e, |s.contents|)] == [r] {
      NonEmptyUpdate(s.contents, k.hasher(op.e, |s.contents|), []);
    }
    hide NonEmpty;
  }
}
