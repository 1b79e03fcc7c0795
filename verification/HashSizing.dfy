/** When a hash table grows or shrinks, and to which size; tuning values are exact. */
module HashSizing {
  import opened Primes

  datatype Tuning = Tuning(shrinkThreshold: real, shrinkFactor: real, growthThreshold: real, growthFactor: real,
                           isNBuckets: bool)

  const DEFAULT_TUNING := Tuning(0.0, 1.0, 0.8, 1.414, false)

  predicate Reasonable(t: Tuning) {
    var epsilon := 0.1;
    && epsilon < t.growthThreshold < 1.0 - epsilon
    && 1.0 + epsilon < t.growthFactor
    && 0.0 <= t.shrinkThreshold
    && t.shrinkThreshold + epsilon < t.shrinkFactor <= 1.0
    && t.shrinkThreshold + epsilon < t.growthThreshold
  }

  /** Unreasonable tuning is replaced for good. */
  function Checked(t: Tuning): (r: Tuning)
    ensures Reasonable(r)
  {
    if Reasonable(t) then t else DEFAULT_TUNING
  }

  function Truncated(x: real): nat
    requires x >= 0.0
  {
    x.Floor
  }

  lemma Product(x: real, y: real)
    requires x >= 0.0 && y >= 0.0
    ensures x * y >= 0.0
  {
  }

  lemma ProductUp(x: real, y: real, z: real)
    requires x <= y && z >= 0.0
    ensures x * z <= y * z
  {
  }

  lemma Divided(x: real, y: real)
    requires y > 0.0
    ensures (x / y) * y == x && (x >= 0.0 ==> x / y >= 0.0)
  {
  }

  /** The number of buckets wanted for a candidate. */
  function Wanted(t: Tuning, candidate: nat): nat
    requires Reasonable(t)
  {
    if t.isNBuckets then candidate
    else
      Divided(candidate as real, t.growthThreshold);
      Truncated(candidate as real / t.growthThreshold)
  }

  predicate TooFull(t: Tuning, used: nat, n: nat) {
    used as real > t.growthThreshold * n as real
  }

  predicate TooEmpty(t: Tuning, used: nat, n: nat) {
    (used as real) < t.shrinkThreshold * n as real
  }

  /** The candidate for the new size of a table of n buckets that is too full. */
  function Grown(t: Tuning, n: nat): nat
    requires Reasonable(t)
  {
    Product(n as real, t.growthFactor);
    Product(n as real * t.growthFactor, t.growthThreshold);
    if t.isNBuckets then Truncated(n as real * t.growthFactor)
    else Truncated(n as real * t.growthFactor * t.growthThreshold)
  }

  function Shrunk(t: Tuning, n: nat): nat
    requires Reasonable(t)
  {
    Product(n as real, t.shrinkFactor);
    Product(n as real * t.shrinkFactor, t.growthThreshold);
    if t.isNBuckets then Truncated(n as real * t.shrinkFactor)
    else Truncated(n as real * t.shrinkFactor * t.growthThreshold)
  }

  /** A table initialised for some entries stays its size while one fewer buckets are used. */
  lemma NoEarlyGrowth(t: Tuning, candidate: nat, n: nat, used: nat)
    requires Reasonable(t) && !t.isNBuckets && NextPrimeIs(Wanted(t, candidate), n) && used < candidate
    ensures !TooFull(t, used, n)
  {
    var q := candidate as real / t.growthThreshold;
    Divided(candidate as real, t.growthThreshold);
    assert Wanted(t, candidate) == q.Floor;
    assert n as real >= q - 1.0;
    ProductUp(q - 1.0, n as real, t.growthThreshold);
    OneLess(q, t.growthThreshold);
    Commute(n as real, t.growthThreshold);
    assert used as real <= candidate as real - 1.0;
    var x := t.growthThreshold * n as real;
    assert x >= candidate as real - t.growthThreshold;
    assert x > used as real;
    assert TooFull(t, used, n) <==> used as real > x;
  }

  lemma OneLess(q: real, y: real)
    ensures (q - 1.0) * y == q * y - y
  {
  }

  lemma Commute(x: real, y: real)
    ensures x * y == y * x
  {
  }

  /** The documented guarantee, that the full number of entries fits, fails exactly when truncation
      cut something off and the size wanted is taken as it is, being a prime from ten on. */
  lemma GuaranteeExactly(t: Tuning, candidate: nat, n: nat)
    requires Reasonable(t) && !t.isNBuckets && NextPrimeIs(Wanted(t, candidate), n)
    ensures (forall used: nat :: used <= candidate ==> !TooFull(t, used, n))
            <==> !(Prime(Wanted(t, candidate)) && Wanted(t, candidate) >= 10
                   && (Wanted(t, candidate) as real) < candidate as real / t.growthThreshold)
  {
    var q, w := candidate as real / t.growthThreshold, Wanted(t, candidate);
    Divided(candidate as real, t.growthThreshold);
    assert w == q.Floor;
    WithinExactly(t, candidate, q, n);
    hide Prime;
    if candidate as real <= t.growthThreshold * n as real {
      forall used: nat | used <= candidate ensures !TooFull(t, used, n) {
      }
    } else {
      assert TooFull(t, candidate, n);
    }
    assert Prime(w) && w >= 10 ==> n == w;
    assert n > w ==> n as real >= q;
  }

  /** A number is within the threshold of n buckets when the quotient is at most n. */
  lemma WithinExactly(t: Tuning, candidate: nat, q: real, n: nat)
    requires t.growthThreshold > 0.0 && q * t.growthThreshold == candidate as real
    ensures candidate as real <= t.growthThreshold * n as real <==> q <= n as real
  {
    Commute(t.growthThreshold, n as real);
    if q <= n as real {
      ProductUp(q, n as real, t.growthThreshold);
    } else {
      StrictlyUp(n as real, q, t.growthThreshold);
    }
  }

  lemma StrictlyUp(x: real, y: real, z: real)
    requires x < y && z > 0.0
    ensures x * z < y * z
  {
  }

  /** It fails for nine entries and default tuning: eleven buckets are too full with nine used. */
  lemma GuaranteeFails()
    ensures Reasonable(DEFAULT_TUNING) && NextPrimeIs(Wanted(DEFAULT_TUNING, 9), 11)
    ensures TooFull(DEFAULT_TUNING, 9, 11)
  {
    assert 9 as real / 0.8 == 11.25;
    assert Wanted(DEFAULT_TUNING, 9) == 11;
    Eleven();
  }

  lemma Eleven()
    ensures Prime(11) && !Prime(10)
  {
    assert Divides(2, 10);
    forall d | 2 <= d < 11 ensures !Divides(d, 11) {
    }
  }

  /** With default tuning a table that grows always asks for more buckets. */
  lemma DefaultEnlarges(n: nat)
    requires n >= 10
    ensures Wanted(DEFAULT_TUNING, Grown(DEFAULT_TUNING, n)) > n
  {
    var x := n as real * 1.414 * 0.8;
    var g := Grown(DEFAULT_TUNING, n);
    assert g as real > x - 1.0;
    var q := g as real / 0.8;
    Divided(g as real, 0.8);
    assert q * 0.8 > x - 1.0;
    assert q > n as real * 1.414 - 1.25;
    assert q.Floor as real > q - 1.0;
  }

  /** So it does with any reasonable tuning that counts buckets. */
  lemma BucketsEnlarge(t: Tuning, n: nat)
    requires Reasonable(t) && t.isNBuckets && n >= 10
    ensures Wanted(t, Grown(t, n)) > n
  {
    ProductUp(1.1, t.growthFactor, n as real);
    Commute(n as real, t.growthFactor);
    var q := n as real * t.growthFactor;
    assert q >= 1.1 * n as real;
    assert n as real >= 10.0;
    assert q >= n as real + 1.0;
    assert Wanted(t, Grown(t, n)) == q.Floor;
  }

  /** Otherwise a table that grows gets more buckets exactly when the truncated product is still one
      bucket's share of entries above those that fit now. */
  lemma EnlargedExactly(t: Tuning, n: nat, n2: nat)
    requires Reasonable(t) && Prime(n) && n >= 10 && NextPrimeIs(Wanted(t, Grown(t, n)), n2)
    ensures n2 > n <==>
      || t.isNBuckets
      || (n as real * t.growthFactor * t.growthThreshold).Floor as real >= t.growthThreshold * (n + 1) as real
  {
    hide Wanted, Grown, Reasonable;
    MoreThanWanted(t, n, n2);
    if t.isNBuckets {
      BucketsEnlarge(t, n);
    } else {
      WantsMore(t, Grown(t, n), n);
      GrownIs(t, n);
    }
  }

  /** The next prime is above a prime exactly when more than that is wanted. */
  lemma MoreThanWanted(t: Tuning, n: nat, n2: nat)
    requires Reasonable(t) && Prime(n) && n >= 10 && NextPrimeIs(Wanted(t, Grown(t, n)), n2)
    ensures n2 > n <==> Wanted(t, Grown(t, n)) > n
  {
    hide Prime, Wanted, Grown, Reasonable;
  }

  lemma GrownIs(t: Tuning, n: nat)
    requires Reasonable(t) && !t.isNBuckets
    ensures Grown(t, n) == (n as real * t.growthFactor * t.growthThreshold).Floor
  {
  }

  lemma WantsMore(t: Tuning, candidate: nat, n: nat)
    requires Reasonable(t) && !t.isNBuckets
    ensures Wanted(t, candidate) > n <==> candidate as real >= t.growthThreshold * (n + 1) as real
  {
    var q := candidate as real / t.growthThreshold;
    Divided(candidate as real, t.growthThreshold);
    AtLeastExactly(t, candidate, q, n + 1);
    assert Wanted(t, candidate) == q.Floor;
    assert q.Floor > n <==> q >= (n + 1) as real;
  }

  lemma AtLeastExactly(t: Tuning, candidate: nat, q: real, n: nat)
    requires t.growthThreshold > 0.0 && q * t.growthThreshold == candidate as real
    ensures candidate as real >= t.growthThreshold * n as real <==> q >= n as real
  {
    Commute(t.growthThreshold, n as real);
    if q >= n as real {
      ProductUp(n as real, q, t.growthThreshold);
    } else {
      StrictlyUp(q, n as real, t.growthThreshold);
    }
  }

  const STALLING := Tuning(0.0, 1.0, 0.11, 1.11, false)

  /** A reasonable tuning may ask for a growth that is none. */
  lemma GrowthMayStall()
    ensures Reasonable(STALLING) && TooFull(STALLING, 2, 11)
    ensures NextPrimeIs(Wanted(STALLING, Grown(STALLING, 11)), 11)
  {
    assert Reasonable(STALLING);
    assert 11 as real * 1.11 * 0.11 == 1.3431;
    assert Grown(STALLING, 11) == 1;
    assert TooFull(STALLING, 2, 11) by {
      assert STALLING.growthThreshold * 11 as real == 1.21;
    }
    assert Wanted(STALLING, 1) == 9 by {
      Divided(1.0, 0.11);
      var q := 1 as real / STALLING.growthThreshold;
      assert q * 0.11 == 1.0;
      assert 9.0 <= q < 10.0;
    }
    Eleven();
    hide TooFull, Wanted, Grown, Reasonable, Prime;
    assert NextPrimeIs(9, 11);
  }
}
