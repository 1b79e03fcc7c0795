/** Sizes of hash tables are primes. */
module Primes {

  predicate Divides(d: nat, n: nat)
    requires d > 0
  {
    n % d == 0
  }

  predicate Prime(n: nat) {
    n >= 2 && forall d :: 2 <= d < n ==> !Divides(d, n)
  }

  /** p is the least prime at or above both the candidate and 10. */
  predicate NextPrimeIs(candidate: nat, p: nat) {
    && Prime(p) && p >= candidate && p >= 10
    && forall q :: (if candidate < 10 then 10 else candidate) <= q < p ==> !Prime(q)
  }

  lemma AtLeastOneMore(d: nat, k: int)
    requires k >= 1
    ensures d * k >= d
  {
  }

  lemma Multiple(d: nat, k: nat) returns (n: nat)
    requires d > 0
    ensures n == d * k && Divides(d, n)
  {
    n := d * k;
    var q, r := n / d, n % d;
    assert n == d * q + r;
    assert d * (k - q) == r;
    if k - q >= 1 {
      AtLeastOneMore(d, k - q);
    } else if q - k >= 1 {
      AtLeastOneMore(d, q - k);
    }
  }

  lemma Quotient(d: nat, n: nat) returns (k: nat)
    requires d > 0 && Divides(d, n)
    ensures n == d * k
  {
    k := n / d;
  }

  lemma Regroup(a: nat, j: nat, k: nat)
    ensures (a * j) * k == a * (j * k)
  {
  }

  /** A divisor of a divisor divides. */
  lemma DividesTransitive(a: nat, b: nat, c: nat)
    requires a > 0 && b > 0 && Divides(a, b) && Divides(b, c)
    ensures Divides(a, c)
  {
    var j := Quotient(a, b);
    var k := Quotient(b, c);
    Regroup(a, j, k);
    var n := Multiple(a, j * k);
  }

  lemma Squares(a: nat, b: nat)
    requires a <= b
    ensures a * a <= a * b <= b * b
  {
  }

  /** If anything divides n properly, so does something no larger than the square root. */
  lemma SmallDivisor(n: nat, d: nat) returns (e: nat)
    requires 2 <= d < n && Divides(d, n)
    ensures 2 <= e < n && Divides(e, n) && e * e <= n
  {
    var k := Quotient(d, n);
    assert k != 0 && k != 1;
    if d <= k {
      e := d;
      Squares(d, k);
    } else {
      e := k;
      var m := Multiple(k, d);
      Squares(k, d);
      Larger(d, k);
    }
  }

  lemma Larger(d: nat, k: nat)
    requires d >= 2 && k >= 2
    ensures d * k > k
  {
  }

  /** An odd number has no even divisor. */
  lemma OddDivisor(n: nat, d: nat)
    requires n % 2 == 1 && d > 0 && Divides(d, n)
    ensures d % 2 == 1
  {
    if d % 2 == 0 {
      DividesTransitive(2, d, n);
    }
  }

  /** Trial division by the odd numbers up to the root decides primality. */
  method IsPrime(candidate: nat) returns (r: bool)
    requires candidate % 2 == 1 && candidate >= 5
    ensures r == Prime(candidate)
  {
    var divisor := 3;
    var square := divisor * divisor;
    while square < candidate && candidate % divisor != 0
      invariant 3 <= divisor < candidate && divisor % 2 == 1 && square == divisor * divisor
      invariant forall d :: 2 <= d < divisor ==> !Divides(d, candidate)
      decreases candidate - divisor
    {
      Step(candidate, divisor);
      divisor := divisor + 1;
      square := square + 4 * divisor;
      divisor := divisor + 1;
    }
    if candidate % divisor != 0 {
      NoDivisor(candidate, divisor);
    } else {
      assert Divides(divisor, candidate);
    }
    return candidate % divisor != 0;
  }

  lemma AtLeastThree(d: nat)
    requires d >= 3
    ensures d * d >= 3 * d
  {
  }

  lemma NextSquare(d: nat)
    ensures d * d + 4 * (d + 1) == (d + 2) * (d + 2)
  {
  }

  lemma Step(candidate: nat, divisor: nat)
    requires candidate % 2 == 1 && divisor % 2 == 1 && 3 <= divisor && divisor * divisor < candidate
    requires !Divides(divisor, candidate)
    requires forall d :: 2 <= d < divisor ==> !Divides(d, candidate)
    ensures divisor + 2 < candidate
    ensures divisor * divisor + 4 * (divisor + 1) == (divisor + 2) * (divisor + 2)
    ensures forall d :: 2 <= d < divisor + 2 ==> !Divides(d, candidate)
  {
    AtLeastThree(divisor);
    NextSquare(divisor);
    hide Divides;
    if Divides(divisor + 1, candidate) {
      OddDivisor(candidate, divisor + 1);
    }
  }

  lemma SquaresUp(a: nat, b: nat)
    requires b * b <= a * a
    ensures b <= a
  {
  }

  lemma NoDivisor(candidate: nat, divisor: nat)
    requires candidate >= 2 && divisor * divisor >= candidate && divisor > 0 && !Divides(divisor, candidate)
    requires forall d :: 2 <= d < divisor ==> !Divides(d, candidate)
    ensures Prime(candidate)
  {
    forall d | 2 <= d < candidate ensures !Divides(d, candidate) {
      if Divides(d, candidate) {
        var e := SmallDivisor(candidate, d);
        SquaresUp(divisor, e);
      }
    }
  }

  /* ---- there is always another prime ---- */

  function Factorial(n: nat): nat {
    if n == 0 then 1 else n * Factorial(n - 1)
  }

  lemma {:induction false} FactorialDivided(n: nat, d: nat)
    requires 1 <= d <= n
    ensures Divides(d, Factorial(n))
  {
    var m := Multiple(n, Factorial(n - 1));
    if d < n {
      FactorialDivided(n - 1, d);
      assert m == Factorial(n - 1) * n;
      FactorialPositive(n - 1);
      var k := Multiple(Factorial(n - 1), n);
      DividesTransitive(d, Factorial(n - 1), k);
    }
  }

  lemma {:induction false} FactorialPositive(n: nat)
    ensures Factorial(n) >= 1
  {
    if n > 0 {
      FactorialPositive(n - 1);
    }
  }

  lemma {:induction false} PrimeDivisor(n: nat) returns (p: nat)
    requires n >= 2
    ensures Prime(p) && Divides(p, n) && p <= n
  {
    if Prime(n) {
      p := n;
    } else {
      var d :| 2 <= d < n && Divides(d, n);
      p := PrimeDivisor(d);
      DividesTransitive(p, d, n);
    }
  }

  /** Euclid: a prime divisor of n! + 1 is larger than n. */
  lemma AnotherPrime(n: nat) returns (p: nat)
    ensures Prime(p) && p > n
  {
    FactorialPositive(n);
    p := PrimeDivisor(Factorial(n) + 1);
    if p <= n {
      FactorialDivided(n, p);
      NotBoth(p, Factorial(n));
    }
    assert p > n;
  }

  lemma NotBoth(p: nat, n: nat)
    requires p >= 2 && Divides(p, n)
    ensures !Divides(p, n + 1)
  {
    if Divides(p, n + 1) {
      var j := Quotient(p, n);
      var k := Quotient(p, n + 1);
      assert p * (k - j) == 1;
      if k - j >= 1 {
        AtLeastOneMore(p, k - j);
      }
      assert false;
    }
  }

  method NextPrime(candidate: nat) returns (p: nat)
    ensures NextPrimeIs(candidate, p)
  {
    hide Prime;
    p := candidate;
    if p < 10 {
      p := 10;
    }
    ghost var start := p;
    if p % 2 == 0 {
      EvenNotPrime(p);
      p := p + 1;
    }
    ghost var bound := AnotherPrime(p);
    var found := IsPrime(p);
    while !found
      invariant start <= p <= bound && p % 2 == 1 && p >= 11 && found == Prime(p) && Prime(bound)
      invariant forall q :: start <= q < p ==> !Prime(q)
      decreases bound - p
    {
      EvenNotPrime(p + 1);
      assert p != bound && p + 1 != bound;
      p := p + 2;
      found := IsPrime(p);
    }
  }

  lemma EvenNotPrime(n: nat)
    requires n > 2 && n % 2 == 0
    ensures !Prime(n)
  {
    assert Divides(2, n) && 2 <= 2 < n;
  }
}
