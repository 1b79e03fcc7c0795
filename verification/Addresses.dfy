/** Memory never runs out of addresses. */
module Addresses {

  /** There is always another address that is not NULL. */
  lemma FreshAddress(used: set<nat>)
    ensures exists a: nat :: a != 0 && a !in used
  {
    var bound := UpperBound(used);
    assert bound + 1 !in used;
  }

  lemma {:induction false} UpperBound(s: set<nat>) returns (b: nat)
    ensures forall x :: x in s ==> x <= b
    decreases s
  {
    if s == {} {
      b := 0;
    } else {
      var x :| x in s;
      b := UpperBound(s - {x});
      assert s == (s - {x}) + {x};
      b := if b < x then x else b;
    }
  }
}
