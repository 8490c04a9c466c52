/** Arithmetic and set facts that several modules share. */
module Basics {
  function Pow2(n: nat): nat {
    if n == 0 then 1 else 2 * Pow2(n - 1)
  }

  /** n * price, one price at a time. */
  function Multiple(n: nat, price: nat): nat {
    if n == 0 then 0 else Multiple(n - 1, price) + price
  }

  lemma {:induction false} MultipleIsProduct(n: nat, price: nat)
    ensures Multiple(n, price) == n * price
  {
    if n > 0 {
      MultipleIsProduct(n - 1, price);
      assert n * price == (n - 1) * price + price;
    }
  }

  lemma {:induction false} MultipleGrows(m: nat, n: nat, price: nat)
    requires m <= n
    ensures Multiple(m, price) <= Multiple(n, price)
  {
    if m < n { MultipleGrows(m, n - 1, price); }
  }

  lemma SubsetSize<T>(a: set<T>, b: set<T>)
    requires a <= b
    ensures |a| <= |b|
    ensures |a| == |b| ==> a == b
  {
    assert b == a + (b - a);
  }

  /** A number beyond all used ones. */
  lemma {:induction false} Fresh(used: set<nat>) returns (n: nat)
    ensures forall k | k in used :: k < n
  {
    if used == {} {
      n := 0;
    } else {
      var k :| k in used;
      var m := Fresh(used - {k});
      n := if k < m then m else k + 1;
      forall x | x in used ensures x < n { assert x == k || x in used - {k}; }
    }
  }
}
