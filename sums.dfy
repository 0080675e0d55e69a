/** Sums over the keys of a map. JavaScript visits the keys of the cart object in
    insertion order; integer addition does not depend on that order, so the sum is
    defined over the set of keys, taking them in an arbitrary order, and
    SumOverSplit shows that every order gives the same value. */
module Sums {

  /** The sum of `f(k)` over all `k` in `s`. */
  ghost function SumOver<K>(s: set<K>, f: K -> int): (r: int)
    ensures (forall k :: k in s ==> f(k) >= 0) ==> r >= 0
    ensures (forall k :: k in s ==> f(k) == 0) ==> r == 0
  {
    if s == {} then 0
    else
      var k :| k in s;
      f(k) + SumOver(s - {k}, f)
  }

  /** Any element can be taken out first: the sum does not depend on the order
      in which the elements are visited. */
  lemma {:induction false} SumOverSplit<K>(s: set<K>, f: K -> int, x: K)
    requires x in s
    ensures SumOver(s, f) == f(x) + SumOver(s - {x}, f)
    decreases s
  {
    var k :| k in s && SumOver(s, f) == f(k) + SumOver(s - {k}, f);
    if k != x {
      SumOverSplit(s - {k}, f, x);
      SumOverSplit(s - {x}, f, k);
      assert s - {k} - {x} == s - {x} - {k};
    }
  }

  /** The sum only depends on the values of `f` on `s`. */
  lemma {:induction false} SumOverExt<K>(s: set<K>, f: K -> int, g: K -> int)
    requires forall k :: k in s ==> f(k) == g(k)
    ensures SumOver(s, f) == SumOver(s, g)
    decreases s
  {
    if s != {} {
      var k :| k in s;
      SumOverSplit(s, f, k);
      SumOverSplit(s, g, k);
      SumOverExt(s - {k}, f, g);
    }
  }
}
