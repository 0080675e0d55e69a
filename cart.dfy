/** The cart: a map from product id to quantity, the "add one" update, and the
    count and total that the cart drawer shows (script.js:17-43). */
module Cart {
  import opened Wrappers
  import opened Sums
  import opened Catalog

  /** The cart after `addToCart(id)`: a missing entry counts as 0 and gains one;
      every other entry is unchanged. Nothing checks that the product exists. */
  function AddOne(c: map<string, int>, id: string): (r: map<string, int>)
    ensures r.Keys == c.Keys + {id}
    ensures id in c ==> r[id] == c[id] + 1
    ensures id !in c ==> r[id] == 1
    ensures forall k :: k in c && k != id ==> r[k] == c[k]
  {
    c[id := (if id in c then c[id] else 0) + 1]
  }

  /** The cart after `addToCart` has been called with each of `ids`, in order. */
  function AddAll(c: map<string, int>, ids: seq<string>): (r: map<string, int>)
    ensures r.Keys == c.Keys + set i | 0 <= i < |ids| :: ids[i]
    decreases |ids|
  {
    if ids == [] then c else AddAll(AddOne(c, ids[0]), ids[1..])
  }

  /** The stored quantity of `id`, 0 when there is no entry. */
  function Quantity(c: map<string, int>): string -> int
  {
    id => if id in c then c[id] else 0
  }

  /** The cart count: the sum of all stored quantities, whether or not their
      product still exists (`Object.values(cart).reduce((a, b) => a + b, 0)`). */
  ghost function CartCount(c: map<string, int>): (r: int)
    ensures (forall id :: id in c ==> c[id] >= 0) ==> r >= 0
  {
    SumOver(c.Keys, Quantity(c))
  }

  /** What one cart entry adds to the total: price times quantity when the id
      finds a product, 0 when it does not. */
  function LineTotal(ps: seq<Product>, c: map<string, int>, id: string): (r: int)
    ensures id !in c || !InCatalog(ps, id) ==> r == 0
    ensures id in c && InCatalog(ps, id) ==> r == FindProduct(ps, id).value.price * c[id]
  {
    if id in c then
      match FindProduct(ps, id)
      case Some(p) => p.price * c[id]
      case None => 0
    else 0
  }

  function Line(ps: seq<Product>, c: map<string, int>): string -> int
  {
    id => LineTotal(ps, c, id)
  }

  /** The cart total: the sum of the entries' line totals, joined against the catalog. */
  ghost function CartTotal(ps: seq<Product>, c: map<string, int>): (r: int)
    ensures (forall id :: id in c ==> !InCatalog(ps, id)) ==> r == 0
    ensures (forall id :: id in c ==> c[id] >= 0 && (InCatalog(ps, id) ==> FindProduct(ps, id).value.price >= 0))
            ==> r >= 0
  {
    LineSigns(ps, c);
    SumOver(c.Keys, Line(ps, c))
  }

  /** The line totals are 0 for stale entries and non-negative for non-negative
      prices and quantities. */
  lemma LineSigns(ps: seq<Product>, c: map<string, int>)
    ensures forall id :: id in c && !InCatalog(ps, id) ==> Line(ps, c)(id) == 0
    ensures forall id :: id in c && c[id] >= 0 && (InCatalog(ps, id) ==> FindProduct(ps, id).value.price >= 0)
                         ==> Line(ps, c)(id) >= 0
  {
    forall id | id in c && c[id] >= 0 && (InCatalog(ps, id) ==> FindProduct(ps, id).value.price >= 0)
      ensures Line(ps, c)(id) >= 0
    {
      if InCatalog(ps, id) {
        var price := FindProduct(ps, id).value.price;
        assert price * c[id] >= 0;
      }
    }
  }

  /** The unit price that `addToCart(id)` adds to the total: 0 for an id with no product. */
  function UnitPrice(ps: seq<Product>, id: string): int
  {
    match FindProduct(ps, id)
    case Some(p) => p.price
    case None => 0
  }

  /** Adding one unit of `id` raises the count by exactly one. */
  lemma CountAddOne(c: map<string, int>, id: string)
    ensures CartCount(AddOne(c, id)) == CartCount(c) + 1
  {
    var d := AddOne(c, id);
    SumOverSplit(d.Keys, Quantity(d), id);
    assert d.Keys - {id} == c.Keys - {id};
    SumOverExt(c.Keys - {id}, Quantity(c), Quantity(d));
    if id in c {
      SumOverSplit(c.Keys, Quantity(c), id);
    } else {
      assert c.Keys - {id} == c.Keys;
    }
  }

  /** After n calls of `addToCart` the count has grown by n; from an empty cart it is n. */
  lemma {:induction false} CountAfterAdds(c: map<string, int>, ids: seq<string>)
    ensures CartCount(AddAll(c, ids)) == CartCount(c) + |ids|
    ensures c == map[] ==> CartCount(AddAll(c, ids)) == |ids|
    decreases |ids|
  {
    if ids != [] {
      CountAddOne(c, ids[0]);
      CountAfterAdds(AddOne(c, ids[0]), ids[1..]);
    }
  }

  /** Adding one unit of `id` raises the total by the unit price of the product
      `id` finds, and by nothing when there is none. */
  lemma TotalAddOne(ps: seq<Product>, c: map<string, int>, id: string)
    ensures CartTotal(ps, AddOne(c, id)) == CartTotal(ps, c) + UnitPrice(ps, id)
  {
    var d := AddOne(c, id);
    var rest := c.Keys - {id};
    SumOverSplit(d.Keys, Line(ps, d), id);
    assert d.Keys - {id} == rest;
    forall k | k in rest ensures Line(ps, c)(k) == Line(ps, d)(k) {
      assert d[k] == c[k];
    }
    SumOverExt(rest, Line(ps, c), Line(ps, d));
    var q := if id in c then c[id] else 0;
    assert LineTotal(ps, d, id) == LineTotal(ps, c, id) + UnitPrice(ps, id) by {
      assert d[id] == q + 1;
      match FindProduct(ps, id)
      case Some(p) =>
        assert p.price * (q + 1) == p.price * q + p.price;
      case None =>
    }
    if id in c {
      SumOverSplit(c.Keys, Line(ps, c), id);
    } else {
      assert rest == c.Keys;
    }
  }

  /** Deleting the products with `id` lowers the total by that entry's line total
      and by nothing else; the computation does not fail on the stale entry. */
  lemma TotalAfterDelete(ps: seq<Product>, c: map<string, int>, id: string)
    ensures CartTotal(Without(ps, id), c) == CartTotal(ps, c) - LineTotal(ps, c, id)
    ensures LineTotal(Without(ps, id), c, id) == 0
  {
    var qs := Without(ps, id);
    forall k | k in c.Keys - {id} ensures Line(ps, c)(k) == Line(qs, c)(k) {
      FindAfterDelete(ps, id, k);
    }
    SumOverExt(c.Keys - {id}, Line(ps, c), Line(qs, c));
    if id in c {
      SumOverSplit(c.Keys, Line(ps, c), id);
      SumOverSplit(c.Keys, Line(qs, c), id);
    } else {
      assert c.Keys - {id} == c.Keys;
    }
  }

  /** An entry whose id finds no product adds nothing to the total but still
      counts its quantity. */
  lemma StaleEntry(ps: seq<Product>, c: map<string, int>, id: string)
    requires id in c && !InCatalog(ps, id)
    ensures CartTotal(ps, c) == CartTotal(ps, c - {id})
    ensures CartCount(c) == CartCount(c - {id}) + c[id]
  {
    var d := c - {id};
    assert d.Keys == c.Keys - {id};
    SumOverSplit(c.Keys, Line(ps, c), id);
    SumOverExt(d.Keys, Line(ps, c), Line(ps, d));
    SumOverSplit(c.Keys, Quantity(c), id);
    SumOverExt(d.Keys, Quantity(c), Quantity(d));
  }

  /** An emptied cart shows count 0 and total 0. */
  lemma EmptyCart(ps: seq<Product>)
    ensures CartCount(map[]) == 0 && CartTotal(ps, map[]) == 0
  {
  }
}
