/** The product catalog: product records, lookup by id, the publish toggle,
    deletion, and the two views rendered from the catalog (script.js:49-102). */
module Catalog {
  import opened Wrappers
  import opened Seqs
  import opened Vendors

  /** A product record as the vendor form creates it. Prices are whole numbers. */
  datatype Product = Product(
    id: string,
    name: string,
    price: int,
    category: string,
    img: string,
    desc: string,
    published: bool,
    vendorId: string)

  function HasId(id: string): Product -> bool { (p: Product) => p.id == id }

  function LacksId(id: string): Product -> bool { (p: Product) => p.id != id }

  function OwnedBy(vendorId: string): Product -> bool { (p: Product) => p.vendorId == vendorId }

  predicate IsPublished(p: Product) { p.published }

  /** Some product of the catalog carries `id`. */
  predicate InCatalog(ps: seq<Product>, id: string)
  {
    exists i :: 0 <= i < |ps| && ps[i].id == id
  }

  /** The position of the product that `products.find(x => x.id === id)` returns. */
  function ProductIndex(ps: seq<Product>, id: string): (r: Option<nat>)
    ensures r.None? <==> !InCatalog(ps, id)
    ensures r.Some? ==> r.value < |ps| && ps[r.value].id == id
    ensures r.Some? ==> forall j :: 0 <= j < r.value ==> ps[j].id != id
  {
    FirstWhere(ps, HasId(id))
  }

  /** The product that `products.find(x => x.id === id)` returns: the first one with that id. */
  function FindProduct(ps: seq<Product>, id: string): (r: Option<Product>)
    ensures r.None? <==> !InCatalog(ps, id)
    ensures r.Some? ==> r.value in ps && r.value.id == id
    ensures forall i :: 0 <= i < |ps| && ps[i].id == id && (forall j :: 0 <= j < i ==> ps[j].id != id)
                        ==> r == Some(ps[i])
  {
    match ProductIndex(ps, id)
    case None => None
    case Some(i) => Some(ps[i])
  }

  /** The catalog after `togglePublish(id)`: the product found by id has its
      published flag negated; it keeps every other field, and every other product
      is left as it was. */
  function Toggled(ps: seq<Product>, id: string): (r: seq<Product>)
    requires InCatalog(ps, id)
    ensures |r| == |ps|
    ensures forall j :: 0 <= j < |ps| && j != ProductIndex(ps, id).value ==> r[j] == ps[j]
    ensures var i := ProductIndex(ps, id).value;
            r[i].published == !ps[i].published && r[i].(published := ps[i].published) == ps[i]
    ensures forall j :: 0 <= j < |ps| ==> r[j].id == ps[j].id
  {
    var i := ProductIndex(ps, id).value;
    ps[i := ps[i].(published := !ps[i].published)]
  }

  /** The catalog after `deleteProduct(id)`: every product with that id is gone,
      the others stay, in their order. */
  function Without(ps: seq<Product>, id: string): (r: seq<Product>)
    ensures forall i :: 0 <= i < |r| ==> r[i].id != id
    ensures forall p :: p in r <==> p in ps && p.id != id
    ensures forall p :: multiset(r)[p] == if p.id != id then multiset(ps)[p] else 0
    ensures IsSubsequence(r, ps)
    ensures !InCatalog(r, id)
  {
    Filter(ps, LacksId(id))
  }

  /** What shoppers see: the published products, in catalog order. The
      multiplicity clause makes this exactly the published part of the
      catalog, duplicates included. */
  function ShopperView(ps: seq<Product>): (r: seq<Product>)
    ensures forall i :: 0 <= i < |r| ==> r[i].published
    ensures forall p :: p in r <==> p in ps && p.published
    ensures forall p :: multiset(r)[p] == if p.published then multiset(ps)[p] else 0
    ensures IsSubsequence(r, ps)
  {
    Filter(ps, IsPublished)
  }

  /** What the signed-in vendor sees: the products whose vendorId is the
      session's, in catalog order; nothing when no vendor is signed in. */
  function VendorView(ps: seq<Product>, session: Option<Vendor>): (r: seq<Product>)
    ensures session.None? ==> r == []
    ensures session.Some? ==> forall i :: 0 <= i < |r| ==> r[i].vendorId == session.value.vendorId
    ensures session.Some? ==> forall p :: p in r <==> p in ps && p.vendorId == session.value.vendorId
    ensures session.Some? ==>
              forall p :: multiset(r)[p] == if p.vendorId == session.value.vendorId then multiset(ps)[p] else 0
    ensures IsSubsequence(r, ps)
  {
    match session
    case None => []
    case Some(s) => Filter(ps, OwnedBy(s.vendorId))
  }

  /** `ProductIndex` only looks at ids. */
  lemma SameIdsSameIndex(a: seq<Product>, b: seq<Product>, id: string)
    requires |a| == |b|
    requires forall j :: 0 <= j < |a| ==> a[j].id == b[j].id
    ensures ProductIndex(a, id) == ProductIndex(b, id)
  {
  }

  /** Toggling the same product twice restores the catalog. */
  lemma ToggleTwice(ps: seq<Product>, id: string)
    requires InCatalog(ps, id)
    ensures InCatalog(Toggled(ps, id), id)
    ensures Toggled(Toggled(ps, id), id) == ps
  {
    var once := Toggled(ps, id);
    SameIdsSameIndex(ps, once, id);
    var i := ProductIndex(ps, id).value;
    assert once[i].id == id;
    var twice := Toggled(once, id);
    assert |twice| == |ps|;
    forall j | 0 <= j < |ps| ensures twice[j] == ps[j] {
    }
  }

  /** Deleting `id` does not change which product any other id finds. */
  lemma {:induction false} FindAfterDelete(ps: seq<Product>, id: string, other: string)
    requires other != id
    ensures FindProduct(Without(ps, id), other) == FindProduct(ps, other)
  {
    if ps != [] {
      var rest := Without(ps[1..], id);
      WithoutUnfold(ps, id);
      if ps[0].id == id {
        FindSkipsHead(ps, other);
        FindAfterDelete(ps[1..], id, other);
      } else if ps[0].id != other {
        var r := [ps[0]] + rest;
        assert r[1..] == rest;
        FindSkipsHead(ps, other);
        FindSkipsHead(r, other);
        FindAfterDelete(ps[1..], id, other);
      }
    }
  }

  /** One step of `Without`: the first product is dropped exactly when it carries `id`. */
  lemma WithoutUnfold(ps: seq<Product>, id: string)
    requires ps != []
    ensures Without(ps, id) == if ps[0].id == id then Without(ps[1..], id)
                               else [ps[0]] + Without(ps[1..], id)
  {
  }

  /** When the first product does not carry `id`, lookup continues in the rest. */
  lemma FindSkipsHead(ps: seq<Product>, id: string)
    requires ps != [] && ps[0].id != id
    ensures FindProduct(ps, id) == FindProduct(ps[1..], id)
  {
    var r := FindProduct(ps[1..], id);
    if r.Some? {
      var k := ProductIndex(ps[1..], id).value;
      assert ps[k + 1] == ps[1..][k];
      forall j | 0 <= j < k + 1 ensures ps[j].id != id {
        if j > 0 { assert ps[j] == ps[1..][j - 1]; }
      }
    } else {
      forall i | 0 <= i < |ps| ensures ps[i].id != id {
        if i > 0 { assert ps[i] == ps[1..][i - 1]; }
      }
    }
  }

  /** A product appended to the catalog appears at the end of the shopper view
      exactly when it is published. */
  lemma ShopperViewAppend(ps: seq<Product>, p: Product)
    ensures ShopperView(ps + [p]) == ShopperView(ps) + (if p.published then [p] else [])
  {
    FilterAppend(ps, [p], IsPublished);
    assert Filter([p], IsPublished) == (if p.published then [p] else []) by {
      assert [p][1..] == [];
    }
  }

  /** A product appended by the signed-in vendor appears at the end of that vendor's view. */
  lemma VendorViewAppend(ps: seq<Product>, s: Vendor, p: Product)
    requires p.vendorId == s.vendorId
    ensures VendorView(ps + [p], Some(s)) == VendorView(ps, Some(s)) + [p]
  {
    FilterAppend(ps, [p], OwnedBy(s.vendorId));
    assert Filter([p], OwnedBy(s.vendorId)) == [p] by {
      assert [p][1..] == [];
    }
  }

  /** A product appended under an id no product has is what that id now finds,
      and every other id finds what it found before. */
  lemma FindAfterAppend(ps: seq<Product>, p: Product, id: string)
    requires !InCatalog(ps, p.id)
    ensures FindProduct(ps + [p], id) == if id == p.id then Some(p) else FindProduct(ps, id)
  {
    var qs := ps + [p];
    if id == p.id {
      assert qs[|ps|] == p;
      forall j | 0 <= j < |ps| ensures qs[j].id != id {
        assert qs[j] == ps[j];
      }
    } else {
      match FindProduct(ps, id)
      case None =>
        forall j | 0 <= j < |qs| ensures qs[j].id != id {
          if j < |ps| { assert qs[j] == ps[j]; }
        }
      case Some(_) =>
        var k := ProductIndex(ps, id).value;
        assert qs[k] == ps[k];
        forall j | 0 <= j < k ensures qs[j].id != id {
          assert qs[j] == ps[j];
        }
    }
  }
}
