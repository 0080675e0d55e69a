/** The storefront's module-level state and its event handlers (script.js).
    The four fields are what the page keeps in memory and mirrors to local
    storage; each method is one handler's effect on them. */
module Storefront {
  import opened Wrappers
  import opened Sums
  import opened Vendors
  import opened Catalog
  import opened Cart

  class Store {
    var products: seq<Product>
    var cart: map<string, int>
    var vendors: seq<Vendor>
    var session: Option<Vendor>

    /** The state as loaded at page start-up. */
    constructor (products: seq<Product>, cart: map<string, int>, vendors: seq<Vendor>, session: Option<Vendor>)
      ensures this.products == products && this.cart == cart
      ensures this.vendors == vendors && this.session == session
    {
      this.products := products;
      this.cart := cart;
      this.vendors := vendors;
      this.session := session;
    }

    /** `addToCart(id)`: one more unit of `id`, whether or not such a product exists. */
    method AddToCart(id: string)
      modifies this
      ensures cart == AddOne(old(cart), id)
      ensures products == old(products) && vendors == old(vendors) && session == old(session)
    {
      cart := AddOne(cart, id);
    }

    /** `clearCart()`: the cart becomes empty, whatever it held. */
    method ClearCart()
      modifies this
      ensures cart == map[]
      ensures products == old(products) && vendors == old(vendors) && session == old(session)
    {
      cart := map[];
    }

    /** The total that `renderCart` accumulates: for each cart id, the first
        product with that id contributes price times quantity; ids without a
        product are skipped. The keys are visited in an arbitrary order, which
        covers the insertion order JavaScript uses. */
    method ComputeCartTotal() returns (total: int)
      ensures total == CartTotal(products, cart)
    {
      var ps, c := products, cart;
      var pending := c.Keys;
      total := 0;
      while pending != {}
        invariant pending <= c.Keys
        invariant total + SumOver(pending, Line(ps, c)) == CartTotal(ps, c)
        decreases pending
      {
        var id :| id in pending;
        var p := FindProduct(ps, id);
        if p.Some? {
          total := total + p.value.price * c[id];
        }
        SumOverSplit(pending, Line(ps, c), id);
        pending := pending - {id};
      }
    }

    /** `togglePublish(id)`: the source dereferences the found product
        unconditionally, so a product with that id must exist. */
    method TogglePublish(id: string)
      requires InCatalog(products, id)
      modifies this
      ensures products == Toggled(old(products), id)
      ensures cart == old(cart) && vendors == old(vendors) && session == old(session)
    {
      products := Toggled(products, id);
    }

    /** `deleteProduct(id)`: the products with that id leave the catalog; the
        cart keeps its entry for the id. */
    method DeleteProduct(id: string)
      modifies this
      ensures products == Without(old(products), id)
      ensures cart == old(cart) && vendors == old(vendors) && session == old(session)
    {
      products := Without(products, id);
    }

    /** The signup form: appends the new vendor. Duplicate emails are not rejected.
        `vendorId` stands for the time-based id the page generates. */
    method Signup(vendorId: string, shop: string, email: string, password: string)
      modifies this
      ensures vendors == old(vendors) + [Vendor(vendorId, shop, email, password)]
      ensures products == old(products) && cart == old(cart) && session == old(session)
    {
      vendors := vendors + [Vendor(vendorId, shop, email, password)];
    }

    /** The login form: the first vendor with exactly this email and password
        becomes the session; without one, `ok` is false (the "Invalid" message)
        and the session stays as it was. */
    method Login(email: string, password: string) returns (ok: bool)
      modifies this
      ensures ok == Registered(vendors, email, password)
      ensures ok ==> session == FindVendor(vendors, email, password)
      ensures !ok ==> session == old(session)
      ensures products == old(products) && cart == old(cart) && vendors == old(vendors)
    {
      var v := FindVendor(vendors, email, password);
      ok := v.Some?;
      if ok {
        session := v;
      }
    }

    /** The logout button: no vendor is signed in afterwards. */
    method Logout()
      modifies this
      ensures session == None
      ensures products == old(products) && cart == old(cart) && vendors == old(vendors)
    {
      session := None;
    }

    /** The vendor product form. Without a session nothing changes and `ok` is
        false (the "Login first" message); with one, exactly one product is
        appended, owned by the session's vendor and published exactly when the
        form's choice is "yes". `id` stands for the time-based id the page generates. */
    method AddProduct(id: string, name: string, price: int, category: string, img: string,
                      desc: string, publishedChoice: string) returns (ok: bool)
      modifies this
      ensures ok == old(session).Some?
      ensures !ok ==> products == old(products)
      ensures ok ==>
                products == old(products) + [Product(id, name, price, category, img, desc, publishedChoice == "yes", old(session).value.vendorId)]
      ensures cart == old(cart) && vendors == old(vendors) && session == old(session)
    {
      match session
      case None =>
        ok := false;
      case Some(s) =>
        products := products + [Product(id, name, price, category, img, desc, publishedChoice == "yes", s.vendorId)];
        ok := true;
    }
  }
}
