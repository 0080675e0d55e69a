# Storefront store model

A Dafny model of the in-memory store behind a browser-only storefront page
(`script.js`). The page keeps four pieces of state: the product catalog, the
shopper's cart, the list of vendor accounts and the signed-in vendor session.
Its event handlers change that state. Its render functions read it to show
the shopper's product grid, the vendor's own product list, and the cart
drawer's total and item count.

Layout, one module per file:

- `wrappers.dfy` (`Wrappers`): `Option`, for "a record or nothing".
- `seqs.dfy` (`Seqs`): the two array calls the page relies on. `FirstWhere` is
  `Array.prototype.find` (the first element passing a test). `Filter` is
  `Array.prototype.filter`. `IsSubsequence` is the reference notion of "a
  subset that keeps catalog order".
- `sums.dfy` (`Sums`): a sum over a finite set of keys. The page walks
  `Object.keys(cart)` in insertion order; `SumOverSplit` proves that the order
  does not change an integer sum.
- `vendors.dfy` (`Vendors`): vendor accounts and the credential lookup used by login.
- `catalog.dfy` (`Catalog`): product records, lookup by id, the publish
  toggle, deletion, and the shopper and vendor views.
- `cart.dfy` (`Cart`): the "add one" cart update, the cart count and the cart
  total, joined against the catalog.
- `store.dfy` (`Storefront`): class `Store`, holding the four fields, with one
  method per handler.

Later versions of this page, not modelled here, add quantity deltas,
existence checks, cascading deletion and case-folded login. `script.js`
behaves as follows, and so does the model:

- `addToCart` takes no quantity delta and does not check that the product exists or is published.
- `deleteProduct` leaves the cart entry of the deleted product in place.
- Login compares emails case-sensitively.
- Signup accepts a duplicate email.
- Products have no featured flag and no vendor display name.

## Model

| member | source | states |
|---|---|---|
| Seqs.FirstWhere | script.js:35 | `find`: the result is absent exactly when no element passes the test; otherwise it is an index whose element passes and no earlier element passes |
| Seqs.Filter | script.js:53 | `filter`: the result keeps exactly the passing elements, each as often as in the input, and is a subsequence of the input (catalog order kept) |
| Sums.SumOverSplit | script.js:34 | any key can be taken first, so the cart sum does not depend on the order in which the keys are visited |
| Vendors.FindVendor | script.js:123 | login lookup: absent exactly when no vendor has an identical email and password; otherwise it is the first such vendor |
| Vendors.FindAfterSignup | script.js:108-114 | after signup the new credentials are registered; when an earlier account has the same credentials, login still finds the earlier one, because duplicates are not rejected |
| Vendors.LoginIsCaseSensitive | script.js:123 | an email equal to no stored email character for character, for instance one that differs from a stored email only in letter case, finds no vendor, whatever the password |
| Catalog.ProductIndex | script.js:90 | the index `find` by id selects: absent exactly when no product has the id, otherwise the first product with it |
| Catalog.FindProduct | script.js:35 | the product `find` by id returns: absent exactly when no product has the id, otherwise the first product with it |
| Catalog.Toggled | script.js:89-91 | the found product's published flag is negated; all its other fields, every other product and the length are unchanged |
| Catalog.ToggleTwice | script.js:89-91 | toggling the same id twice restores the catalog |
| Catalog.Without | script.js:98 | after deletion no product has the id; every other product stays with as many copies as before, and the rest keep their relative order |
| Catalog.FindAfterDelete | script.js:98 | deleting one id does not change which product any other id finds |
| Catalog.ShopperView | script.js:53 | the shopper view holds exactly the published products, with their multiplicities, in catalog order |
| Catalog.VendorView | script.js:76-79 | empty with no session; otherwise exactly the products whose vendorId is the session's, in catalog order |
| Catalog.ShopperViewAppend | script.js:139-148 | a product appended to the catalog goes to the end of the shopper view exactly when it is published |
| Catalog.VendorViewAppend | script.js:139-148 | a product appended by the signed-in vendor goes to the end of that vendor's view |
| Catalog.FindAfterAppend | script.js:139-140 | a product appended under an unused id is what that id finds afterwards; every other id finds what it found before |
| Cart.AddOne | script.js:19 | the entry for the id becomes its old value plus one, a missing entry counting as 0; other entries are unchanged; the key set gains the id |
| Cart.AddAll | script.js:18-19 | a run of `addToCart` calls adds exactly the called ids to the key set |
| Cart.LineTotal | script.js:35-37 | one entry's part of the total: 0 when the id has no entry or finds no product, otherwise the first matching product's price times the quantity |
| Cart.CartTotal | script.js:33-37 | the total is the sum of the line totals over the cart's ids; it is 0 when no id finds a product, and non-negative when prices and quantities are |
| Cart.CartCount | script.js:41-42 | the count, a sum of all stored quantities, is non-negative when they are |
| Cart.CountAddOne | script.js:19 | one `addToCart` raises the count by exactly one |
| Cart.CountAfterAdds | script.js:19 | n `addToCart` calls raise the count by n; from an empty cart the count is n |
| Cart.TotalAddOne | script.js:33-37 | one `addToCart` raises the total by the unit price of the product the id finds, or by 0 when none exists |
| Cart.TotalAfterDelete | script.js:33-37 | deleting a product lowers the total by exactly its line (price × quantity) and the stale entry then contributes 0 |
| Cart.StaleEntry | script.js:35-36 | an entry whose id finds no product adds nothing to the total but still counts its quantity |
| Cart.EmptyCart | script.js:24-27 | an emptied cart shows count 0 and total 0 |
| Storefront.Store.constructor | script.js:7-8 | the store starts from the loaded catalog, cart, vendor list and session |
| Storefront.Store.AddToCart | script.js:18-19 | the cart becomes `AddOne` of the old cart; catalog, vendors and session are unchanged |
| Storefront.Store.ClearCart | script.js:24-25 | the cart becomes empty whatever it held; nothing else changes |
| Storefront.Store.ComputeCartTotal | script.js:33-37 | the loop's result is the cart total: the sum of price × quantity over ids that find a product |
| Storefront.Store.TogglePublish | script.js:89-91 | requires a product with the id; the catalog becomes `Toggled`; cart, vendors and session are unchanged |
| Storefront.Store.DeleteProduct | script.js:97-98 | the catalog becomes `Without` the id; the cart is not modified |
| Storefront.Store.Signup | script.js:105-115 | exactly one vendor is appended, duplicates included; nothing else changes |
| Storefront.Store.Login | script.js:120-125 | succeeds exactly when some vendor has an identical email and password, then the session is the first such vendor; otherwise the session is unchanged |
| Storefront.Store.Logout | script.js:129-130 | no session afterwards; nothing else changes |
| Storefront.Store.AddProduct | script.js:134-148 | with no session the catalog is unchanged; with one, exactly one product is appended, owned by the session's vendor, published exactly when the form says "yes" |

## Left out

- Local-storage reads and writes and the JSON (de)serialisation (script.js:7-11, 66-68, 125, 130) are I/O. The fields hold the stored state directly, and the constructor takes the loaded state.
- The page re-reads the vendor list and session from storage on each use. The model keeps them in fields, which is the same while one tab owns the storage. Two tabs racing on the same storage are not modelled.
- All DOM work (`innerHTML` templates, `textContent`, `scrollToSection`, `openCart`, `alert`, form reset) is UI. The "Invalid" and "Login first" alerts appear as a `false` result of `Login` and `AddProduct`.
- `Date.now()`-based ids are a non-deterministic foreign call. They are method parameters, and no freshness is required, because the source does not check it either.
- The `+f.price.value` string-to-number conversion and floating-point prices are not modelled: prices are integers.
- Commission split, delivery fee, quantity deltas, stale-entry normalisation and checkout are not in `script.js` and are not part of this model.
- Storefront.Store.TogglePublish: the error path is dropped. When no product has the id, the page throws a TypeError at script.js:91 and nothing is saved or re-rendered. The model requires a product with that id instead. The only callers, the buttons rendered at script.js:79-83, pass only ids of listed products.
- Cart.CartCount: the cart count exists only as a specification function. The page computes it with a `reduce` (script.js:41-42), which involves no loop of its own, so there is no counting method. Its properties are the lemmas CountAddOne, CountAfterAdds and StaleEntry.
- Storefront.Store.ComputeCartTotal: the keys are visited in an arbitrary order rather than JavaScript's insertion order. For an integer sum the two agree (Sums.SumOverSplit).
