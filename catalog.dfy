/** Reading the product collection: the listing of `/products`
    (server.js:127) and the dereferencing of a cart by `.populate('cart')`
    in `/cart/:userID` (server.js:161). */
module Catalog {
  import opened Records
  import opened Carts

  /** The products whose ids are below `n`, in ascending id order. The store
      hands out ids in increasing order, so this is insertion order. */
  function Listing(catalog: map<ProductId, Product>, n: nat): (r: seq<Product>)
    requires CatalogKeyed(catalog)
    ensures forall p :: p in r ==> p.id < n && p.id in catalog && catalog[p.id] == p
    ensures forall id :: id in catalog && id < n ==> catalog[id] in r
  {
    if n == 0 then []
    else Listing(catalog, n - 1) + (if n - 1 in catalog then [catalog[n - 1]] else [])
  }

  /** The listing is strictly ascending by id, so no product appears twice. */
  lemma {:induction false} ListingAscending(catalog: map<ProductId, Product>, n: nat)
    requires CatalogKeyed(catalog)
    ensures forall i, j :: 0 <= i < j < |Listing(catalog, n)| ==>
              Listing(catalog, n)[i].id < Listing(catalog, n)[j].id
  {
    if n > 0 {
      ListingAscending(catalog, n - 1);
      var prev := Listing(catalog, n - 1);
      assert forall k :: 0 <= k < |prev| ==> prev[k] in prev;
    }
  }

  /** The listing has one entry per stored product with an id below `n`. */
  lemma {:induction false} ListingCount(catalog: map<ProductId, Product>, n: nat)
    requires CatalogKeyed(catalog)
    ensures |Listing(catalog, n)| == |set id | id in catalog && id < n|
  {
    if n == 0 {
      assert (set id | id in catalog && id < n) == {};
    } else {
      ListingCount(catalog, n - 1);
      var below := set id | id in catalog && id < n - 1;
      if n - 1 in catalog {
        assert (set id | id in catalog && id < n) == below + {n - 1};
      } else {
        assert (set id | id in catalog && id < n) == below;
      }
    }
  }

  /** `.populate('cart')`: each id of the cart replaced by its product, in cart
      order; an id whose product has been removed is left out. */
  function Populate(cart: seq<ProductId>, catalog: map<ProductId, Product>): (r: seq<Product>)
    requires CatalogKeyed(catalog)
    ensures |r| <= |cart|
    ensures forall p :: p in r ==> p.id in cart && p.id in catalog && catalog[p.id] == p
    ensures forall id :: id in cart && id in catalog ==> catalog[id] in r
  {
    if cart == [] then []
    else (if cart[0] in catalog then [catalog[cart[0]]] else []) + Populate(cart[1..], catalog)
  }

  /** When no reference dangles, the result has one product per cart entry, in cart order. */
  lemma {:induction false} PopulateInOrder(cart: seq<ProductId>, catalog: map<ProductId, Product>)
    requires CatalogKeyed(catalog)
    requires forall id :: id in cart ==> id in catalog
    ensures |Populate(cart, catalog)| == |cart|
    ensures forall i :: 0 <= i < |cart| ==> Populate(cart, catalog)[i] == catalog[cart[i]]
  {
    if cart != [] {
      assert forall id :: id in cart[1..] ==> id in cart;
      PopulateInOrder(cart[1..], catalog);
    }
  }

  /** A removed product drops out of every cart view as if its id had been
      filtered out of the cart: a dangling reference is silently omitted. */
  lemma {:induction false} PopulateAfterRemove(cart: seq<ProductId>, catalog: map<ProductId, Product>, id: ProductId)
    requires CatalogKeyed(catalog)
    ensures Populate(cart, catalog - {id}) == Populate(Without(cart, id), catalog)
  {
    if cart != [] {
      PopulateAfterRemove(cart[1..], catalog, id);
      var rest := Without(cart[1..], id);
      if cart[0] != id {
        assert Without(cart, id) == [cart[0]] + rest;
        assert Without(cart, id)[1..] == rest;
      } else {
        assert Without(cart, id) == rest;
      }
    }
  }

  /** A duplicate-free cart shows every product at most once. */
  lemma {:induction false} PopulateNoRepeats(cart: seq<ProductId>, catalog: map<ProductId, Product>)
    requires CatalogKeyed(catalog) && NoDuplicates(cart)
    ensures forall i, j :: 0 <= i < j < |Populate(cart, catalog)| ==>
              Populate(cart, catalog)[i] != Populate(cart, catalog)[j]
  {
    if cart != [] {
      var rest := Populate(cart[1..], catalog);
      assert NoDuplicates(cart[1..]);
      PopulateNoRepeats(cart[1..], catalog);
      assert cart[0] !in cart[1..] by {
        forall j | 0 <= j < |cart[1..]| ensures cart[1..][j] != cart[0] {
          assert cart[1..][j] == cart[j + 1];
        }
      }
      assert forall k :: 0 <= k < |rest| ==> rest[k] in rest;
    }
  }
}
