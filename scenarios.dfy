/** End-to-end runs of the handlers on a fresh store, for any outcome of the
    random sources. */
module Scenarios {
  import opened Records
  import opened CredentialGenerator
  import opened Server

  /** Register a buyer, log in with the issued credentials, add a Widget and
      put it in the cart twice: the cart shows exactly one Widget. */
  method WidgetInCartOnce(randomBytes: seq<Byte>, random: real)
      returns (login: Result<LoginInfo>, cart: Result<seq<Product>>)
    requires |randomBytes| == 3 && 0.0 <= random < 1.0
    ensures login == Ok(LoginInfo(Buyer, MakeUserId(randomBytes)))
    ensures cart.Ok? && |cart.value| == 1
    ensures cart.value[0].name == "Widget" && cart.value[0].price == 10.0 && cart.value[0].quantity == 5.0
  {
    var shop := new Shop();
    var issued := shop.Register(Some("A"), Some("a@x.com"), Some("buyer"), randomBytes, random, true);
    var creds := issued.value;
    login := shop.Login(creds.userID, creds.pin);
    var added := shop.AddProduct(Some("Widget"), None, Some(10.0), Some(5.0));
    var widget := added.value;
    var first := shop.AddToCart(creds.userID, widget.id);
    var second := shop.AddToCart(creds.userID, widget.id);
    cart := shop.GetCart(creds.userID);
    assert shop.accounts[creds.userID].cart == [widget.id];
  }

  /** Remove a product that sits in a cart: the listing no longer shows it,
      the cart still holds its id, and viewing the cart leaves it out. */
  method RemovedProductDangles(randomBytes: seq<Byte>, random: real)
      returns (id: ProductId, listed: seq<Product>, cartIds: seq<ProductId>, cart: Result<seq<Product>>)
    requires |randomBytes| == 3 && 0.0 <= random < 1.0
    ensures listed == []
    ensures cartIds == [id]
    ensures cart == Ok([])
  {
    var shop := new Shop();
    var issued := shop.Register(Some("A"), Some("a@x.com"), Some("buyer"), randomBytes, random, true);
    var userID := issued.value.userID;
    var added := shop.AddProduct(Some("Widget"), None, Some(10.0), Some(5.0));
    id := added.value.id;
    var ok := shop.AddToCart(userID, id);
    var removed := shop.RemoveProduct(id);
    listed := shop.ListProducts();
    cartIds := shop.accounts[userID].cart;
    cart := shop.GetCart(userID);
  }

  /** A zero price is falsy, so the product is rejected and nothing is stored. */
  method ZeroPriceRejected() returns (r: Result<Product>, listed: seq<Product>)
    ensures r == Err(ValidationErr)
    ensures listed == []
  {
    var shop := new Shop();
    r := shop.AddProduct(Some("Freebie"), Some("costs nothing"), Some(0.0), Some(3.0));
    listed := shop.ListProducts();
  }
}
