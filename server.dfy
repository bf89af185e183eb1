/** The request handlers of server.js as operations on one store object
    holding the user collection, the product collection and the session of
    the last login. Each handler returns a `Result` in place of an HTTP
    status. */
module Server {
  import opened Records
  import opened CredentialGenerator
  import opened Validation
  import opened Carts
  import opened Catalog
  import opened Registry

  class Shop {
    /** The user collection, keyed by its unique `userID` field. */
    var accounts: map<string, Account>
    /** The product collection, keyed by the store-generated id. */
    var catalog: map<ProductId, Product>
    /** The id the store hands to the next product it saves. */
    var nextProductId: nat
    /** The `{ id, role }` that the last successful login wrote to the session. */
    var session: Option<Session>

    ghost predicate Valid()
      reads this
    {
      && AccountsKeyed(accounts)
      && (forall u :: u in accounts ==> WellFormed(accounts[u]))
      && CatalogKeyed(catalog)
      && (forall id :: id in catalog ==> id < nextProductId)
      && (session.Some? ==>
            session.value.userID in accounts && accounts[session.value.userID].role == session.value.role)
    }

    constructor ()
      ensures Valid()
      ensures accounts == map[] && catalog == map[] && nextProductId == 0 && session == None
    {
      accounts := map[];
      catalog := map[];
      nextProductId := 0;
      session := None;
    }

    /** POST /register (server.js:70-90). `randomBytes` stands for
        `crypto.randomBytes(3)`, `random` for `Math.random()`, and
        `mailDelivered` for whether `sendMail` succeeded. */
    method Register(fullName: Option<string>, email: Option<string>, role: Option<string>,
                    randomBytes: seq<Byte>, random: real, mailDelivered: bool)
      returns (r: Result<Credentials>)
      requires Valid()
      requires |randomBytes| == 3 && 0.0 <= random < 1.0
      modifies this`accounts
      ensures Valid()
      // the guard of line 73
      ensures !RegistrationFieldsPresent(fullName, email, role) ==>
                r == Err(ValidationErr) && accounts == old(accounts)
      // the schema's enum check on `role` when saving
      ensures RegistrationFieldsPresent(fullName, email, role) && ParseRole(role.value).None? ==>
                r == Err(SchemaErr) && accounts == old(accounts)
      // the unique index on `userID`: no retry
      ensures RegistrationFieldsPresent(fullName, email, role) && ParseRole(role.value).Some? &&
              MakeUserId(randomBytes) in old(accounts) ==>
                r == Err(Conflict) && accounts == old(accounts)
      // the account is saved before the e-mail is sent, and stays saved if sending fails
      ensures RegistrationFieldsPresent(fullName, email, role) && ParseRole(role.value).Some? &&
              MakeUserId(randomBytes) !in old(accounts) ==>
                var id := MakeUserId(randomBytes);
                var pin := MakePin(random);
                && accounts == old(accounts)[id := Account(fullName.value, email.value, ParseRole(role.value).value, id, pin, [])]
                && accounts.Keys == old(accounts).Keys + {id}
                && r == (if mailDelivered then Ok(Credentials(id, pin)) else Err(NotifyErr))
      ensures r.Ok? ==> IsUserIdFormat(r.value.userID) && IsPinFormat(r.value.pin) && r.value.userID !in old(accounts)
    {
      if !RegistrationFieldsPresent(fullName, email, role) {
        return Err(ValidationErr);
      }
      var userID := MakeUserId(randomBytes);
      var pin := MakePin(random);
      var parsedRole := ParseRole(role.value);
      if parsedRole.None? {
        return Err(SchemaErr);
      }
      if userID in accounts {
        return Err(Conflict);
      }
      accounts := accounts[userID := Account(fullName.value, email.value, parsedRole.value, userID, pin, [])];
      if !mailDelivered {
        return Err(NotifyErr);
      }
      r := Ok(Credentials(userID, pin));
    }

    /** POST /login (server.js:93-102). */
    method Login(userID: string, pin: string) returns (r: Result<LoginInfo>)
      requires Valid()
      modifies this`session
      ensures Valid()
      ensures r.Ok? <==> exists u :: u in accounts && accounts[u].userID == userID && accounts[u].pin == pin
      ensures r.Ok? ==>
                && r.value == LoginInfo(accounts[userID].role, userID)
                && session == Some(Session(userID, accounts[userID].role))
      ensures r.Err? ==> r.error == AuthErr && session == old(session)
    {
      var found := FindByCredentials(accounts, userID, pin);
      if found.None? {
        return Err(AuthErr);
      }
      var user := found.value;
      session := Some(Session(user.userID, user.role));
      r := Ok(LoginInfo(user.role, user.userID));
    }

    /** POST /product/add (server.js:105-114): the saved product, id included. */
    method AddProduct(name: Option<string>, description: Option<string>, price: Option<real>, quantity: Option<real>)
      returns (r: Result<Product>)
      requires Valid()
      modifies this`catalog, this`nextProductId
      ensures Valid()
      ensures !ProductFieldsPresent(name, price, quantity) ==>
                r == Err(ValidationErr) && catalog == old(catalog) && nextProductId == old(nextProductId)
      ensures ProductFieldsPresent(name, price, quantity) ==>
                && r == Ok(Product(old(nextProductId), name.value, description, price.value, quantity.value))
                && r.value.id !in old(catalog)
                && catalog == old(catalog)[r.value.id := r.value]
                && nextProductId == old(nextProductId) + 1
    {
      if !ProductFieldsPresent(name, price, quantity) {
        return Err(ValidationErr);
      }
      var product := Product(nextProductId, name.value, description, price.value, quantity.value);
      catalog := catalog[product.id := product];
      nextProductId := nextProductId + 1;
      r := Ok(product);
    }

    /** DELETE /product/remove/:id (server.js:117-122): succeeds whether or not
        the id exists; carts that hold the id are not touched. */
    method RemoveProduct(id: ProductId) returns (r: Result<()>)
      requires Valid()
      modifies this`catalog
      ensures Valid()
      ensures r == Ok(())
      ensures id !in catalog
      ensures catalog == old(catalog) - {id}
    {
      catalog := catalog - {id};
      r := Ok(());
    }

    /** GET /products (server.js:125-130). */
    method ListProducts() returns (products: seq<Product>)
      requires Valid()
      ensures forall p :: p in products <==> p in catalog.Values
      ensures forall i, j :: 0 <= i < j < |products| ==> products[i].id < products[j].id
      ensures |products| == |catalog|
    {
      products := Listing(catalog, nextProductId);
      ListingAscending(catalog, nextProductId);
      ListingCount(catalog, nextProductId);
      assert (set id | id in catalog && id < nextProductId) == catalog.Keys;
    }

    /** POST /cart/add (server.js:133-143). The product id is not looked up
        in the catalog. */
    method AddToCart(userID: string, productID: ProductId) returns (r: Result<()>)
      requires Valid()
      modifies this`accounts
      ensures Valid()
      ensures userID !in old(accounts) ==> r == Err(NotFound) && accounts == old(accounts)
      ensures userID in old(accounts) ==>
                && r == Ok(())
                && accounts == old(accounts)[userID := old(accounts)[userID].(cart := AddOnce(old(accounts)[userID].cart, productID))]
    {
      var found := FindByUserId(accounts, userID);
      if found.None? {
        return Err(NotFound);
      }
      var user := found.value;
      if productID !in user.cart {
        user := user.(cart := user.cart + [productID]);
      }
      accounts := accounts[userID := user];
      r := Ok(());
    }

    /** POST /cart/remove (server.js:146-156). */
    method RemoveFromCart(userID: string, productID: ProductId) returns (r: Result<()>)
      requires Valid()
      modifies this`accounts
      ensures Valid()
      ensures userID !in old(accounts) ==> r == Err(NotFound) && accounts == old(accounts)
      ensures userID in old(accounts) ==>
                && r == Ok(())
                && accounts == old(accounts)[userID := old(accounts)[userID].(cart := Without(old(accounts)[userID].cart, productID))]
    {
      var found := FindByUserId(accounts, userID);
      if found.None? {
        return Err(NotFound);
      }
      var user := found.value;
      WithoutNoDuplicates(user.cart, productID);
      user := user.(cart := Without(user.cart, productID));
      accounts := accounts[userID := user];
      r := Ok(());
    }

    /** GET /cart/:userID (server.js:159-165). */
    method GetCart(userID: string) returns (r: Result<seq<Product>>)
      requires Valid()
      ensures userID !in accounts <==> r == Err(NotFound)
      ensures userID in accounts ==> r == Ok(Populate(accounts[userID].cart, catalog))
    {
      var found := FindByUserId(accounts, userID);
      if found.None? {
        return Err(NotFound);
      }
      r := Ok(Populate(found.value.cart, catalog));
    }
  }
}
