/** The documents the backend stores and the values its handlers return.
    HTTP status codes are replaced by the constructors of `Error`. */
module Records {

  datatype Option<+T> = None | Some(value: T)

  /** The failure kinds a handler can report. */
  datatype Error =
    | ValidationErr   // a required request field is missing or falsy (400)
    | SchemaErr       // the document store's schema rejected the document on save (500)
    | Conflict        // the unique index on `userID` rejected the insert (500)
    | AuthErr         // no account has this exact (userID, pin) pair (400)
    | NotFound        // no account has this userID (400)
    | NotifyErr       // the credential e-mail could not be sent (500)

  datatype Result<+T> = Ok(value: T) | Err(error: Error)

  /** The `enum: ['admin','buyer']` of the user schema. */
  datatype Role = Admin | Buyer

  /** Product documents are keyed by an identifier the store generates. */
  type ProductId = nat

  /** A user document; `createdAt` is not modelled. */
  datatype Account = Account(
    fullName: string,
    email: string,
    role: Role,
    userID: string,
    pin: string,
    cart: seq<ProductId>)

  /** A product document together with its store-generated `_id`. */
  datatype Product = Product(
    id: ProductId,
    name: string,
    description: Option<string>,
    price: real,
    quantity: real)

  /** What a successful registration hands back to the caller. */
  datatype Credentials = Credentials(userID: string, pin: string)

  /** What a successful login hands back to the caller. */
  datatype LoginInfo = LoginInfo(role: Role, userID: string)

  /** The `{ id, role }` written into the server-side session at login. */
  datatype Session = Session(userID: string, role: Role)

  /** The spelling of a role in the schema's enum. */
  function RoleName(role: Role): string {
    match role
    case Admin => "admin"
    case Buyer => "buyer"
  }

  /** The schema's enum check on `role`: only the exact strings "admin" and "buyer" are accepted. */
  function ParseRole(s: string): (r: Option<Role>)
    ensures r.Some? <==> s == "admin" || s == "buyer"
    ensures r.Some? ==> RoleName(r.value) == s
  {
    if s == "admin" then Some(Admin)
    else if s == "buyer" then Some(Buyer)
    else None
  }

  lemma ParseRoleName(role: Role)
    ensures ParseRole(RoleName(role)) == Some(role)
  {
  }

  /** Every product is stored under its own id. */
  ghost predicate CatalogKeyed(catalog: map<ProductId, Product>) {
    forall id :: id in catalog ==> catalog[id].id == id
  }

  /** Every account is stored under its own userID, so the map's keys are the unique index. */
  ghost predicate AccountsKeyed(accounts: map<string, Account>) {
    forall u :: u in accounts ==> accounts[u].userID == u
  }
}
