# Identity-and-cart model of a small e-commerce backend

This project models the request handlers of `server.js`, an Express/Mongoose
backend, in Dafny. Without the HTTP and database layers, those handlers work on
two collections:

- the **user collection**. Each account holds a full name, an e-mail, a role
  (`admin` or `buyer`), a generated `userID` (a unique index), a generated
  four-digit `pin`, and a cart of product ids.
- the **product collection**. Each product has a store-generated id, a name, an
  optional description, a price and a quantity.

The store is the class `Server.Shop`. It has one field per collection (a
`map` keyed by `userID` and a `map` keyed by product id), the counter the store
uses to issue product ids, and the session value that the last successful login
wrote. Each handler is a method that returns a `Result` in place of an HTTP
status. The errors are `ValidationErr`, `SchemaErr`, `Conflict`, `AuthErr`,
`NotFound` and `NotifyErr`. `Shop.Valid()` is the invariant that every method
keeps:

- every account is stored under its own `userID`, so `userID` is unique;
- every `userID` is `"ID"` followed by six upper-case hex digits;
- every PIN is the decimal string of a number from 1000 to 9999;
- every name and e-mail is non-empty;
- no cart holds the same product id twice;
- every product is stored under its own id, and that id is below the next id
  the store will issue;
- the session, if there is one, names an existing account with that account's role.

The pure parts are separate modules:

- `CredentialGenerator` builds the credential strings. It also proves that they
  can be parsed back, in both directions.
- `Validation` holds the truthiness guards.
- `Registry` holds the `findOne` lookups.
- `Carts` holds the guarded push and the filter applied to a cart.
- `Catalog` holds the product listing and the `populate` step that turns a
  cart's ids into products.

The random sources arrive as parameters:

- `crypto.randomBytes(3)` is a three-byte sequence;
- `Math.random()` is a real in `[0, 1)`;
- `sendMail` is a boolean that says whether sending succeeded.

Points of the code's behaviour that the model keeps as written:

- **Colliding `userID`.** There is no retry. The unique index on `userID`
  rejects the save (server.js:79), and the request fails (`Conflict`).
- **Failed e-mail.** `sendMail` is awaited inside the same `try` as the save
  (server.js:79-86). If it fails, the account stays saved, but the caller gets an
  error (`NotifyErr`).
- **Price and quantity checks.** For numeric request values, the guard at
  server.js:108 checks only truthiness. A zero or missing price or quantity is
  rejected; a negative one is accepted.
- **Unknown role.** A role outside `admin`/`buyer` passes the truthiness guard.
  The schema's enum validator then rejects it when saving (`SchemaErr`).
- **Dangling cart entries.** Removing a product does not touch the carts that
  hold its id. Mongoose's `populate` drops ids whose product is gone and keeps
  cart order. `Catalog.PopulateAfterRemove` shows that reading a cart after a
  product was removed gives the same products as reading it with that id
  filtered out.

## Model

| member | source | states |
|---|---|---|
| `Records.ParseRole` | server.js:49 | the schema accepts a role exactly when it is the string "admin" or "buyer", and the accepted role spells back to that string |
| `Records.ParseRoleName` | server.js:49 | each role's enum spelling parses back to that role |
| `CredentialGenerator.HexDigit` | server.js:75 | each nibble 0..15 is written as one lower-case hex digit, `0`-`9` then `a`-`f`, as Buffer's 'hex' encoding does |
| `CredentialGenerator.HexEncode` | server.js:75 | the hex encoding of the random bytes has two lower-case hex digits per byte |
| `CredentialGenerator.ToUpperCase` | server.js:75 | upper-casing keeps the length and upper-cases each character in place |
| `CredentialGenerator.MakeUserId` | server.js:75 | every issued `userID` is "ID" followed by exactly six upper-case hex digits |
| `CredentialGenerator.ParseUserId` | server.js:75 | a string can be read back into three bytes exactly when it has the `userID` format |
| `CredentialGenerator.HexRoundTrip` | server.js:75 | decoding the upper-cased hex of any bytes gives back those bytes |
| `CredentialGenerator.HexRoundTripUpper` | server.js:75 | encoding the decoded bytes of an upper-case hex string gives back that string |
| `CredentialGenerator.UserIdRoundTrip` | server.js:75 | parsing an issued `userID` gives back the random bytes it was built from |
| `CredentialGenerator.UserIdOnto` | server.js:75 | every string of the `userID` format is issued for some three random bytes |
| `CredentialGenerator.UserIdInjective` | server.js:75 | different random draws give different identifiers |
| `CredentialGenerator.PinNumber` | server.js:76 | `floor(1000 + r*9000)` lies in 1000..9999 for every r in [0, 1) |
| `CredentialGenerator.PinNumberOnto` | server.js:76 | every number in 1000..9999 is drawn for some r in [0, 1) |
| `CredentialGenerator.DecimalString` | server.js:76 | `toString()` of a number is a non-empty digit string with no leading zero when the number is 10 or more |
| `CredentialGenerator.DecimalRoundTrip` | server.js:76 | reading back the decimal string of a number gives that number |
| `CredentialGenerator.DecimalRoundTripCanonical` | server.js:76 | a digit string without leading zeros is the decimal string of the number it denotes |
| `CredentialGenerator.PinDigits` | server.js:76 | the decimal string of n has the PIN format (four digits, first not zero) if and only if n is in 1000..9999 |
| `CredentialGenerator.PinFormatValue` | server.js:76 | a string of the PIN format denotes a number in 1000..9999 |
| `CredentialGenerator.MakePin` | server.js:76 | every issued PIN has the PIN format |
| `CredentialGenerator.PinFormatIssued` | server.js:76 | a string can be issued as a PIN if and only if it has the PIN format |
| `Carts.AddOnce` | server.js:139 | the guarded push leaves the id in the cart, adds no other id, keeps the old cart as a prefix, grows it by at most one, and keeps it duplicate-free |
| `Carts.AddOnceIdempotent` | server.js:139 | a second add of the same id changes nothing |
| `Carts.Without` | server.js:152 | after the filter, an id is in the cart if and only if it was there before and is not the removed id |
| `Carts.WithoutAppend` | server.js:152 | the filter distributes over concatenation, so the kept ids stay in their relative order |
| `Carts.WithoutAbsent` | server.js:152 | removing an id that is not in the cart leaves the cart unchanged |
| `Carts.WithoutIdempotent` | server.js:152 | removing twice is the same as removing once |
| `Carts.WithoutNoDuplicates` | server.js:152 | the filter keeps a cart duplicate-free |
| `Carts.WithoutAt` | server.js:152 | in a duplicate-free cart, removing the id at position i deletes exactly that position |
| `Carts.OnlyAt` | server.js:139 | in a duplicate-free cart, the id at a position occurs at no other position |
| `Carts.WithoutSingle` | server.js:152 | filtering an id that occurs once, between parts that lack it, gives the two parts joined |
| `Carts.AddThenRemove` | server.js:139-152 | removing an id after adding it equals removing it outright, and gives back the original cart when the id was absent |
| `Catalog.Listing` | server.js:127 | the listing holds exactly the stored products, each at its own id |
| `Catalog.ListingAscending` | server.js:127 | the listing is strictly ascending by id, which is insertion order |
| `Catalog.ListingCount` | server.js:127 | the listing has one entry per stored product |
| `Catalog.Populate` | server.js:161 | the populated cart holds only stored products whose ids are in the cart, and every stored product the cart refers to |
| `Catalog.PopulateInOrder` | server.js:161 | with no dangling id, the populated cart has one product per cart entry, in cart order |
| `Catalog.PopulateAfterRemove` | server.js:161 | after a product is removed, populating any cart equals populating it with that id filtered out: dangling ids are silently left out |
| `Catalog.PopulateNoRepeats` | server.js:161 | a duplicate-free cart shows each product at most once |
| `Validation.Present` | server.js:73 | a string field is truthy exactly when it is present and not the empty string |
| `Validation.NonZero` | server.js:108 | a numeric field is truthy exactly when it is present and not zero |
| `Validation.RegistrationFieldsPresent` | server.js:73 | registration passes its guard exactly when `fullName`, `email` and `role` are all truthy |
| `Validation.ProductFieldsPresent` | server.js:108 | a product passes its guard exactly when `name`, `price` and `quantity` are all truthy; `description` is not checked |
| `Registry.WellFormed` | server.js:46-54 | a stored account has a `userID` of the generator's format, a PIN of the four-digit format, a truthy name and e-mail, and a duplicate-free cart |
| `Registry.FindByCredentials` | server.js:96 | the lookup finds an account if and only if some account has exactly this `userID` and this `pin`, and then returns that account |
| `Registry.FindByUserId` | server.js:136 | the lookup finds an account if and only if some account has this `userID`, and then returns that account |
| `Registry.CredentialsNarrowUserId` | server.js:96-97 | a successful login finds the account of that `userID`; for a known `userID`, login fails exactly when the PIN differs |
| `Server.Shop.Valid` | server.js:46-64 | the invariant every handler keeps: each account is stored under its own `userID` (the unique index), every account is well formed, each product is stored under its own id below the next id to issue, and the session names an existing account with that account's role |
| `Server.Shop.constructor` | server.js:46-64 | a new store has no accounts, no products and no session, and satisfies the invariant |
| `Server.Shop.Register` | server.js:70-90 | a falsy `fullName`, `email` or `role` gives a validation error and changes nothing; a role outside the enum gives a schema error and changes nothing; a `userID` already present gives a conflict and changes nothing; otherwise exactly one account is added, with an empty cart, the given fields and credentials of the generator's format, before the e-mail outcome decides between success and `NotifyErr` |
| `Server.Shop.Login` | server.js:93-102 | login succeeds if and only if some account has exactly this (`userID`, `pin`) pair; it then returns that account's role and `userID` and records them as the session; otherwise it fails with the same `AuthErr` and the session is unchanged |
| `Server.Shop.AddProduct` | server.js:105-114 | a falsy name, price or quantity (zero included) gives a validation error and changes nothing; otherwise exactly one product, with a fresh id and the given fields, is added and returned |
| `Server.Shop.RemoveProduct` | server.js:117-122 | removal always returns `Ok`, whether or not the id exists; afterwards the id is absent and every other product is unchanged |
| `Server.Shop.ListProducts` | server.js:125-130 | the result holds every stored product exactly once, in insertion order |
| `Server.Shop.AddToCart` | server.js:133-143 | an unknown `userID` gives not-found and changes nothing; otherwise only that account's cart changes, by the guarded push, and the product id is not checked against the catalog |
| `Server.Shop.RemoveFromCart` | server.js:146-156 | an unknown `userID` gives not-found and changes nothing; otherwise only that account's cart changes, to the filtered cart |
| `Server.Shop.GetCart` | server.js:159-165 | an unknown `userID` gives not-found; otherwise the result is the populated cart |
| `Scenarios.WidgetInCartOnce` | server.js:70-165 | register a buyer, log in with the issued credentials, add a Widget and add it to the cart twice: login returns the buyer role and the issued `userID`, and the cart shows exactly one Widget |
| `Scenarios.RemovedProductDangles` | server.js:117-165 | after a carted product is removed, the listing is empty, the cart still holds the id, and viewing the cart shows nothing |
| `Scenarios.ZeroPriceRejected` | server.js:108 | a product with price 0 is rejected and nothing is stored |

## Left out

- Express setup, body parsing, CORS, routing and the root test route (server.js:1-22, 67, 167): framework plumbing.
- The session middleware and cookie (server.js:24-29, 99): only the `{ id, role }` value of the last login is kept, and the account is named by its `userID` rather than by the document's `_id`, which is one-to-one with it.
- The MongoDB connection and the internals of `save`, `findOne`, `find`, `findByIdAndDelete` and `populate` (server.js:32-37): the collections are maps. Store outages and timeouts, which the source reports as 500 errors, are not modelled. The failures that are modelled are the enum check on `role`, the unique index on `userID` and a failed e-mail.
- The product id the store generates (a Mongo ObjectId) is modelled as a counter. So "insertion order" for `/products` is ascending id. The model takes that order for `Product.find()`, which returns the collection's natural order.
- Requests whose `userID`, `pin` or `productID` is missing, or not a string. The model takes these fields as strings or ids. Mongoose drops a key whose value is `undefined` from a query filter, so `findOne({ userID: undefined })` behaves like `findOne({})` and returns an arbitrary document. The consequences are listed under `Server.Shop.Login`, `Server.Shop.AddToCart` and `Server.Shop.RemoveFromCart` below.
- `Server.Shop.Login`: a request without `pin` makes `User.findOne({ userID, pin })` (server.js:96) match on `userID` alone, so any known `userID` logs in without its PIN. A request with neither field matches an arbitrary account, possibly an admin, and writes it into the session (server.js:99). The model's contract, login succeeds exactly when the (`userID`, `pin`) pair is stored, says the opposite for these requests.
- `Server.Shop.Login`: its if-and-only-if holds only for requests whose `userID` and `pin` are strings. An object value, such as `{"$ne": ""}` in a JSON body, or `pin[$ne]=x` through the extended urlencoded parser (server.js:15), becomes a query operator in `User.findOne({ userID, pin })` (server.js:96). Such a request can log in to any known `userID` without its PIN. The model has no such input.
- `Registry.FindByCredentials`: like `Server.Shop.Login`, it describes the lookup for string `userID` and `pin` only, not for query-operator objects.
- Casting of request ids to ObjectIds (server.js:119, 139). A malformed id, which makes Mongoose throw a cast error at `findByIdAndDelete` or at the `push`, is not modelled.
- A malformed `productID` at server.js:152 is not cast: the filter compares strings, so it removes nothing and `/cart/remove` succeeds (server.js:154). The model gives the same outcome for any id absent from the cart (`Server.Shop.RemoveFromCart` returns `Ok(())` and, by `Carts.WithoutAbsent`, leaves the cart unchanged); the malformed spelling itself has no counterpart in `ProductId`.
- `Server.Shop.AddToCart`: a request without `userID` makes `User.findOne({ userID })` (server.js:136) return an arbitrary account. The source then adds the product to that account's cart instead of answering not-found. The model has no such request; its contract gives `NotFound` for every unknown `userID`.
- `Server.Shop.RemoveFromCart`: a request without `userID` likewise edits an arbitrary account's cart (server.js:149-153) instead of answering not-found. The model has no such request.
- `Server.Shop.AddToCart`: product ids are the type `ProductId`, which merges all spellings of one ObjectId. So the duplicate-free cart, the idempotent add and the idempotent remove hold only for requests that spell ids in canonical lower-case hex. At server.js:139, `includes` compares the request string with the stored ids, while `push` casts an upper-case spelling to the same ObjectId. Sending a carted id in upper case could then store it twice. That duplicate is not modelled.
- `Server.Shop.RemoveFromCart`: the filter at server.js:152 compares `id.toString()`, which is lower-case hex, with the request string. An upper-case spelling of a carted id would therefore remove nothing. The model, where spellings are merged, removes it.
- Non-string JSON values in string fields: numbers and booleans are cast to strings; objects and arrays fail the cast, and the save at server.js:79 then returns 500. Also `NaN` prices or quantities (falsy in JavaScript).
- `Server.Shop.AddProduct`: price and quantity are numbers in the model (`Validation.NonZero` takes `Option<real>`). Number fields sent as strings are not modelled. The urlencoded parser (server.js:15) makes every form value a string, and any non-empty string is truthy. So a price or quantity of `"0"` passes the guard at server.js:108 and is stored as 0. A non-numeric string also passes the guard, and the save at server.js:111 then fails (500).
- The Nodemailer transporter and the message it sends (server.js:40-43, 81-86): only whether sending succeeded is modelled, as a parameter, together with the fact that the account is saved first.
- `crypto.randomBytes` and `Math.random` (server.js:75-76): their results are parameters. The PIN arithmetic `Math.floor(1000 + r*9000)` is done over the reals. IEEE double rounding is not modelled; it never pushes the result outside 1000..9999.
- `CredentialGenerator.ToUpperCase`: models `toUpperCase` for ASCII letters only, which are the only letters a hex encoding produces.
- The `createdAt` timestamps (server.js:53, 62): they come from the wall clock.
- HTTP status codes and message texts: they are mapped to constructors of `Result`.
- Concurrent requests on the same account (last write wins): the model runs one handler at a time.
