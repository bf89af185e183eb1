/** The account collection: what a stored account looks like and the two
    `findOne` lookups the handlers make on it. */
module Registry {
  import opened Records
  import opened CredentialGenerator
  import opened Carts

  /** What every stored account satisfies: registration gave it credentials of
      the generator's format and truthy name and e-mail, and the cart
      handlers keep its cart free of duplicates. */
  predicate WellFormed(a: Account) {
    && IsUserIdFormat(a.userID)
    && IsPinFormat(a.pin)
    && a.fullName != ""
    && a.email != ""
    && NoDuplicates(a.cart)
  }

  /** `User.findOne({ userID, pin })`: the account matching both fields exactly. */
  function FindByCredentials(accounts: map<string, Account>, userID: string, pin: string): (r: Option<Account>)
    requires AccountsKeyed(accounts)
    ensures r.Some? <==> exists u :: u in accounts && accounts[u].userID == userID && accounts[u].pin == pin
    ensures r.Some? ==> r.value in accounts.Values && r.value.userID == userID && r.value.pin == pin
  {
    if userID in accounts && accounts[userID].pin == pin then Some(accounts[userID]) else None
  }

  /** `User.findOne({ userID })`. */
  function FindByUserId(accounts: map<string, Account>, userID: string): (r: Option<Account>)
    requires AccountsKeyed(accounts)
    ensures r.Some? <==> exists u :: u in accounts && accounts[u].userID == userID
    ensures r.Some? ==> r.value in accounts.Values && r.value.userID == userID
  {
    if userID in accounts then Some(accounts[userID]) else None
  }

  /** A login that finds an account found the account of that userID, and a
      login fails for a known userID exactly when the PIN differs. */
  lemma CredentialsNarrowUserId(accounts: map<string, Account>, userID: string, pin: string)
    requires AccountsKeyed(accounts)
    ensures FindByCredentials(accounts, userID, pin).Some? ==>
              FindByCredentials(accounts, userID, pin) == FindByUserId(accounts, userID)
    ensures FindByUserId(accounts, userID).Some? ==>
              (FindByCredentials(accounts, userID, pin).None? <==> FindByUserId(accounts, userID).value.pin != pin)
  {
  }
}
