/** The truthiness guards of `/register` (server.js:73) and `/product/add`
    (server.js:108). A request field is `None` when the body lacks it. */
module Validation {
  import opened Records

  /** `!!field` for a string field: present and not the empty string. */
  predicate Present(field: Option<string>) {
    field.Some? && field.value != ""
  }

  /** `!!field` for a number field: present and not zero (NaN is not modelled). */
  predicate NonZero(field: Option<real>) {
    field.Some? && field.value != 0.0
  }

  /** The guard of `/register`: `fullName`, `email` and `role` are all truthy. */
  predicate RegistrationFieldsPresent(fullName: Option<string>, email: Option<string>, role: Option<string>) {
    Present(fullName) && Present(email) && Present(role)
  }

  /** The guard of `/product/add`: `name`, `price` and `quantity` are all truthy;
      `description` is not checked. */
  predicate ProductFieldsPresent(name: Option<string>, price: Option<real>, quantity: Option<real>) {
    Present(name) && NonZero(price) && NonZero(quantity)
  }
}
