/** A row of the `users` table, as the appointments page and the user header read it. */
module Profiles {
  import opened Wrappers

  /** `name` and `role` are nullable columns. */
  datatype Profile = Profile(name: Option<string>, role: Option<string>)

  /** `profile.role === "seller"`: only the exact string "seller" makes a seller. */
  predicate IsSellerRole(role: Option<string>)
  {
    role == Some("seller")
  }

  /** JavaScript truthiness of a nullable string: present and not empty. */
  predicate Truthy(s: Option<string>)
  {
    s.Some? && s.value != ""
  }
}
