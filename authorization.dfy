/** The role gate `authorize(...roles)`: a request passes only when the role the
    authentication middleware recorded is one of the permitted roles.  The compiled gate
    (dist/middleware/authorize.js) is the model; the TypeScript copy of the same gate
    rejects nothing, and is kept here as written next to the lemma that shows it. */
module Authorization {
  import opened Common

  /** What a middleware does with a request: pass it on, or answer it. */
  datatype Gate = Next | Reject(code: int, message: string)

  /** `!userRole || !roles.includes(userRole)` answers 403; otherwise `next()`. */
  function Authorize(roles: seq<Role>, userRole: Option<Role>): (r: Gate)
    ensures r == Next <==> userRole.Some? && userRole.value in roles
    ensures r != Next ==> r == Reject(403, "Access denied. Insufficient permissions.")
  {
    if userRole.None? || userRole.value !in roles then Reject(403, "Access denied. Insufficient permissions.")
    else Next
  }

  /** An empty list of roles admits nobody, and an anonymous request passes no gate. */
  lemma AuthorizeDeniesByDefault(roles: seq<Role>, userRole: Option<Role>)
    ensures Authorize([], userRole) != Next
    ensures Authorize(roles, None) != Next
  {
  }

  /** Permitting more roles never turns an admitted request away. */
  lemma AuthorizeMonotone(roles: seq<Role>, more: seq<Role>, userRole: Option<Role>)
    requires forall r :: r in roles ==> r in more
    ensures Authorize(roles, userRole) == Next ==> Authorize(more, userRole) == Next
  {
  }

  /** The TypeScript gate as written: the rejecting branch is empty, so every request is
      passed on. */
  function AuthorizeAsWritten(roles: seq<Role>, userRole: Option<Role>): (r: Gate)
    ensures r == Next
  {
    if userRole.None? || userRole.value !in roles then Next else Next
  }

  /** The TypeScript gate lets a customer through an admin-only route, and an anonymous
      request through any route, where the intended gate refuses both. */
  lemma AsWrittenAdmitsOutsiders()
    ensures AuthorizeAsWritten([Admin], Some(Customer)) == Next
    ensures Authorize([Admin], Some(Customer)) == Reject(403, "Access denied. Insufficient permissions.")
    ensures AuthorizeAsWritten([Admin, BusinessOwner], None) == Next
    ensures Authorize([Admin, BusinessOwner], None) != Next
  {
  }
}
