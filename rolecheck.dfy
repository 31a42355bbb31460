/** `requireRole(requiredRole)`: the role gate, a closure over the required role name. */
module RoleCheck {
  import opened Wrappers
  import opened Jwt
  import opened Http

  const AuthenticationRequired: Reply := Reply(401, Message("Authentication required"))

  function Forbidden(requiredRole: string): Reply
  {
    Reply(403, Message("Requires " + requiredRole + " role"))
  }

  /** The gate's decision, from `req.user` alone. */
  function RequireRole(requiredRole: string, user: Option<Claims>): (s: Step)
    ensures user.None? ==> s == Respond(AuthenticationRequired)
    ensures user.Some? ==> (s == Next <==> requiredRole in user.value.roles)
    ensures user.Some? && requiredRole !in user.value.roles ==> s == Respond(Forbidden(requiredRole))
  {
    match user
    case None => Respond(AuthenticationRequired)
    case Some(claims) => if requiredRole in claims.roles then Next else Respond(Forbidden(requiredRole))
  }

  /** Only the set of roles matters: not their order, not duplicates, not the user's id. */
  lemma OnlyRoleSetMatters(requiredRole: string, a: Claims, b: Claims)
    requires forall r :: r in a.roles <==> r in b.roles
    ensures RequireRole(requiredRole, Some(a)) == RequireRole(requiredRole, Some(b))
  {
  }
}
