/** `/api/users`: the caller's own profile. */
module UserRoutes {
  import opened Router

  const Routes: seq<Route> := [
    Route(Get, "/profile", [AuthenticateToken, AuthUserService], GetUserProfile),
    Route(Put, "/profile", [AuthenticateToken, AuthUserService, Validate(UpdateUserValidationRules)], UpdateUserProfile)
  ]
}
