/** `/api/auth`: public. */
module AuthRoutes {
  import opened Router

  const Routes: seq<Route> := [
    Route(Post, "/register", [Validate(UserValidationRules)], RegisterUser),
    Route(Post, "/login", [], LoginUser)
  ]
}
