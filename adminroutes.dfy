/** `/api/admin`: a token whose roles include `Admin`. */
module AdminRoutes {
  import opened Router

  const AdminRole: string := "Admin"

  const Routes: seq<Route> := [
    Route(Get, "/users", [AuthenticateToken, RequireRole(AdminRole), AuthUserService], ListUsers),
    Route(Delete, "/user/:id", [AuthenticateToken, RequireRole(AdminRole)], DeleteUser)
  ]
}
