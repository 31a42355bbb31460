/** `/api/reviews`: both routes need a token. */
module ReviewRoutes {
  import opened Router

  const Routes: seq<Route> := [
    Route(Post, "/", [AuthenticateToken, AuthUserService, Validate(CreateReviewValidationRules)], CreateReview),
    Route(Delete, "/:id", [AuthenticateToken, AuthUserService], DeleteReview)
  ]
}
