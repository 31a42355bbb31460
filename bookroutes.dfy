/** `/api/books`: reading is public; writing needs a token. */
module BookRoutes {
  import opened Router

  const Routes: seq<Route> := [
    Route(Get, "/", [], GetAllBooks),
    Route(Get, "/:id", [], GetBook),
    Route(Post, "/", [AuthenticateToken, AuthUserService, Validate(CreateBookValidationRules)], CreateBook),
    Route(Put, "/:id", [AuthenticateToken, AuthUserService, Validate(CreateBookValidationRules)], UpdateBook),
    Route(Delete, "/:id", [AuthenticateToken, AuthUserService], DeleteBook)
  ]
}
