/**
 * Express routing, reduced to data: a route is a verb, a path, the chain of
 * middlewares that run in order, and the handler that ends the chain.
 */
module Router {
  datatype Verb = Get | Post | Put | Delete

  /** The validation chains of the four validator files. */
  datatype RuleSet =
    | UserValidationRules
    | CreateReviewValidationRules
    | CreateBookValidationRules
    | UpdateUserValidationRules

  /** A middleware of a chain. */
  datatype Gate =
    | AuthenticateToken
    | AuthUserService
    | RequireRole(role: string)
    | Validate(rules: RuleSet)

  /** The controller function that ends a chain. */
  datatype Handler =
    | GetAllBooks | GetBook | CreateBook | UpdateBook | DeleteBook
    | CreateReview | DeleteReview
    | ListUsers | DeleteUser
    | GetUserProfile | UpdateUserProfile
    | RegisterUser | LoginUser

  datatype Route = Route(verb: Verb, path: string, gates: seq<Gate>, handler: Handler)
}
