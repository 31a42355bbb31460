/** The profile handlers: the caller, `req.userId`, reads and edits their own row. */
module UserController {
  import opened Wrappers
  import opened Db
  import opened Http
  import opened Errors
  import opened Requests

  /** `getUserProfile`: read only. Without `req.userId` the lookup itself fails. */
  function GetUserProfile(users: map<int, User>, userId: Option<int>, storeFails: bool): (r: Reply)
    ensures r.status == 200 <==> userId.Some? && userId.value in users && !storeFails
    ensures r.status == 200 ==> r.body == Profile(users[userId.value].username, users[userId.value].email)
    ensures userId.Some? && userId.value !in users && !storeFails ==>
              r == GlobalErrorHandler(NotFoundException("User not found"))
    ensures userId.None? || storeFails ==> r == GlobalErrorHandler(ServerErrorException("Error fetching user profile."))
  {
    if userId.None? || storeFails then GlobalErrorHandler(ServerErrorException("Error fetching user profile."))
    else if userId.value !in users then GlobalErrorHandler(NotFoundException("User not found"))
    else Reply(200, Profile(users[userId.value].username, users[userId.value].email))
  }

  /** The row after `update({ data: { username, email } })`: an absent field keeps its value. */
  function Edited(u: User, body: Form): User
  {
    u.(username := body.username.GetOr(u.username), email := body.email.GetOr(u.email))
  }

  /**
   * `updateUserProfile`. The update fails (and is answered 500) without a
   * caller, for an unknown caller (P2025) and when the new username or email
   * belongs to another user (P2002).
   */
  function UpdateUserProfileResult(errors: seq<string>, body: Form, userId: Option<int>, t: Tables, storeFails: bool): (r: Outcome)
    requires WellFormed(t)
    ensures WellFormed(r.tables)
    ensures r.tables.books == t.books && r.tables.reviews == t.reviews
    ensures r.tables.users.Keys == t.users.Keys
    ensures forall u | u in t.users && Some(u) != userId :: r.tables.users[u] == t.users[u]
    ensures r.reply.status == 200 <==>
              && errors == [] && userId.Some? && userId.value in t.users && !storeFails
              && !Taken(t.users, Edited(t.users[userId.value], body).username, Edited(t.users[userId.value], body).email, userId)
    ensures r.reply.status == 200 ==> r.tables.users[userId.value] == Edited(t.users[userId.value], body)
    ensures r.reply.status == 200 ==>
              && r.tables.users[userId.value].password == t.users[userId.value].password
              && r.tables.users[userId.value].roles == t.users[userId.value].roles
    ensures r.reply.status != 200 ==> r.tables == t
    ensures errors != [] ==> r.reply == GlobalErrorHandler(ValidationException(Messages(errors)))
    ensures errors == [] && (userId.None? || userId.value !in t.users || storeFails) ==>
              r.reply == GlobalErrorHandler(ServerErrorException("Error updating user profile."))
    ensures errors == [] && userId.Some? && userId.value in t.users
            && Taken(t.users, Edited(t.users[userId.value], body).username, Edited(t.users[userId.value], body).email, userId) ==>
              r.reply == GlobalErrorHandler(ServerErrorException("Error updating user profile."))
    ensures r.reply.status == 200 ==>
              r.reply.body == ProfileUpdated("Profile updated successfully",
                                             Edited(t.users[userId.value], body).username,
                                             Edited(t.users[userId.value], body).email)
  {
    if errors != [] then Outcome(GlobalErrorHandler(ValidationException(Messages(errors))), t)
    else if userId.None? || userId.value !in t.users || storeFails then
      Outcome(GlobalErrorHandler(ServerErrorException("Error updating user profile.")), t)
    else
      var after := Edited(t.users[userId.value], body);
      if Taken(t.users, after.username, after.email, userId) then
        Outcome(GlobalErrorHandler(ServerErrorException("Error updating user profile.")), t)
      else
        Outcome(Reply(200, ProfileUpdated("Profile updated successfully", after.username, after.email)),
                t.(users := t.users[userId.value := after]))
  }

  method UpdateUserProfile(db: Store, req: Request, storeFails: bool) returns (reply: Reply)
    requires db.Valid()
    modifies db`users
    ensures db.Valid()
    ensures Outcome(reply, db.Snapshot())
         == UpdateUserProfileResult(req.validationErrors, req.incoming.body, req.userId, old(db.Snapshot()), storeFails)
  {
    if req.validationErrors != [] {
      return GlobalErrorHandler(ValidationException(Messages(req.validationErrors)));
    }
    var username, email := req.incoming.body.username, req.incoming.body.email;
    var userId := req.userId;
    if userId.None? || userId.value !in db.users || storeFails {
      return GlobalErrorHandler(ServerErrorException("Error updating user profile."));
    }
    var user := db.users[userId.value];
    var after := user.(username := username.GetOr(user.username), email := email.GetOr(user.email));
    if Taken(db.users, after.username, after.email, userId) {
      return GlobalErrorHandler(ServerErrorException("Error updating user profile."));
    }
    db.users := db.users[userId.value := after];
    reply := Reply(200, ProfileUpdated("Profile updated successfully", after.username, after.email));
  }
}
