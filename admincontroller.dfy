/** The administrator handlers: list the other users, delete a user. */
module AdminController {
  import opened Wrappers
  import opened Db
  import opened Http
  import opened Errors
  import opened Requests

  function View(u: User): UserView
  {
    UserView(u.username, u.email, u.roles)
  }

  /**
   * `listUsers`: every user except the caller, without password hashes.
   * With no `req.userId` the `not: undefined` filter is dropped and every
   * user is listed.
   */
  function ListUsers(users: map<int, User>, callerId: Option<int>, storeFails: bool): (r: Reply)
    ensures storeFails ==> r == GlobalErrorHandler(ServerErrorException("Error fetching users"))
    ensures !storeFails ==> r.status == 200 && r.body.UserList?
    ensures !storeFails ==> forall id :: id in r.body.users <==> id in users && Some(id) != callerId
    ensures !storeFails ==> forall id | id in r.body.users ::
              r.body.users[id] == UserView(users[id].username, users[id].email, users[id].roles)
  {
    if storeFails then GlobalErrorHandler(ServerErrorException("Error fetching users"))
    else Reply(200, UserList(map id | id in users && Some(id) != callerId :: View(users[id])))
  }

  /**
   * `deleteUser`, as the client and the database see it. A missing id is
   * answered 400 and the handler goes on; the delete of id 0 or `NaN` then
   * fails without effect.
   */
  function DeleteUserResult(id: Option<int>, t: Tables, storeFails: bool): (r: Outcome)
    requires WellFormed(t)
    ensures WellFormed(r.tables)
    ensures r.tables.books == t.books && r.tables.reviews == t.reviews
    ensures r.tables.users.Keys <= t.users.Keys
    ensures forall u | u in t.users && Some(u) != id :: u in r.tables.users && r.tables.users[u] == t.users[u]
    ensures r.reply.status == 200 <==> r.tables != t
    ensures r.reply.status == 200 <==> Present(id) && id.value in t.users && !storeFails
    ensures r.reply.status == 200 ==> id.value !in r.tables.users
    ensures !Present(id) ==> r.reply == GlobalErrorHandler(BadRequestException("User ID is required"))
    ensures Present(id) && id.value !in t.users ==>
              r.reply == GlobalErrorHandler(NotFoundException("User with email not found"))
    ensures Present(id) && id.value in t.users && storeFails ==>
              r.reply == GlobalErrorHandler(ServerErrorException("Error fetching users"))
    ensures r.reply.status == 200 ==>
              r.reply.body == UserDeleted("User deleted successfully", id.value, t.users[id.value].username,
                                          t.users[id.value].email, t.users[id.value].password)
  {
    if !Present(id) then Outcome(GlobalErrorHandler(BadRequestException("User ID is required")), t)
    else if id.value !in t.users then Outcome(GlobalErrorHandler(NotFoundException("User with email not found")), t)
    else if storeFails then Outcome(GlobalErrorHandler(ServerErrorException("Error fetching users")), t)
    else
      var u := t.users[id.value];
      Outcome(Reply(200, UserDeleted("User deleted successfully", id.value, u.username, u.email, u.password)),
              t.(users := t.users - {id.value}))
  }

  method DeleteUser(db: Store, req: Request, storeFails: bool) returns (reply: Reply)
    requires db.Valid()
    modifies db`users
    ensures db.Valid()
    ensures Outcome(reply, db.Snapshot()) == DeleteUserResult(req.incoming.id, old(db.Snapshot()), storeFails)
  {
    var sent: Option<Reply> := None;
    var userId := req.incoming.id;
    if !Present(userId) {
      sent := Emit(sent, GlobalErrorHandler(BadRequestException("User ID is required")));
    }
    if userId.None? {
      // Prisma rejects NaN as an id (not P2025)
      sent := Emit(sent, GlobalErrorHandler(ServerErrorException("Error fetching users")));
    } else if userId.value !in db.users {
      // P2025: no row to delete
      sent := Emit(sent, GlobalErrorHandler(NotFoundException("User with email not found")));
      sent := Emit(sent, GlobalErrorHandler(ServerErrorException("Error fetching users")));
    } else if storeFails {
      sent := Emit(sent, GlobalErrorHandler(ServerErrorException("Error fetching users")));
    } else {
      var user := db.users[userId.value];
      db.users := db.users - {userId.value};
      sent := Emit(sent, Reply(200, UserDeleted("User deleted successfully", userId.value, user.username, user.email, user.password)));
    }
    reply := sent.value;
  }
}
