/** The `isAdmin` middleware (middleware/role.js): a three-way refusal or
    the go-ahead to the next handler. The authentication middleware before
    it is a call into jsonwebtoken and is not modelled; what it leaves in
    the request is the `claims` parameter. */
module RoleMiddleware {
  import opened Base
  import opened UserModel
  import opened Store
  import AuthController

  const NotAuthenticatedMessage := "User not authenticated"
  const UserNotFoundMessage := "User not found"
  const AdminOnlyMessage := "Access denied. Admin privileges required"

  /** The payload a verified token leaves in the request: the user id and
      the email `login` signed. The payload carries no role. */
  datatype Claims = Claims(userId: Option<Id>, email: string)

  /** The middleware's decision. */
  datatype Gate = Proceed | Stop(code: int, message: string)

  /** `isAdmin`: the role is read from the stored user the token's id
      names. */
  function IsAdmin(db: Db, claims: Option<Claims>): (g: Gate)
    ensures g == Stop(401, NotAuthenticatedMessage) <==> claims.None?
    ensures g == Stop(404, UserNotFoundMessage) <==>
      claims.Some? && (claims.value.userId.None? || claims.value.userId.value !in db.users)
    ensures g == Stop(403, AdminOnlyMessage) <==>
      claims.Some? && claims.value.userId.Some? && claims.value.userId.value in db.users
      && db.users[claims.value.userId.value].role != Admin
    ensures g.Proceed? <==>
      claims.Some? && claims.value.userId.Some? && claims.value.userId.value in db.users
      && db.users[claims.value.userId.value].role == Admin
  {
    if claims.None? then Stop(401, NotAuthenticatedMessage)
    else match claims.value.userId
      case None => Stop(404, UserNotFoundMessage)
      case Some(id) =>
        if id !in db.users then Stop(404, UserNotFoundMessage)
        else if db.users[id].role != Admin then Stop(403, AdminOnlyMessage)
        else Proceed
  }

  /** The decision depends on the stored users and the token's id alone:
      two requests whose tokens name the same id, against stores holding
      the same users, are decided alike, whatever else the tokens or the
      stores hold. */
  lemma DecisionFromStore(db1: Db, db2: Db, c1: Claims, c2: Claims)
    requires db1.users == db2.users && c1.userId == c2.userId
    ensures IsAdmin(db1, Some(c1)) == IsAdmin(db2, Some(c2))
  {
  }

  /** A token issued while its user was an administrator stops working for
      admin routes once the stored role changes. */
  lemma DemotionTakesEffect(db: Db, c: Claims, role: Role)
    requires c.userId.Some? && c.userId.value in db.users
    requires role != Admin
    ensures
      var id := c.userId.value;
      var demoted := db.(users := db.users[id := db.users[id].(role := role)]);
      IsAdmin(demoted, Some(c)) == Stop(403, AdminOnlyMessage)
  {
  }

  /** Anyone may register as an administrator: `register` stores the role
      the request names, and `isAdmin` then lets the new account through. */
  lemma SelfRegisteredAdmin(db: Db, name: Option<string>, email: Option<string>, password: Option<string>,
                            address: Option<Address>, hashed: string, newId: Id, c: Claims)
    requires newId !in db.users
    requires AuthController.Register(db, name, email, password, Some("admin"), address, hashed, newId).reply.Ok?
    requires c.userId == Some(newId)
    ensures
      var r := AuthController.Register(db, name, email, password, Some("admin"), address, hashed, newId);
      && r.reply.value.role == Admin
      && IsAdmin(r.db, Some(c)) == Proceed
  {
    var r := AuthController.Register(db, name, email, password, Some("admin"), address, hashed, newId);
    var u := AuthController.NewUser(name.value, email.value, hashed, Some("admin"), address).value;
    assert ParseRole("admin") == Some(Admin);
    assert u.role == Admin;
    assert r.db.users[newId] == u;
  }
}
