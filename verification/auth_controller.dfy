/** The account handlers (controller/auth.js): `register`, `login` and
    `resetPassword`. bcrypt and jsonwebtoken are foreign libraries: a hash
    arrives as the string `hashed`, password comparison as `matches`, token
    signing as `sign` and token verification as `verify`. */
module AuthController {
  import opened Base
  import opened Text
  import opened UserModel
  import opened Store

  const RegisterRequiredMessage := "Name, email, and password are required"
  const EmailTakenMessage := "Email already registered"
  const RegisterErrorMessage := "Server error during registration"
  const LoginRequiredMessage := "Email and password are required"
  const BadCredentialsMessage := "Invalid email or password"
  const ResetRequiredMessage := "New password and confirm password are required"
  const MismatchMessage := "Passwords do not match"
  const ShortPasswordMessage := "Password must be at least 6 characters long"
  const BadTokenMessage := "Invalid or expired reset token"
  const UserNotFoundMessage := "User not found"
  const ResetErrorMessage := "Server error during password reset"

  /** The shortest password `resetPassword` accepts. */
  const MinPasswordLength := 6

  /** `userModel.findOne({ email })`, the filter passing through the email
      setters. */
  function UserByEmail(users: map<Id, User>, email: string): (r: Option<Id>)
    ensures r.Some? ==> r.value in users && users[r.value].email == NormalizeEmail(email)
    ensures r.None? <==> forall id :: id in users ==> users[id].email != NormalizeEmail(email)
  {
    FindKey(users, (u: User) => u.email == NormalizeEmail(email))
  }

  /** The document `register` builds, before validation: the name and email
      through their setters, the hash in place of the password, the role as
      supplied (its enum validator rejecting an unknown name) or "customer",
      and the address as supplied or empty. */
  function NewUser(name: string, email: string, hashed: string, role: Option<string>,
                   address: Option<Address>): (r: Option<User>)
    ensures r.Some? <==> !TruthyText(role) || ParseRole(role.value).Some?
    ensures r.Some? ==>
      && r.value.name == Trim(name) && r.value.email == NormalizeEmail(email) && r.value.password == hashed
      && r.value.role == (if TruthyText(role) then ParseRole(role.value).value else DefaultRole)
      && r.value.address == (if address.Some? then TrimAddress(address.value) else NoAddress)
  {
    var a := if address.Some? then TrimAddress(address.value) else NoAddress;
    if !TruthyText(role) then Some(User(Trim(name), NormalizeEmail(email), hashed, DefaultRole, a))
    else match ParseRole(role.value)
      case None => None
      case Some(ro) => Some(User(Trim(name), NormalizeEmail(email), hashed, ro, a))
  }

  /** `register` as written. The `minlength: 6` validator of the password
      path sees the stored bcrypt hash, not the password the caller chose. */
  function Register(db: Db, name: Option<string>, email: Option<string>, password: Option<string>,
                    role: Option<string>, address: Option<Address>, hashed: string, newId: Id): (r: Step<PublicUser>)
    requires newId !in db.users
    ensures r.reply.Fail? ==> r.db == db
    ensures r.reply == Fail(400, RegisterRequiredMessage) <==>
      !TruthyText(name) || !TruthyText(email) || !TruthyText(password)
    ensures r.reply == Fail(409, EmailTakenMessage) <==>
      TruthyText(name) && TruthyText(email) && TruthyText(password)
      && UserByEmail(db.users, email.value).Some?
    ensures r.reply.Ok? <==>
      && TruthyText(name) && TruthyText(email) && TruthyText(password)
      && UserByEmail(db.users, email.value).None?
      && NewUser(name.value, email.value, hashed, role, address).Some?
      && ValidUser(NewUser(name.value, email.value, hashed, role, address).value)
    ensures r.reply.Ok? ==>
      && NewUser(name.value, email.value, hashed, role, address).Some?
      && var u := NewUser(name.value, email.value, hashed, role, address).value;
      && ValidUser(u)
      && r.reply == Ok(201, Public(newId, u))
      && r.db == db.(users := db.users[newId := u])
    ensures r.reply.Fail? ==> r.reply.code in {400, 409} || r.reply == Fail(ServerError, RegisterErrorMessage)
  {
    if !TruthyText(name) || !TruthyText(email) || !TruthyText(password) then
      Refuse(400, RegisterRequiredMessage, db)
    else if UserByEmail(db.users, email.value).Some? then Refuse(409, EmailTakenMessage, db)
    else match NewUser(name.value, email.value, hashed, role, address)
      case None => Refuse(ServerError, RegisterErrorMessage, db)
      case Some(u) =>
        if !ValidUser(u) then Refuse(ServerError, RegisterErrorMessage, db)
        else Done(201, Public(newId, u), db.(users := db.users[newId := u]))
  }

  /** Adding a valid user whose email no stored user has keeps emails
      unique and every user valid. */
  lemma StoreUserKeepsInvariants(users: map<Id, User>, newId: Id, u: User)
    requires newId !in users && ValidUser(u)
    requires forall id :: id in users ==> users[id].email != u.email
    requires EmailsUnique(users) && AllUsersValid(users)
    ensures EmailsUnique(users[newId := u]) && AllUsersValid(users[newId := u])
  {
    var next := users[newId := u];
    forall a, b | a in next && b in next && next[a].email == next[b].email ensures a == b {
      if a != newId && b != newId {
        assert next[a] == users[a] && next[b] == users[b];
      }
    }
  }

  /** Registration keeps emails unique, and every stored user valid. */
  lemma RegisterKeepsInvariants(db: Db, name: Option<string>, email: Option<string>, password: Option<string>,
                                role: Option<string>, address: Option<Address>, hashed: string, newId: Id)
    requires newId !in db.users
    requires EmailsUnique(db.users) && AllUsersValid(db.users)
    ensures
      var r := Register(db, name, email, password, role, address, hashed, newId);
      && EmailsUnique(r.db.users)
      && AllUsersValid(r.db.users)
  {
    var r := Register(db, name, email, password, role, address, hashed, newId);
    if r.reply.Ok? {
      var u := NewUser(name.value, email.value, hashed, role, address).value;
      assert UserByEmail(db.users, email.value).None?;
      StoreUserKeepsInvariants(db.users, newId, u);
    }
  }

  /** Finding, as written: a one-character password registers, because the
      length validator measures the 60-character bcrypt hash. */
  lemma ShortPasswordRegisters(db: Db, name: string, email: string, hashed: string, newId: Id)
    requires newId !in db.users
    requires |hashed| == 60
    requires 2 <= |Trim(name)| <= 50 && IsEmail(NormalizeEmail(email)) && NormalizeEmail(email) != ""
    requires UserByEmail(db.users, email).None?
    requires name != "" && email != ""
    ensures Register(db, Some(name), Some(email), Some("a"), None, None, hashed, newId).reply.Ok?
  {
    var u := NewUser(name, email, hashed, None, None).value;
    assert ValidUser(u);
    assert TruthyText(Some(name)) && TruthyText(Some(email)) && TruthyText(Some("a"));
  }

  /** Finding, corrected: `register` with the length rule `resetPassword`
      applies to the password the caller chose, checked after the request
      fields and before the email lookup. */
  function RegisterChecked(db: Db, name: Option<string>, email: Option<string>, password: Option<string>,
                           role: Option<string>, address: Option<Address>, hashed: string, newId: Id): (r: Step<PublicUser>)
    requires newId !in db.users
    ensures r.reply == Fail(400, ShortPasswordMessage) <==>
      TruthyText(name) && TruthyText(email) && TruthyText(password) && |password.value| < MinPasswordLength
    ensures r.reply.Ok? ==> TruthyText(password) && |password.value| >= MinPasswordLength
    ensures TruthyText(password) && |password.value| >= MinPasswordLength ==>
      r == Register(db, name, email, password, role, address, hashed, newId)
  {
    if TruthyText(name) && TruthyText(email) && TruthyText(password) && |password.value| < MinPasswordLength then
      Refuse(400, ShortPasswordMessage, db)
    else Register(db, name, email, password, role, address, hashed, newId)
  }

  /** What a successful login answers: the user without the password, and
      the signed token. */
  datatype Session = Session(user: PublicUser, token: string)

  /** `login`. An unknown email and a wrong password get the same reply. */
  function Login(db: Db, email: Option<string>, password: Option<string>,
                 matches: (string, string) -> bool, sign: (Id, string) -> string): (r: Reply<Session>)
    ensures r == Fail(400, LoginRequiredMessage) <==> !TruthyText(email) || !TruthyText(password)
    ensures r == Fail(401, BadCredentialsMessage) <==>
      && TruthyText(email) && TruthyText(password)
      && (UserByEmail(db.users, email.value).None?
          || !matches(password.value, db.users[UserByEmail(db.users, email.value).value].password))
    ensures r.Ok? <==>
      && TruthyText(email) && TruthyText(password)
      && UserByEmail(db.users, email.value).Some?
      && matches(password.value, db.users[UserByEmail(db.users, email.value).value].password)
    ensures r.Ok? ==>
      && UserByEmail(db.users, email.value).Some?
      && var id := UserByEmail(db.users, email.value).value;
      && matches(password.value, db.users[id].password)
      && r == Ok(200, Session(Public(id, db.users[id]), sign(id, db.users[id].email)))
  {
    if !TruthyText(email) || !TruthyText(password) then Fail(400, LoginRequiredMessage)
    else match UserByEmail(db.users, email.value)
      case None => Fail(401, BadCredentialsMessage)
      case Some(id) =>
        var u := db.users[id];
        if !matches(password.value, u.password) then Fail(401, BadCredentialsMessage)
        else Ok(200, Session(Public(id, u), sign(id, u.email)))
  }

  /** The reply does not tell an unknown email from a wrong password. */
  lemma LoginHidesWhichCheckFailed(db1: Db, db2: Db, email: string, password: string,
                                   matches: (string, string) -> bool, sign: (Id, string) -> string)
    requires email != "" && password != ""
    requires UserByEmail(db1.users, email).None?
    requires UserByEmail(db2.users, email).Some?
    requires !matches(password, db2.users[UserByEmail(db2.users, email).value].password)
    ensures Login(db1, Some(email), Some(password), matches, sign)
         == Login(db2, Some(email), Some(password), matches, sign)
  {
  }

  /** What `jwt.verify` yields: a rejected token, or the payload's `_id`,
      which a token need not carry. */
  datatype Decoded = Rejected | Accepted(userId: Option<Id>)

  /** `resetPassword`. The request checks come first, then the token, then
      the user; the save validates the stored user with the new hash. */
  function ResetPassword(db: Db, token: string, newPassword: Option<string>, confirmPassword: Option<string>,
                         verify: string -> Decoded, hashed: string): (r: Step<()>)
    ensures r.reply.Fail? ==> r.db == db
    ensures r.reply == Fail(400, ResetRequiredMessage) <==> !TruthyText(newPassword) || !TruthyText(confirmPassword)
    ensures r.reply == Fail(400, MismatchMessage) <==>
      TruthyText(newPassword) && TruthyText(confirmPassword) && newPassword.value != confirmPassword.value
    ensures r.reply == Fail(400, ShortPasswordMessage) <==>
      && TruthyText(newPassword) && TruthyText(confirmPassword) && newPassword.value == confirmPassword.value
      && |newPassword.value| < MinPasswordLength
    ensures r.reply == Fail(401, BadTokenMessage) <==>
      && TruthyText(newPassword) && newPassword == confirmPassword && |newPassword.value| >= MinPasswordLength
      && verify(token).Rejected?
    ensures r.reply == Fail(404, UserNotFoundMessage) <==>
      && TruthyText(newPassword) && newPassword == confirmPassword && |newPassword.value| >= MinPasswordLength
      && verify(token).Accepted? && (verify(token).userId.None? || verify(token).userId.value !in db.users)
    ensures r.reply.Ok? ==>
      && |newPassword.value| >= MinPasswordLength
      && verify(token).Accepted? && verify(token).userId.Some?
      && var id := verify(token).userId.value;
      && id in db.users
      && r.reply == Ok(200, ())
      && r.db == db.(users := db.users[id := db.users[id].(password := hashed)])
  {
    if !TruthyText(newPassword) || !TruthyText(confirmPassword) then Refuse(400, ResetRequiredMessage, db)
    else if newPassword.value != confirmPassword.value then Refuse(400, MismatchMessage, db)
    else if |newPassword.value| < MinPasswordLength then Refuse(400, ShortPasswordMessage, db)
    else match verify(token)
      case Rejected => Refuse(401, BadTokenMessage, db)
      case Accepted(None) => Refuse(404, UserNotFoundMessage, db)
      case Accepted(Some(id)) =>
        if id !in db.users then Refuse(404, UserNotFoundMessage, db)
        else
          var u := db.users[id].(password := hashed);
          if !ValidUser(u) then Refuse(ServerError, ResetErrorMessage, db)
          else Done(200, (), db.(users := db.users[id := u]))
  }

  /** The request checks run before the token is looked at: when one of
      them fails, the reply is the same whatever the token, the verifier,
      the hash or the stored users. */
  lemma ResetChecksBeforeToken(db1: Db, db2: Db, token1: string, token2: string,
                               newPassword: Option<string>, confirmPassword: Option<string>,
                               verify1: string -> Decoded, verify2: string -> Decoded, hashed1: string, hashed2: string)
    requires
      || !TruthyText(newPassword) || !TruthyText(confirmPassword)
      || newPassword.value != confirmPassword.value || |newPassword.value| < MinPasswordLength
    ensures
      var r1 := ResetPassword(db1, token1, newPassword, confirmPassword, verify1, hashed1);
      var r2 := ResetPassword(db2, token2, newPassword, confirmPassword, verify2, hashed2);
      && r1.reply == r2.reply && r1.reply.Fail? && r1.reply.code == 400
  {
  }

  /** A reset on a valid store keeps every user valid and every email
      unique, and a hash of bcrypt's 60 characters always saves. */
  lemma ResetKeepsInvariants(db: Db, token: string, newPassword: Option<string>, confirmPassword: Option<string>,
                             verify: string -> Decoded, hashed: string)
    requires EmailsUnique(db.users) && AllUsersValid(db.users)
    requires |hashed| == 60
    ensures
      var r := ResetPassword(db, token, newPassword, confirmPassword, verify, hashed);
      && EmailsUnique(r.db.users)
      && (AllUsersValid(r.db.users))
      && r.reply.code != ServerError
  {
    var r := ResetPassword(db, token, newPassword, confirmPassword, verify, hashed);
    if r.reply.Ok? {
      var id := verify(token).userId.value;
      var next := r.db.users;
      forall a, b | a in next && b in next && next[a].email == next[b].email ensures a == b {
        assert next[a].email == db.users[a].email && next[b].email == db.users[b].email;
      }
    }
  }

  /** `resetPassword` accepts any token the server signed, and the token
      `login` hands out carries the user's `_id`: a session token resets the
      password of its user, no reset link needed. */
  lemma SessionTokenResetsPassword(db: Db, email: string, password: string, matches: (string, string) -> bool,
                                   sign: (Id, string) -> string, verify: string -> Decoded,
                                   newPassword: string, hashed: string)
    requires AllUsersValid(db.users)
    requires Login(db, Some(email), Some(password), matches, sign).Ok?
    requires
      var s := Login(db, Some(email), Some(password), matches, sign).value;
      verify(s.token) == Accepted(Some(s.user.id))
    requires |newPassword| >= MinPasswordLength && |hashed| == 60
    ensures
      var s := Login(db, Some(email), Some(password), matches, sign).value;
      var r := ResetPassword(db, s.token, Some(newPassword), Some(newPassword), verify, hashed);
      && r.reply == Ok(200, ())
      && r.db.users[s.user.id].password == hashed
  {
    var s := Login(db, Some(email), Some(password), matches, sign).value;
    var id := UserByEmail(db.users, email).value;
    assert s.user.id == id;
    assert ValidUser(db.users[id]);
    ResetByToken(db, s.token, newPassword, verify, hashed, id);
  }

  /** A token the verifier accepts for a stored user, a long enough
      password given twice and a hash the user validators accept: the reset
      goes through and stores that hash. */
  lemma ResetByToken(db: Db, token: string, newPassword: string, verify: string -> Decoded, hashed: string, id: Id)
    requires verify(token) == Accepted(Some(id)) && id in db.users
    requires ValidUser(db.users[id]) && |newPassword| >= MinPasswordLength && |hashed| == 60
    ensures
      var r := ResetPassword(db, token, Some(newPassword), Some(newPassword), verify, hashed);
      && r.reply == Ok(200, ())
      && r.db.users[id].password == hashed
  {
    assert TruthyText(Some(newPassword));
    assert ValidUser(db.users[id].(password := hashed));
  }
}
