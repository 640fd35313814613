/** The User schema (model/user.js): trimmed name of 2 to 50 characters, a
    lower-cased, trimmed and unique email matching `^\S+@\S+\.\S+$`, a
    password of at least 6 characters, a role from a fixed list, and an
    optional postal address. */
module UserModel {
  import opened Base
  import opened Text

  datatype Role = Admin | Customer | Employer

  /** The string the role is stored as. */
  function RoleName(r: Role): string {
    match r
    case Admin => "admin"
    case Customer => "customer"
    case Employer => "employer"
  }

  /** The `enum` validator of the role path: only the three listed names are
      accepted. */
  function ParseRole(s: string): (r: Option<Role>)
    ensures r.Some? <==> s == "admin" || s == "customer" || s == "employer"
    ensures r.Some? ==> RoleName(r.value) == s
  {
    if s == "admin" then Some(Admin)
    else if s == "customer" then Some(Customer)
    else if s == "employer" then Some(Employer)
    else None
  }

  lemma RoleRoundTrip(r: Role)
    ensures ParseRole(RoleName(r)) == Some(r)
  {
  }

  /** The role a document gets when none is supplied. */
  const DefaultRole := Customer

  datatype Address = Address(
    street: Option<string>,
    city: Option<string>,
    state: Option<string>,
    postalCode: Option<string>,
    country: Option<string>)

  /** `address || {}`: the empty address. */
  const NoAddress := Address(None, None, None, None, None)

  datatype User = User(
    name: string,
    email: string,
    password: string,
    role: Role,
    address: Address)

  /** What a handler sends back for a user: every field but the password. */
  datatype PublicUser = PublicUser(
    id: Id,
    name: string,
    email: string,
    role: Role,
    address: Address)

  /** `user.toObject()` followed by `delete userResponse.password`. */
  function Public(id: Id, u: User): (v: PublicUser)
    ensures v.id == id && v.name == u.name && v.email == u.email
    ensures v.role == u.role && v.address == u.address
  {
    PublicUser(id, u.name, u.email, u.role, u.address)
  }

  function TrimField(f: Option<string>): Option<string> {
    match f
    case None => None
    case Some(s) => Some(Trim(s))
  }

  /** The `trim` setters of the address sub-document. */
  function TrimAddress(a: Address): Address {
    Address(TrimField(a.street), TrimField(a.city), TrimField(a.state),
            TrimField(a.postalCode), TrimField(a.country))
  }

  /** The setters of the email path (`lowercase`, then `trim`). They are
      also applied to an email used as a query filter. */
  function NormalizeEmail(s: string): string {
    Trim(Lower(s))
  }

  /** `s` contains no white space: `^\S+...\S+$` covers the whole string. */
  predicate NoSpace(s: string) {
    forall i :: 0 <= i < |s| ==> !IsSpace(s[i])
  }

  /** The meaning of `^\S+@\S+\.\S+$`: no white space anywhere, and an `@`
      with at least one character before it, followed later by a `.` with
      at least one character on each side. */
  ghost predicate EmailPattern(s: string) {
    && NoSpace(s)
    && exists i, j :: 0 < i && i + 1 < j && j + 1 < |s| && s[i] == '@' && s[j] == '.'
  }

  /** The first index at or after `from` holding `c`, or `|s|`. */
  function IndexFrom(s: string, c: char, from: nat): (i: nat)
    requires from <= |s|
    ensures from <= i <= |s|
    ensures i < |s| ==> s[i] == c
    ensures forall k :: from <= k < i ==> s[k] != c
    decreases |s| - from
  {
    if from == |s| then |s|
    else if s[from] == c then from
    else IndexFrom(s, c, from + 1)
  }

  /** The last index before `end` holding `c`, or -1. */
  function LastBefore(s: string, c: char, end: nat): (i: int)
    requires end <= |s|
    ensures -1 <= i < end
    ensures 0 <= i ==> s[i] == c
    ensures forall k :: i < k < end ==> s[k] != c
  {
    if end == 0 then -1
    else if s[end - 1] == c then end - 1
    else LastBefore(s, c, end - 1)
  }

  /** The email `match` validator as a scan: the first `@` after the first
      character must come at least two places before the last `.` that is
      not the final character. */
  function IsEmail(s: string): bool {
    && NoSpace(s)
    && |s| > 0
    && var at := IndexFrom(s, '@', 1);
       var dot := LastBefore(s, '.', |s| - 1);
       at < |s| && at + 2 <= dot
  }

  /** The scan accepts exactly the strings the regular expression matches. */
  lemma IsEmailMatchesPattern(s: string)
    ensures IsEmail(s) <==> EmailPattern(s)
  {
    if IsEmail(s) {
      var at := IndexFrom(s, '@', 1);
      var dot := LastBefore(s, '.', |s| - 1);
      assert 0 < at && at + 1 < dot && dot + 1 < |s| && s[at] == '@' && s[dot] == '.';
    }
    if EmailPattern(s) {
      var i, j :| 0 < i && i + 1 < j && j + 1 < |s| && s[i] == '@' && s[j] == '.';
      var at := IndexFrom(s, '@', 1);
      var dot := LastBefore(s, '.', |s| - 1);
      assert at <= i;
      assert j <= dot;
    }
  }

  /** The path validators of the schema, checked on every save. */
  predicate ValidUser(u: User) {
    && 2 <= |u.name| <= 50
    && u.email != ""
    && IsEmail(u.email)
    && |u.password| >= 6
  }

  /** The unique index on email. */
  predicate EmailsUnique(users: map<Id, User>) {
    forall a, b :: a in users && b in users && users[a].email == users[b].email ==> a == b
  }

  /** Every stored user passes the schema validators. */
  predicate AllUsersValid(users: map<Id, User>) {
    forall id :: id in users ==> ValidUser(users[id])
  }
}
