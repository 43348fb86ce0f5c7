/** The client's authentication service: login against two built-in users
    when the store is not configured, or against the store's `users` table,
    and the token check that turns a stored token back into a user. Tokens are
    `btoa` of colon-separated fields. Exceptions become a failed response or
    no user; nothing is thrown. */
module AuthService {
  import opened Wrappers
  import opened Types
  import opened Text
  import opened Codec
  import opened Seqs

  const INVALID_LOGIN: string := "Invalid username or password"
  const LOGIN_RETRY: string := "Login failed. Please try again."

  /** A built-in user of the unconfigured mode. */
  datatype FallbackUser = FallbackUser(username: string, password: string, role: string, displayName: string)

  const FALLBACK_USERS: seq<FallbackUser> := [
    FallbackUser("admin", "admin123", ADMIN, "Administrator"),
    FallbackUser("staff", "staff123", STAFF, "Staff Member")
  ]

  /** A row of the store's `users` table. */
  datatype UserRecord = UserRecord(id: string, username: string, password_hash: string, role: string, display_name: Option<string>)

  /** The store's answer to a query by username: it threw, or it answered with
      a row or without one (an error or no data). */
  datatype Query = QueryThrew | Answered(row: Option<UserRecord>)

  datatype LoginResponse = LoginOk(user: User, token: string) | LoginError(error: string)

  /** The first built-in user satisfying `matches`, as `find` does. */
  function FindFallback(users: seq<FallbackUser>, username: string, password: Option<string>): (r: Option<FallbackUser>)
    ensures r.Some? ==> r.value in users && r.value.username == username
    ensures r.Some? && password.Some? ==> r.value.password == password.value
    ensures r.None? <==> forall i :: 0 <= i < |users| ==>
      users[i].username != username || (password.Some? && users[i].password != password.value)
  {
    if users == [] then None
    else if users[0].username == username && (password.None? || users[0].password == password.value) then Some(users[0])
    else FindFallback(users[1..], username, password)
  }

  /** `find` over the two built-in users, spelled out. */
  lemma FindInFallback(username: string, password: Option<string>)
    ensures FindFallback(FALLBACK_USERS, username, password) ==
      if username == "admin" && (password.None? || password.value == "admin123") then Some(FALLBACK_USERS[0])
      else if username == "staff" && (password.None? || password.value == "staff123") then Some(FALLBACK_USERS[1])
      else None
  {
    var users := FALLBACK_USERS;
    assert users[1..] == [users[1]];
    assert users[1..][1..] == [];
  }

  function UserOfFallback(u: FallbackUser): User
  {
    User(None, u.username, u.role, Some(u.displayName))
  }

  /** `data.display_name || data.username`. */
  function DisplayName(row: UserRecord): string
  {
    if row.display_name.Some? && row.display_name.value != [] then row.display_name.value else row.username
  }

  function UserOfRecord(row: UserRecord): User
  {
    User(Some(row.id), row.username, row.role, Some(DisplayName(row)))
  }

  /** `login` without a store: only the two built-in pairs are accepted, and
      the token is `btoa("username:role")`. */
  function FallbackLogin(username: string, password: string): (r: LoginResponse)
    ensures r.LoginOk? <==> (username == "admin" && password == "admin123") || (username == "staff" && password == "staff123")
    ensures r.LoginOk? ==> r.user.username == username && Btoa(username + ":" + r.user.role) == Some(r.token)
    ensures r.LoginOk? ==> r.user.role == (if username == "admin" then ADMIN else STAFF)
    ensures r.LoginError? ==> r.error == INVALID_LOGIN
  {
    FindInFallback(username, Some(password));
    match FindFallback(FALLBACK_USERS, username, Some(password))
    case Some(u) =>
      assert Latin1Bytes(u.username + ":" + u.role).Some?;
      LoginOk(UserOfFallback(u), Btoa(u.username + ":" + u.role).value)
    case None => LoginError(INVALID_LOGIN)
  }

  /** `login` against the store: no row or a different password is refused;
      a throwing query, last-login update (`updateThrew`) or `btoa` gives the
      retry message. The token is `btoa("username:role:id")`. */
  function StoreLogin(username: string, password: string, lookup: string -> Query, updateThrew: bool): (r: LoginResponse)
    ensures r.LoginOk? <==>
      && lookup(username).Answered? && lookup(username).row.Some?
      && password == lookup(username).row.value.password_hash
      && !updateThrew
      && Btoa(TokenText(lookup(username).row.value)).Some?
    ensures r.LoginOk? ==>
      && r.user == UserOfRecord(lookup(username).row.value)
      && Btoa(TokenText(lookup(username).row.value)) == Some(r.token)
    ensures r.LoginError? && lookup(username).Answered? && lookup(username).row.None? ==> r.error == INVALID_LOGIN
    ensures lookup(username).QueryThrew? ==> r == LoginError(LOGIN_RETRY)
    ensures lookup(username).Answered? && lookup(username).row.Some? && password != lookup(username).row.value.password_hash ==>
      r == LoginError(INVALID_LOGIN)
    ensures lookup(username).Answered? && lookup(username).row.Some? && password == lookup(username).row.value.password_hash ==>
      (updateThrew || Btoa(TokenText(lookup(username).row.value)).None? ==> r == LoginError(LOGIN_RETRY))
  {
    match lookup(username)
    case QueryThrew => LoginError(LOGIN_RETRY)
    case Answered(None) => LoginError(INVALID_LOGIN)
    case Answered(Some(row)) =>
      if password != row.password_hash then LoginError(INVALID_LOGIN)
      else if updateThrew then LoginError(LOGIN_RETRY)
      else
        match Btoa(TokenText(row))
        case None => LoginError(LOGIN_RETRY)
        case Some(token) => LoginOk(UserOfRecord(row), token)
  }

  /** `${username}:${role}:${id}`. */
  function TokenText(row: UserRecord): string
  {
    row.username + ":" + row.role + ":" + row.id
  }

  /** `login`. */
  function Login(configured: bool, username: string, password: string, lookup: string -> Query, updateThrew: bool): (r: LoginResponse)
    ensures !configured ==> r == FallbackLogin(username, password)
    ensures configured ==> r == StoreLogin(username, password, lookup, updateThrew)
  {
    if !configured then FallbackLogin(username, password) else StoreLogin(username, password, lookup, updateThrew)
  }

  /** The name and role a token carries: `atob` succeeds and the first two
      ':'-separated fields are present and non-empty. */
  function TokenFields(token: string): (r: Option<(string, string)>)
    ensures r.Some? <==>
      && Atob(token).Some? && |Split(Atob(token).value, ':')| >= 2
      && Split(Atob(token).value, ':')[0] != [] && Split(Atob(token).value, ':')[1] != []
    ensures r.Some? ==> r.value == (Split(Atob(token).value, ':')[0], Split(Atob(token).value, ':')[1])
  {
    match Atob(token)
    case None => None
    case Some(decoded) =>
      var parts := Split(decoded, ':');
      var username := parts[0];
      var role := if |parts| > 1 then parts[1] else [];
      if username == [] || role == [] then None else Some((username, role))
  }

  /** `verifyToken`: a token whose name or role is missing gives no user.
      Without a store the built-in user with that name is returned (the role
      in the token is not compared); with a store, the row found for that
      name, and no user when the query fails or finds none. */
  function VerifyToken(configured: bool, token: string, lookup: string -> Query): (r: Option<User>)
    ensures r.Some? ==> TokenFields(token).Some?
    ensures !configured ==>
      (r.Some? <==> TokenFields(token).Some? && TokenFields(token).value.0 in {"admin", "staff"})
    ensures !configured && r.Some? ==>
      && r.value.username == TokenFields(token).value.0
      && r.value.role == (if r.value.username == "admin" then ADMIN else STAFF)
    ensures configured ==>
      r == if TokenFields(token).Some? && lookup(TokenFields(token).value.0).Answered?
             && lookup(TokenFields(token).value.0).row.Some?
           then Some(UserOfRecord(lookup(TokenFields(token).value.0).row.value)) else None
  {
    match TokenFields(token)
    case None => None
    case Some((username, _)) =>
      if !configured then
        FindInFallback(username, None);
        match FindFallback(FALLBACK_USERS, username, None)
        case Some(u) => Some(UserOfFallback(u))
        case None => None
      else
        match lookup(username)
        case Answered(Some(row)) => Some(UserOfRecord(row))
        case _ => None
  }

  /** `getCurrentUser`: no stored token (or an empty one) gives no user. */
  function CurrentUser(configured: bool, stored: Option<string>, lookup: string -> Query): (r: Option<User>)
    ensures stored.None? || stored.value == [] ==> r.None?
    ensures stored.Some? && stored.value != [] ==> r == VerifyToken(configured, stored.value, lookup)
  {
    if stored.None? || stored.value == [] then None else VerifyToken(configured, stored.value, lookup)
  }

  /** The fields of a token built from `a:rest`, `a` and the first field of
      `rest` being free of ':' and not empty. */
  lemma TokenFieldsOf(a: string, b: string, rest: string)
    requires ':' !in a && ':' !in b && a != [] && b != []
    requires Btoa(a + ":" + b + rest).Some?
    requires rest == [] || rest[0] == ':'
    ensures TokenFields(Btoa(a + ":" + b + rest).value) == Some((a, b))
  {
    var text := a + ":" + b + rest;
    AtobBtoa(text);
    var parts := SplitPrefix(a, b, rest);
    assert Split(Atob(Btoa(text).value).value, ':') == parts;
  }

  /** The first two pieces of `a:b rest` are `a` and `b`. */
  lemma SplitPrefix(a: string, b: string, rest: string) returns (parts: seq<string>)
    requires ':' !in a && ':' !in b
    requires rest == [] || rest[0] == ':'
    ensures parts == Split(a + ":" + b + rest, ':') && |parts| >= 2 && parts[0] == a && parts[1] == b
  {
    assert a + ":" + b + rest == a + [':'] + (b + rest);
    SplitCons(a, b + rest, ':');
    var tail := Split(b + rest, ':');
    if rest == [] {
      assert b + rest == b;
    } else {
      assert b + rest == b + [':'] + rest[1..];
      SplitCons(b, rest[1..], ':');
    }
    assert tail[0] == b;
    parts := [a] + tail;
  }

  /** A token from a successful built-in login verifies back to the same user. */
  lemma FallbackTokenVerifies(username: string, password: string, lookup: string -> Query)
    requires FallbackLogin(username, password).LoginOk?
    ensures var r := FallbackLogin(username, password);
      VerifyToken(false, r.token, lookup) == Some(r.user)
  {
    var r := FallbackLogin(username, password);
    FindInFallback(username, Some(password));
    FindInFallback(username, None);
    assert username + ":" + r.user.role + [] == username + ":" + r.user.role;
    TokenFieldsOf(username, r.user.role, []);
  }

  /** A token from a successful store login verifies back to the same user,
      provided the stored name and role hold no ':' and are not empty, and
      looking the stored name up finds the same row. */
  lemma StoreTokenVerifies(username: string, password: string, lookup: string -> Query, updateThrew: bool)
    requires StoreLogin(username, password, lookup, updateThrew).LoginOk?
    requires var row := lookup(username).row.value;
      ':' !in row.username && ':' !in row.role && row.username != [] && row.role != []
    requires lookup(lookup(username).row.value.username) == lookup(username)
    ensures var r := StoreLogin(username, password, lookup, updateThrew);
      VerifyToken(true, r.token, lookup) == Some(r.user)
  {
    var row := lookup(username).row.value;
    assert TokenText(row) == row.username + ":" + row.role + (":" + row.id);
    TokenFieldsOf(row.username, row.role, ":" + row.id);
  }

  /** After a successful login the stored token makes `getCurrentUser`
      answer the user who logged in (for a store login, under the same
      conditions as `StoreTokenVerifies`). */
  lemma LoginThenCurrentUser(configured: bool, username: string, password: string, lookup: string -> Query, updateThrew: bool)
    requires Login(configured, username, password, lookup, updateThrew).LoginOk?
    requires configured ==> var row := lookup(username).row.value;
      && ':' !in row.username && ':' !in row.role && row.username != [] && row.role != []
      && lookup(row.username) == lookup(username)
    ensures var r := Login(configured, username, password, lookup, updateThrew);
      CurrentUser(configured, Some(r.token), lookup) == Some(r.user)
  {
    var r := Login(configured, username, password, lookup, updateThrew);
    if configured {
      StoreTokenVerifies(username, password, lookup, updateThrew);
    } else {
      FallbackTokenVerifies(username, password, lookup);
    }
    if r.token == [] {
      EmptyTokenFails(configured, lookup);
    }
  }

  /** An empty token verifies as nobody. */
  lemma EmptyTokenFails(configured: bool, lookup: string -> Query)
    ensures VerifyToken(configured, [], lookup).None?
  {
    assert Split([], ':') == [[]];
  }

  /** Without a store the role in a token is not checked: a token naming the
      built-in admin with any other role still verifies as the admin. */
  lemma FallbackIgnoresTokenRole(role: string, lookup: string -> Query)
    requires ':' !in role && role != [] && Btoa("admin:" + role).Some?
    ensures VerifyToken(false, Btoa("admin:" + role).value, lookup) == Some(UserOfFallback(FALLBACK_USERS[0]))
  {
    assert "admin:" + role == "admin" + ":" + role + [];
    TokenFieldsOf("admin", role, []);
    FindInFallback("admin", None);
  }
}
