/** The Express server's authentication: the `base64("username:role")`
    bearer token, the user lookup behind it, the login endpoint and the role
    checks in front of the protected routes. */
module ServerAuth {
  import opened Wrappers
  import opened Types
  import opened Text
  import opened Codec

  const UNAUTHORIZED: string := "Unauthorized"
  const ADMIN_REQUIRED: string := "Admin role required"
  const STAFF_REQUIRED: string := "Staff/Admin required"
  const MISSING_FIELDS: string := "Missing username/password"
  const INVALID_CREDENTIALS: string := "Invalid credentials"
  const LOGIN_FAILED: string := "Login failed"
  const DEV_PASSWORDS: seq<string> := ["admin123", "staff123"]

  // ---------------------------------------------------------------- tokens

  /** `makeToken`: the UTF-8 bytes of `username:role` in base64 (section 4 of
      RFC 4648). */
  function MakeToken(username: string, role: string): (token: string)
    ensures |token| % 4 == 0 && |token| > 0
  {
    var b := EncodeUtf8(username + ":" + role);
    assert |b| >= 1;
    EncodeLength(b);
    Encode(b)
  }

  /** What `decodeToken` destructures: the first two `:`-separated pieces;
      the role is `undefined` when there is no `:`. */
  datatype TokenUser = TokenUser(username: string, role: Option<string>)

  /** `decodeToken`: `None` where decoding fails (the `catch` answers `null`). */
  function DecodeToken(token: string): (r: Option<TokenUser>)
    ensures r.Some? ==> ':' !in r.value.username
    ensures r.Some? && r.value.role.Some? ==> ':' !in r.value.role.value
  {
    match Decode(token)
    case None => None
    case Some(b) =>
      var parts := Split(DecodeUtf8(b), ':');
      Some(TokenUser(parts[0], if |parts| > 1 then Some(parts[1]) else None))
  }

  /** A token made for a user whose name and role hold no `:` decodes to that
      name and role. */
  lemma DecodeMakeToken(username: string, role: string)
    requires ':' !in username && ':' !in role
    ensures DecodeToken(MakeToken(username, role)) == Some(TokenUser(username, Some(role)))
  {
    var s := username + ":" + role;
    DecodeEncode(EncodeUtf8(s));
    DecodeEncodeUtf8(s);
    assert Join([username, role], ':') == s by {
      assert [username, role][1..] == [role];
    }
    SplitJoin([username, role], ':');
  }

  /** A name with a `:` does not survive the round trip: the decoded name
      stops at the first `:`. */
  lemma ColonCutsUsername(username: string, role: string)
    requires ':' in username
    ensures DecodeToken(MakeToken(username, role)).Some?
    ensures DecodeToken(MakeToken(username, role)).value.username != username
  {
    var s := username + ":" + role;
    DecodeEncode(EncodeUtf8(s));
    DecodeEncodeUtf8(s);
  }

  // ---------------------------------------------------------------- users

  /** A row of the `users` table. */
  datatype UserRow = UserRow(username: string, role: string, password_hash: Option<string>, display_name: Option<string>)

  /** What the store answered to a `users` query by name. */
  datatype Lookup = LookupFailed | Looked(row: Option<UserRow>)

  /** The user attached to a request. */
  datatype ServerUser = ServerUser(username: string, role: string, displayName: string)

  /** `a || b` on an optional text: an empty text counts as missing. */
  function OrElse(a: Option<string>, b: string): string
  {
    if a.Some? && a.value != [] then a.value else b
  }

  function UserOfRow(row: UserRow): ServerUser
  {
    ServerUser(row.username, row.role, OrElse(row.display_name, row.username))
  }

  /** `getUserFromTokenHeader`: a `Bearer <token>` header whose token decodes
      and names a stored user gives that user; anything else gives none.
      `lookup` answers the query for the decoded name. */
  function UserFromHeader(header: string, lookup: string -> Lookup): (r: Option<ServerUser>)
    ensures var parts := Split(header, ' ');
      r.Some? <==>
        && |parts| > 1 && parts[0] == "Bearer" && parts[1] != []
        && DecodeToken(parts[1]).Some?
        && lookup(DecodeToken(parts[1]).value.username).Looked?
        && lookup(DecodeToken(parts[1]).value.username).row.Some?
    ensures r.Some? ==>
      var token := Split(header, ' ')[1];
      r.value == UserOfRow(lookup(DecodeToken(token).value.username).row.value)
  {
    var parts := Split(header, ' ');
    if |parts| < 2 || parts[0] != "Bearer" || parts[1] == [] then None
    else
      match DecodeToken(parts[1])
      case None => None
      case Some(decoded) =>
        match lookup(decoded.username)
        case LookupFailed => None
        case Looked(None) => None
        case Looked(Some(row)) => Some(UserOfRow(row))
  }

  /** A request sent with the bearer token of a stored user who has no `:` in
      the name is attached to that user. */
  lemma HeaderOfMadeToken(row: UserRow, lookup: string -> Lookup)
    requires ':' !in row.username && ':' !in row.role
    requires lookup(row.username) == Looked(Some(row))
    ensures UserFromHeader("Bearer " + MakeToken(row.username, row.role), lookup) == Some(UserOfRow(row))
  {
    var token := MakeToken(row.username, row.role);
    DecodeMakeToken(row.username, row.role);
    EncodeAlphabet(EncodeUtf8(row.username + ":" + row.role));
    SplitBearer(token);
  }

  lemma SplitBearer(token: string)
    requires ' ' !in token
    ensures Split("Bearer " + token, ' ') == ["Bearer", token]
  {
    assert "Bearer " + token == Join(["Bearer", token], ' ') by {
      assert ["Bearer", token][1..] == [token];
    }
    SplitJoin(["Bearer", token], ' ');
  }

  // ---------------------------------------------------------------- gates

  /** The outcome of a middleware check. */
  datatype Gate = Pass | Refuse(status: int, error: string)

  /** `authMiddleware`: 401 without a user. */
  function Authenticate(user: Option<ServerUser>): (g: Gate)
    ensures g.Pass? <==> user.Some?
    ensures g.Refuse? ==> g == Refuse(401, UNAUTHORIZED)
  {
    if user.None? then Refuse(401, UNAUTHORIZED) else Pass
  }

  /** `requireAdmin`: 401 without a user, 403 for any role but admin. */
  function RequireAdmin(user: Option<ServerUser>): (g: Gate)
    ensures g.Pass? <==> user.Some? && user.value.role == ADMIN
    ensures g == Refuse(401, UNAUTHORIZED) <==> user.None?
    ensures g == Refuse(403, ADMIN_REQUIRED) <==> user.Some? && user.value.role != ADMIN
  {
    if user.None? then Refuse(401, UNAUTHORIZED)
    else if user.value.role != ADMIN then Refuse(403, ADMIN_REQUIRED)
    else Pass
  }

  /** The order endpoints' check: 403 unless the role is staff or admin. */
  function RequireStaff(user: ServerUser): (g: Gate)
    ensures g.Pass? <==> user.role == STAFF || user.role == ADMIN
    ensures g.Refuse? ==> g == Refuse(403, STAFF_REQUIRED)
  {
    if user.role != STAFF && user.role != ADMIN then Refuse(403, STAFF_REQUIRED) else Pass
  }

  /** Whoever passes the admin check passes the staff check. */
  lemma AdminIsStaff(user: ServerUser)
    requires RequireAdmin(Some(user)).Pass?
    ensures RequireStaff(user).Pass?
  {
  }

  // ---------------------------------------------------------------- login

  /** An entry of the server's built-in `localUsers`. */
  datatype LocalUser = LocalUser(username: string, password: string, role: string, displayName: string)

  const LOCAL_USERS: map<string, LocalUser> := map[
    "admin" := LocalUser("admin", "admin123", ADMIN, "Administrator"),
    "staff" := LocalUser("staff", "staff123", STAFF, "Staff Member")]

  datatype LoginReply = LoggedIn(token: string, user: ServerUser) | LoginRefused(status: int, error: string)

  /** `String(data.password_hash || '')`. */
  function StoredHash(row: UserRow): string
  {
    OrElse(row.password_hash, "")
  }

  /** `POST /api/login`, given the store's answer for the name. */
  function Login(username: string, password: string, answer: Lookup): (r: LoginReply)
    ensures r == LoginRefused(400, MISSING_FIELDS) <==> username == [] || password == []
    ensures username != [] && password != [] && answer.LookupFailed? ==> r == LoginRefused(500, LOGIN_FAILED)
    ensures username != [] && password != [] && answer == Looked(None) ==>
      (r.LoggedIn? <==> username in LOCAL_USERS && LOCAL_USERS[username].password == password)
    ensures username != [] && password != [] && answer.Looked? && answer.row.Some? ==>
      (r.LoggedIn? <==> password == StoredHash(answer.row.value) || password in DEV_PASSWORDS)
    ensures username != [] && password != [] && answer == Looked(None) && r.LoggedIn? ==>
      r.user == ServerUser(username, LOCAL_USERS[username].role, LOCAL_USERS[username].displayName)
    ensures username != [] && password != [] && answer.Looked? && answer.row.Some? && r.LoggedIn? ==>
      r.user == UserOfRow(answer.row.value)
    ensures username != [] && password != [] && answer.Looked? && !r.LoggedIn? ==>
      r == LoginRefused(401, INVALID_CREDENTIALS)
    ensures r.LoggedIn? ==> r.token == MakeToken(r.user.username, r.user.role)
    ensures r.LoginRefused? && r.status == 401 ==> r.error == INVALID_CREDENTIALS
  {
    if username == [] || password == [] then LoginRefused(400, MISSING_FIELDS)
    else
      match answer
      case LookupFailed => LoginRefused(500, LOGIN_FAILED)
      case Looked(None) =>
        if username in LOCAL_USERS && LOCAL_USERS[username].password == password then
          var lu := LOCAL_USERS[username];
          LoggedIn(MakeToken(lu.username, lu.role), ServerUser(lu.username, lu.role, lu.displayName))
        else LoginRefused(401, INVALID_CREDENTIALS)
      case Looked(Some(row)) =>
        if password == StoredHash(row) || password in DEV_PASSWORDS then
          LoggedIn(MakeToken(row.username, row.role), UserOfRow(row))
        else LoginRefused(401, INVALID_CREDENTIALS)
  }

  /** The development passwords open every stored account, whatever its hash. */
  lemma DevPasswordOpensStoredUsers(username: string, row: UserRow)
    requires username != []
    ensures Login(username, "admin123", Looked(Some(row))) == LoggedIn(MakeToken(row.username, row.role), UserOfRow(row))
    ensures Login(username, "staff123", Looked(Some(row))) == LoggedIn(MakeToken(row.username, row.role), UserOfRow(row))
  {
  }

  /** The token a login hands out authenticates its holder on later
      requests, as long as the store still holds the user. */
  lemma LoginTokenAuthenticates(username: string, password: string, row: UserRow, lookup: string -> Lookup)
    requires Login(username, password, Looked(Some(row))).LoggedIn?
    requires ':' !in row.username && ':' !in row.role
    requires lookup(row.username) == Looked(Some(row))
    ensures var r := Login(username, password, Looked(Some(row)));
      UserFromHeader("Bearer " + r.token, lookup) == Some(r.user)
  {
    HeaderOfMadeToken(row, lookup);
  }
}
