/** The authentication context: the signed-in user, the stored token
    (`authToken`) and the loading flag, with login, logout and the session
    restore that runs when the provider mounts. The auth-changed events and
    the logout timer are not modelled. */
module AuthContext {
  import opened Wrappers
  import opened Types
  import opened Codec
  import opened AuthService

  /** `login`'s test on the service's answer: a user and a non-empty token. */
  predicate Accepted(response: LoginResponse)
  {
    response.LoginOk? && response.token != []
  }

  /** Every successful login of the service carries a non-empty token, so the
      context accepts exactly the successful answers. */
  lemma SuccessIsAccepted(configured: bool, username: string, password: string, lookup: string -> Query, updateThrew: bool)
    ensures var r := Login(configured, username, password, lookup, updateThrew);
      Accepted(r) <==> r.LoginOk?
  {
    var r := Login(configured, username, password, lookup, updateThrew);
    if r.LoginOk? {
      var text := if configured then TokenText(lookup(username).row.value) else username + ":" + r.user.role;
      assert Btoa(text) == Some(r.token);
      assert |text| > 0;
      var b := Latin1Bytes(text).value;
      assert |b| == |text|;
      assert r.token == Encode(b);
      EncodeLength(b);
    }
  }

  class Session {
    var user: Option<User>
    var token: Option<string>
    var isLoading: bool

    /** The provider starts with no user and loading. */
    constructor (token: Option<string>)
      ensures user.None? && this.token == token && isLoading
    {
      user := None;
      this.token := token;
      isLoading := true;
    }

    /** `!!user`. */
    predicate IsAuthenticated()
      reads this
    {
      user.Some?
    }

    /** `user?.role === 'admin'`. */
    predicate IsAdmin()
      reads this
    {
      user.Some? && user.value.role == ADMIN
    }

    /** The mount-time restore: the user the stored token verifies to, if
        any, is set (a previous user is otherwise kept); loading ends. */
    method RestoreSession(configured: bool, lookup: string -> Query)
      modifies this
      ensures var current := CurrentUser(configured, old(token), lookup);
        user == (if current.Some? then current else old(user))
      ensures token == old(token) && !isLoading
    {
      var current := CurrentUser(configured, token, lookup);
      if current.Some? {
        user := current;
      }
      isLoading := false;
    }

    /** `login`: an accepted answer sets the user and stores the token and
        reports true; otherwise nothing changes and it reports false. */
    method Login(configured: bool, username: string, password: string, lookup: string -> Query, updateThrew: bool)
      returns (ok: bool)
      modifies this
      ensures var response := AuthService.Login(configured, username, password, lookup, updateThrew);
        ok == Accepted(response)
        && (ok ==> user == Some(response.user) && token == Some(response.token))
        && (!ok ==> user == old(user) && token == old(token))
      ensures isLoading == old(isLoading)
    {
      var response := AuthService.Login(configured, username, password, lookup, updateThrew);
      if response.LoginOk? && response.token != [] {
        user := Some(response.user);
        token := Some(response.token);
        return true;
      }
      return false;
    }

    /** `logout`: no user and no stored token. */
    method Logout()
      modifies this
      ensures user.None? && token.None? && isLoading == old(isLoading)
    {
      user := None;
      token := None;
    }
  }

  /** Without a store, a session restored from the token of a successful login
      holds the same user the login set. */
  lemma FallbackSessionSurvivesReload(username: string, password: string, lookup: string -> Query)
    requires Login(false, username, password, lookup, false).LoginOk?
    ensures var r := Login(false, username, password, lookup, false);
      CurrentUser(false, Some(r.token), lookup) == Some(r.user)
  {
    SuccessIsAccepted(false, username, password, lookup, false);
    FallbackTokenVerifies(username, password, lookup);
  }
}
