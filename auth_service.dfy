/** The session store and demo credential check of src/services/authService.ts:
    an object holding the bearer token and the user, mirrored into two
    device-local storage entries, with the two HTTP interceptors it installs. */
module Auth {
  import opened Types
  import opened JsText

  const TokenKey: string := "token"
  const UserKey: string := "user"
  const AuthorizationHeader: string := "Authorization"
  const TokenPrefix: string := "demo-jwt-token-"
  const DemoPassword: string := "password"
  const AdminEmail: string := "admin@example.com"
  const UserEmail: string := "user@example.com"
  const InvalidCredentialsMessage: string := "Invalid credentials"
  const LoginFailedMessage: string := "Login failed. Please check your credentials."

  /** A storage entry: a raw string (the token) or the JSON text of a user
      profile, kept as the profile it encodes. */
  datatype Stored = Text(text: string) | UserJson(user: User)

  /** The token issued at clock reading `now` (milliseconds). */
  function DemoToken(now: nat): (t: string)
    ensures TokenPrefix <= t && t != ""
  {
    TokenPrefix + Decimal(now)
  }

  /** Logins at different clock readings get different tokens: the token
      determines the clock reading it was issued at. */
  lemma DemoTokenInjective(m: nat, n: nat)
    requires DemoToken(m) == DemoToken(n)
    ensures m == n
  {
    assert Decimal(m) == DemoToken(m)[|TokenPrefix|..];
    assert Decimal(n) == DemoToken(n)[|TokenPrefix|..];
    DecimalInjective(m, n);
  }

  /** The two demo identities: (email, password) pairs that log in. */
  predicate IsDemoCredential(cred: LoginRequest) {
    cred.password == DemoPassword && (cred.email == AdminEmail || cred.email == UserEmail)
  }

  /** The stand-in identity provider: a fixed two-row table. */
  function SimulateLogin(cred: LoginRequest, now: nat): (r: Result<LoginResponse, string>)
    ensures r.Ok? <==> IsDemoCredential(cred)
    ensures r.Ok? ==> TokenPrefix <= r.value.token && r.value.token == DemoToken(now)
    ensures r.Ok? ==> r.value.user.email == cred.email
    ensures r.Ok? && cred.email == AdminEmail ==>
      r.value.user == User("1", AdminEmail, "Admin User", "admin")
    ensures r.Ok? && cred.email == UserEmail ==>
      r.value.user == User("2", UserEmail, "Regular User", "user")
    ensures r.Err? ==> r.error == InvalidCredentialsMessage
  {
    if cred.email == AdminEmail && cred.password == DemoPassword then
      Ok(LoginResponse(DemoToken(now), User("1", cred.email, "Admin User", "admin")))
    else if cred.email == UserEmail && cred.password == DemoPassword then
      Ok(LoginResponse(DemoToken(now), User("2", cred.email, "Regular User", "user")))
    else
      Err(InvalidCredentialsMessage)
  }

  /** The observable state of the service: its two fields and the storage. */
  datatype SessionState = SessionState(token: Option<string>, user: Option<User>, storage: map<string, Stored>)

  /** The state after a login that received `resp`: fields and storage written through. */
  function AfterLogin(s: SessionState, resp: LoginResponse): (t: SessionState)
    ensures t.token == Some(resp.token) && t.user == Some(resp.user)
    ensures t.storage.Keys == s.storage.Keys + {TokenKey, UserKey}
    ensures t.storage[TokenKey] == Text(resp.token) && t.storage[UserKey] == UserJson(resp.user)
    ensures forall k | k in s.storage && k != TokenKey && k != UserKey :: t.storage[k] == s.storage[k]
  {
    SessionState(Some(resp.token), Some(resp.user), s.storage[TokenKey := Text(resp.token)][UserKey := UserJson(resp.user)])
  }

  /** The state after logout: both fields null, both entries removed. */
  function AfterLogout(s: SessionState): (t: SessionState)
    ensures t.token == None && t.user == None
    ensures t.storage.Keys == s.storage.Keys - {TokenKey, UserKey}
    ensures forall k | k in t.storage :: t.storage[k] == s.storage[k]
  {
    SessionState(None, None, s.storage - {TokenKey, UserKey})
  }

  /** Logging out twice leaves the same state as logging out once. */
  lemma LogoutIdempotent(s: SessionState)
    ensures AfterLogout(AfterLogout(s)) == AfterLogout(s)
  {
    assert AfterLogout(AfterLogout(s)).storage == AfterLogout(s).storage;
  }

  /** What the field initialisers can read back: a token entry is a raw
      string, and a user entry is the JSON text of a profile, the text
      `null`, or empty (`'' || 'null'` parses to null). */
  predicate Restorable(m: map<string, Stored>) {
    (TokenKey in m ==> m[TokenKey].Text?) &&
    (UserKey in m ==> m[UserKey].UserJson? || m[UserKey] == Text("") || m[UserKey] == Text("null"))
  }

  /** `localStorage.getItem('token')`. */
  function RestoredToken(m: map<string, Stored>): (r: Option<string>)
    requires Restorable(m)
    ensures r.Some? <==> TokenKey in m
    ensures r.Some? ==> m[TokenKey] == Text(r.value)
  {
    if TokenKey in m then Some(m[TokenKey].text) else None
  }

  /** `JSON.parse(localStorage.getItem('user') || 'null')`. */
  function RestoredUser(m: map<string, Stored>): (r: Option<User>)
    requires Restorable(m)
    ensures r.Some? ==> UserKey in m && m[UserKey] == UserJson(r.value)
    ensures r.None? ==> UserKey !in m || m[UserKey] == Text("") || m[UserKey] == Text("null")
  {
    if UserKey in m && m[UserKey].UserJson? then Some(m[UserKey].user) else None
  }

  /** A session written by login survives a restart: a service built from the
      storage afterwards holds the same token and user. After logout it holds
      neither. */
  lemma SessionSurvivesRestart(s: SessionState, resp: LoginResponse)
    ensures Restorable(AfterLogin(s, resp).storage)
    ensures RestoredToken(AfterLogin(s, resp).storage) == Some(resp.token)
    ensures RestoredUser(AfterLogin(s, resp).storage) == Some(resp.user)
    ensures Restorable(AfterLogout(s).storage)
    ensures RestoredToken(AfterLogout(s).storage) == None
    ensures RestoredUser(AfterLogout(s).storage) == None
  {
  }

  /** `!!token`: a token is present and is not the empty string. */
  predicate HasToken(token: Option<string>) {
    token.Some? && token.value != ""
  }

  class AuthService {
    var token: Option<string>
    var user: Option<User>
    /** `localStorage`, restricted to what this service touches and what was there. */
    var storage: map<string, Stored>

    function State(): SessionState
      reads this
    {
      SessionState(token, user, storage)
    }

    /** Module load: both fields are read back from storage. */
    constructor (initial: map<string, Stored>)
      requires Restorable(initial)
      ensures storage == initial
      ensures token == RestoredToken(initial) && user == RestoredUser(initial)
    {
      storage := initial;
      token := RestoredToken(initial);
      user := RestoredUser(initial);
    }

    /** Checks the credentials and writes the session through. Any failure
        becomes the one fixed message and leaves everything as it was. */
    method Login(cred: LoginRequest, now: nat) returns (r: Result<LoginResponse, string>)
      modifies this
      ensures IsDemoCredential(cred) ==>
        r == SimulateLogin(cred, now) && State() == AfterLogin(old(State()), r.value) && IsAuthenticated()
      ensures IsDemoCredential(cred) ==>
        forall headers :: AuthorizeHeaders(headers) == headers[AuthorizationHeader := "Bearer " + DemoToken(now)]
      ensures !IsDemoCredential(cred) ==>
        r == Err(LoginFailedMessage) && State() == old(State())
    {
      var response := SimulateLogin(cred, now);
      if response.Err? {
        return Err(LoginFailedMessage);
      }
      token := Some(response.value.token);
      user := Some(response.value.user);
      storage := storage[TokenKey := Text(response.value.token)];
      storage := storage[UserKey := UserJson(response.value.user)];
      r := response;
    }

    method Logout()
      modifies this
      ensures State() == AfterLogout(old(State()))
      ensures !IsAuthenticated()
      ensures forall headers :: AuthorizeHeaders(headers) == headers
    {
      token := None;
      user := None;
      storage := storage - {TokenKey};
      storage := storage - {UserKey};
    }

    function IsAuthenticated(): (b: bool)
      reads this
      ensures b ==> token.Some? && |token.value| > 0
      ensures token.Some? && |token.value| > 0 ==> b
    {
      HasToken(token)
    }

    /** The request interceptor: adds `Authorization: Bearer <token>` when a
        token is present, and otherwise passes the headers through. */
    function AuthorizeHeaders(headers: map<string, string>): (h: map<string, string>)
      reads this
      ensures IsAuthenticated() ==> AuthorizationHeader in h && h[AuthorizationHeader] == "Bearer " + token.value
      ensures h.Keys <= headers.Keys + {AuthorizationHeader}
      ensures forall k | k in headers && k != AuthorizationHeader :: k in h && h[k] == headers[k]
      ensures !IsAuthenticated() ==> h == headers
    {
      if HasToken(token) then
        headers[AuthorizationHeader := "Bearer " + token.value]
      else
        headers
    }

    /** The response interceptor, applied to the outcome of every HTTP call:
        a 401 logs out before the failure is passed on; any outcome is passed
        on unchanged. */
    method Exchange<T>(outcome: Result<T, HttpFailure>) returns (r: Result<T, HttpFailure>)
      modifies this
      ensures r == outcome
      ensures outcome.Err? && IsUnauthorized(outcome.error) ==> State() == AfterLogout(old(State()))
      ensures !(outcome.Err? && IsUnauthorized(outcome.error)) ==> State() == old(State())
      ensures outcome.Err? && IsUnauthorized(outcome.error) ==> forall headers :: AuthorizeHeaders(headers) == headers
    {
      if outcome.Err? && outcome.error.status == Some(Unauthorized) {
        Logout();
      }
      r := outcome;
    }
  }
}
