/** Single sign-on through OpenID Connect: the settings record and when it counts as
    configured, the authorization request of RFC 6749 section 4.1.1 with the `nonce` of
    OpenID Connect Core 1.0 section 3.1.2.1, and the decisions of the callback, which
    checks the state, trusts only a verified email (OpenID Connect Core 1.0 section 5.1)
    and then finds, links or creates the local user. The token and userinfo HTTP
    exchanges (RFC 6749 section 4.1.3) are inputs. */
module Oidc {
  import opened Wrappers
  import opened PhpStrings
  import opened Crypto
  import opened Attributes
  import opened Accounts

  datatype OidcSetting = OidcSetting(
    clientId: Option<string>,
    /** The raw column: a ciphertext or null. */
    clientSecret: Option<Ciphertext>,
    scope: Option<string>,
    loginEndpointUrl: Option<string>,
    tokenEndpointUrl: Option<string>,
    userinfoEndpointUrl: Option<string>,
    tokenValidationEndpointUrl: Option<string>,
    endSessionEndpointUrl: Option<string>,
    identityKey: Option<string>,
    linkExistingUsers: bool,
    createNewUsers: bool,
    redirectOnExpiry: bool)

  /** `! empty($v)` on a string attribute. */
  predicate Filled(v: Option<string>) {
    v.Some? && Truthy(v.value)
  }

  /** `isConfigured()`: client id, client secret and the login, token and userinfo
      endpoints are all non-empty. */
  predicate IsConfigured(s: OidcSetting) {
    && Filled(s.clientId)
    && Filled(ReadEncrypted(s.clientSecret))
    && Filled(s.loginEndpointUrl)
    && Filled(s.tokenEndpointUrl)
    && Filled(s.userinfoEndpointUrl)
  }

  /** Scope, identity key, the other endpoints and the three flags play no part. */
  lemma IsConfiguredIgnoresOptions(s: OidcSetting, t: OidcSetting)
    requires s.clientId == t.clientId && s.clientSecret == t.clientSecret
    requires s.loginEndpointUrl == t.loginEndpointUrl && s.tokenEndpointUrl == t.tokenEndpointUrl
    requires s.userinfoEndpointUrl == t.userinfoEndpointUrl
    ensures IsConfigured(s) <==> IsConfigured(t)
  {
  }

  /** A secret stored through the mutator counts as present exactly when it was
      truthy. */
  lemma StoredSecretIsFilled(value: Option<string>)
    ensures Filled(ReadEncrypted(StoreEncrypted(value))) <==> Filled(value)
  {
    EncryptedRoundTrip(value);
  }

  /** `getConfigured()`: the first settings row when it is configured; later rows are
      never considered. */
  function GetConfigured(rows: seq<OidcSetting>): (r: Option<OidcSetting>)
    ensures r.Some? <==> rows != [] && IsConfigured(rows[0])
    ensures r.Some? ==> r.value == rows[0]
  {
    if rows != [] && IsConfigured(rows[0]) then Some(rows[0]) else None
  }

  /** The login page's `oidcConfigured`: the first row has a client id and a login
      endpoint. */
  predicate LoginButtonShown(rows: seq<OidcSetting>) {
    rows != [] && Filled(rows[0].clientId) && Filled(rows[0].loginEndpointUrl)
  }

  /** The login button is shown whenever sign-on is configured ... */
  lemma ConfiguredShowsButton(rows: seq<OidcSetting>)
    requires GetConfigured(rows).Some?
    ensures LoginButtonShown(rows)
  {
  }

  /** ... but also for settings without a secret, a token or a userinfo endpoint, for
      which both sign-on actions answer that sign-on is not configured. */
  lemma ButtonWithoutConfiguration(s: OidcSetting)
    requires Filled(s.clientId) && Filled(s.loginEndpointUrl) && s.clientSecret.None?
    ensures LoginButtonShown([s]) && GetConfigured([s]).None?
  {
  }

  /** `toArray()`: the client secret is hidden. */
  function SettingToArray(s: OidcSetting): (m: map<string, Json>)
    ensures "client_secret" !in m
  {
    map["client_id" := JsonOf(s.clientId), "scope" := JsonOf(s.scope),
        "login_endpoint_url" := JsonOf(s.loginEndpointUrl), "token_endpoint_url" := JsonOf(s.tokenEndpointUrl),
        "userinfo_endpoint_url" := JsonOf(s.userinfoEndpointUrl),
        "token_validation_endpoint_url" := JsonOf(s.tokenValidationEndpointUrl),
        "end_session_endpoint_url" := JsonOf(s.endSessionEndpointUrl), "identity_key" := JsonOf(s.identityKey),
        "link_existing_users" := JBool(s.linkExistingUsers), "create_new_users" := JBool(s.createNewUsers),
        "redirect_on_expiry" := JBool(s.redirectOnExpiry)]
  }

  function JsonOf(v: Option<string>): Json {
    if v.Some? then JString(v.value) else JNull
  }

  // ---------------------------------------------------------------------------
  // The authorization request

  /** Query parameters, in order. */
  type Params = seq<(string, string)>

  /** The value of the first parameter with that key. */
  function Lookup(p: Params, k: string): Option<string> {
    if p == [] then None else if p[0].0 == k then Some(p[0].1) else Lookup(p[1..], k)
  }

  predicate DistinctKeys(p: Params) {
    forall i, j :: 0 <= i < j < |p| ==> p[i].0 != p[j].0
  }

  /** The parameters of `b` whose key `a` lacks. */
  function Missing(a: Params, b: Params): Params {
    if b == [] then []
    else (if Lookup(a, b[0].0).None? then [b[0]] else []) + Missing(a, b[1..])
  }

  /** `array_merge` with string keys: the keys of `a` keep their place and take the value
      from `b` where `b` has the key; the keys only `b` has follow, in `b`'s order. */
  function ArrayMerge(a: Params, b: Params): (r: Params)
    ensures |r| >= |a|
    ensures forall i :: 0 <= i < |a| ==> r[i].0 == a[i].0
  {
    seq(|a|, i requires 0 <= i < |a| => (a[i].0, Lookup(b, a[i].0).GetOr(a[i].1))) + Missing(a, b)
  }

  /** In the merge the new values win, and every old key without a new value keeps its
      old value. */
  lemma {:induction false} ArrayMergeLookup(a: Params, b: Params, k: string)
    ensures Lookup(ArrayMerge(a, b), k) == if Lookup(b, k).Some? then Lookup(b, k) else Lookup(a, k)
  {
    var r := ArrayMerge(a, b);
    var head := seq(|a|, i requires 0 <= i < |a| => (a[i].0, Lookup(b, a[i].0).GetOr(a[i].1)));
    assert r == head + Missing(a, b);
    LookupAppend(head, Missing(a, b), k);
    LookupMapped(a, b, k);
    if Lookup(a, k).None? {
      LookupMissing(a, b, k);
    }
  }

  lemma {:induction false} LookupAppend(p: Params, q: Params, k: string)
    ensures Lookup(p + q, k) == if Lookup(p, k).Some? then Lookup(p, k) else Lookup(q, k)
  {
    if p == [] {
      assert p + q == q;
    } else {
      assert (p + q)[0] == p[0] && (p + q)[1..] == p[1..] + q;
      if p[0].0 != k {
        LookupAppend(p[1..], q, k);
      }
    }
  }

  /** The first parameter with key `k` is the `i`-th. */
  lemma {:induction false} LookupAt(p: Params, i: nat, k: string)
    requires i < |p| && p[i].0 == k
    requires forall j :: 0 <= j < i ==> p[j].0 != k
    ensures Lookup(p, k) == Some(p[i].1)
  {
    if i > 0 {
      LookupAt(p[1..], i - 1, k);
    }
  }

  /** Looking up in the rewritten head of the merge. */
  lemma {:induction false} LookupMapped(a: Params, b: Params, k: string)
    ensures var head := seq(|a|, i requires 0 <= i < |a| => (a[i].0, Lookup(b, a[i].0).GetOr(a[i].1)));
            Lookup(head, k) == if Lookup(a, k).Some? then Some(Lookup(b, k).GetOr(Lookup(a, k).value)) else None
  {
    var head := seq(|a|, i requires 0 <= i < |a| => (a[i].0, Lookup(b, a[i].0).GetOr(a[i].1)));
    if a != [] {
      var tail := a[1..];
      var headTail := seq(|tail|, i requires 0 <= i < |tail| => (tail[i].0, Lookup(b, tail[i].0).GetOr(tail[i].1)));
      assert head[1..] == headTail;
      LookupMapped(tail, b, k);
    }
  }

  lemma {:induction false} LookupMissing(a: Params, b: Params, k: string)
    requires Lookup(a, k).None?
    ensures Lookup(Missing(a, b), k) == Lookup(b, k)
  {
    if b != [] {
      var first: Params := if Lookup(a, b[0].0).None? then [b[0]] else [];
      assert Missing(a, b) == first + Missing(a, b[1..]);
      LookupAppend(first, Missing(a, b[1..]), k);
      if b[0].0 != k {
        assert Lookup(first, k).None? by {
          if first != [] {
            assert first[0].0 != k && first[1..] == [];
          }
        }
        LookupMissing(a, b[1..], k);
      }
    }
  }

  const DefaultScope := "openid profile email"

  /** The request parameters, in the order they are sent. */
  function RequestParams(s: OidcSetting, callbackUrl: string, state: string, nonce: string): Params {
    [("client_id", s.clientId.GetOr("")), ("redirect_uri", callbackUrl), ("response_type", "code"),
     ("scope", s.scope.GetOr(DefaultScope)), ("state", state), ("nonce", nonce)]
  }

  /** The request asks for an authorization code, and carries the client id, the
      callback, the scope (by default `openid profile email`), the state and the nonce. */
  lemma RequestParamsValues(s: OidcSetting, callbackUrl: string, state: string, nonce: string)
    ensures var p := RequestParams(s, callbackUrl, state, nonce);
            && Lookup(p, "client_id") == Some(s.clientId.GetOr(""))
            && Lookup(p, "redirect_uri") == Some(callbackUrl)
            && Lookup(p, "response_type") == Some("code")
            && Lookup(p, "scope") == Some(s.scope.GetOr(DefaultScope))
            && Lookup(p, "state") == Some(state)
            && Lookup(p, "nonce") == Some(nonce)
  {
    var p := RequestParams(s, callbackUrl, state, nonce);
    var keys := ["client_id", "redirect_uri", "response_type", "scope", "state", "nonce"];
    assert forall i :: 0 <= i < 6 ==> p[i].0 == keys[i];
    assert forall i, j :: 0 <= i < j < 6 ==> keys[i] != keys[j];
    LookupAt(p, 0, "client_id");
    LookupAt(p, 1, "redirect_uri");
    LookupAt(p, 2, "response_type");
    LookupAt(p, 3, "scope");
    LookupAt(p, 4, "state");
    LookupAt(p, 5, "nonce");
  }

  /** What `parse_url` (with `parse_str` on the query) makes of an endpoint. */
  datatype ParsedUrl = ParsedUrl(scheme: Option<string>, host: Option<string>, port: Option<int>,
                                 path: Option<string>, query: Option<Params>, fragment: Option<string>)

  /** The authorization URL: scheme (https by default), host, path, and the merged query;
      there is no place for a port or a fragment. */
  datatype AuthUrl = AuthUrl(scheme: string, host: string, path: string, query: Params)

  function AuthorizationUrl(endpoint: ParsedUrl, params: Params): (u: AuthUrl)
    ensures u.scheme == endpoint.scheme.GetOr("https")
    ensures u.host == endpoint.host.GetOr("") && u.path == endpoint.path.GetOr("")
    ensures u.query == ArrayMerge(endpoint.query.GetOr([]), params)
  {
    AuthUrl(endpoint.scheme.GetOr("https"), endpoint.host.GetOr(""), endpoint.path.GetOr(""),
            ArrayMerge(endpoint.query.GetOr([]), params))
  }

  /** Two endpoints that differ only in port and fragment give the same URL. */
  lemma PortAndFragmentDropped(e1: ParsedUrl, e2: ParsedUrl, params: Params)
    requires e1.(port := None, fragment := None) == e2.(port := None, fragment := None)
    ensures AuthorizationUrl(e1, params) == AuthorizationUrl(e2, params)
  {
    assert e1.scheme == e2.scheme && e1.host == e2.host && e1.path == e2.path && e1.query == e2.query;
  }

  /** `$session->get($key)`. */
  function Get(values: map<string, string>, key: string): (r: Option<string>)
    ensures r.Some? <==> key in values
    ensures r.Some? ==> r.value == values[key]
  {
    if key in values then Some(values[key]) else None
  }

  /** The session store. */
  class Session {
    var values: map<string, string>

    constructor (values: map<string, string>)
      ensures this.values == values
    {
      this.values := values;
    }
  }

  const NotConfiguredMessage := "SSO authentication is not configured."

  datatype RedirectResult = ToLogin(error: string) | ToProvider(url: AuthUrl)

  /** `redirect`: when sign-on is configured, the state and the nonce go into the
      session and the browser is sent to the login endpoint with the merged query.
      `state` and `nonce` stand for `Str::random(40)` and `Str::random(32)`, `parse` for
      `parse_url`, `callbackUrl` for the callback route. */
  method Redirect(rows: seq<OidcSetting>, session: Session, parse: string -> ParsedUrl, callbackUrl: string,
                  state: string, nonce: string) returns (r: RedirectResult)
    requires |state| == 40 && |nonce| == 32
    modifies session
    ensures GetConfigured(rows).None? ==> r == ToLogin(NotConfiguredMessage) && unchanged(session)
    ensures GetConfigured(rows).Some? ==>
              var s := rows[0];
              && session.values == old(session.values)["oauth_state" := state]["oauth_nonce" := nonce]
              && r == ToProvider(AuthorizationUrl(parse(s.loginEndpointUrl.value),
                                                  RequestParams(s, callbackUrl, state, nonce)))
    ensures r.ToProvider? ==> |session.values["oauth_state"]| == 40 && |session.values["oauth_nonce"]| == 32
    ensures r.ToProvider? ==> forall k :: Lookup(RequestParams(rows[0], callbackUrl, state, nonce), k).Some? ==>
              Lookup(r.url.query, k) == Lookup(RequestParams(rows[0], callbackUrl, state, nonce), k)
  {
    var settings := GetConfigured(rows);
    if settings.None? {
      return ToLogin(NotConfiguredMessage);
    }
    var s := settings.value;
    session.values := session.values["oauth_state" := state];
    session.values := session.values["oauth_nonce" := nonce];
    var params := RequestParams(s, callbackUrl, state, nonce);
    var parsed := parse(s.loginEndpointUrl.value);
    r := ToProvider(AuthorizationUrl(parsed, params));
    forall k | Lookup(params, k).Some? ensures Lookup(r.url.query, k) == Lookup(params, k) {
      ArrayMergeLookup(parsed.query.GetOr([]), params, k);
    }
  }

  // ---------------------------------------------------------------------------
  // The callback

  /** A userinfo claim: a JSON boolean, a string (numbers as their text), or null. */
  datatype Claim = CBool(b: bool) | CText(s: string) | CNull

  predicate ClaimTruthy(c: Claim) {
    match c
    case CBool(b) => b
    case CText(s) => Truthy(s)
    case CNull => false
  }

  /** A claim used as a string. */
  function ClaimText(c: Claim): string {
    match c
    case CBool(b) => if b then "1" else ""
    case CText(s) => s
    case CNull => ""
  }

  type Claims = map<string, Claim>

  /** `$claims[$key] ?? ...`: the claim when it is present and not null. */
  function Present(claims: Claims, key: string): (r: Option<Claim>)
    ensures r.Some? <==> key in claims && claims[key] != CNull
    ensures r.Some? ==> r.value == claims[key]
  {
    if key in claims && claims[key] != CNull then Some(claims[key]) else None
  }

  /** The part of an address before its first `@` (all of it when there is none). */
  function BeforeAt(s: string): (r: string)
    ensures '@' !in r
    ensures r <= s
    ensures |r| < |s| ==> s[|r|] == '@'
  {
    if s == [] || s[0] == '@' then [] else [s[0]] + BeforeAt(s[1..])
  }

  /** The request parameters of the callback; `None` is a parameter left out (one sent
      empty is not told apart). */
  datatype CallbackRequest = CallbackRequest(state: Option<string>, error: Option<string>,
                                             errorDescription: Option<string>, code: Option<string>)

  /** The answer of the token endpoint. */
  datatype TokenResponse = TokenFailed | Tokens(accessToken: Option<string>, idToken: Option<string>)

  /** The answer of the userinfo endpoint. */
  datatype UserInfoResponse = UserInfoFailed | UserInfo(claims: Claims)

  datatype CallbackResult = LoginError(message: string) | LoggedIn(userId: nat)

  /** The first user signed on through OIDC with that subject. */
  function FindByOauthId(rows: seq<User>, id: string): (r: Option<nat>)
    ensures r.Some? ==> r.value < |rows| && rows[r.value].oauthProvider == Some("oidc")
                        && rows[r.value].oauthId == Some(id)
    ensures r.Some? ==> forall i :: 0 <= i < r.value ==> !(rows[i].oauthProvider == Some("oidc") && rows[i].oauthId == Some(id))
    ensures r.None? ==> forall i :: 0 <= i < |rows| ==> !(rows[i].oauthProvider == Some("oidc") && rows[i].oauthId == Some(id))
  {
    if rows == [] then None
    else if rows[0].oauthProvider == Some("oidc") && rows[0].oauthId == Some(id) then Some(0)
    else
      var r := FindByOauthId(rows[1..], id);
      if r.Some? then Some(r.value + 1) else None
  }

  /** The first user with that email. */
  function FindByEmail(rows: seq<User>, email: string): (r: Option<nat>)
    ensures r.Some? ==> r.value < |rows| && rows[r.value].email == email
    ensures r.None? ==> forall i :: 0 <= i < |rows| ==> rows[i].email != email
  {
    if rows == [] then None
    else if rows[0].email == email then Some(0)
    else
      var r := FindByEmail(rows[1..], email);
      if r.Some? then Some(r.value + 1) else None
  }

  /** How the callback finds its user, in this order: by OIDC subject; else, when
      linking is enabled and an email is given, by email (and links it); else, when
      creation is enabled, a new user, which needs a truthy email that no user has yet. */
  datatype Resolution =
    | Found(index: nat)
    | Linked(index: nat)
    | Created
    | NoEmail
    | EmailInUse
    | CreationDisabled

  /** Linking applies: enabled, an email claim is given, and a user has that email. */
  predicate LinksByEmail(rows: seq<User>, s: OidcSetting, claims: Claims) {
    s.linkExistingUsers && Present(claims, "email").Some? && FindByEmail(rows, ClaimText(claims["email"])).Some?
  }

  /** `$email = $userInfo['email'] ?? null; if (! $email)`: the email claim is truthy. */
  predicate EmailUsable(claims: Claims) {
    Present(claims, "email").Some? && ClaimTruthy(claims["email"])
  }

  function Resolve(rows: seq<User>, s: OidcSetting, claims: Claims, oauthId: string): (r: Resolution)
    ensures r.Found? <==> FindByOauthId(rows, oauthId).Some?
    ensures r.Found? ==> r == Found(FindByOauthId(rows, oauthId).value)
    ensures r.Found? ==> r.index < |rows| && rows[r.index].oauthId == Some(oauthId)
    ensures r.Linked? <==> FindByOauthId(rows, oauthId).None? && LinksByEmail(rows, s, claims)
    ensures r.Linked? ==> r.index == FindByEmail(rows, ClaimText(claims["email"])).value
    ensures r.Linked? ==> r.index < |rows| && rows[r.index].email == ClaimText(claims["email"])
    ensures (r == CreationDisabled) <==> (&& FindByOauthId(rows, oauthId).None? && !LinksByEmail(rows, s, claims)
                                          && !s.createNewUsers)
    ensures (r == NoEmail) <==> (&& FindByOauthId(rows, oauthId).None? && !LinksByEmail(rows, s, claims)
                                 && s.createNewUsers && !EmailUsable(claims))
    ensures (r == EmailInUse) <==> (&& FindByOauthId(rows, oauthId).None? && !LinksByEmail(rows, s, claims)
                                    && s.createNewUsers && EmailUsable(claims)
                                    && FindByEmail(rows, ClaimText(claims["email"])).Some?)
    ensures (r == Created) <==> (&& FindByOauthId(rows, oauthId).None? && !LinksByEmail(rows, s, claims)
                                 && s.createNewUsers && EmailUsable(claims)
                                 && FindByEmail(rows, ClaimText(claims["email"])).None?)
    ensures r.Created? ==> forall i :: 0 <= i < |rows| ==> rows[i].email != ClaimText(claims["email"])
    ensures r == EmailInUse ==> !s.linkExistingUsers
  {
    var byId := FindByOauthId(rows, oauthId);
    if byId.Some? then Found(byId.value)
    else if LinksByEmail(rows, s, claims) then
      Linked(FindByEmail(rows, ClaimText(claims["email"])).value)
    else if !s.createNewUsers then CreationDisabled
    else if !EmailUsable(claims) then NoEmail
    else if FindByEmail(rows, ClaimText(claims["email"])).Some? then EmailInUse
    else Created
  }

  const InvalidStateMessage := "Invalid state parameter. Please try again."
  const TokenExchangeMessage := "Failed to exchange authentication code for token."
  const NoAccessTokenMessage := "No access token received from OIDC provider."
  const UserInfoMessage := "Failed to fetch user information."
  const UnverifiedEmailMessage :=
    "Your email address is not verified by the identity provider. Please verify your email and try again."
  const EmailRequiredMessage := "Email is required to create a new user account."
  const CreationDisabledMessage := "User account not found and automatic creation is disabled."
  const InactiveMessage := "Your account is currently inactive."
  const GenericErrorMessage := "An error occurred during authentication."

  /** The state in the session matches the returned one. */
  predicate StateMatches(sessionState: Option<string>, returned: Option<string>) {
    sessionState.Some? && Truthy(sessionState.value) && sessionState.value == returned.GetOr("")
  }

  /** The callback reached the identity provider's answers: configured, a matching
      state and no error parameter. */
  predicate ReachesExchange(rows: seq<OidcSetting>, sessionState: Option<string>, request: CallbackRequest) {
    GetConfigured(rows).Some? && StateMatches(sessionState, request.state) && request.error.None?
  }

  /** The userinfo claims the callback acts on, when every earlier step succeeded. */
  predicate ClaimsObtained(token: TokenResponse, info: UserInfoResponse) {
    token.Tokens? && token.accessToken.Some? && Truthy(token.accessToken.value) && info.UserInfo?
  }

  /** `sub ?? identifier`: the subject the user is stored under. */
  function OauthId(claims: Claims, identifier: Claim): (id: string)
    ensures Present(claims, "sub").Some? ==> id == ClaimText(claims["sub"])
    ensures Present(claims, "sub").None? ==> id == ClaimText(identifier)
  {
    ClaimText(Present(claims, "sub").GetOr(identifier))
  }

  /** `name ?? preferred_username ?? explode('@', $email)[0]`. */
  function NewUserName(claims: Claims, email: string): string {
    if Present(claims, "name").Some? then ClaimText(claims["name"])
    else if Present(claims, "preferred_username").Some? then ClaimText(claims["preferred_username"])
    else BeforeAt(email)
  }

  predicate Admissible(res: Resolution) {
    res.Found? || res.Linked? || res.Created?
  }

  /** The user a resolution signs in, as a value: the one found, the one found by
      email with the subject linked, or the new user under the next id. */
  function AdmittedUser(rows: seq<User>, nextId: nat, res: Resolution, claims: Claims, oauthId: string,
                        randomPassword: string): User
    requires Admissible(res)
    requires (res.Found? || res.Linked?) ==> res.index < |rows|
  {
    match res
    case Found(k) => rows[k]
    case Linked(k) => rows[k].(oauthProvider := Some("oidc"), oauthId := Some(oauthId))
    case Created =>
      var email := if "email" in claims then ClaimText(claims["email"]) else "";
      User(nextId, NewUserName(claims, email), email, Some(HashPassword(randomPassword)), None, Leader, Active,
           None, None, Some("oidc"), Some(oauthId))
  }

  /** The user rows after the resolution is applied. */
  function AdmittedRows(rows: seq<User>, res: Resolution, user: User): seq<User>
    requires Admissible(res)
    requires (res.Found? || res.Linked?) ==> res.index < |rows|
  {
    match res
    case Found(_) => rows
    case Linked(k) => rows[k := user]
    case Created => rows + [user]
  }

  /** The user the callback signs in: the one found, the one found by email (now linked
      to the subject and saved), or a new active leader with a random password. */
  method Admit(users: UserTable, resolution: Resolution, claims: Claims, oauthId: string, randomPassword: string)
    returns (user: User)
    requires users.Valid()
    requires Admissible(resolution)
    requires (resolution.Found? || resolution.Linked?) ==> resolution.index < |users.rows|
    requires resolution.Created? ==> "email" in claims && FindByEmail(users.rows, ClaimText(claims["email"])).None?
    modifies users
    ensures users.Valid() && user in users.rows
    ensures user == AdmittedUser(old(users.rows), old(users.nextId), resolution, claims, oauthId, randomPassword)
    ensures users.rows == AdmittedRows(old(users.rows), resolution, user)
    ensures resolution.Found? ==> user == old(users.rows)[resolution.index] && unchanged(users)
    ensures resolution.Linked? ==>
              && user == old(users.rows)[resolution.index].(oauthProvider := Some("oidc"), oauthId := Some(oauthId))
              && users.rows == old(users.rows)[resolution.index := user] && users.nextId == old(users.nextId)
    ensures resolution.Created? ==>
              && users.rows == old(users.rows) + [user] && users.nextId == old(users.nextId) + 1
              && user.id == old(users.nextId) && user.email == ClaimText(claims["email"])
              && user.name == (if Present(claims, "name").Some? then ClaimText(claims["name"])
                               else if Present(claims, "preferred_username").Some?
                               then ClaimText(claims["preferred_username"])
                               else BeforeAt(user.email))
              && user.role == Leader && user.status == Active && user.orgName.None?
              && user.password == Some(HashPassword(randomPassword))
              && user.oauthProvider == Some("oidc") && user.oauthId == Some(oauthId)
  {
    match resolution {
      case Found(k) =>
        user := users.rows[k];
      case Linked(k) =>
        user := users.rows[k].(oauthProvider := Some("oidc"), oauthId := Some(oauthId));
        users.rows := users.rows[k := user];
        assert users.rows[k] == user;
        assert forall i :: 0 <= i < |users.rows| ==>
          users.rows[i].id == old(users.rows)[i].id && users.rows[i].email == old(users.rows)[i].email
          && users.rows[i].status == old(users.rows)[i].status
          && users.rows[i].terminationReason == old(users.rows)[i].terminationReason;
      case Created =>
        var email := ClaimText(claims["email"]);
        user := User(users.nextId, NewUserName(claims, email), email, Some(HashPassword(randomPassword)), None,
                     Leader, Active, None, None, Some("oidc"), Some(oauthId));
        users.rows := users.rows + [user];
        users.nextId := users.nextId + 1;
        assert users.rows[|users.rows| - 1] == user;
    }
  }

  /** `isset($userInfo['email_verified']) && $userInfo['email_verified'] === true`. */
  predicate EmailVerified(claims: Claims) {
    "email_verified" in claims && claims["email_verified"] == CBool(true)
  }

  /** `$userInfo[$settings->identity_key ?? 'email'] ?? null`, when it is truthy. */
  function Identifier(s: OidcSetting, claims: Claims): (r: Option<Claim>)
    ensures r.Some? <==> Present(claims, s.identityKey.GetOr("email")).Some?
                         && ClaimTruthy(claims[s.identityKey.GetOr("email")])
    ensures r.Some? ==> r.value == claims[s.identityKey.GetOr("email")]
  {
    var c := Present(claims, s.identityKey.GetOr("email"));
    if c.Some? && ClaimTruthy(c.value) then c else None
  }

  /** `callback`. The token and userinfo answers are inputs; `exchanges` counts the
      requests sent to the provider. `randomPassword` stands for `Str::random(32)`. A
      creation that would break the unique email ends in the generic error, as the
      database's unique index makes it. Once the claims are in, the outcome is the
      resolution of the user table as it was: the errors change nothing; otherwise the
      table becomes `AdmittedRows` (a link is saved even for an inactive user) and only
      an active user is signed in. */
  method Callback(rows: seq<OidcSetting>, session: Session, users: UserTable, request: CallbackRequest,
                  token: TokenResponse, info: UserInfoResponse, randomPassword: string)
    returns (r: CallbackResult, exchanges: nat)
    requires users.Valid()
    modifies session, users
    ensures users.Valid()
    ensures GetConfigured(rows).None? ==> r == LoginError(NotConfiguredMessage)
    ensures GetConfigured(rows).Some? && !StateMatches(Get(old(session.values), "oauth_state"), request.state) ==>
              r == LoginError(InvalidStateMessage)
    ensures !ReachesExchange(rows, Get(old(session.values), "oauth_state"), request) ==>
              exchanges == 0 && r.LoginError? && unchanged(session, users)
    ensures r.LoggedIn? ==> ReachesExchange(rows, Get(old(session.values), "oauth_state"), request)
                            && ClaimsObtained(token, info)
    ensures r.LoggedIn? ==> EmailVerified(info.claims)
    ensures !(ClaimsObtained(token, info) && EmailVerified(info.claims)) ==> r.LoginError? && unchanged(session, users)
    ensures (&& ReachesExchange(rows, Get(old(session.values), "oauth_state"), request)
             && ClaimsObtained(token, info) && EmailVerified(info.claims)
             && Identifier(GetConfigured(rows).value, info.claims).None?) ==>
              r.LoginError? && unchanged(users)
    ensures (&& ReachesExchange(rows, Get(old(session.values), "oauth_state"), request)
             && ClaimsObtained(token, info) && EmailVerified(info.claims)
             && Identifier(GetConfigured(rows).value, info.claims).Some?) ==>
              var s := GetConfigured(rows).value;
              var oauthId := OauthId(info.claims, Identifier(s, info.claims).value);
              var res := Resolve(old(users.rows), s, info.claims, oauthId);
              && (res == NoEmail ==> r == LoginError(EmailRequiredMessage) && unchanged(users))
              && (res == EmailInUse ==> r == LoginError(GenericErrorMessage) && unchanged(users))
              && (res == CreationDisabled ==> r == LoginError(CreationDisabledMessage) && unchanged(users))
              && (Admissible(res) ==>
                    var u := AdmittedUser(old(users.rows), old(users.nextId), res, info.claims, oauthId, randomPassword);
                    && users.rows == AdmittedRows(old(users.rows), res, u)
                    && r == (if u.status == Active then LoggedIn(u.id) else LoginError(InactiveMessage)))
    ensures r.LoggedIn? ==> exists u :: u in users.rows && u.id == r.userId && u.status == Active
    ensures r.LoggedIn? ==> session.values == old(session.values) - {"oauth_state", "oauth_nonce"}
    ensures r.LoginError? ==> unchanged(session)
    ensures |users.rows| == |old(users.rows)| || |users.rows| == |old(users.rows)| + 1
  {
    exchanges := 0;
    var settings := GetConfigured(rows);
    if settings.None? {
      return LoginError(NotConfiguredMessage), 0;
    }
    var s := settings.value;
    var sessionState := Get(session.values, "oauth_state");
    if !StateMatches(sessionState, request.state) {
      return LoginError(InvalidStateMessage), 0;
    }
    if request.error.Some? {
      return LoginError("OIDC Error: " + request.errorDescription.GetOr(request.error.value)), 0;
    }
    exchanges := 1;
    if token.TokenFailed? {
      return LoginError(TokenExchangeMessage), exchanges;
    }
    if token.accessToken.None? || !Truthy(token.accessToken.value) {
      return LoginError(NoAccessTokenMessage), exchanges;
    }
    exchanges := 2;
    if info.UserInfoFailed? {
      return LoginError(UserInfoMessage), exchanges;
    }
    var claims := info.claims;
    if !EmailVerified(claims) {
      return LoginError(UnverifiedEmailMessage), exchanges;
    }
    var identifierKey := s.identityKey.GetOr("email");
    var identifier := Identifier(s, claims);
    if identifier.None? {
      return LoginError("User identifier field '" + identifierKey + "' is missing in the user info response."),
             exchanges;
    }
    var oauthId := OauthId(claims, identifier.value);
    var resolution := Resolve(users.rows, s, claims, oauthId);
    if resolution.NoEmail? {
      return LoginError(EmailRequiredMessage), exchanges;
    } else if resolution.EmailInUse? {
      return LoginError(GenericErrorMessage), exchanges;
    } else if resolution.CreationDisabled? {
      return LoginError(CreationDisabledMessage), exchanges;
    }
    var user := Admit(users, resolution, claims, oauthId, randomPassword);
    if user.status != Active {
      return LoginError(InactiveMessage), exchanges;
    }
    session.values := session.values - {"oauth_state", "oauth_nonce"};
    r := LoggedIn(user.id);
  }
}
