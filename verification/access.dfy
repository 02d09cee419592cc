/** Access control: the request middleware (`src/middleware.ts`) and the
    login route (`src/app/api/auth/login/route.ts`). The environment is an
    input: `rawSecret` is `process.env.AUTH_SECRET_TOKEN` as the process
    sees it, which the login route reads through its default. */
module Access {
  import opened Wrappers
  import opened Text

  /** The secret used when `AUTH_SECRET_TOKEN` is unset. */
  const DefaultSecret: string := "default-secret-change-me"

  /** Seven days, in seconds. */
  const CookieMaxAge: nat := 60 * 60 * 24 * 7

  /** `env.auth.secretToken`: the configured secret, or the default. */
  function EffectiveSecret(rawSecret: Option<string>): (s: string)
    ensures rawSecret.Some? ==> s == rawSecret.value
    ensures rawSecret.None? ==> s == DefaultSecret
  {
    rawSecret.GetOr(DefaultSecret)
  }

  // ---------------------------------------------------------------------
  // Middleware

  /** What the middleware answers. */
  datatype Verdict = Next | Redirect(location: string)

  /** Paths served without a cookie check: three prefixes and two exact
      paths. */
  predicate Exempt(path: string) {
    || StartsWith(path, "/_next")
    || StartsWith(path, "/static")
    || StartsWith(path, "/api/auth")
    || path == "/login"
    || path == "/favicon.ico"
  }

  /** `middleware(request)` as written: a non-exempt path passes iff the
      `auth_token` cookie (absent or a value) equals the raw
      `AUTH_SECRET_TOKEN` (absent or a value). */
  function Middleware(path: string, cookie: Option<string>, rawSecret: Option<string>): (v: Verdict)
    ensures v.Next? <==> Exempt(path) || cookie == rawSecret
    ensures v.Redirect? ==> v.location == "/login"
  {
    if Exempt(path) then Next
    else if cookie == rawSecret then Next
    else Redirect("/login")
  }

  /** The three prefixes exempt every continuation, while `/login` and
      `/favicon.ico` are exempt only as exact paths. */
  lemma ExemptExactAndPrefix(rest: string)
    ensures Exempt("/_next" + rest) && Exempt("/static" + rest) && Exempt("/api/auth" + rest)
    ensures rest != [] ==> !Exempt("/login" + rest) && !Exempt("/favicon.ico" + rest)
  {
    assert ("/_next" + rest)[..6] == "/_next";
    assert ("/static" + rest)[..7] == "/static";
    assert ("/api/auth" + rest)[..9] == "/api/auth";
    if rest != [] {
      var l, f := "/login" + rest, "/favicon.ico" + rest;
      assert l[1] == 'l' && f[1] == 'f';
      assert |l| > 6 && |f| > 12;
      assert "/_next"[1] == '_' && "/static"[1] == 's' && "/api/auth"[1] == 'a';
      assert |l| >= 9 ==> l[..9][1] == 'l';
      assert |f| >= 9 ==> f[..9][1] == 'f';
      assert l[..6][1] == 'l' && l[..7][1] == 'l';
      assert f[..6][1] == 'f' && f[..7][1] == 'f';
      assert l != "/favicon.ico" by { if |l| == 12 { assert l[1] != "/favicon.ico"[1]; } }
    }
  }

  /** The corrected middleware: the cookie is compared with the secret the
      login route writes. */
  function MiddlewareFixed(path: string, cookie: Option<string>, rawSecret: Option<string>): (v: Verdict)
    ensures v.Next? <==> Exempt(path) || cookie == Some(EffectiveSecret(rawSecret))
    ensures v.Redirect? ==> v.location == "/login"
  {
    Middleware(path, cookie, Some(EffectiveSecret(rawSecret)))
  }

  /** When the secret is configured the two agree. */
  lemma FixedAgreesWhenConfigured(path: string, cookie: Option<string>, secret: string)
    ensures MiddlewareFixed(path, cookie, Some(secret)) == Middleware(path, cookie, Some(secret))
  {
  }

  // ---------------------------------------------------------------------
  // Login

  /** The JSON body of the request: unparseable (invalid JSON or `null`,
      which destructuring rejects), or its `username` and `password` string
      fields, each `None` when absent or not a string; such a field can
      never equal a configured string. */
  datatype LoginBody = Unparseable | Credentials(username: Option<string>, password: Option<string>)

  /** The `auth_token` cookie set on success. */
  datatype Cookie = Cookie(value: string, httpOnly: bool, secure: bool, sameSite: string, maxAge: nat, path: string)

  /** The JSON response, its status and the cookie set, if any. */
  datatype LoginResponse = LoginResponse(status: nat, success: bool, message: Option<string>, cookie: Option<Cookie>)

  /** `hasAuthCredentials`: both a username and a password are configured
      and non-empty. */
  predicate HasAuthCredentials(username: Option<string>, password: Option<string>) {
    username.Some? && username.value != "" && password.Some? && password.value != ""
  }

  /** The cookie written on every successful login. */
  function AuthCookie(rawSecret: Option<string>, production: bool): (c: Cookie)
    ensures c.value == EffectiveSecret(rawSecret) && c.maxAge == 604800
    ensures c.httpOnly && c.path == "/" && c.sameSite == "lax" && c.secure == production
  {
    Cookie(EffectiveSecret(rawSecret), true, production, "lax", CookieMaxAge, "/")
  }

  /** `POST(request)`: a body that fails to parse is a server error; with
      no credentials configured every parseable request logs in; otherwise
      only an exact username and password match does. */
  function Login(body: LoginBody, username: Option<string>, password: Option<string>,
                 rawSecret: Option<string>, production: bool): (r: LoginResponse)
    ensures r.success <==> r.status == 200
    ensures r.success <==> r.cookie.Some?
    ensures r.cookie.Some? ==> r.cookie.value == AuthCookie(rawSecret, production)
    ensures body.Unparseable? ==> r == LoginResponse(500, false, Some("Erreur serveur"), None)
    ensures body.Credentials? ==>
              (r.success <==> !HasAuthCredentials(username, password)
                              || (body.username == username && body.password == password))
    ensures body.Credentials? && !r.success ==> r == LoginResponse(401, false, Some("Identifiants incorrects"), None)
  {
    match body
    case Unparseable => LoginResponse(500, false, Some("Erreur serveur"), None)
    case Credentials(user, pass) =>
      if !HasAuthCredentials(username, password) then
        LoginResponse(200, true, None, Some(AuthCookie(rawSecret, production)))
      else if user == username && pass == password then
        LoginResponse(200, true, None, Some(AuthCookie(rawSecret, production)))
      else
        LoginResponse(401, false, Some("Identifiants incorrects"), None)
  }

  /** With credentials configured, a login that leaves out a field fails. */
  lemma MissingFieldRejected(given: string, username: string, password: string, rawSecret: Option<string>, production: bool)
    requires HasAuthCredentials(Some(username), Some(password))
    ensures Login(Credentials(Some(given), None), Some(username), Some(password), rawSecret, production).status == 401
    ensures Login(Credentials(None, Some(given)), Some(username), Some(password), rawSecret, production).status == 401
  {
  }

  /** A parseable body carrying no usable field (`{}`, a number, or fields
      that are not strings) logs in exactly in no-auth mode. */
  lemma NoFieldsLogin(username: Option<string>, password: Option<string>, rawSecret: Option<string>, production: bool)
    ensures var r := Login(Credentials(None, None), username, password, rawSecret, production);
            && (r.success <==> !HasAuthCredentials(username, password))
            && (!r.success ==> r.status == 401)
  {
  }

  // ---------------------------------------------------------------------
  // Login and middleware together

  /** As written, with `AUTH_SECRET_TOKEN` unset: the cookie of a
      successful login is turned away from the dashboard, while a request
      carrying no cookie at all is let in. */
  lemma UnsetSecretAsWritten(body: LoginBody, username: Option<string>, password: Option<string>, production: bool)
    requires Login(body, username, password, None, production).success
    ensures Middleware("/", Some(Login(body, username, password, None, production).cookie.value.value), None)
         == Redirect("/login")
    ensures Middleware("/", None, None) == Next
  {
  }

  /** Corrected: the cookie of any successful login opens every path, and a
      request without a cookie is redirected from every non-exempt path. */
  lemma LoginCookieAdmitted(body: LoginBody, username: Option<string>, password: Option<string>,
                            rawSecret: Option<string>, production: bool, path: string)
    requires Login(body, username, password, rawSecret, production).success
    ensures MiddlewareFixed(path, Some(Login(body, username, password, rawSecret, production).cookie.value.value), rawSecret)
         == Next
    ensures !Exempt(path) ==> MiddlewareFixed(path, None, rawSecret) == Redirect("/login")
  {
  }
}
