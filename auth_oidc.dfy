/**
 * The OpenID Connect middleware of internal/auth/oidc.go: how it routes a request, checks the
 * callback, derives its own external URL and names the signed-in user (OpenID Connect Core 1.0).
 * The provider's token verification and code exchange are oracles.
 */
module AuthOidc {
  import opened Wrappers
  import opened Text
  import opened Requests

  /** The path suffix of the provider's redirect back to the dashboard. */
  const CallbackPath := "/oauth2/callback"

  /** The OAuth2 client configuration; RedirectURL is filled in per request. */
  datatype OAuthConfig = OAuthConfig(clientID: string, clientSecret: string, authURL: string, tokenURL: string,
                                     scopes: seq<string>, redirectURL: string)

  /** The middleware's settings: the client, the optional external URL and the end-session endpoint. */
  datatype Middleware = Middleware(oauthConfig: OAuthConfig, serverURL: string, logoutURL: string)

  /** A verified ID token: its subject, nonce and expiry, and the two claims the user name reads. */
  datatype IDToken = IDToken(subject: string, nonce: string, expiry: nat, preferredUsername: string, email: string)

  /** The verifier: the token a raw ID token verifies to, or None when verification fails. */
  type Verifier = string -> Option<IDToken>

  /** The code exchange: an error, or the token response with its id_token field when it has one. */
  datatype Exchanged = ExchangeFailed | TokenResponse(idToken: Option<string>)

  /** The code exchange, given the configuration it runs with and the code. */
  type Exchanger = (OAuthConfig, string) -> Exchanged

  /** The token cookie the middleware sets (or clears) and the response it ends with. */
  datatype Outcome =
    | Next(user: string)                                   // handed on with the user in the context
    | StartLogin(redirectURL: string, secureCookies: bool) // state and nonce cookies, 302 to the provider
    | Fail(status: int)                                    // http.Error
    | SignedIn(token: string, expiry: nat, secure: bool)   // token cookie, 302 to "/"
    | SignedOut(secure: bool, endSession: Option<string>)  // token cookie cleared, end-session call, 302 to "/"

  /** isSecure: a non-empty X-Forwarded-Proto decides; otherwise whether the request came over TLS. */
  function IsSecure(req: Request): (r: bool)
    ensures Header(req, "X-Forwarded-Proto") != "" ==> (r <==> Header(req, "X-Forwarded-Proto") == "https")
    ensures Header(req, "X-Forwarded-Proto") == "" ==> (r <==> req.hasTLS)
  {
    var v := Header(req, "X-Forwarded-Proto");
    if v != "" then v == "https" else req.hasTLS
  }

  /** The host getServerURL uses: X-Forwarded-Host when non-empty, else the request's Host. */
  function ExternalHost(req: Request): (h: string)
    ensures Header(req, "X-Forwarded-Host") != "" ==> h == Header(req, "X-Forwarded-Host")
    ensures Header(req, "X-Forwarded-Host") == "" ==> h == req.host
  {
    var v := Header(req, "X-Forwarded-Host");
    if v != "" then v else req.host
  }

  /**
   * getServerURL: a configured server URL verbatim; otherwise "https://" or "http://", as the
   * request is secure or not, followed by the external host.
   */
  function ServerURL(mw: Middleware, req: Request): (r: string)
    ensures mw.serverURL != "" ==> r == mw.serverURL
    ensures mw.serverURL == "" && IsSecure(req) ==> r == "https://" + ExternalHost(req)
    ensures mw.serverURL == "" && !IsSecure(req) ==> r == "http://" + ExternalHost(req)
  {
    if mw.serverURL != "" then mw.serverURL
    else
      var proto := if IsSecure(req) then "https" else "http";
      proto + "://" + ExternalHost(req)
  }

  /**
   * getConfig: a copy of the client configuration whose RedirectURL is the server URL with the
   * callback path; every other field is the stored one, and the stored one is not changed.
   */
  function ConfigFor(mw: Middleware, req: Request): (c: OAuthConfig)
    ensures c.redirectURL == ServerURL(mw, req) + CallbackPath
    ensures HasSuffix(c.redirectURL, CallbackPath)
    ensures c.clientID == mw.oauthConfig.clientID && c.clientSecret == mw.oauthConfig.clientSecret
    ensures c.authURL == mw.oauthConfig.authURL && c.tokenURL == mw.oauthConfig.tokenURL
    ensures c.scopes == mw.oauthConfig.scopes
  {
    var c := mw.oauthConfig.(redirectURL := ServerURL(mw, req) + CallbackPath);
    assert c.redirectURL[|c.redirectURL| - |CallbackPath|..] == CallbackPath;
    c
  }

  /** getUserName: preferred_username, else email, else the token's subject. */
  function UserName(token: IDToken): (r: string)
    ensures token.preferredUsername != "" ==> r == token.preferredUsername
    ensures token.preferredUsername == "" && token.email != "" ==> r == token.email
    ensures token.preferredUsername == "" && token.email == "" ==> r == token.subject
    ensures r == "" <==> token.preferredUsername == "" && token.email == "" && token.subject == ""
  {
    if token.preferredUsername != "" then token.preferredUsername
    else if token.email != "" then token.email
    else token.subject
  }

  /**
   * requestEndSession: the end-session URL it requests with the token as hint, or None when the
   * provider names no end-session endpoint. Its response is ignored.
   */
  function EndSession(mw: Middleware, rawToken: string): (r: Option<string>)
    ensures r.None? <==> mw.logoutURL == ""
    ensures r.Some? ==> HasPrefix(r.value, mw.logoutURL) && HasSuffix(r.value, rawToken)
    ensures r.Some? ==> |r.value| == |mw.logoutURL| + |"?id_token_hint="| + |rawToken|
    ensures r.Some? ==> HasPrefix(r.value, mw.logoutURL + "?id_token_hint=")
  {
    if mw.logoutURL == "" then None
    else
      var u := mw.logoutURL + "?id_token_hint=" + rawToken;
      assert u[..|mw.logoutURL|] == mw.logoutURL;
      assert u[|u| - |rawToken|..] == rawToken;
      assert u[..|mw.logoutURL + "?id_token_hint="|] == mw.logoutURL + "?id_token_hint=";
      Some(u)
  }

  /**
   * handlerCallback: the state cookie and query state, then the code exchange, the id_token
   * field and its verification, then the nonce cookie against the token's nonce; only when all
   * pass is the token stored in a cookie that lives as long as the token.
   */
  function Callback(mw: Middleware, exchange: Exchanger, verify: Verifier, req: Request): (r: Outcome)
    ensures r.SignedIn? || r.Fail?
    ensures var ex := exchange(ConfigFor(mw, req), Query(req, "code"));
      r.SignedIn? <==>
        && "state" in req.cookies && req.cookies["state"] == Query(req, "state")
        && ex.TokenResponse? && ex.idToken.Some? && verify(ex.idToken.value).Some?
        && "nonce" in req.cookies && verify(ex.idToken.value).value.nonce == req.cookies["nonce"]
    ensures r.SignedIn? ==>
      var raw := exchange(ConfigFor(mw, req), Query(req, "code")).idToken.value;
      r.token == raw && r.expiry == verify(raw).value.expiry && r.secure == IsSecure(req)
    ensures r.Fail? ==> r.status == StatusBadRequest || r.status == StatusInternalServerError
    ensures !("state" in req.cookies && req.cookies["state"] == Query(req, "state")) ==> r == Fail(StatusBadRequest)
    ensures var ex := exchange(ConfigFor(mw, req), Query(req, "code"));
      "state" in req.cookies && req.cookies["state"] == Query(req, "state") ==>
        && (ex.ExchangeFailed? ==> r == Fail(StatusInternalServerError))
        && (ex.TokenResponse? && ex.idToken.None? ==> r == Fail(StatusInternalServerError))
        && (ex.TokenResponse? && ex.idToken.Some? && verify(ex.idToken.value).None? ==> r == Fail(StatusInternalServerError))
        && (ex.TokenResponse? && ex.idToken.Some? && verify(ex.idToken.value).Some? &&
            !("nonce" in req.cookies && verify(ex.idToken.value).value.nonce == req.cookies["nonce"]) ==>
              r == Fail(StatusBadRequest))
  {
    var state := Cookie(req, "state");
    if state.None? || Query(req, "state") != state.value then Fail(StatusBadRequest)
    else match exchange(ConfigFor(mw, req), Query(req, "code"))
      case ExchangeFailed => Fail(StatusInternalServerError)
      case TokenResponse(None) => Fail(StatusInternalServerError)
      case TokenResponse(Some(raw)) =>
        match verify(raw)
        case None => Fail(StatusInternalServerError)
        case Some(token) =>
          var nonce := Cookie(req, "nonce");
          if nonce.None? || token.nonce != nonce.value then Fail(StatusBadRequest)
          else SignedIn(raw, token.expiry, IsSecure(req))
  }

  /** A missing or mismatched state is refused with 400 before the exchange or verifier is consulted. */
  lemma CallbackStateFirst(mw: Middleware, ex1: Exchanger, v1: Verifier, ex2: Exchanger, v2: Verifier, req: Request)
    requires !("state" in req.cookies && req.cookies["state"] == Query(req, "state"))
    ensures Callback(mw, ex1, v1, req) == Callback(mw, ex2, v2, req) == Fail(StatusBadRequest)
  {
  }

  /**
   * ServeHTTP: the callback path is handled first, whatever the cookies; then a missing or
   * unverifiable token cookie starts the login, which always sends the provider back to the
   * callback path; a "/logout" path signs out exactly when the token verifies; anything else is handed
   * on with the verified token's user name.
   */
  function Serve(mw: Middleware, exchange: Exchanger, verify: Verifier, req: Request): (r: Outcome)
    ensures HasSuffix(req.path, CallbackPath) ==> r == Callback(mw, exchange, verify, req)
    ensures !HasSuffix(req.path, CallbackPath) && !("token" in req.cookies && verify(req.cookies["token"]).Some?) ==>
              r == StartLogin(ConfigFor(mw, req).redirectURL, IsSecure(req))
    ensures r.StartLogin? ==> HasSuffix(r.redirectURL, CallbackPath)
    ensures r.SignedOut? <==>
              && !HasSuffix(req.path, CallbackPath) && HasSuffix(req.path, "/logout")
              && "token" in req.cookies && verify(req.cookies["token"]).Some?
    ensures r.SignedOut? ==> r.endSession == EndSession(mw, req.cookies["token"]) && r.secure == IsSecure(req)
    ensures r.Next? <==>
              && !HasSuffix(req.path, CallbackPath) && !HasSuffix(req.path, "/logout")
              && "token" in req.cookies && verify(req.cookies["token"]).Some?
    ensures r.Next? ==> r.user == UserName(verify(req.cookies["token"]).value)
  {
    if HasSuffix(req.path, CallbackPath) then Callback(mw, exchange, verify, req)
    else
      var cookie := Cookie(req, "token");
      if cookie.None? || verify(cookie.value).None? then StartLogin(ConfigFor(mw, req).redirectURL, IsSecure(req))
      else if HasSuffix(req.path, "/logout") then SignedOut(IsSecure(req), EndSession(mw, cookie.value))
      else Next(UserName(verify(cookie.value).value))
  }
}
