/**
 * The basic-auth gate of internal/auth/basic.go (section 2 of RFC 7617): a fixed username and
 * password, a logout page, and the user name handed on with an admitted request.
 */
module AuthBasic {
  import opened Wrappers
  import opened Text
  import opened Requests

  /** The configured credentials. */
  datatype BasicAuth = BasicAuth(username: string, password: string)

  /** The realm of every WWW-Authenticate challenge. */
  const Challenge := "Basic realm=\"Restricted\""

  /**
   * What the gate does with a request: hand it on with a user, or answer with a status and a
   * WWW-Authenticate challenge; the logout answer also carries the "log in again" page.
   */
  datatype Outcome = Pass(user: string) | Reject(status: int, challenge: string, logoutPage: bool)

  /**
   * ServeHTTP: a path ending in "/logout" is always answered 401, whatever the credentials;
   * otherwise a request passes exactly when it carries both configured credentials, and then the
   * user is the supplied username. Every refusal is a 401 with the challenge.
   */
  function Serve(ba: BasicAuth, req: Request): (r: Outcome)
    ensures HasSuffix(req.path, "/logout") ==> r == Reject(StatusUnauthorized, Challenge, true)
    ensures r.Pass? <==> !HasSuffix(req.path, "/logout") && req.basic == Some((ba.username, ba.password))
    ensures r.Pass? ==> r.user == ba.username && req.basic.Some? && r.user == req.basic.value.0
    ensures r.Reject? ==> r.status == StatusUnauthorized && r.challenge == Challenge
    ensures r.Reject? && !HasSuffix(req.path, "/logout") ==> !r.logoutPage
  {
    if HasSuffix(req.path, "/logout") then Reject(StatusUnauthorized, Challenge, true)
    else match req.basic
      case None => Reject(StatusUnauthorized, Challenge, false)
      case Some((u, p)) =>
        if u != ba.username || p != ba.password then Reject(StatusUnauthorized, Challenge, false)
        else Pass(u)
  }
}
