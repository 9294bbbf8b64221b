/**
 * The parts of an incoming HTTP request the auth middlewares read, and the status codes they
 * answer with. Header names are taken as already canonical.
 */
module Requests {
  import opened Wrappers

  const StatusFound := 302
  const StatusBadRequest := 400
  const StatusUnauthorized := 401
  const StatusInternalServerError := 500

  /**
   * A request: its URL path, Host, headers, whether it came over TLS, its cookies, its query
   * parameters and its basic-auth credentials (None when request.BasicAuth reports none).
   */
  datatype Request = Request(path: string, host: string, headers: map<string, string>, hasTLS: bool,
                             cookies: map<string, string>, query: map<string, string>,
                             basic: Option<(string, string)>)

  /** Header.Get: the header's value, or "" when it is absent. */
  function Header(req: Request, name: string): string
  {
    if name in req.headers then req.headers[name] else ""
  }

  /** URL.Query().Get: the parameter's value, or "" when it is absent. */
  function Query(req: Request, name: string): string
  {
    if name in req.query then req.query[name] else ""
  }

  /** request.Cookie: the cookie's value, or None (http.ErrNoCookie) when it is absent. */
  function Cookie(req: Request, name: string): Option<string>
  {
    if name in req.cookies then Some(req.cookies[name]) else None
  }
}
