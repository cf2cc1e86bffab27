/** The double-submit CSRF guard of api/csrf.py. The decision is a pure
    function of the method, the cookie and the header; the downstream
    application is a function from requests to responses, and the bootstrap
    branch appends one cookie to the response that function returns. */
module Csrf {
  import opened Common

  const CSRF_COOKIE_NAME := "mazgpt-csrf"
  const CSRF_HEADER_NAME := "x-csrf-token"
  const CSRF_TOKEN_TTL := 60 * 60 * 8

  /** Header names are kept in lower case, as Starlette matches them. */
  datatype Request = Request(verb: string, cookies: map<string, string>, headers: map<string, string>)

  datatype Cookie = Cookie(name: string, value: string, httpOnly: bool, secure: bool, maxAge: int, sameSite: string)

  datatype Response = Response(status: int, body: string, cookies: seq<Cookie>)

  /** The methods the guard checks (compared case-sensitively, as sent). */
  predicate StateChanging(verb: string) {
    verb == "POST" || verb == "PUT" || verb == "DELETE" || verb == "PATCH"
  }

  /** The methods on which the guard hands out a cookie. */
  predicate Safe(verb: string) {
    verb == "GET" || verb == "HEAD" || verb == "OPTIONS"
  }

  /** Both tokens present, non-empty and equal: the negation of
      `not cookie_token or not header_token or cookie_token != header_token`. */
  predicate TokensMatch(cookie: Option<string>, header: Option<string>) {
    Truthy(cookie) && Truthy(header) && cookie.value == header.value
  }

  function CookieToken(req: Request): Option<string> {
    Get(req.cookies, CSRF_COOKIE_NAME)
  }

  function HeaderToken(req: Request): Option<string> {
    Get(req.headers, CSRF_HEADER_NAME)
  }

  /** `secure = not bool(os.environ.get("TESTING"))`. */
  function BootstrapCookie(token: string, testing: Option<string>): (c: Cookie)
    ensures c.name == "mazgpt-csrf" && c.value == token && !c.httpOnly && c.secure == !Truthy(testing)
    ensures c.maxAge == 28800 && c.sameSite == "Lax"
  {
    Cookie(CSRF_COOKIE_NAME, token, false, !Truthy(testing), CSRF_TOKEN_TTL, "Lax")
  }

  const REJECTION := Response(403, "CSRF token missing or invalid", [])

  /** `CSRFMiddleware.dispatch(request, call_next)`; `nonce` is the value of
      `secrets.token_urlsafe(32)` and `testing` the `TESTING` variable. */
  function Dispatch(req: Request, next: Request -> Response, nonce: string, testing: Option<string>): (resp: Response)
    // a checked method without a matching pair is refused with 403
    ensures StateChanging(req.verb) && !TokensMatch(CookieToken(req), HeaderToken(req)) ==> resp == REJECTION
    // a checked method with a matching pair is forwarded untouched: no new cookie
    ensures StateChanging(req.verb) && TokensMatch(CookieToken(req), HeaderToken(req)) ==> resp == next(req)
    // a safe method without the cookie gets exactly one nonce cookie appended
    ensures Safe(req.verb) && !Truthy(CookieToken(req)) ==>
              resp == next(req).(cookies := next(req).cookies + [BootstrapCookie(nonce, testing)])
    // a safe method that already has the cookie, or any other method, passes through
    ensures (Safe(req.verb) && Truthy(CookieToken(req))) || (!Safe(req.verb) && !StateChanging(req.verb)) ==>
              resp == next(req)
  {
    if StateChanging(req.verb) && !TokensMatch(CookieToken(req), HeaderToken(req)) then
      REJECTION
    else
      var response := next(req);
      if Safe(req.verb) && !Truthy(CookieToken(req)) then
        response.(cookies := response.cookies + [BootstrapCookie(nonce, testing)])
      else
        response
  }

  /** The number of `mazgpt-csrf` cookies a response sets. */
  function CsrfCookies(cs: seq<Cookie>): nat {
    if cs == [] then 0 else (if cs[0].name == CSRF_COOKIE_NAME then 1 else 0) + CsrfCookies(cs[1..])
  }

  lemma {:induction false} CsrfCookiesAppend(cs: seq<Cookie>, c: Cookie)
    ensures CsrfCookies(cs + [c]) == CsrfCookies(cs) + (if c.name == CSRF_COOKIE_NAME then 1 else 0)
  {
    if cs != [] {
      assert (cs + [c])[1..] == cs[1..] + [c];
      CsrfCookiesAppend(cs[1..], c);
    }
  }

  /** A first safe request gains exactly one CSRF cookie on top of whatever the
      application set; a repeat that presents it gains none. */
  lemma BootstrapOnce(req: Request, next: Request -> Response, nonce: string, testing: Option<string>)
    requires Safe(req.verb)
    ensures !Truthy(CookieToken(req)) ==>
              CsrfCookies(Dispatch(req, next, nonce, testing).cookies) == CsrfCookies(next(req).cookies) + 1
    ensures Truthy(CookieToken(req)) ==>
              CsrfCookies(Dispatch(req, next, nonce, testing).cookies) == CsrfCookies(next(req).cookies)
  {
    CsrfCookiesAppend(next(req).cookies, BootstrapCookie(nonce, testing));
  }

  /** A refused request does not reach the application: the response is the
      same whatever the application would have done. */
  lemma RefusalIgnoresHandler(req: Request, next1: Request -> Response, next2: Request -> Response,
                              nonce: string, testing: Option<string>)
    requires StateChanging(req.verb) && !TokensMatch(CookieToken(req), HeaderToken(req))
    ensures Dispatch(req, next1, nonce, testing) == Dispatch(req, next2, nonce, testing)
    ensures Dispatch(req, next1, nonce, testing).status == 403
  {
  }

  /** The guard keeps no state and never consumes a token: a pair accepted on
      one request is accepted on every other checked request that carries it. */
  lemma TokenReusable(r1: Request, r2: Request, next: Request -> Response, nonce: string, testing: Option<string>)
    requires StateChanging(r1.verb) && StateChanging(r2.verb)
    requires CookieToken(r1) == CookieToken(r2) && HeaderToken(r1) == HeaderToken(r2)
    requires Dispatch(r1, next, nonce, testing) == next(r1) && next(r1) != REJECTION
    ensures Dispatch(r2, next, nonce, testing) == next(r2)
  {
  }
}
