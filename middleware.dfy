/** The route gate run before every `/api` request: public paths pass, any
    other path needs a token from the cookie or a Bearer Authorization header.
    The token is not verified here. */
module Middleware {
  import opened Text

  const PublicRoutes: seq<string> := [
    "/api/health", "/api/debug", "/api/status", "/api/simple", "/api/auth",
    "/api/auth/register", "/api/auth/login", "/api/branch", "/api/properties/all", "/api/branches"]

  const AuthPrefix: string := "/api/auth/"
  const BearerPrefix: string := "Bearer "

  datatype Decision = Pass | Unauthorized(code: int, message: string)

  /** The token: the cookie when non-empty, else the second space-separated
      piece of a `Bearer ` header, else empty. Absent sources are "". */
  function TokenOf(cookie: string, authorization: string): (t: string)
    ensures cookie != "" ==> t == cookie
    ensures cookie == "" && !(BearerPrefix <= authorization) ==> t == ""
  {
    if cookie != "" then cookie
    else if BearerPrefix <= authorization then
      assert authorization[|BearerPrefix| - 1] == ' ';
      Split(authorization, ' ')[1]
    else ""
  }

  /** `middleware`; `httpMethod` is the request method. */
  function Gate(pathname: string, httpMethod: string, cookie: string, authorization: string): (d: Decision)
    ensures AuthPrefix <= pathname ==> d == Pass
    ensures pathname in PublicRoutes ==> d == Pass
    ensures d.Unauthorized? <==>
      !(AuthPrefix <= pathname) && pathname !in PublicRoutes && TokenOf(cookie, authorization) == ""
    ensures d.Unauthorized? ==> d == Unauthorized(401, "Authentication required")
  {
    if AuthPrefix <= pathname then Pass
    else if pathname in PublicRoutes then Pass
    else if pathname == "/api/branches" && httpMethod == "GET" then Pass
    else
      var token := TokenOf(cookie, authorization);
      if token == "" then Unauthorized(401, "Authentication required") else Pass
  }

  /** The GET branch for `/api/branches` is dead: the path is public, so the
      decision never depends on the method. */
  lemma MethodNeverMatters(pathname: string, m1: string, m2: string, cookie: string, authorization: string)
    ensures Gate(pathname, m1, cookie, authorization) == Gate(pathname, m2, cookie, authorization)
  {
  }

  /** Public paths are matched exactly: a sub-path of a public path (other
      than under `/api/auth/`) still needs a token. */
  lemma PublicMatchIsExact(cookie: string, authorization: string)
    requires TokenOf(cookie, authorization) == ""
    ensures Gate("/api/health/x", "GET", cookie, authorization).Unauthorized?
    ensures Gate("/api/branches/1", "GET", cookie, authorization).Unauthorized?
    ensures Gate("/api/auth/anything", "POST", cookie, authorization) == Pass
  {
    assert "/api/health/x"[5] != AuthPrefix[5];
    assert "/api/branches/1"[5] != AuthPrefix[5];
  }

  /** A Bearer header yields exactly the word after the prefix, up to the next
      space. */
  lemma {:induction false} BearerTokenExtracted(t: string, rest: string)
    requires ' ' !in t
    requires rest == [] || rest[0] == ' '
    ensures TokenOf("", BearerPrefix + t + rest) == t
  {
    assert BearerPrefix <= BearerPrefix + t + rest;
    SecondPieceOf(BearerPrefix, t, rest, ' ');
  }

  /** Any non-empty token lets a protected path through. */
  lemma AnyTokenAccepted(pathname: string, httpMethod: string, t: string)
    requires t != "" && ' ' !in t
    ensures Gate(pathname, httpMethod, "", BearerPrefix + t) == Pass
    ensures Gate(pathname, httpMethod, t, "") == Pass
  {
    BearerTokenExtracted(t, []);
    assert BearerPrefix + t + [] == BearerPrefix + t;
  }

  /** A double space after `Bearer` gives an empty token, so a protected path
      is refused. */
  lemma DoubleSpaceRefused(pathname: string, httpMethod: string, rest: string)
    requires !(AuthPrefix <= pathname) && pathname !in PublicRoutes
    ensures Gate(pathname, httpMethod, "", "Bearer  " + rest).Unauthorized?
  {
    assert "Bearer  " + rest == BearerPrefix + "" + (" " + rest);
    BearerTokenExtracted("", " " + rest);
  }

  /** The cookie wins over the header. */
  lemma CookieTakesPrecedence(cookie: string, a1: string, a2: string)
    requires cookie != ""
    ensures TokenOf(cookie, a1) == TokenOf(cookie, a2) == cookie
  {
  }
}
