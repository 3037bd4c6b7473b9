/**
 * The Next.js `middleware`: decides, from the request path and the
 * `access_token` cookie, whether a request passes or is redirected.
 */
module Middleware {
  import opened Common

  datatype Response = Next | Redirect(location: string)

  const PublicRoutes: seq<string> := ["/auth/login", "/auth/register", "/"]
  const AdminRoutes: seq<string> := ["/admin"]
  const ProtectedRoutes: seq<string> := ["/dashboard"]

  /** `routes.some(route => pathname.startsWith(route))`. */
  predicate UnderAny(pathname: string, routes: seq<string>) {
    exists i :: 0 <= i < |routes| && StartsWith(pathname, routes[i])
  }

  /** The sign-in and sign-up pages. */
  predicate IsAuthPage(pathname: string) {
    pathname == "/auth/login" || pathname == "/auth/register"
  }

  /** A path below `p` agrees with `p` on every position of `p`. */
  lemma PrefixChar(s: string, p: string, i: nat)
    requires StartsWith(s, p) && i < |p|
    ensures i < |s| && s[i] == p[i]
  {
    assert s[..|p|][i] == p[i];
  }

  /** A path that differs from `p` somewhere within `p` is not below `p`. */
  lemma NotPrefixAt(s: string, p: string, i: nat)
    requires i < |p| && (i >= |s| || s[i] != p[i])
    ensures !StartsWith(s, p)
  {
    if |p| <= |s| {
      assert s[..|p|][i] == s[i];
    }
  }

  /** With one route in each list, `some(startsWith)` is a single prefix test. */
  lemma SingleRoute(pathname: string)
    ensures UnderAny(pathname, ProtectedRoutes) <==> StartsWith(pathname, "/dashboard")
    ensures UnderAny(pathname, AdminRoutes) <==> StartsWith(pathname, "/admin")
  {
    if StartsWith(pathname, "/dashboard") {
      assert StartsWith(pathname, ProtectedRoutes[0]);
    }
    if StartsWith(pathname, "/admin") {
      assert StartsWith(pathname, AdminRoutes[0]);
    }
  }

  /** No public path lies below the dashboard or the admin area. */
  lemma PublicNotGuarded(pathname: string)
    requires pathname in PublicRoutes
    ensures !StartsWith(pathname, "/dashboard") && !StartsWith(pathname, "/admin")
  {
    NotPrefixAt(pathname, "/dashboard", 2);
    NotPrefixAt(pathname, "/admin", 2);
  }

  /**
   * `middleware`: a public path (matched exactly) passes, except that a
   * signed-in visitor of the sign-in or sign-up page goes to the dashboard; a
   * dashboard or admin path without a token goes to the sign-in page;
   * everything else passes. An empty token counts as none.
   */
  function Middleware(pathname: string, token: Option<string>): (r: Response)
    ensures r == Redirect("/dashboard") <==> Truthy(token) && IsAuthPage(pathname)
    ensures r == Redirect("/auth/login") <==>
      && !Truthy(token) && pathname !in PublicRoutes
      && (StartsWith(pathname, "/dashboard") || StartsWith(pathname, "/admin"))
    ensures r.Next? || r == Redirect("/dashboard") || r == Redirect("/auth/login")
  {
    SingleRoute(pathname);
    if pathname in PublicRoutes then
      if Truthy(token) && IsAuthPage(pathname) then Redirect("/dashboard") else Next
    else if UnderAny(pathname, ProtectedRoutes) && !Truthy(token) then
      Redirect("/auth/login")
    else if UnderAny(pathname, AdminRoutes) then
      if !Truthy(token) then Redirect("/auth/login") else Next
    else
      Next
  }

  /** A redirect always lands on a page the middleware lets through with the same cookie. */
  lemma RedirectsSettle(pathname: string, token: Option<string>)
    requires Middleware(pathname, token).Redirect?
    ensures Middleware(Middleware(pathname, token).location, token) == Next
  {
    if Truthy(token) {
      NotPrefixAt("/dashboard", "/admin", 1);
    } else {
      PublicNotGuarded("/auth/login");
    }
  }

  /** Public paths match exactly: a path below the sign-in page is not public, and passes as any other path. */
  lemma PublicMatchIsExact()
    ensures "/auth/login/x" !in PublicRoutes
    ensures Middleware("/auth/login/x", Some("t")) == Next
    ensures Middleware("/auth/login/x", None) == Next
  {
    NotPrefixAt("/auth/login/x", "/dashboard", 1);
    NotPrefixAt("/auth/login/x", "/admin", 2);
  }

  /** Admin paths check only that a token is present, never the role it carries. */
  lemma AdminNeedsOnlyAToken(pathname: string, token: string)
    requires StartsWith(pathname, "/admin") && token != ""
    ensures Middleware(pathname, Some(token)) == Next
  {
    PrefixChar(pathname, "/admin", 1);
    PrefixChar(pathname, "/admin", 2);
    NotPrefixAt(pathname, "/dashboard", 1);
    NotPrefixAt(pathname, "/auth/login", 2);
    NotPrefixAt(pathname, "/auth/register", 2);
  }

  /** Without a token nothing under the dashboard or the admin area is reachable. */
  lemma SignedOutKeptOut(pathname: string, token: Option<string>)
    requires !Truthy(token)
    requires StartsWith(pathname, "/dashboard") || StartsWith(pathname, "/admin")
    ensures Middleware(pathname, token) == Redirect("/auth/login")
  {
    if pathname in PublicRoutes {
      PublicNotGuarded(pathname);
    }
  }
}
