/**
 * `RedirectHandler`: the client-side counterpart of the middleware, run on
 * every path change once the auth state has loaded.
 */
module RedirectHandler {
  import opened Common
  import Middleware

  const ProtectedRoutes: seq<string> := ["/profile", "/settings", "/admin"]
  const AuthRoutes: seq<string> := ["/auth/login", "/auth/register"]

  /** `PROTECTED_ROUTES.some(route => pathname.startsWith(route))`. */
  predicate IsProtectedRoute(pathname: string) {
    exists i :: 0 <= i < |ProtectedRoutes| && StartsWith(pathname, ProtectedRoutes[i])
  }

  /** `AUTH_ROUTES.includes(pathname)`: exact match. */
  predicate IsAuthRoute(pathname: string) {
    pathname in AuthRoutes
  }

  lemma ProtectedRouteMeaning(pathname: string)
    ensures IsProtectedRoute(pathname) <==>
      StartsWith(pathname, "/profile") || StartsWith(pathname, "/settings") || StartsWith(pathname, "/admin")
  {
    if StartsWith(pathname, "/profile") {
      assert StartsWith(pathname, ProtectedRoutes[0]);
    }
    if StartsWith(pathname, "/settings") {
      assert StartsWith(pathname, ProtectedRoutes[1]);
    }
    if StartsWith(pathname, "/admin") {
      assert StartsWith(pathname, ProtectedRoutes[2]);
    }
  }

  /**
   * The redirect the effect performs, if any: none while loading; a
   * signed-out visitor of a protected area goes to the sign-in page; a
   * signed-in visitor of the sign-in or sign-up page goes home.
   */
  function RedirectTarget(pathname: string, isAuthenticated: bool, loading: bool): (target: Option<string>)
    ensures loading ==> target.None?
    ensures target == Some("/auth/login") <==>
      !loading && !isAuthenticated &&
      (StartsWith(pathname, "/profile") || StartsWith(pathname, "/settings") || StartsWith(pathname, "/admin"))
    ensures target == Some("/") <==>
      !loading && isAuthenticated && (pathname == "/auth/login" || pathname == "/auth/register")
    ensures target.None? || target == Some("/auth/login") || target == Some("/")
  {
    ProtectedRouteMeaning(pathname);
    if loading then None
    else if IsProtectedRoute(pathname) && !isAuthenticated then Some("/auth/login")
    else if IsAuthRoute(pathname) && isAuthenticated then Some("/")
    else None
  }

  /** The page a redirect lands on is not redirected again. */
  lemma RedirectsSettle(pathname: string, isAuthenticated: bool, loading: bool)
    requires RedirectTarget(pathname, isAuthenticated, loading).Some?
    ensures RedirectTarget(RedirectTarget(pathname, isAuthenticated, loading).value, isAuthenticated, loading).None?
  {
    Middleware.NotPrefixAt("/auth/login", "/profile", 2);
    Middleware.NotPrefixAt("/auth/login", "/settings", 1);
    Middleware.NotPrefixAt("/auth/login", "/admin", 2);
  }

  /** Auth routes match exactly; protected routes match whole subtrees. */
  lemma MatchingKinds()
    ensures RedirectTarget("/auth/login/x", true, false).None?
    ensures RedirectTarget("/profile/edit", false, false) == Some("/auth/login")
  {
    Middleware.NotPrefixAt("/auth/login/x", "/profile", 2);
    Middleware.NotPrefixAt("/auth/login/x", "/settings", 1);
    Middleware.NotPrefixAt("/auth/login/x", "/admin", 2);
    assert "/profile/edit"[..|"/profile"|] == "/profile";
  }

  /**
   * For the admin area the client and the middleware agree: signed out, both
   * send the visitor to the sign-in page.
   */
  lemma AdminAgreesWithMiddleware(pathname: string, token: Option<string>)
    requires StartsWith(pathname, "/admin") && !Truthy(token)
    ensures Middleware.Middleware(pathname, token) == Middleware.Redirect("/auth/login")
    ensures RedirectTarget(pathname, false, false) == Some("/auth/login")
  {
    Middleware.SignedOutKeptOut(pathname, token);
  }
}
