/**
 * `useAuthGuard`: two pieces of component state, `isAuthorized` and
 * `shouldRedirect`, updated by a decision effect whenever the auth state or
 * the options change, and the redirect the second effect performs.
 */
module AuthGuard {
  import opened Common
  import opened AuthContext

  /** `UseAuthGuardOptions`; None is an option left undefined. */
  datatype GuardOptions = GuardOptions(
    requiredRole: Option<string>,
    redirectTo: Option<string>,
    enabled: Option<bool>)

  /** `redirectTo = "/auth/login"`: the default applies only when undefined, so '' is kept. */
  function RedirectTo(opts: GuardOptions): (target: string)
    ensures opts.redirectTo.Some? ==> target == opts.redirectTo.value
    ensures opts.redirectTo.None? ==> target == "/auth/login"
  {
    opts.redirectTo.GetOr("/auth/login")
  }

  /** `enabled = true`: the default applies only when undefined. */
  function Enabled(opts: GuardOptions): (enabled: bool)
    ensures enabled <==> opts.enabled != Some(false)
  {
    opts.enabled.GetOr(true)
  }

  /**
   * `requiredRole && user?.role !== requiredRole`: a role is asked for and
   * the user is null, has no role, or has another one.
   */
  predicate RoleMismatch(opts: GuardOptions, auth: AuthState) {
    Truthy(opts.requiredRole) && (auth.user.None? || auth.user.value.role != opts.requiredRole)
  }

  /** A signed-in user whose role is missing fails every required role, as one with another role does. */
  lemma MissingRoleMismatches(opts: GuardOptions, auth: AuthState)
    requires Truthy(opts.requiredRole)
    requires auth.user.Some? && auth.user.value.role.None?
    ensures RoleMismatch(opts, auth)
  {
  }

  /** The hook's state cells for one mounted component. */
  class Guard {
    var isAuthorized: bool
    var shouldRedirect: bool

    /** The two flags are never both set. */
    ghost predicate Valid()
      reads this
    {
      !(isAuthorized && shouldRedirect)
    }

    /** `useState(false)` twice. */
    constructor()
      ensures Valid()
      ensures !isAuthorized && !shouldRedirect
    {
      isAuthorized := false;
      shouldRedirect := false;
    }

    /**
     * The decision effect: nothing while disabled or loading; a redirect,
     * unauthorised, for a signed-out user or a role mismatch; otherwise
     * authorised.
     */
    method Decide(opts: GuardOptions, auth: AuthState)
      requires Valid()
      modifies this
      ensures Valid()
      ensures !Enabled(opts) || auth.loading ==>
        isAuthorized == old(isAuthorized) && shouldRedirect == old(shouldRedirect)
      ensures Enabled(opts) && !auth.loading && (!auth.isAuthenticated || RoleMismatch(opts, auth)) ==>
        shouldRedirect && !isAuthorized
      ensures Enabled(opts) && !auth.loading && auth.isAuthenticated && !RoleMismatch(opts, auth) ==>
        isAuthorized && !shouldRedirect
    {
      if !Enabled(opts) || auth.loading {
        return;
      }
      if !auth.isAuthenticated {
        shouldRedirect := true;
        isAuthorized := false;
        return;
      }
      if RoleMismatch(opts, auth) {
        shouldRedirect := true;
        isAuthorized := false;
        return;
      }
      isAuthorized := true;
      shouldRedirect := false;
    }

    /**
     * The redirect effect: only when a redirect is due and loading is over;
     * home for a signed-in user when a role was asked for, `redirectTo`
     * otherwise.
     */
    function Redirect(opts: GuardOptions, auth: AuthState): (target: Option<string>)
      reads this
      ensures target.Some? <==> shouldRedirect && !auth.loading
      ensures target.Some? && Truthy(opts.requiredRole) && auth.isAuthenticated ==> target.value == "/"
      ensures target.Some? && !(Truthy(opts.requiredRole) && auth.isAuthenticated) ==> target.value == RedirectTo(opts)
    {
      if shouldRedirect && !auth.loading then
        Some(if Truthy(opts.requiredRole) && auth.isAuthenticated then "/" else RedirectTo(opts))
      else None
    }

    /** The `isAuthorized` the hook returns: never true while a redirect is due. */
    function ExposedIsAuthorized(): (authorized: bool)
      reads this
      ensures authorized ==> !shouldRedirect
      ensures Valid() ==> authorized == isAuthorized
    {
      isAuthorized && !shouldRedirect
    }
  }

  /**
   * A component mounting the hook, once the two effects have settled
   * against one auth state `auth`: the redirect it performs and the
   * `isAuthorized` it returns.
   */
  method Mount(opts: GuardOptions, auth: AuthState) returns (target: Option<string>, authorized: bool)
    ensures authorized ==> target.None?
    ensures authorized <==> Enabled(opts) && !auth.loading && auth.isAuthenticated && !RoleMismatch(opts, auth)
    ensures target.Some? <==> Enabled(opts) && !auth.loading && (!auth.isAuthenticated || RoleMismatch(opts, auth))
    ensures target.Some? && auth.isAuthenticated ==> target.value == "/"
    ensures target.Some? && !auth.isAuthenticated ==> target.value == RedirectTo(opts)
  {
    var guard := new Guard();
    guard.Decide(opts, auth);
    target := guard.Redirect(opts, auth);
    authorized := guard.ExposedIsAuthorized();
  }

  /** With the default options a signed-out user is sent to the login page once loading is over. */
  method SignedOutGoesToLogin(auth: AuthState) returns (target: Option<string>)
    requires !auth.loading && !auth.isAuthenticated
    ensures target == Some("/auth/login")
  {
    var authorized;
    target, authorized := Mount(GuardOptions(None, None, None), auth);
  }
}
