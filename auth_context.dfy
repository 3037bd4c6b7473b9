/**
 * The web client's authentication state and `authReducer`, the pure
 * transition function `useReducer` applies to it.
 */
module AuthContext {
  import opened Common

  /**
   * The client's view of the signed-in user (the web `User` type, without
   * its timestamps and counters); `role` is the optional role name.
   */
  datatype ClientUser = ClientUser(id: string, username: string, role: Option<string>, isActive: bool)

  /** `AuthState`: null fields are None. */
  datatype AuthState = AuthState(
    isAuthenticated: bool,
    user: Option<ClientUser>,
    token: Option<string>,
    loading: bool,
    error: Option<string>)

  /**
   * `AuthAction`. `Unrecognized` stands for any other `type` a caller might
   * dispatch, which the reducer's `default` branch handles.
   */
  datatype AuthAction =
    | AuthStart
    | AuthSuccess(user: ClientUser, token: string)
    | AuthError(message: string)
    | Logout
    | ClearError
    | SetLoading(loading: bool)
    | Unrecognized(kind: string)

  /** Authenticated exactly when a token is held, and a token exactly when a user is held. */
  predicate Consistent(s: AuthState) {
    (s.isAuthenticated <==> s.token.Some?) && (s.token.Some? <==> s.user.Some?)
  }

  /** The session part of the state: whether signed in, as whom, with which token. */
  function Session(s: AuthState): (bool, Option<ClientUser>, Option<string>) {
    (s.isAuthenticated, s.user, s.token)
  }

  /** The state `AuthProvider` starts from: signed out, loading, no error. */
  function InitialState(): (s: AuthState)
    ensures Consistent(s)
    ensures !s.isAuthenticated && s.loading && s.error.None?
  {
    AuthState(false, None, None, true, None)
  }

  /** The signed-out state LOGOUT produces from any state. */
  const LoggedOut := AuthState(false, None, None, false, None)

  /** `authReducer`. */
  function AuthReducer(s: AuthState, action: AuthAction): (r: AuthState)
    ensures Consistent(s) ==> Consistent(r)
    ensures action.AuthStart? || action.ClearError? || action.SetLoading? || action.Unrecognized? ==>
      Session(r) == Session(s)
    ensures action.AuthSuccess? ==>
      r.isAuthenticated && r.user == Some(action.user) && r.token == Some(action.token)
    ensures action.AuthError? || action.Logout? ==> !r.isAuthenticated && r.user.None? && r.token.None?
    ensures r.loading == match action
      case AuthStart => true
      case SetLoading(b) => b
      case AuthSuccess(_, _) | AuthError(_) | Logout => false
      case _ => s.loading
    ensures r.error == match action
      case AuthError(message) => Some(message)
      case SetLoading(_) | Unrecognized(_) => s.error
      case _ => None
    ensures action.Unrecognized? ==> r == s
  {
    match action
    case AuthStart => s.(loading := true, error := None)
    case AuthSuccess(user, token) =>
      s.(isAuthenticated := true, user := Some(user), token := Some(token), loading := false, error := None)
    case AuthError(message) =>
      s.(isAuthenticated := false, user := None, token := None, loading := false, error := Some(message))
    case Logout =>
      s.(isAuthenticated := false, user := None, token := None, loading := false, error := None)
    case ClearError => s.(error := None)
    case SetLoading(loading) => s.(loading := loading)
    case Unrecognized(_) => s
  }

  /** The state after dispatching `actions` in order, starting from `s`. */
  function Replay(s: AuthState, actions: seq<AuthAction>): AuthState
    decreases |actions|
  {
    if actions == [] then s else Replay(AuthReducer(s, actions[0]), actions[1..])
  }

  /** Every sequence of dispatches keeps a consistent state consistent. */
  lemma {:induction false} ReplayKeepsConsistent(s: AuthState, actions: seq<AuthAction>)
    requires Consistent(s)
    ensures Consistent(Replay(s, actions))
    decreases |actions|
  {
    if actions != [] {
      ReplayKeepsConsistent(AuthReducer(s, actions[0]), actions[1..]);
    }
  }

  /** Every state the provider can reach is consistent. */
  lemma ReachableStatesConsistent(actions: seq<AuthAction>)
    ensures Consistent(Replay(InitialState(), actions))
  {
    ReplayKeepsConsistent(InitialState(), actions);
  }

  /** LOGOUT forgets the session, the error and the loading flag, whatever came before. */
  lemma LogoutForgetsEverything(s: AuthState)
    ensures AuthReducer(s, Logout) == LoggedOut
  {
  }

  /** Logging out twice is logging out once. */
  lemma LogoutIdempotent(s: AuthState)
    ensures AuthReducer(AuthReducer(s, Logout), Logout) == AuthReducer(s, Logout)
  {
  }

  /** Whatever was dispatched before, the last LOGOUT decides the state. */
  lemma {:induction false} LogoutLast(s: AuthState, actions: seq<AuthAction>)
    ensures Replay(s, actions + [Logout]) == LoggedOut
    decreases |actions|
  {
    if actions == [] {
      assert actions + [Logout] == [Logout];
    } else {
      assert (actions + [Logout])[1..] == actions[1..] + [Logout];
      LogoutLast(AuthReducer(s, actions[0]), actions[1..]);
    }
  }
}
