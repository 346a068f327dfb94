/**
 * The authentication context of the second browser client (client/src/contexts/AuthContext.js).
 * Its reducer writes only the stored token, has no LOADING case, and its failure message has no
 * validation-message fallback.  The last lemmas compare it with the web front end's context.
 */
module ClientAuth {
  import opened Wrappers
  import opened JsStrings
  import opened AuthCommon
  import FrontendAuth

  /** What the reducer touches outside React: `localStorage['token']`. */
  datatype World = World(state: AuthState, storedToken: Option<string>)

  /** `initialState`: the stored token is read, but the user starts unauthenticated. */
  function InitialState(storedToken: Option<string>): (s: AuthState)
    ensures s.user.None? && s.loading && !s.isAuthenticated
    ensures s.token == storedToken
  {
    AuthState(None, storedToken, false, true)
  }

  const LoggedOut := AuthState(None, None, false, false)

  /** `authReducer`, together with its writes to storage; LOADING falls to the default case. */
  function Reduce(w: World, a: Action): (r: World)
    ensures TokenMirrored(w) ==> TokenMirrored(r)
    ensures r.state.loading <==> (a.Loading? || a.Other?) && w.state.loading
    ensures r.state.isAuthenticated <==>
      a.LoginSuccess? || a.UserLoaded? || ((a.Loading? || a.Other?) && w.state.isAuthenticated)
  {
    match a
    case LoginSuccess(token, user) =>
      World(w.state.(user := Some(user), token := Some(token), isAuthenticated := true, loading := false), Some(token))
    case LoginFail => World(LoggedOut, None)
    case Logout => World(LoggedOut, None)
    case UserLoaded(user) => World(w.state.(user := Some(user), isAuthenticated := true, loading := false), w.storedToken)
    case AuthError => World(LoggedOut, None)
    case Loading => w
    case Other => w
  }

  function ReduceAll(w: World, actions: seq<Action>): World
    decreases |actions|
  {
    if actions == [] then w else ReduceAll(Reduce(w, actions[0]), actions[1..])
  }

  lemma LoginSuccessEffect(w: World, token: string, user: User)
    ensures Reduce(w, LoginSuccess(token, user)) == World(AuthState(Some(user), Some(token), true, false), Some(token))
  {
  }

  lemma FailuresAreLogout(w: World)
    ensures Reduce(w, LoginFail) == Reduce(w, Logout)
    ensures Reduce(w, AuthError) == Reduce(w, Logout)
    ensures var r := Reduce(w, Logout);
      r.state.user.None? && r.state.token.None? && !r.state.isAuthenticated && !r.state.loading && r.storedToken.None?
  {
  }

  lemma UserLoadedKeepsToken(w: World, user: User)
    ensures var r := Reduce(w, UserLoaded(user));
      && r.state.token == w.state.token && r.storedToken == w.storedToken
      && r.state.user == Some(user) && r.state.isAuthenticated && !r.state.loading
  {
  }

  /** There is no LOADING case: it and any unknown action leave the world as it was. */
  lemma LoadingIsIgnored(w: World)
    ensures Reduce(w, Loading) == w
    ensures Reduce(w, Other) == w
  {
  }

  predicate TokenMirrored(w: World) {
    w.state.token == w.storedToken
  }

  lemma {:induction false} ReduceAllPreservesMirror(w: World, actions: seq<Action>)
    requires TokenMirrored(w)
    ensures TokenMirrored(ReduceAll(w, actions))
    decreases |actions|
  {
    if actions != [] {
      ReduceAllPreservesMirror(Reduce(w, actions[0]), actions[1..]);
    }
  }

  /** `error.response?.data?.message || fallback`. */
  function FailureMessage(body: Option<ErrorBody>, fallback: string): (r: string)
    requires fallback != ""
    ensures r != ""
    ensures body.Some? && Truthy(body.value.message) ==> r == body.value.message.value
    ensures !(body.Some? && Truthy(body.value.message)) ==> r == fallback
  {
    if body.Some? && Truthy(body.value.message) then body.value.message.value else fallback
  }

  function LoginFailureMessage(body: Option<ErrorBody>): (r: string)
    ensures r != ""
  {
    FailureMessage(body, LoginFailed)
  }

  function RegisterFailureMessage(body: Option<ErrorBody>): (r: string)
    ensures r != ""
  {
    FailureMessage(body, RegistrationFailed)
  }

  /** The client's message is the front end's message with the validation errors ignored. */
  lemma MessageIgnoresValidationErrors(body: Option<ErrorBody>, fallback: string)
    requires fallback != ""
    ensures FailureMessage(body, fallback) ==
      FrontendAuth.FailureMessage(if body.Some? then Some(body.value.(errors := None)) else None, fallback)
  {
  }

  /** A body with only a validation error gets the front end's message but the client's fallback. */
  lemma MessagesDiffer()
    ensures var body := Some(ErrorBody(None, Some([ErrorEntry(Some("Please include a valid email"))])));
      && FrontendAuth.LoginFailureMessage(body) == "Please include a valid email"
      && LoginFailureMessage(body) == LoginFailed
  {
  }

  /** From the same state, the two reducers agree on every action except LOADING. */
  lemma ReducersAgreeExceptLoading(state: AuthState, browser: FrontendAuth.Browser, a: Action)
    requires !a.Loading?
    ensures Reduce(World(state, browser.storedToken), a).state == FrontendAuth.Reduce(FrontendAuth.World(state, browser), a).state
    ensures Reduce(World(state, browser.storedToken), a).storedToken == FrontendAuth.Reduce(FrontendAuth.World(state, browser), a).browser.storedToken
  {
  }

  /** The initial states differ only in `isAuthenticated`, and only when a token is stored. */
  lemma InitialStatesDiffer(stored: Option<string>)
    ensures InitialState(stored) == FrontendAuth.InitialState(stored).(isAuthenticated := false)
    ensures InitialState(stored) == FrontendAuth.InitialState(stored) <==> !Truthy(stored)
  {
  }
}
