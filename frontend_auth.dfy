/**
 * The authentication context of the web front end (frontend/src/contexts/AuthContext.js):
 * the initial state, `authReducer`, and the message `login` and `register` return when the
 * request fails.  The reducer writes the browser's stored token and removes the default
 * `Authorization` header; both are part of the world the reducer maps to a new world.
 */
module FrontendAuth {
  import opened Wrappers
  import opened JsStrings
  import opened AuthCommon

  /** What the reducer touches outside React: `localStorage['token']` and the axios default header. */
  datatype Browser = Browser(storedToken: Option<string>, authHeader: Option<string>)

  datatype World = World(state: AuthState, browser: Browser)

  /** `initialState`, read from the stored token when the module loads. */
  function InitialState(storedToken: Option<string>): (s: AuthState)
    ensures s.user.None? && s.loading
    ensures s.token == storedToken
    ensures s.isAuthenticated <==> storedToken.Some? && storedToken.value != ""
  {
    AuthState(None, storedToken, Truthy(storedToken), true)
  }

  /** The state after a failed login, a logout or an authentication error. */
  const LoggedOut := AuthState(None, None, false, false)

  /** `authReducer`, together with its writes to storage and to the axios header. */
  function Reduce(w: World, a: Action): (r: World)
    ensures TokenMirrored(w) ==> TokenMirrored(r)
    ensures r.state.loading <==> a.Loading? || (a.Other? && w.state.loading)
    ensures r.state.isAuthenticated <==>
      a.LoginSuccess? || a.UserLoaded? || ((a.Loading? || a.Other?) && w.state.isAuthenticated)
    ensures r.browser.authHeader == w.browser.authHeader || r.browser.authHeader.None?
  {
    match a
    case LoginSuccess(token, user) =>
      World(w.state.(user := Some(user), token := Some(token), isAuthenticated := true, loading := false),
            w.browser.(storedToken := Some(token)))
    case LoginFail => World(LoggedOut, Browser(None, None))
    case Logout => World(LoggedOut, Browser(None, None))
    case UserLoaded(user) =>
      World(w.state.(user := Some(user), isAuthenticated := true, loading := false), w.browser)
    case AuthError => World(LoggedOut, Browser(None, None))
    case Loading => w.(state := w.state.(loading := true))
    case Other => w
  }

  /** The reducer applied to each action in turn. */
  function ReduceAll(w: World, actions: seq<Action>): World
    decreases |actions|
  {
    if actions == [] then w else ReduceAll(Reduce(w, actions[0]), actions[1..])
  }

  lemma LoginSuccessEffect(w: World, token: string, user: User)
    ensures Reduce(w, LoginSuccess(token, user)).state == AuthState(Some(user), Some(token), true, false)
    ensures Reduce(w, LoginSuccess(token, user)).browser.storedToken == Some(token)
    ensures Reduce(w, LoginSuccess(token, user)).browser.authHeader == w.browser.authHeader
  {
  }

  /** LOGIN_FAIL, LOGOUT and AUTH_ERROR lead to the same world, whatever the world was. */
  lemma FailuresAreLogout(w: World)
    ensures Reduce(w, LoginFail) == Reduce(w, Logout)
    ensures Reduce(w, AuthError) == Reduce(w, Logout)
    ensures var r := Reduce(w, Logout);
      && r.state.user.None? && r.state.token.None? && !r.state.isAuthenticated && !r.state.loading
      && r.browser.storedToken.None? && r.browser.authHeader.None?
  {
  }

  /** Logging out twice is logging out once. */
  lemma LogoutIdempotent(w: World)
    ensures Reduce(Reduce(w, Logout), Logout) == Reduce(w, Logout)
  {
  }

  lemma UserLoadedKeepsToken(w: World, user: User)
    ensures Reduce(w, UserLoaded(user)).state.token == w.state.token
    ensures Reduce(w, UserLoaded(user)).state.user == Some(user)
    ensures Reduce(w, UserLoaded(user)).state.isAuthenticated && !Reduce(w, UserLoaded(user)).state.loading
    ensures Reduce(w, UserLoaded(user)).browser == w.browser
  {
  }

  /** LOADING sets `loading` and changes nothing else; an unknown action changes nothing. */
  lemma LoadingOnlySetsLoading(w: World)
    ensures Reduce(w, Loading).state.loading
    ensures Reduce(w, Loading).state.(loading := w.state.loading) == w.state
    ensures Reduce(w, Loading).browser == w.browser
    ensures Reduce(w, Other) == w
  {
  }

  /** The token in the state always mirrors the stored one: true initially, and kept by every action. */
  predicate TokenMirrored(w: World) {
    w.state.token == w.browser.storedToken
  }

  lemma InitialMirrored(stored: Option<string>, header: Option<string>)
    ensures TokenMirrored(World(InitialState(stored), Browser(stored, header)))
  {
  }

  lemma {:induction false} ReduceAllPreservesMirror(w: World, actions: seq<Action>)
    requires TokenMirrored(w)
    ensures TokenMirrored(ReduceAll(w, actions))
    decreases |actions|
  {
    if actions != [] {
      ReduceAllPreservesMirror(Reduce(w, actions[0]), actions[1..]);
    }
  }

  /** Only LOADING sets `loading`: after any other action it is false, unless the action is unknown. */
  lemma SettledAfterAnswer(w: World, a: Action)
    requires !a.Loading? && !a.Other?
    ensures !Reduce(w, a).state.loading
  {
  }

  /** USER_LOADED does not look at the token: dispatched after a logout it yields an authenticated
      state with no token. */
  lemma AuthenticatedWithoutToken(w: World, user: User)
    ensures var r := Reduce(Reduce(w, Logout), UserLoaded(user));
      r.state.isAuthenticated && r.state.token.None? && r.browser.storedToken.None?
  {
  }

  /** `error.response?.data?.message || error.response?.data?.errors?.[0]?.msg || fallback`. */
  function FailureMessage(body: Option<ErrorBody>, fallback: string): (r: string)
    requires fallback != ""
    ensures r != ""
    ensures body.Some? && Truthy(body.value.message) ==> r == body.value.message.value
    ensures r != fallback ==>
      && body.Some?
      && (Truthy(body.value.message) ||
          (body.value.errors.Some? && |body.value.errors.value| > 0 && body.value.errors.value[0].msg == Some(r)))
  {
    if body.Some? && Truthy(body.value.message) then body.value.message.value
    else if body.Some? && body.value.errors.Some? && |body.value.errors.value| > 0
         && Truthy(body.value.errors.value[0].msg) then body.value.errors.value[0].msg.value
    else fallback
  }

  function LoginFailureMessage(body: Option<ErrorBody>): (r: string)
    ensures r != ""
  {
    FailureMessage(body, LoginFailed)
  }

  function RegisterFailureMessage(body: Option<ErrorBody>): (r: string)
    ensures r != ""
  {
    FailureMessage(body, RegistrationFailed)
  }

  /** The three sources in order: the server's message, the first validation message, the fallback. */
  lemma FailureMessageOrder(message: Option<string>, errors: Option<seq<ErrorEntry>>, fallback: string)
    requires fallback != ""
    ensures Truthy(message) ==> FailureMessage(Some(ErrorBody(message, errors)), fallback) == message.value
    ensures !Truthy(message) && errors.Some? && |errors.value| > 0 && Truthy(errors.value[0].msg) ==>
      FailureMessage(Some(ErrorBody(message, errors)), fallback) == errors.value[0].msg.value
    ensures !Truthy(message) && (errors.None? || |errors.value| == 0 || !Truthy(errors.value[0].msg)) ==>
      FailureMessage(Some(ErrorBody(message, errors)), fallback) == fallback
    ensures FailureMessage(None, fallback) == fallback
  {
  }
}
