/**
 * What the two authentication contexts (frontend/src/contexts/AuthContext.js and
 * client/src/contexts/AuthContext.js) share: the reducer state, the actions dispatched to it,
 * and the body of a failed request that `login` and `register` read their message from.
 */
module AuthCommon {
  import opened Wrappers

  /** The user object the server returns; the reducers only store it. */
  datatype User = User(fields: map<string, string>)

  /** `{ user, token, isAuthenticated, loading }`; null is None. */
  datatype AuthState = AuthState(user: Option<User>, token: Option<string>, isAuthenticated: bool, loading: bool)

  /** The `type` of a dispatched action, with its payload; Other is any type no case names. */
  datatype Action =
    | LoginSuccess(token: string, user: User)
    | LoginFail
    | Logout
    | UserLoaded(user: User)
    | AuthError
    | Loading
    | Other

  /** One entry of an express-validator `errors` array. */
  datatype ErrorEntry = ErrorEntry(msg: Option<string>)

  /** `error.response.data` of a failed request, None when there is no response or no body. */
  datatype ErrorBody = ErrorBody(message: Option<string>, errors: Option<seq<ErrorEntry>>)

  const LoginFailed := "Login failed"
  const RegistrationFailed := "Registration failed"
}
