/**
 * The session state of the client (`AuthProvider`): the signed-in `user`,
 * `loading` and `error`, and the bearer token kept in the browser store.
 * Each asynchronous action is one method that receives the settled
 * outcomes of the requests it awaits, in the order it awaits them.
 */
module AuthContext {
  import opened Wrappers
  import opened Text
  import opened BrowserStorage
  import opened ApiClient

  /** The current user as `GET /users/me` returns it. */
  datatype User = User(id: string, email: string, role: string)

  const LoginFailed := "Login failed"
  const RegistrationFailed := "Registration failed"
  const OutsideProvider := "useAuth must be used within AuthProvider"

  class AuthProvider {
    var user: Option<User>
    var loading: bool
    var error: Option<string>
    const store: LocalStorage

    /** A provider starts with no user and `loading` set. */
    constructor (store: LocalStorage)
      ensures this.store == store
      ensures user == None && loading && error == None
    {
      this.store := store;
      user := None;
      loading := true;
      error := None;
    }

    /** `isAuthenticated: !!user` */
    function IsAuthenticated(): (r: bool)
      reads this
      ensures r <==> user != None
    {
      user.Some?
    }

    /** `isAdmin: user?.role === 'admin'`; an administrator is always signed in. */
    function IsAdmin(): (r: bool)
      reads this
      ensures r <==> user.Some? && user.value.role == "admin"
      ensures r ==> IsAuthenticated()
    {
      match user
      case Some(u) => u.role == "admin"
      case None => false
    }

    /**
     * `checkAuthStatus`: with a stored token the current user is fetched; a
     * failed fetch removes the token. `loading` ends false on every path.
     */
    method CheckAuthStatus(fetchUser: Result<User, RequestError>)
      modifies this, store
      ensures !loading && error == old(error)
      ensures !old(ApiClient.IsAuthenticated(store)) ==> user == old(user) && store.items == old(store.items)
      ensures old(ApiClient.IsAuthenticated(store)) && fetchUser.Ok? ==>
                user == Some(fetchUser.value) && store.items == old(store.items)
      ensures old(ApiClient.IsAuthenticated(store)) && fetchUser.Err? ==>
                user == old(user) && store.items == old(store.items) - {TokenKey}
    {
      if ApiClient.IsAuthenticated(store) {
        match fetchUser {
          case Ok(u) => user := Some(u);
          case Err(_) => ApiClient.Logout(store);
        }
      }
      loading := false;
    }

    /**
     * `login(email, password)`: the token request's `access_token` is stored
     * before the user is fetched, so a failed user fetch leaves the token
     * stored while the login still fails.
     */
    method Login(tokenOutcome: Result<string, RequestError>, fetchUser: Result<User, RequestError>) returns (r: ActionResult)
      modifies this, store
      ensures loading == old(loading)
      ensures tokenOutcome.Err? ==>
                store.items == old(store.items) && user == old(user) &&
                r == Failed(tokenOutcome.error.DetailOr(LoginFailed))
      ensures tokenOutcome.Ok? ==> store.items == old(store.items)[TokenKey := tokenOutcome.value]
      ensures tokenOutcome.Ok? && fetchUser.Ok? ==> user == Some(fetchUser.value) && r == Succeeded(None)
      ensures tokenOutcome.Ok? && fetchUser.Err? ==>
                user == old(user) && r == Failed(fetchUser.error.DetailOr(LoginFailed))
      ensures r.Succeeded? ==> error == None
      ensures r.Failed? ==> error == Some(r.error) && r.error != ""
    {
      error := None;
      match tokenOutcome {
        case Err(e) =>
          r := Failed(e.DetailOr(LoginFailed));
        case Ok(token) =>
          store.SetItem(TokenKey, token);
          match fetchUser {
            case Ok(u) =>
              user := Some(u);
              r := Succeeded(None);
            case Err(e) =>
              r := Failed(e.DetailOr(LoginFailed));
          }
      }
      if r.Failed? {
        error := Some(r.error);
      }
    }

    /** `register(email, password)`: never touches the token or the user. */
    method Register(outcome: Result<(), RequestError>) returns (r: ActionResult)
      modifies this
      ensures user == old(user) && loading == old(loading)
      ensures outcome.Ok? ==> r == Succeeded(None) && error == None
      ensures outcome.Err? ==> r == Failed(outcome.error.DetailOr(RegistrationFailed)) && error == Some(r.error)
    {
      error := None;
      match outcome {
        case Ok(_) =>
          r := Succeeded(None);
        case Err(e) =>
          r := Failed(e.DetailOr(RegistrationFailed));
          error := Some(r.error);
      }
    }

    /** `logout()`: the token, the user and the error are cleared; nothing else changes. */
    method Logout()
      modifies this, store
      ensures store.items == old(store.items) - {TokenKey}
      ensures user == None && error == None && loading == old(loading)
      ensures !IsAuthenticated() && !IsAdmin() && !ApiClient.IsAuthenticated(store)
    {
      ApiClient.Logout(store);
      user := None;
      error := None;
    }
  }

  /** `useAuth()`: the provider's value, or the error raised outside any provider. */
  function UseAuth(context: Option<AuthProvider>): (r: Result<AuthProvider, string>)
    ensures context.Some? <==> r.Ok?
    ensures context.Some? ==> r.value == context.value
    ensures context.None? ==> r.error == OutsideProvider
  {
    match context
    case Some(p) => Ok(p)
    case None => Err(OutsideProvider)
  }
}
