/**
 * The session state of the dashboard (src/contexts/AuthContext.tsx): loading a stored
 * session, persisting it, logging in and out, and refreshing the access token. Each operation
 * is a transition from the current state and storage to the next ones; `JSON.parse` and
 * `JSON.stringify` of the stored user are parameters, and network calls are outcomes.
 */
module AuthContext {
  import opened Wrappers
  import opened Types
  import opened Js
  import ApiClient

  type Storage = ApiClient.Storage

  /** `AuthState`. */
  datatype AuthState = AuthState(
    user: Option<User>,
    accessToken: Option<string>,
    refreshToken: Option<string>,
    isAuthenticated: bool,
    isLoading: bool)

  /** The state before the stored session has been read. */
  const Initial := AuthState(None, None, None, false, true)

  /** The state after logging out. */
  const SignedOut := AuthState(None, None, None, false, false)

  /** What `JSON.parse` makes of the stored user: it throws on malformed text, and the text
      `null` parses to no user at all. */
  datatype ParsedUser = Malformed | Parsed(user: Option<User>)

  /** Whether storage holds a complete session: all three strings present and non-empty. */
  predicate HasStoredSession(storage: Storage) {
    && ApiClient.IsTruthy(ApiClient.GetItem(storage, ApiClient.AccessTokenKey))
    && ApiClient.IsTruthy(ApiClient.GetItem(storage, ApiClient.RefreshTokenKey))
    && ApiClient.IsTruthy(ApiClient.GetItem(storage, ApiClient.UserKey))
  }

  /** `loadAuthState`, run once on mount: a complete, parsable stored session becomes the
      state; anything else only ends the loading. */
  function LoadAuthState(prev: AuthState, storage: Storage, parse: string -> ParsedUser): (r: AuthState)
    ensures !r.isLoading
    ensures HasStoredSession(storage) && parse(storage[ApiClient.UserKey]).Parsed? ==>
              && r.isAuthenticated
              && r.user == parse(storage[ApiClient.UserKey]).user
              && r.accessToken == Some(storage[ApiClient.AccessTokenKey])
              && r.refreshToken == Some(storage[ApiClient.RefreshTokenKey])
    ensures !(HasStoredSession(storage) && parse(storage[ApiClient.UserKey]).Parsed?) ==>
              r == prev.(isLoading := false)
  {
    if HasStoredSession(storage) then
      match parse(storage[ApiClient.UserKey])
      case Parsed(user) =>
        AuthState(user, Some(storage[ApiClient.AccessTokenKey]), Some(storage[ApiClient.RefreshTokenKey]), true, false)
      case Malformed => prev.(isLoading := false)
    else prev.(isLoading := false)
  }

  /** On mount the session is authenticated exactly when storage holds a complete session
      whose user parses. */
  lemma LoadFromInitial(storage: Storage, parse: string -> ParsedUser)
    ensures LoadAuthState(Initial, storage, parse).isAuthenticated <==>
              HasStoredSession(storage) && parse(storage[ApiClient.UserKey]).Parsed?
    ensures !LoadAuthState(Initial, storage, parse).isAuthenticated ==> LoadAuthState(Initial, storage, parse) == SignedOut
  {
  }

  /** Whether the persist effect writes the state out. */
  predicate IsPersistable(state: AuthState) {
    && state.isAuthenticated
    && state.user.Some?
    && ApiClient.IsTruthy(state.accessToken)
    && ApiClient.IsTruthy(state.refreshToken)
  }

  /** The persist effect, run after every state change. */
  function Persist(state: AuthState, storage: Storage, stringify: User -> string): (r: Storage)
    ensures !IsPersistable(state) ==> r == storage
    ensures IsPersistable(state) ==>
              && ApiClient.AccessTokenKey in r && r[ApiClient.AccessTokenKey] == state.accessToken.value
              && ApiClient.RefreshTokenKey in r && r[ApiClient.RefreshTokenKey] == state.refreshToken.value
              && ApiClient.UserKey in r && r[ApiClient.UserKey] == stringify(state.user.value)
    ensures forall k | k != ApiClient.AccessTokenKey && k != ApiClient.RefreshTokenKey && k != ApiClient.UserKey ::
              (k in r <==> k in storage) && (k in r ==> r[k] == storage[k])
  {
    if IsPersistable(state) then
      storage[ApiClient.AccessTokenKey := state.accessToken.value]
             [ApiClient.RefreshTokenKey := state.refreshToken.value]
             [ApiClient.UserKey := stringify(state.user.value)]
    else storage
  }

  /** A persisted session is loaded back as it was, provided the user survives the
      `JSON.stringify`/`JSON.parse` round trip and its text is not empty. */
  lemma PersistLoadRoundTrip(state: AuthState, storage: Storage, stringify: User -> string,
                             parse: string -> ParsedUser, prev: AuthState)
    requires IsPersistable(state) && !state.isLoading
    requires stringify(state.user.value) != ""
    requires parse(stringify(state.user.value)) == Parsed(state.user)
    ensures LoadAuthState(prev, Persist(state, storage, stringify), parse) == state
  {
  }

  /** The `data` object of a successful login response. */
  datatype LoginData = LoginData(
    id: string,
    username: string,
    email: string,
    firstName: string,
    lastName: string,
    isActive: bool,
    isStaff: bool,
    dateJoined: string,
    access: string,
    refresh: string)

  /** The login call's outcome: a response whose body has (or lacks) `data`, or a failure
      with its response body (`Undefined` when no response arrived). The login URL is public
      and is never answered by a refresh, so the failure is the back end's own. */
  datatype LoginOutcome = LoginResponse(data: Option<LoginData>) | LoginRejected(body: Json<()>)

  /** A completed login navigates to the dashboard; a failed one throws a message. */
  datatype LoginResult = LoggedIn(state: AuthState, navigateTo: string) | LoginError(message: string)

  const LoginFailedMessage := "Login failed. Please check the credentials."

  /** The user record built from the eight user fields of the login response. */
  function UserOf(data: LoginData): User {
    User(data.id, data.username, data.email, data.firstName, data.lastName,
         data.isActive, data.isStaff, data.dateJoined)
  }

  /** The thrown message: `data.error`, else `message`, else the fixed sentence. */
  function LoginErrorMessage(body: Json<()>): (r: string)
    ensures Truthy(Get(Get(body, "data"), "error")) ==> r == ToStr(Get(Get(body, "data"), "error"))
    ensures !Truthy(Get(Get(body, "data"), "error")) && Truthy(Get(body, "message")) ==>
              r == ToStr(Get(body, "message"))
    ensures !Truthy(Get(Get(body, "data"), "error")) && !Truthy(Get(body, "message")) ==>
              r == LoginFailedMessage
  {
    ToStr(Or(Or(Get(Get(body, "data"), "error"), Get(body, "message")), Str(LoginFailedMessage)))
  }

  /** `login`. A response without `data` fails while the user is read, and that failure
      carries no response, so the fixed sentence is thrown. */
  function Login(outcome: LoginOutcome): (r: LoginResult)
    ensures r.LoggedIn? <==> outcome.LoginResponse? && outcome.data.Some?
    ensures r.LoggedIn? ==>
              && r.navigateTo == "/dashboard"
              && r.state.isAuthenticated && !r.state.isLoading
              && r.state.user == Some(UserOf(outcome.data.value))
              && r.state.accessToken == Some(outcome.data.value.access)
              && r.state.refreshToken == Some(outcome.data.value.refresh)
    ensures outcome.LoginRejected? ==> r == LoginError(LoginErrorMessage(outcome.body))
    ensures outcome.LoginResponse? && outcome.data.None? ==> r == LoginError(LoginFailedMessage)
  {
    match outcome
    case LoginResponse(None) => LoginError(LoginErrorMessage(Undefined))
    case LoginResponse(Some(data)) =>
      LoggedIn(AuthState(Some(UserOf(data)), Some(data.access), Some(data.refresh), true, false), "/dashboard")
    case LoginRejected(body) => LoginError(LoginErrorMessage(body))
  }

  /** A back-end error takes precedence over the general message: adding a `message` to any
      body changes nothing while a nested error is there, and is shown as it is otherwise. */
  lemma LoginErrorPrecedence(fields: seq<(string, Json<()>)>, message: Json<()>)
    ensures var body := Obj(fields);
            Truthy(Get(Get(body, "data"), "error")) ==>
              LoginErrorMessage(Obj(fields + [("message", message)])) == LoginErrorMessage(body)
    ensures var body := Obj(fields);
            !Truthy(Get(Get(body, "data"), "error")) && Truthy(message) ==>
              LoginErrorMessage(Obj(fields + [("message", message)])) == ToStr(message)
  {
    var longer := fields + [("message", message)];
    assert longer[..|longer| - 1] == fields;
    assert "message" != "data" by { assert |"message"| != |"data"|; }
    assert Lookup(longer, "data") == Lookup(fields, "data");
    assert Lookup(longer, "message") == message;
  }

  /** After a login with non-empty tokens the persist effect stores the session, and a
      reload finds it again. */
  lemma LoginIsPersisted(data: LoginData, storage: Storage, stringify: User -> string,
                         parse: string -> ParsedUser)
    requires data.access != "" && data.refresh != ""
    requires stringify(UserOf(data)) != "" && parse(stringify(UserOf(data))) == Parsed(Some(UserOf(data)))
    ensures var s := Login(LoginResponse(Some(data))).state;
            && IsPersistable(s)
            && LoadAuthState(Initial, Persist(s, storage, stringify), parse) == s
  {
    var s := Login(LoginResponse(Some(data))).state;
    PersistLoadRoundTrip(s, storage, stringify, parse, Initial);
  }

  /** A state change together with its effects on storage and navigation. */
  datatype Transition = Transition(state: AuthState, storage: Storage, navigateTo: Option<string>)

  /** `logout`: the three session keys are removed, the state is reset and the browser goes
      to the login page. */
  function Logout(storage: Storage): (r: Transition)
    ensures r.state == SignedOut && !r.state.isAuthenticated && !r.state.isLoading
    ensures r.storage == ApiClient.ClearSession(storage)
    ensures r.navigateTo == Some("/login")
  {
    Transition(SignedOut, ApiClient.ClearSession(storage), Some("/login"))
  }

  /** After logging out nothing is persisted and a reload stays signed out. */
  lemma LogoutIsFinal(storage: Storage, stringify: User -> string, parse: string -> ParsedUser)
    ensures var t := Logout(storage);
            && Persist(t.state, t.storage, stringify) == t.storage
            && !HasStoredSession(t.storage)
            && LoadAuthState(Initial, t.storage, parse) == SignedOut
  {
  }

  /** `refreshAccessToken`: whether it succeeded, and the transition. */
  datatype RefreshResult = RefreshResult(ok: bool, transition: Transition)

  /** `refreshAccessToken`, given what the refresh call returns. The call goes through the
      shared client, whose response interceptor passes failures of the refresh URL on
      unchanged, so a failure logs out. */
  function RefreshAccessToken(state: AuthState, storage: Storage, outcome: ApiClient.RefreshOutcome): (r: RefreshResult)
    ensures !ApiClient.IsTruthy(state.refreshToken) ==> r == RefreshResult(false, Transition(state, storage, None))
    ensures ApiClient.IsTruthy(state.refreshToken) && outcome.RefreshFailed? ==> r == RefreshResult(false, Logout(storage))
    ensures r.ok <==> ApiClient.IsTruthy(state.refreshToken) && outcome.Refreshed?
    ensures r.ok ==>
              && r.transition.state == state.(accessToken := outcome.access)
              && r.transition.storage == storage[ApiClient.AccessTokenKey := ApiClient.StoredText(outcome.access)]
              && r.transition.navigateTo.None?
  {
    if !ApiClient.IsTruthy(state.refreshToken) then RefreshResult(false, Transition(state, storage, None))
    else
      match outcome
      case Refreshed(access) =>
        RefreshResult(true, Transition(state.(accessToken := access),
                                       storage[ApiClient.AccessTokenKey := ApiClient.StoredText(access)], None))
      case RefreshFailed(_) => RefreshResult(false, Logout(storage))
  }

  /** A refreshed session that had been persisted is still found on reload, with the new
      access token and everything else as before. */
  lemma RefreshKeepsSessionLoadable(state: AuthState, storage: Storage, stringify: User -> string,
                                    parse: string -> ParsedUser, access: string)
    requires IsPersistable(state) && !state.isLoading
    requires stringify(state.user.value) != ""
    requires parse(stringify(state.user.value)) == Parsed(state.user)
    requires access != ""
    ensures var t := RefreshAccessToken(state, Persist(state, storage, stringify), ApiClient.Refreshed(Some(access))).transition;
            && t.state == state.(accessToken := Some(access))
            && LoadAuthState(Initial, t.storage, parse) == t.state
  {
  }
}
