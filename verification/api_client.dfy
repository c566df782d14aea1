/**
 * The shared HTTP client of src/lib/api.ts. Its request interceptor attaches the stored access
 * token as a bearer credential (RFC 6750, section 2.1) except on public endpoints; its response
 * interceptor answers a 401 Unauthorized (RFC 9110, section 15.5.2) by refreshing the access
 * token once and re-issuing the request, and logs the browser out when that fails.
 *
 * Browser storage is a map from key to string, the redirect to the login page is a flag, and
 * the token-refresh call is an abstract outcome.
 */
module ApiClient {
  import opened Wrappers
  import Text

  /** `localStorage`. */
  type Storage = map<string, string>

  const AccessTokenKey := "access_token"
  const RefreshTokenKey := "refresh_token"
  const UserKey := "user"

  const LoginPath := "/authentication/login/"
  const CvDownloadPath := "/cv/download/"
  const TokenRefreshPath := "/authentication/token/refresh/"

  /** The endpoints that are called without a token. */
  const PublicEndpoints: seq<string> := [LoginPath, CvDownloadPath]

  /** `localStorage.getItem(key)`: `null` for a missing key. */
  function GetItem(storage: Storage, key: string): Option<string> {
    if key in storage then Some(storage[key]) else None
  }

  /** A stored string is truthy when present and non-empty. */
  predicate IsTruthy(v: Option<string>) {
    v.Some? && v.value != ""
  }

  /** `localStorage.setItem(key, v)` stores `String(v)`, so an `undefined` token is stored as
      the text `undefined`. */
  function StoredText(v: Option<string>): string {
    if v.Some? then v.value else "undefined"
  }

  /** The three keys a session occupies, removed: the rest of the storage is untouched. */
  function ClearSession(storage: Storage): (r: Storage)
    ensures AccessTokenKey !in r && RefreshTokenKey !in r && UserKey !in r
    ensures forall k | k in storage && k != AccessTokenKey && k != RefreshTokenKey && k != UserKey ::
              k in r && r[k] == storage[k]
    ensures forall k | k in r :: k in storage
  {
    storage - {AccessTokenKey, RefreshTokenKey, UserKey}
  }

  /** The part of an axios request configuration the interceptors read and write. `headers`
      tells whether the configuration carries a header object; `retried` is the `_retry` mark. */
  datatype Request = Request(url: Option<string>, headers: bool, authorization: Option<string>, retried: bool)

  /** The credential a request carries for `token`. */
  function Bearer(token: string): string {
    "Bearer " + token
  }

  /** Whether the URL names one of the public endpoints (`config.url?.includes(endpoint)`). */
  predicate IsPublic(url: Option<string>) {
    url.Some? && exists e | e in PublicEndpoints :: Text.Contains(url.value, e)
  }

  /** The request interceptor. `browser` is false when the code runs on the server, where
      there is no storage to read. */
  function AttachToken(config: Request, storage: Storage, browser: bool): (r: Request)
    ensures r.url == config.url && r.headers == config.headers && r.retried == config.retried
    ensures r.authorization != config.authorization ==>
              AccessTokenKey in storage && r.authorization == Some(Bearer(storage[AccessTokenKey]))
    ensures r != config <==>
              && !IsPublic(config.url) && browser && config.headers
              && IsTruthy(GetItem(storage, AccessTokenKey))
              && config.authorization != Some(Bearer(storage[AccessTokenKey]))
  {
    if !IsPublic(config.url) && browser then
      var token := GetItem(storage, AccessTokenKey);
      if IsTruthy(token) && config.headers then config.(authorization := Some(Bearer(token.value)))
      else config
    else config
  }

  /** A request to the login or the CV endpoint keeps whatever credential it had; in
      particular one sent without a credential is sent without one. */
  lemma PublicRequestsCarryNoToken(config: Request, storage: Storage, browser: bool)
    requires config.url.Some?
    requires Text.Contains(config.url.value, LoginPath) || Text.Contains(config.url.value, CvDownloadPath)
    ensures AttachToken(config, storage, browser) == config
  {
    assert IsPublic(config.url);
  }

  /** Any other request from the browser with a stored token carries exactly that token. */
  lemma PrivateRequestsCarryToken(config: Request, storage: Storage)
    requires !IsPublic(config.url) && config.headers
    requires AccessTokenKey in storage && storage[AccessTokenKey] != ""
    ensures AttachToken(config, storage, true).authorization == Some(Bearer(storage[AccessTokenKey]))
    ensures AttachToken(config, storage, true).authorization.value[|"Bearer "|..] == storage[AccessTokenKey]
  {
  }

  /** A failed request: its configuration and `error.response?.status`. */
  datatype ApiError = ApiError(config: Request, status: Option<int>)

  /** Why the token refresh failed: no refresh token was stored, or the refresh call failed
      with the given status (`None` when no response arrived). */
  datatype RefreshFailure = NoRefreshToken | RefreshRejected(status: Option<int>)

  /** What the back end answers to the refresh call: the `access` field of a successful
      response (`None` when it is missing), or a failure. */
  datatype RefreshOutcome = Refreshed(access: Option<string>) | RefreshFailed(status: Option<int>)

  /** How a failed request's promise settles. */
  datatype Rejection = OriginalError(error: ApiError) | RefreshError(failure: RefreshFailure)

  /** The response interceptor's reaction: reject, possibly after clearing the session and
      redirecting to the login page, or re-issue the (marked, re-authorised) request. */
  datatype Reaction =
    | Reject(rejection: Rejection, storage: Storage, redirectToLogin: bool)
    | Retry(request: Request, storage: Storage)

  /** Requests whose failures are never answered by a refresh. */
  predicate IsAuthenticationCall(url: Option<string>) {
    url.Some? && (Text.Contains(url.value, LoginPath) || Text.Contains(url.value, TokenRefreshPath))
  }

  /** Whether the interceptor tries a refresh for this error. */
  predicate AttemptsRefresh(error: ApiError) {
    !IsAuthenticationCall(error.config.url) && error.status == Some(401) && !error.config.retried
  }

  /** The response interceptor, run in the browser. `outcome` is what the refresh call would
      return; it is only consulted when a refresh token is stored. */
  function OnResponseError(error: ApiError, storage: Storage, outcome: RefreshOutcome): (r: Reaction)
    ensures !AttemptsRefresh(error) ==> r == Reject(OriginalError(error), storage, false)
    ensures AttemptsRefresh(error) && !IsTruthy(GetItem(storage, RefreshTokenKey)) ==>
              r == Reject(RefreshError(NoRefreshToken), ClearSession(storage), true)
    ensures AttemptsRefresh(error) && IsTruthy(GetItem(storage, RefreshTokenKey)) && outcome.RefreshFailed? ==>
              r == Reject(RefreshError(RefreshRejected(outcome.status)), ClearSession(storage), true)
    ensures r.Retry? <==>
              AttemptsRefresh(error) && IsTruthy(GetItem(storage, RefreshTokenKey)) && outcome.Refreshed?
    ensures r.Retry? ==>
              && r.request.retried
              && r.request.url == error.config.url
              && r.storage == storage[AccessTokenKey := StoredText(outcome.access)]
              && (error.config.headers ==> r.request.authorization == Some(Bearer(StoredText(outcome.access))))
  {
    if IsAuthenticationCall(error.config.url) then Reject(OriginalError(error), storage, false)
    else if error.status == Some(401) && !error.config.retried then
      var marked := error.config.(retried := true);
      var refreshToken := GetItem(storage, RefreshTokenKey);
      if !IsTruthy(refreshToken) then
        Reject(RefreshError(NoRefreshToken), ClearSession(storage), true)
      else
        match outcome
        case Refreshed(access) =>
          var token := StoredText(access);
          var request := if marked.headers then marked.(authorization := Some(Bearer(token))) else marked;
          Retry(request, storage[AccessTokenKey := token])
        case RefreshFailed(status) =>
          Reject(RefreshError(RefreshRejected(status)), ClearSession(storage), true)
    else
      Reject(OriginalError(error), storage, false)
  }

  /** A request is re-issued at most once: if the re-issued request fails again, whatever its
      status and whatever a refresh would return, the failure is passed on and the storage is
      left alone. */
  lemma RetryAtMostOnce(error: ApiError, storage: Storage, outcome: RefreshOutcome,
                        status: Option<int>, outcome2: RefreshOutcome)
    requires OnResponseError(error, storage, outcome).Retry?
    ensures var retry := OnResponseError(error, storage, outcome);
            var again := ApiError(retry.request, status);
            OnResponseError(again, retry.storage, outcome2) == Reject(OriginalError(again), retry.storage, false)
  {
  }

  /** The re-issued request passes through the request interceptor again, which reads the
      token just stored and so leaves the new credential in place. */
  lemma RetryCarriesNewToken(error: ApiError, storage: Storage, access: string)
    requires AttemptsRefresh(error) && IsTruthy(GetItem(storage, RefreshTokenKey))
    requires error.config.headers && !IsPublic(error.config.url) && access != ""
    ensures var retry := OnResponseError(error, storage, Refreshed(Some(access)));
            && retry.Retry?
            && AttachToken(retry.request, retry.storage, true) == retry.request
            && retry.request.authorization == Some(Bearer(access))
  {
  }

  /** A refresh keeps the stored refresh token and the stored user. */
  lemma RefreshKeepsOtherKeys(error: ApiError, storage: Storage, outcome: RefreshOutcome)
    requires OnResponseError(error, storage, outcome).Retry?
    ensures var s := OnResponseError(error, storage, outcome).storage;
            && (RefreshTokenKey in storage ==> RefreshTokenKey in s && s[RefreshTokenKey] == storage[RefreshTokenKey])
            && (UserKey in storage ==> UserKey in s && s[UserKey] == storage[UserKey])
  {
  }
}
