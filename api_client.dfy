/**
 * The response and session plumbing of the client's API service:
 * `handleResponse` (how a response becomes a value or an `ApiError`),
 * `getAuthHeaders`, `authApi.logout` and `authApi.isAuthenticated`, which
 * read or remove the `access_token` entry of the browser store.
 */
module ApiClient {
  import opened Wrappers
  import opened Text
  import opened BrowserStorage

  /** A parsed error body; `{}` is `ErrorData(None)`. */
  datatype ErrorData = ErrorData(detail: Option<string>)

  /**
   * What an API call rejects with: the `ApiError` raised by `handleResponse`,
   * or any other `Error` (a failed `fetch`, a body that is not JSON).
   */
  datatype RequestError =
    | ApiError(message: string, status: nat, data: ErrorData)
    | OtherError(message: string)
  {
    /** `err.data?.detail || fallback`, the message the hooks and contexts show. */
    function DetailOr(fallback: string): (r: string)
      ensures r == fallback || (ApiError? && data.detail == Some(r))
      ensures ApiError? && Truthy(data.detail) ==> r == data.detail.value
      ensures fallback != "" ==> r != ""
    {
      if ApiError? && Truthy(data.detail) then data.detail.value else fallback
    }
  }

  /** What the hooks' and contexts' actions resolve to: `{success: true, message?}` or `{success: false, error}`. */
  datatype ActionResult = Succeeded(message: Option<string>) | Failed(error: string)

  /** A JSON body as the model sees it: the payload, and the `detail` field when it has one. */
  datatype Body<T> = Body(payload: T, detail: Option<string>)

  /** A `fetch` response; `body` is what `response.json()` yields, or the parser's error message. */
  datatype Response<T> = Response(ok: bool, status: nat, body: Result<Body<T>, string>)

  const HttpErrorPrefix := "HTTP error! status: "

  /** The message of an error response without a usable `detail`. */
  function StatusMessage(status: nat): (r: string)
    ensures |HttpErrorPrefix| < |r| && r[..|HttpErrorPrefix|] == HttpErrorPrefix
    ensures DecimalValue(r[|HttpErrorPrefix|..]) == status
  {
    var r := HttpErrorPrefix + NatToString(status);
    assert r[|HttpErrorPrefix|..] == NatToString(status);
    DecimalValueOfNatToString(status);
    r
  }

  /** Different statuses give different messages: the status can be read back from the text. */
  lemma StatusMessageInjective(m: nat, n: nat)
    requires StatusMessage(m) == StatusMessage(n)
    ensures m == n
  {
    assert HttpErrorPrefix + NatToString(m) + [] == HttpErrorPrefix + NatToString(n) + [];
    RenderedNumberUnique(HttpErrorPrefix, m, [], n, []);
  }

  /**
   * `handleResponse`: an ok response yields its parsed body; any other
   * response raises an `ApiError` carrying the status, the body's `detail`
   * as message when it is a non-empty string, and the parsed body as `data`
   * (`{}` when the body is not JSON).
   */
  function HandleResponse<T>(resp: Response<T>): (r: Result<T, RequestError>)
    ensures resp.ok && resp.body.Ok? ==> r == Ok(resp.body.value.payload)
    ensures resp.ok && resp.body.Err? ==> r == Err(OtherError(resp.body.error))
    ensures !resp.ok ==> r.Err? && r.error.ApiError? && r.error.status == resp.status
    ensures !resp.ok ==> r.error.data.detail == (if resp.body.Ok? then resp.body.value.detail else None)
    ensures !resp.ok ==> r.error.message != ""
    ensures !resp.ok && resp.body.Ok? && Truthy(resp.body.value.detail) ==> r.error.message == resp.body.value.detail.value
    ensures !resp.ok && !(resp.body.Ok? && Truthy(resp.body.value.detail)) ==> r.error.message == StatusMessage(resp.status)
  {
    if !resp.ok then
      var data := match resp.body
        case Ok(b) => ErrorData(b.detail)
        case Err(_) => ErrorData(None);
      var message := if Truthy(data.detail) then data.detail.value else StatusMessage(resp.status);
      Err(ApiError(message, resp.status, data))
    else
      match resp.body
      case Ok(b) => Ok(b.payload)
      case Err(e) => Err(OtherError(e))
  }

  /** An error response without detail is shown with the status it came with. */
  lemma HandleResponseStatusReadBack<T>(resp: Response<T>)
    requires !resp.ok && !(resp.body.Ok? && Truthy(resp.body.value.detail))
    ensures HandleResponse(resp).error.message[..|HttpErrorPrefix|] == HttpErrorPrefix
    ensures DecimalValue(HandleResponse(resp).error.message[|HttpErrorPrefix|..]) == resp.status
  {
  }

  /** The local-storage key of the bearer token. */
  const TokenKey := "access_token"

  /** `authApi.isAuthenticated()`: a non-empty token is stored. */
  function IsAuthenticated(store: LocalStorage): (r: bool)
    reads store
    ensures r <==> TokenKey in store.items && store.items[TokenKey] != ""
  {
    Truthy(store.GetItem(TokenKey))
  }

  /**
   * `getAuthHeaders()`: always a JSON content type, plus a bearer
   * authorization exactly when a non-empty token is stored.
   */
  function AuthHeaders(store: LocalStorage): (h: map<string, string>)
    reads store
    ensures "Content-Type" in h && h["Content-Type"] == "application/json"
    ensures "Authorization" in h <==> IsAuthenticated(store)
    ensures "Authorization" in h ==> h["Authorization"] == "Bearer " + store.items[TokenKey]
    ensures h.Keys <= {"Content-Type", "Authorization"}
  {
    var base := map["Content-Type" := "application/json"];
    match store.GetItem(TokenKey)
    case Some(token) => if token != "" then base["Authorization" := "Bearer " + token] else base
    case None => base
  }

  /** `authApi.logout()`: the token entry is removed and nothing else in the store changes. */
  method Logout(store: LocalStorage)
    modifies store
    ensures store.items == old(store.items) - {TokenKey}
    ensures !IsAuthenticated(store)
    ensures AuthHeaders(store) == map["Content-Type" := "application/json"]
  {
    store.RemoveItem(TokenKey);
  }
}
