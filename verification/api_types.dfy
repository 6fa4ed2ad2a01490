/**
 * The shapes the HTTP layer exchanges (src/services/api/types.ts), plus the transport's side of a
 * call: the request it is given and the reply it produces.
 */
module ApiTypes {
  import opened Wrappers
  import opened JsValues

  /** `ApiError`: `message` is whatever the server sent (normally a string), `errors` passes through. */
  datatype ApiError = ApiError(message: JsValue, status: int, errors: JsValue)

  /** The per-call options the client reads; an absent option is `false` or `None`. */
  datatype RequestConfig = RequestConfig(
    skipAuth: bool,
    skipCache: bool,
    skipDeduplication: bool,
    ttl: Option<int>)

  const NoConfig: RequestConfig := RequestConfig(false, false, false, None)

  datatype Verb = GET | POST | PUT | PATCH | DELETE

  function VerbName(v: Verb): string {
    match v
    case GET => "GET"
    case POST => "POST"
    case PUT => "PUT"
    case PATCH => "PATCH"
    case DELETE => "DELETE"
  }

  /** The headers the request interceptor controls. */
  datatype Headers = Headers(authorization: Option<string>, csrfToken: Option<string>, requestedWith: Option<string>)

  const NoHeaders: Headers := Headers(None, None, None)

  datatype Request = Request(verb: Verb, url: string, body: JsValue, params: JsValue, headers: Headers)

  /** The body and status of an HTTP error response. */
  datatype ErrorResponse = ErrorResponse(status: int, data: JsValue)

  /** What a call can fail with: an axios error (with the server's response, if one came back), an `Error`, or another thrown value. */
  datatype Failure =
    | AxiosFailure(message: string, response: Option<ErrorResponse>)
    | PlainError(message: string)
    | NonErrorValue

  /** What the transport does with one request: resolve with the response body, or reject. */
  datatype Reply = Responded(body: JsValue) | Threw(failure: Failure)

  /** What the refresh endpoint does with a refresh token. */
  datatype RefreshReply = Refreshed(accessToken: string, refreshToken: string) | RefreshFailed(failure: Failure)

  /** Why a verb call rejects: with a normalised `ApiError`, or with the raw error (rate limit, failed refresh). */
  datatype Rejection = Normalized(error: ApiError) | Raw(failure: Failure)

  /** How the promise a verb method returns settles. */
  datatype Outcome = Resolved(data: JsValue) | Rejected(reason: Rejection)
}
