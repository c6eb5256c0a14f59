/**
 * The web client's fetch wrapper: the headers it sends (a JSON content type,
 * the caller's headers, and a Bearer token when one is stored), the URL, the
 * body of POST and PUT, and how a response becomes `{ data }` or `{ error }`.
 * `fetch` itself is replaced by the `Fetched` value it settles to.
 */
module ApiClient {
  import opened Basics
  import opened Text
  import opened AuthRoute
  import opened AuthMiddleware

  type Headers = map<string, string>

  /**
   * The JSON content type, overridden by any header the caller passes, and
   * `Authorization: Bearer <token>` when the stored token is non-empty.
   */
  function BuildHeaders(caller: Headers, token: Option<string>): (h: Headers)
    ensures "Content-Type" in h
    ensures h["Content-Type"] == (if "Content-Type" in caller then caller["Content-Type"] else "application/json")
    ensures Truthy(token) ==> "Authorization" in h && h["Authorization"] == "Bearer " + token.value
    ensures !Truthy(token) ==> ("Authorization" in h <==> "Authorization" in caller)
    ensures forall k :: k in caller && k != "Authorization" ==> k in h && h[k] == caller[k]
    ensures forall k :: k in h ==> k in caller || k == "Content-Type" || k == "Authorization"
  {
    var base := map["Content-Type" := "application/json"] + caller;
    if Truthy(token) then base["Authorization" := "Bearer " + token.value] else base
  }

  /** Without a stored token the caller's headers go out as given, plus the content type. */
  lemma NoTokenKeepsCallerHeaders(caller: Headers)
    requires "Authorization" !in caller
    ensures "Authorization" !in BuildHeaders(caller, None)
    ensures "Authorization" !in BuildHeaders(caller, Some(""))
  {
  }

  function Url(baseUrl: string, endpoint: string): (u: string)
    ensures StartsWith(u, baseUrl) && u[|baseUrl|..] == endpoint
  {
    baseUrl + endpoint
  }

  datatype Verb = Get | Post | Put | Delete

  /** What `fetch` is called with. */
  datatype Request = Request(verb: Verb, url: string, headers: Headers, body: Option<string>)

  /**
   * `get`, `post`, `put` and `delete`: a body is serialised and sent only for
   * POST and PUT, and only when the value passed is truthy.
   */
  function Build<T>(verb: Verb, baseUrl: string, endpoint: string, token: Option<string>,
                    body: Option<T>, truthy: T -> bool, stringify: T -> string): (r: Request)
    ensures r.verb == verb && r.url == Url(baseUrl, endpoint) && r.headers == BuildHeaders(map[], token)
    ensures r.body.Some? <==> (verb == Post || verb == Put) && body.Some? && truthy(body.value)
    ensures r.body.Some? ==> r.body.value == stringify(body.value)
  {
    var sent := if (verb == Post || verb == Put) && body.Some? && truthy(body.value) then Some(stringify(body.value)) else None;
    Request(verb, Url(baseUrl, endpoint), BuildHeaders(map[], token), sent)
  }

  /** The `error` property of a parsed response body, as the client inspects it. */
  datatype ErrorField =
    | NoError
    | ErrorObject(message: Option<string>)
    | ErrorString(text: string)
    | ErrorOther(truthy: bool)

  predicate TruthyError(e: ErrorField) {
    match e
    case NoError => false
    case ErrorObject(_) => true
    case ErrorString(t) => |t| > 0
    case ErrorOther(t) => t
  }

  /**
   * How the request settled: the parsed body of a response with its `ok` flag
   * and the body's `error` and `message` properties, or a thrown value (a
   * network failure or an unparsable body), with its message when it is an
   * `Error`.
   */
  datatype Fetched<T> =
    | Response(ok: bool, data: T, error: ErrorField, message: Option<string>)
    | Thrown(errorMessage: Option<string>)

  /** `ApiResponse`: `{ data }` or `{ error }`. */
  datatype ApiResponse<T> = ApiResponse(data: Option<T>, error: Option<string>)

  /** The message of a non-ok response. */
  function ErrorMessage(error: ErrorField, message: Option<string>): (m: string)
    ensures error.ErrorObject? && Truthy(error.message) ==> m == error.message.value
    ensures error.ErrorString? && |error.text| > 0 ==> m == error.text
    ensures !TruthyError(error) && Truthy(message) ==> m == message.value
    ensures error.ErrorObject? && !Truthy(error.message) ==> m == "An error occurred"
    ensures error.ErrorOther? && error.truthy ==> m == "An error occurred"
    ensures !TruthyError(error) && !Truthy(message) ==> m == "An error occurred"
  {
    if TruthyError(error) then
      if error.ErrorObject? && Truthy(error.message) then error.message.value
      else if error.ErrorString? then error.text
      else "An error occurred"
    else if Truthy(message) then message.value
    else "An error occurred"
  }

  function Interpret<T>(f: Fetched<T>): (r: ApiResponse<T>)
    ensures r.data.Some? <==> f.Response? && f.ok
    ensures r.data.Some? ==> r.data.value == f.data && r.error.None?
    ensures r.error.Some? <==> !(f.Response? && f.ok)
    ensures f.Response? && !f.ok ==> r.error == Some(ErrorMessage(f.error, f.message)) && |r.error.value| > 0
    ensures f.Thrown? ==> r.error == Some(if f.errorMessage.Some? then f.errorMessage.value else "Network error")
  {
    match f
    case Response(ok, data, error, message) =>
      if ok then ApiResponse(Some(data), None) else ApiResponse(None, Some(ErrorMessage(error, message)))
    case Thrown(m) => ApiResponse(None, Some(if m.Some? then m.value else "Network error"))
  }

  /** A failed response always yields a non-empty message, whatever shape its body has. */
  lemma ErrorMessageNonEmpty(error: ErrorField, message: Option<string>)
    ensures |ErrorMessage(error, message)| > 0
  {
  }

  /**
   * The server's error bodies (`{ error: { code, message } }` with a
   * non-empty message) reach the caller as exactly that message.
   */
  lemma ServerErrorMessageSurfaces<T>(data: T, message: string, bodyMessage: Option<string>)
    requires |message| > 0
    ensures Interpret(Response(false, data, ErrorObject(Some(message)), bodyMessage)) == ApiResponse(None, Some(message))
  {
  }

  /**
   * The header the client builds from its stored token passes the server's
   * `authRequired` exactly when the token verifies, with the token's payload.
   */
  lemma ClientHeaderMeetsGuard(caller: Headers, token: string, verify: string -> Option<Payload>)
    requires |token| > 0
    ensures var h := BuildHeaders(caller, Some(token));
      "Authorization" in h
      && AuthRequired(Some(h["Authorization"]), verify)
         == (if verify(token).Some? then Authorized(verify(token).value) else Rejected("Invalid or expired token"))
  {
    BearerRoundTrip(token);
  }
}
