/**
 * `validateBody` and `validateQuery`: run a schema over the request; on
 * success call `next()` with the request untouched (the parsed value is
 * discarded), on a zod error answer 400 with one `{ field, message }` per
 * issue, and pass any other error to `next(error)`.
 */
module ValidateMiddleware {
  import opened Text
  import opened Schemas

  /** What `schema.parse` did: returned, threw a `ZodError`, or threw something else. */
  datatype ParseOutcome = Parsed | ZodFailure(issues: seq<Issue>) | OtherFailure(error: string)

  /** How a schema's issue list turns into a parse outcome. */
  function ParseBy(issues: seq<Issue>): ParseOutcome {
    if |issues| == 0 then Parsed else ZodFailure(issues)
  }

  datatype Source = Body | Query

  datatype Detail = Detail(field: string, message: string)

  /** `next()` with the request as it came, a 400 response, or `next(error)`. */
  datatype Outcome<T> =
    | Next(request: T)
    | Reject(status: int, code: string, message: string, details: seq<Detail>)
    | Forward(error: string)

  function SourceMessage(src: Source): string {
    match src
    case Body => "Invalid request data"
    case Query => "Invalid query parameters"
  }

  /** `issue.path.join(".")` with the issue's message. */
  function DetailOf(issue: Issue): Detail {
    Detail(Join(issue.path, '.'), issue.message)
  }

  function Validate<T>(src: Source, request: T, outcome: ParseOutcome): (r: Outcome<T>)
    ensures r.Next? <==> outcome.Parsed?
    ensures r.Next? ==> r.request == request
    ensures r.Forward? <==> outcome.OtherFailure?
    ensures r.Forward? ==> r.error == outcome.error
    ensures r.Reject? <==> outcome.ZodFailure?
    ensures r.Reject? ==>
      && r.status == 400 && r.code == "VALIDATION_ERROR"
      && r.message == (if src == Body then "Invalid request data" else "Invalid query parameters")
      && |r.details| == |outcome.issues|
      && forall i :: 0 <= i < |r.details| ==>
           r.details[i].message == outcome.issues[i].message && r.details[i].field == Join(outcome.issues[i].path, '.')
  {
    match outcome
    case Parsed => Next(request)
    case ZodFailure(issues) =>
      Reject(400, "VALIDATION_ERROR", SourceMessage(src), seq(|issues|, i requires 0 <= i < |issues| => DetailOf(issues[i])))
    case OtherFailure(e) => Forward(e)
  }

  /**
   * The `field` of each detail determines the issue's path whenever the path
   * is non-empty and no key contains a dot.
   */
  lemma FieldRecoversPath<T>(src: Source, request: T, issues: seq<Issue>, i: nat)
    requires i < |issues| && |issues[i].path| > 0
    requires forall k :: 0 <= k < |issues[i].path| ==> Free(issues[i].path[k], '.')
    ensures var r := Validate(src, request, ZodFailure(issues));
      r.Reject? && Split(r.details[i].field, '.') == issues[i].path
  {
    SplitJoin(issues[i].path, '.');
  }

  /** A register body passes the middleware exactly when the schema's field conditions hold. */
  lemma RegisterGate<T>(request: T, b: RegisterBody, isEmail: string -> bool)
    ensures Validate(Body, request, ParseBy(RegisterIssues(b, isEmail))).Next? <==> RegisterAccepts(b, isEmail)
  {
  }

  /** An empty `dealId` is stopped by the middleware with a single detail naming the field. */
  lemma EmptyDealIdRejected<T>(request: T)
    ensures Validate(Body, request, ParseBy(ClaimIssues(ClaimBody(Str(""))))) ==
      Reject(400, "VALIDATION_ERROR", "Invalid request data", [Detail("dealId", "dealId is required")])
  {
    var issues := ClaimIssues(ClaimBody(Str("")));
    assert Join(issues[0].path, '.') == "dealId";
  }
}
