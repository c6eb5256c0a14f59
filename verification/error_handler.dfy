/**
 * The central `errorHandler` and the `notFoundHandler`. An error is the bag
 * of properties the handler reads; JavaScript's `||` defaults become
 * truthiness tests. `development` is `NODE_ENV === "development"`.
 */
module ErrorHandler {
  import opened Basics

  /** `err.code`: absent, numeric (a Mongo server code) or a string code. */
  datatype ErrCode = NoCode | NumCode(n: int) | StrCode(s: string)

  datatype AppError = AppError(
    name: string,
    code: ErrCode,
    statusCode: Option<int>,
    status: Option<int>,
    message: Option<string>,
    details: Option<string>,
    stack: Option<string>)

  /** The `error` object of the response body. */
  datatype Reply = Reply(status: int, code: ErrCode, message: string, details: Option<string>, stack: Option<string>)

  predicate TruthyInt(n: Option<int>) {
    n.Some? && n.value != 0
  }

  predicate TruthyCode(c: ErrCode) {
    (c.NumCode? && c.n != 0) || (c.StrCode? && |c.s| > 0)
  }

  predicate IsDuplicateKey(e: AppError) {
    e.name == "MongoServerError" && e.code == NumCode(11000)
  }

  /** `err.statusCode || err.status || 500`. */
  function FallbackStatus(e: AppError): (n: int)
    ensures TruthyInt(e.statusCode) ==> n == e.statusCode.value
    ensures !TruthyInt(e.statusCode) && TruthyInt(e.status) ==> n == e.status.value
    ensures !TruthyInt(e.statusCode) && !TruthyInt(e.status) ==> n == 500
  {
    if TruthyInt(e.statusCode) then e.statusCode.value
    else if TruthyInt(e.status) then e.status.value
    else 500
  }

  function ErrorHandler(e: AppError, development: bool): (r: Reply)
    ensures IsDuplicateKey(e) ==>
      r.status == 409 && r.code == StrCode("DUPLICATE_KEY") && r.message == "A record with this data already exists"
    ensures !IsDuplicateKey(e) && e.name == "ValidationError" ==>
      r.status == 400 && r.code == StrCode("VALIDATION_ERROR")
    ensures e.name == "CastError" ==>
      r.status == 400 && r.code == StrCode("INVALID_ID") && r.message == "Invalid ID format"
    ensures !IsDuplicateKey(e) && e.name != "ValidationError" && e.name != "CastError" ==>
      && r.status == FallbackStatus(e)
      && r.code == (if TruthyCode(e.code) then e.code else StrCode("INTERNAL_ERROR"))
    ensures !IsDuplicateKey(e) && e.name != "CastError" ==>
      r.message == (if Truthy(e.message) then e.message.value else "An unexpected error occurred")
    ensures r.details.Some? <==> development && Truthy(e.details)
    ensures r.stack.Some? <==> development && Truthy(e.stack)
    ensures r.details.Some? ==> r.details == e.details
    ensures r.stack.Some? ==> r.stack == e.stack
  {
    var code := if TruthyCode(e.code) then e.code else StrCode("INTERNAL_ERROR");
    var message := if Truthy(e.message) then e.message.value else "An unexpected error occurred";
    var details := if development && Truthy(e.details) then e.details else None;
    var stack := if development && Truthy(e.stack) then e.stack else None;
    if IsDuplicateKey(e) then Reply(409, StrCode("DUPLICATE_KEY"), "A record with this data already exists", details, stack)
    else if e.name == "ValidationError" then Reply(400, StrCode("VALIDATION_ERROR"), message, details, stack)
    else if e.name == "CastError" then Reply(400, StrCode("INVALID_ID"), "Invalid ID format", details, stack)
    else Reply(FallbackStatus(e), code, message, details, stack)
  }

  /** The duplicate-key answer does not depend on the status the error carries. */
  lemma DuplicateKeyIgnoresStatus(e: AppError, statusCode: Option<int>, status: Option<int>, development: bool)
    requires IsDuplicateKey(e)
    ensures ErrorHandler(e.(statusCode := statusCode, status := status), development).status == 409
    ensures ErrorHandler(e.(statusCode := statusCode, status := status), development)
         == ErrorHandler(e, development)
  {
  }

  /** Outside development nothing of the error's internals reaches the client. */
  lemma ProductionHidesInternals(e: AppError)
    ensures ErrorHandler(e, false).details.None? && ErrorHandler(e, false).stack.None?
  {
  }

  /** Every answer is an error status unless the error itself carried a success code. */
  lemma StatusIsError(e: AppError, development: bool)
    requires e.statusCode.None? || e.statusCode.value == 0 || e.statusCode.value >= 400
    requires e.status.None? || e.status.value == 0 || e.status.value >= 400
    ensures ErrorHandler(e, development).status >= 400
  {
  }

  datatype NotFoundReply = NotFoundReply(status: int, code: string, message: string)

  /** `notFoundHandler`: 404 with a message naming the method and path. */
  function NotFound(verb: string, path: string): (r: NotFoundReply)
    ensures r.status == 404 && r.code == "NOT_FOUND"
    ensures |r.message| == 6 + |verb| + 1 + |path| + 10
    ensures r.message[..6] == "Route " && r.message[6..6 + |verb|] == verb
    ensures r.message[6 + |verb| + 1..6 + |verb| + 1 + |path|] == path
    ensures r.message[6 + |verb| + 1 + |path|..] == " not found"
  {
    NotFoundReply(404, "NOT_FOUND", "Route " + verb + " " + path + " not found")
  }

  /** Where the method ends in the 404 message: the space after it, and its characters before. */
  lemma NotFoundLayout(verb: string, path: string, k: nat)
    requires k <= |verb|
    ensures var m := NotFound(verb, path).message;
      m[6 + |verb|] == ' ' && (k < |verb| ==> m[6 + k] == verb[k])
  {
  }

  /**
   * The message names the route: HTTP methods hold no space, so two requests
   * get the same 404 body only when they share method and path.
   */
  lemma NotFoundNamesRoute(verb1: string, path1: string, verb2: string, path2: string)
    requires ' ' !in verb1 && ' ' !in verb2
    requires NotFound(verb1, path1) == NotFound(verb2, path2)
    ensures verb1 == verb2 && path1 == path2
  {
    var m := NotFound(verb1, path1).message;
    if |verb1| < |verb2| {
      NotFoundLayout(verb2, path2, |verb1|);
      assert false;
    } else if |verb2| < |verb1| {
      NotFoundLayout(verb1, path1, |verb2|);
      assert false;
    }
    assert verb1 == m[6..6 + |verb1|] == verb2;
    assert path1 == m[6 + |verb1| + 1..6 + |verb1| + 1 + |path1|];
    assert path2 == m[6 + |verb1| + 1..6 + |verb1| + 1 + |path2|];
  }
}
