/**
 * The zod request schemas as issue producers: each returns the issues zod
 * reports for an input, in schema key order, with zod's messages (the custom
 * ones the schemas give, "Required" for a missing key, "Invalid" for a failed
 * regex). zod's email check is the abstract predicate `isEmail`. A field is
 * missing, a string, or a value of some other JSON type.
 */
module Schemas {
  import opened Basics
  import opened Text
  import opened JsNumber

  datatype Field = Missing | Str(value: string) | NotString(typeName: string)

  /** One zod issue: the path to the offending value and the message. */
  datatype Issue = Issue(path: seq<string>, message: string)

  /** The message zod gives a non-string value where a string is expected. */
  function TypeMessage(typeName: string): string {
    "Expected string, received " + typeName
  }

  /**
   * The issues of one key: a missing key or a non-string is one issue; a
   * string gets one issue per failed check, in check order.
   */
  function FieldIssues(key: string, f: Field, checks: string -> seq<string>): (r: seq<Issue>)
    ensures forall i :: 0 <= i < |r| ==> r[i].path == [key]
    ensures |r| == 0 <==> f.Str? && |checks(f.value)| == 0
    ensures f.Missing? ==> r == [Issue([key], "Required")]
    ensures f.Str? ==> |r| == |checks(f.value)| && forall i :: 0 <= i < |r| ==> r[i].message == checks(f.value)[i]
  {
    match f
    case Missing => [Issue([key], "Required")]
    case NotString(t) => [Issue([key], TypeMessage(t))]
    case Str(v) =>
      var ms := checks(v);
      seq(|ms|, i requires 0 <= i < |ms| => Issue([key], ms[i]))
  }

  /** An `.optional()` key: absence is no issue. */
  function OptionalIssues(key: string, f: Field, checks: string -> seq<string>): (r: seq<Issue>)
    ensures f.Missing? ==> r == []
    ensures !f.Missing? ==> r == FieldIssues(key, f, checks)
  {
    if f.Missing? then [] else FieldIssues(key, f, checks)
  }

  function When(failed: bool, message: string): seq<string> {
    if failed then [message] else []
  }

  // ------------------------------------------------------------ registerSchema

  datatype RegisterBody = RegisterBody(email: Field, password: Field, name: Field)

  /**
   * What `registerSchema` accepts: a valid email, a password of six or more
   * UTF-16 units, a name of 1 to 100. zod measures with `.length`; for the
   * lower bound of 1 that agrees with counting characters.
   */
  predicate RegisterAccepts(b: RegisterBody, isEmail: string -> bool) {
    && b.email.Str? && isEmail(b.email.value)
    && b.password.Str? && Utf16Length(b.password.value) >= 6
    && b.name.Str? && 1 <= |b.name.value| && Utf16Length(b.name.value) <= 100
  }

  function EmailChecks(isEmail: string -> bool): string -> seq<string> {
    (v: string) => When(!isEmail(v), "Invalid email address")
  }

  /** `.min(6)` on the password, measured in UTF-16 units. */
  function PasswordChecks(v: string): seq<string> {
    When(Utf16Length(v) < 6, "Password must be at least 6 characters")
  }

  /** `.min(1).max(100)` on the name; for the lower bound characters and units agree. */
  function NameChecks(v: string): seq<string> {
    When(|v| < 1, "Name is required") + When(Utf16Length(v) > 100, "Name too long")
  }

  function RegisterIssues(b: RegisterBody, isEmail: string -> bool): (r: seq<Issue>)
    ensures |r| == 0 <==> RegisterAccepts(b, isEmail)
    ensures forall i :: 0 <= i < |r| ==> r[i].path in {["email"], ["password"], ["name"]}
  {
    FieldIssues("email", b.email, EmailChecks(isEmail))
    + FieldIssues("password", b.password, PasswordChecks)
    + FieldIssues("name", b.name, NameChecks)
  }

  /**
   * Lengths are UTF-16 units: three emoji make a six-unit password, which is
   * accepted, and sixty emoji make a 120-unit name, which is too long.
   */
  lemma RegisterCountsUtf16Units(isEmail: string -> bool, email: string, password: string, name: string)
    requires isEmail(email) && Astral(password) && |password| == 3 && Astral(name) && |name| == 60
    ensures RegisterIssues(RegisterBody(Str(email), Str(password), Str("Ada")), isEmail) == []
    ensures RegisterIssues(RegisterBody(Str(email), Str("secret"), Str(name)), isEmail)
         == [Issue(["name"], "Name too long")]
  {
    Utf16LengthOfAstral(password);
    Utf16LengthOfAstral(name);
    Utf16LengthOfBmp("Ada");
    Utf16LengthOfBmp("secret");
  }

  // --------------------------------------------------------------- loginSchema

  datatype LoginBody = LoginBody(email: Field, password: Field)

  predicate LoginAccepts(b: LoginBody, isEmail: string -> bool) {
    b.email.Str? && isEmail(b.email.value) && b.password.Str? && |b.password.value| >= 1
  }

  function LoginIssues(b: LoginBody, isEmail: string -> bool): (r: seq<Issue>)
    ensures |r| == 0 <==> LoginAccepts(b, isEmail)
    ensures forall i :: 0 <= i < |r| ==> r[i].path in {["email"], ["password"]}
  {
    FieldIssues("email", b.email, EmailChecks(isEmail))
    + FieldIssues("password", b.password, (v: string) => When(|v| < 1, "Password is required"))
  }

  // ---------------------------------------------------------- createClaimSchema

  datatype ClaimBody = ClaimBody(dealId: Field)

  function ClaimIssues(b: ClaimBody): (r: seq<Issue>)
    ensures |r| == 0 <==> b.dealId.Str? && |b.dealId.value| > 0
    ensures b.dealId == Str("") ==> r == [Issue(["dealId"], "dealId is required")]
  {
    FieldIssues("dealId", b.dealId, (v: string) => When(|v| < 1, "dealId is required"))
  }

  // ----------------------------------------------------------- dealsQuerySchema

  datatype QueryParams = QueryParams(category: Field, accessLevel: Field, search: Field, limit: Field, skip: Field)

  /** The regex `^\d+$`: one or more ASCII digits. */
  predicate DigitString(v: string) {
    |v| > 0 && AllDigits(v)
  }

  /** What `dealsQuerySchema` accepts: every present key a string, accessLevel in the enum, limit and skip digit strings. */
  predicate QueryAccepts(q: QueryParams) {
    && !q.category.NotString? && !q.search.NotString?
    && (q.accessLevel.Missing? || (q.accessLevel.Str? && q.accessLevel.value in {"public", "locked"}))
    && (q.limit.Missing? || (q.limit.Str? && DigitString(q.limit.value)))
    && (q.skip.Missing? || (q.skip.Str? && DigitString(q.skip.value)))
  }

  function EnumMessage(v: string): string {
    "Invalid enum value. Expected 'public' | 'locked', received '" + v + "'"
  }

  /** `z.string()` with no further check. */
  function NoChecks(v: string): seq<string> {
    []
  }

  function AccessChecks(v: string): seq<string> {
    When(v != "public" && v != "locked", EnumMessage(v))
  }

  function DigitChecks(v: string): seq<string> {
    When(!DigitString(v), "Invalid")
  }

  function QueryIssues(q: QueryParams): (r: seq<Issue>)
    ensures |r| == 0 <==> QueryAccepts(q)
  {
    OptionalIssues("category", q.category, NoChecks)
    + OptionalIssues("accessLevel", q.accessLevel, AccessChecks)
    + OptionalIssues("search", q.search, NoChecks)
    + OptionalIssues("limit", q.limit, DigitChecks)
    + OptionalIssues("skip", q.skip, DigitChecks)
  }
}
