/**
 * The `authRequired` middleware: a `Bearer ` header whose token verifies lets
 * the request through with the decoded payload as `req.user`; anything else is
 * a 401. `jwt.verify` (signature and expiry) is the abstract function
 * `verify`, `None` standing for the error it throws.
 */
module AuthMiddleware {
  import opened Basics
  import opened Text
  import opened AuthRoute

  const BearerPrefix: string := "Bearer "

  /** Either 401 with this message (and `next` is not called) or `next()` with this payload. */
  datatype Guard = Rejected(message: string) | Authorized(payload: Payload)

  function GuardStatus(g: Guard): int {
    if g.Authorized? then 200 else 401
  }

  /** Everything after the seven characters of "Bearer ". */
  function TokenOf(header: string): string
    requires StartsWith(header, BearerPrefix)
  {
    header[|BearerPrefix|..]
  }

  function AuthRequired(header: Option<string>, verify: string -> Option<Payload>): (g: Guard)
    ensures !Truthy(header) || !StartsWith(header.value, BearerPrefix) ==>
      g == Rejected("Missing or invalid Authorization header")
    ensures g.Authorized? <==>
      Truthy(header) && StartsWith(header.value, BearerPrefix) && verify(TokenOf(header.value)).Some?
    ensures g.Authorized? ==> g.payload == verify(TokenOf(header.value)).value
    ensures Truthy(header) && StartsWith(header.value, BearerPrefix) && verify(TokenOf(header.value)).None? ==>
      g == Rejected("Invalid or expired token")
  {
    if !Truthy(header) || !StartsWith(header.value, BearerPrefix) then
      Rejected("Missing or invalid Authorization header")
    else
      match verify(TokenOf(header.value))
      case None => Rejected("Invalid or expired token")
      case Some(p) => Authorized(p)
  }

  /** The header a client builds from a token carries exactly that token. */
  lemma {:induction false} BearerRoundTrip(token: string)
    ensures StartsWith(BearerPrefix + token, BearerPrefix)
    ensures TokenOf(BearerPrefix + token) == token
  {
    var h := BearerPrefix + token;
    assert h[..|BearerPrefix|] == BearerPrefix;
    assert h[|BearerPrefix|..] == token;
  }

  /** A token issued for a payload, presented as a Bearer header, authorises that payload while it verifies. */
  lemma IssuedTokenAuthorizes(p: Payload, issuedAt: int, sign: (Payload, int) -> string, verify: string -> Option<Payload>)
    requires verify(sign(p, issuedAt)) == Some(p)
    ensures AuthRequired(Some(BearerPrefix + sign(p, issuedAt)), verify) == Authorized(p)
  {
    BearerRoundTrip(sign(p, issuedAt));
  }

  /** Case matters in the scheme name: "bearer " is refused before the token is looked at. */
  lemma SchemeIsCaseSensitive(token: string, verify: string -> Option<Payload>)
    ensures AuthRequired(Some("bearer " + token), verify) == Rejected("Missing or invalid Authorization header")
  {
    assert ("bearer " + token)[0] == 'b';
  }
}
