/**
 * Requests followed through more than one layer: the middleware chain of
 * `POST /claims` (`authRequired`, then `validateBody(createClaimSchema)`,
 * then the handler), the deals listing seen against the unused query
 * schema, and the catalogue page's lock badge set against the server's
 * verification gate.
 */
module Journeys {
  import opened Basics
  import opened JsNumber
  import opened Models
  import opened ClaimsRoute
  import opened DealsRoute
  import opened AuthRoute
  import opened AuthMiddleware
  import opened Schemas
  import opened ValidateMiddleware
  import opened DealsPage
  import AuthSession

  /** Where `POST /claims` stopped: at the token guard, at the body schema, or in the handler. */
  datatype ClaimReply =
    | Unauthenticated(message: string)
    | Invalid(outcome: Outcome<ClaimBody>)
    | Handled(admission: Admission)

  function ReplyStatus(r: ClaimReply): int {
    match r
    case Unauthenticated(_) => 401
    case Invalid(o) => if o.Reject? then o.status else 500
    case Handled(a) => HttpStatus(a.result)
  }

  /** The route as mounted: the handler sees the token's `sub` and the validated `dealId`. */
  function PostClaim(s: Store, header: Option<string>, body: ClaimBody, verify: string -> Option<Payload>,
                     idShaped: string -> bool, newId: Id, now: int): (r: ClaimReply)
    requires |newId| > 0
    ensures r.Unauthenticated? <==> AuthRequired(header, verify).Rejected?
    ensures r.Invalid? <==> AuthRequired(header, verify).Authorized? && !(body.dealId.Str? && |body.dealId.value| > 0)
    ensures r.Handled? ==>
      r.admission == Submit(s, Some(AuthRequired(header, verify).payload.sub), Some(body.dealId.value), idShaped, newId, now)
  {
    match AuthRequired(header, verify)
    case Rejected(m) => Unauthenticated(m)
    case Authorized(p) =>
      var v := Validate(Body, body, ParseBy(ClaimIssues(body)));
      if v.Next? then Handled(Submit(s, Some(p.sub), Some(v.request.dealId.value), idShaped, newId, now))
      else Invalid(v)
  }

  /**
   * The handler's own "dealId is required" answer cannot be reached through
   * the route: the schema has already refused an empty or missing dealId.
   */
  lemma MissingDealIdUnreachable(s: Store, header: Option<string>, body: ClaimBody, verify: string -> Option<Payload>,
                                 idShaped: string -> bool, newId: Id, now: int)
    requires |newId| > 0
    ensures var r := PostClaim(s, header, body, verify, idShaped, newId, now);
      r.Handled? ==> !r.admission.result.MissingDealId?
    ensures var r := PostClaim(s, header, body, verify, idShaped, newId, now);
      r.Invalid? ==> r.outcome.Reject? && ReplyStatus(r) == 400
  {
  }

  /**
   * The verification flag inside the token is never read: two tokens for the
   * same subject that differ only in that flag get the same answer.
   */
  lemma TokenFlagIgnored(s: Store, token: string, p: Payload, flag: bool, body: ClaimBody,
                         verify1: string -> Option<Payload>, verify2: string -> Option<Payload>,
                         idShaped: string -> bool, newId: Id, now: int)
    requires |newId| > 0
    requires verify1(token) == Some(p) && verify2(token) == Some(p.(isVerified := flag))
    ensures PostClaim(s, Some(BearerPrefix + token), body, verify1, idShaped, newId, now)
         == PostClaim(s, Some(BearerPrefix + token), body, verify2, idShaped, newId, now)
  {
    BearerRoundTrip(token);
  }

  /**
   * The catalogue's lock badge and the server's gate agree whenever the
   * page's user carries the stored flag: a resolvable deal is shown locked
   * exactly when claiming it is refused with 403.
   */
  lemma BadgeMatchesGate(s: Store, cd: ClientDeal, cu: ClientUser, userId: Id, key: string,
                         idShaped: string -> bool, newId: Id, now: int)
    requires |userId| > 0 && |key| > 0 && |newId| > 0
    requires ResolveForClaim(s, key, idShaped).Some?
    requires cd.accessLevel == AccessName(ResolveForClaim(s, key, idShaped).value.accessLevel)
    requires cu.isVerified == StoredVerified(s, userId)
    ensures IsLocked(cd, Some(cu)) <==> Submit(s, Some(userId), Some(key), idShaped, newId, now).result.VerificationRequired?
  {
  }

  /**
   * After a reload the page's user is the token payload, so a user verified
   * after signing in still sees a locked badge while the server would admit
   * the claim.
   */
  lemma StaleBadgeAfterVerification(s: Store, u: User, cd: ClientDeal, key: string,
                                    idShaped: string -> bool, newId: Id, now: int)
    requires Valid(s) && u in s.users && !u.isVerified && |key| > 0 && |newId| > 0
    requires ResolveForClaim(s, key, idShaped).Some?
    requires ResolveForClaim(s, key, idShaped).value.accessLevel == Locked
    requires cd.accessLevel == AccessName(ResolveForClaim(s, key, idShaped).value.accessLevel)
    requires !HasClaimPair(s, u.id, ResolveForClaim(s, key, idShaped).value.id)
    requires !HasClaimId(s, newId)
    ensures IsLocked(cd, Some(AuthSession.FromPayload(PayloadOf(u))))
    ensures Submit(SetVerified(s, u.id, true), Some(u.id), Some(key), idShaped, newId, now).result.Created?
  {
    VerifyThenClaim(s, u, key, idShaped, newId, now);
  }

  /**
   * The deals listing does not run `dealsQuerySchema`: a negative limit the
   * schema would refuse is served, with its absolute value as page size.
   */
  lemma NegativeLimitBypassesSchema(k: nat)
    requires k > 0
    ensures !QueryAccepts(QueryParams(Missing, Missing, Missing, Str("-" + Decimal(k)), Missing))
    ensures EffectiveLimit(Some("-" + Decimal(k))) == -(k as int)
    ensures PageSize(EffectiveLimit(Some("-" + Decimal(k)))) == k
  {
    assert !IsDigit(("-" + Decimal(k))[0]);
    NegativeLimitKept(k);
  }

  /** A limit the schema accepts (a digit string) would give a page of 1 to 100 deals. */
  lemma AcceptedLimitInRange(v: string)
    requires DigitString(v)
    ensures 1 <= EffectiveLimit(Some(v)) <= 100
  {
    ParseDigits(v);
  }
}
