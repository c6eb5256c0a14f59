/**
 * `POST /claims` (claim admission) and `GET /claims/me` (the caller's claims
 * with a status tally), as pure functions over the store. The subject id is
 * what the token middleware put in `req.user.sub`; the body's `dealId` is an
 * id or a slug. The clock (`now`) and the new document's `_id` (`newId`) are
 * parameters, and `ObjectId.isValid` is the abstract predicate `idShaped`.
 */
module ClaimsRoute {
  import opened Basics
  import opened Seqs
  import opened Models

  /**
   * A deal as `populate` embeds it in a claim. POST asks for title, slug,
   * description, partnerName, category, accessLevel, ctaText and ctaUrl; GET
   * /me also asks for partnerUrl, eligibility and isActive (`None` when not
   * selected). `_id` is always included.
   */
  datatype DealView = DealView(
    id: Id,
    title: string,
    slug: string,
    description: Option<string>,
    partnerName: Option<string>,
    partnerUrl: Option<string>,
    category: Option<string>,
    accessLevel: AccessLevel,
    eligibility: Option<string>,
    ctaText: Option<string>,
    ctaUrl: Option<string>,
    isActive: Option<bool>)

  /** The projection `POST /claims` populates. */
  function CreatedView(d: Deal): DealView {
    DealView(d.id, d.title, d.slug, d.description, d.partnerName, None, d.category,
             d.accessLevel, None, d.ctaText, d.ctaUrl, None)
  }

  /** The projection `GET /claims/me` populates. */
  function ListingView(d: Deal): DealView {
    DealView(d.id, d.title, d.slug, d.description, d.partnerName, d.partnerUrl, d.category,
             d.accessLevel, d.eligibility, d.ctaText, d.ctaUrl, Some(d.isActive))
  }

  /** A claim with its `dealId` replaced by the populated deal (`None` if the deal is gone). */
  datatype ClaimView = ClaimView(claim: Claim, deal: Option<DealView>)

  function Populate(s: Store, dealId: Id, project: Deal -> DealView): Option<DealView> {
    match DealById(s, dealId)
    case Some(d) => Some(project(d))
    case None => None
  }

  /** What a 409 from the pre-check reports about the existing claim. */
  datatype ClaimSummary = ClaimSummary(claimId: Id, claimedAt: int, status: ClaimStatus)

  /** Every answer `POST /claims` can give. */
  datatype SubmitResult =
    | Unauthorized
    | MissingDealId
    | DealNotFound
    | VerificationRequired(dealSlug: string, dealTitle: string, isVerified: bool)
    | DuplicateClaim(existing: Option<ClaimSummary>)
    | Created(claim: ClaimView)
    | InternalError(details: string)

  function HttpStatus(r: SubmitResult): int {
    match r
    case Unauthorized => 401
    case MissingDealId => 400
    case DealNotFound => 404
    case VerificationRequired(_, _, _) => 403
    case DuplicateClaim(_) => 409
    case Created(_) => 201
    case InternalError(_) => 500
  }

  /** The `error.code` of the response body; a 201 has none. */
  function ErrorCode(r: SubmitResult): Option<string> {
    match r
    case Unauthorized => Some("UNAUTHORIZED")
    case MissingDealId => Some("MISSING_DEAL_ID")
    case DealNotFound => Some("DEAL_NOT_FOUND")
    case VerificationRequired(_, _, _) => Some("VERIFICATION_REQUIRED")
    case DuplicateClaim(_) => Some("DUPLICATE_CLAIM")
    case Created(_) => None
    case InternalError(_) => Some("INTERNAL_ERROR")
  }

  datatype Admission = Admission(store: Store, result: SubmitResult)

  /** Some active deal has `key` as its `_id` (tried only when `key` is id-shaped) or as its slug. */
  predicate Resolvable(s: Store, key: string, idShaped: string -> bool) {
    exists i :: 0 <= i < |s.deals| && s.deals[i].isActive
      && ((idShaped(key) && s.deals[i].id == key) || s.deals[i].slug == key)
  }

  /**
   * Deal resolution for a claim: by `_id` first, and only when the key is
   * id-shaped; then by slug. Only active deals resolve.
   */
  function ResolveForClaim(s: Store, key: string, idShaped: string -> bool): (r: Option<Deal>)
    ensures r.Some? ==> r.value in s.deals && r.value.isActive
    ensures r.Some? ==> (idShaped(key) && r.value.id == key) || r.value.slug == key
    ensures r.None? <==> !Resolvable(s, key, idShaped)
    ensures idShaped(key) && ActiveDealById(s, key).Some? ==> r == ActiveDealById(s, key)
  {
    var byId := if idShaped(key) then ActiveDealById(s, key) else None;
    if byId.Some? then byId else ActiveDealBySlug(s, key)
  }

  /** `user?.isVerified` as read from the user collection by `findById`, missing user counting as unverified. */
  predicate StoredVerified(s: Store, userId: Id) {
    var u := UserById(s, userId);
    u.Some? && u.value.isVerified
  }

  /**
   * The request got past the deal lookup and the verification gate: the
   * subject and dealId are present, an active deal resolves, and a locked
   * deal's claimant is verified in the user collection.
   */
  predicate PassesGate(s: Store, sub: Option<Id>, dealId: Option<string>, idShaped: string -> bool) {
    && Present(sub) && Present(dealId) && ResolveForClaim(s, dealId.value, idShaped).Some?
    && (ResolveForClaim(s, dealId.value, idShaped).value.accessLevel == Locked ==> StoredVerified(s, sub.value))
  }

  /** The deal a request that passed the gate is for. */
  function GateDeal(s: Store, sub: Option<Id>, dealId: Option<string>, idShaped: string -> bool): Deal
    requires PassesGate(s, sub, dealId, idShaped)
  {
    ResolveForClaim(s, dealId.value, idShaped).value
  }

  /**
   * The admission chain of `POST /claims`, short-circuiting on the first
   * failure: no subject, no dealId, no active deal, locked deal for an
   * unverified (or missing) user, existing claim; otherwise insert a pending
   * claim. A duplicate-key error from the insert is also a 409.
   */
  function Submit(s: Store, sub: Option<Id>, dealId: Option<string>, idShaped: string -> bool, newId: Id, now: int): (a: Admission)
    requires |newId| > 0
    ensures a.result.Unauthorized? <==> !Present(sub)
    ensures a.result.MissingDealId? <==> Present(sub) && !Present(dealId)
    ensures a.result.DealNotFound? <==> Present(sub) && Present(dealId) && !Resolvable(s, dealId.value, idShaped)
    ensures a.result.VerificationRequired? <==>
      && Present(sub) && Present(dealId) && ResolveForClaim(s, dealId.value, idShaped).Some?
      && ResolveForClaim(s, dealId.value, idShaped).value.accessLevel == Locked
      && !StoredVerified(s, sub.value)
    ensures a.result.VerificationRequired? ==>
      var d := ResolveForClaim(s, dealId.value, idShaped).value;
      a.result == VerificationRequired(d.slug, d.title, false)
    ensures a.result.DuplicateClaim? && a.result.existing.Some? <==>
      PassesGate(s, sub, dealId, idShaped) && HasClaimPair(s, sub.value, GateDeal(s, sub, dealId, idShaped).id)
    ensures a.result.DuplicateClaim? && a.result.existing.Some? ==>
      var d := ResolveForClaim(s, dealId.value, idShaped).value;
      exists i :: 0 <= i < |s.claims| && s.claims[i].userId == sub.value && s.claims[i].dealId == d.id
        && a.result.existing.value == ClaimSummary(s.claims[i].id, s.claims[i].claimedAt, s.claims[i].status)
    ensures Valid(s) && PassesGate(s, sub, dealId, idShaped) ==>
      var d := GateDeal(s, sub, dealId, idShaped);
      forall i :: 0 <= i < |s.claims| && s.claims[i].userId == sub.value && s.claims[i].dealId == d.id ==>
        a.result == DuplicateClaim(Some(ClaimSummary(s.claims[i].id, s.claims[i].claimedAt, s.claims[i].status)))
    ensures a.result == DuplicateClaim(None) <==>
      && PassesGate(s, sub, dealId, idShaped)
      && !HasClaimPair(s, sub.value, GateDeal(s, sub, dealId, idShaped).id)
      && |GateDeal(s, sub, dealId, idShaped).id| > 0
      && HasClaimId(s, newId)
    ensures a.result.InternalError? <==>
      && PassesGate(s, sub, dealId, idShaped)
      && !HasClaimPair(s, sub.value, GateDeal(s, sub, dealId, idShaped).id)
      && |GateDeal(s, sub, dealId, idShaped).id| == 0
    ensures Valid(s) ==> !a.result.InternalError?
    ensures !a.result.Created? ==> a.store == s
    ensures a.result.Created? ==>
      && Present(sub) && Present(dealId) && ResolveForClaim(s, dealId.value, idShaped).Some?
      && var d := ResolveForClaim(s, dealId.value, idShaped).value;
      && var c := a.result.claim.claim;
      && (d.accessLevel == Locked ==> StoredVerified(s, sub.value))
      && !HasClaimPair(s, sub.value, d.id)
      && a.store == s.(claims := s.claims + [c])
      && c == Claim(newId, sub.value, d.id, Pending, now, now, now)
      && a.result.claim.deal == Populate(s, d.id, CreatedView)
      && (Valid(s) ==> a.result.claim.deal == Some(CreatedView(d)))
    ensures Valid(s) ==> Valid(a.store)
  {
    if !Present(sub) then Admission(s, Unauthorized)
    else if !Present(dealId) then Admission(s, MissingDealId)
    else
      var userId := sub.value;
      var key := dealId.value;
      match ResolveForClaim(s, key, idShaped)
      case None => Admission(s, DealNotFound)
      case Some(deal) =>
        if deal.accessLevel == Locked && !StoredVerified(s, userId) then
          var user := UserById(s, userId);
          Admission(s, VerificationRequired(deal.slug, deal.title, user.Some? && user.value.isVerified))
        else
          ValidGateFacts(s, userId, key, idShaped);
          match ClaimFor(s, userId, deal.id)
          case Some(existing) =>
            Admission(s, DuplicateClaim(Some(ClaimSummary(existing.id, existing.claimedAt, existing.status))))
          case None =>
            var ins := InsertClaim(s, ClaimInput(Some(userId), Some(deal.id), Some("pending"), Some(now)), newId, now);
            match ins.outcome
            case Ok(c) => Admission(ins.store, Created(ClaimView(c, Populate(ins.store, c.dealId, CreatedView))))
            case Err(DuplicateKey(_)) => Admission(s, DuplicateClaim(None))
            case Err(ValidationFailed(_)) => Admission(s, InternalError("Claim validation failed"))
  }

  /** The HTTP status follows the error taxonomy: 401, 400, 404, 403, 409, 201 or 500. */
  lemma SubmitStatus(s: Store, sub: Option<Id>, dealId: Option<string>, idShaped: string -> bool, newId: Id, now: int)
    requires |newId| > 0
    ensures var r := Submit(s, sub, dealId, idShaped, newId, now).result;
      && (HttpStatus(r) == 201 <==> r.Created?)
      && (!Present(sub) ==> HttpStatus(r) == 401 && ErrorCode(r) == Some("UNAUTHORIZED"))
      && (Present(sub) && !Present(dealId) ==> HttpStatus(r) == 400 && ErrorCode(r) == Some("MISSING_DEAL_ID"))
      && (Present(sub) && Present(dealId) && !Resolvable(s, dealId.value, idShaped) ==>
            HttpStatus(r) == 404 && ErrorCode(r) == Some("DEAL_NOT_FOUND"))
    ensures var r := Submit(s, sub, dealId, idShaped, newId, now).result;
      && (Present(sub) && Present(dealId) && Resolvable(s, dealId.value, idShaped)
          && !PassesGate(s, sub, dealId, idShaped) ==>
            HttpStatus(r) == 403 && ErrorCode(r) == Some("VERIFICATION_REQUIRED"))
      && (PassesGate(s, sub, dealId, idShaped) && HasClaimPair(s, sub.value, GateDeal(s, sub, dealId, idShaped).id) ==>
            HttpStatus(r) == 409 && ErrorCode(r) == Some("DUPLICATE_CLAIM"))
      && (PassesGate(s, sub, dealId, idShaped) && |GateDeal(s, sub, dealId, idShaped).id| > 0
          && HasClaimId(s, newId) ==>
            HttpStatus(r) == 409 && ErrorCode(r) == Some("DUPLICATE_CLAIM"))
      && (HttpStatus(r) == 500 <==> ErrorCode(r) == Some("INTERNAL_ERROR"))
      && (Valid(s) ==> HttpStatus(r) != 500)
  {
  }

  /**
   * Claiming the same deal twice: the second submission is answered 409 with
   * the first claim's id, time and status, writes nothing, and exactly one claim
   * for the pair exists.
   */
  lemma SubmitTwice(s: Store, sub: Option<Id>, dealId: Option<string>, idShaped: string -> bool,
                    id1: Id, id2: Id, now1: int, now2: int)
    requires Valid(s) && |id1| > 0 && |id2| > 0
    requires Submit(s, sub, dealId, idShaped, id1, now1).result.Created?
    ensures var first := Submit(s, sub, dealId, idShaped, id1, now1);
            var second := Submit(first.store, sub, dealId, idShaped, id2, now2);
            && second.result == DuplicateClaim(Some(ClaimSummary(id1, now1, Pending)))
            && second.store == first.store
            && PairCount(second.store.claims, sub.value, first.result.claim.claim.dealId) == 1
  {
    var first := Submit(s, sub, dealId, idShaped, id1, now1);
    var s1 := first.store;
    var c := first.result.claim.claim;
    var d := ResolveForClaim(s, dealId.value, idShaped).value;
    ClaimsOnlyChange(s, s1.claims, sub.value, dealId.value, idShaped);
    assert PassesGate(s1, sub, dealId, idShaped) && GateDeal(s1, sub, dealId, idShaped) == d;
    assert s1.claims[|s.claims|] == c;
    OnePairAfterAppend(s.claims, c);
  }

  /** Writing claims changes neither which deal a key resolves to nor the stored verification flag. */
  lemma ClaimsOnlyChange(s: Store, cs: seq<Claim>, userId: Id, key: string, idShaped: string -> bool)
    ensures ResolveForClaim(s.(claims := cs), key, idShaped) == ResolveForClaim(s, key, idShaped)
    ensures StoredVerified(s.(claims := cs), userId) == StoredVerified(s, userId)
  {
  }

  /** Appending the first claim of a pair leaves exactly one claim for it. */
  lemma OnePairAfterAppend(cs: seq<Claim>, c: Claim)
    requires forall i :: 0 <= i < |cs| ==> !(cs[i].userId == c.userId && cs[i].dealId == c.dealId)
    ensures PairCount(cs + [c], c.userId, c.dealId) == 1
  {
    var p := (x: Claim) => x.userId == c.userId && x.dealId == c.dealId;
    FilterNone(cs, p);
    FilterAppend(cs, [c], p);
    assert Filter([c], p) == [c] + Filter([c][1..], p);
  }

  /**
   * The checks run in the order deal, verification, duplicate: an unverified
   * user who already holds a claim on a locked deal is told 403, not 409.
   */
  lemma VerificationBeforeDuplicate(s: Store, userId: Id, key: string, idShaped: string -> bool, newId: Id, now: int)
    requires |userId| > 0 && |key| > 0 && |newId| > 0
    requires ResolveForClaim(s, key, idShaped).Some?
    requires ResolveForClaim(s, key, idShaped).value.accessLevel == Locked
    requires HasClaimPair(s, userId, ResolveForClaim(s, key, idShaped).value.id)
    requires !StoredVerified(s, userId)
    ensures var a := Submit(s, Some(userId), Some(key), idShaped, newId, now);
      a.result.VerificationRequired? && HttpStatus(a.result) == 403 && a.store == s
  {
  }

  /** The out-of-band trust process: sets the stored verification flag of the user with this `_id`. */
  function SetVerified(s: Store, userId: Id, flag: bool): (r: Store)
    ensures |r.users| == |s.users| && r.deals == s.deals && r.claims == s.claims
    ensures forall i :: 0 <= i < |s.users| ==>
      r.users[i] == (if s.users[i].id == userId then s.users[i].(isVerified := flag) else s.users[i])
  {
    s.(users := seq(|s.users|, i requires 0 <= i < |s.users| =>
      if s.users[i].id == userId then s.users[i].(isVerified := flag) else s.users[i]))
  }

  /**
   * The gate reads the stored flag at submission time: an unverified user is
   * refused a locked deal, and the identical request succeeds once the stored
   * flag is set, whatever the token said.
   */
  lemma VerifyThenClaim(s: Store, u: User, key: string, idShaped: string -> bool, newId: Id, now: int)
    requires Valid(s) && u in s.users && !u.isVerified && |key| > 0 && |newId| > 0
    requires ResolveForClaim(s, key, idShaped).Some?
    requires ResolveForClaim(s, key, idShaped).value.accessLevel == Locked
    requires !HasClaimPair(s, u.id, ResolveForClaim(s, key, idShaped).value.id)
    requires !HasClaimId(s, newId)
    ensures Submit(s, Some(u.id), Some(key), idShaped, newId, now).result.VerificationRequired?
    ensures Submit(SetVerified(s, u.id, true), Some(u.id), Some(key), idShaped, newId, now).result.Created?
  {
    var s' := SetVerified(s, u.id, true);
    SetVerifiedFinds(s, u);
    assert ResolveForClaim(s', key, idShaped) == ResolveForClaim(s, key, idShaped);
    var d := ResolveForClaim(s, key, idShaped).value;
    assert !HasClaimPair(s', u.id, d.id) && !HasClaimId(s', newId);
    ResolvedIdNonEmpty(s, key, idShaped);
    SubmitCreates(s', u.id, key, idShaped, newId, now);
  }

  /** A deal of a valid store has a non-empty `_id`. */
  lemma ResolvedIdNonEmpty(s: Store, key: string, idShaped: string -> bool)
    requires Valid(s) && ResolveForClaim(s, key, idShaped).Some?
    ensures |ResolveForClaim(s, key, idShaped).value.id| > 0
  {
    var d := ResolveForClaim(s, key, idShaped).value;
    var k :| 0 <= k < |s.deals| && s.deals[k] == d;
    assert DealWellFormed(s.deals[k]);
  }

  /** Every check passed and the new `_id` is free: the claim is created. */
  lemma SubmitCreates(s: Store, userId: Id, key: string, idShaped: string -> bool, newId: Id, now: int)
    requires |userId| > 0 && |key| > 0 && |newId| > 0
    requires ResolveForClaim(s, key, idShaped).Some?
    requires |ResolveForClaim(s, key, idShaped).value.id| > 0
    requires ResolveForClaim(s, key, idShaped).value.accessLevel == Locked ==> StoredVerified(s, userId)
    requires !HasClaimPair(s, userId, ResolveForClaim(s, key, idShaped).value.id)
    requires !HasClaimId(s, newId)
    ensures Submit(s, Some(userId), Some(key), idShaped, newId, now).result.Created?
  {
    var d := ResolveForClaim(s, key, idShaped).value;
    assert ClaimFor(s, userId, d.id).None?;
  }

  /** After the flag is set, `findById` returns the same user with the new flag. */
  lemma SetVerifiedFinds(s: Store, u: User)
    requires Valid(s) && u in s.users
    ensures UserById(SetVerified(s, u.id, true), u.id) == Some(u.(isVerified := true))
    ensures |u.id| > 0
  {
    var s' := SetVerified(s, u.id, true);
    var i :| 0 <= i < |s.users| && s.users[i] == u;
    assert UserWellFormed(s.users[i]);
    assert s'.users[i] == u.(isVerified := true);
    forall j | 0 <= j < |s'.users| && j != i
      ensures s'.users[j].id != u.id
    {
      assert s'.users[j].id == s.users[j].id;
    }
    FindOnly(s'.users, (x: User) => x.id == u.id, i);
  }

  /** A public deal never consults the user collection: any user records give the same answer. */
  lemma PublicIgnoresUsers(s: Store, users: seq<User>, userId: Id, key: string, idShaped: string -> bool, newId: Id, now: int)
    requires |userId| > 0 && |key| > 0 && |newId| > 0
    requires ResolveForClaim(s, key, idShaped).Some?
    requires ResolveForClaim(s, key, idShaped).value.accessLevel == Public
    ensures Submit(s.(users := users), Some(userId), Some(key), idShaped, newId, now).result
         == Submit(s, Some(userId), Some(key), idShaped, newId, now).result
  {
    var s' := s.(users := users);
    assert ResolveForClaim(s', key, idShaped) == ResolveForClaim(s, key, idShaped);
    assert ClaimFor(s', userId, ResolveForClaim(s, key, idShaped).value.id)
        == ClaimFor(s, userId, ResolveForClaim(s, key, idShaped).value.id);
  }

  /** What a valid store guarantees about a resolved deal: a non-empty `_id` and at most one claim per pair. */
  lemma ValidGateFacts(s: Store, userId: Id, key: string, idShaped: string -> bool)
    requires ResolveForClaim(s, key, idShaped).Some?
    ensures Valid(s) ==> |ResolveForClaim(s, key, idShaped).value.id| > 0
    ensures var d := ResolveForClaim(s, key, idShaped).value;
      Valid(s) ==> DealById(s, d.id) == Some(d)
    ensures var d := ResolveForClaim(s, key, idShaped).value;
      Valid(s) ==> forall i :: 0 <= i < |s.claims| && s.claims[i].userId == userId && s.claims[i].dealId == d.id ==>
        ClaimFor(s, userId, d.id) == Some(s.claims[i])
  {
    if Valid(s) {
      ResolvedIdNonEmpty(s, key, idShaped);
      var d := ResolveForClaim(s, key, idShaped).value;
      IdIdentifiesDeal(s, d);
      if HasClaimPair(s, userId, d.id) {
        UniquePairFound(s, userId, d.id);
      }
    }
  }

  /** In a valid store `findOne` returns the one claim of a pair, whichever index it sits at. */
  lemma UniquePairFound(s: Store, userId: Id, dealId: Id)
    requires Valid(s) && HasClaimPair(s, userId, dealId)
    ensures ClaimFor(s, userId, dealId).Some?
    ensures forall i :: 0 <= i < |s.claims| && s.claims[i].userId == userId && s.claims[i].dealId == dealId ==>
      ClaimFor(s, userId, dealId) == Some(s.claims[i])
  {
    var found := ClaimFor(s, userId, dealId);
    var j :| 0 <= j < |s.claims| && s.claims[j].userId == userId && s.claims[j].dealId == dealId;
    assert found.Some?;
    var k :| 0 <= k < |s.claims| && s.claims[k] == found.value;
    forall i | 0 <= i < |s.claims| && s.claims[i].userId == userId && s.claims[i].dealId == dealId
      ensures found == Some(s.claims[i])
    {
      assert !(i < k) && !(k < i);
    }
  }

  // ---------------------------------------------------------------- GET /me

  datatype Stats = Stats(total: nat, pending: nat, approved: nat, rejected: nat)

  datatype MineResult = MineUnauthorized | Mine(claims: seq<ClaimView>, stats: Stats)

  predicate HasStatus(v: ClaimView, st: ClaimStatus) {
    v.claim.status == st
  }

  /** The test `filter` applies to a listed claim, and the same test on the bare claim. */
  function ViewHas(st: ClaimStatus): ClaimView -> bool {
    (v: ClaimView) => HasStatus(v, st)
  }

  function ClaimHas(st: ClaimStatus): Claim -> bool {
    (c: Claim) => c.status == st
  }

  /** `claims.length` and one `filter(...).length` per status. */
  function StatsOf(vs: seq<ClaimView>): Stats {
    Stats(|vs|, |Filter(vs, ViewHas(Pending))|, |Filter(vs, ViewHas(Approved))|, |Filter(vs, ViewHas(Rejected))|)
  }

  /** The three status counts partition the total. */
  lemma {:induction false} StatsTotal(vs: seq<ClaimView>)
    ensures StatsOf(vs).total == StatsOf(vs).pending + StatsOf(vs).approved + StatsOf(vs).rejected
  {
    if |vs| > 0 {
      StatsTotal(vs[1..]);
      FilterCons(vs, ViewHas(Pending));
      FilterCons(vs, ViewHas(Approved));
      FilterCons(vs, ViewHas(Rejected));
    }
  }

  function ClaimsOf(vs: seq<ClaimView>): (r: seq<Claim>)
    ensures |r| == |vs| && forall i :: 0 <= i < |vs| ==> r[i] == vs[i].claim
  {
    seq(|vs|, i requires 0 <= i < |vs| => vs[i].claim)
  }

  function ClaimedAt(c: Claim): int {
    c.claimedAt
  }

  /** `Claim.find({ userId })`, in store order. */
  function Owned(s: Store, userId: Id): (r: seq<Claim>)
    ensures forall i :: 0 <= i < |r| ==> r[i].userId == userId
  {
    Filter(s.claims, (c: Claim) => c.userId == userId)
  }

  /** Each claim with its deal populated by the listing projection. */
  function Views(s: Store, cs: seq<Claim>): (r: seq<ClaimView>)
    ensures ClaimsOf(r) == cs
    ensures forall i :: 0 <= i < |r| ==> r[i].deal == Populate(s, r[i].claim.dealId, ListingView)
  {
    seq(|cs|, i requires 0 <= i < |cs| => ClaimView(cs[i], Populate(s, cs[i].dealId, ListingView)))
  }

  /** Reordering keeps every element's properties. */
  lemma PermutationKeepsOwner(owned: seq<Claim>, sorted: seq<Claim>, userId: Id)
    requires multiset(sorted) == multiset(owned)
    requires forall i :: 0 <= i < |owned| ==> owned[i].userId == userId
    ensures forall i :: 0 <= i < |sorted| ==> sorted[i].userId == userId
  {
    forall i | 0 <= i < |sorted|
      ensures sorted[i].userId == userId
    {
      assert sorted[i] in multiset(owned);
    }
  }

  /**
   * `GET /claims/me`: the caller's claims, most recently claimed first, each
   * with its populated deal, and the status tally.
   */
  function ListMine(s: Store, sub: Option<Id>): (r: MineResult)
    ensures r.Mine? <==> Present(sub)
    ensures r.Mine? ==> forall i :: 0 <= i < |r.claims| ==> r.claims[i].claim.userId == sub.value
    ensures r.Mine? ==> multiset(ClaimsOf(r.claims)) == multiset(Owned(s, sub.value))
    ensures r.Mine? ==> SortedDesc(ClaimsOf(r.claims), ClaimedAt)
    ensures r.Mine? ==> forall i :: 0 <= i < |r.claims| ==>
      r.claims[i].deal == Populate(s, r.claims[i].claim.dealId, ListingView)
    ensures r.Mine? ==> r.stats.total == |r.claims| == r.stats.pending + r.stats.approved + r.stats.rejected
    ensures r.Mine? ==> r.stats.pending == |Filter(ClaimsOf(r.claims), ClaimHas(Pending))|
    ensures r.Mine? ==> r.stats.approved == |Filter(ClaimsOf(r.claims), ClaimHas(Approved))|
    ensures r.Mine? ==> r.stats.rejected == |Filter(ClaimsOf(r.claims), ClaimHas(Rejected))|
  {
    if !Present(sub) then MineUnauthorized
    else
      var owned := Owned(s, sub.value);
      var sorted := SortDesc(owned, ClaimedAt);
      PermutationKeepsOwner(owned, sorted, sub.value);
      var views := Views(s, sorted);
      StatsTotal(views);
      StatusCountOfClaims(views, Pending);
      StatusCountOfClaims(views, Approved);
      StatusCountOfClaims(views, Rejected);
      Mine(views, StatsOf(views))
  }

  /** Counting listed claims by status counts the underlying claims with that status. */
  lemma {:induction false} StatusCountOfClaims(vs: seq<ClaimView>, st: ClaimStatus)
    ensures |Filter(vs, ViewHas(st))| == |Filter(ClaimsOf(vs), ClaimHas(st))|
  {
    if |vs| > 0 {
      StatusCountOfClaims(vs[1..], st);
      assert ClaimsOf(vs)[1..] == ClaimsOf(vs[1..]);
    }
  }

  /** Every claim of the caller is listed, and nothing else is. */
  lemma ListMineComplete(s: Store, userId: Id, c: Claim)
    requires |userId| > 0
    ensures var r := ListMine(s, Some(userId));
      c in ClaimsOf(r.claims) <==> c in s.claims && c.userId == userId
  {
    var r := ListMine(s, Some(userId));
    var owned := Owned(s, userId);
    InOwned(s, userId, c);
    assert multiset(ClaimsOf(r.claims)) == multiset(owned);
    assert c in ClaimsOf(r.claims) <==> c in multiset(ClaimsOf(r.claims));
    assert c in owned <==> c in multiset(owned);
  }

  /** The claims `Claim.find({ userId })` selects are exactly the stored claims of that user. */
  lemma InOwned(s: Store, userId: Id, c: Claim)
    ensures c in Owned(s, userId) <==> c in s.claims && c.userId == userId
  {
    if c in s.claims && c.userId == userId {
      var k :| 0 <= k < |s.claims| && s.claims[k] == c;
    }
  }
}
