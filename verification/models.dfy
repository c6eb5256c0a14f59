/**
 * The three collections (users, deals, claims) and what their Mongoose schemas
 * enforce when a document is created: the `lowercase`/`trim` setters, `required`
 * fields, `enum` domains, defaults, the `timestamps` option and the unique
 * indexes. A store is three sequences in insertion order; `Valid` is the
 * invariant every creation preserves.
 */
module Models {
  import opened Basics
  import opened Text
  import opened Seqs

  /** A document `_id` (an ObjectId), kept abstract as a string. */
  type Id = string

  datatype ClaimStatus = Pending | Approved | Rejected

  datatype AccessLevel = Public | Locked

  function StatusName(s: ClaimStatus): string {
    match s
    case Pending => "pending"
    case Approved => "approved"
    case Rejected => "rejected"
  }

  /** The schema's `enum: ["pending", "approved", "rejected"]` check. */
  function ParseStatus(s: string): Option<ClaimStatus> {
    if s == "pending" then Some(Pending)
    else if s == "approved" then Some(Approved)
    else if s == "rejected" then Some(Rejected)
    else None
  }

  function AccessName(a: AccessLevel): string {
    match a
    case Public => "public"
    case Locked => "locked"
  }

  /** The schema's `enum: ["public", "locked"]` check. */
  function ParseAccess(s: string): Option<AccessLevel> {
    if s == "public" then Some(Public)
    else if s == "locked" then Some(Locked)
    else None
  }

  /** The status enum accepts exactly the three names, each naming one status. */
  lemma StatusEnum(s: string, st: ClaimStatus)
    ensures ParseStatus(s) == Some(st) <==> StatusName(st) == s
  {
  }

  /** The access-level enum accepts exactly the two names, each naming one level. */
  lemma AccessEnum(s: string, a: AccessLevel)
    ensures ParseAccess(s) == Some(a) <==> AccessName(a) == s
  {
  }

  datatype User = User(
    id: Id,
    email: string,
    passwordHash: string,
    name: string,
    isVerified: bool,
    role: Option<string>,
    createdAt: int,
    updatedAt: int)

  datatype Deal = Deal(
    id: Id,
    title: string,
    slug: string,
    description: Option<string>,
    partnerName: Option<string>,
    partnerUrl: Option<string>,
    category: Option<string>,
    accessLevel: AccessLevel,
    eligibility: Option<string>,
    ctaText: Option<string>,
    ctaUrl: Option<string>,
    isActive: bool,
    createdAt: int,
    updatedAt: int)

  datatype Claim = Claim(
    id: Id,
    userId: Id,
    dealId: Id,
    status: ClaimStatus,
    claimedAt: int,
    createdAt: int,
    updatedAt: int)

  datatype Store = Store(users: seq<User>, deals: seq<Deal>, claims: seq<Claim>)

  /** The fields a caller passes to `User.create`; `None` is an omitted field. */
  datatype UserInput = UserInput(
    email: Option<string>,
    passwordHash: Option<string>,
    name: Option<string>,
    isVerified: Option<bool>,
    role: Option<string>)

  /** The fields a caller passes to `Deal.create`. */
  datatype DealInput = DealInput(
    title: Option<string>,
    slug: Option<string>,
    description: Option<string>,
    partnerName: Option<string>,
    partnerUrl: Option<string>,
    category: Option<string>,
    accessLevel: Option<string>,
    eligibility: Option<string>,
    ctaText: Option<string>,
    ctaUrl: Option<string>,
    isActive: Option<bool>)

  /** The fields a caller passes to `Claim.create`. */
  datatype ClaimInput = ClaimInput(
    userId: Option<Id>,
    dealId: Option<Id>,
    status: Option<string>,
    claimedAt: Option<int>)

  /**
   * Why a creation failed: schema validation (the failing paths, in schema
   * order) or a unique index (Mongo error code 11000, with the index name).
   */
  datatype DbError = ValidationFailed(paths: seq<string>) | DuplicateKey(index: string)

  datatype Inserted<T> = Inserted(store: Store, outcome: Result<T, DbError>)

  /** A `required: true` string after its setters: present and not "". */
  predicate Present(v: Option<string>) {
    v.Some? && |v.value| > 0
  }

  function MapText(v: Option<string>, f: string -> string): Option<string> {
    if v.Some? then Some(f(v.value)) else None
  }

  function PathIf(failed: bool, path: string): seq<string> {
    if failed then [path] else []
  }

  /** The paths of the failed checks among three, in schema order. */
  function FailedPaths(a: bool, pa: string, b: bool, pb: string, c: bool, pc: string): (r: seq<string>)
    requires pa != pb && pb != pc && pa != pc
    ensures |r| > 0 <==> a || b || c
    ensures (pa in r <==> a) && (pb in r <==> b) && (pc in r <==> c)
  {
    PathIf(a, pa) + PathIf(b, pb) + PathIf(c, pc)
  }

  // ---------------------------------------------------------------- invariant

  predicate UserWellFormed(u: User) {
    |u.id| > 0 && |u.email| > 0 && IsNormal(u.email) && |u.passwordHash| > 0
    && |u.name| > 0 && IsTrimmed(u.name)
  }

  predicate DealWellFormed(d: Deal) {
    |d.id| > 0 && |d.slug| > 0 && IsNormal(d.slug) && |d.title| > 0 && IsTrimmed(d.title)
  }

  predicate ClaimWellFormed(c: Claim) {
    |c.id| > 0 && |c.userId| > 0 && |c.dealId| > 0
  }

  /** Every user document is well formed; `_id` and `email` are unique. */
  predicate UsersValid(us: seq<User>) {
    && (forall i :: 0 <= i < |us| ==> UserWellFormed(us[i]))
    && (forall i, j :: 0 <= i < j < |us| ==> us[i].id != us[j].id && us[i].email != us[j].email)
  }

  /** Every deal document is well formed; `_id` and `slug` are unique. */
  predicate DealsValid(ds: seq<Deal>) {
    && (forall i :: 0 <= i < |ds| ==> DealWellFormed(ds[i]))
    && (forall i, j :: 0 <= i < j < |ds| ==> ds[i].id != ds[j].id && ds[i].slug != ds[j].slug)
  }

  /** Every claim document is well formed; `_id` and the pair `(userId, dealId)` are unique. */
  predicate ClaimsValid(cs: seq<Claim>) {
    && (forall i :: 0 <= i < |cs| ==> ClaimWellFormed(cs[i]))
    && (forall i, j :: 0 <= i < j < |cs| ==>
          cs[i].id != cs[j].id && (cs[i].userId, cs[i].dealId) != (cs[j].userId, cs[j].dealId))
  }

  predicate Valid(s: Store) {
    UsersValid(s.users) && DealsValid(s.deals) && ClaimsValid(s.claims)
  }

  /** The empty database satisfies the invariant. */
  lemma EmptyValid()
    ensures Valid(Store([], [], []))
  {
  }

  // ------------------------------------------------------------------ queries

  /** `User.findById(id)`. */
  function UserById(s: Store, id: Id): Option<User> {
    Find(s.users, (u: User) => u.id == id)
  }

  /** `User.findOne({ email })`: an exact match on the stored (normalised) email. */
  function UserByEmail(s: Store, email: string): Option<User> {
    Find(s.users, (u: User) => u.email == email)
  }

  /** `Deal.findOne({ _id: id, isActive: true })`. */
  function ActiveDealById(s: Store, id: Id): Option<Deal> {
    Find(s.deals, (d: Deal) => d.id == id && d.isActive)
  }

  /** `Deal.findOne({ slug, isActive: true })`: an exact match on the stored slug. */
  function ActiveDealBySlug(s: Store, slug: string): Option<Deal> {
    Find(s.deals, (d: Deal) => d.slug == slug && d.isActive)
  }

  /** `Deal.findById(id)` as `populate` performs it, active or not. */
  function DealById(s: Store, id: Id): Option<Deal> {
    Find(s.deals, (d: Deal) => d.id == id)
  }

  /** `Claim.findOne({ userId, dealId })`. */
  function ClaimFor(s: Store, userId: Id, dealId: Id): Option<Claim> {
    Find(s.claims, (c: Claim) => c.userId == userId && c.dealId == dealId)
  }

  predicate HasUserId(s: Store, id: Id) {
    exists i :: 0 <= i < |s.users| && s.users[i].id == id
  }

  predicate HasEmail(s: Store, email: string) {
    exists i :: 0 <= i < |s.users| && s.users[i].email == email
  }

  predicate HasDealId(s: Store, id: Id) {
    exists i :: 0 <= i < |s.deals| && s.deals[i].id == id
  }

  predicate HasSlug(s: Store, slug: string) {
    exists i :: 0 <= i < |s.deals| && s.deals[i].slug == slug
  }

  predicate HasClaimId(s: Store, id: Id) {
    exists i :: 0 <= i < |s.claims| && s.claims[i].id == id
  }

  predicate HasClaimPair(s: Store, userId: Id, dealId: Id) {
    exists i :: 0 <= i < |s.claims| && s.claims[i].userId == userId && s.claims[i].dealId == dealId
  }

  /** A unique slug identifies at most one deal: the active deal stored under a slug is what a slug lookup finds. */
  lemma SlugIdentifiesDeal(s: Store, d: Deal)
    requires Valid(s) && d in s.deals && d.isActive
    ensures ActiveDealBySlug(s, d.slug) == Some(d)
  {
    var r := ActiveDealBySlug(s, d.slug);
    var i :| 0 <= i < |s.deals| && s.deals[i] == d;
    assert r.Some?;
    var j :| 0 <= j < |s.deals| && s.deals[j] == r.value;
    assert !(i < j) && !(j < i);
  }

  /** An `_id` identifies at most one deal. */
  lemma IdIdentifiesDeal(s: Store, d: Deal)
    requires Valid(s) && d in s.deals
    ensures DealById(s, d.id) == Some(d)
    ensures d.isActive ==> ActiveDealById(s, d.id) == Some(d)
  {
    var i :| 0 <= i < |s.deals| && s.deals[i] == d;
    var r := DealById(s, d.id);
    var j :| 0 <= j < |s.deals| && s.deals[j] == r.value;
    assert !(i < j) && !(j < i);
    if d.isActive {
      var r' := ActiveDealById(s, d.id);
      var k :| 0 <= k < |s.deals| && s.deals[k] == r'.value;
      assert !(i < k) && !(k < i);
    }
  }

  /** A unique email identifies at most one user. */
  lemma EmailIdentifiesUser(s: Store, u: User)
    requires Valid(s) && u in s.users
    ensures UserByEmail(s, u.email) == Some(u)
    ensures UserById(s, u.id) == Some(u)
  {
    var i :| 0 <= i < |s.users| && s.users[i] == u;
    var r := UserByEmail(s, u.email);
    var j :| 0 <= j < |s.users| && s.users[j] == r.value;
    assert !(i < j) && !(j < i);
    var r' := UserById(s, u.id);
    var k :| 0 <= k < |s.users| && s.users[k] == r'.value;
    assert !(i < k) && !(k < i);
  }

  lemma AppendUserValid(s: Store, u: User)
    requires UserWellFormed(u) && !HasUserId(s, u.id) && !HasEmail(s, u.email)
    ensures Valid(s) ==> Valid(s.(users := s.users + [u]))
  {
    var us := s.users + [u];
    if Valid(s) {
      forall i, j | 0 <= i < j < |us|
        ensures us[i].id != us[j].id && us[i].email != us[j].email
      {
        assert us[i] == s.users[i];
      }
    }
  }

  lemma AppendDealValid(s: Store, d: Deal)
    requires DealWellFormed(d) && !HasDealId(s, d.id) && !HasSlug(s, d.slug)
    ensures Valid(s) ==> Valid(s.(deals := s.deals + [d]))
  {
    var ds := s.deals + [d];
    if Valid(s) {
      forall i, j | 0 <= i < j < |ds|
        ensures ds[i].id != ds[j].id && ds[i].slug != ds[j].slug
      {
        assert ds[i] == s.deals[i];
      }
    }
  }

  lemma AppendClaimValid(s: Store, c: Claim)
    requires ClaimWellFormed(c) && !HasClaimId(s, c.id) && !HasClaimPair(s, c.userId, c.dealId)
    ensures Valid(s) ==> Valid(s.(claims := s.claims + [c]))
  {
    var cs := s.claims + [c];
    if Valid(s) {
      forall i, j | 0 <= i < j < |cs|
        ensures cs[i].id != cs[j].id && (cs[i].userId, cs[i].dealId) != (cs[j].userId, cs[j].dealId)
      {
        assert cs[i] == s.claims[i];
      }
    }
  }

  // ------------------------------------------------------------------- users

  /**
   * `new User(input)` followed by validation: email is lower-cased and trimmed,
   * name trimmed; email, passwordHash and name are required; isVerified
   * defaults to false; role is optional; both timestamps are `now`.
   */
  function NewUser(input: UserInput, id: Id, now: int): (r: Result<User, DbError>)
    ensures r.Ok? <==>
      Present(MapText(input.email, Normalize)) && Present(input.passwordHash) && Present(MapText(input.name, Trim))
    ensures r.Ok? ==>
      && r.value.id == id
      && r.value.email == Normalize(input.email.value)
      && r.value.passwordHash == input.passwordHash.value
      && r.value.name == Trim(input.name.value)
      && r.value.isVerified == input.isVerified.GetOr(false)
      && r.value.role == input.role
      && r.value.createdAt == now && r.value.updatedAt == now
    ensures r.Ok? && |id| > 0 ==> UserWellFormed(r.value)
    ensures r.Err? ==> r.error.ValidationFailed? && |r.error.paths| > 0
    ensures r.Err? ==> ("email" in r.error.paths <==> !Present(MapText(input.email, Normalize)))
    ensures r.Err? ==> ("passwordHash" in r.error.paths <==> !Present(input.passwordHash))
    ensures r.Err? ==> ("name" in r.error.paths <==> !Present(MapText(input.name, Trim)))
  {
    var email := MapText(input.email, Normalize);
    var name := MapText(input.name, Trim);
    var missing :=
      FailedPaths(!Present(email), "email", !Present(input.passwordHash), "passwordHash", !Present(name), "name");
    if |missing| > 0 then Err(ValidationFailed(missing))
    else
      NormalizeIsNormal(input.email.value);
      TrimIsTrimmed(input.name.value);
      Ok(User(id, email.value, input.passwordHash.value, name.value,
              input.isVerified.GetOr(false), input.role, now, now))
  }

  /**
   * `User.create(input)`: validation, then the unique indexes on `_id` and
   * `email`. Only a successful creation changes the store, by appending.
   */
  function InsertUser(s: Store, input: UserInput, id: Id, now: int): (r: Inserted<User>)
    requires |id| > 0
    ensures r.outcome.Err? ==> r.store == s
    ensures r.outcome.Ok? ==> r.store == s.(users := s.users + [r.outcome.value]) && NewUser(input, id, now) == r.outcome
    ensures r.outcome.Ok? <==> NewUser(input, id, now).Ok? && !HasUserId(s, id) && !HasEmail(s, NewUser(input, id, now).value.email)
    ensures r.outcome == Err(DuplicateKey("email_1")) <==>
      NewUser(input, id, now).Ok? && !HasUserId(s, id) && HasEmail(s, NewUser(input, id, now).value.email)
    ensures Valid(s) ==> Valid(r.store)
  {
    match NewUser(input, id, now)
    case Err(e) => Inserted(s, Err(e))
    case Ok(u) =>
      if HasUserId(s, id) then Inserted(s, Err(DuplicateKey("_id_")))
      else if HasEmail(s, u.email) then Inserted(s, Err(DuplicateKey("email_1")))
      else
        AppendUserValid(s, u);
        Inserted(s.(users := s.users + [u]), Ok(u))
  }

  // ------------------------------------------------------------------- deals

  /**
   * `new Deal(input)` followed by validation: title trimmed and required; slug
   * lower-cased, trimmed and required; accessLevel in the enum, default public;
   * isActive default true.
   */
  function NewDeal(input: DealInput, id: Id, now: int): (r: Result<Deal, DbError>)
    ensures r.Ok? <==>
      && Present(MapText(input.title, Trim)) && Present(MapText(input.slug, Normalize))
      && (input.accessLevel.None? || ParseAccess(input.accessLevel.value).Some?)
    ensures r.Ok? ==>
      && r.value.id == id
      && r.value.title == Trim(input.title.value)
      && r.value.slug == Normalize(input.slug.value)
      && r.value.accessLevel == (if input.accessLevel.None? then Public else ParseAccess(input.accessLevel.value).value)
      && r.value.isActive == input.isActive.GetOr(true)
      && r.value.category == input.category
      && r.value.createdAt == now && r.value.updatedAt == now
    ensures r.Ok? && |id| > 0 ==> DealWellFormed(r.value)
    ensures r.Err? ==> r.error.ValidationFailed? && |r.error.paths| > 0
    ensures r.Err? ==> ("title" in r.error.paths <==> !Present(MapText(input.title, Trim)))
    ensures r.Err? ==> ("slug" in r.error.paths <==> !Present(MapText(input.slug, Normalize)))
    ensures r.Err? ==> ("accessLevel" in r.error.paths <==>
      input.accessLevel.Some? && ParseAccess(input.accessLevel.value).None?)
  {
    var title := MapText(input.title, Trim);
    var slug := MapText(input.slug, Normalize);
    var accessOk := input.accessLevel.None? || ParseAccess(input.accessLevel.value).Some?;
    var invalid :=
      FailedPaths(!Present(title), "title", !Present(slug), "slug", !accessOk, "accessLevel");
    if |invalid| > 0 then Err(ValidationFailed(invalid))
    else
      TrimIsTrimmed(input.title.value);
      NormalizeIsNormal(input.slug.value);
      var access := if input.accessLevel.None? then Public else ParseAccess(input.accessLevel.value).value;
      Ok(Deal(id, title.value, slug.value, input.description, input.partnerName, input.partnerUrl,
              input.category, access, input.eligibility, input.ctaText, input.ctaUrl,
              input.isActive.GetOr(true), now, now))
  }

  /** `Deal.create(input)`: validation, then the unique indexes on `_id` and `slug`. */
  function InsertDeal(s: Store, input: DealInput, id: Id, now: int): (r: Inserted<Deal>)
    requires |id| > 0
    ensures r.outcome.Err? ==> r.store == s
    ensures r.outcome.Ok? ==> r.store == s.(deals := s.deals + [r.outcome.value]) && NewDeal(input, id, now) == r.outcome
    ensures r.outcome.Ok? <==> NewDeal(input, id, now).Ok? && !HasDealId(s, id) && !HasSlug(s, NewDeal(input, id, now).value.slug)
    ensures Valid(s) ==> Valid(r.store)
  {
    match NewDeal(input, id, now)
    case Err(e) => Inserted(s, Err(e))
    case Ok(d) =>
      if HasDealId(s, id) then Inserted(s, Err(DuplicateKey("_id_")))
      else if HasSlug(s, d.slug) then Inserted(s, Err(DuplicateKey("slug_1")))
      else
        AppendDealValid(s, d);
        Inserted(s.(deals := s.deals + [d]), Ok(d))
  }

  // ------------------------------------------------------------------ claims

  /**
   * `new Claim(input)` followed by validation: userId and dealId required;
   * status in the enum, default pending; claimedAt defaults to `now`.
   */
  function NewClaim(input: ClaimInput, id: Id, now: int): (r: Result<Claim, DbError>)
    ensures r.Ok? <==>
      Present(input.userId) && Present(input.dealId)
      && (input.status.None? || ParseStatus(input.status.value).Some?)
    ensures r.Ok? ==>
      && r.value.id == id && r.value.userId == input.userId.value && r.value.dealId == input.dealId.value
      && (input.status.None? ==> r.value.status == Pending)
      && (input.status.Some? ==> StatusName(r.value.status) == input.status.value)
      && r.value.claimedAt == input.claimedAt.GetOr(now)
      && r.value.createdAt == now && r.value.updatedAt == now
    ensures r.Ok? && |id| > 0 ==> ClaimWellFormed(r.value)
    ensures r.Err? ==> r.error.ValidationFailed? && |r.error.paths| > 0
    ensures r.Err? ==> ("userId" in r.error.paths <==> !Present(input.userId))
    ensures r.Err? ==> ("dealId" in r.error.paths <==> !Present(input.dealId))
    ensures r.Err? ==> ("status" in r.error.paths <==>
      input.status.Some? && ParseStatus(input.status.value).None?)
  {
    var statusOk := input.status.None? || ParseStatus(input.status.value).Some?;
    var invalid :=
      FailedPaths(!Present(input.userId), "userId", !Present(input.dealId), "dealId", !statusOk, "status");
    if |invalid| > 0 then Err(ValidationFailed(invalid))
    else
      var status := if input.status.None? then Pending else ParseStatus(input.status.value).value;
      Ok(Claim(id, input.userId.value, input.dealId.value, status, input.claimedAt.GetOr(now), now, now))
  }

  /**
   * `Claim.create(input)`: validation, then the unique indexes on `_id` and on
   * `(userId, dealId)`. A second claim for the same pair is refused.
   */
  function InsertClaim(s: Store, input: ClaimInput, id: Id, now: int): (r: Inserted<Claim>)
    requires |id| > 0
    ensures r.outcome.Err? ==> r.store == s
    ensures r.outcome.Ok? ==> r.store == s.(claims := s.claims + [r.outcome.value]) && NewClaim(input, id, now) == r.outcome
    ensures r.outcome.Ok? <==>
      NewClaim(input, id, now).Ok? && !HasClaimId(s, id) && !HasClaimPair(s, input.userId.value, input.dealId.value)
    ensures NewClaim(input, id, now).Ok? && HasClaimPair(s, input.userId.value, input.dealId.value) ==>
      r.outcome.Err? && r.outcome.error.DuplicateKey?
    ensures Valid(s) ==> Valid(r.store)
  {
    match NewClaim(input, id, now)
    case Err(e) => Inserted(s, Err(e))
    case Ok(c) =>
      if HasClaimId(s, id) then Inserted(s, Err(DuplicateKey("_id_")))
      else if HasClaimPair(s, c.userId, c.dealId) then Inserted(s, Err(DuplicateKey("userId_1_dealId_1")))
      else
        AppendClaimValid(s, c);
        Inserted(s.(claims := s.claims + [c]), Ok(c))
  }

  /** Counts the claims of one (user, deal) pair. */
  function PairCount(cs: seq<Claim>, userId: Id, dealId: Id): nat {
    |Filter(cs, (c: Claim) => c.userId == userId && c.dealId == dealId)|
  }

  /** The unique index keeps at most one claim per (user, deal) pair. */
  lemma {:induction false} AtMostOneClaimPerPair(cs: seq<Claim>, userId: Id, dealId: Id)
    requires ClaimsValid(cs)
    ensures PairCount(cs, userId, dealId) <= 1
  {
    var p := (c: Claim) => c.userId == userId && c.dealId == dealId;
    if |cs| > 0 {
      var rest := cs[1..];
      assert ClaimsValid(rest) by {
        forall i, j | 0 <= i < j < |rest|
          ensures rest[i].id != rest[j].id && (rest[i].userId, rest[i].dealId) != (rest[j].userId, rest[j].dealId)
        {
          assert rest[i] == cs[i + 1] && rest[j] == cs[j + 1];
        }
      }
      AtMostOneClaimPerPair(rest, userId, dealId);
      if p(cs[0]) {
        forall k | 0 <= k < |rest|
          ensures !p(rest[k])
        {
          assert cs[k + 1] == rest[k];
        }
        FilterNone(rest, p);
      }
    }
  }

  /**
   * Creating the same claim twice (seed script): the first insert succeeds with
   * status pending, the second is refused by the unique index, and exactly one
   * claim for the pair remains.
   */
  lemma SecondClaimRejected(s: Store, userId: Id, dealId: Id, id1: Id, id2: Id, now1: int, now2: int)
    requires Valid(s) && !HasClaimPair(s, userId, dealId) && !HasClaimId(s, id1)
    requires |userId| > 0 && |dealId| > 0 && |id1| > 0 && |id2| > 0
    ensures var input := ClaimInput(Some(userId), Some(dealId), None, None);
            var first := InsertClaim(s, input, id1, now1);
            && first.outcome.Ok? && first.outcome.value.status == Pending
            && var second := InsertClaim(first.store, input, id2, now2);
            && second.outcome.Err? && second.outcome.error.DuplicateKey?
            && second.store == first.store
            && PairCount(second.store.claims, userId, dealId) == 1
  {
    var input := ClaimInput(Some(userId), Some(dealId), None, None);
    var first := InsertClaim(s, input, id1, now1);
    var c := first.outcome.value;
    var cs := first.store.claims;
    assert cs[|cs| - 1] == c;
    assert HasClaimPair(first.store, userId, dealId);
    var p := (c: Claim) => c.userId == userId && c.dealId == dealId;
    assert p(c) && c in cs;
    assert c in Filter(cs, p);
    AtMostOneClaimPerPair(cs, userId, dealId);
  }

  /**
   * Creating a second user whose email normalises to an existing one's (seed
   * script): refused by the unique index, store unchanged.
   */
  lemma SecondUserSameEmailRejected(s: Store, first: UserInput, second: UserInput, id1: Id, id2: Id, now1: int, now2: int)
    requires |id1| > 0 && |id2| > 0 && id1 != id2 && !HasUserId(s, id2)
    requires first.email.Some? && second.email.Some?
    requires Normalize(second.email.value) == Normalize(first.email.value)
    requires InsertUser(s, first, id1, now1).outcome.Ok?
    requires NewUser(second, id2, now2).Ok?
    ensures var s1 := InsertUser(s, first, id1, now1).store;
            InsertUser(s1, second, id2, now2) == Inserted(s1, Err(DuplicateKey("email_1")))
  {
    var r1 := InsertUser(s, first, id1, now1);
    var s1 := r1.store;
    var u1 := r1.outcome.value;
    InsertedUserIsLast(s, first, id1, now1);
    FreshUserIdStaysFresh(s, first, id1, now1, id2);
    var u2 := NewUser(second, id2, now2).value;
    assert s1.users[|s.users|] == u1;
    assert HasEmail(s1, u2.email);
    DuplicateEmailRefused(s1, second, id2, now2);
  }

  lemma InsertedUserIsLast(s: Store, input: UserInput, id: Id, now: int)
    requires |id| > 0 && InsertUser(s, input, id, now).outcome.Ok?
    ensures var r := InsertUser(s, input, id, now);
      r.store.users == s.users + [r.outcome.value] && r.outcome.value.email == Normalize(input.email.value)
  {
  }

  lemma FreshUserIdStaysFresh(s: Store, input: UserInput, id: Id, now: int, other: Id)
    requires |id| > 0 && id != other && !HasUserId(s, other)
    requires InsertUser(s, input, id, now).outcome.Ok?
    ensures !HasUserId(InsertUser(s, input, id, now).store, other)
  {
    var s1 := InsertUser(s, input, id, now).store;
    forall i | 0 <= i < |s1.users|
      ensures s1.users[i].id != other
    {
      if i < |s.users| {
        assert s.users[i] == s1.users[i];
      }
    }
  }

  lemma DuplicateEmailRefused(s: Store, input: UserInput, id: Id, now: int)
    requires |id| > 0 && !HasUserId(s, id)
    requires NewUser(input, id, now).Ok?
    requires HasEmail(s, NewUser(input, id, now).value.email)
    ensures InsertUser(s, input, id, now) == Inserted(s, Err(DuplicateKey("email_1")))
  {
  }
}
