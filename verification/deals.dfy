/**
 * The public catalogue: `GET /deals` (filtered, newest first, paged with
 * `limit`/`skip` read through `parseInt`) and `GET /deals/:slugOrId` (slug
 * first, then a 24-hex-digit `_id`). The query string reaches the handler as
 * written: no schema validates it first. Mongo's `$text` search is the
 * abstract predicate `textMatch(search, deal)`.
 */
module DealsRoute {
  import opened Basics
  import opened Text
  import opened JsNumber
  import opened Seqs
  import opened Models
  import opened ClaimsRoute

  /** The query-string parameters that select deals; `None` when absent. */
  datatype DealFilter = DealFilter(category: Option<string>, accessLevel: Option<string>, search: Option<string>)

  /** Everything the list handler reads from the query string. */
  datatype DealsQuery = DealsQuery(filter: DealFilter, limit: Option<string>, skip: Option<string>)

  datatype Pagination = Pagination(total: nat, limit: int, skip: nat, hasMore: bool)

  datatype ListResult = InvalidAccessLevel | Listed(deals: seq<Deal>, pagination: Pagination)

  function ListStatus(r: ListResult): int {
    if r.InvalidAccessLevel? then 400 else 200
  }

  function ListError(r: ListResult): Option<string> {
    if r.InvalidAccessLevel? then Some("Invalid accessLevel. Must be 'public' or 'locked'") else None
  }

  // ------------------------------------------------------------ limit and skip

  /** `Math.min(j || 50, 100)` for a parsed limit. */
  function LimitOf(j: JsInt): (n: int)
    ensures n <= 100 && n != 0
    ensures j.NaN? || j == Num(0) ==> n == 50
    ensures j.Num? && 0 < j.value ==> n == Min(j.value, 100)
    ensures j.Num? && j.value < 0 ==> n == j.value
  {
    Min(OrDefault(j, 50), 100)
  }

  /**
   * `Math.min(parseInt(limit, 10) || 50, 100)`, with `limit` defaulting to
   * "50" when absent (which parses to 50, see `DefaultLimitText`). Nothing bounds
   * it from below.
   */
  function EffectiveLimit(limit: Option<string>): (n: int)
    ensures n <= 100 && n != 0
    ensures limit.None? ==> n == 50
    ensures limit.Some? ==> n == LimitOf(ParseInt(limit.value))
  {
    if limit.None? then 50 else LimitOf(ParseInt(limit.value))
  }

  /** `Math.max(j || 0, 0)` for a parsed skip. */
  function SkipOf(j: JsInt): (n: nat)
    ensures j.NaN? ==> n == 0
    ensures j.Num? ==> n == Max(j.value, 0)
  {
    Max(OrDefault(j, 0), 0)
  }

  /** `Math.max(parseInt(skip, 10) || 0, 0)`, with `skip` defaulting to "0" (which parses to 0). */
  function EffectiveSkip(skip: Option<string>): (n: nat)
    ensures skip.None? ==> n == 0
    ensures skip.Some? ==> n == SkipOf(ParseInt(skip.value))
  {
    if skip.None? then 0 else SkipOf(ParseInt(skip.value))
  }

  /** The destructuring default "50" parses to the limit used for an absent parameter. */
  lemma DefaultLimitText()
    ensures LimitOf(ParseInt("50")) == 50
  {
    FiftyValue();
    ParseDigits("50");
  }

  lemma FiftyValue()
    ensures AllDigits("50") && DigitsValue("50") == 50
  {
    var fifty := "50";
    assert AllDigits(fifty);
    assert fifty[..1] == "5" && DigitsValue("5") == 5;
  }

  /** The destructuring default "0" parses to the skip used for an absent parameter. */
  lemma DefaultSkipText()
    ensures SkipOf(ParseInt("0")) == 0
  {
    var zero := "0";
    assert AllDigits(zero);
    ParseDigits(zero);
  }

  /**
   * The number of documents Mongo returns for `limit(n)`: a negative limit
   * asks for a single batch of `-n` documents.
   */
  function PageSize(limit: int): (n: nat)
    ensures limit != 0 ==> n > 0
    ensures n == limit || n == -limit
  {
    if limit < 0 then -limit else limit
  }

  /** A decimal limit, as a well-behaved client sends it: 0 means the default, anything above 100 is cut to 100. */
  lemma LimitOfDecimal(k: nat)
    ensures EffectiveLimit(Some(Decimal(k))) == if k == 0 then 50 else Min(k, 100)
    ensures 1 <= EffectiveLimit(Some(Decimal(k))) <= 100
  {
    ParseDecimal(k);
  }

  /** A negative limit reaches the query unchanged and is echoed in the pagination block. */
  lemma NegativeLimitKept(k: nat)
    requires k > 0
    ensures EffectiveLimit(Some("-" + Decimal(k))) == -(k as int)
    ensures PageSize(EffectiveLimit(Some("-" + Decimal(k)))) == k
  {
    ParseNegative(k);
  }

  /** A decimal skip is used as given. */
  lemma SkipOfDecimal(k: nat)
    ensures EffectiveSkip(Some(Decimal(k))) == k
  {
    ParseDecimal(k);
  }

  // ------------------------------------------------------------------ listing

  function CreatedAt(d: Deal): int {
    d.createdAt
  }

  /** The Mongo filter the handler builds: active, plus each truthy parameter as an exact match. */
  predicate Matches(d: Deal, f: DealFilter, textMatch: (string, Deal) -> bool) {
    && d.isActive
    && (Truthy(f.category) ==> d.category == f.category)
    && (Truthy(f.accessLevel) ==> AccessName(d.accessLevel) == f.accessLevel.value)
    && (Truthy(f.search) ==> textMatch(f.search.value, d))
  }

  /** The deals `Deal.find(query)` selects, in store order. */
  function Matching(s: Store, f: DealFilter, textMatch: (string, Deal) -> bool): seq<Deal> {
    Filter(s.deals, (d: Deal) => Matches(d, f, textMatch))
  }

  /** The matching deals, newest first (`sort({ createdAt: -1 })`). */
  function Ordered(s: Store, f: DealFilter, textMatch: (string, Deal) -> bool): (r: seq<Deal>)
    ensures |r| == |Matching(s, f, textMatch)|
    ensures SortedDesc(r, CreatedAt)
    ensures multiset(r) == multiset(Matching(s, f, textMatch))
    ensures forall i :: 0 <= i < |r| ==> r[i] in s.deals && Matches(r[i], f, textMatch)
  {
    var matching := Matching(s, f, textMatch);
    var r := SortDesc(matching, CreatedAt);
    forall i | 0 <= i < |r|
      ensures r[i] in s.deals && Matches(r[i], f, textMatch)
    {
      assert r[i] in multiset(matching);
    }
    r
  }

  /** `page` is the run of `ordered` that starts at index `skip`. */
  predicate PageAt(page: seq<Deal>, ordered: seq<Deal>, skip: nat) {
    forall i :: 0 <= i < |page| ==> skip + i < |ordered| && page[i] == ordered[skip + i]
  }

  /** A run of a sequence of matching store deals holds only matching store deals. */
  lemma PageMatches(page: seq<Deal>, ordered: seq<Deal>, skip: nat, s: Store, f: DealFilter, textMatch: (string, Deal) -> bool)
    requires PageAt(page, ordered, skip)
    requires forall i :: 0 <= i < |ordered| ==> ordered[i] in s.deals && Matches(ordered[i], f, textMatch)
    ensures forall i :: 0 <= i < |page| ==> page[i] in s.deals && Matches(page[i], f, textMatch)
  {
    forall i | 0 <= i < |page|
      ensures page[i] in s.deals && Matches(page[i], f, textMatch)
    {
      assert page[i] == ordered[skip + i];
    }
  }

  /** `skip(skip).limit(limit)` on the ordered matches, with the pagination block built from them. */
  function PageOf(ordered: seq<Deal>, limit: int, skip: nat): (r: ListResult)
    requires SortedDesc(ordered, CreatedAt)
    ensures r.Listed? && SortedDesc(r.deals, CreatedAt)
    ensures r.pagination == Pagination(|ordered|, limit, skip, skip + |r.deals| < |ordered|)
    ensures |r.deals| == if skip >= |ordered| then 0 else Min(PageSize(limit), |ordered| - skip)
    ensures PageAt(r.deals, ordered, skip)
  {
    var page := Page(ordered, skip, PageSize(limit));
    PageOfSorted(ordered, skip, PageSize(limit), CreatedAt);
    Listed(page, Pagination(|ordered|, limit, skip, skip + |page| < |ordered|))
  }

  /**
   * `GET /deals`: reject a truthy `accessLevel` other than "public" or
   * "locked"; otherwise one page of the matching deals, newest first, with
   * the total count and whether more follow.
   */
  function ListDeals(s: Store, q: DealsQuery, textMatch: (string, Deal) -> bool): (r: ListResult)
    ensures r.InvalidAccessLevel? <==>
      Truthy(q.filter.accessLevel) && q.filter.accessLevel.value != "public" && q.filter.accessLevel.value != "locked"
    ensures r.Listed? ==> forall i :: 0 <= i < |r.deals| ==> r.deals[i] in s.deals && Matches(r.deals[i], q.filter, textMatch)
    ensures r.Listed? ==> SortedDesc(r.deals, CreatedAt)
    ensures r.Listed? ==>
      && r.pagination.total == |Matching(s, q.filter, textMatch)|
      && r.pagination.limit == EffectiveLimit(q.limit) && r.pagination.limit <= 100
      && r.pagination.skip == EffectiveSkip(q.skip)
      && |r.deals| <= PageSize(r.pagination.limit)
      && |r.deals| == (if r.pagination.skip >= r.pagination.total then 0
                       else Min(PageSize(r.pagination.limit), r.pagination.total - r.pagination.skip))
      && (r.pagination.hasMore <==> r.pagination.skip + |r.deals| < r.pagination.total)
    ensures r.Listed? && r.pagination.skip < r.pagination.total ==>
      && |r.deals| > 0
      && r.pagination.skip + |r.deals| <= r.pagination.total
      && PageAt(r.deals, Ordered(s, q.filter, textMatch), r.pagination.skip)
    ensures r.Listed? && r.pagination.skip >= r.pagination.total ==> r.deals == [] && !r.pagination.hasMore
  {
    if Truthy(q.filter.accessLevel) && ParseAccess(q.filter.accessLevel.value).None? then InvalidAccessLevel
    else
      var ordered := Ordered(s, q.filter, textMatch);
      var r := PageOf(ordered, EffectiveLimit(q.limit), EffectiveSkip(q.skip));
      PageMatches(r.deals, ordered, EffectiveSkip(q.skip), s, q.filter, textMatch);
      r
  }

  /**
   * Paging is consistent with `hasMore`: asking for the next page (skip
   * advanced to `k`, the number of deals seen so far) yields deals exactly
   * when `hasMore` said so.
   */
  lemma NextPage(s: Store, q: DealsQuery, textMatch: (string, Deal) -> bool, k: nat)
    requires ListDeals(s, q, textMatch).Listed?
    requires k == ListDeals(s, q, textMatch).pagination.skip + |ListDeals(s, q, textMatch).deals|
    ensures var next := ListDeals(s, q.(skip := Some(Decimal(k))), textMatch);
      next.Listed? && (|next.deals| > 0 <==> ListDeals(s, q, textMatch).pagination.hasMore)
  {
    SkipOfDecimal(k);
    NextQuery(s, q, q.(skip := Some(Decimal(k))), textMatch);
  }

  /** Any query with the same filter and limit whose skip lands just past a page continues that page. */
  lemma NextQuery(s: Store, q: DealsQuery, q2: DealsQuery, textMatch: (string, Deal) -> bool)
    requires ListDeals(s, q, textMatch).Listed?
    requires q2.filter == q.filter && q2.limit == q.limit
    requires EffectiveSkip(q2.skip) == ListDeals(s, q, textMatch).pagination.skip + |ListDeals(s, q, textMatch).deals|
    ensures var next := ListDeals(s, q2, textMatch);
      next.Listed? && (|next.deals| > 0 <==> ListDeals(s, q, textMatch).pagination.hasMore)
  {
  }

  /** A skip at or past the total returns nothing, though the echoed skip exceeds the count. */
  lemma SkipPastEnd(s: Store, q: DealsQuery, textMatch: (string, Deal) -> bool, k: nat)
    requires !Truthy(q.filter.accessLevel) && k > |Matching(s, q.filter, textMatch)|
    ensures var r := ListDeals(s, q.(skip := Some(Decimal(k))), textMatch);
      r.Listed? && r.deals == [] && r.pagination.skip + |r.deals| > r.pagination.total
  {
    SkipOfDecimal(k);
  }

  /**
   * With no skip and a page large enough, the listing holds exactly the
   * active deals matching every given filter.
   */
  lemma FirstPageIsComplete(s: Store, q: DealsQuery, textMatch: (string, Deal) -> bool, d: Deal)
    requires !Truthy(q.filter.accessLevel) || ParseAccess(q.filter.accessLevel.value).Some?
    requires q.skip.None?
    requires |Matching(s, q.filter, textMatch)| <= PageSize(EffectiveLimit(q.limit))
    ensures var r := ListDeals(s, q, textMatch);
      d in r.deals <==> d in s.deals && Matches(d, q.filter, textMatch)
  {
    var r := ListDeals(s, q, textMatch);
    var ordered := Ordered(s, q.filter, textMatch);
    var matching := Matching(s, q.filter, textMatch);
    if |ordered| > 0 {
      assert r.deals == ordered;
    }
    assert d in ordered <==> d in multiset(ordered);
    assert d in matching <==> d in multiset(matching);
    if d in s.deals && Matches(d, q.filter, textMatch) {
      var k :| 0 <= k < |s.deals| && s.deals[k] == d;
      assert d in matching;
    }
  }

  // ------------------------------------------------------------------- detail

  predicate IsHexDigit(c: char) {
    '0' <= c <= '9' || 'a' <= c <= 'f' || 'A' <= c <= 'F'
  }

  /** The pattern `^[0-9a-fA-F]{24}$`. */
  predicate IsHex24(s: string) {
    |s| == 24 && forall i :: 0 <= i < |s| ==> IsHexDigit(s[i])
  }

  datatype DetailResult = InvalidKey | NotFound | Found(deal: Deal)

  function DetailStatus(r: DetailResult): int {
    match r
    case InvalidKey => 400
    case NotFound => 404
    case Found(_) => 200
  }

  /**
   * `GET /deals/:slugOrId`: the active deal with this slug, else (only for a
   * 24-hex-digit key) the active deal with this `_id`.
   */
  function Detail(s: Store, key: Option<string>): (r: DetailResult)
    ensures r.InvalidKey? <==> !Truthy(key)
    ensures r.Found? ==> r.deal in s.deals && r.deal.isActive
    ensures r.Found? ==> r.deal.slug == key.value || (IsHex24(key.value) && r.deal.id == key.value)
    ensures r.NotFound? <==> Truthy(key) && !Resolvable(s, key.value, IsHex24)
    ensures Truthy(key) && ActiveDealBySlug(s, key.value).Some? ==> r == Found(ActiveDealBySlug(s, key.value).value)
  {
    if !Truthy(key) then InvalidKey
    else
      var bySlug := ActiveDealBySlug(s, key.value);
      var found := if bySlug.Some? then bySlug
                   else if IsHex24(key.value) then ActiveDealById(s, key.value)
                   else None;
      if found.Some? then Found(found.value) else NotFound
  }

  /**
   * The two routes accept the same keys but disagree on priority: when one
   * active deal's `_id` is another's slug, a claim names the first and the
   * detail page shows the second.
   */
  lemma LookupOrderDiffers(s: Store, byId: Deal, bySlug: Deal, idShaped: string -> bool)
    requires Valid(s)
    requires byId in s.deals && bySlug in s.deals && byId.isActive && bySlug.isActive
    requires bySlug.slug == byId.id
    requires idShaped(byId.id)
    ensures ResolveForClaim(s, byId.id, idShaped) == Some(byId)
    ensures Detail(s, Some(byId.id)) == Found(bySlug)
  {
    IdIdentifiesDeal(s, byId);
    SlugIdentifiesDeal(s, bySlug);
    var k :| 0 <= k < |s.deals| && s.deals[k] == byId;
    assert DealWellFormed(s.deals[k]);
  }

  /** Where no key is both a slug and an `_id`, the detail page and a claim find the same deal. */
  lemma LookupsAgreeOtherwise(s: Store, key: string, idShaped: string -> bool)
    requires Valid(s) && |key| > 0
    requires forall i :: 0 <= i < |s.deals| ==> s.deals[i].slug != key || !s.deals[i].isActive
    requires idShaped(key) <==> IsHex24(key)
    ensures Detail(s, Some(key)) == (match ResolveForClaim(s, key, idShaped)
                                    case Some(d) => Found(d)
                                    case None => NotFound)
  {
  }
}
