/**
 * The catalogue page's client-side filtering (`filterDeals`) and its lock
 * badge (`isLocked`). Deals have the shape the web client declares for them:
 * title, description and partnerName are strings. The selectors hold "all"
 * or a category / access level; the search box holds free text.
 */
module DealsPage {
  import opened Basics
  import opened Text
  import opened Seqs

  datatype ClientDeal = ClientDeal(
    id: string,
    title: string,
    slug: string,
    description: string,
    partnerName: string,
    category: string,
    accessLevel: string)

  /** The fields of the signed-in user the page reads. */
  datatype ClientUser = ClientUser(email: string, name: Option<string>, isVerified: bool)

  /** The lower-cased query occurs in the lower-cased title, description or partner name. */
  predicate SearchHit(d: ClientDeal, query: string) {
    var q := Lower(query);
    Contains(Lower(d.title), q) || Contains(Lower(d.description), q) || Contains(Lower(d.partnerName), q)
  }

  /** Each stage's test, which passes everything when its control is empty or "all". */
  function SearchStage(query: string): ClientDeal -> bool {
    (d: ClientDeal) => |query| == 0 || SearchHit(d, query)
  }

  function CategoryStage(category: string): ClientDeal -> bool {
    (d: ClientDeal) => category == "all" || d.category == category
  }

  function AccessStage(access: string): ClientDeal -> bool {
    (d: ClientDeal) => access == "all" || d.accessLevel == access
  }

  /** All three controls at once. */
  predicate Keep(d: ClientDeal, query: string, category: string, access: string) {
    SearchStage(query)(d) && CategoryStage(category)(d) && AccessStage(access)(d)
  }

  /** One stage of `filterDeals`: the deals passing `p` when its control is set, all of them otherwise. */
  function Stage(xs: seq<ClientDeal>, on: bool, p: ClientDeal -> bool): (r: seq<ClientDeal>)
    ensures forall d :: d in r ==> d in xs && (on ==> p(d))
  {
    if on then Filter(xs, p) else xs
  }

  /** `filterDeals`: search, then category, then access level, each applied only when set. */
  function FilterDeals(deals: seq<ClientDeal>, query: string, category: string, access: string): (r: seq<ClientDeal>)
    ensures forall i :: 0 <= i < |r| ==> r[i] in deals
    ensures |query| > 0 ==> forall i :: 0 <= i < |r| ==> SearchHit(r[i], query)
    ensures category != "all" ==> forall i :: 0 <= i < |r| ==> r[i].category == category
    ensures access != "all" ==> forall i :: 0 <= i < |r| ==> r[i].accessLevel == access
  {
    var afterSearch := Stage(deals, |query| > 0, SearchStage(query));
    var afterCategory := Stage(afterSearch, category != "all", CategoryStage(category));
    Stage(afterCategory, access != "all", AccessStage(access))
  }

  /** A stage that is switched off is the same as filtering with its always-true test. */
  lemma StageIsFilter(xs: seq<ClientDeal>, on: bool, p: ClientDeal -> bool)
    requires !on ==> forall d :: p(d)
    ensures Stage(xs, on, p) == Filter(xs, p)
  {
    if !on {
      FilterAll(xs, p);
    }
  }

  /**
   * The result is exactly the deals passing all three tests, in fetched
   * order: the order in which the filters are applied does not matter.
   */
  lemma FilterIsConjunction(deals: seq<ClientDeal>, query: string, category: string, access: string)
    ensures FilterDeals(deals, query, category, access)
         == Filter(deals, (d: ClientDeal) => Keep(d, query, category, access))
  {
    var s := SearchStage(query);
    var c := CategoryStage(category);
    var a := AccessStage(access);
    StageIsFilter(deals, |query| > 0, s);
    var afterSearch := Filter(deals, s);
    StageIsFilter(afterSearch, category != "all", c);
    var sc := (d: ClientDeal) => s(d) && c(d);
    FilterTwice(deals, s, c, sc);
    var afterCategory := Filter(deals, sc);
    StageIsFilter(afterCategory, access != "all", a);
    FilterTwice(deals, sc, a, (d: ClientDeal) => Keep(d, query, category, access));
  }

  /** The filtered list keeps the fetched order, and every deal passing the controls is kept. */
  lemma FilterKeepsOrderAndCompleteness(deals: seq<ClientDeal>, query: string, category: string, access: string)
    ensures IsSubsequence(FilterDeals(deals, query, category, access), deals)
    ensures forall i :: 0 <= i < |deals| && Keep(deals[i], query, category, access) ==>
      deals[i] in FilterDeals(deals, query, category, access)
  {
    FilterIsConjunction(deals, query, category, access);
    FilterIsSubsequence(deals, (d: ClientDeal) => Keep(d, query, category, access));
  }

  /** "Clear filters" (empty search, both selectors on "all") shows every fetched deal. */
  lemma ClearedFiltersShowAll(deals: seq<ClientDeal>)
    ensures FilterDeals(deals, "", "all", "all") == deals
  {
  }

  /** `isLocked`: a locked deal, and no signed-in user or one who is not verified. */
  predicate IsLocked(d: ClientDeal, user: Option<ClientUser>) {
    d.accessLevel == "locked" && !(user.Some? && user.value.isVerified)
  }

  /** Only a locked deal is ever shown locked, and a verified user sees none locked. */
  lemma LockedOnlyForUnverified(d: ClientDeal, user: Option<ClientUser>)
    ensures IsLocked(d, user) ==> d.accessLevel == "locked"
    ensures user.Some? && user.value.isVerified ==> !IsLocked(d, user)
    ensures d.accessLevel == "locked" && user.None? ==> IsLocked(d, user)
  {
  }
}
