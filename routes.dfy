/**
 * The request handlers of `server/routes.ts`, as methods that take the store the router
 * was created with. Each handler is specified by a function of the store's tables and the
 * request; the properties the handlers promise are stated about those functions.
 *
 * Query strings are `Option<string>`: `None` is an absent parameter. Both handlers test
 * their parameter for truthiness, so an empty string behaves as an absent one. A path id
 * is `Option<int>`: `None` is a value that `parseInt` turns into `NaN`.
 */
module Routes {
  import opened Optional
  import opened Seqs
  import opened Schema
  import opened Storage

  /** The error responses: 400 with `error`, 404 with `error`, and 400 with `invalidIds`. */
  datatype ApiError =
    | BadRequest(error: string)
    | NotFound(error: string)
    | InvalidSectionIds(error: string, invalidIds: seq<int>)
  {
    function Status(): int {
      if NotFound? then 404 else 400
    }
  }

  datatype Result<T> = Ok(value: T) | Err(failure: ApiError)

  /** A query parameter that the handler acts on: present and not the empty string. */
  predicate QueryGiven(q: Option<string>) {
    q.Some? && q.value != ""
  }

  // ---------------------------------------------------------------------------
  // GET /api/policy-sections

  /** The accounting-type filter's test of one section. */
  predicate AccountingTypeKeeps(accountingType: string, s: PolicySection) {
    if accountingType == "budget" then s.budgetAccounting
    else if accountingType == "accounting" then s.businessAccounting
    else true
  }

  /** The industry filter's test of one section: a null `industries` list never matches. */
  predicate IndustryKeeps(industry: string, s: PolicySection) {
    if !s.industrySpecific then true
    else s.industries.Some? && industry in s.industries.value
  }

  /** A section passes every stage whose parameter is given. */
  predicate PassesStages(accountingType: Option<string>, industry: Option<string>, s: PolicySection) {
    && (QueryGiven(accountingType) ==> AccountingTypeKeeps(accountingType.value, s))
    && (QueryGiven(industry) ==> IndustryKeeps(industry.value, s))
  }

  /** One filter stage: it keeps everything when its parameter is not given. */
  function AccountingTypeStage(q: Option<string>): PolicySection -> bool {
    (s: PolicySection) => !QueryGiven(q) || AccountingTypeKeeps(q.value, s)
  }

  function IndustryStage(q: Option<string>): PolicySection -> bool {
    (s: PolicySection) => !QueryGiven(q) || IndustryKeeps(q.value, s)
  }

  /**
   * The response of `/api/policy-sections`: the catalog passed through the accounting-type
   * stage and then the industry stage. A section is returned exactly when it passes every
   * stage whose parameter is given, and the result keeps the catalog's order.
   */
  function FilterSections(catalog: seq<PolicySection>, accountingType: Option<string>, industry: Option<string>)
    : (r: seq<PolicySection>)
    ensures forall s :: s in r <==>
      && s in catalog
      && (QueryGiven(accountingType) ==> AccountingTypeKeeps(accountingType.value, s))
      && (QueryGiven(industry) ==> IndustryKeeps(industry.value, s))
    ensures IsSubsequence(r, catalog)
    ensures accountingType == Some("budget") ==> forall s :: s in r ==> s.budgetAccounting
    ensures accountingType == Some("accounting") ==> forall s :: s in r ==> s.businessAccounting
    ensures forall s :: multiset(r)[s] == if PassesStages(accountingType, industry, s) then multiset(catalog)[s] else 0
  {
    var once := Filter(catalog, AccountingTypeStage(accountingType));
    var twice := Filter(once, IndustryStage(industry));
    forall s ensures multiset(twice)[s] == if PassesStages(accountingType, industry, s) then multiset(catalog)[s] else 0
    {
      FilterMultiplicity(catalog, AccountingTypeStage(accountingType), s);
      FilterMultiplicity(once, IndustryStage(industry), s);
    }
    FilterIsSubsequence(catalog, AccountingTypeStage(accountingType));
    FilterIsSubsequence(once, IndustryStage(industry));
    SubsequenceTransitive(twice, once, catalog);
    twice
  }

  /** With neither parameter given, the whole catalog is returned unchanged. */
  lemma NoQueryKeepsCatalog(catalog: seq<PolicySection>, accountingType: Option<string>, industry: Option<string>)
    requires !QueryGiven(accountingType) && !QueryGiven(industry)
    ensures FilterSections(catalog, accountingType, industry) == catalog
  {
    FilterAll(catalog, AccountingTypeStage(accountingType));
    FilterAll(catalog, IndustryStage(industry));
  }

  /** An accounting type other than the two enum literals filters nothing out. */
  lemma UnknownAccountingTypeKeepsAll(catalog: seq<PolicySection>, accountingType: Option<string>, industry: Option<string>)
    requires QueryGiven(accountingType)
    requires accountingType.value != "budget" && accountingType.value != "accounting"
    ensures FilterSections(catalog, accountingType, industry) == FilterSections(catalog, None, industry)
  {
    FilterAll(catalog, AccountingTypeStage(accountingType));
    FilterAll(catalog, AccountingTypeStage(None));
  }

  /** The handler: `sections` is reassigned by each filter whose parameter is given. */
  method GetPolicySections(store: Store, accountingType: Option<string>, industry: Option<string>)
    returns (sections: seq<PolicySection>)
    ensures sections == FilterSections(store.policySections, accountingType, industry)
  {
    sections := store.policySections;
    if QueryGiven(accountingType) {
      var a := accountingType.value;
      FilterEquivalent(sections, (s: PolicySection) => AccountingTypeKeeps(a, s), AccountingTypeStage(accountingType));
      sections := Filter(sections, (s: PolicySection) => AccountingTypeKeeps(a, s));
    } else {
      FilterAll(sections, AccountingTypeStage(accountingType));
    }
    if QueryGiven(industry) {
      var i := industry.value;
      FilterEquivalent(sections, (s: PolicySection) => IndustryKeeps(i, s), IndustryStage(industry));
      sections := Filter(sections, (s: PolicySection) => IndustryKeeps(i, s));
    } else {
      FilterAll(sections, IndustryStage(industry));
    }
  }

  // ---------------------------------------------------------------------------
  // GET /api/organizations/:id

  /** The handler: 400 for an id that does not parse, 404 for an unknown id, else the row. */
  method GetOrganization(store: Store, rawId: Option<int>) returns (r: Result<Organization>)
    ensures rawId.None? ==> r == Err(BadRequest("Invalid organization ID"))
    ensures rawId.Some? ==>
      (r.Ok? <==> exists o :: o in store.organizations && o.id == rawId.value)
    ensures rawId.Some? && r.Err? ==> r == Err(NotFound("Organization not found"))
    ensures r.Ok? ==> r.value in store.organizations && r.value.id == rawId.value
  {
    if rawId.None? {
      return Err(BadRequest("Invalid organization ID"));
    }
    var organization := store.GetOrganization(rawId.value);
    if organization.None? {
      return Err(NotFound("Organization not found"));
    }
    r := Ok(organization.value);
  }

  // ---------------------------------------------------------------------------
  // POST /api/generated-policies

  function NotIn(ids: seq<int>): int -> bool {
    (id: int) => id !in ids
  }

  /**
   * `invalidIds`: the submitted ids that no catalog section carries, in submitted order,
   * with repetitions kept.
   */
  function InvalidIds(selected: seq<int>, catalog: seq<PolicySection>): (r: seq<int>)
    ensures forall id :: id in r <==> id in selected && id !in Ids(catalog)
    ensures IsSubsequence(r, selected)
  {
    FilterIsSubsequence(selected, NotIn(Ids(catalog)));
    Filter(selected, NotIn(Ids(catalog)))
  }

  /** Each invalid id is reported as many times as it was submitted; valid ids never are. */
  lemma InvalidIdsMultiplicity(selected: seq<int>, catalog: seq<PolicySection>, id: int)
    ensures multiset(InvalidIds(selected, catalog))[id] ==
      if id in Ids(catalog) then 0 else multiset(selected)[id]
  {
    FilterMultiplicity(selected, NotIn(Ids(catalog)), id);
  }

  /**
   * Why a creation request is refused, or `None` when it is accepted. The organization is
   * checked first, and when it does not resolve the section ids are not looked at.
   */
  function PolicyRejection(organizations: seq<Organization>, catalog: seq<PolicySection>, ins: InsertGeneratedPolicy)
    : (r: Option<ApiError>)
    ensures FindOrganization(organizations, ins.organizationId).None? ==>
      r == Some(BadRequest("Organization not found"))
    ensures FindOrganization(organizations, ins.organizationId).Some? ==>
      (r.None? <==> forall id :: id in ins.selectedSections ==> id in Ids(catalog))
    ensures FindOrganization(organizations, ins.organizationId).Some? && r.Some? ==>
      r.value == InvalidSectionIds("Invalid policy section IDs", InvalidIds(ins.selectedSections, catalog))
    ensures r.Some? ==> r.value.Status() == 400
  {
    if FindOrganization(organizations, ins.organizationId).None? then
      Some(BadRequest("Organization not found"))
    else
      var invalid := InvalidIds(ins.selectedSections, catalog);
      if |invalid| > 0 then
        var bad := invalid[0];
        assert bad in invalid;
        assert bad in ins.selectedSections && bad !in Ids(catalog);
        Some(InvalidSectionIds("Invalid policy section IDs", invalid))
      else
        assert forall id :: id in ins.selectedSections ==> id in Ids(catalog) by {
          forall id | id in ins.selectedSections ensures id in Ids(catalog) {
            assert id !in invalid;
          }
        }
        None
  }

  /**
   * The handler. A refused request stores nothing; an accepted one appends exactly one
   * policy that carries the submitted fields unchanged under a fresh id.
   */
  method PostGeneratedPolicy(store: Store, ins: InsertGeneratedPolicy) returns (r: Result<GeneratedPolicy>)
    requires store.Valid()
    modifies store
    ensures store.Valid()
    ensures var rejection := PolicyRejection(old(store.organizations), old(store.policySections), ins);
      && (rejection.Some? ==> r == Err(rejection.value) && unchanged(store))
      && (rejection.None? ==>
            && r == Ok(PolicyWithId(ins, old(store.nextPolicyId)))
            && FindPolicy(old(store.generatedPolicies), r.value.id).None?
            && store.generatedPolicies == old(store.generatedPolicies) + [r.value]
            && store.organizations == old(store.organizations)
            && store.policySections == old(store.policySections)
            && store.nextOrganizationId == old(store.nextOrganizationId)
            && store.nextPolicyId == old(store.nextPolicyId) + 1)
  {
    var organization := store.GetOrganization(ins.organizationId);
    if organization.None? {
      return Err(BadRequest("Organization not found"));
    }
    var allSections := store.policySections;
    var invalidSections := InvalidIds(ins.selectedSections, allSections);
    if |invalidSections| > 0 {
      return Err(InvalidSectionIds("Invalid policy section IDs", invalidSections));
    }
    var policy := store.CreateGeneratedPolicy(ins);
    r := Ok(policy);
  }

  // ---------------------------------------------------------------------------
  // GET /api/generated-policies/:id

  /** The detail response: the policy, its organization and its resolved sections. */
  datatype PolicyDetail = PolicyDetail(policy: GeneratedPolicy, organization: Organization, sections: seq<PolicySection>)

  /**
   * The detail lookup: 400 for an id that does not parse, 404 for an unknown policy,
   * 404 for a policy whose organization does not resolve, in that order; otherwise the
   * join, whose sections are the catalog entries the policy lists.
   */
  function Detail(organizations: seq<Organization>, catalog: seq<PolicySection>, policies: seq<GeneratedPolicy>, rawId: Option<int>)
    : (r: Result<PolicyDetail>)
    ensures rawId.None? ==> r == Err(BadRequest("Invalid policy ID"))
    ensures rawId.Some? && FindPolicy(policies, rawId.value).None? ==>
      r == Err(NotFound("Generated policy not found"))
    ensures rawId.Some? && FindPolicy(policies, rawId.value).Some? ==>
      var policy := FindPolicy(policies, rawId.value).value;
      FindOrganization(organizations, policy.organizationId).None? ==>
        r == Err(NotFound("Associated organization not found"))
    ensures r.Ok? <==>
      && rawId.Some? && FindPolicy(policies, rawId.value).Some?
      && FindOrganization(organizations, FindPolicy(policies, rawId.value).value.organizationId).Some?
    ensures r.Ok? ==>
      && Some(r.value.policy) == FindPolicy(policies, rawId.value)
      && Some(r.value.organization) == FindOrganization(organizations, r.value.policy.organizationId)
    ensures r.Ok? ==>
      && r.value.policy in policies && r.value.policy.id == rawId.value
      && r.value.organization in organizations
      && r.value.organization.id == r.value.policy.organizationId
      && r.value.sections == SectionsWithIds(catalog, r.value.policy.selectedSections)
  {
    match rawId
    case None => Err(BadRequest("Invalid policy ID"))
    case Some(id) =>
      match FindPolicy(policies, id)
      case None => Err(NotFound("Generated policy not found"))
      case Some(policy) =>
        match FindOrganization(organizations, policy.organizationId)
        case None => Err(NotFound("Associated organization not found"))
        case Some(organization) =>
          Ok(PolicyDetail(policy, organization, SectionsWithIds(catalog, policy.selectedSections)))
  }

  /**
   * The ids of the resolved sections are the listed ids that the catalog still has: ids
   * that no longer resolve are dropped without an error.
   */
  lemma ResolvedIds(catalog: seq<PolicySection>, selected: seq<int>)
    ensures forall id :: id in Ids(SectionsWithIds(catalog, selected)) <==> id in selected && id in Ids(catalog)
  {
    var r := SectionsWithIds(catalog, selected);
    forall id ensures id in Ids(r) <==> id in selected && id in Ids(catalog) {
      IdsMembership(r, id);
      IdsMembership(catalog, id);
    }
  }

  /** When catalog ids are distinct, no section appears twice in a detail response. */
  lemma ResolvedSectionsDistinct(catalog: seq<PolicySection>, selected: seq<int>)
    requires NoDup(Ids(catalog))
    ensures NoDup(Ids(SectionsWithIds(catalog, selected)))
  {
    IdsSubsequence(SectionsWithIds(catalog, selected), catalog);
    NoDupSubsequence(Ids(SectionsWithIds(catalog, selected)), Ids(catalog));
  }

  /** A subsequence of sections has a subsequence of ids. */
  lemma {:induction false} IdsSubsequence(a: seq<PolicySection>, b: seq<PolicySection>)
    requires IsSubsequence(a, b)
    ensures IsSubsequence(Ids(a), Ids(b))
    decreases |b|
  {
    if a != [] {
      assert b != [];
      assert Ids(a)[1..] == Ids(a[1..]) && Ids(b)[1..] == Ids(b[1..]);
      if a[0] == b[0] {
        IdsSubsequence(a[1..], b[1..]);
      } else {
        IdsSubsequence(a, b[1..]);
        SubsequenceCons(Ids(a), Ids(b)[0], Ids(b[1..]));
        assert [Ids(b)[0]] + Ids(b[1..]) == Ids(b);
      }
    }
  }

  /**
   * Round trip: right after an accepted creation, the detail lookup of the new id returns
   * that policy, its organization, and sections whose ids are exactly the submitted ones.
   */
  lemma CreatedPolicyDetail(organizations: seq<Organization>, catalog: seq<PolicySection>,
                            policies: seq<GeneratedPolicy>, nextId: int, ins: InsertGeneratedPolicy)
    requires forall p :: p in policies ==> p.id != nextId
    requires PolicyRejection(organizations, catalog, ins).None?
    ensures var created := PolicyWithId(ins, nextId);
      var d := Detail(organizations, catalog, policies + [created], Some(nextId));
      && d.Ok? && d.value.policy == created
      && d.value.organization.id == ins.organizationId
      && forall id :: id in Ids(d.value.sections) <==> id in ins.selectedSections
  {
    var created := PolicyWithId(ins, nextId);
    var all := policies + [created];
    FindIndexAppend(policies, created, PolicyHasId(nextId));
    assert all[|policies|] == created;
    assert FindPolicy(all, nextId) == Some(created);
    ResolvedIds(catalog, ins.selectedSections);
  }

  /** The handler, step by step as the source performs the lookups. */
  method GetGeneratedPolicy(store: Store, rawId: Option<int>) returns (r: Result<PolicyDetail>)
    ensures r == Detail(store.organizations, store.policySections, store.generatedPolicies, rawId)
    ensures store.Valid() && r.Ok? ==> NoDup(Ids(r.value.sections))
  {
    if rawId.None? {
      return Err(BadRequest("Invalid policy ID"));
    }
    var policy := store.GetGeneratedPolicy(rawId.value);
    if policy.None? {
      return Err(NotFound("Generated policy not found"));
    }
    var organization := store.GetOrganization(policy.value.organizationId);
    if organization.None? {
      return Err(NotFound("Associated organization not found"));
    }
    var allSections := store.policySections;
    var selectedSections := SectionsWithIds(allSections, policy.value.selectedSections);
    if store.Valid() {
      ResolvedSectionsDistinct(allSections, policy.value.selectedSections);
    }
    r := Ok(PolicyDetail(policy.value, organization.value, selectedSections));
  }

  /** A client of the two policy handlers: what is created can be fetched back. */
  method CreateThenFetch(store: Store, ins: InsertGeneratedPolicy)
    returns (created: Result<GeneratedPolicy>, fetched: Result<PolicyDetail>)
    requires store.Valid()
    modifies store
    ensures created.Ok? ==>
      && fetched.Ok? && fetched.value.policy == created.value
      && PolicyInsert(created.value) == ins
      && forall id :: id in Ids(fetched.value.sections) <==> id in ins.selectedSections
    ensures created.Err? ==> unchanged(store)
  {
    ghost var orgs, catalog, policies := store.organizations, store.policySections, store.generatedPolicies;
    ghost var nextId := store.nextPolicyId;
    assert forall p :: p in policies ==> p.id != nextId by {
      forall p | p in policies ensures p.id != nextId {
        var k :| 0 <= k < |policies| && policies[k] == p;
        assert PolicyIds(policies)[k] == p.id;
      }
    }
    created := PostGeneratedPolicy(store, ins);
    if created.Ok? {
      fetched := GetGeneratedPolicy(store, Some(created.value.id));
      CreatedPolicyDetail(orgs, catalog, policies, nextId, ins);
    } else {
      fetched := Err(NotFound("Generated policy not found"));
    }
  }
}
