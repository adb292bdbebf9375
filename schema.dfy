/**
 * The three record shapes of `shared/schema.ts`: organizations, policy sections and
 * generated policies, each with the insert shape that omits the store-assigned `id`.
 * Text columns are strings, nullable columns are `Option`s, and the two text enums
 * are datatypes with their parse and print functions.
 */
module Schema {
  import opened Optional
  import opened Seqs

  /** The `accounting_type` enum. */
  datatype AccountingType = Budget | Accounting

  /** The `status` enum of a generated policy. */
  datatype PolicyStatus = Draft | Approved

  function AccountingTypeName(t: AccountingType): (s: string)
    ensures ParseAccountingType(s) == Some(t)
  {
    match t
    case Budget => "budget"
    case Accounting => "accounting"
  }

  /** The enum check on `accounting_type`: only the two literals are accepted. */
  function ParseAccountingType(s: string): (r: Option<AccountingType>)
    ensures r.Some? <==> s == "budget" || s == "accounting"
    ensures s == "budget" ==> r == Some(Budget)
    ensures s == "accounting" ==> r == Some(Accounting)
  {
    if s == "budget" then Some(Budget)
    else if s == "accounting" then Some(Accounting)
    else None
  }

  function PolicyStatusName(t: PolicyStatus): (s: string)
    ensures ParsePolicyStatus(s) == Some(t)
  {
    match t
    case Draft => "draft"
    case Approved => "approved"
  }

  /** The enum check on `status`: only the two literals are accepted. */
  function ParsePolicyStatus(s: string): (r: Option<PolicyStatus>)
    ensures r.Some? <==> s == "draft" || s == "approved"
    ensures s == "draft" ==> r == Some(Draft)
    ensures s == "approved" ==> r == Some(Approved)
  {
    if s == "draft" then Some(Draft)
    else if s == "approved" then Some(Approved)
    else None
  }

  /** A stored organization. `industry` is the only nullable column. */
  datatype Organization = Organization(
    id: int,
    name: string,
    inn: string,
    kpp: string,
    accountingType: AccountingType,
    industry: Option<string>,
    centralizedOffice: string)

  /** The organization insert shape: every column but `id`. */
  datatype InsertOrganization = InsertOrganization(
    name: string,
    inn: string,
    kpp: string,
    accountingType: AccountingType,
    industry: Option<string>,
    centralizedOffice: string)

  /** The insert record the store received for an organization: the row without its `id`. */
  function OrganizationInsert(o: Organization): InsertOrganization {
    InsertOrganization(o.name, o.inn, o.kpp, o.accountingType, o.industry, o.centralizedOffice)
  }

  /** The row stored for an insert record once the store has chosen its id. */
  function OrganizationWithId(ins: InsertOrganization, id: int): (o: Organization)
    ensures o.id == id && OrganizationInsert(o) == ins
  {
    Organization(id, ins.name, ins.inn, ins.kpp, ins.accountingType, ins.industry, ins.centralizedOffice)
  }

  /** A catalog section. `industries` is a nullable text array. */
  datatype PolicySection = PolicySection(
    id: int,
    sectionNumber: string,
    title: string,
    content: string,
    budgetAccounting: bool,
    businessAccounting: bool,
    industrySpecific: bool,
    industries: Option<seq<string>>)

  /** The section insert shape: the three flags may be left out and then take their default. */
  datatype InsertPolicySection = InsertPolicySection(
    sectionNumber: string,
    title: string,
    content: string,
    budgetAccounting: Option<bool>,
    businessAccounting: Option<bool>,
    industrySpecific: Option<bool>,
    industries: Option<seq<string>>)

  /** A flag column with `default(false)`. */
  function FlagOrDefault(b: Option<bool>): bool {
    match b
    case None => false
    case Some(v) => v
  }

  /** The row stored for a section insert: flags left out become false, a left-out `industries` stays null. */
  function SectionWithId(ins: InsertPolicySection, id: int): (s: PolicySection)
    ensures s.id == id && s.sectionNumber == ins.sectionNumber && s.title == ins.title && s.content == ins.content
    ensures ins.budgetAccounting.None? ==> !s.budgetAccounting
    ensures ins.businessAccounting.None? ==> !s.businessAccounting
    ensures ins.industrySpecific.None? ==> !s.industrySpecific
    ensures ins.budgetAccounting.Some? ==> s.budgetAccounting == ins.budgetAccounting.value
    ensures ins.businessAccounting.Some? ==> s.businessAccounting == ins.businessAccounting.value
    ensures ins.industrySpecific.Some? ==> s.industrySpecific == ins.industrySpecific.value
    ensures s.industries == ins.industries
  {
    PolicySection(id, ins.sectionNumber, ins.title, ins.content,
      FlagOrDefault(ins.budgetAccounting), FlagOrDefault(ins.businessAccounting),
      FlagOrDefault(ins.industrySpecific), ins.industries)
  }

  /** A stored generated policy: an organization reference, an ordered id list, a date and a status. */
  datatype GeneratedPolicy = GeneratedPolicy(
    id: int,
    organizationId: int,
    selectedSections: seq<int>,
    generatedDate: string,
    status: PolicyStatus)

  /** The generated-policy insert shape: every column but `id`. */
  datatype InsertGeneratedPolicy = InsertGeneratedPolicy(
    organizationId: int,
    selectedSections: seq<int>,
    generatedDate: string,
    status: PolicyStatus)

  /** The insert record the store received for a generated policy. */
  function PolicyInsert(p: GeneratedPolicy): InsertGeneratedPolicy {
    InsertGeneratedPolicy(p.organizationId, p.selectedSections, p.generatedDate, p.status)
  }

  /** The row stored for a generated-policy insert once the store has chosen its id. */
  function PolicyWithId(ins: InsertGeneratedPolicy, id: int): (p: GeneratedPolicy)
    ensures p.id == id && PolicyInsert(p) == ins
  {
    GeneratedPolicy(id, ins.organizationId, ins.selectedSections, ins.generatedDate, ins.status)
  }

  /** `sections.map(s => s.id)`. */
  function Ids(sections: seq<PolicySection>): (r: seq<int>)
    ensures |r| == |sections|
    ensures forall i :: 0 <= i < |sections| ==> r[i] == sections[i].id
  {
    seq(|sections|, i requires 0 <= i < |sections| => sections[i].id)
  }

  /** An id occurs in `Ids(sections)` exactly when some section carries it. */
  lemma IdsMembership(sections: seq<PolicySection>, id: int)
    ensures id in Ids(sections) <==> exists s :: s in sections && s.id == id
  {
    var ids := Ids(sections);
    if id in ids {
      var k :| 0 <= k < |ids| && ids[k] == id;
      assert sections[k] in sections;
    }
    if exists s :: s in sections && s.id == id {
      var s :| s in sections && s.id == id;
      var k :| 0 <= k < |sections| && sections[k] == s;
      assert ids[k] == id;
    }
  }

  /** The test "this record has primary key `id`", shared by every lookup by id. */
  function OrganizationHasId(id: int): Organization -> bool {
    (o: Organization) => o.id == id
  }

  function PolicyHasId(id: int): GeneratedPolicy -> bool {
    (p: GeneratedPolicy) => p.id == id
  }

  /** The first organization whose id is `id` (`organizations.find(org => org.id === id)`). */
  function FindOrganization(organizations: seq<Organization>, id: int): (r: Option<Organization>)
    ensures r.Some? ==> r.value in organizations && r.value.id == id
    ensures r.None? <==> forall o :: o in organizations ==> o.id != id
    ensures r.Some? ==> exists i :: 0 <= i < |organizations| && organizations[i] == r.value
                                 && forall k :: 0 <= k < i ==> organizations[k].id != id
  {
    FindFirst(organizations, OrganizationHasId(id))
  }

  /** The first generated policy whose id is `id`. */
  function FindPolicy(policies: seq<GeneratedPolicy>, id: int): (r: Option<GeneratedPolicy>)
    ensures r.Some? ==> r.value in policies && r.value.id == id
    ensures r.None? <==> forall p :: p in policies ==> p.id != id
    ensures r.Some? ==> exists i :: 0 <= i < |policies| && policies[i] == r.value
                                 && forall k :: 0 <= k < i ==> policies[k].id != id
  {
    FindFirst(policies, PolicyHasId(id))
  }

  /** The test "this section's id is one of `ids`" (`ids.includes(section.id)`). */
  function SectionIdIn(ids: seq<int>): PolicySection -> bool {
    (s: PolicySection) => s.id in ids
  }

  /**
   * `sections.filter(s => ids.includes(s.id))`: the sections whose id is listed, in the order
   * of `sections`, each at most as often as it occurs there, whatever the order or the
   * repetitions in `ids`.
   */
  function SectionsWithIds(sections: seq<PolicySection>, ids: seq<int>): (r: seq<PolicySection>)
    ensures forall s :: s in r <==> s in sections && s.id in ids
    ensures IsSubsequence(r, sections)
    ensures forall s :: multiset(r)[s] == if s.id in ids then multiset(sections)[s] else 0
  {
    FilterIsSubsequence(sections, SectionIdIn(ids));
    forall s ensures multiset(Filter(sections, SectionIdIn(ids)))[s] == if s.id in ids then multiset(sections)[s] else 0 {
      FilterMultiplicity(sections, SectionIdIn(ids), s);
    }
    Filter(sections, SectionIdIn(ids))
  }
}
