/**
 * The policy wizard of `client/src/pages/Wizard.tsx`: the rule that decides which catalog
 * sections apply to the selected organization, and the four-step page state that the
 * Next, Previous, Generate and checkbox handlers update.
 *
 * The shared query function builds its URL from the first query-key element only, so the
 * wizard's section query never sends its filter parameters and receives the whole catalog;
 * the applicability rule below is what decides what the user sees.
 */
module Wizard {
  import opened Optional
  import opened Seqs
  import opened Schema
  import opened Toasts
  import Routes

  /** The page's `WizardState`. */
  datatype WizardState = WizardState(organizationId: Option<int>, selectedSections: seq<int>, isNewOrganization: bool)

  /** JavaScript truthiness of `organizationId`: null and 0 both count as "none chosen". */
  predicate HasOrganization(st: WizardState) {
    st.organizationId.Some? && st.organizationId.value != 0
  }

  /** `organizations.find(org => org.id === wizardState.organizationId)`: a null id matches nothing. */
  function SelectedOrganization(organizations: seq<Organization>, organizationId: Option<int>): (r: Option<Organization>)
    ensures organizationId.None? ==> r.None?
    ensures r.Some? ==> r.value in organizations && Some(r.value.id) == organizationId
    ensures organizationId.Some? ==> r == FindOrganization(organizations, organizationId.value)
  {
    if organizationId.None? then None else FindOrganization(organizations, organizationId.value)
  }

  // ---------------------------------------------------------------------------
  // Applicability

  predicate MatchesAccountingType(org: Organization, s: PolicySection) {
    || (org.accountingType == Budget && s.budgetAccounting)
    || (org.accountingType == Accounting && s.businessAccounting)
  }

  /** `selectedOrg.industry || ''`: a null industry and an empty one both become "". */
  function IndustryOrEmpty(org: Organization): string {
    if org.industry.Some? then org.industry.value else ""
  }

  predicate IsApplicable(selectedOrg: Option<Organization>, s: PolicySection) {
    if selectedOrg.None? then false
    else if !s.industrySpecific then MatchesAccountingType(selectedOrg.value, s)
    else
      && MatchesAccountingType(selectedOrg.value, s)
      && s.industries.Some?
      && IndustryOrEmpty(selectedOrg.value) in s.industries.value
  }

  function ApplicableStage(selectedOrg: Option<Organization>): PolicySection -> bool {
    (s: PolicySection) => IsApplicable(selectedOrg, s)
  }

  /**
   * `applicableSections`: nothing without an organization; otherwise, in catalog order,
   * the sections that match the organization's accounting type and, when industry-specific,
   * list its industry.
   */
  function ApplicableSections(selectedOrg: Option<Organization>, allSections: seq<PolicySection>)
    : (r: seq<PolicySection>)
    ensures selectedOrg.None? ==> r == []
    ensures IsSubsequence(r, allSections)
    ensures forall s :: s in allSections && !s.industrySpecific ==>
      (s in r <==> selectedOrg.Some? && MatchesAccountingType(selectedOrg.value, s))
    ensures forall s :: s in allSections && s.industrySpecific ==>
      (s in r <==> && selectedOrg.Some? && MatchesAccountingType(selectedOrg.value, s)
                   && s.industries.Some? && IndustryOrEmpty(selectedOrg.value) in s.industries.value)
    ensures forall s :: s in r ==> s in allSections
    ensures forall s :: multiset(r)[s] == if IsApplicable(selectedOrg, s) then multiset(allSections)[s] else 0
  {
    var r := Filter(allSections, ApplicableStage(selectedOrg));
    FilterIsSubsequence(allSections, ApplicableStage(selectedOrg));
    forall s ensures multiset(r)[s] == if IsApplicable(selectedOrg, s) then multiset(allSections)[s] else 0 {
      FilterMultiplicity(allSections, ApplicableStage(selectedOrg), s);
    }
    if selectedOrg.None? then
      FilterNone(allSections, ApplicableStage(selectedOrg));
      r
    else
      r
  }

  /** A section suited to neither accounting type applies to no organization. */
  lemma NoFlagNeverApplicable(selectedOrg: Option<Organization>, allSections: seq<PolicySection>, s: PolicySection)
    requires !s.budgetAccounting && !s.businessAccounting
    ensures s !in ApplicableSections(selectedOrg, allSections)
  {
  }

  /**
   * Every section the wizard shows also passes the server's section filter for the same
   * accounting type and industry, so the wizard's list is a subsequence of the server's.
   */
  lemma ApplicableWithinServerFilter(org: Organization, allSections: seq<PolicySection>)
    ensures IsSubsequence(ApplicableSections(Some(org), allSections),
                          Routes.FilterSections(allSections, Some(AccountingTypeName(org.accountingType)), org.industry))
  {
    var accountingType := Some(AccountingTypeName(org.accountingType));
    forall s: PolicySection | ApplicableStage(Some(org))(s)
      ensures Routes.AccountingTypeStage(accountingType)(s) && Routes.IndustryStage(org.industry)(s)
    {
      if Routes.QueryGiven(org.industry) {
        assert IndustryOrEmpty(org) == org.industry.value;
      }
    }
    FilterChainSubsequence(allSections, ApplicableStage(Some(org)),
      Routes.AccountingTypeStage(accountingType), Routes.IndustryStage(org.industry));
  }

  /** `selectedSectionDetails`: the applicable sections whose ids are selected, in catalog order. */
  function SelectedSectionDetails(selectedOrg: Option<Organization>, allSections: seq<PolicySection>, selected: seq<int>)
    : (r: seq<PolicySection>)
    ensures forall s :: s in r <==> s in allSections && IsApplicable(selectedOrg, s) && s.id in selected
    ensures IsSubsequence(r, ApplicableSections(selectedOrg, allSections))
  {
    SectionsWithIds(ApplicableSections(selectedOrg, allSections), selected)
  }

  // ---------------------------------------------------------------------------
  // Selection toggling

  function Other(id: int): int -> bool {
    (x: int) => x != id
  }

  /** `toggleSection`: a listed id is removed everywhere; an unlisted id is appended. */
  function Toggled(selected: seq<int>, id: int): (r: seq<int>)
    ensures id in selected ==> id !in r && IsSubsequence(r, selected)
    ensures id in selected ==> forall x :: x != id ==> (x in r <==> x in selected)
    ensures id in selected ==> forall x :: x != id ==> multiset(r)[x] == multiset(selected)[x]
    ensures id !in selected ==> r == selected + [id]
  {
    if id in selected then
      FilterIsSubsequence(selected, Other(id));
      assert forall x :: x != id ==> multiset(Filter(selected, Other(id)))[x] == multiset(selected)[x] by {
        forall x | x != id ensures multiset(Filter(selected, Other(id)))[x] == multiset(selected)[x] {
          FilterMultiplicity(selected, Other(id), x);
        }
      }
      Filter(selected, Other(id))
    else
      selected + [id]
  }

  /**
   * Toggling twice: an id that was absent leaves the list exactly as it was; one that was
   * present comes back at the end, so the same ids are selected. A duplicate-free list
   * stays duplicate-free.
   */
  lemma ToggleTwice(selected: seq<int>, id: int)
    requires NoDup(selected)
    ensures NoDup(Toggled(selected, id))
    ensures id !in selected ==> Toggled(Toggled(selected, id), id) == selected
    ensures forall x :: x in Toggled(Toggled(selected, id), id) <==> x in selected
  {
    if id in selected {
      var once := Toggled(selected, id);
      NoDupSubsequence(once, selected);
      AppendFreshNoDup(once, id);
    } else {
      AppendFreshNoDup(selected, id);
      FilterConcat(selected, [id], Other(id));
      FilterAll(selected, Other(id));
      assert Filter([id], Other(id)) == [];
    }
  }

  lemma AppendFreshNoDup(s: seq<int>, x: int)
    requires NoDup(s) && x !in s
    ensures NoDup(s + [x])
  {
    var t := s + [x];
    forall i, j | 0 <= i < j < |t| ensures t[i] != t[j] {
      if j == |s| {
        assert t[i] == s[i];
      }
    }
  }

  // ---------------------------------------------------------------------------
  // The step machine

  /** What `handleNext` is told about submitting the new-organization form. */
  datatype CreateOutcome =
    | FormInvalid                  // the form's schema refused the input: the form shows the messages
    | CreateFailed                 // the creation request failed
    | Created(newOrganizationId: int)

  /** The page after a handler, and the toast the handler raised, if any. */
  datatype Transition = Transition(step: int, state: WizardState, toast: Option<ToastOptions>)

  const OrganizationRequired := ToastOptions(Some("Required"), Some("Please select or create an organization"), Some(Destructive))
  const SectionRequired := ToastOptions(Some("Required"), Some("Please select at least one section"), Some(Destructive))
  const OrganizationCreated := ToastOptions(Some("Success"), Some("Organization created successfully"), None)
  const OrganizationFailed := ToastOptions(Some("Error"), Some("Failed to create organization"), Some(Destructive))

  /**
   * `handleNext`. Step 1 advances only with a chosen organization or a newly created one;
   * step 2 preselects every applicable section and advances; step 3 advances only with a
   * non-empty selection; step 4 is left alone. The step never leaves 1..4 and never moves
   * by more than one.
   */
  function Next(step: int, st: WizardState, organizations: seq<Organization>, allSections: seq<PolicySection>,
                outcome: CreateOutcome): (t: Transition)
    ensures 1 <= step <= 4 ==> 1 <= t.step <= 4
    ensures t.step == step || t.step == step + 1
    ensures step == 1 && !st.isNewOrganization ==>
      (t.step == 2 <==> HasOrganization(st)) && t.state == st
    ensures step == 1 && st.isNewOrganization ==>
      (t.step == 2 <==> outcome.Created?) &&
      t.state == (if outcome.Created? then st.(organizationId := Some(outcome.newOrganizationId), isNewOrganization := false) else st)
    ensures step == 2 ==>
      && t.step == 3
      && t.state == st.(selectedSections := Ids(ApplicableSections(SelectedOrganization(organizations, st.organizationId), allSections)))
    ensures step == 3 ==> (t.step == 4 <==> |st.selectedSections| > 0) && t.state == st
    ensures step !in {1, 2, 3} ==> t == Transition(step, st, None)
    ensures step == 1 && !st.isNewOrganization ==>
      t.toast == if HasOrganization(st) then None else Some(OrganizationRequired)
    ensures step == 1 && st.isNewOrganization ==>
      && (outcome.FormInvalid? ==> t.toast.None?)
      && (outcome.CreateFailed? ==> t.toast == Some(OrganizationFailed))
      && (outcome.Created? ==> t.toast == Some(OrganizationCreated))
    ensures step == 2 ==> t.toast.None?
    ensures step == 3 ==> t.toast == if |st.selectedSections| == 0 then Some(SectionRequired) else None
  {
    if step == 1 then
      if st.isNewOrganization then
        match outcome
        case FormInvalid => Transition(1, st, None)
        case CreateFailed => Transition(1, st, Some(OrganizationFailed))
        case Created(id) =>
          Transition(2, st.(organizationId := Some(id), isNewOrganization := false), Some(OrganizationCreated))
      else if HasOrganization(st) then Transition(2, st, None)
      else Transition(1, st, Some(OrganizationRequired))
    else if step == 2 then
      var applicable := ApplicableSections(SelectedOrganization(organizations, st.organizationId), allSections);
      Transition(3, st.(selectedSections := Ids(applicable)), None)
    else if step == 3 then
      if |st.selectedSections| == 0 then Transition(3, st, Some(SectionRequired))
      else Transition(4, st, None)
    else
      Transition(step, st, None)
  }

  /** Step 2's preselection lists the applicable sections' ids in catalog order. */
  lemma PreselectionInCatalogOrder(organizations: seq<Organization>, allSections: seq<PolicySection>, st: WizardState,
                                   outcome: CreateOutcome)
    ensures var t := Next(2, st, organizations, allSections, outcome);
      && IsSubsequence(t.state.selectedSections, Ids(allSections))
      && forall id :: id in t.state.selectedSections <==>
           exists s :: s in allSections && IsApplicable(SelectedOrganization(organizations, st.organizationId), s) && s.id == id
  {
    var applicable := ApplicableSections(SelectedOrganization(organizations, st.organizationId), allSections);
    Routes.IdsSubsequence(applicable, allSections);
    forall id ensures id in Ids(applicable) <==>
      exists s :: s in allSections && IsApplicable(SelectedOrganization(organizations, st.organizationId), s) && s.id == id
    {
      IdsMembership(applicable, id);
    }
  }

  /** `handleSubmit`'s request: sent only with an organization and a non-empty selection, always as a draft. */
  function SubmitRequest(st: WizardState, generatedDate: string): (r: Option<InsertGeneratedPolicy>)
    ensures r.Some? <==> HasOrganization(st) && |st.selectedSections| > 0
    ensures r.Some? ==>
      && r.value.organizationId == st.organizationId.value
      && r.value.selectedSections == st.selectedSections
      && r.value.generatedDate == generatedDate
      && r.value.status == Draft
  {
    if HasOrganization(st) && |st.selectedSections| > 0 then
      Some(InsertGeneratedPolicy(st.organizationId.value, st.selectedSections, generatedDate, Draft))
    else
      None
  }

  class WizardPage {
    var currentStep: int
    var wizardState: WizardState

    ghost predicate Valid()
      reads this
    {
      1 <= currentStep <= 4
    }

    constructor ()
      ensures Valid()
      ensures currentStep == 1 && wizardState == WizardState(None, [], false)
    {
      currentStep := 1;
      wizardState := WizardState(None, [], false);
    }

    /** The Next button. The form and the creation request are the `outcome` parameter. */
    method HandleNext(organizations: seq<Organization>, allSections: seq<PolicySection>, outcome: CreateOutcome)
      returns (toast: Option<ToastOptions>)
      requires Valid()
      modifies this
      ensures Valid()
      ensures var t := Next(old(currentStep), old(wizardState), organizations, allSections, outcome);
        currentStep == t.step && wizardState == t.state && toast == t.toast
    {
      toast := None;
      if currentStep == 1 {
        if wizardState.isNewOrganization {
          match outcome
          case FormInvalid =>
          case CreateFailed =>
            toast := Some(OrganizationFailed);
          case Created(id) =>
            wizardState := wizardState.(organizationId := Some(id), isNewOrganization := false);
            currentStep := 2;
            toast := Some(OrganizationCreated);
        } else if HasOrganization(wizardState) {
          currentStep := 2;
        } else {
          toast := Some(OrganizationRequired);
        }
      } else if currentStep == 2 {
        var selectedOrg := SelectedOrganization(organizations, wizardState.organizationId);
        var applicable := ApplicableSections(selectedOrg, allSections);
        wizardState := wizardState.(selectedSections := Ids(applicable));
        currentStep := 3;
      } else if currentStep == 3 {
        if |wizardState.selectedSections| == 0 {
          toast := Some(SectionRequired);
        } else {
          currentStep := 4;
        }
      }
    }

    /** The Previous button: one step back, never below step 1. */
    method HandlePrevious()
      requires Valid()
      modifies this
      ensures Valid()
      ensures currentStep == if old(currentStep) > 1 then old(currentStep) - 1 else old(currentStep)
      ensures wizardState == old(wizardState)
    {
      if currentStep > 1 {
        currentStep := currentStep - 1;
      }
    }

    /** The Generate button: the creation request it sends, if any. The page itself is unchanged. */
    method HandleSubmit(generatedDate: string) returns (request: Option<InsertGeneratedPolicy>)
      ensures request == SubmitRequest(wizardState, generatedDate)
    {
      request := None;
      if HasOrganization(wizardState) && |wizardState.selectedSections| > 0 {
        request := Some(InsertGeneratedPolicy(wizardState.organizationId.value, wizardState.selectedSections,
                                              generatedDate, Draft));
      }
    }

    /** A section's checkbox. */
    method ToggleSection(sectionId: int)
      modifies this
      ensures wizardState == old(wizardState).(selectedSections := Toggled(old(wizardState.selectedSections), sectionId))
      ensures currentStep == old(currentStep)
    {
      var prev := wizardState;
      if sectionId in prev.selectedSections {
        wizardState := prev.(selectedSections := Filter(prev.selectedSections, Other(sectionId)));
      } else {
        wizardState := prev.(selectedSections := prev.selectedSections + [sectionId]);
      }
    }

    /** The "Select Existing Organization" button. */
    method ChooseExisting()
      modifies this
      ensures wizardState == old(wizardState).(isNewOrganization := false)
      ensures currentStep == old(currentStep)
    {
      wizardState := wizardState.(isNewOrganization := false);
    }

    /** The "Create New Organization" button: it also clears the chosen organization. */
    method ChooseNew()
      modifies this
      ensures wizardState == old(wizardState).(isNewOrganization := true, organizationId := None)
      ensures currentStep == old(currentStep)
    {
      wizardState := wizardState.(isNewOrganization := true, organizationId := None);
    }

    /** The organization drop-down: `None` is the empty choice. */
    method SelectOrganization(organizationId: Option<int>)
      modifies this
      ensures wizardState == old(wizardState).(organizationId := organizationId)
      ensures currentStep == old(currentStep)
    {
      wizardState := wizardState.(organizationId := organizationId);
    }
  }
}
