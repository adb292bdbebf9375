# Accounting-policy wizard: a Dafny model

This project models the decision logic of a small accounting-policy generator. A user picks
or creates an *organization* (budget or business accounting, optionally an industry). The
wizard works out which *policy sections* of a fixed catalog apply to it, and the user
chooses among them. The server stores the choice as a *generated policy* after checking
that the organization and every section id exist, and later returns it joined with its
organization and its resolved sections. Around this sit two small client state holders:
a slide navigator and a toast list.

Modules, one per source file or component:

- `Optional`, `Seqs` (`seqs.dfy`): `Option`, and the JavaScript array operations the code
  relies on (`filter`, `findIndex`, `find`, `splice`) with the facts proved about them:
  subsequence, membership, multiplicity, no duplicates.
- `Schema` (`schema.dfy`): the three tables of `shared/schema.ts`. Each is a datatype, with an
  insert datatype that has no `id`. The nullable columns are `Option`s and the two text
  enums are datatypes. Lookups by id live here too.
- `Storage` (`storage.dfy`): the in-memory store as a class. It holds three sequences and two
  id counters, and its `create` methods append a row under a fresh, sequential id.
- `Routes` (`routes.dfy`): the section filter, policy creation and the policy detail join.
  They are methods that take the store, the way `createRouter(storage)` does. Each is
  specified by a pure function of the store's tables.
- `Wizard` (`wizard.dfy`): the applicability predicate, the toggle on the selected-id list, and
  the four-step page as a class.
- `Presentation` (`presentation.dfy`): the slide counter as a class.
- `Toasts` (`toasts.dfy`): the module-level toast array as a class.

Inputs the model does not compute are parameters:
- the path id after `parseInt` is an `Option<int>`, where `None` stands for `NaN`;
- a query-string value is an `Option<string>`;
- the outcome of the new-organization form and its request is a `CreateOutcome`;
- the policy date is a string;
- a toast's random id is a string.

Points where the program's behaviour is easy to misread, and which the model follows exactly:
- An organization with no industry (or an empty one) is given the industry `""` by the wizard
  (`Wizard.tsx:74`). So an organization with no industry still matches an industry-specific
  section whose `industries` list contains `""`.
- An unknown organization on policy creation is answered with status 400 (`routes.ts:95-97`),
  not with a 404.
- The server's `/api/policy-sections` filter is not the wizard's rule. An accounting type other
  than the two literals keeps every section. The industry filter does not look at the
  accounting flags. The lemma `Wizard.ApplicableWithinServerFilter` proves only the
  direction that holds: the wizard's list is a subsequence of the server's.
- The wizard's section query sends no filter parameters (`client/src/lib/queryClient.ts:7`
  builds the URL from the first query-key element). So the wizard filters the whole
  catalog itself, and `Routes.NoQueryKeepsCatalog` says that the server then returns the
  catalog unchanged.
- `wizardState.organizationId` is tested for JavaScript truthiness (`Wizard.tsx:141, 173`), so
  the id `0` counts as "no organization" (`Wizard.HasOrganization`).

## Model

| member | source | states |
|---|---|---|
| `Schema.AccountingTypeName` | AIFileOrganizer-1fg/shared/schema.ts:10 | printing an accounting type and parsing it back gives the same enum value |
| `Schema.ParseAccountingType` | AIFileOrganizer-1fg/shared/schema.ts:10 | a text value is accepted exactly when it is `budget` or `accounting`; `budget` gives `Budget` and `accounting` gives `Accounting` |
| `Schema.PolicyStatusName` | AIFileOrganizer-1fg/shared/schema.ts:45 | printing a status and parsing it back gives the same enum value |
| `Schema.ParsePolicyStatus` | AIFileOrganizer-1fg/shared/schema.ts:45 | a text value is accepted exactly when it is `draft` or `approved`; `draft` gives `Draft` and `approved` gives `Approved` |
| `Schema.OrganizationWithId` | AIFileOrganizer-1fg/shared/schema.ts:5-17 | the stored organization has the store's id, and dropping that id gives back exactly the insert record |
| `Schema.SectionWithId` | AIFileOrganizer-1fg/shared/schema.ts:22-35 | the three flags default to false when left out and otherwise take the given value; `industries` stays null when left out; the text fields and the id are carried over |
| `Schema.PolicyWithId` | AIFileOrganizer-1fg/shared/schema.ts:40-50 | the stored policy has the store's id, and dropping that id gives back exactly the insert record |
| `Schema.Ids` | AIFileOrganizer-1fg/server/routes.ts:100 | the id list has one entry per section, in section order |
| `Schema.IdsMembership` | AIFileOrganizer-1fg/server/routes.ts:100 | an id is in the id list exactly when some section carries it |
| `Schema.FindOrganization` | AIFileOrganizer-1fg/client/src/pages/Wizard.tsx:55 | a found organization is the first one in the list with the requested id; nothing is found exactly when no organization has that id |
| `Schema.FindPolicy` | AIFileOrganizer-1fg/server/routes.ts:129 | a found policy is the first one in the list with the requested id; nothing is found exactly when no policy has that id |
| `Schema.SectionsWithIds` | AIFileOrganizer-1fg/server/routes.ts:140-142 | a section is kept exactly when it is in the list and its id is listed, as often as it occurs in the list; the result keeps the list's order |
| `Storage.Store.constructor` | AIFileOrganizer-1fg/server/routes.ts:6 | a new store has no organizations and no policies and holds the seed catalog, whose section ids must be distinct; it satisfies the id invariant |
| `Storage.Store.GetOrganization` | AIFileOrganizer-1fg/server/routes.ts:25 | lookup by id: a result is a stored organization with that id; none exactly when no stored organization has it |
| `Storage.Store.GetGeneratedPolicy` | AIFileOrganizer-1fg/server/routes.ts:129 | lookup by id: a result is a stored policy with that id; none exactly when no stored policy has it |
| `Storage.Store.CreateOrganization` | AIFileOrganizer-1fg/server/routes.ts:38-40 | appends exactly one organization, made from the insert record under an id that no stored organization had; ids stay distinct; nothing else changes |
| `Storage.Store.CreateGeneratedPolicy` | AIFileOrganizer-1fg/server/routes.ts:112-113 | appends exactly one policy, made from the insert record under an id that no stored policy had; ids stay distinct; nothing else changes |
| `Routes.FilterSections` | AIFileOrganizer-1fg/server/routes.ts:51-73 | a section is returned exactly when it is in the catalog and passes each filter whose parameter is given: the filters compose as AND; each kept section appears as often as in the catalog; the result keeps catalog order; `budget` keeps only budget sections and `accounting` only business ones; an industry-specific section needs that industry in its list, and a null list drops it |
| `Routes.NoQueryKeepsCatalog` | AIFileOrganizer-1fg/server/routes.ts:55-73 | with neither parameter given (absent or empty), the whole catalog comes back unchanged |
| `Routes.UnknownAccountingTypeKeepsAll` | AIFileOrganizer-1fg/server/routes.ts:57-62 | an accounting type other than the two literals removes nothing: the result is the same as with no accounting type |
| `Routes.GetPolicySections` | AIFileOrganizer-1fg/server/routes.ts:49-79 | the handler, which reassigns `sections` once per given parameter, returns `FilterSections` of the store's catalog |
| `Routes.GetOrganization` | AIFileOrganizer-1fg/server/routes.ts:18-34 | a non-numeric id gives 400 "Invalid organization ID"; otherwise success exactly when a stored organization has the id, failing with 404 "Organization not found"; a success returns a stored organization with that id |
| `Routes.InvalidIds` | AIFileOrganizer-1fg/server/routes.ts:99-103 | an id is reported exactly when it was submitted and no catalog section carries it; reported ids keep submitted order |
| `Routes.InvalidIdsMultiplicity` | AIFileOrganizer-1fg/server/routes.ts:101-103 | each invalid id is reported as often as it was submitted, and a valid id never is |
| `Routes.PolicyRejection` | AIFileOrganizer-1fg/server/routes.ts:94-110 | an unknown organization gives 400 "Organization not found" whatever the section ids are; with a known organization the request is refused exactly when some submitted id is not in the catalog, and the refusal lists `InvalidIds`; every refusal is a 400 |
| `Routes.PostGeneratedPolicy` | AIFileOrganizer-1fg/server/routes.ts:90-120 | a refused request returns its refusal and leaves the store unchanged; an accepted one returns and appends exactly one policy with the submitted fields under a fresh id, advancing only the policy id counter |
| `Routes.Detail` | AIFileOrganizer-1fg/server/routes.ts:122-154 | checked in order: a non-numeric id gives 400, a missing policy 404, a missing organization 404; it succeeds exactly when the policy and its organization both resolve, and then joins the first stored policy with that id, the first organization with its organization id, and the catalog sections it lists |
| `Routes.ResolvedIds` | AIFileOrganizer-1fg/server/routes.ts:139-142 | the resolved section ids are exactly the listed ids that the catalog still has; dangling ids are dropped without an error |
| `Routes.ResolvedSectionsDistinct` | AIFileOrganizer-1fg/server/routes.ts:140-142 | when catalog ids are distinct, no section id appears twice in the detail, however often the policy lists it |
| `Routes.IdsSubsequence` | AIFileOrganizer-1fg/server/routes.ts:140-142 | a subsequence of sections has a subsequence of ids, so resolved sections keep catalog order in their ids too |
| `Routes.CreatedPolicyDetail` | AIFileOrganizer-1fg/server/routes.ts:112-148 | round trip: right after an accepted creation, the detail of the new id is that policy with its organization, and its section ids are exactly the submitted ones |
| `Routes.GetGeneratedPolicy` | AIFileOrganizer-1fg/server/routes.ts:122-154 | the handler returns `Detail` of the store's three tables; with a valid store no section appears twice in a success |
| `Routes.CreateThenFetch` | AIFileOrganizer-1fg/server/routes.ts:90-154 | creating then fetching by the new id returns the created policy, whose insert fields are the submitted ones, with the submitted section ids resolved; a refused creation leaves the store unchanged |
| `Wizard.SelectedOrganization` | AIFileOrganizer-1fg/client/src/pages/Wizard.tsx:55 | a null organization id selects nothing; otherwise the first organization in the list with the chosen id is selected, if there is one |
| `Wizard.ApplicableSections` | AIFileOrganizer-1fg/client/src/pages/Wizard.tsx:62-75 | empty without an organization; a non-industry-specific section applies exactly when it matches the organization's accounting type; an industry-specific one also needs a non-null list holding the organization's industry (null coalesced to ""); catalog order and multiplicities are kept |
| `Wizard.NoFlagNeverApplicable` | AIFileOrganizer-1fg/client/src/pages/Wizard.tsx:65-67 | a section with neither accounting flag applies to no organization |
| `Wizard.ApplicableWithinServerFilter` | AIFileOrganizer-1fg/client/src/pages/Wizard.tsx:62-75 | the wizard's applicable list is a subsequence of the server filter's result for the organization's accounting type and industry |
| `Wizard.SelectedSectionDetails` | AIFileOrganizer-1fg/client/src/pages/Wizard.tsx:77-79 | a section is shown exactly when it is in the catalog, applicable and selected; the list is a subsequence of the applicable list |
| `Wizard.Toggled` | AIFileOrganizer-1fg/client/src/pages/Wizard.tsx:181-188 | toggling a listed id removes every occurrence of it and keeps the other ids with their order and multiplicities; toggling an unlisted id appends it at the end |
| `Wizard.ToggleTwice` | AIFileOrganizer-1fg/client/src/pages/Wizard.tsx:181-188 | on a duplicate-free list: toggling keeps it duplicate-free; toggling an absent id twice restores the list exactly; toggling any id twice restores its set of ids |
| `Wizard.Next` | AIFileOrganizer-1fg/client/src/pages/Wizard.tsx:137-164 | the step stays in 1..4 and moves by at most one; step 1 advances exactly when an organization id is set (existing) or the form created one, which is then stored; step 2 preselects the ids of all applicable sections and advances; step 3 advances exactly when the selection is non-empty; step 4 is left alone; a missing organization on step 1 raises the "select or create an organization" toast, a failed creation the failure toast, a creation the success toast, and an empty selection on step 3 the "select at least one section" toast, and no other case raises one |
| `Wizard.PreselectionInCatalogOrder` | AIFileOrganizer-1fg/client/src/pages/Wizard.tsx:150-152 | step 2's preselection is a subsequence of the catalog ids, and an id is in it exactly when an applicable catalog section carries it |
| `Wizard.SubmitRequest` | AIFileOrganizer-1fg/client/src/pages/Wizard.tsx:110-118 | a creation request is made exactly when an organization id is set and the selection is non-empty; it carries that organization, the selection, the date and status `draft` |
| `Wizard.WizardPage.constructor` | AIFileOrganizer-1fg/client/src/pages/Wizard.tsx:44-49 | the page starts at step 1 with no organization, no selection, and the existing-organization mode |
| `Wizard.WizardPage.HandleNext` | AIFileOrganizer-1fg/client/src/pages/Wizard.tsx:137-164 | the step, the state and the raised toast become those of `Next`; the step stays in 1..4 |
| `Wizard.WizardPage.HandlePrevious` | AIFileOrganizer-1fg/client/src/pages/Wizard.tsx:166-170 | goes back one step, never below 1, and leaves the wizard state alone |
| `Wizard.WizardPage.HandleSubmit` | AIFileOrganizer-1fg/client/src/pages/Wizard.tsx:172-179 | the request sent is `SubmitRequest` of the current state, and the page is not changed |
| `Wizard.WizardPage.ToggleSection` | AIFileOrganizer-1fg/client/src/pages/Wizard.tsx:181-188 | the selection becomes `Toggled` of the old one; nothing else changes |
| `Wizard.WizardPage.ChooseExisting` | AIFileOrganizer-1fg/client/src/pages/Wizard.tsx:227 | switches to the existing-organization mode and changes nothing else |
| `Wizard.WizardPage.ChooseNew` | AIFileOrganizer-1fg/client/src/pages/Wizard.tsx:236 | switches to the new-organization mode and clears the chosen organization |
| `Wizard.WizardPage.SelectOrganization` | AIFileOrganizer-1fg/client/src/pages/Wizard.tsx:255-258 | the chosen organization id becomes the selected value, or null for the empty choice |
| `Presentation.NextIndex` | AIFileOrganizer-1fg/client/src/pages/Presentation.tsx:23-27 | moves exactly when the slide is before the last one, by one; an in-range slide stays in range |
| `Presentation.PrevIndex` | AIFileOrganizer-1fg/client/src/pages/Presentation.tsx:29-33 | moves exactly when the slide is after the first one, by one back; an in-range slide stays in range |
| `Presentation.KeyActionOf` | AIFileOrganizer-1fg/client/src/pages/Presentation.tsx:9-16 | right arrow and space act as next, left arrow as previous, and every other key as nothing |
| `Presentation.KeysStayInRange` | AIFileOrganizer-1fg/client/src/pages/Presentation.tsx:5-33 | from a slide in 0..7, any run of key presses ends on a slide in 0..7 |
| `Presentation.RightArrowsAdvance` | AIFileOrganizer-1fg/client/src/pages/Presentation.tsx:23-27 | n presses of the right arrow move n slides forward, stopping at the last slide |
| `Presentation.NextThenPrevious` | AIFileOrganizer-1fg/client/src/pages/Presentation.tsx:23-33 | next followed by previous returns to the start slide whenever the start is not the last slide |
| `Presentation.SlideDeck.constructor` | AIFileOrganizer-1fg/client/src/pages/Presentation.tsx:5-6 | the deck starts on slide 0 |
| `Presentation.SlideDeck.NextSlide` | AIFileOrganizer-1fg/client/src/pages/Presentation.tsx:23-27 | the slide becomes `NextIndex` of the old one and stays in 0..7 |
| `Presentation.SlideDeck.PrevSlide` | AIFileOrganizer-1fg/client/src/pages/Presentation.tsx:29-33 | the slide becomes `PrevIndex` of the old one and stays in 0..7 |
| `Presentation.SlideDeck.HandleKeyDown` | AIFileOrganizer-1fg/client/src/pages/Presentation.tsx:9-16 | a key press moves the slide as `KeyActionOf` says and keeps it in 0..7 |
| `Toasts.NewToast` | AIFileOrganizer-1fg/client/src/hooks/use-toast.ts:24-26 | the entry carries the given id, title and description; the variant defaults to `default` |
| `Toasts.Without` | AIFileOrganizer-1fg/client/src/hooks/use-toast.ts:42-44 | an absent id leaves the list unchanged; a present one makes it exactly one shorter; the list never shrinks by more than one |
| `Toasts.WithoutRemovesFirst` | AIFileOrganizer-1fg/client/src/hooks/use-toast.ts:42-44 | the entry removed is the first one with that id, and the entries before and after it keep their order |
| `Toasts.WithoutTwice` | AIFileOrganizer-1fg/client/src/hooks/use-toast.ts:41-46 | with distinct ids, removing an id twice is the same as removing it once, and the ids stay distinct |
| `Toasts.ToastQueue.constructor` | AIFileOrganizer-1fg/client/src/hooks/use-toast.ts:10 | the list starts empty |
| `Toasts.ToastQueue.AddToast` | AIFileOrganizer-1fg/client/src/hooks/use-toast.ts:23-28 | exactly one entry, built by `NewToast`, is appended at the end, and its id is returned |
| `Toasts.ToastQueue.Dismiss` | AIFileOrganizer-1fg/client/src/hooks/use-toast.ts:41-46 | the list becomes `Without` of the old list for that id |
| `Toasts.ToastQueue.Expire` | AIFileOrganizer-1fg/client/src/hooks/use-toast.ts:31-37 | the timer's removal gives exactly the same list as `Dismiss` for that id |

## Left out

- Express transport: status codes appear only as the outcome datatype `Routes.ApiError`. The catch-all 500 responses (`routes.ts` 12-14, 31-33, 45, 76-78, 85-87, 118, 151-153) are not modelled, because the abstract store never fails.
- Zod parsing of request bodies (`routes.ts:38, 92`) and its 400 "Validation failed" responses: handlers receive already-typed insert records. The enum checks are `Schema.ParseAccountingType` and `Schema.ParsePolicyStatus`.
- `parseInt`/`isNaN`: the path id arrives as an `Option<int>`.
- `GET /api/organizations` and `GET /api/generated-policies`: each returns a stored table unchanged, which adds nothing beyond the store's fields.
- The store implementation (`./storage`) is not part of this model. Lookups take the first row with the id, ids come from per-table counters starting at 1, and the seed catalog is a constructor parameter.
- The wizard's organization form schema: the form and its request are abstracted as `Wizard.CreateOutcome`. React Query caching and invalidation, rendering, the delayed redirect after a policy is generated, and the `toISOString` date (a parameter here) are left out.
- Toast listeners and `setTimeout` scheduling: `Toasts.ToastQueue.Expire` is the timer's body, and when it runs is not modelled. `Math.random` ids are parameters.
- Server bootstrap and static serving (`server/index.ts`, `server.js`, `serve.js`, `production.js`), and the display-only pages (`Home.tsx`, `App.tsx`, `PolicyView.tsx`, `PoliciesList.tsx`, `checkbox.tsx`).
- Toasts.WithoutTwice: holds only when the ids in the list are distinct. Random ids can collide, and a second dismiss then removes the next entry with the same id.
- Wizard.ToggleTwice: for an id that was present, toggling twice moves it to the end. So only the set of ids is restored, not their order.
- Wizard.WizardPage.ToggleSection: the UI offers the checkboxes only on step 3, and the model does not restrict when it may be called.
- Storage.Store.constructor: requires the seed catalog's section ids to be distinct. The store implementation that numbers the seed is not part of this model, so this is taken as a fact about the seed data rather than proved.
