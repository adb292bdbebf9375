/**
 * The in-memory store behind the routes. Its implementation is not part of this model,
 * so the store is abstract: three tables kept as sequences in insertion order, and one
 * id counter per table from which `create` takes a fresh, sequential id. The section
 * catalog is seed data, given to the constructor and never changed.
 */
module Storage {
  import opened Optional
  import opened Seqs
  import opened Schema

  /** Every row's id lies in `[1, next)` and no two rows share an id. */
  ghost predicate IdsBelow(ids: seq<int>, next: int) {
    && (forall i :: 0 <= i < |ids| ==> 1 <= ids[i] < next)
    && (forall i, j :: 0 <= i < j < |ids| ==> ids[i] != ids[j])
  }

  function OrganizationIds(orgs: seq<Organization>): (r: seq<int>)
    ensures |r| == |orgs| && forall i :: 0 <= i < |orgs| ==> r[i] == orgs[i].id
  {
    seq(|orgs|, i requires 0 <= i < |orgs| => orgs[i].id)
  }

  function PolicyIds(policies: seq<GeneratedPolicy>): (r: seq<int>)
    ensures |r| == |policies| && forall i :: 0 <= i < |policies| ==> r[i] == policies[i].id
  {
    seq(|policies|, i requires 0 <= i < |policies| => policies[i].id)
  }

  class Store {
    var organizations: seq<Organization>
    var policySections: seq<PolicySection>
    var generatedPolicies: seq<GeneratedPolicy>
    var nextOrganizationId: int
    var nextPolicyId: int

    ghost predicate Valid()
      reads this
    {
      && nextOrganizationId >= 1 && nextPolicyId >= 1
      && IdsBelow(OrganizationIds(organizations), nextOrganizationId)
      && IdsBelow(PolicyIds(generatedPolicies), nextPolicyId)
      && NoDup(Ids(policySections))
    }

    /** A store seeded with `catalog`, whose sections carry distinct ids. */
    constructor (catalog: seq<PolicySection>)
      requires NoDup(Ids(catalog))
      ensures Valid()
      ensures organizations == [] && generatedPolicies == [] && policySections == catalog
    {
      organizations := [];
      policySections := catalog;
      generatedPolicies := [];
      nextOrganizationId := 1;
      nextPolicyId := 1;
    }

    /** `storage.getOrganization(id)`. */
    function GetOrganization(id: int): (r: Option<Organization>)
      reads this
      ensures r.Some? ==> r.value in organizations && r.value.id == id
      ensures r.None? <==> forall o :: o in organizations ==> o.id != id
    {
      FindOrganization(organizations, id)
    }

    /** `storage.getGeneratedPolicy(id)`. */
    function GetGeneratedPolicy(id: int): (r: Option<GeneratedPolicy>)
      reads this
      ensures r.Some? ==> r.value in generatedPolicies && r.value.id == id
      ensures r.None? <==> forall p :: p in generatedPolicies ==> p.id != id
    {
      FindPolicy(generatedPolicies, id)
    }

    /** `storage.createOrganization(ins)`: appends the row under a fresh id and returns it. */
    method CreateOrganization(ins: InsertOrganization) returns (org: Organization)
      requires Valid()
      modifies this
      ensures Valid()
      ensures org == OrganizationWithId(ins, old(nextOrganizationId))
      ensures FindOrganization(old(organizations), org.id).None?
      ensures organizations == old(organizations) + [org]
      ensures generatedPolicies == old(generatedPolicies) && policySections == old(policySections)
      ensures nextPolicyId == old(nextPolicyId) && nextOrganizationId == old(nextOrganizationId) + 1
    {
      org := OrganizationWithId(ins, nextOrganizationId);
      assert forall o :: o in organizations ==> o.id < nextOrganizationId by {
        forall o | o in organizations ensures o.id < nextOrganizationId {
          var k :| 0 <= k < |organizations| && organizations[k] == o;
          assert OrganizationIds(organizations)[k] == o.id;
        }
      }
      assert OrganizationIds(organizations + [org]) == OrganizationIds(organizations) + [org.id];
      organizations := organizations + [org];
      nextOrganizationId := nextOrganizationId + 1;
    }

    /** `storage.createGeneratedPolicy(ins)`: appends the row under a fresh id and returns it. */
    method CreateGeneratedPolicy(ins: InsertGeneratedPolicy) returns (p: GeneratedPolicy)
      requires Valid()
      modifies this
      ensures Valid()
      ensures p == PolicyWithId(ins, old(nextPolicyId))
      ensures FindPolicy(old(generatedPolicies), p.id).None?
      ensures generatedPolicies == old(generatedPolicies) + [p]
      ensures organizations == old(organizations) && policySections == old(policySections)
      ensures nextOrganizationId == old(nextOrganizationId)
      ensures nextPolicyId == old(nextPolicyId) + 1
    {
      p := PolicyWithId(ins, nextPolicyId);
      assert forall q :: q in generatedPolicies ==> q.id < nextPolicyId by {
        forall q | q in generatedPolicies ensures q.id < nextPolicyId {
          var k :| 0 <= k < |generatedPolicies| && generatedPolicies[k] == q;
          assert PolicyIds(generatedPolicies)[k] == q.id;
        }
      }
      assert PolicyIds(generatedPolicies + [p]) == PolicyIds(generatedPolicies) + [p.id];
      generatedPolicies := generatedPolicies + [p];
      nextPolicyId := nextPolicyId + 1;
    }
  }
}
