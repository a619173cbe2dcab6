/**
 The in-memory index that lets Reserve skip the database when a tenant has no policy
 (internal/quota/policy_index.go). It counts enabled policies per tenant and model.
 */
module PolicyIndex {
  import opened QuotaLedger

  type Table = map<PolicyId, Policy>

  type Counts = map<string, map<string, int>>

  predicate Applies(policy: Policy, tenant: string, model: string) {
    policy.enabled && policy.tenant == tenant && policy.model == model
  }

  function EnabledFor(policies: Table, tenant: string, model: string): set<PolicyId> {
    set id | id in policies && Applies(policies[id], tenant, model)
  }

  function Stored(matches: Counts, tenant: string, model: string): int {
    if tenant in matches && model in matches[tenant] then matches[tenant][model] else 0
  }

  /** Stored counts are exact and the nested map keeps neither zero counts nor empty rows. */
  ghost predicate Exact(policies: Table, matches: Counts) {
    && (forall id :: id in policies ==> policies[id].id == id)
    && (forall tenant, model :: Stored(matches, tenant, model) == |EnabledFor(policies, tenant, model)|)
    && NoEmptyRows(matches)
  }

  lemma InsertCounts(policies: Table, policy: Policy, tenant: string, model: string)
    requires policy.id !in policies
    ensures |EnabledFor(policies[policy.id := policy], tenant, model)| ==
            |EnabledFor(policies, tenant, model)| +
            (if Applies(policy, tenant, model) then 1 else 0)
  {
    hide Applies;
    var before, after := EnabledFor(policies, tenant, model), EnabledFor(policies[policy.id := policy], tenant, model);
    if Applies(policy, tenant, model) {
      assert after == before + {policy.id};
    } else {
      assert after == before;
    }
  }

  lemma RemoveCounts(policies: Table, id: PolicyId, tenant: string, model: string)
    requires id in policies && policies[id].id == id
    ensures |EnabledFor(policies, tenant, model)| ==
            |EnabledFor(policies - {id}, tenant, model)| +
            (if Applies(policies[id], tenant, model) then 1 else 0)
  {
    InsertCounts(policies - {id}, policies[id], tenant, model);
    assert (policies - {id})[id := policies[id]] == policies;
  }

  ghost predicate NoEmptyRows(matches: Counts) {
    && (forall tenant :: tenant in matches ==> matches[tenant] != map[])
    && (forall tenant, model :: tenant in matches && model in matches[tenant] ==> matches[tenant][model] > 0)
  }

  /** One count less, dropping a count that reaches zero and a tenant without counts. */
  function Decremented(matches: Counts, tenant: string, model: string): Counts
    requires tenant in matches && model in matches[tenant]
  {
    var left := matches[tenant][model] - 1;
    var models := if left <= 0 then matches[tenant] - {model} else matches[tenant][model := left];
    if |models| == 0 then matches - {tenant} else matches[tenant := models]
  }

  lemma DecrementedCounts(matches: Counts, tenant: string, model: string)
    requires tenant in matches && model in matches[tenant] && NoEmptyRows(matches)
    ensures NoEmptyRows(Decremented(matches, tenant, model))
    ensures forall t, m :: Stored(Decremented(matches, tenant, model), t, m) ==
                           Stored(matches, t, m) - (if t == tenant && m == model then 1 else 0)
  {
  }

  predicate DistinctIds(rows: seq<Policy>) {
    forall i, j :: 0 <= i < j < |rows| ==> rows[i].id != rows[j].id
  }

  ghost predicate IsTableOf(rows: seq<Policy>, policies: Table) {
    && (forall i :: 0 <= i < |rows| ==> rows[i].id in policies && policies[rows[i].id] == rows[i])
    && (forall id :: id in policies ==> exists i :: 0 <= i < |rows| && rows[i].id == id)
  }

  /** Some policy holds the request: the query in Reserve would return a row. */
  ghost predicate SomeMatch(policies: Table, tenant: string, model: string) {
    exists id :: id in policies && Matches(policies[id], tenant, model)
  }

  class Index {
    var policies: Table
    var matches: Counts

    ghost predicate Valid()
      reads this
    {
      Exact(policies, matches)
    }

    constructor ()
      ensures Valid() && policies == map[]
    {
      policies, matches := map[], map[];
      new;
      assert forall tenant, model :: EnabledFor(policies, tenant, model) == {};
    }

    method Insert(policy: Policy)
      requires Valid() && policy.id !in policies
      modifies this
      ensures Valid() && policies == old(policies)[policy.id := policy]
    {
      forall tenant, model ensures
        |EnabledFor(policies[policy.id := policy], tenant, model)| ==
        Stored(matches, tenant, model) +
        (if Applies(policy, tenant, model) then 1 else 0)
      {
        InsertCounts(policies, policy, tenant, model);
      }
      policies := policies[policy.id := policy];
      if !policy.enabled {
        return;
      }
      var models := if policy.tenant in matches then matches[policy.tenant] else map[];
      var count := if policy.model in models then models[policy.model] else 0;
      matches := matches[policy.tenant := models[policy.model := count + 1]];
    }

    method Remove(id: PolicyId)
      requires Valid()
      modifies this
      ensures Valid() && policies == old(policies) - {id}
    {
      if id !in policies {
        return;
      }
      hide Decremented, NoEmptyRows, EnabledFor;
      var current := policies[id];
      forall tenant, model ensures
        Stored(matches, tenant, model) ==
        |EnabledFor(policies - {id}, tenant, model)| +
        (if Applies(current, tenant, model) then 1 else 0)
      {
        RemoveCounts(policies, id, tenant, model);
      }
      policies := policies - {id};
      if !current.enabled {
        return;
      }
      assert Stored(matches, current.tenant, current.model) >= 1;
      DecrementedCounts(matches, current.tenant, current.model);
      matches := Decremented(matches, current.tenant, current.model);
    }

    method Put(policy: Policy)
      requires Valid()
      modifies this
      ensures Valid() && policies == old(policies)[policy.id := policy]
    {
      Remove(policy.id);
      Insert(policy);
      assert policies == old(policies)[policy.id := policy];
    }

    method Replace(rows: seq<Policy>)
      requires DistinctIds(rows)
      modifies this
      ensures Valid() && IsTableOf(rows, policies)
    {
      var next := new Index();
      for i := 0 to |rows|
        invariant fresh(next) && next.Valid()
        invariant IsTableOf(rows[..i], next.policies)
      {
        next.Insert(rows[i]);
        assert rows[..i + 1] == rows[..i] + [rows[i]];
        assert forall j :: 0 <= j < i ==> rows[..i + 1][j] == rows[..i][j];
      }
      assert rows[..|rows|] == rows;
      policies, matches := next.policies, next.matches;
    }

    /** True exactly when some indexed policy would be returned by the query in Reserve. */
    method Has(tenant: string, model: string) returns (found: bool)
      requires Valid()
      ensures found <==> SomeMatch(policies, tenant, model)
    {
      var models := if tenant in matches then matches[tenant] else map[];
      found := (model in models && models[model] > 0) || ("*" in models && models["*"] > 0);
      CountsDecide(policies, matches, tenant, model);
    }
  }

  lemma CountsDecide(policies: Table, matches: Counts, tenant: string, model: string)
    requires Exact(policies, matches)
    ensures Stored(matches, tenant, model) > 0 || Stored(matches, tenant, "*") > 0 <==> SomeMatch(policies, tenant, model)
  {
    var exactly, any := EnabledFor(policies, tenant, model), EnabledFor(policies, tenant, "*");
    assert Stored(matches, tenant, model) == |exactly| && Stored(matches, tenant, "*") == |any|;
    if |exactly| > 0 {
      var id :| id in exactly;
      assert Matches(policies[id], tenant, model);
    }
    if |any| > 0 {
      var id :| id in any;
      assert Matches(policies[id], tenant, model);
    }
    if SomeMatch(policies, tenant, model) {
      var id :| id in policies && Matches(policies[id], tenant, model);
      assert id in exactly + any;
    }
  }

  /** The index holds every enabled policy of the database and nothing that is not there. */
  ghost predicate Mirrors(policies: Table, database: Table) {
    && (forall id :: id in policies ==> id in database && policies[id] == database[id])
    && (forall id :: id in database && database[id].enabled ==> id in policies)
  }

  /**
   Loading the enabled rows establishes the mirror, writing a policy to both keeps it, and under
   it the index answers for the database.
   */
  lemma MirrorAnswersForDatabase(policies: Table, database: Table, policy: Policy, tenant: string, model: string)
    requires Mirrors(policies, database)
    ensures Mirrors(policies[policy.id := policy], database[policy.id := policy])
    ensures SomeMatch(policies, tenant, model) <==> SomeMatch(database, tenant, model)
  {
    if SomeMatch(policies, tenant, model) {
      var id :| id in policies && Matches(policies[id], tenant, model);
      assert Matches(database[id], tenant, model);
    }
    if SomeMatch(database, tenant, model) {
      var id :| id in database && Matches(database[id], tenant, model);
      assert Matches(policies[id], tenant, model);
    }
  }

  lemma LoadMirrors(rows: seq<Policy>, policies: Table, database: Table)
    requires IsTableOf(rows, policies)
    requires forall i :: 0 <= i < |rows| ==> rows[i].id in database && database[rows[i].id] == rows[i]
    requires forall id :: id in database && database[id].enabled ==> database[id].id == id && database[id] in rows
    ensures Mirrors(policies, database)
  {
    forall id | id in database && database[id].enabled ensures id in policies {
      var i :| 0 <= i < |rows| && rows[i] == database[id];
    }
  }
}
