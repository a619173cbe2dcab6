/**
 The policy index beside a database that several processes write to: a write commits and is put
 into the index afterwards, a refresh reads the enabled rows and replaces the index afterwards
 (internal/quota/policy_index.go, manager.go). Exactly when the index falls behind, and what Reserve
 misses then.
 */
module PolicyRefresh {
  import opened QuotaLedger
  import opened PolicyIndex

  /** A policy row together with the moment it was committed; every update is a new version. */
  datatype Version = Version(policy: Policy, commit: nat)

  type Rows = map<PolicyId, Version>

  /** The enabled rows as a refresh read them, and when. */
  datatype Reading = Reading(rows: Rows, at: nat)

  /**
   `writes` holds committed versions that are still to be put into the index; a version that
   another process wrote stays there for good. `refreshes` holds readings still to be loaded.
   */
  datatype State = State(tick: nat, database: Rows, index: Rows, writes: map<nat, Version>, refreshes: map<nat, Reading>)

  const START := State(0, map[], map[], map[], map[])

  datatype Step =
    | CommitVersion(write: nat, policy: Policy)
    | PutVersion(write: nat)
    | Read(refresh: nat)
    | Load(refresh: nat)

  predicate Enabled(state: State, step: Step) {
    match step
    case CommitVersion(write, _) => write !in state.writes
    case PutVersion(write) => write in state.writes
    case Read(refresh) => refresh !in state.refreshes
    case Load(refresh) => refresh in state.refreshes
  }

  function EnabledRows(rows: Rows): Rows {
    map id | id in rows && rows[id].policy.enabled :: rows[id]
  }

  function Next(state: State, step: Step): State
    requires Enabled(state, step)
  {
    var later := state.(tick := state.tick + 1);
    match step
    case CommitVersion(write, policy) =>
      var version := Version(policy, state.tick);
      later.(database := state.database[policy.id := version], writes := state.writes[write := version])
    case PutVersion(write) =>
      var version := state.writes[write];
      later.(index := state.index[version.policy.id := version], writes := state.writes - {write})
    case Read(refresh) =>
      later.(refreshes := state.refreshes[refresh := Reading(EnabledRows(state.database), state.tick)])
    case Load(refresh) =>
      later.(index := state.refreshes[refresh].rows, refreshes := state.refreshes - {refresh})
  }

  // ---------------------------------------------------------------- what always holds

  /** The database has this version of the row or a later one. */
  predicate Past(version: Version, database: Rows) {
    var id := version.policy.id;
    && id in database
    && version.commit <= database[id].commit
    && (version.commit == database[id].commit ==> version == database[id])
  }

  ghost predicate NotAhead(rows: Rows, database: Rows) {
    forall id | id in rows :: rows[id].policy.id == id && Past(rows[id], database)
  }

  /** Of the rows that have not changed since it was taken, a reading has exactly the enabled ones. */
  ghost predicate Genuine(reading: Reading, database: Rows) {
    && NotAhead(reading.rows, database)
    && (forall id | id in reading.rows :: reading.rows[id].commit < reading.at)
    && (forall id | id in database && database[id].commit < reading.at ::
          && (id in reading.rows <==> database[id].policy.enabled)
          && (id in reading.rows ==> reading.rows[id] == database[id]))
  }

  ghost predicate Invariant(state: State) {
    && (forall id | id in state.database ::
          state.database[id].policy.id == id && state.database[id].commit < state.tick)
    && NotAhead(state.index, state.database)
    && (forall write | write in state.writes :: Past(state.writes[write], state.database))
    && (forall refresh | refresh in state.refreshes ::
          Genuine(state.refreshes[refresh], state.database) && state.refreshes[refresh].at < state.tick)
  }

  lemma CommitKeepsGenuine(reading: Reading, database: Rows, version: Version)
    requires Genuine(reading, database) && reading.at < version.commit
    requires forall id | id in database :: database[id].commit < version.commit
    ensures Genuine(reading, database[version.policy.id := version])
  {
    CommitKeepsNotAhead(reading.rows, database, version);
  }

  lemma CommitKeepsNotAhead(rows: Rows, database: Rows, version: Version)
    requires NotAhead(rows, database)
    requires forall id | id in database :: database[id].commit < version.commit
    ensures NotAhead(rows, database[version.policy.id := version])
  {
  }

  lemma CommitKeeps(state: State, write: nat, policy: Policy)
    requires Invariant(state) && write !in state.writes
    ensures Invariant(Next(state, CommitVersion(write, policy)))
  {
    var version := Version(policy, state.tick);
    var next := Next(state, CommitVersion(write, policy));
    CommitKeepsNotAhead(state.index, state.database, version);
    forall refresh | refresh in next.refreshes
      ensures Genuine(next.refreshes[refresh], next.database)
    {
      CommitKeepsGenuine(state.refreshes[refresh], state.database, version);
    }
    hide NotAhead, Genuine;
  }

  lemma PutKeeps(state: State, write: nat)
    requires Invariant(state) && write in state.writes
    ensures Invariant(Next(state, PutVersion(write)))
  {
    assert Past(state.writes[write], state.database);
    hide Genuine, Past;
  }

  lemma StepKeeps(state: State, step: Step)
    requires Invariant(state) && Enabled(state, step)
    ensures Invariant(Next(state, step))
  {
    match step
    case CommitVersion(write, policy) => CommitKeeps(state, write, policy);
    case PutVersion(write) => PutKeeps(state, write);
    case Read(refresh) =>
    case Load(refresh) => assert Genuine(state.refreshes[refresh], state.database);
  }

  // ---------------------------------------------------------------- falling behind, exactly

  /** The latest version of a row has been committed but not yet put into the index. */
  ghost predicate Announced(state: State, id: PolicyId)
    requires id in state.database
  {
    exists write | write in state.writes :: state.writes[write] == state.database[id]
  }

  /** The row is enabled and its latest version has been put, perhaps by an earlier step. */
  ghost predicate Settled(state: State, id: PolicyId) {
    id in state.database && state.database[id].policy.enabled && !Announced(state, id)
  }

  /** A settled row is in the index as it is in the database. */
  ghost predicate CurrentAt(state: State, id: PolicyId) {
    Settled(state, id) ==> id in state.index && state.index[id] == state.database[id]
  }

  ghost predicate Current(state: State) {
    forall id | id in state.database :: CurrentAt(state, id)
  }

  /**
   A step that takes the index back: a refresh is loaded that read the table before the latest
   version of some settled row was committed, or an older version is put over a settled one.
   */
  ghost predicate Overtakes(state: State, step: Step) {
    match step
    case Load(refresh) =>
      refresh in state.refreshes &&
      exists id | id in state.database ::
        Settled(state, id) && state.refreshes[refresh].at <= state.database[id].commit
    case PutVersion(write) =>
      write in state.writes &&
      var version := state.writes[write];
      Settled(state, version.policy.id) && version.commit < state.database[version.policy.id].commit
    case _ => false
  }

  lemma CommitKeepsCurrent(state: State, write: nat, policy: Policy)
    requires Invariant(state) && Current(state) && write !in state.writes
    ensures Current(Next(state, CommitVersion(write, policy)))
  {
    var next := Next(state, CommitVersion(write, policy));
    forall id | id in next.database ensures CurrentAt(next, id) {
      if id == policy.id {
        assert next.writes[write] == next.database[id];
      } else {
        assert CurrentAt(state, id);
        if Announced(state, id) {
          var other :| other in state.writes && state.writes[other] == state.database[id];
          assert next.writes[other] == next.database[id];
        }
      }
    }
  }

  lemma LoadKeepsCurrent(state: State, refresh: nat)
    requires Invariant(state) && refresh in state.refreshes && !Overtakes(state, Load(refresh))
    ensures Current(Next(state, Load(refresh)))
  {
    var next := Next(state, Load(refresh));
    assert Genuine(state.refreshes[refresh], state.database);
    forall id | id in next.database ensures CurrentAt(next, id) {
      if next.database[id].policy.enabled && !Announced(next, id) {
        assert !Announced(state, id);
        assert Settled(state, id);
      }
    }
  }

  lemma PutKeepsCurrent(state: State, write: nat)
    requires Invariant(state) && Current(state) && write in state.writes && !Overtakes(state, PutVersion(write))
    ensures Current(Next(state, PutVersion(write)))
  {
    var version := state.writes[write];
    var next := Next(state, PutVersion(write));
    assert Past(version, state.database);
    hide Genuine;
    forall id | id in next.database ensures CurrentAt(next, id) {
      assert CurrentAt(state, id);
      if Announced(state, id) && id != version.policy.id {
        var other :| other in state.writes && state.writes[other] == state.database[id];
        assert state.database[id].policy.id == id;
        assert other != write;
        assert next.writes[other] == next.database[id];
      }
      if id == version.policy.id && Announced(state, id) && version != state.database[id] {
        var other :| other in state.writes && state.writes[other] == state.database[id];
        assert next.writes[other] == next.database[id];
      }
    }
  }

  lemma StepKeepsCurrent(state: State, step: Step)
    requires Invariant(state) && Current(state) && Enabled(state, step) && !Overtakes(state, step)
    ensures Current(Next(state, step))
  {
    match step
    case CommitVersion(write, policy) => CommitKeepsCurrent(state, write, policy);
    case PutVersion(write) => PutKeepsCurrent(state, write);
    case Load(refresh) => LoadKeepsCurrent(state, refresh);
    case Read(refresh) =>
      var next := Next(state, step);
      forall id | id in next.database ensures CurrentAt(next, id) {
        assert CurrentAt(state, id);
        assert Announced(next, id) == Announced(state, id);
      }
  }

  lemma OvertakingFallsBehind(state: State, step: Step)
    requires Invariant(state) && Enabled(state, step) && Overtakes(state, step)
    ensures !Current(Next(state, step))
  {
    var next := Next(state, step);
    match step
    case Load(refresh) =>
      assert Genuine(state.refreshes[refresh], state.database);
      var id :| id in state.database && Settled(state, id) && state.refreshes[refresh].at <= state.database[id].commit;
      assert Announced(next, id) == Announced(state, id);
      assert !CurrentAt(next, id);
    case PutVersion(write) =>
      var id := state.writes[write].policy.id;
      assert !Announced(next, id) by { NotAnnouncedLater(state, write, id); }
      assert !CurrentAt(next, id);
  }

  lemma NotAnnouncedLater(state: State, write: nat, id: PolicyId)
    requires write in state.writes && id in state.database && !Announced(state, id)
    ensures !Announced(Next(state, PutVersion(write)), id)
  {
    var next := Next(state, PutVersion(write));
    assert forall other | other in next.writes :: other in state.writes && next.writes[other] == state.writes[other];
  }

  ghost predicate Legal(state: State, steps: seq<Step>)
    decreases |steps|
  {
    steps == [] || (Enabled(state, steps[0]) && Legal(Next(state, steps[0]), steps[1..]))
  }

  ghost function After(state: State, steps: seq<Step>): State
    requires Legal(state, steps)
    decreases |steps|
  {
    if steps == [] then state else After(Next(state, steps[0]), steps[1..])
  }

  ghost predicate NeverOvertakes(state: State, steps: seq<Step>)
    requires Legal(state, steps)
    decreases |steps|
  {
    steps == [] || (!Overtakes(state, steps[0]) && NeverOvertakes(Next(state, steps[0]), steps[1..]))
  }

  ghost predicate CurrentThroughout(state: State, steps: seq<Step>)
    requires Legal(state, steps)
    decreases |steps|
  {
    Current(state) && (steps == [] || CurrentThroughout(Next(state, steps[0]), steps[1..]))
  }

  lemma {:induction false} ThroughoutExactly(state: State, steps: seq<Step>)
    requires Invariant(state) && Current(state) && Legal(state, steps)
    ensures CurrentThroughout(state, steps) <==> NeverOvertakes(state, steps)
    decreases |steps|
  {
    hide Invariant, Next, Enabled, Overtakes, Current;
    if steps != [] {
      StepKeeps(state, steps[0]);
      if Overtakes(state, steps[0]) {
        OvertakingFallsBehind(state, steps[0]);
      } else {
        StepKeepsCurrent(state, steps[0]);
        ThroughoutExactly(Next(state, steps[0]), steps[1..]);
      }
    }
  }

  /** In every run the index keeps up with all puts in all its states exactly if no step overtakes. */
  lemma IndexKeepsUpExactly(steps: seq<Step>)
    requires Legal(START, steps)
    ensures CurrentThroughout(START, steps) <==> NeverOvertakes(START, steps)
  {
    ThroughoutExactly(START, steps);
  }

  // ---------------------------------------------------------------- what Reserve sees

  function Policies(rows: Rows): Table {
    map id | id in rows :: rows[id].policy
  }

  /** The index turns a request away from the database although the policy query would return a row. */
  ghost predicate Misses(state: State, tenant: string, model: string) {
    SomeMatch(Policies(state.database), tenant, model) && !SomeMatch(Policies(state.index), tenant, model)
  }

  /** The index can miss a request only while every policy that holds it is on its way into the index, or behind. */
  lemma MissesOnlyUnsettled(state: State, tenant: string, model: string, id: PolicyId)
    requires Misses(state, tenant, model) && Current(state)
    requires id in state.database && Matches(state.database[id].policy, tenant, model)
    ensures Announced(state, id)
  {
    assert CurrentAt(state, id);
    assert id in state.index ==> Policies(state.index)[id] == state.index[id].policy;
  }

  /** A refresh that no commit overtakes repairs everything: the index then answers for the database. */
  lemma RefreshRepairs(state: State, refresh: nat, tenant: string, model: string)
    requires Invariant(state) && refresh in state.refreshes
    requires forall id | id in state.database :: state.database[id].commit < state.refreshes[refresh].at
    ensures SomeMatch(Policies(Next(state, Load(refresh)).index), tenant, model) <==>
            SomeMatch(Policies(state.database), tenant, model)
  {
    var reading := state.refreshes[refresh];
    assert Genuine(reading, state.database);
    var index, database := Policies(reading.rows), Policies(state.database);
    if SomeMatch(index, tenant, model) {
      var id :| id in index && Matches(index[id], tenant, model);
      assert database[id] == index[id];
    }
    if SomeMatch(database, tenant, model) {
      var id :| id in database && Matches(database[id], tenant, model);
      assert index[id] == database[id];
    }
  }

  /** The refresh reads, a policy is committed and put, the old reading is loaded: nobody holds the request. */
  lemma RefreshCanForgetAPolicy(policy: Policy) returns (steps: seq<Step>)
    requires policy.enabled
    ensures Legal(START, steps)
    ensures var state := After(START, steps);
            state.writes == map[] && Misses(state, policy.tenant, policy.model)
  {
    var version := Version(policy, 1);
    steps := [Read(0), CommitVersion(0, policy), PutVersion(0), Load(0)];
    var one := State(1, map[], map[], map[], map[0 := Reading(map[], 0)]);
    var two := State(2, map[policy.id := version], map[], map[0 := version], one.refreshes);
    var three := State(3, two.database, map[policy.id := version], map[], one.refreshes);
    var four := State(4, two.database, map[], map[], map[]);
    assert EnabledRows(map[]) == map[];
    assert Next(START, steps[0]) == one && Next(one, steps[1]) == two;
    assert Next(two, steps[2]) == three && Next(three, steps[3]) == four;
    assert steps[1..] == [CommitVersion(0, policy), PutVersion(0), Load(0)];
    assert steps[1..][1..] == [PutVersion(0), Load(0)] && steps[1..][1..][1..] == [Load(0)];
    assert [Load(0)][1..] == [];
    assert Legal(four, []) && Legal(three, [Load(0)]) && Legal(two, steps[1..][1..]);
    assert After(four, []) == four && After(three, [Load(0)]) == four;
    assert After(two, steps[1..][1..]) == four && After(one, steps[1..]) == four;
    assert Policies(four.database)[policy.id] == policy && Matches(policy, policy.tenant, policy.model);
  }

  /** Where the policy query would return nothing, passing at once is what the transaction would have done. */
  lemma ShortcutIsTheTransaction(ledger: Ledger, request: Request)
    ensures ReserveGroup(ledger, [], request) == Outcome.Commit(ledger, NO_DECISION)
  {
  }
}
