/**
 Loads, promotions and invalidations of the credential store, interleaved at every shared
 access (internal/apikey/cache.go). An invalidation holds the write lock; a promotion holds
 the read lock; a load takes no lock until it wants to insert into the local cache.

 Every step advances `tick`, so ticks order events; `now` is the clock that expiries use.
 */
module AuthCacheProtocol {
  import opened Wrappers
  import opened L1Cache
  import opened RedisAuthCache

  /** For each API key and tenant, the tick at which an invalidation began. */
  datatype Floors = Floors(keys: map<string, nat>, tenants: map<string, nat>)

  function FloorOf(floors: Floors, scope: Scope, id: string): nat {
    var table := if scope.ByKey? then floors.keys else floors.tenants;
    if id in table then table[id] else 0
  }

  function Raised(floors: Floors, scope: Scope, id: string, tick: nat): Floors {
    match scope
    case ByKey => floors.(keys := floors.keys[id := tick])
    case ByTenant => floors.(tenants := floors.tenants[id := tick])
  }

  /** The snapshot's database read began no earlier than its floors. */
  predicate Fresh(floors: Floors, snapshot: Snapshot) {
    && FloorOf(floors, ByKey, snapshot.keyId) <= snapshot.readAt
    && FloorOf(floors, ByTenant, snapshot.tenantId) <= snapshot.readAt
  }

  datatype Stage = Bumped | LocalCleared | Found(targets: set<RedisKey>)

  /** An invalidation under way: it has raised the generation at `start` and holds the write lock. */
  datatype Invalidation = Invalidation(scope: Scope, id: string, start: nat, stage: Stage)

  datatype Phase =
    | Began(generation: nat)
    | FromShared(generation: nat, snapshot: Snapshot, during: bool)
    | FromDatabase(generation: nat, snapshot: Snapshot)
    | Storing(snapshot: Snapshot)
    | Caching(snapshot: Snapshot)
    | Ended

  datatype Load = Load(cacheKey: string, phase: Phase)

  datatype State = State(
    tick: nat,
    now: nat,
    generation: nat,
    l1: seq<Entry>,
    l2: Cells,
    loads: map<nat, Load>,
    writer: Option<Invalidation>,
    lastBump: nat,
    lastScope: Scope,
    lastId: string,
    completed: Floors,
    atBump: Floors,
    confirmed: Floors)

  const NO_FLOORS := Floors(map[], map[])

  datatype Config = Config(maxEntries: nat, l1Ttl: nat, l2Ttl: nat, home: Home)

  function Initial(): State {
    State(0, 0, 0, [], map[], map[], None, 0, ByKey, "", NO_FLOORS, NO_FLOORS, NO_FLOORS)
  }

  datatype Step =
    | Tick(later: nat)
    | TouchLocal(cacheKey: string)
    | BeginLoad(id: nat, cacheKey: string)
    | ReadShared(id: nat)
    | DropShared(id: nat)
    | ReadDatabase(id: nat, snapshot: Snapshot)
    | CacheShared(id: nat)
    | PromoteBegin(id: nat)
    | PromoteStore(id: nat, succeeds: bool)
    | PromoteCache(id: nat)
    | InvalidateBegin(scope: Scope, owner: string)
    | InvalidateLocal
    | InvalidateFind
    | InvalidateDelete
    | InvalidateFail

  predicate HoldsReadLock(phase: Phase) {
    phase.Storing? || phase.Caching?
  }

  predicate NoReaders(loads: map<nat, Load>) {
    forall id :: id in loads ==> !HoldsReadLock(loads[id].phase)
  }

  predicate Enabled(config: Config, state: State, step: Step) {
    match step
    case Tick(later) => state.now <= later
    case TouchLocal(_) => true
    case BeginLoad(id, _) => id !in state.loads
    case ReadShared(id) =>
      id in state.loads && state.loads[id].phase.Began? && LivePayload(state.l2, state.loads[id].cacheKey, state.now)
    case DropShared(id) => id in state.loads && state.loads[id].phase.Began?
    case ReadDatabase(id, snapshot) =>
      && id in state.loads && state.loads[id].phase.Began?
      && snapshot.readAt == state.tick && config.home(snapshot.keyId) == state.loads[id].cacheKey
    case CacheShared(id) => id in state.loads && state.loads[id].phase.FromShared? && state.writer.None?
    case PromoteBegin(id) => id in state.loads && state.loads[id].phase.FromDatabase? && state.writer.None?
    case PromoteStore(id, _) => id in state.loads && state.loads[id].phase.Storing?
    case PromoteCache(id) => id in state.loads && state.loads[id].phase.Caching?
    case InvalidateBegin(_, _) => state.writer.None? && NoReaders(state.loads)
    case InvalidateLocal => state.writer.Some? && state.writer.value.stage.Bumped?
    case InvalidateFind => state.writer.Some? && state.writer.value.stage.LocalCleared?
    case InvalidateDelete => state.writer.Some? && state.writer.value.stage.Found?
    case InvalidateFail => state.writer.Some? && !state.writer.value.stage.Bumped?
  }

  function WithPhase(state: State, id: nat, phase: Phase): map<nat, Load>
    requires id in state.loads
  {
    state.loads[id := state.loads[id].(phase := phase)]
  }

  function Inserted(config: Config, state: State, cacheKey: string, snapshot: Snapshot): seq<Entry> {
    L1Cache.Stored(state.l1, Entry(cacheKey, snapshot, Lifetime(snapshot, state.now, config.l1Ttl)), config.maxEntries)
  }

  function Next(config: Config, before: State, step: Step): State
    requires Enabled(config, before, step)
  {
    var state := before.(tick := before.tick + 1);
    match step
    case Tick(later) => state.(now := later)
    case TouchLocal(cacheKey) => state.(l1 := LookedUp(state.l1, cacheKey, state.now).1)
    case BeginLoad(id, cacheKey) => state.(loads := state.loads[id := Load(cacheKey, Began(state.generation))])
    case ReadShared(id) =>
      var load := state.loads[id];
      state.(loads := WithPhase(state, id,
        FromShared(load.phase.generation, state.l2[ValueKey(load.cacheKey)].snapshot, state.writer.Some?)))
    case DropShared(id) => state.(l2 := state.l2 - {ValueKey(state.loads[id].cacheKey)})
    case ReadDatabase(id, snapshot) =>
      state.(loads := WithPhase(state, id, FromDatabase(state.loads[id].phase.generation, snapshot)))
    case CacheShared(id) =>
      var load := state.loads[id];
      state.(loads := WithPhase(state, id, Ended),
             l1 := if load.phase.generation == state.generation
                   then Inserted(config, state, load.cacheKey, load.phase.snapshot) else state.l1)
    case PromoteBegin(id) =>
      var phase := state.loads[id].phase;
      if phase.generation == state.generation then state.(loads := WithPhase(state, id, Storing(phase.snapshot)))
      else state
    case PromoteStore(id, succeeds) =>
      var load := state.loads[id];
      var kept := load.phase.snapshot.(cachedUntil := state.now + config.l2Ttl);
      state.(loads := WithPhase(state, id, Caching(kept)),
             l2 := if succeeds then WithStored(state.l2, load.cacheKey, kept, state.now, config.l2Ttl) else state.l2)
    case PromoteCache(id) =>
      var load := state.loads[id];
      state.(loads := WithPhase(state, id, Ended),
             l1 := Inserted(config, state, load.cacheKey, load.phase.snapshot))
    case InvalidateBegin(scope, owner) =>
      state.(generation := state.generation + 1,
             lastBump := before.tick, lastScope := scope, lastId := owner,
             atBump := state.completed,
             writer := Some(Invalidation(scope, owner, before.tick, Bumped)))
    case InvalidateLocal =>
      var writer := state.writer.value;
      state.(l1 := WithoutOwner(state.l1, writer.scope, writer.id),
             confirmed := Raised(state.confirmed, writer.scope, writer.id, FloorOf(state.completed, writer.scope, writer.id)),
             writer := Some(writer.(stage := LocalCleared)))
    case InvalidateFind =>
      var writer := state.writer.value;
      state.(writer := Some(writer.(stage := Found(Located(state.l2, writer.scope, writer.id, state.now)))))
    case InvalidateDelete =>
      var writer := state.writer.value;
      state.(l2 := state.l2 - writer.stage.targets,
             completed := Raised(state.completed, writer.scope, writer.id, writer.start),
             writer := None)
    case InvalidateFail => state.(writer := None)
  }

  // ---------------------------------------------------------------- the invariant

  ghost predicate FloorsWithin(low: Floors, high: Floors) {
    forall scope, id :: FloorOf(low, scope, id) <= FloorOf(high, scope, id)
  }

  ghost predicate FloorsBelow(floors: Floors, tick: nat) {
    forall scope, id :: FloorOf(floors, scope, id) <= tick
  }

  /** Since the generation last rose, only the invalidation that raised it can have completed. */
  ghost predicate FloorsKnown(state: State) {
    && FloorsBelow(state.completed, state.lastBump) && state.lastBump <= state.tick
    && FloorsWithin(state.confirmed, state.atBump)
    && FloorsWithin(state.atBump, state.completed)
    && (state.completed == state.atBump ||
        (state.writer.None? && state.completed == Raised(state.atBump, state.lastScope, state.lastId, state.lastBump)))
  }

  ghost predicate WriterKnown(config: Config, state: State) {
    state.writer.Some? ==>
      && NoReaders(state.loads)
      && state.writer.value.scope == state.lastScope && state.writer.value.id == state.lastId
      && state.writer.value.start == state.lastBump
      && state.completed == state.atBump
      && (state.writer.value.stage.Found? ==>
          var targets := state.writer.value.stage.targets;
          && CoversOwner(state.l2, targets, state.lastScope, state.lastId, state.now)
          && Closed(state.l2, targets, state.now, config.home))
  }

  ghost predicate LoadKnown(config: Config, state: State, load: Load) {
    match load.phase
    case Began(generation) => generation <= state.generation
    case FromShared(generation, snapshot, during) =>
      && generation <= state.generation
      && (generation == state.generation ==>
          && Fresh(state.atBump, snapshot)
          && (!during ==> Fresh(state.completed, snapshot) && state.writer.None?))
    case FromDatabase(generation, snapshot) =>
      && generation <= state.generation
      && config.home(snapshot.keyId) == load.cacheKey
      && (generation == state.generation ==> snapshot.readAt >= state.lastBump)
    case Storing(snapshot) => snapshot.readAt >= state.lastBump && config.home(snapshot.keyId) == load.cacheKey
    case Caching(snapshot) => snapshot.readAt >= state.lastBump
    case Ended => true
  }

  ghost predicate LoadsKnown(config: Config, state: State) {
    forall id :: id in state.loads ==> LoadKnown(config, state, state.loads[id])
  }

  /** No live value in Redis was read before the last completed invalidation of its key or tenant began. */
  ghost predicate SharedFresh(state: State) {
    forall cacheKey | LivePayload(state.l2, cacheKey, state.now) ::
      Fresh(state.completed, state.l2[ValueKey(cacheKey)].snapshot)
  }

  ghost predicate LocalFresh(state: State, floors: Floors) {
    forall entry :: entry in state.l1 ==> Fresh(floors, entry.snapshot)
  }

  ghost predicate Invariant(config: Config, state: State) {
    && FloorsKnown(state)
    && WriterKnown(config, state)
    && LoadsKnown(config, state)
    && Indexed(state.l2, state.now, config.l2Ttl, config.home)
    && SharedFresh(state)
    && LocalFresh(state, state.confirmed)
  }

  lemma LookedUpShrinks(list: seq<Entry>, cacheKey: string, now: nat)
    ensures forall entry :: entry in LookedUp(list, cacheKey, now).1 ==> entry in list
  {
    WithoutExactly(list, {cacheKey});
  }

  lemma StoredAddsOne(list: seq<Entry>, entry: Entry, maxEntries: nat)
    ensures forall other :: other in L1Cache.Stored(list, entry, maxEntries) ==> other == entry || other in list
  {
    WithoutExactly(list, {entry.cacheKey});
  }

  lemma LocalStep(config: Config, state: State, cacheKey: string)
    requires Invariant(config, state)
    ensures Invariant(config, Next(config, state, TouchLocal(cacheKey)))
  {
    hide Indexed, CoversOwner, Closed, Fresh, FloorOf;
    LookedUpShrinks(state.l1, cacheKey, state.now);
  }

  lemma ClockStep(config: Config, state: State, later: nat)
    requires Invariant(config, state) && state.now <= later
    ensures Invariant(config, Next(config, state, Tick(later)))
  {
    hide Indexed, Fresh, FloorOf;
    IndexedLater(state.l2, state.now, later, config.l2Ttl, config.home);
    assert forall cacheKey :: LivePayload(state.l2, cacheKey, later) ==> LivePayload(state.l2, cacheKey, state.now);
  }

  lemma LoadStep(config: Config, state: State, step: Step)
    requires Invariant(config, state) && Enabled(config, state, step)
    requires step.BeginLoad? || step.ReadShared? || step.ReadDatabase? || step.PromoteBegin?
    ensures Invariant(config, Next(config, state, step))
  {
    hide Indexed, CoversOwner, Closed, FloorOf;
    if step.ReadShared? {
      assert Fresh(state.completed, state.l2[ValueKey(state.loads[step.id].cacheKey)].snapshot);
      FreshBelow(state.atBump, state.completed, state.l2[ValueKey(state.loads[step.id].cacheKey)].snapshot);
    }
  }

  lemma FreshBelow(low: Floors, high: Floors, snapshot: Snapshot)
    requires FloorsWithin(low, high) && Fresh(high, snapshot)
    ensures Fresh(low, snapshot)
  {
    assert FloorOf(low, ByKey, snapshot.keyId) <= FloorOf(high, ByKey, snapshot.keyId);
    assert FloorOf(low, ByTenant, snapshot.tenantId) <= FloorOf(high, ByTenant, snapshot.tenantId);
  }

  lemma FreshSince(floors: Floors, tick: nat, snapshot: Snapshot)
    requires FloorsBelow(floors, tick) && tick <= snapshot.readAt
    ensures Fresh(floors, snapshot)
  {
    assert FloorOf(floors, ByKey, snapshot.keyId) <= tick;
    assert FloorOf(floors, ByTenant, snapshot.tenantId) <= tick;
  }

  lemma DropStep(config: Config, state: State, id: nat)
    requires Invariant(config, state) && Enabled(config, state, DropShared(id))
    ensures Invariant(config, Next(config, state, DropShared(id)))
  {
    hide Indexed, FloorOf, Fresh;
    var after := Next(config, state, DropShared(id));
    DeleteValueKeepsIndexed(state.l2, state.loads[id].cacheKey, state.now, config.l2Ttl, config.home);
    assert forall cacheKey :: LivePayload(after.l2, cacheKey, state.now) ==>
      LivePayload(state.l2, cacheKey, state.now) && after.l2[ValueKey(cacheKey)] == state.l2[ValueKey(cacheKey)];
  }

  lemma CacheStep(config: Config, state: State, step: Step)
    requires Invariant(config, state) && Enabled(config, state, step)
    requires step.CacheShared? || step.PromoteCache?
    ensures Invariant(config, Next(config, state, step))
  {
    hide Indexed, CoversOwner, Closed, FloorOf, Fresh, L1Cache.Stored;
    var load := state.loads[step.id];
    assert LoadKnown(config, state, load);
    if step.PromoteCache? || load.phase.generation == state.generation {
      var snapshot := load.phase.snapshot;
      var entry := Entry(load.cacheKey, snapshot, Lifetime(snapshot, state.now, config.l1Ttl));
      StoredAddsOne(state.l1, entry, config.maxEntries);
      if step.PromoteCache? {
        FreshSince(state.completed, state.lastBump, snapshot);
        FreshBelow(state.atBump, state.completed, snapshot);
      }
      FreshBelow(state.confirmed, state.atBump, snapshot);
    }
  }

  lemma StoreStep(config: Config, state: State, id: nat, succeeds: bool)
    requires Invariant(config, state) && Enabled(config, state, PromoteStore(id, succeeds))
    ensures Invariant(config, Next(config, state, PromoteStore(id, succeeds)))
  {
    hide Indexed, FloorOf, Fresh, FloorsKnown;
    var load := state.loads[id];
    assert LoadKnown(config, state, load);
    assert state.writer.None?;
    var after := Next(config, state, PromoteStore(id, succeeds));
    var kept := load.phase.snapshot.(cachedUntil := state.now + config.l2Ttl);
    assert FloorsBelow(state.completed, state.lastBump) && FloorsKnown(after) by { FloorsStay(state, after); }
    FreshSince(state.completed, state.lastBump, kept);
    if succeeds {
      StoreKeepsIndexed(state.l2, load.cacheKey, kept, state.now, config.l2Ttl, config.home);
    }
  }

  lemma FloorsStay(state: State, after: State)
    requires FloorsKnown(state)
    requires after.completed == state.completed && after.atBump == state.atBump && after.confirmed == state.confirmed
    requires after.lastBump == state.lastBump && after.lastScope == state.lastScope && after.lastId == state.lastId
    requires after.writer == state.writer && after.tick >= state.tick
    ensures FloorsBelow(state.completed, state.lastBump)
    ensures FloorsKnown(after)
  {
  }

  lemma BumpStep(config: Config, state: State, scope: Scope, owner: string)
    requires Invariant(config, state) && Enabled(config, state, InvalidateBegin(scope, owner))
    ensures Invariant(config, Next(config, state, InvalidateBegin(scope, owner)))
  {
    hide Indexed, CoversOwner, Closed, FloorOf, Fresh;
    var after := Next(config, state, InvalidateBegin(scope, owner));
    forall id | id in after.loads ensures LoadKnown(config, after, after.loads[id]) {
      assert LoadKnown(config, state, state.loads[id]);
    }
    assert FloorsWithin(after.confirmed, after.atBump);
  }

  lemma ClearStep(config: Config, state: State)
    requires Invariant(config, state) && Enabled(config, state, InvalidateLocal)
    ensures Invariant(config, Next(config, state, InvalidateLocal))
  {
    hide Indexed, CoversOwner, Closed;
    var writer := state.writer.value;
    var after := Next(config, state, InvalidateLocal);
    WithoutOwnerExactly(state.l1, writer.scope, writer.id);
    forall entry | entry in after.l1 ensures Fresh(after.confirmed, entry.snapshot) {
      assert Fresh(state.confirmed, entry.snapshot);
    }
  }

  lemma FindStep(config: Config, state: State)
    requires Invariant(config, state) && Enabled(config, state, InvalidateFind)
    ensures Invariant(config, Next(config, state, InvalidateFind))
  {
    hide Indexed, FloorOf, Fresh, CoversOwner, Closed;
    LocatedCoversOwner(state.l2, state.lastScope, state.lastId, state.now, config.l2Ttl, config.home);
  }

  lemma RaisedFloors(floors: Floors, scope: Scope, id: string, tick: nat)
    requires FloorsBelow(floors, tick)
    ensures FloorsBelow(Raised(floors, scope, id, tick), tick)
    ensures FloorsWithin(floors, Raised(floors, scope, id, tick))
  {
    forall s, i ensures FloorOf(floors, s, i) <= FloorOf(Raised(floors, scope, id, tick), s, i) <= tick {
      assert FloorOf(floors, s, i) <= tick;
    }
  }

  lemma DeleteStep(config: Config, state: State)
    requires Invariant(config, state) && Enabled(config, state, InvalidateDelete)
    ensures Invariant(config, Next(config, state, InvalidateDelete))
  {
    hide Indexed;
    var targets := state.writer.value.stage.targets;
    var after := Next(config, state, InvalidateDelete);
    InvalidateKeepsIndexed(state.l2, targets, state.now, config.l2Ttl, config.home);
    RaisedFloors(state.completed, state.lastScope, state.lastId, state.lastBump);
    forall cacheKey | LivePayload(after.l2, cacheKey, after.now)
      ensures Fresh(after.completed, after.l2[ValueKey(cacheKey)].snapshot)
    {
      assert LivePayload(state.l2, cacheKey, state.now);
      assert Fresh(state.completed, state.l2[ValueKey(cacheKey)].snapshot);
    }
    forall id | id in after.loads ensures LoadKnown(config, after, after.loads[id]) {
      assert LoadKnown(config, state, state.loads[id]);
    }
  }

  lemma FailStep(config: Config, state: State)
    requires Invariant(config, state) && Enabled(config, state, InvalidateFail)
    ensures Invariant(config, Next(config, state, InvalidateFail))
  {
    hide Indexed, CoversOwner, Closed, FloorOf, Fresh;
    forall id | id in state.loads ensures LoadKnown(config, Next(config, state, InvalidateFail), state.loads[id]) {
      assert LoadKnown(config, state, state.loads[id]);
    }
  }

  /** Every step of every participant keeps the invariant. */
  lemma StepKeepsInvariant(config: Config, state: State, step: Step)
    requires Invariant(config, state) && Enabled(config, state, step)
    ensures Invariant(config, Next(config, state, step))
  {
    hide Invariant, Next;
    match step
    case Tick(later) => ClockStep(config, state, later);
    case TouchLocal(cacheKey) => LocalStep(config, state, cacheKey);
    case BeginLoad(_, _) => LoadStep(config, state, step);
    case ReadShared(_) => LoadStep(config, state, step);
    case ReadDatabase(_, _) => LoadStep(config, state, step);
    case PromoteBegin(_) => LoadStep(config, state, step);
    case DropShared(id) => DropStep(config, state, id);
    case CacheShared(_) => CacheStep(config, state, step);
    case PromoteCache(_) => CacheStep(config, state, step);
    case PromoteStore(id, succeeds) => StoreStep(config, state, id, succeeds);
    case InvalidateBegin(scope, owner) => BumpStep(config, state, scope, owner);
    case InvalidateLocal => ClearStep(config, state);
    case InvalidateFind => FindStep(config, state);
    case InvalidateDelete => DeleteStep(config, state);
    case InvalidateFail => FailStep(config, state);
  }
}
