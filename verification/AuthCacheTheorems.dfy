/**
 Freshness of the two cache layers over every interleaving: Redis never holds a stale value,
 the local cache can, exactly when a load inserts what it read from Redis during an invalidation
 of the same owner, and the next invalidation of that owner repairs it.
 */
module AuthCacheTheorems {
  import opened Wrappers
  import opened L1Cache
  import opened RedisAuthCache
  import opened AuthCacheProtocol

  ghost predicate Legal(config: Config, state: State, steps: seq<Step>)
    decreases |steps|
  {
    steps == [] || (Enabled(config, state, steps[0]) && Legal(config, Next(config, state, steps[0]), steps[1..]))
  }

  ghost function After(config: Config, state: State, steps: seq<Step>): State
    requires Legal(config, state, steps)
    decreases |steps|
  {
    if steps == [] then state else After(config, Next(config, state, steps[0]), steps[1..])
  }

  lemma {:induction false} RunKeepsInvariant(config: Config, state: State, steps: seq<Step>)
    requires Invariant(config, state) && Legal(config, state, steps)
    ensures Invariant(config, After(config, state, steps))
    decreases |steps|
  {
    hide Invariant, Next, Enabled;
    if steps != [] {
      StepKeepsInvariant(config, state, steps[0]);
      RunKeepsInvariant(config, Next(config, state, steps[0]), steps[1..]);
    }
  }

  /**
   In every reachable state, a live Redis value was read from the database no earlier than the
   start of the last completed invalidation of its API key and of its tenant.
   */
  lemma SharedIsAlwaysFresh(config: Config, steps: seq<Step>, cacheKey: string)
    requires Legal(config, Initial(), steps)
    requires LivePayload(After(config, Initial(), steps).l2, cacheKey, After(config, Initial(), steps).now)
    ensures var state := After(config, Initial(), steps);
            Fresh(state.completed, state.l2[ValueKey(cacheKey)].snapshot)
  {
    RunKeepsInvariant(config, Initial(), steps);
  }

  /** A local entry is always fresh against every invalidation that a later one of the same owner has confirmed. */
  lemma LocalIsFreshOnceConfirmed(config: Config, steps: seq<Step>, entry: Entry)
    requires Legal(config, Initial(), steps)
    requires entry in After(config, Initial(), steps).l1
    ensures Fresh(After(config, Initial(), steps).confirmed, entry.snapshot)
  {
    RunKeepsInvariant(config, Initial(), steps);
  }

  /**
   Clearing an owner locally, as the echo of an invalidation message does, confirms whatever had
   completed for that owner before; nothing is ever unconfirmed.
   */
  lemma EchoConfirms(config: Config, state: State, step: Step)
    requires Invariant(config, state) && Enabled(config, state, step)
    ensures FloorsWithin(state.confirmed, Next(config, state, step).confirmed)
    ensures step.InvalidateLocal? ==>
      var writer := state.writer.value;
      FloorOf(Next(config, state, step).confirmed, writer.scope, writer.id) ==
      FloorOf(state.completed, writer.scope, writer.id)
  {
    if step.InvalidateLocal? {
      var writer := state.writer.value;
      var after := Next(config, state, step);
      forall scope, id ensures FloorOf(state.confirmed, scope, id) <= FloorOf(after.confirmed, scope, id) {
        assert FloorOf(state.confirmed, scope, id) <= FloorOf(state.atBump, scope, id);
      }
    }
  }

  // ---------------------------------------------------------------- local freshness, exactly

  /** A database read lies in the past; what Redis holds under the write lock is older than that lock. */
  ghost predicate PayloadsAged(state: State) {
    forall cacheKey | ValueKey(cacheKey) in state.l2 && state.l2[ValueKey(cacheKey)].Payload? ::
      var readAt := state.l2[ValueKey(cacheKey)].snapshot.readAt;
      readAt < state.tick && (state.writer.Some? ==> readAt < state.lastBump)
  }

  predicate LoadAged(state: State, phase: Phase) {
    match phase
    case FromShared(generation, snapshot, during) =>
      snapshot.readAt < state.tick &&
      (during && generation == state.generation ==> snapshot.readAt < state.lastBump)
    case FromDatabase(_, snapshot) => snapshot.readAt < state.tick
    case Storing(snapshot) => snapshot.readAt < state.tick
    case Caching(snapshot) => snapshot.readAt < state.tick
    case _ => true
  }

  ghost predicate Aged(state: State) {
    PayloadsAged(state) && forall id | id in state.loads :: LoadAged(state, state.loads[id].phase)
  }

  lemma StoreAges(config: Config, state: State, id: nat, succeeds: bool)
    requires Invariant(config, state) && Aged(state) && Enabled(config, state, PromoteStore(id, succeeds))
    ensures Aged(Next(config, state, PromoteStore(id, succeeds)))
  {
    hide Indexed, FloorOf, Fresh, FloorsKnown, SharedFresh;
    assert LoadAged(state, state.loads[id].phase);
    assert HoldsReadLock(state.loads[id].phase);
    assert state.writer.None?;
  }

  lemma BumpAges(config: Config, state: State, scope: Scope, owner: string)
    requires Invariant(config, state) && Aged(state) && Enabled(config, state, InvalidateBegin(scope, owner))
    ensures Aged(Next(config, state, InvalidateBegin(scope, owner)))
  {
    hide Indexed, FloorOf, Fresh, FloorsKnown, SharedFresh;
    var after := Next(config, state, InvalidateBegin(scope, owner));
    forall id | id in after.loads ensures LoadAged(after, after.loads[id].phase) {
      assert LoadAged(state, state.loads[id].phase) && LoadKnown(config, state, state.loads[id]);
    }
  }

  lemma StepAges(config: Config, state: State, step: Step)
    requires Invariant(config, state) && Aged(state) && Enabled(config, state, step)
    ensures Aged(Next(config, state, step))
  {
    match step
    case PromoteStore(id, succeeds) => StoreAges(config, state, id, succeeds);
    case InvalidateBegin(scope, owner) => BumpAges(config, state, scope, owner);
    case ReadShared(id) => ReadAges(config, state, id);
    case _ =>
      hide Invariant, Enabled;
      OthersAge(config, state, step);
  }

  lemma ReadAges(config: Config, state: State, id: nat)
    requires Aged(state) && Enabled(config, state, ReadShared(id))
    ensures Aged(Next(config, state, ReadShared(id)))
  {
    var snapshot := state.l2[ValueKey(state.loads[id].cacheKey)].snapshot;
    assert snapshot.readAt < state.tick && (state.writer.Some? ==> snapshot.readAt < state.lastBump);
  }

  lemma OthersAge(config: Config, state: State, step: Step)
    requires Aged(state) && Enabled(config, state, step)
    requires !step.PromoteStore? && !step.InvalidateBegin? && !step.ReadShared?
    ensures Aged(Next(config, state, step))
  {
    hide L1Cache.Stored, WithoutOwner, LookedUp, Located, WithStored;
  }

  /**
   The step that crosses an invalidation: a load inserts what it read from Redis while an
   invalidation of that very owner held the write lock, with the generation that invalidation
   had raised, and the invalidation has completed since.
   */
  predicate Crosses(state: State, step: Step) {
    step.CacheShared? && step.id in state.loads && state.loads[step.id].phase.FromShared? &&
    var phase := state.loads[step.id].phase;
    && phase.generation == state.generation
    && phase.during
    && Owner(phase.snapshot, state.lastScope) == state.lastId
    && FloorOf(state.completed, state.lastScope, state.lastId) == state.lastBump
  }

  /** A snapshot about to be inserted under the current generation is stale exactly if the step crosses. */
  lemma StaleInsertExactly(config: Config, state: State, id: nat)
    requires Invariant(config, state) && Aged(state) && Enabled(config, state, CacheShared(id))
    requires state.loads[id].phase.generation == state.generation
    ensures !Fresh(state.completed, state.loads[id].phase.snapshot) <==> Crosses(state, CacheShared(id))
  {
    hide Indexed, SharedFresh, LocalFresh;
    assert LoadKnown(config, state, state.loads[id]) && LoadAged(state, state.loads[id].phase);
  }

  /** The local cache is fresh, and clear of the owner an invalidation under way has dealt with. */
  ghost predicate Clean(state: State) {
    && LocalFresh(state, state.completed)
    && (state.writer.Some? && !state.writer.value.stage.Bumped? ==>
        forall entry :: entry in state.l1 ==> Owner(entry.snapshot, state.lastScope) != state.lastId)
  }

  lemma CleanInsert(config: Config, state: State, step: Step)
    requires Invariant(config, state) && Aged(state) && Clean(state) && Enabled(config, state, step)
    requires (step.CacheShared? && !Crosses(state, step)) || step.PromoteCache?
    ensures Clean(Next(config, state, step))
  {
    hide Indexed, FloorOf, Fresh, L1Cache.Stored, Crosses, Aged;
    var load := state.loads[step.id];
    assert LoadKnown(config, state, load);
    assert state.writer.None?;
    if step.PromoteCache? || load.phase.generation == state.generation {
      var snapshot := load.phase.snapshot;
      StoredAddsOne(state.l1, Entry(load.cacheKey, snapshot, Lifetime(snapshot, state.now, config.l1Ttl)), config.maxEntries);
      if step.PromoteCache? {
        FreshSince(state.completed, state.lastBump, snapshot);
      } else {
        StaleInsertExactly(config, state, step.id);
      }
    }
  }

  lemma CleanDelete(config: Config, state: State)
    requires Invariant(config, state) && Clean(state) && Enabled(config, state, InvalidateDelete)
    ensures Clean(Next(config, state, InvalidateDelete))
  {
    hide Indexed, Closed, CoversOwner;
    var after := Next(config, state, InvalidateDelete);
    forall entry | entry in after.l1 ensures Fresh(after.completed, entry.snapshot) {
      assert Fresh(state.completed, entry.snapshot) && Owner(entry.snapshot, state.lastScope) != state.lastId;
    }
  }

  lemma CleanStep(config: Config, state: State, step: Step)
    requires Invariant(config, state) && Aged(state) && Clean(state)
    requires Enabled(config, state, step) && !Crosses(state, step)
    ensures Clean(Next(config, state, step))
  {
    match step
    case CacheShared(_) => CleanInsert(config, state, step);
    case PromoteCache(_) => CleanInsert(config, state, step);
    case TouchLocal(cacheKey) =>
      hide Indexed, FloorOf, Fresh;
      LookedUpShrinks(state.l1, cacheKey, state.now);
    case InvalidateLocal =>
      hide Indexed, FloorOf, Fresh;
      WithoutOwnerExactly(state.l1, state.lastScope, state.lastId);
    case InvalidateDelete => CleanDelete(config, state);
    case _ => hide Indexed, FloorOf, Fresh;
  }

  lemma InsertedIsThere(list: seq<Entry>, entry: Entry, maxEntries: nat)
    requires maxEntries > 0
    ensures entry in L1Cache.Stored(list, entry, maxEntries)
  {
    assert L1Cache.Stored(list, entry, maxEntries)[0] == entry;
  }

  lemma CrossingIsStale(config: Config, state: State, step: Step)
    requires config.maxEntries > 0
    requires Invariant(config, state) && Aged(state) && Enabled(config, state, step) && Crosses(state, step)
    ensures var next := Next(config, state, step);
            !LocalFresh(next, next.completed)
  {
    StaleInsertExactly(config, state, step.id);
    hide Invariant, Aged, FloorOf, Fresh, L1Cache.Stored;
    var load := state.loads[step.id];
    var snapshot := load.phase.snapshot;
    var entry := Entry(load.cacheKey, snapshot, Lifetime(snapshot, state.now, config.l1Ttl));
    InsertedIsThere(state.l1, entry, config.maxEntries);
    assert entry in Next(config, state, step).l1;
  }

  ghost predicate NeverCrosses(config: Config, state: State, steps: seq<Step>)
    requires Legal(config, state, steps)
    decreases |steps|
  {
    steps == [] ||
    (!Crosses(state, steps[0]) && NeverCrosses(config, Next(config, state, steps[0]), steps[1..]))
  }

  /** The local cache is fresh against all completed invalidations in every state of the run. */
  ghost predicate LocalFreshThroughout(config: Config, state: State, steps: seq<Step>)
    requires Legal(config, state, steps)
    decreases |steps|
  {
    LocalFresh(state, state.completed) &&
    (steps == [] || LocalFreshThroughout(config, Next(config, state, steps[0]), steps[1..]))
  }

  lemma {:induction false} FreshThroughoutExactly(config: Config, state: State, steps: seq<Step>)
    requires config.maxEntries > 0
    requires Invariant(config, state) && Aged(state) && Clean(state) && Legal(config, state, steps)
    ensures LocalFreshThroughout(config, state, steps) <==> NeverCrosses(config, state, steps)
    decreases |steps|
  {
    hide Invariant, Aged, Next, Enabled, Crosses, LocalFresh;
    if steps != [] {
      var next := Next(config, state, steps[0]);
      StepKeepsInvariant(config, state, steps[0]);
      StepAges(config, state, steps[0]);
      if Crosses(state, steps[0]) {
        CrossingIsStale(config, state, steps[0]);
      } else {
        CleanStep(config, state, steps[0]);
        FreshThroughoutExactly(config, next, steps[1..]);
      }
    }
  }

  /** In every run from the start, the local cache is fresh in all its states exactly if no step crosses. */
  lemma LocalIsFreshExactly(config: Config, steps: seq<Step>)
    requires config.maxEntries > 0 && Legal(config, Initial(), steps)
    ensures LocalFreshThroughout(config, Initial(), steps) <==> NeverCrosses(config, Initial(), steps)
  {
    FreshThroughoutExactly(config, Initial(), steps);
  }

  // ---------------------------------------------------------------- lifetimes

  /** A snapshot that was promoted carries the moment its Redis value expires. */
  predicate Stamped(config: Config, state: State, snapshot: Snapshot) {
    0 < snapshot.cachedUntil <= state.now + config.l2Ttl
  }

  ghost predicate PayloadsTimely(config: Config, state: State) {
    && PointersLeadHome(state.l2, config.home)
    && forall cacheKey | ValueKey(cacheKey) in state.l2 && state.l2[ValueKey(cacheKey)].Payload? ::
         var cell := state.l2[ValueKey(cacheKey)];
         Stamped(config, state, cell.snapshot) && cell.until == cell.snapshot.cachedUntil
  }

  predicate LoadTimely(config: Config, state: State, phase: Phase) {
    (phase.FromShared? || phase.Caching? ==> Stamped(config, state, phase.snapshot))
  }

  predicate EntryTimely(config: Config, state: State, entry: Entry) {
    Stamped(config, state, entry.snapshot) &&
    entry.expiresAt <= entry.snapshot.cachedUntil && entry.expiresAt <= state.now + config.l1Ttl
  }

  ghost predicate Timely(config: Config, state: State) {
    && PayloadsTimely(config, state)
    && (forall id | id in state.loads :: LoadTimely(config, state, state.loads[id].phase))
    && (forall entry | entry in state.l1 :: EntryTimely(config, state, entry))
  }

  lemma InsertTimely(config: Config, state: State, step: Step)
    requires Timely(config, state) && Enabled(config, state, step) && (step.CacheShared? || step.PromoteCache?)
    ensures Timely(config, Next(config, state, step))
  {
    hide PayloadsTimely, L1Cache.Stored;
    var load := state.loads[step.id];
    var after := Next(config, state, step);
    assert PayloadsTimely(config, after) by { SamePayloads(config, state, after); }
    if step.PromoteCache? || load.phase.generation == state.generation {
      var snapshot := load.phase.snapshot;
      var entry := Entry(load.cacheKey, snapshot, Lifetime(snapshot, state.now, config.l1Ttl));
      StoredAddsOne(state.l1, entry, config.maxEntries);
      assert LoadTimely(config, state, load.phase);
    }
  }

  lemma SamePayloads(config: Config, state: State, after: State)
    requires PayloadsTimely(config, state) && after.l2 == state.l2 && state.now <= after.now
    ensures PayloadsTimely(config, after)
  {
  }

  lemma StoreTimely(config: Config, state: State, id: nat, succeeds: bool)
    requires config.l2Ttl > 0 && Invariant(config, state) && Timely(config, state)
    requires Enabled(config, state, PromoteStore(id, succeeds))
    ensures Timely(config, Next(config, state, PromoteStore(id, succeeds)))
  {
    hide Indexed, SharedFresh, FloorsKnown, WriterKnown;
    var load := state.loads[id];
    assert LoadKnown(config, state, load);
    var kept := load.phase.snapshot.(cachedUntil := state.now + config.l2Ttl);
    StoreLeadsHome(state.l2, load.cacheKey, kept, state.now, config.l2Ttl, config.home);
  }

  lemma StepTimely(config: Config, state: State, step: Step)
    requires config.l2Ttl > 0 && Invariant(config, state) && Timely(config, state) && Enabled(config, state, step)
    ensures Timely(config, Next(config, state, step))
  {
    match step
    case PromoteStore(id, succeeds) => StoreTimely(config, state, id, succeeds);
    case CacheShared(_) => InsertTimely(config, state, step);
    case PromoteCache(_) => InsertTimely(config, state, step);
    case TouchLocal(cacheKey) =>
      hide Invariant, PayloadsTimely;
      LookedUpShrinks(state.l1, cacheKey, state.now);
      SamePayloads(config, state, Next(config, state, step));
    case InvalidateLocal =>
      hide Invariant, PayloadsTimely;
      WithoutOwnerExactly(state.l1, state.writer.value.scope, state.writer.value.id);
      SamePayloads(config, state, Next(config, state, step));
    case ReadShared(_) => ReadTimely(config, state, step);
    case DropShared(_) => DeletionTimely(config, state, step);
    case InvalidateDelete => DeletionTimely(config, state, step);
    case _ => QuietTimely(config, state, step);
  }

  lemma ReadTimely(config: Config, state: State, step: Step)
    requires Timely(config, state) && Enabled(config, state, step) && step.ReadShared?
    ensures Timely(config, Next(config, state, step))
  {
    var after := Next(config, state, step);
    SamePayloads(config, state, after);
    var snapshot := state.l2[ValueKey(state.loads[step.id].cacheKey)].snapshot;
    assert Stamped(config, state, snapshot);
    hide PayloadsTimely;
  }

  lemma QuietTimely(config: Config, state: State, step: Step)
    requires Timely(config, state) && Enabled(config, state, step)
    requires step.Tick? || step.BeginLoad? || step.ReadDatabase? || step.PromoteBegin? ||
             step.InvalidateBegin? || step.InvalidateFind? || step.InvalidateFail?
    ensures Timely(config, Next(config, state, step))
  {
    hide PayloadsTimely, Located, L1Cache.Stored, LookedUp, WithoutOwner, WithStored;
    SamePayloads(config, state, Next(config, state, step));
  }

  lemma DeletionTimely(config: Config, state: State, step: Step)
    requires Timely(config, state) && Enabled(config, state, step) && (step.DropShared? || step.InvalidateDelete?)
    ensures Timely(config, Next(config, state, step))
  {
    hide Located, L1Cache.Stored, LookedUp, WithoutOwner, WithStored;
  }

  lemma {:induction false} RunTimely(config: Config, state: State, steps: seq<Step>)
    requires config.l2Ttl > 0 && Invariant(config, state) && Timely(config, state) && Legal(config, state, steps)
    ensures Timely(config, After(config, state, steps))
    decreases |steps|
  {
    hide Invariant, Timely, Next, Enabled;
    if steps != [] {
      StepKeepsInvariant(config, state, steps[0]);
      StepTimely(config, state, steps[0]);
      RunTimely(config, Next(config, state, steps[0]), steps[1..]);
    }
  }

  /** In every run, no local entry outlives its own lifetime or the Redis value it stems from. */
  lemma LocalNeverOutlives(config: Config, steps: seq<Step>, entry: Entry)
    requires config.l2Ttl > 0 && Legal(config, Initial(), steps) && entry in After(config, Initial(), steps).l1
    ensures var now := After(config, Initial(), steps).now;
            entry.expiresAt <= entry.snapshot.cachedUntil <= now + config.l2Ttl && entry.expiresAt <= now + config.l1Ttl
  {
    RunTimely(config, Initial(), steps);
  }

  /** In every run, invalidating an API key would remove its live value and no value of another key. */
  lemma InvalidationIsPrecise(config: Config, steps: seq<Step>, id: string, cacheKey: string)
    requires config.l2Ttl > 0 && Legal(config, Initial(), steps)
    requires forall other | other != id :: config.home(other) != config.home(id)
    requires LivePayload(After(config, Initial(), steps).l2, cacheKey, After(config, Initial(), steps).now)
    ensures var state := After(config, Initial(), steps);
            LivePayload(state.l2 - Located(state.l2, ByKey, id, state.now), cacheKey, state.now) <==>
            state.l2[ValueKey(cacheKey)].snapshot.keyId != id
  {
    RunTimely(config, Initial(), steps);
    RunKeepsInvariant(config, Initial(), steps);
    var state := After(config, Initial(), steps);
    hide Indexed, Located, SharedFresh, FloorsKnown, WriterKnown, LoadsKnown;
    InvalidateKeyExactly(state.l2, id, state.now, config.l2Ttl, config.home, cacheKey);
  }

  // ---------------------------------------------------------------- the race

  const KEY := "key"

  const HOME: Home := (id: string) => id

  const RACE_CONFIG := Config(1, 10, 10, HOME)

  const OLD := Snapshot(KEY, "tenant", 0, 1)

  lemma {:induction false} OneMoreStep(config: Config, state: State, steps: seq<Step>, step: Step)
    requires Legal(config, state, steps) && Enabled(config, After(config, state, steps), step)
    ensures Legal(config, state, steps + [step])
    ensures After(config, state, steps + [step]) == Next(config, After(config, state, steps), step)
    decreases |steps|
  {
    hide Next, Enabled;
    if steps == [] {
      assert steps + [step] == [step];
      assert Legal(config, Next(config, state, step), []);
    } else {
      OneMoreStep(config, Next(config, state, steps[0]), steps[1..], step);
      assert (steps + [step])[1..] == steps[1..] + [step];
    }
  }

  const CACHED := Snapshot(KEY, "tenant", 10, 1)

  /** The first five steps of the race: a snapshot is loaded and promoted to both layers. */
  lemma Warmed() returns (steps: seq<Step>)
    ensures Legal(RACE_CONFIG, Initial(), steps)
    ensures After(RACE_CONFIG, Initial(), steps) ==
            Initial().(tick := 5, l1 := [Entry(KEY, CACHED, 10)], l2 := WARM,
                       loads := map[0 := Load(KEY, Ended)])
  {
    steps := [];
    var start := Initial();
    OneMoreStep(RACE_CONFIG, start, steps, BeginLoad(0, KEY));
    steps := steps + [BeginLoad(0, KEY)];
    OneMoreStep(RACE_CONFIG, start, steps, ReadDatabase(0, OLD));
    steps := steps + [ReadDatabase(0, OLD)];
    OneMoreStep(RACE_CONFIG, start, steps, PromoteBegin(0));
    steps := steps + [PromoteBegin(0)];
    OneMoreStep(RACE_CONFIG, start, steps, PromoteStore(0, true));
    steps := steps + [PromoteStore(0, true)];
    assert After(RACE_CONFIG, start, steps).loads == map[0 := Load(KEY, Caching(CACHED))];
    OneMoreStep(RACE_CONFIG, start, steps, PromoteCache(0));
    steps := steps + [PromoteCache(0)];
    assert After(RACE_CONFIG, start, steps).loads == map[0 := Load(KEY, Ended)];
  }

  const WARM := WithStored(map[], KEY, CACHED, 0, 10)

  lemma WarmIsLive()
    ensures LivePayload(WARM, KEY, 0) && WARM[ValueKey(KEY)].snapshot == CACHED
  {
  }

  const CLEARED := Initial().(
    tick := 7, generation := 1, l2 := WARM, loads := map[0 := Load(KEY, Ended)],
    writer := Some(Invalidation(ByKey, KEY, 5, LocalCleared)),
    lastBump := 5, lastScope := ByKey, lastId := KEY, confirmed := Floors(map[KEY := 0], map[]))

  /** Two more steps: an invalidation has raised the generation and cleared the local cache. */
  lemma Cleared() returns (steps: seq<Step>)
    ensures Legal(RACE_CONFIG, Initial(), steps) && After(RACE_CONFIG, Initial(), steps) == CLEARED
  {
    hide WithStored;
    var start := Initial();
    steps := Warmed();
    OneMoreStep(RACE_CONFIG, start, steps, InvalidateBegin(ByKey, KEY));
    steps := steps + [InvalidateBegin(ByKey, KEY)];
    OneMoreStep(RACE_CONFIG, start, steps, InvalidateLocal);
    steps := steps + [InvalidateLocal];
    assert [Entry(KEY, CACHED, 10)][1..] == [];
    assert WithoutOwner([Entry(KEY, CACHED, 10)], ByKey, KEY) == [];
    assert After(RACE_CONFIG, start, steps).confirmed.keys == map[KEY := 0];
  }

  /** Two more steps: a load reads the new generation and then Redis, whose value is still there. */
  lemma Crossed() returns (steps: seq<Step>)
    ensures Legal(RACE_CONFIG, Initial(), steps)
    ensures After(RACE_CONFIG, Initial(), steps) ==
            CLEARED.(tick := 9,
                     loads := map[0 := Load(KEY, Ended), 1 := Load(KEY, FromShared(1, CACHED, true))])
  {
    WarmIsLive();
    hide WithStored;
    var start := Initial();
    steps := Cleared();
    OneMoreStep(RACE_CONFIG, start, steps, BeginLoad(1, KEY));
    steps := steps + [BeginLoad(1, KEY)];
    OneMoreStep(RACE_CONFIG, start, steps, ReadShared(1));
    steps := steps + [ReadShared(1)];
    assert After(RACE_CONFIG, start, steps).loads ==
           map[0 := Load(KEY, Ended), 1 := Load(KEY, FromShared(1, CACHED, true))];
  }

  /** Two more steps: the invalidation deletes the value from Redis and is over. */
  lemma Completed() returns (steps: seq<Step>)
    ensures Legal(RACE_CONFIG, Initial(), steps)
    ensures var state := After(RACE_CONFIG, Initial(), steps);
            && state.writer.None? && state.generation == 1 && state.l1 == [] && state.now == 0
            && 1 in state.loads && state.loads[1] == Load(KEY, FromShared(1, CACHED, true))
            && FloorOf(state.completed, ByKey, KEY) == 5
  {
    hide WithStored, Located;
    var start := Initial();
    steps := Crossed();
    OneMoreStep(RACE_CONFIG, start, steps, InvalidateFind);
    steps := steps + [InvalidateFind];
    OneMoreStep(RACE_CONFIG, start, steps, InvalidateDelete);
    steps := steps + [InvalidateDelete];
  }

  /**
   The race. After the invalidation has raised the generation and cleared the local cache, a
   load reads the new generation and then the value that is about to be deleted from Redis. Once
   the invalidation is over, the generation still matches and the old snapshot enters the local cache.
   */
  lemma LocalCanBeStale() returns (steps: seq<Step>, entry: Entry)
    ensures Legal(RACE_CONFIG, Initial(), steps)
    ensures var state := After(RACE_CONFIG, Initial(), steps);
            && state.writer.None?
            && entry in state.l1 && state.now < entry.expiresAt
            && !Fresh(state.completed, entry.snapshot)
  {
    var start := Initial();
    steps := Completed();
    OneMoreStep(RACE_CONFIG, start, steps, CacheShared(1));
    steps := steps + [CacheShared(1)];
    entry := Entry(KEY, CACHED, 10);
  }
}
