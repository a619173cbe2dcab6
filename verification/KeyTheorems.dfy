/**
 Provider keys over whole runs, with any set of selections outstanding: cooldowns are
 honoured to their end and a disabled key is never used again.
 */
module KeyTheorems {
  import opened Wrappers
  import opened Failure
  import opened KeySelector

  /** A selection not yet completed, and the time at which it was made. */
  datatype Pending = Pending(selection: Selection, at: int)

  datatype World = World(keys: seq<Key>, pending: map<nat, Pending>, issued: nat, clock: int)

  /**
   A selection reads the clock before it takes the lock, so its time may lie behind the clock;
   a completion reads the clock under the lock.
   */
  datatype Step =
    | Tick(now: int)
    | Select(index: nat, at: int)
    | Complete(id: nat, failure: Option<Failure>)

  predicate Enabled(world: World, step: Step) {
    match step
    case Tick(now) => world.clock <= now
    case Select(index, at) =>
      ZERO_TIME <= at <= world.clock && index < |world.keys| && Available(world.keys[index], {}, at)
    case Complete(id, _) => id in world.pending && world.pending[id].selection.index < |world.keys|
  }

  function Next(world: World, step: Step): World
    requires Enabled(world, step)
  {
    match step
    case Tick(now) => world.(clock := now)
    case Select(index, at) =>
      world.(pending := world.pending[world.issued := Pending(Selection(index, world.keys[index].version), at)],
             issued := world.issued + 1)
    case Complete(id, failure) =>
      var used := world.pending[id].selection;
      world.(keys := world.keys[used.index := KeyAfter(world.keys[used.index], used.version, failure, world.clock)],
             pending := world.pending - {id})
  }

  /** A pending selection whose key has not changed since was made when no cooldown was in force. */
  predicate Observed(keys: seq<Key>, pending: Pending, clock: int) {
    && pending.selection.index < |keys|
    && pending.at <= clock
    && pending.selection.version <= keys[pending.selection.index].version
    && (pending.selection.version == keys[pending.selection.index].version ==>
          keys[pending.selection.index].cooldownUntil <= pending.at)
  }

  predicate Invariant(world: World) {
    && ZERO_TIME <= world.clock
    && forall id | id in world.pending :: Observed(world.keys, world.pending[id], world.clock)
  }

  /** What a step may do to a key: a cooldown still in force is never shortened, and disabling is final. */
  predicate KeyPreserved(before: Key, after: Key, clock: int) {
    && after.id == before.id
    && before.version <= after.version
    && (before.disabled ==> after.disabled)
    && (!after.disabled && clock < before.cooldownUntil ==> before.cooldownUntil <= after.cooldownUntil)
    && (before.version == after.version ==>
          after.cooldownUntil <= before.cooldownUntil || after.cooldownUntil == ZERO_TIME)
  }

  lemma CompletionPreserves(world: World, id: nat, failure: Option<Failure>)
    requires Invariant(world) && id in world.pending
    ensures var used := world.pending[id].selection;
            used.index < |world.keys| &&
            KeyPreserved(world.keys[used.index],
                         KeyAfter(world.keys[used.index], used.version, failure, world.clock), world.clock)
  {
    assert Observed(world.keys, world.pending[id], world.clock);
  }

  lemma StepPreservesKeys(world: World, step: Step)
    requires Invariant(world) && Enabled(world, step)
    ensures var next := Next(world, step);
            |next.keys| == |world.keys| && world.clock <= next.clock &&
            forall k | 0 <= k < |world.keys| :: KeyPreserved(world.keys[k], next.keys[k], world.clock)
  {
    if step.Complete? {
      CompletionPreserves(world, step.id, step.failure);
      hide KeyAfter, Observed;
    }
  }

  lemma StillObserved(before: seq<Key>, after: seq<Key>, pending: Pending, clock: int, later: int)
    requires Observed(before, pending, clock) && ZERO_TIME <= pending.at && clock <= later
    requires |before| == |after| && KeyPreserved(before[pending.selection.index], after[pending.selection.index], clock)
    ensures Observed(after, pending, later)
  {
  }

  predicate TimesKnown(world: World) {
    forall id | id in world.pending :: ZERO_TIME <= world.pending[id].at
  }

  lemma StepKeeps(world: World, step: Step)
    requires Invariant(world) && TimesKnown(world) && Enabled(world, step)
    ensures Invariant(Next(world, step)) && TimesKnown(Next(world, step))
  {
    StepPreservesKeys(world, step);
    var next := Next(world, step);
    forall id | id in next.pending
      ensures Observed(next.keys, next.pending[id], next.clock)
    {
      if id in world.pending && next.pending[id] == world.pending[id] {
        StillObserved(world.keys, next.keys, next.pending[id], world.clock, next.clock);
      }
    }
  }

  predicate Reaches(from: World, steps: seq<Step>, to: World)
    decreases |steps|
  {
    if steps == [] then to == from
    else Enabled(from, steps[0]) && Reaches(Next(from, steps[0]), steps[1..], to)
  }

  /** The key cannot be selected before `until`: it is disabled, cooling, or that time has passed. */
  predicate Held(key: Key, until: int, clock: int) {
    key.disabled || until <= clock || until <= key.cooldownUntil
  }

  lemma {:induction false} HeldThroughout(from: World, steps: seq<Step>, to: World, k: nat, until: int)
    requires Invariant(from) && TimesKnown(from) && Reaches(from, steps, to) && k < |from.keys|
    requires Held(from.keys[k], until, from.clock)
    ensures |to.keys| == |from.keys| && from.clock <= to.clock
    ensures Held(to.keys[k], until, to.clock)
    ensures from.keys[k].disabled ==> to.keys[k].disabled
    decreases |steps|
  {
    if steps != [] {
      var next := Next(from, steps[0]);
      StepPreservesKeys(from, steps[0]);
      StepKeeps(from, steps[0]);
      assert KeyPreserved(from.keys[k], next.keys[k], from.clock);
      hide Invariant, TimesKnown, Next, Enabled;
      HeldThroughout(next, steps[1..], to, k, until);
    }
  }

  /**
   A key that is cooling until some time is not selected with an earlier reading of the clock,
   whatever completes in between: in particular a late success cannot lift a newer cooldown.
   */
  lemma CooldownIsHonoured(from: World, steps: seq<Step>, to: World, k: nat, at: int)
    requires Invariant(from) && TimesKnown(from) && Reaches(from, steps, to)
    requires k < |from.keys| && to.clock < from.keys[k].cooldownUntil
    requires k < |to.keys|
    ensures !Enabled(to, Select(k, at))
  {
    HeldThroughout(from, steps, to, k, from.keys[k].cooldownUntil);
  }

  /** A key disabled once is never selected again. */
  lemma DisabledForGood(from: World, steps: seq<Step>, to: World, k: nat, at: int)
    requires Invariant(from) && TimesKnown(from) && Reaches(from, steps, to)
    requires k < |from.keys| && from.keys[k].disabled
    ensures !Enabled(to, Select(k, at))
  {
    HeldThroughout(from, steps, to, k, from.clock);
  }

  /** How long a 429 rests a key, in nanoseconds: as announced, else 30 seconds; a day at most. */
  function Rest(failure: Failure): int {
    var announced := if failure.retryAfterSet then failure.retryAfter else 30 * 1_000_000_000;
    if announced <= 24 * 60 * 60 * 1_000_000_000 then announced else 24 * 60 * 60 * 1_000_000_000
  }

  lemma RestIsTheCooldown(failure: Failure)
    ensures CooldownOf(failure) == Rest(failure)
  {
  }

  /** What a report does to its key: a 401 ends its use, a 429 rests it, a success frees it at once. */
  lemma ReportTakesEffect(key: Key, version: nat, failure: Option<Failure>, now: int, excluded: set<string>, at: int)
    requires ZERO_TIME <= at
    ensures var after := KeyAfter(key, version, failure, now);
            && (failure.Some? && failure.value.category == KeyUnauthorized ==> !Available(after, excluded, at))
            && (failure.Some? && failure.value.category == UpstreamRateLimit ==>
                  (Available(after, excluded, at) <==>
                   Eligible(key, excluded) && key.cooldownUntil <= at && now + Rest(failure.value) <= at))
            && (failure.None? && key.version == version ==>
                  (Available(after, excluded, at) <==> Eligible(key, excluded)))
            && (failure.Some? && failure.value.category !in {KeyUnauthorized, UpstreamRateLimit} ==> after == key)
            && (after.version == key.version + 1 <==>
                  failure.Some? && (failure.value.category == KeyUnauthorized ||
                                    (failure.value.category == UpstreamRateLimit && !key.disabled)))
            && (after.version == key.version || after.version == key.version + 1)
  {
  }

  /** A key answered with 429 rests for the announced time in every continuation of the run. */
  lemma RateLimitedKeyRests(
    from: World, id: nat, failure: Failure, steps: seq<Step>, to: World, at: int)
    requires Invariant(from) && TimesKnown(from) && Enabled(from, Complete(id, Some(failure)))
    requires failure.category == UpstreamRateLimit
    requires Reaches(Next(from, Complete(id, Some(failure))), steps, to)
    requires to.clock < from.clock + Rest(failure)
    ensures !Enabled(to, Select(from.pending[id].selection.index, at))
  {
    var step := Complete(id, Some(failure));
    var k := from.pending[id].selection.index;
    StepKeeps(from, step);
    HeldThroughout(Next(from, step), steps, to, k, from.clock + Rest(failure));
  }

  function Fresh(keys: seq<Key>, clock: int): World {
    World(keys, map[], 0, clock)
  }

  lemma {:induction false} RunKeeps(from: World, steps: seq<Step>, to: World)
    requires Invariant(from) && TimesKnown(from) && Reaches(from, steps, to)
    ensures Invariant(to) && TimesKnown(to)
    decreases |steps|
  {
    if steps != [] {
      StepKeeps(from, steps[0]);
      hide Invariant, TimesKnown, Next, Enabled;
      RunKeeps(Next(from, steps[0]), steps[1..], to);
    }
  }

  /** In every reachable state, a success takes effect only on a cooldown that is already over. */
  lemma SuccessOnlyClearsExpired(keys: seq<Key>, clock: int, steps: seq<Step>, to: World, id: nat)
    requires ZERO_TIME <= clock && Reaches(Fresh(keys, clock), steps, to) && id in to.pending
    ensures var used := to.pending[id].selection;
            used.index < |to.keys| &&
            (KeyAfter(to.keys[used.index], used.version, None, to.clock) != to.keys[used.index] ==>
               to.keys[used.index].cooldownUntil <= to.pending[id].at <= to.clock)
  {
    RunKeeps(Fresh(keys, clock), steps, to);
    assert Observed(to.keys, to.pending[id], to.clock);
  }

  // ---------------------------------------------------------------- missing the only key, in a run

  lemma {:induction false} ReachesOnward(from: World, one: seq<Step>, middle: World, two: seq<Step>, to: World)
    requires Reaches(from, one, middle) && Reaches(middle, two, to)
    ensures Reaches(from, one + two, to)
    decreases |one|
  {
    hide Next, Enabled;
    if one == [] {
      assert one + two == two;
    } else {
      assert (one + two)[1..] == one[1..] + two;
      ReachesOnward(Next(from, one[0]), one[1..], middle, two, to);
    }
  }

  /** A fresh key is selected and its call comes back with 401. */
  lemma RejectOne(world: World, k: nat) returns (steps: seq<Step>, to: World)
    requires ZERO_TIME <= world.clock && world.pending == map[] && k < |world.keys|
    requires world.keys[k] == Key(world.keys[k].id, false, ZERO_TIME, 0)
    ensures Reaches(world, steps, to)
    ensures to.keys == world.keys[k := Rejected(world.keys[k].id)] && to.pending == map[] && to.clock == world.clock
  {
    var select, complete := Select(k, world.clock), Complete(world.issued, Some(Plain(KeyUnauthorized)));
    var middle := Next(world, select);
    to := Next(middle, complete);
    steps := [select, complete];
    assert Reaches(to, [], to);
    assert steps[1..] == [complete] && [complete][1..] == [];
    assert Reaches(middle, [complete], to);
    assert to.pending == map[];
  }

  lemma {:induction false} RejectAllButOne(ids: seq<string>, spared: nat, clock: int, done: nat)
    returns (steps: seq<Step>, to: World)
    requires ZERO_TIME <= clock && done <= |ids|
    ensures Reaches(Fresh(AllButOne(ids, spared, 0), clock), steps, to)
    ensures to.keys == AllButOne(ids, spared, done) && to.pending == map[] && to.clock == clock
    decreases done
  {
    if done == 0 {
      steps, to := [], Fresh(AllButOne(ids, spared, 0), clock);
    } else {
      steps, to := RejectAllButOne(ids, spared, clock, done - 1);
      if done - 1 == spared {
        assert to.keys == AllButOne(ids, spared, done);
      } else {
        var before, more := to, [];
        more, to := RejectOne(before, done - 1);
        ReachesOnward(Fresh(AllButOne(ids, spared, 0), clock), steps, before, more, to);
        steps := steps + more;
        assert to.keys == AllButOne(ids, spared, done);
      }
    }
  }

  /**
   Whenever a scan wraps unevenly, some run from fresh keys reaches a state in which it fails
   although a key is available.
   */
  lemma MissIsReachable(start: nat, ids: seq<string>, clock: int) returns (steps: seq<Step>, to: World)
    requires var count := |ids|;
             0 < count <= WORD && start < WORD < start + count && WORD % count != 0 && ZERO_TIME <= clock
    ensures Reaches(Fresh(AllButOne(ids, 0, 0), clock), steps, to)
    ensures |to.keys| == |ids| && SomeAvailable(to.keys, {}, clock)
    ensures Answers(to.keys, "", {}, clock, start, Err(None))
  {
    var missed := CanMissTheOnlyKey(start, ids, clock);
    steps, to := RejectAllButOne(ids, missed, clock, |ids|);
    assert AllButOne(ids, missed, 0) == AllButOne(ids, 0, 0);
  }
}
