/**
 The circuit breaker over whole runs, with any set of permits outstanding and finished in
 any order: probe accounting, the failure streak, how it closes again, and when it rejects.
 */
module BreakerTheorems {
  import opened Wrappers
  import opened Failure
  import opened Breaker

  /** A permit handed back with an outcome. */
  datatype Report = Report(permit: Permit, failure: Option<Failure>)

  datatype Mark = OpenedAt(time: int) | GrantedAt(time: int) | RejectedAt(time: int)

  /**
   The breaker, the permits not yet handed back, and what happened so far: the reports in
   order, and the times at which it opened, granted a permit or rejected a request.
   */
  datatype World = World(
    state: State,
    permits: map<nat, Permit>,
    issued: nat,
    clock: int,
    reports: seq<Report>,
    marks: seq<Mark>)

  datatype Step =
    | Request(now: int)
    | Finish(id: nat, failure: Option<Failure>, now: int)
    | Drop(id: nat, now: int)
    | Look(now: int)

  function Start(clock: int): World {
    World(INITIAL, map[], 0, clock, [], [])
  }

  predicate Enabled(world: World, step: Step) {
    world.clock <= step.now
  }

  function AfterRequest(world: World, config: Config, now: int): World {
    var state := Allowed(world.state, config, now);
    match Grant(world.state, config, now)
    case None => world.(state := state, clock := now, marks := world.marks + [RejectedAt(now)])
    case Some(permit) =>
      World(state, world.permits[world.issued := permit], world.issued + 1, now,
            world.reports, world.marks + [GrantedAt(now)])
  }

  function AfterFinish(world: World, config: Config, id: nat, failure: Option<Failure>, now: int): World
    requires id in world.permits
  {
    var permit := world.permits[id];
    var state := Completed(world.state, config, permit, failure, now);
    World(state, world.permits - {id}, world.issued, now, world.reports + [Report(permit, failure)],
          if state.phase == Open && state.generation != world.state.generation
          then world.marks + [OpenedAt(now)] else world.marks)
  }

  /** Handing a permit back a second time changes nothing. */
  function Next(world: World, config: Config, step: Step): World {
    match step
    case Request(now) => AfterRequest(world, config, now)
    case Finish(id, failure, now) =>
      if id !in world.permits then world.(clock := now) else AfterFinish(world, config, id, failure, now)
    case Drop(id, now) =>
      if id !in world.permits then world.(clock := now)
      else world.(state := Abandoned(world.state, world.permits[id]), permits := world.permits - {id}, clock := now)
    case Look(now) => world.(state := Advanced(world.state, now), clock := now)
  }

  // ---------------------------------------------------------------- what the counters mean

  /** The probes of a generation that are still out. */
  function Probes(permits: map<nat, Permit>, generation: nat): set<nat> {
    set id | id in permits && permits[id] == Permit(generation, true)
  }

  /** Counted failures of a generation since its last success; other reports do not interrupt. */
  function Streak(reports: seq<Report>, generation: nat): nat {
    if reports == [] then 0
    else
      var earlier := Streak(reports[..|reports| - 1], generation);
      var last := reports[|reports| - 1];
      if last.permit.generation != generation then earlier
      else if last.failure.None? then 0
      else if Counts(last.failure) then earlier + 1
      else earlier
  }

  /** Successful probes of a generation. */
  function Wins(reports: seq<Report>, generation: nat): nat {
    if reports == [] then 0
    else
      var last := reports[|reports| - 1];
      Wins(reports[..|reports| - 1], generation) +
      if last.permit == Permit(generation, true) && last.failure.None? then 1 else 0
  }

  predicate Issued(world: World) {
    && (forall id | id in world.permits :: id < world.issued)
    && (forall id | id in world.permits :: world.permits[id].generation <= world.state.generation)
    && (forall k | 0 <= k < |world.reports| :: world.reports[k].permit.generation <= world.state.generation)
  }

  /** Permits of the current generation are plain while closed, probes while half open, and none while open. */
  predicate Current(world: World) {
    forall id | id in world.permits && world.permits[id].generation == world.state.generation ::
      world.state.phase != Open && (world.permits[id].probe <==> world.state.phase == HalfOpen)
  }

  predicate Counters(world: World, config: Config) {
    var state := world.state;
    && state.halfOpenInFlight == |Probes(world.permits, state.generation)| <= config.halfOpenMaxProbes
    && (state.phase == Closed ==>
          state.consecutiveFailures == Streak(world.reports, state.generation) < config.failureThreshold)
    && (state.phase != Closed ==> state.consecutiveFailures == config.failureThreshold)
    && (state.phase == HalfOpen ==>
          state.halfOpenSuccesses == Wins(world.reports, state.generation) < config.halfOpenMaxProbes)
    && (state.phase != HalfOpen ==> state.halfOpenSuccesses == 0)
  }

  /** Every opening but a current one has run its full time; the current one ends at `openedUntil`. */
  predicate Timed(world: World, config: Config) {
    && (forall k | 0 <= k < |world.marks| && world.marks[k].OpenedAt? ::
          world.marks[k].time + config.openDuration <=
          if world.state.phase == Open then world.state.openedUntil else world.clock)
    && (forall j, k | 0 <= j < k < |world.marks| && world.marks[j].OpenedAt? && world.marks[k].GrantedAt? ::
          world.marks[j].time + config.openDuration <= world.marks[k].time)
  }

  predicate Invariant(world: World, config: Config) {
    Issued(world) && Current(world) && Counters(world, config) && Timed(world, config)
  }

  // ---------------------------------------------------------------- one step

  lemma {:induction false} NoReports(reports: seq<Report>, generation: nat)
    requires forall k | 0 <= k < |reports| :: reports[k].permit.generation < generation
    ensures Streak(reports, generation) == 0 && Wins(reports, generation) == 0
  {
    if reports != [] {
      NoReports(reports[..|reports| - 1], generation);
    }
  }

  lemma ReportAdded(reports: seq<Report>, report: Report, generation: nat)
    ensures Streak(reports + [report], generation) ==
            if report.permit.generation != generation then Streak(reports, generation)
            else if report.failure.None? then 0
            else Streak(reports, generation) + (if Counts(report.failure) then 1 else 0)
    ensures Wins(reports + [report], generation) ==
            Wins(reports, generation) +
            if report.permit == Permit(generation, true) && report.failure.None? then 1 else 0
  {
    hide Counts;
    var all := reports + [report];
    assert all[..|all| - 1] == reports;
    assert all[|all| - 1] == report;
  }

  lemma NoProbes(permits: map<nat, Permit>, generation: nat)
    requires forall id | id in permits :: permits[id].generation < generation
    ensures Probes(permits, generation) == {}
  {
  }

  lemma ProbeRemoved(permits: map<nat, Permit>, id: nat, generation: nat)
    requires id in permits
    ensures permits[id] == Permit(generation, true) ==>
              |Probes(permits - {id}, generation)| == |Probes(permits, generation)| - 1
    ensures permits[id] != Permit(generation, true) ==>
              Probes(permits - {id}, generation) == Probes(permits, generation)
  {
    var less := Probes(permits - {id}, generation);
    if permits[id] == Permit(generation, true) {
      assert Probes(permits, generation) == less + {id};
    }
  }

  lemma ProbeAdded(permits: map<nat, Permit>, id: nat, permit: Permit, generation: nat)
    requires id !in permits
    ensures permit == Permit(generation, true) ==>
              |Probes(permits[id := permit], generation)| == |Probes(permits, generation)| + 1
    ensures permit != Permit(generation, true) ==>
              Probes(permits[id := permit], generation) == Probes(permits, generation)
  {
    var more := Probes(permits[id := permit], generation);
    if permit == Permit(generation, true) {
      assert more == Probes(permits, generation) + {id};
    }
  }

  /** The state changes to another phase: everything of earlier generations becomes history. */
  lemma NewGeneration(world: World, config: Config, state: State)
    requires config.Valid() && Issued(world)
    requires state.generation > world.state.generation
    requires state.halfOpenInFlight == 0 && state.halfOpenSuccesses == 0
    requires state.consecutiveFailures == if state.phase == Closed then 0 else config.failureThreshold
    ensures var next := world.(state := state);
            Issued(next) && Current(next) && Counters(next, config)
  {
    NoReports(world.reports, state.generation);
    NoProbes(world.permits, state.generation);
    hide Streak, Wins;
  }

  lemma LookKeeps(world: World, config: Config, now: int)
    requires config.Valid() && Invariant(world, config) && world.clock <= now
    ensures Invariant(Next(world, config, Look(now)), config)
  {
    var state := Advanced(world.state, now);
    hide Counters, Issued, Current;
    if state == world.state {
      SameCounters(world, Next(world, config, Look(now)), config);
    } else {
      AdvancedStart(world, config);
      NewGeneration(world, config, state);
      SameCounters(world.(state := state), Next(world, config, Look(now)), config);
    }
  }

  lemma AdvancedStart(world: World, config: Config)
    requires Counters(world, config) && world.state.phase == Open
    ensures world.state.consecutiveFailures == config.failureThreshold
  {
    hide Probes, Streak, Wins;
  }

  /** The counting parts of the invariant look at neither the clock nor the marks. */
  lemma SameCounters(one: World, two: World, config: Config)
    requires one.state == two.state && one.permits == two.permits
    requires one.issued == two.issued && one.reports == two.reports
    requires Issued(one) && Current(one) && Counters(one, config)
    ensures Issued(two) && Current(two) && Counters(two, config)
  {
    hide Streak, Wins, Probes;
  }

  lemma RequestKeeps(world: World, config: Config, now: int)
    requires config.Valid() && Invariant(world, config) && world.clock <= now
    ensures Invariant(Next(world, config, Request(now)), config)
  {
    LookKeeps(world, config, now);
    var middle := Next(world, config, Look(now));
    var next := Next(world, config, Request(now));
    hide Advanced;
    match Grant(world.state, config, now)
    case None =>
      RejectionKeepsTime(middle, next, config, now);
      assert Issued(next) && Current(next);
      hide Streak, Wins, Probes;
      assert Counters(next, config);
    case Some(permit) =>
      GrantKeepsTime(middle, next, config, now);
      hide Timed;
      assert middle.issued !in middle.permits;
      ProbeAdded(middle.permits, middle.issued, permit, middle.state.generation);
      hide Streak, Wins, Probes;
      assert next.permits == middle.permits[middle.issued := permit];
      assert Issued(next) && Current(next);
      assert Counters(next, config);
  }

  lemma GrantKeepsTime(middle: World, next: World, config: Config, now: int)
    requires Timed(middle, config) && middle.clock == now == next.clock
    requires middle.state.phase != Open && next.state.phase == middle.state.phase
    requires next.marks == middle.marks + [GrantedAt(now)]
    ensures Timed(next, config)
  {
  }

  lemma RejectionKeepsTime(middle: World, next: World, config: Config, now: int)
    requires Timed(middle, config) && middle.clock == now == next.clock
    requires next.state.phase == middle.state.phase && next.state.openedUntil == middle.state.openedUntil
    requires next.marks == middle.marks + [RejectedAt(now)]
    ensures Timed(next, config)
  {
  }

  lemma DropKeeps(world: World, config: Config, id: nat, now: int)
    requires config.Valid() && Invariant(world, config) && world.clock <= now && id in world.permits
    ensures Invariant(Next(world, config, Drop(id, now)), config)
  {
    var next := Next(world, config, Drop(id, now));
    assert Timed(next, config);
    hide Timed;
    ProbeRemoved(world.permits, id, world.state.generation);
    assert Issued(next) && Current(next);
    hide Streak, Wins, Probes, Issued;
    assert world.permits[id] == Permit(world.state.generation, true) ==> world.state.phase == HalfOpen;
  }

  lemma FinishKeepsTime(world: World, config: Config, id: nat, failure: Option<Failure>, now: int)
    requires config.Valid() && Current(world) && Timed(world, config) && world.clock <= now && id in world.permits
    ensures Timed(AfterFinish(world, config, id, failure, now), config)
  {
    hide Counts;
    var next := AfterFinish(world, config, id, failure, now);
    if next.state.phase == Open && next.state.generation != world.state.generation {
      assert world.state.phase != Open;
      assert next.state.openedUntil == now + config.openDuration;
    } else {
      assert next.state.phase == Open <==> world.state.phase == Open;
      assert world.state.phase == Open ==> next.state.openedUntil == world.state.openedUntil;
    }
  }

  lemma FinishKeeps(world: World, config: Config, id: nat, failure: Option<Failure>, now: int)
    requires config.Valid() && Invariant(world, config) && world.clock <= now && id in world.permits
    ensures Invariant(AfterFinish(world, config, id, failure, now), config)
  {
    FinishKeepsTime(world, config, id, failure, now);
    var permit := world.permits[id];
    var state := Completed(world.state, config, permit, failure, now);
    var next := AfterFinish(world, config, id, failure, now);
    hide Timed, Counts;
    var same := next.(state := world.state);
    assert Issued(same);
    if state.generation != world.state.generation {
      assert world.state.generation < state.generation;
      hide Issued, Counters, Current;
      NewGeneration(same, config, state);
    } else {
      ProbeRemoved(world.permits, id, state.generation);
      ReportAdded(world.reports, Report(permit, failure), state.generation);
      hide Streak, Wins, Probes;
      assert state.phase == world.state.phase;
      assert Current(next);
      hide Issued;
      if permit.generation != world.state.generation {
        assert Counters(next, config);
      } else if permit.probe {
        assert world.state.phase == HalfOpen;
        assert Counters(next, config);
      } else {
        assert world.state.phase == Closed;
        assert Counters(next, config);
      }
    }
  }

  lemma StepKeeps(world: World, config: Config, step: Step)
    requires config.Valid() && Invariant(world, config) && Enabled(world, step)
    ensures Invariant(Next(world, config, step), config)
  {
    match step
    case Request(now) => RequestKeeps(world, config, now);
    case Look(now) => LookKeeps(world, config, now);
    case Finish(id, failure, now) =>
      if id in world.permits {
        FinishKeeps(world, config, id, failure, now);
      } else {
        SameCounters(world, Next(world, config, step), config);
      }
    case Drop(id, now) =>
      if id in world.permits {
        DropKeeps(world, config, id, now);
      } else {
        SameCounters(world, Next(world, config, step), config);
      }
  }

  // ---------------------------------------------------------------- whole runs

  predicate Reaches(from: World, config: Config, steps: seq<Step>, to: World)
    decreases |steps|
  {
    if steps == [] then to == from
    else Enabled(from, steps[0]) && Reaches(Next(from, config, steps[0]), config, steps[1..], to)
  }

  lemma {:induction false} RunKeeps(from: World, config: Config, steps: seq<Step>, to: World)
    requires config.Valid() && Invariant(from, config) && Reaches(from, config, steps, to)
    ensures Invariant(to, config)
    decreases |steps|
  {
    if steps != [] {
      StepKeeps(from, config, steps[0]);
      hide Invariant, Next;
      RunKeeps(Next(from, config, steps[0]), config, steps[1..], to);
    }
  }

  /** In every reachable state the counters are what they are named after. */
  lemma CountersAlways(config: Config, clock: int, steps: seq<Step>, to: World)
    requires config.Valid() && Reaches(Start(clock), config, steps, to)
    ensures Counters(to, config) && Current(to)
  {
    assert Invariant(Start(clock), config) by { NoProbes(map[], 0); }
    RunKeeps(Start(clock), config, steps, to);
  }

  /** No permit is granted within the open duration after any opening of the breaker. */
  lemma QuietWhileOpen(config: Config, clock: int, steps: seq<Step>, to: World, j: nat, k: nat)
    requires config.Valid() && Reaches(Start(clock), config, steps, to)
    requires j < k < |to.marks| && to.marks[j].OpenedAt? && to.marks[k].GrantedAt?
    ensures to.marks[j].time + config.openDuration <= to.marks[k].time
  {
    assert Invariant(Start(clock), config) by { NoProbes(map[], 0); }
    RunKeeps(Start(clock), config, steps, to);
  }

  // ---------------------------------------------------------------- how long it stays open

  /** The time of the last opening. */
  function LastOpening(marks: seq<Mark>): Option<int> {
    if marks == [] then None
    else
      match marks[|marks| - 1]
      case OpenedAt(time) => Some(time)
      case _ => LastOpening(marks[..|marks| - 1])
  }

  function Rejections(marks: seq<Mark>): nat {
    if marks == [] then 0
    else Rejections(marks[..|marks| - 1]) + if marks[|marks| - 1].RejectedAt? then 1 else 0
  }

  /** An open breaker opened at its last opening, for the configured time; rejections are counted. */
  predicate Dated(world: World, config: Config) {
    && (world.state.phase == Open ==>
          LastOpening(world.marks).Some? &&
          world.state.openedUntil == LastOpening(world.marks).value + config.openDuration)
    && world.state.rejected == Rejections(world.marks)
  }

  lemma MarkAdded(marks: seq<Mark>, mark: Mark)
    ensures LastOpening(marks + [mark]) == if mark.OpenedAt? then Some(mark.time) else LastOpening(marks)
    ensures Rejections(marks + [mark]) == Rejections(marks) + if mark.RejectedAt? then 1 else 0
  {
    var all := marks + [mark];
    assert all[..|all| - 1] == marks && all[|all| - 1] == mark;
  }

  lemma StepKeepsDates(world: World, config: Config, step: Step)
    requires Invariant(world, config) && Dated(world, config) && Enabled(world, step)
    ensures Dated(Next(world, config, step), config)
  {
    var next := Next(world, config, step);
    MarkAdded(world.marks, OpenedAt(step.now));
    MarkAdded(world.marks, GrantedAt(step.now));
    MarkAdded(world.marks, RejectedAt(step.now));
    hide Counts, Issued, Counters, Timed, LastOpening, Rejections;
  }

  predicate Kept(world: World, config: Config) {
    Invariant(world, config) && Dated(world, config)
  }

  lemma StepKeepsAll(world: World, config: Config, step: Step)
    requires config.Valid() && Kept(world, config) && Enabled(world, step)
    ensures Kept(Next(world, config, step), config)
  {
    hide Invariant, Dated;
    StepKeeps(world, config, step);
    StepKeepsDates(world, config, step);
  }

  lemma {:induction false} RunKeepsDates(from: World, config: Config, steps: seq<Step>, to: World)
    requires config.Valid() && Invariant(from, config) && Dated(from, config) && Reaches(from, config, steps, to)
    ensures Dated(to, config)
    decreases |steps|
  {
    if steps != [] {
      StepKeeps(from, config, steps[0]);
      StepKeepsDates(from, config, steps[0]);
      hide Invariant, Dated, Next;
      RunKeepsDates(Next(from, config, steps[0]), config, steps[1..], to);
    }
  }

  /**
   In every reachable open state there was a last opening, and a request is let through exactly
   when the open duration since then is over; until then it is told the rest of that time.
   */
  lemma OpenExactlyForItsTime(config: Config, clock: int, steps: seq<Step>, to: World, now: int)
    requires config.Valid() && Reaches(Start(clock), config, steps, to) && to.state.phase == Open
    ensures LastOpening(to.marks).Some?
    ensures var since := LastOpening(to.marks).value;
            && (Grant(to.state, config, now).Some? <==> since + config.openDuration <= now)
            && (now < since + config.openDuration ==>
                  Allowed(to.state, config, now).openedUntil - now == since + config.openDuration - now)
  {
    assert Invariant(Start(clock), config) by { NoProbes(map[], 0); }
    RunKeepsDates(Start(clock), config, steps, to);
    RunKeeps(Start(clock), config, steps, to);
    hide LastOpening, Rejections, Issued, Timed, Current, Streak, Wins, Probes;
  }

  /** The rejected counter is the number of requests turned away, in every run. */
  lemma RejectionsAreCounted(config: Config, clock: int, steps: seq<Step>, to: World)
    requires config.Valid() && Reaches(Start(clock), config, steps, to)
    ensures to.state.rejected == Rejections(to.marks)
  {
    assert Invariant(Start(clock), config) by { NoProbes(map[], 0); }
    RunKeepsDates(Start(clock), config, steps, to);
  }

  /** Exactly when a request is let through, in terms of the permits still out. */
  lemma GrantedExactly(world: World, config: Config, now: int)
    requires config.Valid() && Kept(world, config)
    ensures world.state.phase == Open ==> LastOpening(world.marks).Some?
    ensures Grant(world.state, config, now).Some? <==>
            match world.state.phase
            case Closed => true
            case Open => LastOpening(world.marks).value + config.openDuration <= now
            case HalfOpen => |Probes(world.permits, world.state.generation)| < config.halfOpenMaxProbes
  {
    hide Probes, Streak, Wins, LastOpening, Rejections;
  }

  /** The open duration since the last opening is over. */
  predicate OpenTimeOver(world: World, config: Config, now: int) {
    LastOpening(world.marks).Some? ==> LastOpening(world.marks).value + config.openDuration <= now
  }

  /** No probe is ever leaked: with no permit out and the open time over, a request gets through. */
  lemma NoProbeLeaks(world: World, config: Config, now: int)
    requires config.Valid() && Kept(world, config)
    requires world.permits == map[] && (world.state.phase == Open ==> OpenTimeOver(world, config, now))
    ensures Grant(world.state, config, now).Some?
  {
    GrantedExactly(world, config, now);
    NoProbes(map[], world.state.generation);
  }

  /** A permit of an earlier generation changes nothing, however it ends. */
  lemma StalePermitsAreInert(world: World, config: Config, id: nat, failure: Option<Failure>, now: int)
    requires id in world.permits && world.permits[id].generation != world.state.generation
    ensures Next(world, config, Finish(id, failure, now)).state == world.state
    ensures Next(world, config, Drop(id, now)).state == world.state
  {
  }

  lemma StepRaisesGeneration(world: World, config: Config, step: Step)
    requires Enabled(world, step)
    ensures world.state.generation <= Next(world, config, step).state.generation
    ensures forall id | id in Next(world, config, step).permits && id < world.issued ::
              id in world.permits && Next(world, config, step).permits[id] == world.permits[id]
    ensures world.issued <= Next(world, config, step).issued
  {
    hide Counts;
  }

  lemma {:induction false} GenerationsOnlyRise(from: World, config: Config, steps: seq<Step>, to: World)
    requires Reaches(from, config, steps, to)
    ensures from.state.generation <= to.state.generation && from.issued <= to.issued
    ensures forall id | id in to.permits && id < from.issued ::
              id in from.permits && to.permits[id] == from.permits[id]
    decreases |steps|
  {
    if steps != [] {
      StepRaisesGeneration(from, config, steps[0]);
      hide Next;
      GenerationsOnlyRise(Next(from, config, steps[0]), config, steps[1..], to);
    }
  }

  /** Once its generation is over, a permit changes nothing however and whenever it ends in the rest of the run. */
  lemma StaleForGood(
    config: Config, clock: int, early: seq<Step>, at: World, late: seq<Step>, to: World,
    id: nat, failure: Option<Failure>, now: int)
    requires config.Valid() && Reaches(Start(clock), config, early, at) && Reaches(at, config, late, to)
    requires id in at.permits && at.permits[id].generation != at.state.generation
    ensures Next(to, config, Finish(id, failure, now)).state == to.state
    ensures Next(to, config, Drop(id, now)).state == to.state
  {
    assert Invariant(Start(clock), config) by { NoProbes(map[], 0); }
    RunKeeps(Start(clock), config, early, at);
    GenerationsOnlyRise(at, config, late, to);
    hide Counters, Timed, Current, Counts;
    if id in to.permits {
      StalePermitsAreInert(to, config, id, failure, now);
    }
  }

  /** The guards that keep the probe counter from going below zero never apply. */
  lemma ProbeCounterIsPositive(world: World, config: Config, id: nat)
    requires Invariant(world, config) && id in world.permits
    requires world.permits[id] == Permit(world.state.generation, true)
    ensures world.state.phase == HalfOpen && world.state.halfOpenInFlight > 0
  {
    assert id in Probes(world.permits, world.state.generation);
  }

  /** The breaker closes exactly on the probe that completes the required successes of its generation. */
  lemma ClosesExactly(world: World, config: Config, step: Step)
    requires config.Valid() && Invariant(world, config) && Enabled(world, step)
    ensures var next := Next(world, config, step);
            (world.state.phase != Closed && next.state.phase == Closed) <==>
            (world.state.phase == HalfOpen &&
             Wins(next.reports, world.state.generation) == config.halfOpenMaxProbes)
  {
    hide Counts;
    if step.Finish? && step.id in world.permits {
      var report := Report(world.permits[step.id], step.failure);
      ReportAdded(world.reports, report, world.state.generation);
    }
    hide Streak, Wins, Probes, Issued, Timed;
  }

  /**
   The breaker opens exactly when a closed generation reaches the threshold of counted
   failures in a row, or when a probe of the current half-open generation fails and counts.
   */
  lemma OpensExactly(world: World, config: Config, step: Step)
    requires config.Valid() && Invariant(world, config) && Enabled(world, step)
    ensures var next := Next(world, config, step);
            var generation := world.state.generation;
            (world.state.phase != Open && next.state.phase == Open) <==>
            || (world.state.phase == Closed && Streak(next.reports, generation) == config.failureThreshold)
            || (world.state.phase == HalfOpen && step.Finish? && step.id in world.permits &&
                world.permits[step.id] == Permit(generation, true) && Counts(step.failure))
  {
    hide Counts;
    assert !Counts(None) by { CountsNothing(); }
    if step.Finish? && step.id in world.permits {
      var report := Report(world.permits[step.id], step.failure);
      ReportAdded(world.reports, report, world.state.generation);
    }
    hide Streak, Wins, Probes, Issued, Timed;
  }

  lemma CountsNothing()
    ensures !Counts(None)
  {
  }
}
