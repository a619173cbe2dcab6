/**
 The circuit breaker (internal/reliability/breaker.go). Every state change starts a new
 generation; permits remember the generation they were issued in.
 */
module Breaker {
  import opened Wrappers
  import opened Failure

  datatype Config = Config(failureThreshold: nat, openDuration: int, halfOpenMaxProbes: nat) {
    predicate Valid() {
      1 <= failureThreshold <= 1000 &&
      1_000_000_000 <= openDuration <= 600_000_000_000 &&
      1 <= halfOpenMaxProbes <= 100
    }
  }

  datatype Phase = Closed | Open | HalfOpen

  datatype State = State(
    phase: Phase,
    generation: nat,
    consecutiveFailures: nat,
    openedUntil: int,
    halfOpenInFlight: nat,
    halfOpenSuccesses: nat,
    rejected: nat)

  /** The zero time stands for "never opened". */
  const ZERO_TIME: int := 0

  const INITIAL := State(Closed, 0, 0, ZERO_TIME, 0, 0, 0)

  datatype Permit = Permit(generation: nat, probe: bool)

  function Opened(state: State, config: Config, now: int): State {
    state.(phase := Open, generation := state.generation + 1, consecutiveFailures := config.failureThreshold,
           openedUntil := now + config.openDuration, halfOpenInFlight := 0, halfOpenSuccesses := 0)
  }

  function ClosedAgain(state: State): State {
    state.(phase := Closed, generation := state.generation + 1, consecutiveFailures := 0,
           openedUntil := ZERO_TIME, halfOpenInFlight := 0, halfOpenSuccesses := 0)
  }

  function Advanced(state: State, now: int): State {
    if state.phase != Open || now < state.openedUntil then state
    else state.(phase := HalfOpen, generation := state.generation + 1, halfOpenInFlight := 0, halfOpenSuccesses := 0)
  }

  function Grant(state: State, config: Config, now: int): Option<Permit> {
    var next := Advanced(state, now);
    if next.phase == Closed then Some(Permit(next.generation, false))
    else if next.phase == HalfOpen && next.halfOpenInFlight < config.halfOpenMaxProbes then
      Some(Permit(next.generation, true))
    else None
  }

  function Allowed(state: State, config: Config, now: int): State {
    var next := Advanced(state, now);
    match Grant(state, config, now)
    case None => next.(rejected := next.rejected + 1)
    case Some(permit) => if permit.probe then next.(halfOpenInFlight := next.halfOpenInFlight + 1) else next
  }

  function LessInFlight(state: State): State {
    if state.halfOpenInFlight > 0 then state.(halfOpenInFlight := state.halfOpenInFlight - 1) else state
  }

  function ProbeCompleted(state: State, config: Config, failure: Option<Failure>, now: int): State {
    if state.phase != HalfOpen then state
    else
      var less := LessInFlight(state);
      if failure.None? then
        var won := less.(halfOpenSuccesses := less.halfOpenSuccesses + 1);
        if won.halfOpenSuccesses >= config.halfOpenMaxProbes then ClosedAgain(won) else won
      else if Counts(failure) then Opened(less, config, now)
      else less
  }

  function Completed(state: State, config: Config, permit: Permit, failure: Option<Failure>, now: int): State {
    if permit.generation != state.generation then state
    else if permit.probe then ProbeCompleted(state, config, failure, now)
    else if state.phase != Closed then state
    else if failure.None? then state.(consecutiveFailures := 0)
    else if !Counts(failure) then state
    else
      var next := state.(consecutiveFailures := state.consecutiveFailures + 1);
      if next.consecutiveFailures >= config.failureThreshold then Opened(next, config, now) else next
  }

  function Abandoned(state: State, permit: Permit): State {
    if permit.generation == state.generation && permit.probe && state.phase == HalfOpen then LessInFlight(state)
    else state
  }

  /** The breaker object; the time is what its clock shows while the lock is held. */
  class CircuitBreaker {
    const config: Config
    var state: State

    constructor (config: Config)
      ensures state == INITIAL && this.config == config
    {
      this.config := config;
      state := INITIAL;
    }

    method Advance(now: int)
      modifies this
      ensures state == Advanced(old(state), now)
    {
      if state.phase != Open || now < state.openedUntil {
        return;
      }
      state := state.(phase := HalfOpen);
      state := state.(generation := state.generation + 1);
      state := state.(halfOpenInFlight := 0, halfOpenSuccesses := 0);
    }

    method Allow(now: int) returns (result: Result<PermitHandle, int>)
      modifies this
      ensures state == Allowed(old(state), config, now)
      ensures match Grant(old(state), config, now)
              case Some(permit) => result.Ok? && fresh(result.value) && result.value.breaker == this &&
                                   result.value.permit == permit && !result.value.completed
              case None => result == Err(if state.openedUntil < now then 0 else state.openedUntil - now)
    {
      Advance(now);
      if state.phase == Closed {
        var handle := new PermitHandle(this, Permit(state.generation, false));
        return Ok(handle);
      }
      if state.phase == HalfOpen && state.halfOpenInFlight < config.halfOpenMaxProbes {
        state := state.(halfOpenInFlight := state.halfOpenInFlight + 1);
        var handle := new PermitHandle(this, Permit(state.generation, true));
        return Ok(handle);
      }
      state := state.(rejected := state.rejected + 1);
      var retryAfter := state.openedUntil - now;
      if retryAfter < 0 {
        retryAfter := 0;
      }
      result := Err(retryAfter);
    }

    method OpenUp(now: int)
      modifies this
      ensures state == Opened(old(state), config, now)
    {
      state := state.(phase := Open);
      state := state.(generation := state.generation + 1);
      state := state.(consecutiveFailures := config.failureThreshold, openedUntil := now + config.openDuration);
      state := state.(halfOpenInFlight := 0, halfOpenSuccesses := 0);
    }

    method CompleteProbe(failure: Option<Failure>, now: int)
      modifies this
      ensures state == ProbeCompleted(old(state), config, failure, now)
    {
      if state.phase != HalfOpen {
        return;
      }
      if state.halfOpenInFlight > 0 {
        state := state.(halfOpenInFlight := state.halfOpenInFlight - 1);
      }
      if failure.None? {
        state := state.(halfOpenSuccesses := state.halfOpenSuccesses + 1);
        if state.halfOpenSuccesses >= config.halfOpenMaxProbes {
          state := ClosedAgain(state);
        }
        return;
      }
      if Counts(failure) {
        OpenUp(now);
      }
    }

    method CompletePermit(permit: Permit, failure: Option<Failure>, now: int)
      modifies this
      ensures state == Completed(old(state), config, permit, failure, now)
    {
      if permit.generation != state.generation {
        return;
      }
      if permit.probe {
        CompleteProbe(failure, now);
        return;
      }
      if state.phase != Closed {
        return;
      }
      if failure.None? {
        state := state.(consecutiveFailures := 0);
        return;
      }
      if !Counts(failure) {
        return;
      }
      state := state.(consecutiveFailures := state.consecutiveFailures + 1);
      if state.consecutiveFailures >= config.failureThreshold {
        OpenUp(now);
      }
    }
  }

  /** A permit in a caller's hands; it reports to its breaker at most once. */
  class PermitHandle {
    const breaker: CircuitBreaker
    const permit: Permit
    var completed: bool

    constructor (breaker: CircuitBreaker, permit: Permit)
      ensures this.breaker == breaker && this.permit == permit && !completed
    {
      this.breaker, this.permit, completed := breaker, permit, false;
    }

    method Complete(failure: Option<Failure>, now: int) returns (first: bool)
      modifies this, breaker
      ensures first == !old(completed) && completed
      ensures breaker.state ==
              if first then Completed(old(breaker.state), breaker.config, permit, failure, now) else old(breaker.state)
    {
      if completed {
        return false;
      }
      completed := true;
      breaker.CompletePermit(permit, failure, now);
      first := true;
    }

    method Abandon() returns (first: bool)
      modifies this, breaker
      ensures first == !old(completed) && completed
      ensures breaker.state == if first then Abandoned(old(breaker.state), permit) else old(breaker.state)
    {
      if completed {
        return false;
      }
      completed := true;
      if permit.generation == breaker.state.generation && permit.probe &&
         breaker.state.phase == HalfOpen && breaker.state.halfOpenInFlight > 0 {
        breaker.state := breaker.state.(halfOpenInFlight := breaker.state.halfOpenInFlight - 1);
      }
      first := true;
    }
  }
}
