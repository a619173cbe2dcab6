/**
 The fixed-window rate limiter (internal/ratelimit/limiter.go): one counter in Redis, counted
 by a script that runs as a whole. A key is gone once the clock is past its expiry; at the expiry
 itself it still exists, with a remaining time of zero.
 */
module RateLimiter {
  import opened Wrappers

  datatype Counter = Absent | Present(used: int, expiry: Option<int>)

  predicate Live(counter: Counter, now: int) {
    counter.Present? && (counter.expiry.Some? ==> now <= counter.expiry.value)
  }

  /** The remaining time as PTTL reports it: -2 without a key, -1 without an expiry. */
  function TimeToLive(counter: Counter, now: int): int {
    if !Live(counter, now) then -2
    else if counter.expiry.None? then -1
    else counter.expiry.value - now
  }

  /** A call is let through when there is no counter or it is below the limit. */
  predicate Admits(counter: Counter, limit: int, now: int) {
    Live(counter, now) ==> counter.used < limit
  }

  /** The counter after a call: counted if let through, and never without a remaining time. */
  function After(counter: Counter, limit: int, window: int, now: int): Counter {
    if !Live(counter, now) then Present(1, Some(now + window))
    else
      Present(if counter.used < limit then counter.used + 1 else counter.used,
              if TimeToLive(counter, now) < 1 then Some(now + window) else counter.expiry)
  }

  function CeilingOfSeconds(ms: int): int {
    (ms + 999) / 1000
  }

  datatype Reply = Reply(allowed: int, remaining: int, resetAt: int, retryAfter: int)

  class Redis {
    var counter: Counter

    constructor (counter: Counter)
      ensures this.counter == counter
    {
      this.counter := counter;
    }

    /** The script, command by command. */
    method FixedWindow(limit: int, window: int, now: int) returns (reply: Reply)
      requires limit >= 1 && window >= 1
      modifies this
      ensures counter == After(old(counter), limit, window, now)
      ensures reply.allowed == if Admits(old(counter), limit, now) then 1 else 0
      ensures reply.remaining == if counter.used < limit then limit - counter.used else 0
      ensures reply.resetAt == CeilingOfSeconds(counter.expiry.value)
      ensures reply.retryAfter == if reply.allowed == 1 then 0 else CeilingOfSeconds(counter.expiry.value - now)
      ensures reply.allowed == 0 ==> reply.retryAfter >= 1
    {
      var used, allowed := 0, 0;
      if !Live(counter, now) {
        counter := Present(1, Some(now + window));
        used, allowed := 1, 1;
      } else {
        used := counter.used;
        if used < limit {
          counter := counter.(used := counter.used + 1);
          used := counter.used;
          allowed := 1;
        }
      }
      var ttl := TimeToLive(counter, now);
      if ttl < 1 {
        counter := counter.(expiry := Some(now + window));
        ttl := window;
      }
      var remaining := limit - used;
      if remaining < 0 {
        remaining := 0;
      }
      var resetAt := CeilingOfSeconds(now + ttl);
      var retryAfter := 0;
      if allowed == 0 {
        retryAfter := if CeilingOfSeconds(ttl) < 1 then 1 else CeilingOfSeconds(ttl);
      }
      reply := Reply(allowed, remaining, resetAt, retryAfter);
    }
  }

  // ---------------------------------------------------------------- the reply as the caller reads it

  datatype Value = Integer(value: int) | Other

  datatype Decision = Decision(allowed: bool, limit: int, remaining: int, resetAt: int, retryAfter: int)

  function ParseDecision(values: seq<Value>, limit: int): Option<Decision> {
    if |values| != 4 || !(forall k | 0 <= k < 4 :: values[k].Integer?) then None
    else
      var allowed, remaining, resetAt, retryAfter :=
        values[0].value, values[1].value, values[2].value, values[3].value;
      if allowed != 0 && allowed != 1 then None
      else if remaining < 0 || remaining > limit then None
      else if resetAt <= 0 then None
      else if retryAfter < 0 then None
      else if allowed == 0 && retryAfter == 0 then None
      else Some(Decision(allowed == 1, limit, remaining, resetAt, retryAfter))
  }

  function Values(reply: Reply): seq<Value> {
    [Integer(reply.allowed), Integer(reply.remaining), Integer(reply.resetAt), Integer(reply.retryAfter)]
  }

  /** Only sensible replies are read as decisions. */
  lemma ParsedDecisionsAreSensible(values: seq<Value>, limit: int)
    ensures ParseDecision(values, limit).Some? <==>
            exists reply ::
              && values == Values(reply)
              && reply.allowed in {0, 1} && 0 <= reply.remaining <= limit && reply.resetAt > 0 && reply.retryAfter >= 0
              && (reply.allowed == 0 ==> reply.retryAfter > 0)
  {
    if |values| == 4 && forall k | 0 <= k < 4 :: values[k].Integer? {
      var reply := Reply(values[0].value, values[1].value, values[2].value, values[3].value);
      assert values == Values(reply);
    }
  }

  /** What can go wrong with the command: it never ran, or it ran and its reply was lost. */
  datatype Fault = NoFault | NotRun | ReplyLost

  datatype Failure = ContextEnded | Unavailable

  datatype Verdict = Decided(decision: Decision) | Bypassed | Failed(failure: Failure)

  /** A fault ends in an error for a cancelled caller, and otherwise as the failure policy says. */
  function OnFault(contextEnded: bool, failOpen: bool): Verdict {
    if contextEnded then Failed(ContextEnded) else if failOpen then Bypassed else Failed(Unavailable)
  }

  /**
   Every reply of the script is accepted and read as it was meant. Without a reply nobody is
   turned away for the limit: the caller passes unlimited, or gets an error.
   */
  method Allow(redis: Redis, limit: int, window: int, now: int, fault: Fault, contextEnded: bool, failOpen: bool)
    returns (verdict: Verdict)
    requires limit >= 1 && window >= 1 && now >= 0
    requires redis.counter.Present? ==> redis.counter.used >= 0
    modifies redis
    ensures redis.counter ==
            if fault == NotRun then old(redis.counter) else After(old(redis.counter), limit, window, now)
    ensures fault != NoFault && contextEnded ==> verdict == Failed(ContextEnded)
    ensures fault != NoFault && !contextEnded && failOpen ==> verdict == Bypassed
    ensures fault != NoFault && !contextEnded && !failOpen ==> verdict == Failed(Unavailable)
    ensures fault == NoFault ==> verdict.Decided?
    ensures verdict.Decided? ==>
              && verdict.decision.allowed == Admits(old(redis.counter), limit, now)
              && verdict.decision.remaining == (if redis.counter.used < limit then limit - redis.counter.used else 0)
              && verdict.decision.limit == limit
              && 1000 * (verdict.decision.resetAt - 1) < redis.counter.expiry.value <= 1000 * verdict.decision.resetAt
    ensures verdict.Decided? && !verdict.decision.allowed ==>
              now + 1000 * (verdict.decision.retryAfter - 1) < redis.counter.expiry.value
              <= now + 1000 * verdict.decision.retryAfter
  {
    if fault == NotRun {
      return OnFault(contextEnded, failOpen);
    }
    var reply := redis.FixedWindow(limit, window, now);
    if fault == ReplyLost {
      return OnFault(contextEnded, failOpen);
    }
    var decision := ParseDecision(Values(reply), limit);
    if decision.None? {
      return if failOpen then Bypassed else Failed(Unavailable);
    }
    verdict := Decided(decision.value);
  }

  // ---------------------------------------------------------------- whole runs

  /** A call that was let through; `opens` says that it created the counter. */
  datatype Admission = Admission(time: int, opens: bool)

  datatype World = World(counter: Counter, clock: int, log: seq<Admission>)

  function Called(world: World, limit: int, window: int, now: int): World {
    World(
      After(world.counter, limit, window, now), now,
      if Admits(world.counter, limit, now)
      then world.log + [Admission(now, !Live(world.counter, now))] else world.log)
  }

  /** Calls at the given times, the clock never going back. */
  predicate Reaches(from: World, limit: int, window: int, times: seq<int>, to: World)
    decreases |times|
  {
    if times == [] then to == from
    else from.clock <= times[0] && Reaches(Called(from, limit, window, times[0]), limit, window, times[1..], to)
  }

  /** Calls let through since the counter was last created, that one included. */
  function SinceOpening(log: seq<Admission>): nat {
    if log == [] then 0
    else if log[|log| - 1].opens then 1
    else 1 + SinceOpening(log[..|log| - 1])
  }

  predicate Sorted(log: seq<Admission>, clock: int) {
    && (forall i, j | 0 <= i < j < |log| :: log[i].time <= log[j].time)
    && (forall i | 0 <= i < |log| :: log[i].time <= clock)
  }

  /** Counters are created more than a window apart. */
  predicate OpeningsApart(log: seq<Admission>, window: int) {
    forall i, j | 0 <= i < j < |log| && log[i].opens && log[j].opens :: log[i].time + window < log[j].time
  }

  /** The admissions from one index to another belong to the same counter. */
  predicate SameCounter(log: seq<Admission>, from: nat, to: nat)
    requires to < |log|
  {
    forall k | from < k <= to :: !log[k].opens
  }

  /** One counter lets through at most `limit` calls. */
  predicate Bounded(log: seq<Admission>, limit: int) {
    forall i, j | 0 <= i <= j < |log| && SameCounter(log, i, j) :: j - i < limit
  }

  /** The counter on Redis has counted what it let through and outlives every opening by a window. */
  predicate InForce(world: World, limit: int, window: int) {
    && SinceOpening(world.log) <= limit
    && (world.counter.Absent? ==> world.log == [])
    && (world.counter.Present? ==> SinceOpening(world.log) <= world.counter.used)
    && (world.counter.Present? && world.counter.expiry.Some? ==>
          forall k | 0 <= k < |world.log| && world.log[k].opens ::
            world.log[k].time + window <= world.counter.expiry.value)
    && (world.counter.Present? && world.counter.expiry.None? ==> world.log == [])
  }

  predicate Invariant(world: World, limit: int, window: int) {
    && Sorted(world.log, world.clock)
    && OpeningsApart(world.log, window)
    && Bounded(world.log, limit)
    && InForce(world, limit, window)
  }

  lemma {:induction false} SinceOpeningCovers(log: seq<Admission>, i: nat)
    requires i < |log| && SameCounter(log, i, |log| - 1)
    ensures |log| - i <= SinceOpening(log)
    decreases |log|
  {
    if i < |log| - 1 {
      SinceOpeningCovers(log[..|log| - 1], i);
    }
  }

  lemma BoundedAppend(log: seq<Admission>, admission: Admission, limit: int)
    requires Bounded(log, limit) && limit >= 1
    requires !admission.opens ==> SinceOpening(log) < limit
    ensures Bounded(log + [admission], limit)
  {
    var all, n := log + [admission], |log|;
    forall i, j | 0 <= i <= j < |all| && SameCounter(all, i, j)
      ensures j - i < limit
    {
      assert forall k | 0 <= k < n :: all[k] == log[k];
      if j < n {
        assert SameCounter(log, i, j);
      } else if i < n {
        assert !all[n].opens;
        assert SameCounter(log, i, n - 1);
        SinceOpeningCovers(log, i);
      }
    }
  }

  lemma SinceOpeningAppend(log: seq<Admission>, admission: Admission)
    ensures SinceOpening(log + [admission]) == if admission.opens then 1 else 1 + SinceOpening(log)
  {
    var all := log + [admission];
    assert all[..|all| - 1] == log;
  }

  lemma AdmittedKeeps(world: World, limit: int, window: int, now: int)
    requires limit >= 1 && window >= 1 && Invariant(world, limit, window) && world.clock <= now
    requires Admits(world.counter, limit, now)
    ensures Invariant(Called(world, limit, window, now), limit, window)
  {
    var next := Called(world, limit, window, now);
    var admission := Admission(now, !Live(world.counter, now));
    assert next.log == world.log + [admission];
    BoundedAppend(world.log, admission, limit);
    hide Bounded, SinceOpening;
    assert OpeningsApart(next.log, window) by {
      OpeningsAppend(world, limit, window, admission);
    }
    hide OpeningsApart;
    InForceAfter(world, limit, window, now);
  }

  lemma InForceAfter(world: World, limit: int, window: int, now: int)
    requires limit >= 1 && window >= 1 && InForce(world, limit, window) && world.clock <= now
    requires Sorted(world.log, world.clock) && Admits(world.counter, limit, now)
    ensures InForce(Called(world, limit, window, now), limit, window)
  {
    SinceOpeningAppend(world.log, Admission(now, !Live(world.counter, now)));
    hide SinceOpening;
  }

  lemma OpeningsAppend(world: World, limit: int, window: int, admission: Admission)
    requires InForce(world, limit, window) && OpeningsApart(world.log, window)
    requires admission.opens == !Live(world.counter, admission.time)
    ensures OpeningsApart(world.log + [admission], window)
  {
    hide SinceOpening;
  }

  lemma CalledKeeps(world: World, limit: int, window: int, now: int)
    requires limit >= 1 && window >= 1 && Invariant(world, limit, window) && world.clock <= now
    ensures Invariant(Called(world, limit, window, now), limit, window)
  {
    if Admits(world.counter, limit, now) {
      AdmittedKeeps(world, limit, window, now);
    } else {
      hide Bounded, SinceOpening, OpeningsApart;
    }
  }

  lemma {:induction false} RunKeeps(from: World, limit: int, window: int, times: seq<int>, to: World)
    requires limit >= 1 && window >= 1 && Invariant(from, limit, window)
    requires Reaches(from, limit, window, times, to)
    ensures Invariant(to, limit, window)
    ensures from.log <= to.log
    decreases |times|
  {
    if times != [] {
      CalledKeeps(from, limit, window, times[0]);
      var next := Called(from, limit, window, times[0]);
      assert from.log <= next.log;
      hide Invariant, Called;
      RunKeeps(next, limit, window, times[1..], to);
    }
  }

  /** Any counter at all to begin with: a leftover one, one without an expiry, or none. */
  function Begin(counter: Counter, clock: int): World {
    World(counter, clock, [])
  }

  predicate NotNegative(counter: Counter) {
    counter.Present? ==> counter.used >= 0
  }

  lemma AlwaysSound(counter: Counter, clock: int, limit: int, window: int, times: seq<int>, to: World)
    requires limit >= 1 && window >= 1 && NotNegative(counter)
    requires Reaches(Begin(counter, clock), limit, window, times, to)
    ensures Invariant(to, limit, window)
  {
    assert Invariant(Begin(counter, clock), limit, window);
    RunKeeps(Begin(counter, clock), limit, window, times, to);
  }

  /** The admissions at times from `start` up to, but not including, one window later. */
  function Within(log: seq<Admission>, start: int, window: int): set<nat> {
    set k: nat | k < |log| && start <= log[k].time < start + window
  }

  lemma {:induction false} RangeSize(indices: set<nat>, low: nat, high: nat)
    requires forall k | k in indices :: low <= k < high
    requires low <= high
    ensures |indices| <= high - low
    decreases high - low
  {
    if low == high {
      assert indices == {};
    } else {
      var less := indices - {high - 1};
      RangeSize(less, low, high - 1);
      assert |indices| <= |less| + 1;
    }
  }

  lemma {:induction false} FirstOf(indices: set<nat>, some: nat) returns (first: nat)
    requires some in indices
    ensures first in indices && forall k | k in indices :: first <= k
    decreases some
  {
    first := some;
    if smaller: nat :| smaller in indices && smaller < some {
      first := FirstOf(indices, smaller);
    }
  }

  lemma {:induction false} LastOf(indices: set<nat>, some: nat, bound: nat) returns (last: nat)
    requires some in indices && forall k | k in indices :: k < bound
    ensures last in indices && forall k | k in indices :: k <= last
    decreases bound - some
  {
    last := some;
    if larger: nat :| larger in indices && larger > some {
      last := LastOf(indices, larger, bound);
    }
  }

  /**
   Admissions less than a window apart: they belong to at most two counters. The one that
   created the first of these is not among them if the second was created in between.
   */
  lemma BlockIsBounded(log: seq<Admission>, limit: int, window: int, first: nat, last: nat, anew: bool)
    requires limit >= 1 && OpeningsApart(log, window) && Bounded(log, limit)
    requires forall i, j | 0 <= i < j < |log| :: log[i].time <= log[j].time
    requires first <= last < |log| && log[last].time < log[first].time + window
    requires anew ==> log[0].opens
    ensures last - first + 1 <= 2 * limit - if anew then 1 else 0
  {
    if opening: nat :| first < opening <= last && log[opening].opens {
      forall k | opening < k <= last
        ensures !log[k].opens
      {
        assert log[k].time <= log[last].time && log[first].time <= log[opening].time;
      }
      assert SameCounter(log, opening, last);
      EarlierPart(log, limit, window, first, opening, anew);
    } else {
      assert SameCounter(log, first, last);
    }
  }

  lemma EarlierPart(log: seq<Admission>, limit: int, window: int, first: nat, opening: nat, anew: bool)
    requires limit >= 1 && OpeningsApart(log, window) && Bounded(log, limit)
    requires forall i, j | 0 <= i < j < |log| :: log[i].time <= log[j].time
    requires first < opening < |log| && log[opening].opens && log[opening].time < log[first].time + window
    requires anew ==> log[0].opens
    ensures opening - first <= limit - if anew then 1 else 0
  {
    forall k | first <= k < opening
      ensures !log[k].opens
    {
      assert first < k ==> log[first].time <= log[k].time;
    }
    assert SameCounter(log, first, opening - 1);
    if anew {
      var before := OpeningBefore(log, first);
      assert SameCounter(log, before, opening - 1);
    }
  }

  lemma {:induction false} OpeningBefore(log: seq<Admission>, index: nat) returns (before: nat)
    requires index < |log| && log[0].opens
    ensures before <= index && log[before].opens && SameCounter(log, before, index)
    decreases index
  {
    if log[index].opens {
      before := index;
    } else {
      before := OpeningBefore(log, index - 1);
    }
  }

  /** Admissions within one window, counted: twice the limit, and one less if the log starts afresh. */
  lemma WindowIsBounded(log: seq<Admission>, clock: int, limit: int, window: int, start: int, anew: bool)
    requires limit >= 1 && window >= 1
    requires Sorted(log, clock) && OpeningsApart(log, window) && Bounded(log, limit)
    requires anew && log != [] ==> log[0].opens
    ensures |Within(log, start, window)| <= 2 * limit - if anew then 1 else 0
  {
    var within := Within(log, start, window);
    if some :| some in within {
      var first := FirstOf(within, some);
      var last := LastOf(within, some, |log|);
      BlockIsBounded(log, limit, window, first, last, anew);
      RangeSize(within, first, last + 1);
    }
  }

  /**
   Whatever the counter was to begin with: any stretch of time one window long lets through at
   most twice the limit.
   */
  lemma TwiceTheLimit(counter: Counter, clock: int, limit: int, window: int, times: seq<int>, to: World, start: int)
    requires limit >= 1 && window >= 1 && NotNegative(counter)
    requires Reaches(Begin(counter, clock), limit, window, times, to)
    ensures |Within(to.log, start, window)| <= 2 * limit
  {
    AlwaysSound(counter, clock, limit, window, times, to);
    hide Within, Sorted, OpeningsApart, Bounded, InForce;
    WindowIsBounded(to.log, to.clock, limit, window, start, false);
  }

  /** Without a counter to begin with, it is always less than twice the limit. */
  lemma LessThanTwiceTheLimit(clock: int, limit: int, window: int, times: seq<int>, to: World, start: int)
    requires limit >= 1 && window >= 1
    requires Reaches(Begin(Absent, clock), limit, window, times, to)
    ensures |Within(to.log, start, window)| <= 2 * limit - 1
  {
    AlwaysSound(Absent, clock, limit, window, times, to);
    if times != [] {
      var next := Called(Begin(Absent, clock), limit, window, times[0]);
      CalledKeeps(Begin(Absent, clock), limit, window, times[0]);
      assert next.log == [Admission(times[0], true)];
      RunKeeps(next, limit, window, times[1..], to);
    }
    hide Within, Sorted, OpeningsApart, Bounded, InForce;
    WindowIsBounded(to.log, to.clock, limit, window, start, true);
  }

  /** One counter lets through at most the limit, and the next is created more than a window later. */
  lemma LifetimesAreDisjoint(
    counter: Counter, clock: int, limit: int, window: int, times: seq<int>, to: World, i: nat, j: nat)
    requires limit >= 1 && window >= 1 && NotNegative(counter)
    requires Reaches(Begin(counter, clock), limit, window, times, to) && i < j < |to.log|
    ensures SameCounter(to.log, i, j) ==> j - i < limit
    ensures to.log[i].opens && to.log[j].opens ==> to.log[i].time + window < to.log[j].time
  {
    AlwaysSound(counter, clock, limit, window, times, to);
    hide InForce, Sorted;
  }

  // ---------------------------------------------------------------- when a refused caller is served

  /** After every call the counter has a time to live; one with time left keeps it. */
  lemma CounterAlwaysExpires(counter: Counter, limit: int, window: int, now: int)
    requires window >= 1
    ensures var after := After(counter, limit, window, now);
            && after.Present? && after.expiry.Some? && now < after.expiry.value
            && (counter.Present? && counter.expiry.Some? && now < counter.expiry.value ==> after.expiry == counter.expiry)
            && (counter.Absent? || counter.expiry.None? || counter.expiry.value <= now ==>
                  after.expiry == Some(now + window))
  {
  }

  /**
   A caller refused at one time, with no call in between, is served at a later one exactly when that
   is after the expiry: at the very expiry it is refused again, and the counter gets another window.
   */
  lemma ServedAfterExpiryExactly(counter: Counter, limit: int, window: int, now: int, later: int)
    requires limit >= 1 && window >= 1 && now <= later && !Admits(counter, limit, now)
    ensures var after := After(counter, limit, window, now);
            && after.expiry.Some?
            && (Admits(after, limit, later) <==> after.expiry.value < later)
            && (later == after.expiry.value ==> After(after, limit, window, later).expiry == Some(later + window))
  {
  }

  // ---------------------------------------------------------------- the bound is reached

  function Copies<T>(item: T, n: nat): seq<T> {
    seq(n, _ => item)
  }

  /** Several calls at one time, on a counter with room for them. */
  lemma {:induction false} Burst(world: World, limit: int, window: int, now: int, n: nat) returns (to: World)
    requires world.clock <= now && world.counter.Present? && world.counter.expiry.Some?
    requires now < world.counter.expiry.value && world.counter.used + n <= limit
    ensures Reaches(world, limit, window, Copies(now, n), to)
    ensures to.log == world.log + Copies(Admission(now, false), n)
    ensures to.counter == world.counter.(used := world.counter.used + n) && to.clock <= now
    decreases n
  {
    if n == 0 {
      to := world;
    } else {
      var next := Called(world, limit, window, now);
      to := Burst(next, limit, window, now, n - 1);
      assert Copies(now, n)[1..] == Copies(now, n - 1);
      var one := Admission(now, false);
      assert [one] + Copies(one, n - 1) == Copies(one, n);
    }
  }

  lemma {:induction false} ReachesOnward(
    from: World, limit: int, window: int, one: seq<int>, middle: World, two: seq<int>, to: World)
    requires Reaches(from, limit, window, one, middle) && Reaches(middle, limit, window, two, to)
    ensures Reaches(from, limit, window, one + two, to)
    decreases |one|
  {
    if one == [] {
      assert one + two == two;
    } else {
      assert (one + two)[1..] == one[1..] + two;
      hide Called;
      ReachesOnward(Called(from, limit, window, one[0]), limit, window, one[1..], middle, two, to);
    }
  }

  /** A first call at time 0, the rest of the limit just before the window ends, the full limit after it. */
  lemma BoundIsReached(limit: int, window: int) returns (times: seq<int>, to: World)
    requires limit >= 1 && window >= 3
    ensures Reaches(Begin(Absent, 0), limit, window, times, to)
    ensures |Within(to.log, window - 1, window)| == 2 * limit - 1
  {
    var begin := Begin(Absent, 0);
    var first := Called(begin, limit, window, 0);
    assert Reaches(first, limit, window, [], first);
    assert Reaches(begin, limit, window, [0], first);
    var late := Burst(first, limit, window, window - 1, limit - 1);
    var second := Called(late, limit, window, window + 1);
    assert Reaches(second, limit, window, [], second);
    assert Reaches(late, limit, window, [window + 1], second);
    to := Burst(second, limit, window, window + 1, limit - 1);
    var lateTimes, lastTimes := Copies(window - 1, limit - 1), Copies(window + 1, limit - 1);
    ReachesOnward(begin, limit, window, [0], first, lateTimes, late);
    ReachesOnward(begin, limit, window, [0] + lateTimes, late, [window + 1], second);
    ReachesOnward(begin, limit, window, [0] + lateTimes + [window + 1], second, lastTimes, to);
    times := [0] + lateTimes + [window + 1] + lastTimes;
    assert first.log == [Admission(0, true)] && second.log == late.log + [Admission(window + 1, true)];
    hide Reaches, Called, Within;
    FullLog(limit, window, to.log);
  }

  lemma FullLog(limit: int, window: int, log: seq<Admission>)
    requires limit >= 1 && window >= 3
    requires log == [Admission(0, true)] + Copies(Admission(window - 1, false), limit - 1) +
                    [Admission(window + 1, true)] + Copies(Admission(window + 1, false), limit - 1)
    ensures |Within(log, window - 1, window)| == 2 * limit - 1
  {
    assert |log| == 2 * limit;
    assert forall k | 1 <= k < |log| :: window - 1 <= log[k].time <= window + 1;
    AllButTheFirst(log, window - 1, window);
  }

  lemma AllButTheFirst(log: seq<Admission>, start: int, window: int)
    requires |log| > 0 && log[0].time < start
    requires forall k | 1 <= k < |log| :: start <= log[k].time < start + window
    ensures |Within(log, start, window)| == |log| - 1
  {
    RangeExactly(1, |log|);
    assert Within(log, start, window) == Range(1, |log|);
  }

  function Range(low: nat, high: nat): set<nat> {
    if low >= high then {} else Range(low, high - 1) + {high - 1}
  }

  lemma {:induction false} RangeExactly(low: nat, high: nat)
    requires low <= high
    ensures |Range(low, high)| == high - low
    ensures forall k: nat :: k in Range(low, high) <==> low <= k < high
    decreases high
  {
    if low < high {
      RangeExactly(low, high - 1);
    }
  }
}
