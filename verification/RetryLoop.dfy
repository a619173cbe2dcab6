/**
 The retry loop of one candidate provider (internal/reliability/attempt.go). What the rest of
 the system does in each round (admission, key table, upstream answer, time taken) is arbitrary.
 */
module RetryLoop {
  import opened Wrappers
  import opened Failure
  import opened KeySelector
  import opened RetryPolicy

  datatype QueueOutcome = Acquired | QueueFull | QueueTimedOut | QueueBudgetEnded | QueueCanceled

  /** One round as the environment plays it. */
  datatype Round = Round(
    hasAdapter: bool,
    breakerRefuses: bool,
    queue: QueueOutcome,
    usesKeys: bool,
    keys: seq<Key>,
    rotation: nat,
    reply: Option<ProviderError>,
    elapsed: nat,
    canceled: bool,
    random: real,
    overshoot: nat,
    interrupted: bool)

  predicate Possible(round: Round) {
    && 1 <= |round.keys| <= 1000
    && (forall k | 0 <= k < |round.keys| :: round.keys[k].id != "")
    && round.rotation < WORD
    && 0.0 <= round.random < 1.0
  }

  /** `called` says that the adapter was invoked, `attempted` that it got as far as the upstream. */
  datatype Outcome = Outcome(failure: Option<Failure>, keyId: string, attempted: bool, called: bool)

  function Context(canceled: bool, now: int, deadline: int): ContextState {
    if canceled then ContextCanceled else if now >= deadline then ContextDeadline else Active
  }

  /** The failure for an ended context, whose own error is handed to the classification. */
  function ContextFailure(context: ContextState): (failure: Option<Failure>)
    ensures Final(failure) || context.Active?
    ensures context.ContextCanceled? ==> failure.value.category == Canceled
    ensures context.ContextDeadline? ==> failure.value.category == Timeout && failure.value.timeout == RequestBudget
  {
    FromProvider(context, Some(if context.ContextCanceled? then CanceledError else DeadlineError))
  }

  function QueueFailure(outcome: QueueOutcome): Failure {
    match outcome
    case QueueBudgetEnded => Plain(Timeout).(timeout := RequestBudget)
    case QueueCanceled => Plain(Canceled)
    case _ => Plain(Queue)
  }

  /** A failure that ends the loop at once: neither the same key nor another is tried. */
  predicate Final(failure: Option<Failure>) {
    failure.Some? && !SignalsFor(failure).retry && !SignalsFor(failure).switchKey
  }

  /** All keys are cooling: worth waiting for, without having called anyone. */
  predicate Waitable(failure: Failure) {
    failure.category == KeyExhausted && failure.retryAfter > 0
  }

  function Turned(failure: Failure): Outcome {
    Outcome(Some(failure), "", false, false)
  }

  function Exhausted(retryAfter: Option<int>): Failure {
    match retryAfter
    case None => Plain(KeyExhausted)
    case Some(delay) => Plain(KeyExhausted).(retryAfter := delay, retryAfterSet := true)
  }

  function Called(round: Round, keyId: string, now: int, deadline: int): Outcome {
    Outcome(FromProvider(Context(round.canceled, now + round.elapsed, deadline), round.reply),
            keyId, ReachedUpstream(round.reply), true)
  }

  /** What one round comes to: the first gate that refuses decides, else the upstream's answer. */
  ghost predicate Comes(
    round: Round, preferred: string, excluded: set<string>, now: int, deadline: int, outcome: Outcome)
    requires Possible(round)
  {
    if !round.hasAdapter then outcome == Turned(Plain(LocalValidation))
    else if round.breakerRefuses then outcome == Turned(Plain(Breaker))
    else if round.queue != Acquired then outcome == Turned(QueueFailure(round.queue))
    else if !round.usesKeys then outcome == Called(round, "", now, deadline)
    else
      exists answer ::
        Answers(round.keys, preferred, excluded, now, round.rotation, answer) &&
        outcome == match answer
                   case Err(retryAfter) => Turned(Exhausted(retryAfter))
                   case Ok(selection) => Called(round, round.keys[selection.index].id, now, deadline)
  }

  /** What the loop needs to know of a round. */
  predicate Plausible(excluded: set<string>, outcome: Outcome) {
    && outcome.keyId !in excluded
    && (outcome.called && !outcome.attempted ==> Final(outcome.failure))
    && (!outcome.called ==>
          !outcome.attempted && outcome.failure.Some? &&
          (Final(outcome.failure) || Waitable(outcome.failure.value)))
  }

  lemma CalledIsPlausible(round: Round, keyId: string, excluded: set<string>, now: int, deadline: int)
    requires keyId !in excluded
    ensures Plausible(excluded, Called(round, keyId, now, deadline))
  {
    if !ReachedUpstream(round.reply) {
      LocalErrorsAreFinal(Context(round.canceled, now + round.elapsed, deadline), round.reply.value);
    }
    hide SignalsFor;
  }

  lemma ComesIsPlausible(
    round: Round, preferred: string, excluded: set<string>, now: int, deadline: int, outcome: Outcome)
    requires Possible(round) && "" !in excluded && Comes(round, preferred, excluded, now, deadline, outcome)
    ensures Plausible(excluded, outcome)
  {
    hide Called;
    if outcome == Called(round, outcome.keyId, now, deadline) && outcome.keyId !in excluded {
      CalledIsPlausible(round, outcome.keyId, excluded, now, deadline);
    }
    KeyIdOf(round, now, deadline);
  }

  lemma KeyIdOf(round: Round, now: int, deadline: int)
    ensures forall keyId :: Called(round, keyId, now, deadline).keyId == keyId
  {
  }

  /** One attempt: adapter, breaker, queue, key, call. */
  method ExecuteOnce(round: Round, preferred: string, excluded: set<string>, now: int, deadline: int)
    returns (outcome: Outcome)
    requires Possible(round) && ZERO_TIME <= now
    ensures Comes(round, preferred, excluded, now, deadline, outcome)
  {
    hide FromProvider, Answers;
    if !round.hasAdapter {
      return Outcome(Some(Plain(LocalValidation)), "", false, false);
    }
    if round.breakerRefuses {
      return Outcome(Some(Plain(Breaker)), "", false, false);
    }
    if round.queue != Acquired {
      return Outcome(Some(QueueFailure(round.queue)), "", false, false);
    }
    var keyId := "";
    if round.usesKeys {
      var selector := new Selector(round.keys);
      selector.next := round.rotation;
      var selected := selector.SelectKey(preferred, excluded, now);
      if selected.Err? {
        var failure := Plain(KeyExhausted);
        if selected.error.Some? {
          failure := failure.(retryAfter := selected.error.value, retryAfterSet := true);
        }
        return Outcome(Some(failure), "", false, false);
      }
      SelectedInRange(round, preferred, excluded, now, selected);
      keyId := selector.keys[selected.value.index].id;
    }
    var context := Context(round.canceled, now + round.elapsed, deadline);
    outcome := Outcome(FromProvider(context, round.reply), keyId, ReachedUpstream(round.reply), true);
  }

  lemma SelectedInRange(
    round: Round, preferred: string, excluded: set<string>, now: int, answer: Result<Selection, Option<int>>)
    requires Possible(round) && answer.Ok?
    requires Answers(round.keys, preferred, excluded, now, round.rotation, answer)
    ensures answer.value.index < |round.keys|
  {
  }

  /** Waiting out a delay; refused when the deadline would come first. */
  method Wait(delay: int, round: Round, now: int, deadline: int) returns (waited: bool, after: int)
    ensures now <= after
    ensures waited && delay > 0 ==> now + delay < deadline && now + delay <= after
    ensures !waited ==> round.canceled || now >= deadline || deadline - now <= delay || round.interrupted
  {
    if Context(round.canceled, now, deadline) != Active {
      return false, now;
    }
    if delay <= 0 {
      return true, now;
    }
    if deadline - now <= delay {
      return false, now;
    }
    if round.interrupted {
      return false, now;
    }
    return true, now + delay + round.overshoot;
  }

  datatype Record = Record(keyId: string, attempt: nat, failure: Option<Failure>)

  predicate KeyRejected(failure: Option<Failure>) {
    failure.Some? && failure.value.category in {KeyUnauthorized, KeyForbidden}
  }

  /** Attempts are numbered from one, in order. */
  predicate Numbered(trail: seq<Record>) {
    forall i | 0 <= i < |trail| :: trail[i].attempt == i + 1
  }

  /** A key that was answered with 401 or 403 does not appear again. */
  predicate RejectedKeysRest(trail: seq<Record>) {
    forall i, j | 0 <= i < j < |trail| && KeyRejected(trail[i].failure) && trail[i].keyId != "" ::
      trail[j].keyId != trail[i].keyId
  }

  /** Every attempt but the last failed in a way that asks for another one. */
  predicate OnlyRetried(trail: seq<Record>, upTo: int) {
    forall i | 0 <= i < |trail| && i < upTo :: trail[i].failure.Some? && !Final(trail[i].failure)
  }

  predicate Excludes(excluded: set<string>, trail: seq<Record>) {
    forall i | 0 <= i < |trail| && KeyRejected(trail[i].failure) && trail[i].keyId != "" ::
      trail[i].keyId in excluded
  }

  // ---------------------------------------------------------------- what a run consists of

  /** What the loop remembers when a round begins. */
  datatype View = View(preferred: string, excluded: set<string>, now: int)

  function RejectedIn(outcomes: seq<Outcome>): set<string> {
    if outcomes == [] then {}
    else
      var last := outcomes[|outcomes| - 1];
      RejectedIn(outcomes[..|outcomes| - 1]) +
      if last.keyId != "" && KeyRejected(last.failure) then {last.keyId} else {}
  }

  /** The key to go on with: the last one used, unless its failure asked for another. */
  function PreferredAfter(outcomes: seq<Outcome>): string {
    if outcomes == [] then ""
    else
      var last := outcomes[|outcomes| - 1];
      if SignalsFor(last.failure).switchKey then ""
      else if last.keyId != "" then last.keyId
      else PreferredAfter(outcomes[..|outcomes| - 1])
  }

  function TrailOf(outcomes: seq<Outcome>): seq<Record> {
    if outcomes == [] then []
    else
      var last := outcomes[|outcomes| - 1];
      var earlier := TrailOf(outcomes[..|outcomes| - 1]);
      if last.attempted then earlier + [Record(last.keyId, |earlier| + 1, last.failure)] else earlier
  }

  /** What a round begins with: what the earlier ones left, and no sooner than their backoff allows. */
  ghost predicate Follows(
    config: Config, world: nat -> Round, start: int, views: seq<View>, outcomes: seq<Outcome>, view: View)
    requires |views| == |outcomes|
  {
    && view.preferred == PreferredAfter(outcomes)
    && view.excluded == RejectedIn(outcomes)
    && if outcomes == [] then view.now == start
       else
         var n := |outcomes| - 1;
         var delay := BackoffOf(config, outcomes[n].failure, |TrailOf(outcomes)|, world(n).random);
         && ShouldRetry(config, outcomes[n].failure, |TrailOf(outcomes)|)
         && view.now >= views[n].now + world(n).elapsed + if delay > 0 then delay else 0
  }

  /** The rounds played so far, each begun as it must and come to what it must. */
  ghost predicate Played(
    config: Config, world: nat -> Round, start: int, deadline: int, views: seq<View>, outcomes: seq<Outcome>)
    requires forall i: nat :: Possible(world(i))
    decreases |outcomes|
  {
    |views| == |outcomes| &&
    (outcomes != [] ==>
       var n := |outcomes| - 1;
       && Played(config, world, start, deadline, views[..n], outcomes[..n])
       && Follows(config, world, start, views[..n], outcomes[..n], views[n])
       && Comes(world(n), views[n].preferred, views[n].excluded, views[n].now, deadline, outcomes[n]))
  }

  lemma OneMore(outcomes: seq<Outcome>, outcome: Outcome)
    ensures var all := outcomes + [outcome];
            && RejectedIn(all) == RejectedIn(outcomes) +
                                  (if outcome.keyId != "" && KeyRejected(outcome.failure) then {outcome.keyId} else {})
            && PreferredAfter(all) == (if SignalsFor(outcome.failure).switchKey then ""
                                       else if outcome.keyId != "" then outcome.keyId
                                       else PreferredAfter(outcomes))
            && TrailOf(all) == TrailOf(outcomes) +
                               (if outcome.attempted
                                then [Record(outcome.keyId, |TrailOf(outcomes)| + 1, outcome.failure)] else [])
  {
    hide SignalsFor, KeyRejected;
    var all := outcomes + [outcome];
    assert all[..|all| - 1] == outcomes;
    assert all[|all| - 1] == outcome;
  }

  lemma PlayedOneMore(
    config: Config, world: nat -> Round, start: int, deadline: int,
    views: seq<View>, outcomes: seq<Outcome>, view: View, outcome: Outcome)
    requires forall i: nat :: Possible(world(i))
    requires Played(config, world, start, deadline, views, outcomes)
    requires |views| == |outcomes| && Follows(config, world, start, views, outcomes, view)
    requires Comes(world(|outcomes|), view.preferred, view.excluded, view.now, deadline, outcome)
    ensures Played(config, world, start, deadline, views + [view], outcomes + [outcome])
  {
    hide Comes, Follows, Possible;
    var moreViews, more := views + [view], outcomes + [outcome];
    assert moreViews[..|outcomes|] == views && more[..|outcomes|] == outcomes;
  }

  // ---------------------------------------------------------------- what holds of the trail

  /** A trail that may be continued: everything in it asked for another attempt. */
  predicate Continuing(trail: seq<Record>, excluded: set<string>) {
    && Numbered(trail) && RejectedKeysRest(trail) && OnlyRetried(trail, |trail|)
    && Excludes(excluded, trail) && "" !in excluded
  }

  lemma Recorded(outcomes: seq<Outcome>, outcome: Outcome)
    requires Continuing(TrailOf(outcomes), RejectedIn(outcomes)) && Plausible(RejectedIn(outcomes), outcome)
    ensures var trail := TrailOf(outcomes + [outcome]);
            && Numbered(trail) && RejectedKeysRest(trail) && OnlyRetried(trail, |trail| - 1)
            && (outcome.failure.Some? && !Final(outcome.failure) ==>
                  Continuing(trail, RejectedIn(outcomes + [outcome])))
  {
    OneMore(outcomes, outcome);
    hide Final, Plausible, TrailOf, RejectedIn;
    assert outcome.keyId !in RejectedIn(outcomes) by { PlausibleKey(RejectedIn(outcomes), outcome); }
  }

  lemma PlausibleKey(excluded: set<string>, outcome: Outcome)
    requires Plausible(excluded, outcome)
    ensures outcome.keyId !in excluded
  {
  }

  datatype Attempts = Attempts(count: nat, trail: seq<Record>, calls: nat)

  /** How a run may end. */
  predicate Ends(config: Config, last: Outcome, attempts: nat, failure: Option<Failure>, gaveUpWaiting: bool) {
    if gaveUpWaiting then
      ShouldRetry(config, last.failure, attempts) && failure.Some? &&
      (failure == last.failure || failure.value.category == Canceled ||
       (failure.value.category == Timeout && failure.value.timeout == RequestBudget))
    else failure == last.failure && !ShouldRetry(config, failure, attempts)
  }

  /**
   The loop. It ends because each round either uses up an attempt or, when all keys are
   cooling, waits a positive time that ends before the deadline.
   */
  method Execute(config: Config, world: nat -> Round, start: int, deadline: int)
    returns (result: Attempts, failure: Option<Failure>, gaveUpWaiting: bool,
             ghost views: seq<View>, outcomes: seq<Outcome>)
    requires config.Valid() && ZERO_TIME <= start
    requires forall i: nat :: Possible(world(i))
    ensures |outcomes| > 0 && Played(config, world, start, deadline, views, outcomes)
    ensures Ends(config, outcomes[|outcomes| - 1], result.count, failure, gaveUpWaiting)
    ensures result.trail == TrailOf(outcomes)
    ensures result.count == |result.trail| <= config.maxAttempts
    ensures result.calls <= config.maxAttempts
    ensures Numbered(result.trail)
    ensures RejectedKeysRest(result.trail)
    ensures OnlyRetried(result.trail, result.count - 1)
    ensures failure.Some? && !gaveUpWaiting ==> Final(failure) || result.count == config.maxAttempts
    ensures failure.None? ==> result.count > 0 && result.trail[result.count - 1].failure.None?
  {
    hide FromProvider, SignalsFor, Context, Comes, Numbered, RejectedKeysRest, OnlyRetried, KeyRejected,
         Played, TrailOf, PreferredAfter, RejectedIn, Continuing, BackoffOf;
    var attempts, calls := 0, 0;
    var trail: seq<Record> := [];
    var view := View("", {}, start);
    views, outcomes := [], [];
    NothingYet(config, world, start, deadline);
    while true
      invariant attempts == |trail| < config.maxAttempts && calls == attempts
      invariant ZERO_TIME <= view.now
      invariant |views| == |outcomes| && trail == TrailOf(outcomes)
      invariant Played(config, world, start, deadline, views, outcomes)
      invariant Follows(config, world, start, views, outcomes, view)
      invariant Continuing(trail, view.excluded)
      decreases config.maxAttempts - attempts, if view.now < deadline then deadline - view.now else 0
    {
      var round := world(|outcomes|);
      assert Possible(round);
      var outcome := ExecuteOnce(round, view.preferred, view.excluded, view.now, deadline);
      ContinuingExcludes(trail, view.excluded);
      ComesIsPlausible(round, view.preferred, view.excluded, view.now, deadline, outcome);
      PlayedOneMore(config, world, start, deadline, views, outcomes, view, outcome);
      Recorded(outcomes, outcome);
      OneMore(outcomes, outcome);
      views, outcomes := views + [view], outcomes + [outcome];
      if outcome.called {
        calls := calls + 1;
      }
      if outcome.attempted {
        attempts := attempts + 1;
        trail := trail + [Record(outcome.keyId, attempts, outcome.failure)];
      }
      var now := view.now + round.elapsed;
      RetriesExactly(config, outcome.failure, attempts);
      if !ShouldRetry(config, outcome.failure, attempts) {
        return Attempts(attempts, trail, calls), outcome.failure, false, views, outcomes;
      }
      var preferred, excluded := Remember(view, outcome);
      var delay := Backoff(config, outcome.failure, attempts, round.random);
      var waited, after := Wait(delay, round, now, deadline);
      if !waited {
        var context := Context(round.canceled || round.interrupted, after, deadline);
        var last := if context == Active then outcome.failure else ContextFailure(context);
        return Attempts(attempts, trail, calls), last, true, views, outcomes;
      }
      ExhaustedOnlyWaits(config, outcome.failure, attempts, round.random);
      view := View(preferred, excluded, after);
    }
  }

  /** Which key to go on with, and which not to use again. */
  method Remember(view: View, outcome: Outcome) returns (preferred: string, excluded: set<string>)
    ensures preferred == if SignalsFor(outcome.failure).switchKey then ""
                         else if outcome.keyId != "" then outcome.keyId
                         else view.preferred
    ensures excluded == view.excluded +
                        if outcome.keyId != "" && KeyRejected(outcome.failure) then {outcome.keyId} else {}
  {
    preferred, excluded := view.preferred, view.excluded;
    if SignalsFor(outcome.failure).switchKey {
      if outcome.keyId != "" && KeyRejected(outcome.failure) {
        excluded := excluded + {outcome.keyId};
      }
      preferred := "";
    } else if outcome.keyId != "" {
      preferred := outcome.keyId;
    }
  }

  lemma ContinuingExcludes(trail: seq<Record>, excluded: set<string>)
    requires Continuing(trail, excluded)
    ensures "" !in excluded
  {
  }

  /** Another round follows exactly a failure that is not final, while attempts are left. */
  lemma RetriesExactly(config: Config, failure: Option<Failure>, attempts: nat)
    ensures ShouldRetry(config, failure, attempts) <==>
            failure.Some? && !Final(failure) && attempts < config.maxAttempts
  {
  }

  /** What a round comes to, gate by gate. */
  lemma RoundsPlainly(
    round: Round, preferred: string, excluded: set<string>, now: int, deadline: int, outcome: Outcome)
    requires Possible(round) && Comes(round, preferred, excluded, now, deadline, outcome)
    ensures !outcome.called ==> outcome.failure.Some? && !outcome.attempted && outcome.keyId == ""
    ensures !round.hasAdapter ==> !outcome.called && outcome.failure.value.category == LocalValidation
    ensures round.hasAdapter && round.breakerRefuses ==>
              !outcome.called && outcome.failure.value.category == Breaker
    ensures round.hasAdapter && !round.breakerRefuses && round.queue != Acquired ==>
              && !outcome.called
              && (round.queue in {QueueFull, QueueTimedOut} ==> outcome.failure.value.category == Queue)
              && (round.queue == QueueCanceled ==> outcome.failure.value.category == Canceled)
              && (round.queue == QueueBudgetEnded ==>
                    outcome.failure.value.category == Timeout && outcome.failure.value.timeout == RequestBudget)
    ensures round.hasAdapter && !round.breakerRefuses && round.queue == Acquired ==>
              && (!outcome.called ==> round.usesKeys && outcome.failure.value.category == KeyExhausted)
              && (!outcome.called && outcome.failure.value.retryAfterSet ==>
                    exists k | 0 <= k < |round.keys| ::
                      Cooling(round.keys[k], excluded, now) &&
                      round.keys[k].cooldownUntil == now + outcome.failure.value.retryAfter)
              && (!outcome.called && !outcome.failure.value.retryAfterSet ==> outcome.failure.value.retryAfter == 0)
              && (outcome.called && !round.usesKeys ==> outcome.keyId == "")
              && (outcome.called && round.usesKeys ==>
                    exists k | 0 <= k < |round.keys| ::
                      round.keys[k].id == outcome.keyId && Available(round.keys[k], excluded, now))
    ensures outcome.called ==>
              && (outcome.failure.None? <==> round.reply.None?)
              && (outcome.attempted <==> round.reply !in {Some(InvalidRequestError), Some(UnsupportedCapabilityError)})
              && (round.reply.Some? && round.canceled ==> outcome.failure.value.category == Canceled)
              && (round.reply.Some? && round.reply != Some(CanceledError) && !round.canceled && now + round.elapsed >= deadline ==>
                    outcome.failure.value.category == Timeout && outcome.failure.value.timeout == RequestBudget)
              && (!round.canceled && now + round.elapsed < deadline ==>
                    outcome.failure == FromProvider(Active, round.reply))
  {
    CalledPlainly(round, outcome.keyId, now, deadline);
    hide FromProvider, FromHttp;
  }

  lemma CalledPlainly(round: Round, keyId: string, now: int, deadline: int)
    ensures var outcome := Called(round, keyId, now, deadline);
            && (outcome.failure.None? <==> round.reply.None?)
            && (round.reply.Some? && round.canceled ==> outcome.failure.value.category == Canceled)
            && (round.reply.Some? && round.reply != Some(CanceledError) && !round.canceled && now + round.elapsed >= deadline ==>
                  outcome.failure.value.category == Timeout && outcome.failure.value.timeout == RequestBudget)
  {
    hide FromHttp;
  }

  /** Every round of a run began as it must and came to what it must. */
  lemma {:induction false} PlayedAt(
    config: Config, world: nat -> Round, start: int, deadline: int,
    views: seq<View>, outcomes: seq<Outcome>, i: nat)
    requires forall k: nat :: Possible(world(k))
    requires Played(config, world, start, deadline, views, outcomes) && i < |outcomes|
    ensures |views| == |outcomes|
    ensures Follows(config, world, start, views[..i], outcomes[..i], views[i])
    ensures Comes(world(i), views[i].preferred, views[i].excluded, views[i].now, deadline, outcomes[i])
    decreases |outcomes|
  {
    hide Follows, Comes, Possible;
    var n := |outcomes| - 1;
    PlayedLast(config, world, start, deadline, views, outcomes);
    hide Played;
    if i < n {
      PlayedAt(config, world, start, deadline, views[..n], outcomes[..n], i);
      assert views[..n][..i] == views[..i] && outcomes[..n][..i] == outcomes[..i];
    }
  }

  lemma PlayedLast(
    config: Config, world: nat -> Round, start: int, deadline: int, views: seq<View>, outcomes: seq<Outcome>)
    requires forall k: nat :: Possible(world(k))
    requires Played(config, world, start, deadline, views, outcomes) && outcomes != []
    ensures var n := |outcomes| - 1;
            && |views| == |outcomes|
            && Played(config, world, start, deadline, views[..n], outcomes[..n])
            && Follows(config, world, start, views[..n], outcomes[..n], views[n])
            && Comes(world(n), views[n].preferred, views[n].excluded, views[n].now, deadline, outcomes[n])
  {
    hide Follows, Comes, Possible;
  }

  /** After a failure that is not the key's, the next call is made with the same key if it can be. */
  lemma StaysWithItsKey(
    config: Config, world: nat -> Round, start: int, deadline: int,
    views: seq<View>, outcomes: seq<Outcome>, i: nat, k: nat)
    requires forall j: nat :: Possible(world(j))
    requires Played(config, world, start, deadline, views, outcomes) && i + 1 < |outcomes| == |views|
    requires outcomes[i].keyId != "" && !SignalsFor(outcomes[i].failure).switchKey
    requires outcomes[i + 1].called && world(i + 1).usesKeys
    requires k < |world(i + 1).keys| && world(i + 1).keys[k].id == outcomes[i].keyId
    requires Available(world(i + 1).keys[k], views[i + 1].excluded, views[i + 1].now)
    ensures outcomes[i + 1].keyId == outcomes[i].keyId
  {
    PlayedAt(config, world, start, deadline, views, outcomes, i + 1);
    var before := outcomes[..i + 1];
    assert before[|before| - 1] == outcomes[i];
    assert PreferredAfter(before) == outcomes[i].keyId;
    hide Played, SignalsFor, FromProvider, TrailOf, RejectedIn, BackoffOf, ShouldRetry;
    assert Possible(world(i + 1));
    assert PreferredAvailable(world(i + 1).keys, views[i + 1].preferred, views[i + 1].excluded, views[i + 1].now);
  }

  lemma NothingYet(config: Config, world: nat -> Round, start: int, deadline: int)
    requires forall i: nat :: Possible(world(i))
    ensures Played(config, world, start, deadline, [], []) && TrailOf([]) == []
    ensures Follows(config, world, start, [], [], View("", {}, start)) && Continuing([], {})
  {
  }

  lemma ExhaustedOnlyWaits(config: Config, failure: Option<Failure>, attempt: nat, random: real)
    ensures failure.Some? && failure.value.category == KeyExhausted ==>
              BackoffOf(config, failure, attempt, random) == failure.value.retryAfter
  {
  }

}
