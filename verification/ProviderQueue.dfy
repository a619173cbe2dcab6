/**
 The bounded queue of a provider (internal/reliability/queue.go): a slot channel and two
 atomic counters, shared by any number of callers and stepped at each channel or atomic operation.
 */
module ProviderQueue {

  datatype Config = Config(maxInFlight: nat, maxWaiting: nat) {
    predicate Valid() {
      1 <= maxInFlight <= 10_000 && maxWaiting <= 100_000
    }
  }

  /** Where a caller stands between its call of Acquire and the end of Release. */
  datatype Place =
    | Arrived              // about to try the slot channel without waiting
    | Sent                 // sent on the slot channel, not yet counted as active
    | Refused              // found the channel full, about to read the waiting counter
    | Loaded(seen: int)    // read the waiting counter, about to compare and swap
    | Queued               // counted as waiting, blocked in the select
    | QueuedSent           // the select sent on the slot channel
    | Returning            // cancelled meanwhile, about to receive its slot back
    | Leaving              // failed, the deferred waiting decrement still to come
    | Served               // active, the deferred waiting decrement still to come
    | Holding              // owns a lease
    | Releasing            // won the release flag, about to decrement the active counter
    | Receiving            // about to receive its slot back
    | Gone

  datatype Queue = Queue(slots: nat, active: int, waiting: int, callers: map<nat, Place>)

  datatype Action =
    | Arrive
    | ContextFails
    | TrySend
    | CountActive
    | LoadWaiting
    | CompareAndSwap
    | SelectSend
    | SelectGivesUp
    | ContextHolds
    | ContextEnded
    | GiveBack
    | StopWaiting
    | WinRelease
    | CountInactive
    | ReceiveSlot

  const EMPTY := Queue(0, 0, 0, map[])

  function PlaceOf(queue: Queue, caller: nat): Place {
    if caller in queue.callers then queue.callers[caller] else Gone
  }

  /** Whether the caller can take this step now; a full send and an empty receive block. */
  predicate Enabled(queue: Queue, config: Config, caller: nat, action: Action) {
    var place := PlaceOf(queue, caller);
    match action
    case Arrive => caller !in queue.callers
    case ContextFails | TrySend => place == Arrived
    case CountActive => place == Sent
    case LoadWaiting => place == Refused
    case CompareAndSwap => place.Loaded?
    case SelectSend => place == Queued && queue.slots < config.maxInFlight
    case SelectGivesUp => place == Queued
    case ContextHolds | ContextEnded => place == QueuedSent
    case GiveBack => place == Returning && queue.slots > 0
    case StopWaiting => place == Leaving || place == Served
    case WinRelease => place == Holding
    case CountInactive => place == Releasing
    case ReceiveSlot => place == Receiving && queue.slots > 0
  }

  function At(queue: Queue, caller: nat, place: Place): Queue {
    queue.(callers := queue.callers[caller := place])
  }

  function Next(queue: Queue, config: Config, caller: nat, action: Action): Queue
    requires Enabled(queue, config, caller, action)
  {
    match action
    case Arrive => At(queue, caller, Arrived)
    case ContextFails => At(queue, caller, Gone)
    case TrySend =>
      if queue.slots < config.maxInFlight then At(queue, caller, Sent).(slots := queue.slots + 1)
      else At(queue, caller, Refused)
    case CountActive => At(queue, caller, Holding).(active := queue.active + 1)
    case LoadWaiting =>
      if queue.waiting >= config.maxWaiting then At(queue, caller, Gone)
      else At(queue, caller, Loaded(queue.waiting))
    case CompareAndSwap =>
      if queue.waiting == queue.callers[caller].seen then At(queue, caller, Queued).(waiting := queue.waiting + 1)
      else At(queue, caller, Refused)
    case SelectSend => At(queue, caller, QueuedSent).(slots := queue.slots + 1)
    case SelectGivesUp => At(queue, caller, Leaving)
    case ContextHolds => At(queue, caller, Served).(active := queue.active + 1)
    case ContextEnded => At(queue, caller, Returning)
    case GiveBack => At(queue, caller, Leaving).(slots := queue.slots - 1)
    case StopWaiting =>
      At(queue, caller, if queue.callers[caller] == Served then Holding else Gone).(waiting := queue.waiting - 1)
    case WinRelease => At(queue, caller, Releasing)
    case CountInactive => At(queue, caller, Receiving).(active := queue.active - 1)
    case ReceiveSlot => At(queue, caller, Gone).(slots := queue.slots - 1)
  }

  // ---------------------------------------------------------------- who owns what

  datatype Role = OwnsSlot | CountsActive | CountsWaiting

  predicate Plays(place: Place, role: Role) {
    match role
    case OwnsSlot => place in {Sent, QueuedSent, Returning, Served, Holding, Releasing, Receiving}
    case CountsActive => place in {Served, Holding, Releasing}
    case CountsWaiting => place in {Queued, QueuedSent, Returning, Leaving, Served}
  }

  function Those(callers: map<nat, Place>, role: Role): set<nat> {
    set caller | caller in callers && Plays(callers[caller], role)
  }

  predicate SeenInRange(callers: map<nat, Place>, config: Config) {
    forall caller | caller in callers && callers[caller].Loaded? :: callers[caller].seen < config.maxWaiting
  }

  /** Every occupied slot has exactly one owner, and both counters count what they say. */
  predicate Invariant(queue: Queue, config: Config) {
    && queue.slots == |Those(queue.callers, OwnsSlot)| <= config.maxInFlight
    && queue.active == |Those(queue.callers, CountsActive)|
    && queue.waiting == |Those(queue.callers, CountsWaiting)| <= config.maxWaiting
    && SeenInRange(queue.callers, config)
  }

  function One(yes: bool): nat {
    if yes then 1 else 0
  }

  lemma Moved(callers: map<nat, Place>, caller: nat, place: Place, role: Role)
    ensures |Those(callers[caller := place], role)| + One(caller in callers && Plays(callers[caller], role)) ==
            |Those(callers, role)| + One(Plays(place, role))
  {
    hide Plays;
    var before, after := Those(callers, role), Those(callers[caller := place], role);
    assert before - {caller} == after - {caller};
    SizeWithout(before, caller);
    SizeWithout(after, caller);
  }

  lemma SizeWithout(callers: set<nat>, caller: nat)
    ensures |callers| == |callers - {caller}| + One(caller in callers)
  {
    assert caller !in callers ==> callers - {caller} == callers;
  }

  lemma SlotsKept(queue: Queue, config: Config, caller: nat, action: Action)
    requires Invariant(queue, config) && Enabled(queue, config, caller, action)
    ensures var next := Next(queue, config, caller, action);
            next.slots == |Those(next.callers, OwnsSlot)| <= config.maxInFlight
  {
    hide Those, SeenInRange;
    var next := Next(queue, config, caller, action);
    Moved(queue.callers, caller, next.callers[caller], OwnsSlot);
  }

  lemma ActiveKept(queue: Queue, config: Config, caller: nat, action: Action)
    requires Invariant(queue, config) && Enabled(queue, config, caller, action)
    ensures var next := Next(queue, config, caller, action);
            next.active == |Those(next.callers, CountsActive)|
  {
    hide Those, SeenInRange;
    var next := Next(queue, config, caller, action);
    Moved(queue.callers, caller, next.callers[caller], CountsActive);
  }

  lemma WaitingKept(queue: Queue, config: Config, caller: nat, action: Action)
    requires Invariant(queue, config) && Enabled(queue, config, caller, action)
    ensures var next := Next(queue, config, caller, action);
            next.waiting == |Those(next.callers, CountsWaiting)| <= config.maxWaiting
  {
    hide Those;
    var next := Next(queue, config, caller, action);
    Moved(queue.callers, caller, next.callers[caller], CountsWaiting);
  }

  lemma StepKeeps(queue: Queue, config: Config, caller: nat, action: Action)
    requires Invariant(queue, config) && Enabled(queue, config, caller, action)
    ensures Invariant(Next(queue, config, caller, action), config)
  {
    SlotsKept(queue, config, caller, action);
    ActiveKept(queue, config, caller, action);
    WaitingKept(queue, config, caller, action);
    hide Those;
  }

  datatype Step = Step(caller: nat, action: Action)

  predicate Reaches(from: Queue, config: Config, steps: seq<Step>, to: Queue)
    decreases |steps|
  {
    if steps == [] then to == from
    else
      Enabled(from, config, steps[0].caller, steps[0].action) &&
      Reaches(Next(from, config, steps[0].caller, steps[0].action), config, steps[1..], to)
  }

  lemma {:induction false} RunKeeps(from: Queue, config: Config, steps: seq<Step>, to: Queue)
    requires Invariant(from, config) && Reaches(from, config, steps, to)
    ensures Invariant(to, config)
    decreases |steps|
  {
    if steps != [] {
      StepKeeps(from, config, steps[0].caller, steps[0].action);
      hide Invariant, Next, Enabled;
      RunKeeps(Next(from, config, steps[0].caller, steps[0].action), config, steps[1..], to);
    }
  }

  // ---------------------------------------------------------------- the promises

  lemma ActiveOwnSlots(callers: map<nat, Place>)
    ensures |Those(callers, CountsActive)| <= |Those(callers, OwnsSlot)|
  {
    SubsetSize(Those(callers, CountsActive), Those(callers, OwnsSlot));
  }

  lemma {:induction false} SubsetSize(small: set<nat>, large: set<nat>)
    requires small <= large
    ensures |small| <= |large|
  {
    assert large == small + (large - small);
    assert |large| == |small| + |large - small|;
  }

  /** In every reachable state: 0 <= active <= slots <= MaxInFlight and 0 <= waiting <= MaxWaiting. */
  lemma BoundsAlways(config: Config, steps: seq<Step>, to: Queue)
    requires Reaches(EMPTY, config, steps, to)
    ensures Invariant(to, config)
    ensures 0 <= to.active <= to.slots <= config.maxInFlight
    ensures 0 <= to.waiting <= config.maxWaiting
  {
    assert forall role :: Those(map[], role) == {};
    RunKeeps(EMPTY, config, steps, to);
    ActiveOwnSlots(to.callers);
  }

  /** A receive never blocks: whoever is about to receive owns one of the occupied slots. */
  lemma ReceivesNeverBlock(queue: Queue, config: Config, caller: nat)
    requires Invariant(queue, config) && caller in queue.callers
    requires queue.callers[caller] in {Returning, Receiving}
    ensures Enabled(queue, config, caller, if queue.callers[caller] == Returning then GiveBack else ReceiveSlot)
  {
    assert caller in Those(queue.callers, OwnsSlot);
  }

  /** Only the select on a full channel can hold a caller up, and its timer or context still frees it. */
  lemma NobodyIsStuck(queue: Queue, config: Config, caller: nat)
    requires Invariant(queue, config) && caller in queue.callers && queue.callers[caller] != Gone
    ensures exists action :: action != Arrive && Enabled(queue, config, caller, action)
  {
    var place := queue.callers[caller];
    if place in {Returning, Receiving} {
      ReceivesNeverBlock(queue, config, caller);
    } else {
      var action :=
        match place
        case Arrived => TrySend
        case Sent => CountActive
        case Refused => LoadWaiting
        case Loaded(_) => CompareAndSwap
        case Queued => SelectGivesUp
        case QueuedSent => ContextHolds
        case Leaving | Served => StopWaiting
        case Holding => WinRelease
        case _ => CountInactive;
      hide Invariant;
      assert Enabled(queue, config, caller, action);
    }
  }

  /** A caller gets a slot at once exactly when fewer slots than allowed have an owner. */
  lemma ServedAtOnceExactly(queue: Queue, config: Config, caller: nat)
    requires Invariant(queue, config) && Enabled(queue, config, caller, TrySend)
    ensures Next(queue, config, caller, TrySend).callers[caller] ==
            if |Those(queue.callers, OwnsSlot)| < config.maxInFlight then Sent else Refused
  {
    hide Those;
  }

  /** A waiting caller can take a slot exactly when one is free. */
  lemma SlotTakenExactly(queue: Queue, config: Config, caller: nat)
    requires Invariant(queue, config) && caller in queue.callers && queue.callers[caller] == Queued
    ensures Enabled(queue, config, caller, SelectSend) <==> |Those(queue.callers, OwnsSlot)| < config.maxInFlight
  {
    hide Those;
  }

  /** A caller is refused exactly when as many callers as allowed are waiting at that moment. */
  lemma RefusedExactly(queue: Queue, config: Config, caller: nat)
    requires Invariant(queue, config) && Enabled(queue, config, caller, LoadWaiting)
    ensures Next(queue, config, caller, LoadWaiting).callers[caller] == Gone <==>
            |Those(queue.callers, CountsWaiting)| == config.maxWaiting
  {
    hide Those;
  }

  /** Once every caller is gone nothing is left behind. */
  lemma NothingLeaks(queue: Queue, config: Config)
    requires Invariant(queue, config)
    requires forall caller | caller in queue.callers :: queue.callers[caller] == Gone
    ensures queue.slots == 0 && queue.active == 0 && queue.waiting == 0
  {
    assert forall role :: Those(queue.callers, role) == {};
  }
}
