/**
 Running requests and the steps of the queue they go through, together: the slots that requests
 count are the leases of the queue, and when all requests have ended the queue is empty.
 */
module RequestsAndQueue {
  import opened Wrappers
  import Failures = Failure
  import Q = ProviderQueue
  import R = Resources
  import B = Breaker
  import BT = BreakerTheorems
  import opened SlotLeases

  /** Caller r of the queue is request r. */
  datatype Joint = Joint(system: R.System, queue: Q.Queue)

  datatype Config = Config(requests: R.Config, queue: Q.Config) {
    predicate Valid() {
      requests.breaker.Valid() && requests.maxInFlight == queue.maxInFlight
    }
  }

  datatype Step =
    | OfRequest(r: nat, step: R.Step)
    | OfQueue(r: nat, action: Q.Action, failure: Failures.Failure)

  /** In the middle of Acquire, without a slot that is sure. */
  predicate Acquiring(queue: Q.Queue, r: nat) {
    r in queue.callers && queue.callers[r] != Q.Gone && !HasLease(queue.callers[r])
  }

  /** The next call of the request is the release of the lease it holds. */
  predicate AtRelease(system: R.System, r: nat) {
    r in system.requests && system.requests[r].held && system.requests[r].permit.Some? &&
    var stage := system.requests[r].stage;
    stage.Cleaning? && stage.todo != [] && stage.todo[0] == R.Release
  }

  /**
   Steps of a request other than those the queue takes part in; and steps of the queue, entered by
   a request that has its permit and released by one whose next call is the release.
   */
  predicate Enabled(joint: Joint, config: Config, step: Step) {
    match step
    case OfRequest(r, inner) =>
      && R.Enabled(joint.system, config.requests, r, inner)
      && !inner.QueueGrants? && !inner.QueueRefuses?
      && (inner.Panic? ==> !Acquiring(joint.queue, r))
      && (inner.CleanUp? ==> !AtRelease(joint.system, r))
    case OfQueue(r, action, _) =>
      && Q.Enabled(joint.queue, config.queue, r, action)
      && (action == Q.Arrive ==> r in joint.system.requests && joint.system.requests[r].stage == R.Admitted)
      && (action in {Q.WinRelease, Q.CountInactive, Q.ReceiveSlot} ==> AtRelease(joint.system, r))
  }

  /** What a step of the queue means to the request: its slot, its release, its refusal, or nothing yet. */
  function Meaning(joint: Joint, config: Config, step: Step): Option<R.Step>
    requires step.OfQueue? && Enabled(joint, config, step)
  {
    var events := EventOf(joint.queue, config.queue, step.r, step.action);
    var next := Q.Next(joint.queue, config.queue, step.r, step.action);
    if events != [] then
      Some(if events[0].Granted? then R.QueueGrants else R.CleanUp(joint.system.breaker.clock))
    else if Acquiring(joint.queue, step.r) && next.callers[step.r] == Q.Gone then Some(R.QueueRefuses(step.failure))
    else None
  }

  /** A step of a request, where its own count of slots allows it. */
  function Moved(system: R.System, config: R.Config, r: nat, step: R.Step): R.System {
    if R.Enabled(system, config, r, step) then R.Next(system, config, r, step) else system
  }

  function Next(joint: Joint, config: Config, step: Step): Joint
    requires Enabled(joint, config, step)
  {
    match step
    case OfRequest(r, inner) => joint.(system := R.Next(joint.system, config.requests, r, inner))
    case OfQueue(r, action, _) =>
      var meaning := Meaning(joint, config, step);
      Joint(if meaning.Some? then Moved(joint.system, config.requests, r, meaning.value) else joint.system,
            Q.Next(joint.queue, config.queue, r, action))
  }

  /** The slots that requests hold are the leases of the queue; whoever is acquiring is a request with a permit. */
  ghost predicate Coupled(joint: Joint) {
    && Leased(joint.queue) == R.Holders(joint.system.requests)
    && (forall r | r in joint.queue.callers :: r in joint.system.requests)
    && (forall r | Acquiring(joint.queue, r) :: r in joint.system.requests && joint.system.requests[r].stage == R.Admitted)
  }

  ghost predicate Invariant(joint: Joint, config: Config) {
    && R.Invariant(joint.system, config.requests)
    && Q.Invariant(joint.queue, config.queue)
    && Coupled(joint)
  }

  // ---------------------------------------------------------------- one step

  lemma HoldersWith(requests: map<nat, R.Request>, r: nat, request: R.Request)
    ensures R.Holders(requests[r := request]) ==
            if request.held then R.Holders(requests) + {r} else R.Holders(requests) - {r}
  {
  }

  lemma HolderIs(requests: map<nat, R.Request>, r: nat)
    ensures r in R.Holders(requests) <==> r in requests && requests[r].held
  {
  }

  lemma HoldersAfter(system: R.System, config: R.Config, r: nat, step: R.Step)
    requires R.Enabled(system, config, r, step)
    ensures R.Holders(R.Next(system, config, r, step).requests) ==
            if step.QueueGrants? then R.Holders(system.requests) + {r}
            else if step.CleanUp? && AtRelease(system, r) then R.Holders(system.requests) - {r}
            else R.Holders(system.requests)
  {
    hide R.Holders;
    var next := R.Next(system, config, r, step);
    HolderIs(system.requests, r);
    if !step.Watch? {
      RequestAfter(system, config, r, step);
      hide R.Next, R.Enabled, AtRelease;
      HoldersWith(system.requests, r, next.requests[r]);
    }
  }

  lemma RequestAfter(system: R.System, config: R.Config, r: nat, step: R.Step)
    requires R.Enabled(system, config, r, step) && !step.Watch?
    ensures var next := R.Next(system, config, r, step);
            && r in next.requests && next.requests == system.requests[r := next.requests[r]]
            && next.requests[r].held ==
               if step.QueueGrants? then true
               else r in system.requests && system.requests[r].held && !(step.CleanUp? && AtRelease(system, r))
  {
    if step.CleanUp? {
      CleanUpAfter(system, config, r, step.now);
    } else if step.Ask? {
      hide B.Grant, BT.Next;
    } else {
      hide R.CleanedUp, R.Asked;
    }
  }

  lemma CleanUpAfter(system: R.System, config: R.Config, r: nat, now: int)
    requires r in system.requests && R.CanCleanUp(system, r)
    ensures var next := R.CleanedUp(system, config, r, now);
            && r in next.requests && next.requests == system.requests[r := next.requests[r]]
            && next.requests[r].held == (system.requests[r].held && !AtRelease(system, r))
            && next.requests[r].stage != R.Admitted
  {
    hide BT.Next;
  }

  /** A step leaves other requests alone, and a request in Acquire where it is. */
  predicate Undisturbed(system: R.System, next: R.System, r: nat, leaves: bool) {
    && (forall q | q in system.requests :: q in next.requests)
    && (forall q | q in system.requests && q != r :: next.requests[q] == system.requests[q])
    && (!leaves && r in system.requests && system.requests[r].stage == R.Admitted ==>
          r in next.requests && next.requests[r].stage == R.Admitted)
  }

  lemma OthersAfter(system: R.System, config: R.Config, r: nat, step: R.Step)
    requires R.Enabled(system, config, r, step)
    ensures Undisturbed(system, R.Next(system, config, r, step), r,
                        step.QueueGrants? || step.QueueRefuses? || step.Panic?)
  {
    if !step.Watch? {
      RequestAfter(system, config, r, step);
    }
    hide R.CleanedUp, R.Asked, BT.Next;
  }

  lemma RequestKeepsCoupled(joint: Joint, config: Config, r: nat, inner: R.Step)
    requires Coupled(joint) && Enabled(joint, config, OfRequest(r, inner))
    ensures Coupled(Next(joint, config, OfRequest(r, inner)))
  {
    HoldersAfter(joint.system, config.requests, r, inner);
    OthersAfter(joint.system, config.requests, r, inner);
    hide R.Holders, Leased, R.Next, R.Enabled, HasLease;
  }

  /** Which queue steps mean something: a grant and a refusal come out of Acquire, a return out of Release. */
  lemma MeaningOf(joint: Joint, config: Config, step: Step)
    requires step.OfQueue? && Enabled(joint, config, step)
    ensures match Meaning(joint, config, step)
            case None => EventOf(joint.queue, config.queue, step.r, step.action) == []
            case Some(QueueGrants) =>
              Acquiring(joint.queue, step.r) &&
              EventOf(joint.queue, config.queue, step.r, step.action) == [Granted(step.r)]
            case Some(QueueRefuses(_)) =>
              Acquiring(joint.queue, step.r) && EventOf(joint.queue, config.queue, step.r, step.action) == []
            case Some(CleanUp(now)) =>
              AtRelease(joint.system, step.r) && now == joint.system.breaker.clock &&
              EventOf(joint.queue, config.queue, step.r, step.action) == [GivenBack(step.r)]
            case Some(_) => false
    ensures Acquiring(Next(joint, config, step).queue, step.r) ==>
              Meaning(joint, config, step).None? && (Acquiring(joint.queue, step.r) || step.action == Q.Arrive)
  {
    hide AtRelease;
  }

  lemma HoldersCounted(joint: Joint, config: Config)
    requires Invariant(joint, config)
    ensures joint.system.slots == |Leased(joint.queue)|
  {
    hide R.AllSane, R.Owned, R.Outstanding, R.EndedOnce, R.SlotsAccounted, Q.Invariant, Leased, R.Holders;
  }

  /** Where the queue grants, refuses or takes back, the request's own guard agrees. */
  lemma MeaningIsEnabled(joint: Joint, config: Config, step: Step)
    requires config.Valid() && Invariant(joint, config) && step.OfQueue? && Enabled(joint, config, step)
    requires Meaning(joint, config, step).Some?
    ensures R.Enabled(joint.system, config.requests, step.r, Meaning(joint, config, step).value)
  {
    MeaningOf(joint, config, step);
    HoldersCounted(joint, config);
    StepIsLeasing(joint.queue, config.queue, step.r, step.action);
    HolderIs(joint.system.requests, step.r);
    hide R.Holders, Leased, R.Invariant, Q.Invariant, Q.Next, Q.Enabled, Meaning, EventOf, HasLease, Acquiring;
  }

  lemma QueueKeepsCoupled(joint: Joint, config: Config, step: Step)
    requires config.Valid() && Invariant(joint, config) && step.OfQueue? && Enabled(joint, config, step)
    ensures Coupled(Next(joint, config, step))
  {
    hide R.Holders, Leased, R.Next, R.Enabled, R.Invariant, Q.Invariant, Q.Next, Meaning, EventOf, HasLease, AtRelease;
    var r := step.r;
    var next := Next(joint, config, step);
    MeaningOf(joint, config, step);
    LeasedAfter(joint.queue, config.queue, r, step.action);
    CallersAfter(joint.queue, config.queue, r, step.action);
    var meaning := Meaning(joint, config, step);
    if meaning.Some? {
      MeaningIsEnabled(joint, config, step);
      HoldersAfter(joint.system, config.requests, r, meaning.value);
      OthersAfter(joint.system, config.requests, r, meaning.value);
    }
    assert r in joint.system.requests;
    hide Q.Enabled;
    assert Leased(next.queue) == R.Holders(next.system.requests);
    forall q | Acquiring(next.queue, q)
      ensures q in next.system.requests && next.system.requests[q].stage == R.Admitted
    {
      assert q != r ==> Acquiring(joint.queue, q);
    }
  }

  lemma CallersAfter(queue: Q.Queue, config: Q.Config, r: nat, action: Q.Action)
    requires Q.Enabled(queue, config, r, action)
    ensures var next := Q.Next(queue, config, r, action);
            r in next.callers && next.callers == queue.callers[r := next.callers[r]]
    ensures action != Q.Arrive ==> r in queue.callers
  {
  }

  lemma StepKeeps(joint: Joint, config: Config, step: Step)
    requires config.Valid() && Invariant(joint, config) && Enabled(joint, config, step)
    ensures Invariant(Next(joint, config, step), config)
  {
    hide R.Invariant, Q.Invariant, Coupled, R.Next, R.Enabled, Q.Next, Q.Enabled, Meaning;
    match step
    case OfRequest(r, inner) =>
      R.StepKeeps(joint.system, config.requests, r, inner);
      RequestKeepsCoupled(joint, config, r, inner);
    case OfQueue(r, action, _) =>
      Q.StepKeeps(joint.queue, config.queue, r, action);
      QueueKeepsCoupled(joint, config, step);
      var meaning := Meaning(joint, config, step);
      if meaning.Some? {
        MeaningIsEnabled(joint, config, step);
        R.StepKeeps(joint.system, config.requests, r, meaning.value);
      }
  }

  // ---------------------------------------------------------------- whole runs

  function Start(clock: int): Joint {
    Joint(R.Start(clock), Q.EMPTY)
  }

  predicate Reaches(from: Joint, config: Config, steps: seq<Step>, to: Joint)
    decreases |steps|
  {
    if steps == [] then to == from
    else Enabled(from, config, steps[0]) && Reaches(Next(from, config, steps[0]), config, steps[1..], to)
  }

  lemma {:induction false} RunKeeps(from: Joint, config: Config, steps: seq<Step>, to: Joint)
    requires config.Valid() && Invariant(from, config) && Reaches(from, config, steps, to)
    ensures Invariant(to, config)
    decreases |steps|
  {
    if steps != [] {
      StepKeeps(from, config, steps[0]);
      hide Invariant, Next, Enabled;
      RunKeeps(Next(from, config, steps[0]), config, steps[1..], to);
    }
  }

  lemma StartIsSound(clock: int, config: Config)
    requires config.Valid()
    ensures Invariant(Start(clock), config)
  {
    R.StartIsSound(clock, config.requests);
    assert forall role :: Q.Those(map[], role) == {};
  }

  /** In every interleaving the slots requests count are exactly the queue's leases. */
  lemma SlotsAreLeases(config: Config, clock: int, steps: seq<Step>, to: Joint)
    requires config.Valid() && Reaches(Start(clock), config, steps, to)
    ensures to.system.slots == |Leased(to.queue)| <= to.queue.slots <= config.queue.maxInFlight
  {
    StartIsSound(clock, config);
    RunKeeps(Start(clock), config, steps, to);
    LeasesOwnSlots(to.queue);
  }

  /** Once all requests have ended, no permit, no slot and no count is left in the breaker or the queue. */
  lemma NothingLeftAnywhere(config: Config, clock: int, steps: seq<Step>, to: Joint)
    requires config.Valid() && Reaches(Start(clock), config, steps, to)
    requires forall r | r in to.system.requests :: to.system.requests[r].stage == R.Ended
    ensures to.queue.slots == 0 && to.queue.active == 0 && to.queue.waiting == 0
    ensures to.system.slots == 0 && to.system.breaker.permits == map[]
  {
    StartIsSound(clock, config);
    RunKeeps(Start(clock), config, steps, to);
    AllReturned(to, config);
    forall r | r in to.queue.callers
      ensures to.queue.callers[r] == Q.Gone
    {
      assert !Acquiring(to.queue, r);
      LeasedIs(to.queue, r);
    }
    hide R.Invariant;
    Q.NothingLeaks(to.queue, config.queue);
  }

  lemma AllReturned(joint: Joint, config: Config)
    requires Invariant(joint, config)
    requires forall r | r in joint.system.requests :: joint.system.requests[r].stage == R.Ended
    ensures Leased(joint.queue) == {} && joint.system.slots == 0 && joint.system.breaker.permits == map[]
  {
    forall r | r in joint.system.requests
      ensures !joint.system.requests[r].held
      ensures joint.system.requests[r].permit.Some? ==> joint.system.requests[r].reported
    {
      R.SaneAt(joint.system, config.requests, r);
    }
    assert R.Holders(joint.system.requests) == {};
    R.EverythingReported(joint.system);
  }
}
