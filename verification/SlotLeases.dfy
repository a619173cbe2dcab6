/**
 The lease of a slot as requests see it: granted while fewer than the maximum are out, given back
 once. The channel and atomic steps of the queue come down to this.
 */
module SlotLeases {
  import opened Wrappers
  import Q = ProviderQueue

  datatype Event = Granted(holder: nat) | GivenBack(holder: nat)

  predicate Possible(holders: set<nat>, limit: nat, event: Event) {
    match event
    case Granted(holder) => holder !in holders && |holders| < limit
    case GivenBack(holder) => holder in holders
  }

  function After(holders: set<nat>, event: Event): set<nat> {
    match event
    case Granted(holder) => holders + {holder}
    case GivenBack(holder) => holders - {holder}
  }

  /** A list of lease events that may follow each other. */
  predicate Follows(holders: set<nat>, limit: nat, events: seq<Event>, to: set<nat>)
    decreases |events|
  {
    if events == [] then to == holders
    else Possible(holders, limit, events[0]) && Follows(After(holders, events[0]), limit, events[1..], to)
  }

  lemma {:induction false} FollowsOnward(
    from: set<nat>, limit: nat, one: seq<Event>, middle: set<nat>, two: seq<Event>, to: set<nat>)
    requires Follows(from, limit, one, middle) && Follows(middle, limit, two, to)
    ensures Follows(from, limit, one + two, to)
    decreases |one|
  {
    if one == [] {
      assert one + two == two;
    } else {
      assert (one + two)[1..] == one[1..] + two;
      FollowsOnward(After(from, one[0]), limit, one[1..], middle, two, to);
    }
  }

  lemma OneFollows(holders: set<nat>, limit: nat, event: Event)
    requires Possible(holders, limit, event)
    ensures Follows(holders, limit, [event], After(holders, event))
  {
    assert Follows(After(holders, event), limit, [], After(holders, event));
    assert [event][1..] == [];
  }

  // ---------------------------------------------------------------- the queue

  /** The lease is the caller's once its slot is sure, and until the slot has been received back. */
  predicate HasLease(place: Q.Place) {
    place in {Q.Sent, Q.Served, Q.Holding, Q.Releasing, Q.Receiving}
  }

  function Leased(queue: Q.Queue): set<nat> {
    set caller | caller in queue.callers && HasLease(queue.callers[caller])
  }

  /** The lease event a step of the queue amounts to; most amount to none. */
  function EventOf(queue: Q.Queue, config: Q.Config, caller: nat, action: Q.Action): seq<Event> {
    match action
    case TrySend => if queue.slots < config.maxInFlight then [Granted(caller)] else []
    case ContextHolds => [Granted(caller)]
    case ReceiveSlot => [GivenBack(caller)]
    case _ => []
  }

  lemma LeasesOwnSlots(queue: Q.Queue)
    ensures |Leased(queue)| <= |Q.Those(queue.callers, Q.OwnsSlot)|
    ensures forall caller | caller in queue.callers && queue.callers[caller] == Q.QueuedSent ::
              |Leased(queue)| < |Q.Those(queue.callers, Q.OwnsSlot)|
  {
    var owners := Q.Those(queue.callers, Q.OwnsSlot);
    Q.SubsetSize(Leased(queue), owners);
    forall caller | caller in queue.callers && queue.callers[caller] == Q.QueuedSent
      ensures |Leased(queue)| < |owners|
    {
      Q.SubsetSize(Leased(queue), owners - {caller});
    }
  }

  lemma StepIsLeasing(queue: Q.Queue, config: Q.Config, caller: nat, action: Q.Action)
    requires Q.Invariant(queue, config) && Q.Enabled(queue, config, caller, action)
    ensures Follows(Leased(queue), config.maxInFlight, EventOf(queue, config, caller, action),
                    Leased(Q.Next(queue, config, caller, action)))
  {
    var next := Q.Next(queue, config, caller, action);
    LeasesOwnSlots(queue);
    var events := EventOf(queue, config, caller, action);
    LeasedAfter(queue, config, caller, action);
    hide Q.Next, Leased, Q.Those, Q.SeenInRange;
    if events != [] {
      assert Possible(Leased(queue), config.maxInFlight, events[0]) by { LeasedIs(queue, caller); }
      OneFollows(Leased(queue), config.maxInFlight, events[0]);
    }
  }

  lemma LeasedIs(queue: Q.Queue, caller: nat)
    ensures caller in Leased(queue) <==> caller in queue.callers && HasLease(queue.callers[caller])
  {
  }

  lemma LeasedAfter(queue: Q.Queue, config: Q.Config, caller: nat, action: Q.Action)
    requires Q.Enabled(queue, config, caller, action)
    ensures var events := EventOf(queue, config, caller, action);
            Leased(Q.Next(queue, config, caller, action)) ==
            if events == [] then Leased(queue) else After(Leased(queue), events[0])
  {
    var next := Q.Next(queue, config, caller, action);
    var place := next.callers[caller];
    LeasedAt(queue, caller, place);
    assert Leased(next) == Leased(Q.At(queue, caller, place)) by { SameCallers(next, Q.At(queue, caller, place)); }
    hide Leased;
    LeasedIs(queue, caller);
    assert Leased(queue) + {caller} == Leased(queue) || !HasLease(Q.PlaceOf(queue, caller));
  }

  lemma SameCallers(one: Q.Queue, two: Q.Queue)
    requires one.callers == two.callers
    ensures Leased(one) == Leased(two)
  {
  }

  lemma LeasedAt(queue: Q.Queue, caller: nat, place: Q.Place)
    ensures Leased(Q.At(queue, caller, place)) ==
            if HasLease(place) then Leased(queue) + {caller} else Leased(queue) - {caller}
  {
  }

  /** Every run of the queue, seen through its leases, is a run of lease events within the limit. */
  lemma {:induction false} RunIsLeasing(from: Q.Queue, config: Q.Config, steps: seq<Q.Step>, to: Q.Queue)
    returns (events: seq<Event>)
    requires Q.Invariant(from, config) && Q.Reaches(from, config, steps, to)
    ensures Follows(Leased(from), config.maxInFlight, events, Leased(to))
    decreases |steps|
  {
    events := [];
    if steps != [] {
      var first := steps[0];
      var next := Q.Next(from, config, first.caller, first.action);
      StepIsLeasing(from, config, first.caller, first.action);
      Q.StepKeeps(from, config, first.caller, first.action);
      hide Q.Invariant, Q.Next, Q.Enabled, Leased, EventOf;
      var rest := RunIsLeasing(next, config, steps[1..], to);
      FollowsOnward(Leased(from), config.maxInFlight, EventOf(from, config, first.caller, first.action),
                    Leased(next), rest, Leased(to));
      events := EventOf(from, config, first.caller, first.action) + rest;
    }
  }
}
