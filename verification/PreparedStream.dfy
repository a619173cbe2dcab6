/**
 The stream object that takes over the permit, the lease and the key of a streaming request
 (internal/reliability/stream_attempt.go). However often and however it is ended, the breaker,
 the queue and the key hear of it once.
 */
module PreparedStream {
  import opened Wrappers
  import opened Failure
  import B = Breaker
  import K = KeySelector

  class SlotQueue {
    var slots: nat
    var active: int

    constructor ()
      ensures slots == 0 && active == 0
    {
      slots, active := 0, 0;
    }
  }

  class Lease {
    const queue: SlotQueue
    var released: bool

    constructor (queue: SlotQueue)
      ensures this.queue == queue && !released
    {
      this.queue, released := queue, false;
    }

    method Release() returns (first: bool)
      requires !released ==> queue.slots > 0
      modifies this, queue
      ensures first == !old(released) && released
      ensures queue.slots == old(queue.slots) - (if first then 1 else 0)
      ensures queue.active == old(queue.active) - (if first then 1 else 0)
    {
      if released {
        return false;
      }
      released := true;
      queue.active := queue.active - 1;
      queue.slots := queue.slots - 1;
      first := true;
    }
  }

  class Stream {
    const permit: B.PermitHandle
    const lease: Lease
    const key: K.SelectionHandle?
    const keys: K.Selector
    var finished: bool

    /** An unfinished stream still owes its reports; a provider without keys has none to report. */
    ghost predicate Valid()
      reads this, permit, lease, lease.queue, key, keys
    {
      && keys.Valid() && (key != null ==> key.selection.index < |keys.keys|)
      && (!finished ==> !permit.completed && !lease.released && lease.queue.slots > 0)
      && (!finished && key != null ==> !key.completed)
    }

    constructor (permit: B.PermitHandle, lease: Lease, key: K.SelectionHandle?, keys: K.Selector)
      requires !permit.completed && !lease.released && lease.queue.slots > 0 && keys.Valid()
      requires key != null ==> !key.completed && key.selection.index < |keys.keys|
      ensures Valid() && !finished
      ensures this.permit == permit && this.lease == lease && this.key == key && this.keys == keys
    {
      this.permit, this.lease, this.key, this.keys, finished := permit, lease, key, keys, false;
    }

    method Finish(failure: Option<Failure>, now: int) returns (first: bool)
      requires Valid()
      modifies this, permit, permit.breaker, lease, lease.queue, key, keys
      ensures Valid() && finished && first == !old(finished)
      ensures first ==>
                && permit.breaker.state ==
                   B.Completed(old(permit.breaker.state), permit.breaker.config, permit.permit, failure, now)
                && lease.queue.slots == old(lease.queue.slots) - 1
                && lease.queue.active == old(lease.queue.active) - 1
                && (key == null ==> keys.keys == old(keys.keys))
                && (key != null ==>
                      keys.keys ==
                      old(keys.keys)[key.selection.index :=
                        K.KeyAfter(old(keys.keys[key.selection.index]), key.selection.version, failure, now)])
      ensures !first ==>
                permit.breaker.state == old(permit.breaker.state) && keys.keys == old(keys.keys) &&
                lease.queue.slots == old(lease.queue.slots) && lease.queue.active == old(lease.queue.active)
    {
      if finished {
        return false;
      }
      finished := true;
      if key != null {
        var _ := keys.Complete(key, failure, now);
      }
      var _ := permit.Complete(failure, now);
      var _ := lease.Release();
      first := true;
    }

    /** Ends the stream with the classified read error; the failure is the caller's to report. */
    method FinishError(context: ContextState, error: Option<ProviderError>, now: int)
      returns (failure: Option<Failure>)
      requires Valid()
      modifies this, permit, permit.breaker, lease, lease.queue, key, keys
      ensures Valid() && failure == FromProvider(context, error)
      ensures finished == (old(finished) || error.Some?)
      ensures finished && !old(finished) ==>
                && permit.breaker.state ==
                   B.Completed(old(permit.breaker.state), permit.breaker.config, permit.permit, failure, now)
                && lease.queue.slots == old(lease.queue.slots) - 1
                && lease.queue.active == old(lease.queue.active) - 1
                && (key == null ==> keys.keys == old(keys.keys))
                && (key != null ==>
                      keys.keys ==
                      old(keys.keys)[key.selection.index :=
                        K.KeyAfter(old(keys.keys[key.selection.index]), key.selection.version, failure, now)])
      ensures finished == old(finished) ==>
                permit.breaker.state == old(permit.breaker.state) && keys.keys == old(keys.keys) &&
                lease.queue.slots == old(lease.queue.slots) && lease.queue.active == old(lease.queue.active)
    {
      if error.None? {
        return None;
      }
      failure := FromProvider(context, error);
      var _ := Finish(failure, now);
    }

    /** Ends the stream on the gateway's or the client's account: neither breaker nor key is blamed. */
    method Abort(now: int) returns (first: bool)
      requires Valid()
      modifies this, permit, permit.breaker, lease, lease.queue, key, keys
      ensures Valid() && finished && first == !old(finished)
      ensures lease.queue.slots == old(lease.queue.slots) - (if first then 1 else 0)
      ensures permit.breaker.state ==
              if first then B.Abandoned(old(permit.breaker.state), permit.permit) else old(permit.breaker.state)
      ensures keys.keys == old(keys.keys)
    {
      AbortIsAbandon(permit.breaker.state, permit.breaker.config, permit.permit, now);
      first := Finish(Some(Plain(Canceled)), now);
    }
  }

  /** Reporting a cancellation does to the breaker what abandoning the permit does. */
  lemma AbortIsAbandon(state: B.State, config: B.Config, permit: B.Permit, now: int)
    ensures B.Completed(state, config, permit, Some(Plain(Canceled)), now) == B.Abandoned(state, permit)
  {
  }
}
