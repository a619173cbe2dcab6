/**
 The emitter's protocol and the outbox together: every interleaving of callers, loop, Close, relays
 and consumers is a run of the outbox, so what holds of the outbox holds behind the emitter.
 */
module EmitterAndOutbox {
  import opened Wrappers
  import opened UsageOutbox
  import E = EmitterProtocol
  import O = OutboxTheorems

  /** What caller number c writes. */
  type Naming = nat -> Write

  datatype Joint = Joint(emitter: E.World, outbox: O.World)

  /** A step of the emitter, with the outcomes of its two statements; or of a relay or consumer. */
  datatype Step =
    | OfEmitter(caller: nat, action: E.Action, pendingFails: bool, readyFails: bool)
    | OfOthers(step: O.Step)

  predicate ByOthers(step: O.Step) {
    step.ReadRow? || step.Deliver? || step.Mark? || step.RecoverRow? || step.Put?
  }

  function Contents(naming: Naming, callers: seq<nat>): seq<Write> {
    seq(|callers|, k requires 0 <= k < |callers| => naming(callers[k]))
  }

  /** What the step amounts to for the outbox: a collected batch is fixed when collecting ends. */
  function Moves(joint: Joint, naming: Naming, step: Step): seq<O.Step> {
    match step
    case OfOthers(inner) => [inner]
    case OfEmitter(c, action, pendingFails, readyFails) =>
      match action
      case Send => [if naming(c).Begin? then O.SendBegin(naming(c).event) else O.SendEmit(naming(c).entry)]
      case EndCollecting =>
        if joint.emitter.loop.Collecting? then [O.Collect(|joint.emitter.loop.batch|)] else []
      case WriteBatch => [O.WritePending(pendingFails), O.WriteReady(readyFails)]
      case _ => []
  }

  /** A request begins under a fresh event identifier, before anything else is written for it. */
  predicate Enabled(joint: Joint, naming: Naming, step: Step) {
    match step
    case OfOthers(inner) => ByOthers(inner) && O.Enabled(joint.outbox, inner)
    case OfEmitter(c, action, _, _) =>
      && E.Enabled(joint.emitter, c, action)
      && (action == E.Send && naming(c).Begin? ==> naming(c).event !in joint.outbox.sent)
  }

  /** The outbox after some of its steps, as far as they can be taken. */
  function Applied(world: O.World, steps: seq<O.Step>): O.World
    decreases |steps|
  {
    if steps == [] || !O.Enabled(world, steps[0]) then world else Applied(O.Next(world, steps[0]), steps[1..])
  }

  function Next(joint: Joint, naming: Naming, step: Step): Joint
    requires Enabled(joint, naming, step)
  {
    Joint(if step.OfEmitter? then E.Next(joint.emitter, step.caller, step.action) else joint.emitter,
          Applied(joint.outbox, Moves(joint, naming, step)))
  }

  /** The writes of the emitter that are not yet fixed as a batch. */
  function Queued(emitter: E.World): seq<nat> {
    (if emitter.loop.Collecting? then emitter.loop.batch else []) + emitter.channel
  }

  function BatchOf(emitter: E.World, naming: Naming): O.Batch {
    if emitter.loop.Writing? then O.Collected(Contents(naming, emitter.loop.batch)) else O.Idle
  }

  /** The outbox sees the channel and the batch that the emitter has. */
  predicate Seen(joint: Joint, naming: Naming) {
    joint.outbox.channel == Contents(naming, Queued(joint.emitter)) &&
    joint.outbox.batch == BatchOf(joint.emitter, naming)
  }

  ghost predicate Invariant(joint: Joint, naming: Naming) {
    E.Invariant(joint.emitter) && O.Invariant(joint.outbox) && Seen(joint, naming)
  }

  // ---------------------------------------------------------------- one step

  lemma AppliedOne(world: O.World, step: O.Step)
    requires O.Enabled(world, step)
    ensures Applied(world, [step]) == O.Next(world, step)
    ensures O.Reaches(world, [step], O.Next(world, step))
  {
    hide O.Next, O.Enabled;
    assert [step][1..] == [];
    assert Applied(O.Next(world, step), []) == O.Next(world, step);
    assert O.Reaches(O.Next(world, step), [], O.Next(world, step));
  }

  lemma AppliedTwo(world: O.World, one: O.Step, two: O.Step)
    requires O.Enabled(world, one) && O.Enabled(O.Next(world, one), two)
    ensures Applied(world, [one, two]) == O.Next(O.Next(world, one), two)
    ensures O.Reaches(world, [one, two], O.Next(O.Next(world, one), two))
  {
    hide O.Next, O.Enabled;
    AppliedOne(O.Next(world, one), two);
    assert [one, two][1..] == [two];
  }

  lemma SendSeen(joint: Joint, naming: Naming, step: Step)
    requires Seen(joint, naming) && step.OfEmitter? && step.action == E.Send && Enabled(joint, naming, step)
    ensures Seen(Next(joint, naming, step), naming)
    ensures O.Reaches(joint.outbox, Moves(joint, naming, step), Next(joint, naming, step).outbox)
  {
    var move := Moves(joint, naming, step)[0];
    AppliedOne(joint.outbox, move);
    assert Moves(joint, naming, step) == [move];
    var next := Next(joint, naming, step);
    assert Queued(next.emitter) == Queued(joint.emitter) + [step.caller];
    assert Contents(naming, Queued(joint.emitter) + [step.caller]) ==
           Contents(naming, Queued(joint.emitter)) + [naming(step.caller)];
    hide Contents, Queued;
  }

  lemma CollectSeen(joint: Joint, naming: Naming, step: Step)
    requires Seen(joint, naming) && E.Stages(joint.emitter.loop)
    requires step.OfEmitter? && step.action == E.EndCollecting && Enabled(joint, naming, step)
    ensures Seen(Next(joint, naming, step), naming)
    ensures O.Reaches(joint.outbox, Moves(joint, naming, step), Next(joint, naming, step).outbox)
  {
    var batch := joint.emitter.loop.batch;
    var all := Contents(naming, Queued(joint.emitter));
    assert Queued(joint.emitter) == batch + joint.emitter.channel;
    assert all[..|batch|] == Contents(naming, batch);
    var next := Next(joint, naming, step);
    assert Queued(next.emitter) == joint.emitter.channel by {
      assert [] + joint.emitter.channel == joint.emitter.channel;
    }
    assert all[|batch|..] == Contents(naming, joint.emitter.channel);
    AppliedOne(joint.outbox, O.Collect(|batch|));
    hide Contents, Queued;
  }

  lemma WriteSeen(joint: Joint, naming: Naming, step: Step)
    requires Seen(joint, naming) && step.OfEmitter? && step.action == E.WriteBatch && Enabled(joint, naming, step)
    ensures Seen(Next(joint, naming, step), naming)
    ensures O.Reaches(joint.outbox, Moves(joint, naming, step), Next(joint, naming, step).outbox)
  {
    var pending, ready := O.WritePending(step.pendingFails), O.WriteReady(step.readyFails);
    hide Contents, UpsertReady, InsertPending, Begun, Emitted, NamedOnce, EventsOf;
    AppliedTwo(joint.outbox, pending, ready);
    assert Queued(Next(joint, naming, step).emitter) == Queued(joint.emitter);
  }

  lemma QuietSeen(joint: Joint, naming: Naming, step: Step)
    requires Seen(joint, naming) && step.OfEmitter? && Enabled(joint, naming, step)
    requires step.action !in {E.Send, E.EndCollecting, E.WriteBatch}
    ensures Seen(Next(joint, naming, step), naming)
    ensures O.Reaches(joint.outbox, Moves(joint, naming, step), Next(joint, naming, step).outbox)
  {
    var emitter := joint.emitter;
    var next := Next(joint, naming, step);
    if step.action in {E.Receive, E.ReceiveMore} {
      E.Shifted([], if emitter.loop.Collecting? then emitter.loop.batch else [], emitter.channel);
      assert emitter.channel == [emitter.channel[0]] + emitter.channel[1..];
    }
    assert Queued(next.emitter) == Queued(emitter);
    hide Contents, Queued;
  }

  lemma OthersSeen(joint: Joint, naming: Naming, step: Step)
    requires Seen(joint, naming) && step.OfOthers? && Enabled(joint, naming, step)
    ensures Seen(Next(joint, naming, step), naming)
    ensures O.Reaches(joint.outbox, Moves(joint, naming, step), Next(joint, naming, step).outbox)
  {
    AppliedOne(joint.outbox, step.step);
    hide Contents, Queued;
  }

  /** Each step of the whole is a few steps of the outbox, all of which it can take, and keeps the two in step. */
  lemma StepIsOutboxRun(joint: Joint, naming: Naming, step: Step)
    requires Invariant(joint, naming) && Enabled(joint, naming, step)
    ensures Invariant(Next(joint, naming, step), naming)
    ensures O.Reaches(joint.outbox, Moves(joint, naming, step), Next(joint, naming, step).outbox)
  {
    if step.OfOthers? {
      OthersSeen(joint, naming, step);
    } else if step.action == E.Send {
      SendSeen(joint, naming, step);
    } else if step.action == E.EndCollecting {
      CollectSeen(joint, naming, step);
    } else if step.action == E.WriteBatch {
      WriteSeen(joint, naming, step);
    } else {
      QuietSeen(joint, naming, step);
    }
    hide Seen, O.Invariant, E.Invariant, E.Next, Applied, Moves;
    if step.OfEmitter? {
      E.StepKeeps(joint.emitter, step.caller, step.action);
    }
    O.RunKeeps(joint.outbox, Moves(joint, naming, step), Next(joint, naming, step).outbox);
  }

  // ---------------------------------------------------------------- whole runs

  const START := Joint(E.START, O.START)

  predicate Reaches(from: Joint, naming: Naming, steps: seq<Step>, to: Joint)
    decreases |steps|
  {
    if steps == [] then to == from
    else Enabled(from, naming, steps[0]) && Reaches(Next(from, naming, steps[0]), naming, steps[1..], to)
  }

  lemma {:induction false} OutboxReachesOnward(
    from: O.World, one: seq<O.Step>, middle: O.World, two: seq<O.Step>, to: O.World)
    requires O.Reaches(from, one, middle) && O.Reaches(middle, two, to)
    ensures O.Reaches(from, one + two, to)
    decreases |one|
  {
    hide O.Next, O.Enabled;
    if one == [] {
      assert one + two == two;
    } else {
      assert (one + two)[1..] == one[1..] + two;
      OutboxReachesOnward(O.Next(from, one[0]), one[1..], middle, two, to);
    }
  }

  lemma {:induction false} RunIsOutboxRun(from: Joint, naming: Naming, steps: seq<Step>, to: Joint)
    returns (moves: seq<O.Step>)
    requires Invariant(from, naming) && Reaches(from, naming, steps, to)
    ensures Invariant(to, naming) && O.Reaches(from.outbox, moves, to.outbox)
    decreases |steps|
  {
    moves := [];
    if steps != [] {
      var next := Next(from, naming, steps[0]);
      StepIsOutboxRun(from, naming, steps[0]);
      hide Invariant, Next, Enabled, Moves;
      var rest := RunIsOutboxRun(next, naming, steps[1..], to);
      OutboxReachesOnward(from.outbox, Moves(from, naming, steps[0]), next.outbox, rest, to.outbox);
      moves := Moves(from, naming, steps[0]) + rest;
    }
  }

  lemma StartIsSound(naming: Naming)
    ensures Invariant(START, naming)
  {
    O.StartIsSound();
    assert E.Invariant(E.START);
    assert Contents(naming, []) == [];
  }

  /** Behind the emitter too, a committed beginning stays in the outbox or in the usage table. */
  lemma BegunIsNeverLost(
    naming: Naming, early: seq<Step>, at: Joint, late: seq<Step>, to: Joint, event: string)
    requires Reaches(START, naming, early, at) && Reaches(at, naming, late, to) && event in at.outbox.begun
    ensures event in to.outbox.outbox || event in to.outbox.usage
  {
    StartIsSound(naming);
    var one := RunIsOutboxRun(START, naming, early, at);
    var two := RunIsOutboxRun(at, naming, late, to);
    hide Invariant;
    O.BegunIsNeverLost(one, at.outbox, two, to.outbox, event);
  }

  /** Once the loop has ended, no write is left in front of the database. */
  lemma NothingUnwrittenWhenDone(naming: Naming, steps: seq<Step>, to: Joint)
    requires Reaches(START, naming, steps, to) && to.emitter.loop.Done?
    ensures to.outbox.channel == [] && to.outbox.batch == O.Idle
  {
    StartIsSound(naming);
    var moves := RunIsOutboxRun(START, naming, steps, to);
    hide O.Invariant, E.Conserved, E.SentBySenders;
    assert to.emitter.channel == [];
  }
}
