/**
 The close protocol of the durable emitter (internal/usage/outbox.go): callers that enqueue a
 write each, the loop that batches them, and Close, interleaved at every channel and lock operation.
 */
module EmitterProtocol {

  const BATCH_SIZE: nat := 100
  const QUEUE_SIZE: nat := 4096

  /** A caller of enqueue; its write goes by the caller's number. */
  datatype Place =
    | Entering
    | Selecting          // holds the read lock and found the emitter open
    | Unlocking          // sent its write, still holds the read lock
    | Awaiting           // waits for its result
    | Returned

  /** The loop; `stopping` says that it has left the main select for the drain. */
  datatype Loop =
    | Looking(stopping: bool)
    | Collecting(batch: seq<nat>, stopping: bool)
    | Writing(batch: seq<nat>, stopping: bool)
    | Answering(batch: seq<nat>, answered: nat, stopping: bool)
    | Done

  /**
   `stopped` stands for the closed flag and the stop channel, which change together under the
   write lock. As history: the writes in the order they were sent, those passed to a batch
   write, and those that were given a result.
   */
  datatype World = World(
    stopped: bool,
    channel: seq<nat>,
    callers: map<nat, Place>,
    loop: Loop,
    sent: seq<nat>,
    written: seq<nat>,
    results: seq<nat>)

  const START := World(false, [], map[], Looking(false), [], [], [])

  datatype Action =
    // callers
    | Enter
    | Lock
    | Send
    | SeeDone
    | GiveUp
    | Unlock
    | TakeResult
    | AwaitDone
    | StopAwaiting
    // Close
    | Stop
    // the loop
    | Receive
    | SeeStop
    | ReceiveMore
    | EndCollecting
    | WriteBatch
    | Answer
    | EndBatch
    | Finish

  predicate ByLoop(action: Action) {
    action in {Receive, SeeStop, ReceiveMore, EndCollecting, WriteBatch, Answer, EndBatch, Finish}
  }

  predicate HoldsLock(place: Place) {
    place == Selecting || place == Unlocking
  }

  predicate CallerEnabled(world: World, c: nat, action: Action) {
    if action == Enter then c !in world.callers
    else
      c in world.callers &&
      var place := world.callers[c];
      match action
      case Lock => place == Entering
      case Send => place == Selecting && |world.channel| < QUEUE_SIZE
      case SeeDone => place == Selecting && world.loop.Done?
      case GiveUp => place == Selecting
      case Unlock => place == Unlocking
      case TakeResult => place == Awaiting && c in world.results
      case AwaitDone => place == Awaiting && world.loop.Done?
      case StopAwaiting => place == Awaiting
      case _ => false
  }

  /**
   Collecting ends when the batch is full; otherwise on the timer or the stop signal in the main
   loop, and on an empty channel in the drain. A result is sent on a channel that holds one.
   */
  predicate LoopEnabled(world: World, action: Action) {
    match action
    case Receive => world.loop.Looking? && world.channel != []
    case SeeStop => world.loop == Looking(false) && world.stopped
    case ReceiveMore => world.loop.Collecting? && |world.loop.batch| < BATCH_SIZE && world.channel != []
    case EndCollecting =>
      world.loop.Collecting? &&
      (|world.loop.batch| < BATCH_SIZE && world.loop.stopping ==> world.channel == [])
    case WriteBatch => world.loop.Writing?
    case Answer =>
      world.loop.Answering? && world.loop.answered < |world.loop.batch| &&
      world.loop.batch[world.loop.answered] !in world.results
    case EndBatch => world.loop.Answering? && world.loop.answered >= |world.loop.batch|
    case Finish => world.loop == Looking(true) && world.channel == []
    case _ => false
  }

  /** Close takes the write lock, so it waits for every read lock to be given back. */
  predicate Enabled(world: World, c: nat, action: Action) {
    if action == Stop then
      !world.stopped && forall d | d in world.callers :: !HoldsLock(world.callers[d])
    else if ByLoop(action) then LoopEnabled(world, action)
    else CallerEnabled(world, c, action)
  }

  function At(world: World, c: nat, place: Place): World {
    world.(callers := world.callers[c := place])
  }

  function CallerNext(world: World, c: nat, action: Action): World
    requires CallerEnabled(world, c, action)
  {
    match action
    case Enter => At(world, c, Entering)
    case Lock => At(world, c, if world.stopped then Returned else Selecting)
    case Send => At(world, c, Unlocking).(channel := world.channel + [c], sent := world.sent + [c])
    case Unlock => At(world, c, Awaiting)
    case _ => At(world, c, Returned)
  }

  function LoopNext(world: World, action: Action): World
    requires LoopEnabled(world, action)
  {
    match action
    case Receive =>
      world.(loop := Collecting([world.channel[0]], world.loop.stopping), channel := world.channel[1..])
    case SeeStop => world.(loop := Looking(true))
    case ReceiveMore =>
      world.(loop := Collecting(world.loop.batch + [world.channel[0]], world.loop.stopping),
             channel := world.channel[1..])
    case EndCollecting => world.(loop := Writing(world.loop.batch, world.loop.stopping))
    case WriteBatch =>
      world.(loop := Answering(world.loop.batch, 0, world.loop.stopping), written := world.written + world.loop.batch)
    case Answer =>
      world.(loop := Answering(world.loop.batch, world.loop.answered + 1, world.loop.stopping),
             results := world.results + [world.loop.batch[world.loop.answered]])
    case EndBatch => world.(loop := Looking(world.loop.stopping))
    case Finish => world.(loop := Done)
  }

  function Next(world: World, c: nat, action: Action): World
    requires Enabled(world, c, action)
  {
    if action == Stop then world.(stopped := true)
    else if ByLoop(action) then LoopNext(world, action)
    else CallerNext(world, c, action)
  }

  // ---------------------------------------------------------------- what always holds

  /** Writes received but not yet passed to a batch write. */
  function InHand(loop: Loop): seq<nat> {
    if loop.Collecting? || loop.Writing? then loop.batch else []
  }

  /** Writes of the current batch that are still owed a result. */
  function Owed(loop: Loop): seq<nat> {
    if loop.Answering? && loop.answered <= |loop.batch| then loop.batch[loop.answered..] else []
  }

  predicate Distinct(writes: seq<nat>) {
    forall i, j | 0 <= i < j < |writes| :: writes[i] != writes[j]
  }

  /** Nothing is lost, doubled or reordered between sending and writing, writing and answering. */
  predicate Conserved(world: World) {
    && world.sent == world.written + InHand(world.loop) + world.channel
    && world.written == world.results + Owed(world.loop)
    && Distinct(world.sent)
  }

  predicate Stages(loop: Loop) {
    && (loop.Collecting? || loop.Writing? || loop.Answering? ==> 1 <= |loop.batch| <= BATCH_SIZE)
    && (loop.Answering? ==> loop.answered <= |loop.batch|)
  }

  /** A caller that has not sent its write yet. */
  predicate Unsent(callers: map<nat, Place>, c: nat) {
    c !in callers || callers[c] in {Entering, Selecting}
  }

  ghost predicate SentBySenders(callers: map<nat, Place>, sent: seq<nat>) {
    && (forall c | c in sent :: !Unsent(callers, c))
    && (forall c | c in callers && callers[c] in {Unlocking, Awaiting} :: c in sent)
  }

  /** After the stop nobody holds the read lock; the loop drains only then, and ends with nothing left. */
  predicate Closing(world: World) {
    && (world.stopped ==> forall c | c in world.callers :: !HoldsLock(world.callers[c]))
    && (world.loop.Done? || world.loop.stopping ==> world.stopped)
    && (world.loop.Done? ==> world.channel == [])
  }

  ghost predicate Invariant(world: World) {
    Conserved(world) && Stages(world.loop) && SentBySenders(world.callers, world.sent) && Closing(world)
  }

  // ---------------------------------------------------------------- one step

  lemma DistinctAppend(writes: seq<nat>, c: nat)
    requires Distinct(writes) && c !in writes
    ensures Distinct(writes + [c])
  {
  }

  lemma SendKeeps(world: World, c: nat)
    requires Invariant(world) && CallerEnabled(world, c, Send)
    ensures Invariant(CallerNext(world, c, Send))
  {
    var next := CallerNext(world, c, Send);
    assert Unsent(world.callers, c);
    DistinctAppend(world.sent, c);
    assert world.written + InHand(world.loop) + (world.channel + [c]) == world.sent + [c];
    hide Distinct, InHand, Owed;
  }

  lemma CallerKeeps(world: World, c: nat, action: Action)
    requires Invariant(world) && CallerEnabled(world, c, action)
    ensures Invariant(CallerNext(world, c, action))
  {
    if action == Send {
      SendKeeps(world, c);
    } else {
      hide Conserved;
      var next := CallerNext(world, c, action);
      assert Conserved(next) by { SameQueues(world, next); }
    }
  }

  lemma SameQueues(one: World, two: World)
    requires Conserved(one) && one.sent == two.sent && one.written == two.written && one.results == two.results
    requires one.channel == two.channel && one.loop == two.loop
    ensures Conserved(two)
  {
  }

  lemma Shifted(before: seq<nat>, batch: seq<nat>, channel: seq<nat>)
    requires channel != []
    ensures before + batch + channel == before + (batch + [channel[0]]) + channel[1..]
  {
    assert channel == [channel[0]] + channel[1..];
  }

  lemma ReceiveConserves(world: World, action: Action)
    requires Conserved(world) && Stages(world.loop) && LoopEnabled(world, action)
    requires action == Receive || action == ReceiveMore
    ensures Conserved(LoopNext(world, action)) && Stages(LoopNext(world, action).loop)
  {
    hide Distinct;
    var batch := InHand(world.loop);
    Shifted(world.written, batch, world.channel);
    assert InHand(LoopNext(world, action).loop) == batch + [world.channel[0]];
  }

  lemma WriteConserves(world: World)
    requires Conserved(world) && Stages(world.loop) && world.loop.Writing?
    ensures Conserved(LoopNext(world, WriteBatch)) && Stages(LoopNext(world, WriteBatch).loop)
  {
    hide Distinct;
    var batch := world.loop.batch;
    assert world.written + batch + [] + world.channel == world.written + batch + world.channel;
    assert world.results + [] + batch[0..] == world.results + [] + batch;
  }

  lemma AnswerConserves(world: World)
    requires Conserved(world) && Stages(world.loop) && LoopEnabled(world, Answer)
    ensures Conserved(LoopNext(world, Answer)) && Stages(LoopNext(world, Answer).loop)
  {
    hide Distinct;
    var batch, k := world.loop.batch, world.loop.answered;
    assert batch[k..] == [batch[k]] + batch[k + 1..];
    assert world.results + [batch[k]] + batch[k + 1..] == world.results + batch[k..];
  }

  lemma LoopConserves(world: World, action: Action)
    requires Conserved(world) && Stages(world.loop) && LoopEnabled(world, action)
    ensures Conserved(LoopNext(world, action)) && Stages(LoopNext(world, action).loop)
  {
    hide Distinct;
    match action
    case Receive | ReceiveMore => ReceiveConserves(world, action);
    case WriteBatch => WriteConserves(world);
    case Answer => AnswerConserves(world);
    case _ =>
  }

  lemma LoopKeeps(world: World, action: Action)
    requires Invariant(world) && LoopEnabled(world, action)
    ensures Invariant(LoopNext(world, action))
  {
    LoopConserves(world, action);
    hide Conserved, Stages, SentBySenders;
  }

  lemma StepKeeps(world: World, c: nat, action: Action)
    requires Invariant(world) && Enabled(world, c, action)
    ensures Invariant(Next(world, c, action))
  {
    if action == Stop {
      hide Distinct, InHand, Owed, SentBySenders;
    } else if ByLoop(action) {
      LoopKeeps(world, action);
    } else {
      CallerKeeps(world, c, action);
    }
  }

  // ---------------------------------------------------------------- whole runs

  datatype Step = Step(caller: nat, action: Action)

  predicate Reaches(from: World, steps: seq<Step>, to: World)
    decreases |steps|
  {
    if steps == [] then to == from
    else
      Enabled(from, steps[0].caller, steps[0].action) &&
      Reaches(Next(from, steps[0].caller, steps[0].action), steps[1..], to)
  }

  lemma {:induction false} RunKeeps(from: World, steps: seq<Step>, to: World)
    requires Invariant(from) && Reaches(from, steps, to)
    ensures Invariant(to)
    decreases |steps|
  {
    if steps != [] {
      StepKeeps(from, steps[0].caller, steps[0].action);
      hide Invariant, Next, Enabled;
      RunKeeps(Next(from, steps[0].caller, steps[0].action), steps[1..], to);
    }
  }

  lemma AlwaysSound(steps: seq<Step>, to: World)
    requires Reaches(START, steps, to)
    ensures Invariant(to)
  {
    assert Invariant(START);
    RunKeeps(START, steps, to);
  }

  /** No write is sent once the emitter is stopped. */
  lemma NothingSentAfterStop(steps: seq<Step>, to: World, c: nat)
    requires Reaches(START, steps, to) && to.stopped
    ensures !Enabled(to, c, Send)
  {
    AlwaysSound(steps, to);
    hide Conserved, SentBySenders, Stages;
  }

  /** The branch of the first select that waits for the loop to end is never taken. */
  lemma FirstSelectNeverSeesDone(steps: seq<Step>, to: World, c: nat)
    requires Reaches(START, steps, to)
    ensures !Enabled(to, c, SeeDone)
  {
    AlwaysSound(steps, to);
    hide Conserved, SentBySenders, Stages;
  }

  function Count(writes: seq<nat>, c: nat): nat {
    multiset(writes)[c]
  }

  lemma {:induction false} DistinctCounts(writes: seq<nat>, c: nat)
    requires Distinct(writes)
    ensures Count(writes, c) == if c in writes then 1 else 0
    decreases |writes|
  {
    if writes != [] {
      var n := |writes| - 1;
      DistinctCounts(writes[..n], c);
      assert writes == writes[..n] + [writes[n]];
    }
  }

  lemma PrefixCounts(one: seq<nat>, two: seq<nat>, c: nat)
    ensures Count(one, c) <= Count(one + two, c)
  {
  }

  /** At any time a write has been passed on at most once and answered at most once, in sending order. */
  lemma AtMostOnceInOrder(steps: seq<Step>, to: World, c: nat)
    requires Reaches(START, steps, to)
    ensures to.results <= to.written <= to.sent
    ensures Count(to.results, c) <= Count(to.written, c) <= Count(to.sent, c) <= 1
  {
    AlwaysSound(steps, to);
    hide SentBySenders, Stages, Closing, InHand, Owed, Count;
    var rest := InHand(to.loop) + to.channel;
    assert to.sent == to.written + rest;
    PrefixCounts(to.written, rest, c);
    PrefixCounts(to.results, Owed(to.loop), c);
    DistinctCounts(to.sent, c);
  }

  /** When the loop has ended, every write ever sent was passed on once and answered once. */
  lemma EverythingAnsweredWhenDone(steps: seq<Step>, to: World, c: nat)
    requires Reaches(START, steps, to) && to.loop.Done? && c in to.sent
    ensures Count(to.written, c) == 1 && Count(to.results, c) == 1
  {
    AlwaysSound(steps, to);
    assert to.results == to.written == to.sent;
    DistinctCounts(to.sent, c);
  }

  /** A caller that learns of the end while it waits could have taken its result instead. */
  lemma ResultIsThereWhenDone(steps: seq<Step>, to: World, c: nat)
    requires Reaches(START, steps, to) && Enabled(to, c, AwaitDone)
    ensures Enabled(to, c, TakeResult)
  {
    AlwaysSound(steps, to);
    assert to.results == to.written == to.sent;
    hide Distinct;
  }

  // ---------------------------------------------------------------- the loop comes to its end

  function StageRank(loop: Loop): nat {
    match loop
    case Done => 0
    case Looking(stopping) => if stopping then 1 else 2
    case Answering(batch, answered, _) => 3 + (if answered <= |batch| then |batch| - answered else 0)
    case Writing(batch, _) => 4 + |batch|
    case Collecting(batch, _) => 5 + |batch|
  }

  /** How far a stopped emitter is from its end, at most. */
  function Rank(world: World): nat {
    8 * |world.channel| + StageRank(world.loop)
  }

  /** Once stopped, every step of the loop brings the end closer and no other step puts it off. */
  lemma StoppedOnlyCloser(world: World, c: nat, action: Action)
    requires Invariant(world) && world.stopped && Enabled(world, c, action)
    ensures var next := Next(world, c, action);
            next.stopped && if ByLoop(action) then Rank(next) < Rank(world) else Rank(next) == Rank(world)
  {
    hide Conserved, SentBySenders;
  }

  /** The drain never turns back into the main loop; it goes on until it is done. */
  lemma DrainNeverTurnsBack(world: World, c: nat, action: Action)
    requires Enabled(world, c, action) && !world.loop.Done? && world.loop.stopping
    ensures var loop := Next(world, c, action).loop;
            loop.Done? || loop.stopping
  {
  }

  lemma OwedIsUnanswered(world: World)
    requires Invariant(world) && world.loop.Answering? && world.loop.answered < |world.loop.batch|
    ensures world.loop.batch[world.loop.answered] !in world.results
  {
    var c := world.loop.batch[world.loop.answered];
    assert Owed(world.loop)[0] == c;
    assert world.written[|world.results|] == c;
    assert world.sent[|world.results|] == c;
    forall i | 0 <= i < |world.results|
      ensures world.results[i] != c
    {
      assert world.sent[i] == world.results[i];
    }
  }

  /** Once stopped, the loop can always take a step until it has ended; in particular no answer blocks. */
  lemma StoppedNeverStuck(world: World, c: nat)
    requires Invariant(world) && world.stopped && !world.loop.Done?
    ensures exists action :: ByLoop(action) && Enabled(world, c, action)
  {
    var action :=
      match world.loop
      case Looking(stopping) => if world.channel != [] then Receive else if stopping then Finish else SeeStop
      case Collecting(batch, _) => if |batch| < BATCH_SIZE && world.channel != [] then ReceiveMore else EndCollecting
      case Writing(_, _) => WriteBatch
      case Answering(batch, answered, _) => if answered < |batch| then Answer else EndBatch
      case Done => Finish;
    if action == Answer {
      OwedIsUnanswered(world);
    }
    hide Conserved, SentBySenders, Closing;
    assert ByLoop(action) && Enabled(world, c, action);
  }
}
