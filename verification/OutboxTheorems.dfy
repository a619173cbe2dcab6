/**
 The usage outbox over whole runs: the emitter's batches, any number of relays and consumers,
 failing statements, redelivery and recovery of stale requests, interleaved in any way.
 */
module OutboxTheorems {
  import opened Wrappers
  import opened UsageOutbox

  /** The batch the emitter is writing: collected, or with its pending statement behind it. */
  datatype Batch = Idle | Collected(writes: seq<Write>) | Halfway(writes: seq<Write>)

  /**
   `channel` holds the writes in the order they were sent; `read` and `stream` everything any
   relay has read and delivered. As history: the events named in any write, those whose beginning
   was committed, those that ever had a final form, every final form offered, and the total number
   of rows the store reported as new.
   */
  datatype World = World(
    channel: seq<Write>,
    batch: Batch,
    outbox: map<string, Row>,
    usage: map<string, string>,
    read: set<Entry>,
    stream: set<Entry>,
    sent: set<string>,
    begun: set<string>,
    finalized: set<string>,
    offered: set<Entry>,
    stored: nat)

  const START := World([], Idle, map[], map[], {}, {}, {}, {}, {}, {}, 0)

  datatype Step =
    | SendBegin(event: string)
    | SendEmit(entry: Entry)
    | Collect(count: nat)
    | WritePending(fails: bool)
    | WriteReady(fails: bool)
    | ReadRow(event: string)
    | Deliver(entry: Entry)
    | Mark(events: set<string>)
    | RecoverRow(entry: Entry)
    | Put(entries: seq<Entry>)

  function EventOf(write: Write): string {
    if write.Begin? then write.event else write.entry.event
  }

  /**
   A request begins under a fresh event identifier. A relay reads rows that are not pending,
   delivers what it read and marks what it delivered; a consumer stores what was delivered.
   */
  predicate Enabled(world: World, step: Step) {
    match step
    case SendBegin(event) => event !in world.sent
    case SendEmit(_) => true
    case Collect(count) => world.batch.Idle? && 1 <= count <= 100 && count <= |world.channel|
    case WritePending(_) => world.batch.Collected?
    case WriteReady(_) => world.batch.Halfway?
    case ReadRow(event) => event in world.outbox && world.outbox[event].state != Pending
    case Deliver(entry) => entry in world.read
    case Mark(events) => forall e | e in events :: exists entry | entry in world.stream :: entry.event == e
    case RecoverRow(_) => true
    case Put(entries) => forall k | 0 <= k < |entries| :: entries[k] in world.stream
  }

  function Next(world: World, step: Step): World
    requires Enabled(world, step)
  {
    match step
    case SendBegin(event) =>
      world.(channel := world.channel + [Begin(event)], sent := world.sent + {event})
    case SendEmit(entry) =>
      world.(channel := world.channel + [Emit(entry)], sent := world.sent + {entry.event},
             offered := world.offered + {entry})
    case Collect(count) =>
      world.(batch := Collected(world.channel[..count]), channel := world.channel[count..])
    case WritePending(fails) =>
      var next := world.(batch := Halfway(world.batch.writes));
      if fails then next
      else
        var events := Begun(world.batch.writes);
        next.(outbox := InsertPending(world.outbox, events),
              begun := world.begun + set k | 0 <= k < |events| :: events[k])
    case WriteReady(fails) =>
      var entries := Emitted(world.batch.writes);
      var next := world.(batch := Idle);
      if fails || !NamedOnce(entries) then next
      else next.(outbox := UpsertReady(world.outbox, entries), finalized := world.finalized + EventsOf(entries))
    case ReadRow(event) =>
      if world.outbox[event].payload.None? then world
      else world.(read := world.read + {Entry(event, world.outbox[event].payload.value)})
    case Deliver(entry) => world.(stream := world.stream + {entry})
    case Mark(events) => world.(outbox := MarkPublished(world.outbox, events))
    case RecoverRow(entry) =>
      if entry.event in world.outbox && world.outbox[entry.event].state == Pending then
        world.(outbox := Recover(world.outbox, entry), finalized := world.finalized + {entry.event},
               offered := world.offered + {entry})
      else world
    case Put(entries) =>
      InsertCounts(world.usage, entries);
      var usage := InsertUsage(world.usage, entries);
      world.(usage := usage, outbox := world.outbox - EventsOf(entries),
             stored := world.stored + (|usage| - |world.usage|))
  }

  // ---------------------------------------------------------------- what always holds

  function Line(world: World): seq<Write> {
    (if world.batch.Idle? then [] else world.batch.writes) + world.channel
  }

  /** The writes whose pending statement is still to come. */
  function Waiting(world: World): seq<Write> {
    (if world.batch.Collected? then world.batch.writes else []) + world.channel
  }

  /** No write of an event precedes the write of its beginning. */
  predicate Ordered(line: seq<Write>) {
    forall i, j | 0 <= i < j < |line| && line[j].Begin? :: EventOf(line[i]) != line[j].event
  }

  /** An event whose beginning is still to be written has left no trace yet. */
  ghost predicate Unseen(waiting: seq<Write>, outbox: map<string, Row>, finalized: set<string>) {
    forall e | Begin(e) in waiting :: e !in outbox && e !in finalized
  }

  /** Pending rows have no payload and were never final; all other rows carry an offered payload. */
  predicate Carried(outbox: map<string, Row>, finalized: set<string>, offered: set<Entry>) {
    forall e | e in outbox ::
      if outbox[e].state == Pending then outbox[e].payload.None? && e !in finalized
      else outbox[e].payload.Some? && e in finalized && Entry(e, outbox[e].payload.value) in offered
  }

  /** Usage rows were delivered, deliveries were read, and what was read had been offered. */
  predicate Delivered(
    usage: map<string, string>, stream: set<Entry>, read: set<Entry>, offered: set<Entry>, finalized: set<string>)
  {
    && (forall e | e in usage :: Entry(e, usage[e]) in stream)
    && stream <= read
    && (forall entry | entry in read :: entry in offered && entry.event in finalized)
  }

  predicate Kept(begun: set<string>, outbox: map<string, Row>, usage: map<string, string>) {
    forall e | e in begun :: e in outbox || e in usage
  }

  ghost predicate Known(
    line: seq<Write>, sent: set<string>, outbox: map<string, Row>, finalized: set<string>, offered: set<Entry>)
  {
    && (forall k | 0 <= k < |line| :: EventOf(line[k]) in sent)
    && (forall entry | Emit(entry) in line :: entry in offered)
    && (forall e | e in outbox :: e in sent)
    && finalized <= sent
  }

  ghost predicate Invariant(world: World) {
    && Ordered(Line(world))
    && Unseen(Waiting(world), world.outbox, world.finalized)
    && Carried(world.outbox, world.finalized, world.offered)
    && Delivered(world.usage, world.stream, world.read, world.offered, world.finalized)
    && Kept(world.begun, world.outbox, world.usage)
    && Known(Line(world), world.sent, world.outbox, world.finalized, world.offered)
    && world.stored == |world.usage|
  }

  // ---------------------------------------------------------------- one step

  lemma {:induction false} BegunExactly(batch: seq<Write>)
    ensures forall e :: e in Begun(batch) <==> Begin(e) in batch
  {
    if batch != [] {
      var n := |batch| - 1;
      BegunExactly(batch[..n]);
      assert batch == batch[..n] + [batch[n]];
    }
  }

  lemma {:induction false} EmittedExactly(batch: seq<Write>)
    ensures forall entry :: entry in Emitted(batch) <==> Emit(entry) in batch
  {
    if batch != [] {
      var n := |batch| - 1;
      EmittedExactly(batch[..n]);
      assert batch == batch[..n] + [batch[n]];
    }
  }

  lemma SendBeginKeeps(world: World, event: string)
    requires Invariant(world) && event !in world.sent
    ensures Invariant(Next(world, SendBegin(event)))
  {
    var next := Next(world, SendBegin(event));
    assert Line(next) == Line(world) + [Begin(event)];
    assert Waiting(next) == Waiting(world) + [Begin(event)];
    hide Carried, Delivered, Kept, Line, Waiting;
  }

  lemma SendEmitKeeps(world: World, entry: Entry)
    requires Invariant(world)
    ensures Invariant(Next(world, SendEmit(entry)))
  {
    var next := Next(world, SendEmit(entry));
    assert Line(next) == Line(world) + [Emit(entry)];
    assert Waiting(next) == Waiting(world) + [Emit(entry)];
    hide Kept, Line, Waiting;
  }

  lemma CollectKeeps(world: World, count: nat)
    requires Invariant(world) && Enabled(world, Collect(count))
    ensures Invariant(Next(world, Collect(count)))
  {
    var next := Next(world, Collect(count));
    assert Line(next) == Line(world) && Waiting(next) == Waiting(world) by {
      assert world.channel[..count] + world.channel[count..] == [] + world.channel;
    }
    hide Ordered, Unseen, Carried, Delivered, Kept, Known;
  }

  /** Of an ordered line, a later part has no beginning that an earlier part already names. */
  lemma OrderedParts(one: seq<Write>, two: seq<Write>)
    requires Ordered(one + two)
    ensures Ordered(two)
    ensures forall write, e | write in one && Begin(e) in two :: EventOf(write) != e
  {
    var line := one + two;
    forall i, j | 0 <= i < j < |two| && two[j].Begin?
      ensures EventOf(two[i]) != two[j].event
    {
      assert line[|one| + i] == two[i] && line[|one| + j] == two[j];
    }
    forall write, e | write in one && Begin(e) in two
      ensures EventOf(write) != e
    {
      var i :| 0 <= i < |one| && one[i] == write;
      var j :| 0 <= j < |two| && two[j] == Begin(e);
      assert line[i] == one[i] && line[|one| + j] == two[j];
    }
  }

  lemma PendingInserted(
    outbox: map<string, Row>, writes: seq<Write>, rest: seq<Write>, finalized: set<string>, offered: set<Entry>)
    requires Ordered(writes + rest) && Unseen(writes + rest, outbox, finalized)
    requires Carried(outbox, finalized, offered)
    ensures var after := InsertPending(outbox, Begun(writes));
            Unseen(rest, after, finalized) && Carried(after, finalized, offered)
  {
    BegunExactly(writes);
    InsertPendingExactly(outbox, Begun(writes));
    OrderedParts(writes, rest);
    hide Ordered, Begun, InsertPending;
    var after := InsertPending(outbox, Begun(writes));
    forall f, e | f in Begun(writes) && Begin(e) in rest
      ensures e != f
    {
      assert EventOf(Begin(f)) != e;
    }
    forall e | Begin(e) in rest
      ensures e !in after && e !in finalized
    {
      assert Begin(e) in writes + rest;
    }
    forall e | e in after && e !in outbox
      ensures e !in finalized
    {
      assert Begin(e) in writes + rest;
    }
  }

  lemma PendingWritten(world: World)
    requires Invariant(world) && world.batch.Collected?
    ensures Invariant(Next(world, WritePending(false)))
  {
    var next := Next(world, WritePending(false));
    var writes := world.batch.writes;
    assert Line(next) == Line(world) == Waiting(world) == writes + world.channel;
    assert Waiting(next) == world.channel by { assert [] + world.channel == world.channel; }
    PendingInserted(world.outbox, writes, world.channel, world.finalized, world.offered);
    BegunExactly(writes);
    InsertPendingExactly(world.outbox, Begun(writes));
    hide Ordered, Unseen, Carried, Delivered, Begun, InsertPending, Line, Waiting;
    assert Kept(next.begun, next.outbox, next.usage);
    BegunWereSent(writes, world.channel, world.sent);
    assert Known(Line(next), next.sent, next.outbox, next.finalized, next.offered);
  }

  lemma BegunWereSent(writes: seq<Write>, rest: seq<Write>, sent: set<string>)
    requires forall k | 0 <= k < |writes + rest| :: EventOf((writes + rest)[k]) in sent
    ensures forall e | e in Begun(writes) :: e in sent
  {
    BegunExactly(writes);
    hide Begun;
    forall e | e in Begun(writes)
      ensures e in sent
    {
      var k :| 0 <= k < |writes| && writes[k] == Begin(e);
      assert (writes + rest)[k] == Begin(e);
    }
  }

  lemma WritePendingKeeps(world: World, fails: bool)
    requires Invariant(world) && world.batch.Collected?
    ensures Invariant(Next(world, WritePending(fails)))
  {
    if !fails {
      PendingWritten(world);
    } else {
      var next := Next(world, WritePending(fails));
      assert Line(next) == Line(world);
      assert Waiting(next) == world.channel by { assert [] + world.channel == world.channel; }
      hide Ordered, Carried, Delivered, Kept, Known, Line;
      assert forall e | Begin(e) in world.channel :: Begin(e) in Waiting(world);
    }
  }

  lemma ReadyUpserted(
    outbox: map<string, Row>, writes: seq<Write>, rest: seq<Write>, finalized: set<string>, offered: set<Entry>)
    requires Ordered(writes + rest) && Unseen(rest, outbox, finalized) && Carried(outbox, finalized, offered)
    requires forall entry | Emit(entry) in writes + rest :: entry in offered
    ensures var entries := Emitted(writes);
            var after := UpsertReady(outbox, entries);
            && Unseen(rest, after, finalized + EventsOf(entries))
            && Carried(after, finalized + EventsOf(entries), offered)
  {
    EmittedExactly(writes);
    var entries := Emitted(writes);
    UpsertReadyExactly(outbox, entries);
    OrderedParts(writes, rest);
    hide Ordered, Emitted, UpsertReady;
    forall f, e | f in EventsOf(entries) && Begin(e) in rest
      ensures e != f
    {
      var k :| 0 <= k < |entries| && entries[k].event == f;
      assert entries[k] in Emitted(writes);
      assert EventOf(Emit(entries[k])) != e;
    }
    forall entry | entry in EntriesOf(entries)
      ensures entry in offered
    {
      assert entry in Emitted(writes);
      assert Emit(entry) in writes + rest;
    }
    hide EventsOf, EntriesOf;
  }

  lemma DeliveredGrows(
    usage: map<string, string>, stream: set<Entry>, read: set<Entry>, offered: set<Entry>,
    finalized: set<string>, more: set<string>)
    requires Delivered(usage, stream, read, offered, finalized) && finalized <= more
    ensures Delivered(usage, stream, read, offered, more)
  {
  }

  lemma KnownRest(
    writes: seq<Write>, rest: seq<Write>, sent: set<string>,
    outbox: map<string, Row>, finalized: set<string>, offered: set<Entry>)
    requires Known(writes + rest, sent, outbox, finalized, offered)
    ensures Known(rest, sent, outbox, finalized, offered)
  {
    assert forall k | 0 <= k < |rest| :: rest[k] == (writes + rest)[|writes| + k];
    assert forall write | write in rest :: write in writes + rest;
  }

  lemma KnownGrows(
    line: seq<Write>, sent: set<string>, outbox: map<string, Row>, finalized: set<string>, offered: set<Entry>,
    entries: seq<Entry>)
    requires Known(line, sent, outbox, finalized, offered) && EventsOf(entries) <= sent
    ensures Known(line, sent, UpsertReady(outbox, entries), finalized + EventsOf(entries), offered)
  {
    UpsertReadyExactly(outbox, entries);
    hide EventsOf, UpsertReady;
  }

  lemma KeptAfterReady(begun: set<string>, outbox: map<string, Row>, usage: map<string, string>, entries: seq<Entry>)
    requires Kept(begun, outbox, usage)
    ensures Kept(begun, UpsertReady(outbox, entries), usage)
  {
    UpsertReadyExactly(outbox, entries);
    hide EventsOf, UpsertReady;
  }

  lemma HalfwayLines(world: World)
    requires world.batch.Halfway?
    ensures Line(world) == world.batch.writes + world.channel
    ensures Waiting(world) == world.channel
    ensures Waiting(world.(batch := Idle)) == world.channel && Line(world.(batch := Idle)) == world.channel
  {
    assert [] + world.channel == world.channel;
  }

  lemma ReadyWritten(world: World)
    requires Invariant(world) && world.batch.Halfway? && NamedOnce(Emitted(world.batch.writes))
    ensures Invariant(Next(world, WriteReady(false)))
  {
    var next := Next(world, WriteReady(false));
    var writes := world.batch.writes;
    var entries := Emitted(writes);
    HalfwayLines(world);
    assert Line(next) == world.channel && Waiting(next) == world.channel;
    KnownParts(writes + world.channel, world.sent, world.outbox, world.finalized, world.offered);
    hide Ordered, Unseen, Carried, Delivered, Kept, Known, Line, Waiting, Emitted, EventsOf, UpsertReady, NamedOnce;
    ReadyUpserted(world.outbox, writes, world.channel, world.finalized, world.offered);
    OrderedParts(writes, world.channel);
    EmittedWereSent(writes, world.channel, world.sent);
    DeliveredGrows(world.usage, world.stream, world.read, world.offered, world.finalized, next.finalized);
    KeptAfterReady(world.begun, world.outbox, world.usage, entries);
    KnownRest(writes, world.channel, world.sent, world.outbox, world.finalized, world.offered);
    KnownGrows(world.channel, world.sent, world.outbox, world.finalized, world.offered, entries);
  }

  lemma KnownParts(
    line: seq<Write>, sent: set<string>, outbox: map<string, Row>, finalized: set<string>, offered: set<Entry>)
    requires Known(line, sent, outbox, finalized, offered)
    ensures forall k | 0 <= k < |line| :: EventOf(line[k]) in sent
    ensures forall entry | Emit(entry) in line :: entry in offered
  {
  }

  lemma EmittedWereSent(writes: seq<Write>, rest: seq<Write>, sent: set<string>)
    requires forall k | 0 <= k < |writes + rest| :: EventOf((writes + rest)[k]) in sent
    ensures EventsOf(Emitted(writes)) <= sent
  {
    EmittedExactly(writes);
    hide Emitted;
    forall e | e in EventsOf(Emitted(writes))
      ensures e in sent
    {
      var i :| 0 <= i < |Emitted(writes)| && Emitted(writes)[i].event == e;
      assert Emitted(writes)[i] in Emitted(writes);
      var k :| 0 <= k < |writes| && writes[k] == Emit(Emitted(writes)[i]);
      assert (writes + rest)[k] == writes[k];
    }
  }

  lemma WriteReadyKeeps(world: World, fails: bool)
    requires Invariant(world) && world.batch.Halfway?
    ensures Invariant(Next(world, WriteReady(fails)))
  {
    hide Ordered, Unseen, Carried, Delivered, Kept, Known, Line, Waiting, Emitted, NamedOnce;
    if !fails && NamedOnce(Emitted(world.batch.writes)) {
      ReadyWritten(world);
    } else {
      HalfwayLines(world);
      OrderedParts(world.batch.writes, world.channel);
      KnownRest(world.batch.writes, world.channel, world.sent, world.outbox, world.finalized, world.offered);
    }
  }

  lemma ReadKeeps(world: World, event: string)
    requires Invariant(world) && Enabled(world, ReadRow(event))
    ensures Invariant(Next(world, ReadRow(event)))
    ensures world.outbox[event].payload.Some?
  {
    hide Ordered, Unseen, Kept, Known;
    assert world.outbox[event].payload.Some?;
    var next := Next(world, ReadRow(event));
    assert Line(next) == Line(world) && Waiting(next) == Waiting(world);
    assert Delivered(next.usage, next.stream, next.read, next.offered, next.finalized);
  }

  lemma DeliverKeeps(world: World, entry: Entry)
    requires Invariant(world) && entry in world.read
    ensures Invariant(Next(world, Deliver(entry)))
  {
    hide Ordered, Unseen, Kept, Known, Carried;
    var next := Next(world, Deliver(entry));
    assert Line(next) == Line(world) && Waiting(next) == Waiting(world);
  }

  lemma MarkKeeps(world: World, events: set<string>)
    requires Invariant(world) && Enabled(world, Mark(events))
    ensures Invariant(Next(world, Mark(events)))
  {
    hide Ordered;
    var next := Next(world, Mark(events));
    assert Line(next) == Line(world) && Waiting(next) == Waiting(world);
    assert forall e | e in events :: e in world.finalized;
    hide Delivered, Line, Waiting;
    assert next.outbox.Keys == world.outbox.Keys;
    assert Carried(next.outbox, next.finalized, next.offered);
    hide Carried, MarkPublished;
    assert Unseen(Waiting(next), next.outbox, next.finalized);
    assert Known(Line(next), next.sent, next.outbox, next.finalized, next.offered);
  }

  lemma RecoverKeeps(world: World, entry: Entry)
    requires Invariant(world)
    ensures Invariant(Next(world, RecoverRow(entry)))
  {
    hide Ordered;
    var next := Next(world, RecoverRow(entry));
    assert Line(next) == Line(world) && Waiting(next) == Waiting(world);
    hide Line, Waiting;
    assert Unseen(Waiting(next), next.outbox, next.finalized);
    assert Known(Line(next), next.sent, next.outbox, next.finalized, next.offered);
    hide Unseen, Known;
    assert Delivered(next.usage, next.stream, next.read, next.offered, next.finalized);
  }

  /** Deleting rows disturbs nothing but what relies on them. */
  lemma OutboxShrinks(
    line: seq<Write>, waiting: seq<Write>, sent: set<string>, outbox: map<string, Row>, gone: set<string>,
    finalized: set<string>, offered: set<Entry>)
    requires Unseen(waiting, outbox, finalized) && Carried(outbox, finalized, offered)
    requires Known(line, sent, outbox, finalized, offered)
    ensures Unseen(waiting, outbox - gone, finalized) && Carried(outbox - gone, finalized, offered)
    ensures Known(line, sent, outbox - gone, finalized, offered)
  {
  }

  lemma UsageDelivered(world: World, entries: seq<Entry>)
    requires Delivered(world.usage, world.stream, world.read, world.offered, world.finalized)
    requires forall k | 0 <= k < |entries| :: entries[k] in world.stream
    ensures Delivered(InsertUsage(world.usage, entries), world.stream, world.read, world.offered, world.finalized)
  {
    InsertUsageExactly(world.usage, entries);
    assert forall entry | entry in EntriesOf(entries) :: entry in world.stream;
    hide InsertUsage, EventsOf, EntriesOf;
  }

  lemma KeptAfterPut(begun: set<string>, outbox: map<string, Row>, usage: map<string, string>, entries: seq<Entry>)
    requires Kept(begun, outbox, usage)
    ensures Kept(begun, outbox - EventsOf(entries), InsertUsage(usage, entries))
  {
    InsertUsageExactly(usage, entries);
    hide InsertUsage, EventsOf, EntriesOf;
  }

  lemma PutKeeps(world: World, entries: seq<Entry>)
    requires Invariant(world) && Enabled(world, Put(entries))
    ensures Invariant(Next(world, Put(entries)))
  {
    var next := Next(world, Put(entries));
    assert Line(next) == Line(world) && Waiting(next) == Waiting(world);
    hide Ordered, Unseen, Carried, Delivered, Kept, Known, InsertUsage, EventsOf, Line, Waiting;
    OutboxShrinks(Line(world), Waiting(world), world.sent, world.outbox, EventsOf(entries),
                  world.finalized, world.offered);
    UsageDelivered(world, entries);
    KeptAfterPut(world.begun, world.outbox, world.usage, entries);
  }

  lemma StepKeeps(world: World, step: Step)
    requires Invariant(world) && Enabled(world, step)
    ensures Invariant(Next(world, step))
  {
    match step
    case SendBegin(event) => SendBeginKeeps(world, event);
    case SendEmit(entry) => SendEmitKeeps(world, entry);
    case Collect(count) => CollectKeeps(world, count);
    case WritePending(fails) => WritePendingKeeps(world, fails);
    case WriteReady(fails) => WriteReadyKeeps(world, fails);
    case ReadRow(event) => ReadKeeps(world, event);
    case Deliver(entry) => DeliverKeeps(world, entry);
    case Mark(events) => MarkKeeps(world, events);
    case RecoverRow(entry) => RecoverKeeps(world, entry);
    case Put(entries) => PutKeeps(world, entries);
  }

  // ---------------------------------------------------------------- whole runs

  predicate Reaches(from: World, steps: seq<Step>, to: World)
    decreases |steps|
  {
    if steps == [] then to == from
    else Enabled(from, steps[0]) && Reaches(Next(from, steps[0]), steps[1..], to)
  }

  lemma StepGrows(world: World, step: Step)
    requires Enabled(world, step)
    ensures var next := Next(world, step);
            && world.begun <= next.begun
            && (forall e | e in world.usage :: e in next.usage && next.usage[e] == world.usage[e])
  {
    if step.Put? {
      InsertUsageExactly(world.usage, step.entries);
    }
    hide InsertUsage, InsertPending, UpsertReady, Begun, Emitted;
  }

  lemma {:induction false} RunKeeps(from: World, steps: seq<Step>, to: World)
    requires Invariant(from) && Reaches(from, steps, to)
    ensures Invariant(to) && from.begun <= to.begun
    ensures forall e | e in from.usage :: e in to.usage && to.usage[e] == from.usage[e]
    decreases |steps|
  {
    if steps != [] {
      StepKeeps(from, steps[0]);
      StepGrows(from, steps[0]);
      hide Invariant, Next, Enabled;
      RunKeeps(Next(from, steps[0]), steps[1..], to);
    }
  }

  lemma StartIsSound()
    ensures Invariant(START)
  {
  }

  /** Once the beginning of a request is committed, it stays in the outbox or in the usage table. */
  lemma BegunIsNeverLost(early: seq<Step>, at: World, late: seq<Step>, to: World, event: string)
    requires Reaches(START, early, at) && Reaches(at, late, to) && event in at.begun
    ensures event in to.outbox || event in to.usage
  {
    StartIsSound();
    RunKeeps(START, early, at);
    RunKeeps(at, late, to);
    hide Ordered, Unseen, Carried, Delivered, Known;
  }

  /** A usage row is written once and never changed, and the store's reports add up to the rows. */
  lemma UsageIsWrittenOnce(early: seq<Step>, at: World, late: seq<Step>, to: World)
    requires Reaches(START, early, at) && Reaches(at, late, to)
    ensures forall event | event in at.usage :: event in to.usage && to.usage[event] == at.usage[event]
    ensures to.stored == |to.usage|
  {
    StartIsSound();
    RunKeeps(START, early, at);
    RunKeeps(at, late, to);
    hide Ordered, Unseen, Carried, Delivered, Known, Kept;
  }

  /** Rows that are ready or published always carry a payload, so no relay ever stops at one without. */
  lemma PayloadIsAlwaysThere(steps: seq<Step>, to: World, event: string)
    requires Reaches(START, steps, to) && event in to.outbox
    ensures to.outbox[event].payload.Some? <==> to.outbox[event].state != Pending
  {
    StartIsSound();
    RunKeeps(START, steps, to);
    hide Ordered, Unseen, Delivered, Known, Kept;
  }

  /** What ends up in the usage table is a final form that the request or the recovery gave the event. */
  lemma UsageIsGenuine(steps: seq<Step>, to: World, event: string)
    requires Reaches(START, steps, to) && event in to.usage
    ensures Entry(event, to.usage[event]) in to.offered
  {
    StartIsSound();
    RunKeeps(START, steps, to);
    hide Ordered, Unseen, Carried, Known, Kept;
  }

  /** No event is ever stuck: from any reachable state a few steps take it into the usage table. */
  lemma CanAlwaysBeStored(steps: seq<Step>, at: World, event: string) returns (more: seq<Step>, to: World)
    requires Reaches(START, steps, at) && event in at.outbox
    ensures Reaches(at, more, to)
    ensures event in to.usage && event !in to.outbox
  {
    StartIsSound();
    RunKeeps(START, steps, at);
    var fill := RecoverRow(Entry(event, ""));
    var ready := Next(at, fill);
    StepKeeps(at, fill);
    hide Invariant;
    var rest;
    rest, to := PublishAndPut(ready, event);
    more := [fill] + rest;
    assert more[1..] == rest;
  }

  lemma PublishAndPut(world: World, event: string) returns (more: seq<Step>, to: World)
    requires Invariant(world) && event in world.outbox && world.outbox[event].state != Pending
    ensures Reaches(world, more, to)
    ensures event in to.usage && event !in to.outbox
  {
    ReadKeeps(world, event);
    hide Invariant;
    var entry := Entry(event, world.outbox[event].payload.value);
    var read := Next(world, ReadRow(event));
    var sent := Next(read, Deliver(entry));
    var put := Put([entry]);
    InsertUsageExactly(sent.usage, [entry]);
    assert [entry][0].event in EventsOf([entry]);
    to := Next(sent, put);
    hide InsertUsage, EventsOf, EntriesOf;
    assert event in to.usage && event !in to.outbox;
    assert Enabled(world, ReadRow(event)) && Enabled(read, Deliver(entry)) && Enabled(sent, put);
    hide Next, Enabled;
    more := [ReadRow(event), Deliver(entry), put];
    ThreeSteps(world, ReadRow(event), Deliver(entry), put);
  }

  lemma ThreeSteps(world: World, one: Step, two: Step, three: Step)
    requires Enabled(world, one) && Enabled(Next(world, one), two) && Enabled(Next(Next(world, one), two), three)
    ensures Reaches(world, [one, two, three], Next(Next(Next(world, one), two), three))
  {
    hide Next, Enabled;
    var first, second := Next(world, one), Next(Next(world, one), two);
    var third := Next(second, three);
    assert Reaches(third, [], third);
    assert [three][1..] == [] && [two, three][1..] == [three] && [one, two, three][1..] == [two, three];
    assert Reaches(second, [three], third);
    assert Reaches(first, [two, three], third);
  }

  /** Recovery touches nothing but pending rows: a final payload is never replaced by a recovered one. */
  lemma RecoveryKeepsFinalForms(world: World, entry: Entry, event: string)
    requires Invariant(world) && event in world.outbox && world.outbox[event].payload.Some?
    ensures var next := Next(world, RecoverRow(entry));
            event in next.outbox && next.outbox[event] == world.outbox[event]
  {
    hide Ordered, Unseen, Delivered, Known, Kept;
  }
}
