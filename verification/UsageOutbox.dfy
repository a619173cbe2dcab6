/**
 The durable usage outbox (internal/usage/outbox.go) and the idempotent usage store that
 empties it (internal/usage/store.go). Each SQL statement takes effect as a whole or not at all.
 */
module UsageOutbox {
  import opened Wrappers

  datatype RowState = Pending | Ready | Published

  datatype Row = Row(state: RowState, payload: Option<string>)

  /** The final form of an event: an outbox payload, a stream entry or a usage row. */
  datatype Entry = Entry(event: string, body: string)

  datatype Write = Begin(event: string) | Emit(entry: Entry)

  // ---------------------------------------------------------------- the statements

  /** INSERT ... ON CONFLICT DO NOTHING of pending rows. */
  function InsertPending(outbox: map<string, Row>, events: seq<string>): map<string, Row>
    decreases |events|
  {
    if events == [] then outbox
    else
      var e := events[0];
      InsertPending(if e in outbox then outbox else outbox[e := Row(Pending, None)], events[1..])
  }

  /** INSERT ... ON CONFLICT DO UPDATE; the statement is refused when it names an event twice. */
  function UpsertReady(outbox: map<string, Row>, entries: seq<Entry>): map<string, Row>
    decreases |entries|
  {
    if entries == [] then outbox
    else UpsertReady(outbox[entries[0].event := Row(Ready, Some(entries[0].body))], entries[1..])
  }

  predicate NamedOnce(entries: seq<Entry>) {
    forall i, j | 0 <= i < j < |entries| :: entries[i].event != entries[j].event
  }

  function MarkPublished(outbox: map<string, Row>, events: set<string>): map<string, Row> {
    map e | e in outbox :: if e in events then Row(Published, outbox[e].payload) else outbox[e]
  }

  /** The update of one stale row, which applies only while the row is still pending. */
  function Recover(outbox: map<string, Row>, entry: Entry): map<string, Row> {
    if entry.event in outbox && outbox[entry.event].state == Pending
    then outbox[entry.event := Row(Ready, Some(entry.body))]
    else outbox
  }

  function RecoverAll(outbox: map<string, Row>, entries: seq<Entry>): map<string, Row> {
    if entries == [] then outbox
    else Recover(RecoverAll(outbox, entries[..|entries| - 1]), entries[|entries| - 1])
  }

  function Unfinished(outbox: map<string, Row>): set<string> {
    set e | e in outbox && outbox[e].state == Pending
  }

  /** INSERT ... ON CONFLICT DO NOTHING of usage rows. */
  function InsertUsage(usage: map<string, string>, entries: seq<Entry>): map<string, string>
    decreases |entries|
  {
    if entries == [] then usage
    else
      var entry := entries[0];
      InsertUsage(if entry.event in usage then usage else usage[entry.event := entry.body], entries[1..])
  }

  function EventsOf(entries: seq<Entry>): set<string> {
    set k | 0 <= k < |entries| :: entries[k].event
  }

  function EntriesOf(entries: seq<Entry>): set<Entry> {
    set k | 0 <= k < |entries| :: entries[k]
  }

  function Begun(batch: seq<Write>): seq<string> {
    if batch == [] then []
    else
      var last := batch[|batch| - 1];
      Begun(batch[..|batch| - 1]) + if last.Begin? then [last.event] else []
  }

  function Emitted(batch: seq<Write>): seq<Entry> {
    if batch == [] then []
    else
      var last := batch[|batch| - 1];
      Emitted(batch[..|batch| - 1]) + if last.Emit? then [last.entry] else []
  }

  // ---------------------------------------------------------------- the code around them

  /** What the relay read of a row. */
  datatype Record = Record(event: string, payload: Option<string>)

  /** The records before the first one without a payload or whose delivery fails. */
  function Deliverable(records: seq<Record>, refused: set<nat>): (n: nat)
    ensures n <= |records|
    ensures forall k | 0 <= k < n :: records[k].payload.Some? && k !in refused
    ensures n < |records| ==> records[n].payload.None? || n in refused
  {
    DeliverableFrom(records, refused, 0)
  }

  function DeliverableFrom(records: seq<Record>, refused: set<nat>, from: nat): (n: nat)
    requires from <= |records|
    ensures from <= n <= |records|
    ensures forall k | from <= k < n :: records[k].payload.Some? && k !in refused
    ensures n < |records| ==> records[n].payload.None? || n in refused
    decreases |records| - from
  {
    if from == |records| || records[from].payload.None? || from in refused then from
    else DeliverableFrom(records, refused, from + 1)
  }

  function EntryOf(record: Record): Entry
    requires record.payload.Some?
  {
    Entry(record.event, record.payload.value)
  }

  class Database {
    var outbox: map<string, Row>
    var usage: map<string, string>
    var stream: set<Entry>

    constructor ()
      ensures outbox == map[] && usage == map[] && stream == {}
    {
      outbox, usage, stream := map[], map[], {};
    }

    /** One batch of the emitter: pending rows first, then final rows; each write learns its own outcome. */
    method WriteBatch(batch: seq<Write>, pendingFails: bool, readyFails: bool) returns (results: seq<bool>)
      modifies this`outbox
      ensures var afterPending := if pendingFails then old(outbox) else InsertPending(old(outbox), Begun(batch));
              outbox == if readyFails || !NamedOnce(Emitted(batch)) then afterPending
                        else UpsertReady(afterPending, Emitted(batch))
      ensures |results| == |batch|
      ensures forall k | 0 <= k < |batch| ::
                results[k] <==> if batch[k].Begin? then !pendingFails || Begun(batch) == []
                                else !readyFails && NamedOnce(Emitted(batch))
    {
      var pending: seq<string>, ready: seq<Entry> := [], [];
      var i := 0;
      while i < |batch|
        invariant 0 <= i <= |batch|
        invariant pending == Begun(batch[..i]) && ready == Emitted(batch[..i])
      {
        assert batch[..i + 1][..i] == batch[..i];
        if batch[i].Emit? {
          ready := ready + [batch[i].entry];
        } else {
          pending := pending + [batch[i].event];
        }
        i := i + 1;
      }
      assert batch[..i] == batch;
      if !pendingFails {
        outbox := InsertPending(outbox, pending);
      }
      var readyOk := !readyFails && NamedOnce(ready);
      if readyOk {
        outbox := UpsertReady(outbox, ready);
      }
      results := [];
      i := 0;
      while i < |batch|
        invariant 0 <= i <= |batch| && |results| == i
        invariant forall k | 0 <= k < i ::
                    results[k] <==> if batch[k].Begin? then !pendingFails || pending == [] else readyOk
      {
        results := results + [if batch[i].Emit? then readyOk else !pendingFails || pending == []];
        i := i + 1;
      }
    }

    /** Delivers records in order and marks them all, or stops at the first that cannot be delivered. */
    method PublishRecords(records: seq<Record>, refused: set<nat>, markFails: bool) returns (published: Option<nat>)
      modifies this`outbox, this`stream
      ensures var n := Deliverable(records, refused);
              stream == old(stream) + set k | 0 <= k < n :: EntryOf(records[k])
      ensures published.Some? <==> Deliverable(records, refused) == |records| && (!markFails || records == [])
      ensures published.Some? ==> published.value == |records|
      ensures outbox == if published.Some?
                        then MarkPublished(old(outbox), set k | 0 <= k < |records| :: records[k].event)
                        else old(outbox)
      ensures published.Some? ==>
                forall k | 0 <= k < |records| && records[k].event in outbox ::
                  records[k].event in old(outbox) &&
                  outbox[records[k].event] == Row(Published, old(outbox)[records[k].event].payload)
    {
      var events: set<string> := {};
      var i := 0;
      while i < |records|
        invariant 0 <= i <= |records|
        invariant outbox == old(outbox)
        invariant Deliverable(records, refused) == DeliverableFrom(records, refused, i)
        invariant stream == old(stream) + set k | 0 <= k < i :: EntryOf(records[k])
        invariant events == set k | 0 <= k < i :: records[k].event
      {
        if records[i].payload.None? {
          return None;
        }
        if i in refused {
          return None;
        }
        stream := stream + {EntryOf(records[i])};
        events := events + {records[i].event};
        i := i + 1;
      }
      if records == [] {
        assert MarkPublished(outbox, {}) == outbox;
        return Some(0);
      }
      if markFails {
        return None;
      }
      outbox := MarkPublished(outbox, events);
      published := Some(|records|);
    }

    /** Gives stale requests a final form, row by row; a row that was finalized meanwhile is left alone. */
    method RecoverPending(stale: seq<Entry>, failsAt: nat) returns (recovered: nat, reached: nat)
      modifies this`outbox
      ensures reached == if failsAt < |stale| then failsAt else |stale|
      ensures outbox == RecoverAll(old(outbox), stale[..reached])
      ensures recovered == |Unfinished(old(outbox))| - |Unfinished(outbox)| <= reached
    {
      recovered, reached := 0, 0;
      while reached < |stale|
        invariant 0 <= reached <= |stale| && reached <= failsAt
        invariant outbox == RecoverAll(old(outbox), stale[..reached])
        invariant recovered == |Unfinished(old(outbox))| - |Unfinished(outbox)| <= reached
      {
        hide Unfinished;
        if reached == failsAt {
          return;
        }
        assert stale[..reached + 1][..reached] == stale[..reached];
        var entry := stale[reached];
        if entry.event in outbox && outbox[entry.event].state == Pending {
          OneFewerUnfinished(outbox, entry);
          outbox := outbox[entry.event := Row(Ready, Some(entry.body))];
          recovered := recovered + 1;
        }
        reached := reached + 1;
      }
    }

    /** Stores a batch of deliveries and clears their outbox rows, in one transaction. */
    method PutBatch(entries: seq<Entry>, invalid: set<nat>, commitFails: bool)
      returns (result: Option<(nat, nat)>)
      modifies this`outbox, this`usage
      ensures result.Some? <==>
              entries == [] || (!commitFails && forall k | 0 <= k < |entries| :: k !in invalid)
      ensures result.None? ==> outbox == old(outbox) && usage == old(usage)
      ensures result.Some? ==>
                && usage == InsertUsage(old(usage), entries)
                && outbox == old(outbox) - EventsOf(entries)
                && result.value.0 == |usage| - |old(usage)|
                && result.value.0 + result.value.1 == |entries|
    {
      if entries == [] {
        return Some((0, 0));
      }
      var i := 0;
      while i < |entries|
        invariant 0 <= i <= |entries|
        invariant forall k | 0 <= k < i :: k !in invalid
      {
        if i in invalid {
          return None;
        }
        i := i + 1;
      }
      if commitFails {
        return None;
      }
      InsertCounts(usage, entries);
      var stored := |InsertUsage(usage, entries)| - |usage|;
      usage := InsertUsage(usage, entries);
      outbox := outbox - EventsOf(entries);
      result := Some((stored, |entries| - stored));
    }
  }

  lemma OneFewerUnfinished(outbox: map<string, Row>, entry: Entry)
    requires entry.event in outbox && outbox[entry.event].state == Pending
    ensures |Unfinished(outbox)| == |Unfinished(outbox[entry.event := Row(Ready, Some(entry.body))])| + 1
  {
    assert Unfinished(outbox) == Unfinished(outbox[entry.event := Row(Ready, Some(entry.body))]) + {entry.event};
  }

  lemma {:induction false} InsertCounts(usage: map<string, string>, entries: seq<Entry>)
    ensures |usage| <= |InsertUsage(usage, entries)| <= |usage| + |entries|
    decreases |entries|
  {
    if entries != [] {
      var entry := entries[0];
      var next := if entry.event in usage then usage else usage[entry.event := entry.body];
      if entry.event !in usage {
        assert next.Keys == usage.Keys + {entry.event};
        assert |next.Keys| == |usage.Keys| + 1;
        assert |next| == |next.Keys| && |usage| == |usage.Keys|;
      }
      InsertCounts(next, entries[1..]);
    }
  }

  // ---------------------------------------------------------------- what the statements do

  lemma {:induction false} InsertPendingExactly(outbox: map<string, Row>, events: seq<string>)
    ensures var after := InsertPending(outbox, events);
            && (forall e :: e in after <==> e in outbox || e in events)
            && (forall e | e in after :: after[e] == if e in outbox then outbox[e] else Row(Pending, None))
    decreases |events|
  {
    if events != [] {
      var e := events[0];
      InsertPendingExactly(if e in outbox then outbox else outbox[e := Row(Pending, None)], events[1..]);
      assert forall f :: f in events <==> f == e || f in events[1..];
    }
  }

  lemma {:induction false} UpsertReadyExactly(outbox: map<string, Row>, entries: seq<Entry>)
    ensures var after := UpsertReady(outbox, entries);
            && (forall e :: e in after <==> e in outbox || e in EventsOf(entries))
            && (forall e | e in after && e !in EventsOf(entries) :: after[e] == outbox[e])
            && (forall e | e in EventsOf(entries) ::
                  after[e].state == Ready && after[e].payload.Some? &&
                  Entry(e, after[e].payload.value) in EntriesOf(entries))
    decreases |entries|
  {
    if entries != [] {
      var first := entries[0];
      var next := outbox[first.event := Row(Ready, Some(first.body))];
      UpsertReadyExactly(next, entries[1..]);
      Split(entries);
      hide EventsOf, EntriesOf;
    }
  }

  lemma Split(entries: seq<Entry>)
    requires entries != []
    ensures EventsOf(entries) == EventsOf(entries[1..]) + {entries[0].event}
    ensures EntriesOf(entries) == EntriesOf(entries[1..]) + {entries[0]}
  {
    var rest := entries[1..];
    assert forall k | 1 <= k < |entries| :: entries[k] == rest[k - 1];
    assert forall k | 0 <= k < |rest| :: rest[k] == entries[k + 1];
  }

  /** Marking changes the state of the named rows to published, and nothing else. */
  lemma MarkPublishedExactly(outbox: map<string, Row>, events: set<string>)
    ensures var after := MarkPublished(outbox, events);
            && after.Keys == outbox.Keys
            && (forall e | e in after && e in events :: after[e].state == Published && after[e].payload == outbox[e].payload)
            && (forall e | e in after && e !in events :: after[e] == outbox[e])
  {
  }

  /** After a successful publication no delivered event is ready, so the next poll does not take it again. */
  lemma PublishedIsNotReady(outbox: map<string, Row>, events: set<string>, e: string)
    requires e in events && e in MarkPublished(outbox, events)
    ensures MarkPublished(outbox, events)[e].state != Ready
  {
  }

  /** Recovery makes exactly the listed rows that are pending ready, with one of the bodies listed for them. */
  lemma {:induction false} RecoverAllExactly(outbox: map<string, Row>, entries: seq<Entry>)
    ensures var after := RecoverAll(outbox, entries);
            && after.Keys == outbox.Keys
            && (forall e | e in after && outbox[e].state == Pending && e in EventsOf(entries) ::
                  after[e].state == Ready && after[e].payload.Some? &&
                  Entry(e, after[e].payload.value) in EntriesOf(entries))
            && (forall e | e in after && (outbox[e].state != Pending || e !in EventsOf(entries)) :: after[e] == outbox[e])
  {
    if entries != [] {
      var n := |entries| - 1;
      RecoverAllExactly(outbox, entries[..n]);
      assert EventsOf(entries) == EventsOf(entries[..n]) + {entries[n].event};
      assert EntriesOf(entries) == EntriesOf(entries[..n]) + {entries[n]};
    }
  }

  lemma {:induction false} InsertUsageExactly(usage: map<string, string>, entries: seq<Entry>)
    ensures var after := InsertUsage(usage, entries);
            && after.Keys == usage.Keys + EventsOf(entries)
            && (forall e | e in usage :: after[e] == usage[e])
            && (forall e | e in after && e !in usage :: Entry(e, after[e]) in EntriesOf(entries))
    decreases |entries|
  {
    if entries != [] {
      var first := entries[0];
      var next := if first.event in usage then usage else usage[first.event := first.body];
      InsertUsageExactly(next, entries[1..]);
      Split(entries);
      hide EventsOf, EntriesOf;
      assert next.Keys == usage.Keys + {first.event};
    }
  }
}
