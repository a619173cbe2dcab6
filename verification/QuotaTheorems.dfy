/**
 What every run of the quota ledger keeps: conservation of the counters, the limits of a
 deny policy, and confluence of settlement with the reaper.
 */
module QuotaTheorems {
  import opened Wrappers
  import opened QuotaLedger

  // ---------------------------------------------------------------- totals over reservations

  datatype Column = Held | Charged | Overrun

  function Excess(actual: int, reserved: int): int {
    if actual > reserved then actual - reserved else 0
  }

  /** What one reservation contributes to a column of a window. */
  function Share(row: Reservation, window: WindowKey, column: Column): Amounts {
    if row.window != window then ZERO
    else
      match column
      case Held => if row.state.Active? then row.reserved else ZERO
      case Charged =>
        (match row.state
         case Active => ZERO
         case Estimated => row.reserved
         case Settled => if row.actual.Some? then row.actual.value else ZERO)
      case Overrun =>
        if row.state.Settled? && row.actual.Some? then
          Amounts(Excess(row.actual.value.requests, row.reserved.requests),
                  Excess(row.actual.value.tokens, row.reserved.tokens),
                  Excess(row.actual.value.cost, row.reserved.cost))
        else ZERO
  }

  ghost function Sum(terms: map<ReservationKey, int>): int {
    if terms == map[] then 0
    else
      var key :| key in terms;
      terms[key] + Sum(terms - {key})
  }

  lemma {:induction false} SumSplit(terms: map<ReservationKey, int>, key: ReservationKey)
    requires key in terms
    ensures Sum(terms) == terms[key] + Sum(terms - {key})
    decreases |terms|
  {
    var first :| first in terms && Sum(terms) == terms[first] + Sum(terms - {first});
    if first != key {
      SumSplit(terms - {first}, key);
      SumSplit(terms - {key}, first);
      assert terms - {first} - {key} == terms - {key} - {first};
    }
  }

  lemma {:induction false} SumIsNonNegative(terms: map<ReservationKey, int>)
    requires forall key :: key in terms ==> terms[key] >= 0
    ensures Sum(terms) >= 0
    decreases |terms|
  {
    if terms != map[] {
      var key :| key in terms;
      SumSplit(terms, key);
      SumIsNonNegative(terms - {key});
    }
  }

  datatype Counter = Requests | Tokens | Cost

  function Read(amounts: Amounts, counter: Counter): int {
    match counter
    case Requests => amounts.requests
    case Tokens => amounts.tokens
    case Cost => amounts.cost
  }

  ghost function Shares(rows: Reservations, window: WindowKey, column: Column, counter: Counter): map<ReservationKey, int> {
    map key | key in rows :: Read(Share(rows[key], window, column), counter)
  }

  /** The sum of a window's column over all reservations. */
  ghost function Total(rows: Reservations, window: WindowKey, column: Column): Amounts {
    Amounts(
      Sum(Shares(rows, window, column, Requests)),
      Sum(Shares(rows, window, column, Tokens)),
      Sum(Shares(rows, window, column, Cost)))
  }

  ghost function OldShare(rows: Reservations, key: ReservationKey, window: WindowKey, column: Column): Amounts {
    if key in rows then Share(rows[key], window, column) else ZERO
  }

  lemma SumWrite(rows: Reservations, key: ReservationKey, row: Reservation, window: WindowKey, column: Column, counter: Counter)
    ensures Sum(Shares(rows[key := row], window, column, counter)) ==
            Sum(Shares(rows, window, column, counter))
            - Read(OldShare(rows, key, window, column), counter) + Read(Share(row, window, column), counter)
  {
    var before, after := Shares(rows, window, column, counter), Shares(rows[key := row], window, column, counter);
    SumSplit(after, key);
    if key in rows {
      SumSplit(before, key);
      assert after - {key} == before - {key};
    } else {
      assert after - {key} == before;
    }
  }

  /** Writing one row moves a total by the difference of the two shares. */
  lemma TotalWrite(rows: Reservations, key: ReservationKey, row: Reservation, window: WindowKey, column: Column)
    ensures Total(rows[key := row], window, column) ==
            Total(rows, window, column).Minus(OldShare(rows, key, window, column)).Plus(Share(row, window, column))
  {
    hide Sum, Shares, Share, OldShare;
    SumWrite(rows, key, row, window, column, Requests);
    SumWrite(rows, key, row, window, column, Tokens);
    SumWrite(rows, key, row, window, column, Cost);
  }

  lemma OverrunIsNonNegative(rows: Reservations, window: WindowKey)
    ensures Total(rows, window, Overrun).requests >= 0
    ensures Total(rows, window, Overrun).tokens >= 0
    ensures Total(rows, window, Overrun).cost >= 0
  {
    SumIsNonNegative(Shares(rows, window, Overrun, Requests));
    SumIsNonNegative(Shares(rows, window, Overrun, Tokens));
    SumIsNonNegative(Shares(rows, window, Overrun, Cost));
  }

  // ---------------------------------------------------------------- conservation

  ghost predicate Counted(ledger: Ledger, window: WindowKey) {
    WindowAt(ledger, window) ==
    Window(Total(ledger.reservations, window, Charged), Total(ledger.reservations, window, Held))
  }

  /** Every window's counters are the totals of its reservations. */
  ghost predicate Conserved(ledger: Ledger) {
    forall window :: Counted(ledger, window)
  }

  predicate WellFormedRow(key: ReservationKey, row: Reservation) {
    && row.window.policy == key.policy
    && row.reserved.requests == 1
    && (match row.state
        case Active => row.actual == None
        case Estimated => row.actual == Some(row.reserved)
        case Settled => row.actual.Some? && row.actual.value.requests == 1)
  }

  ghost predicate WellFormed(ledger: Ledger) {
    forall key :: key in ledger.reservations ==>
      && WellFormedRow(key, ledger.reservations[key])
      && ledger.reservations[key].window in ledger.windows
  }

  ghost predicate Sound(ledger: Ledger) {
    Conserved(ledger) && WellFormed(ledger)
  }

  /** The window after one of its rows is rewritten. */
  ghost function Recounted(ledger: Ledger, key: ReservationKey, row: Reservation): Window {
    var window := WindowAt(ledger, row.window);
    Window(
      window.settled.Minus(OldShare(ledger.reservations, key, row.window, Charged)).Plus(Share(row, row.window, Charged)),
      window.reserved.Minus(OldShare(ledger.reservations, key, row.window, Held)).Plus(Share(row, row.window, Held)))
  }

  ghost function Rebooked(ledger: Ledger, key: ReservationKey, row: Reservation): Ledger {
    Ledger(ledger.windows[row.window := Recounted(ledger, key, row)], ledger.reservations[key := row])
  }

  lemma ForeignShares(rows: Reservations, key: ReservationKey, row: Reservation, window: WindowKey, column: Column)
    requires row.window != window
    requires key in rows ==> rows[key].window == row.window
    ensures Share(row, window, column) == ZERO && OldShare(rows, key, window, column) == ZERO
  {
  }

  lemma ForeignRowAddsNothing(rows: Reservations, key: ReservationKey, row: Reservation, window: WindowKey, column: Column)
    requires row.window != window
    requires key in rows ==> rows[key].window == row.window
    ensures Total(rows[key := row], window, column) == Total(rows, window, column)
  {
    hide Total, Share, OldShare;
    ForeignShares(rows, key, row, window, column);
    TotalWrite(rows, key, row, window, column);
  }

  lemma RebookedCounts(ledger: Ledger, key: ReservationKey, row: Reservation, window: WindowKey)
    requires Counted(ledger, window)
    requires key in ledger.reservations ==> ledger.reservations[key].window == row.window
    ensures Counted(Rebooked(ledger, key, row), window)
  {
    hide Total, Share, OldShare;
    if window == row.window {
      TotalWrite(ledger.reservations, key, row, window, Charged);
      TotalWrite(ledger.reservations, key, row, window, Held);
    } else {
      ForeignRowAddsNothing(ledger.reservations, key, row, window, Charged);
      ForeignRowAddsNothing(ledger.reservations, key, row, window, Held);
    }
  }

  lemma RebookedIsSound(ledger: Ledger, key: ReservationKey, row: Reservation)
    requires Sound(ledger)
    requires WellFormedRow(key, row)
    requires key in ledger.reservations ==> ledger.reservations[key].window == row.window
    ensures Sound(Rebooked(ledger, key, row))
  {
    hide Counted, Recounted;
    forall window ensures Counted(Rebooked(ledger, key, row), window) {
      RebookedCounts(ledger, key, row, window);
    }
  }

  lemma BookIsSound(ledger: Ledger, policy: Policy, request: Request)
    requires Sound(ledger)
    requires ReservationKey(request.group, policy.id) !in ledger.reservations
    ensures Sound(Book(ledger, policy, request))
  {
    hide Conserved, Book;
    BookIsRebooking(ledger, policy, request);
    var key := ReservationKey(request.group, policy.id);
    RebookedIsSound(ledger, key, Book(ledger, policy, request).reservations[key]);
  }

  lemma BookIsRebooking(ledger: Ledger, policy: Policy, request: Request)
    requires ReservationKey(request.group, policy.id) !in ledger.reservations
    ensures var key := ReservationKey(request.group, policy.id);
            var after := Book(ledger, policy, request);
            && key in after.reservations
            && WellFormedRow(key, after.reservations[key])
            && after == Rebooked(ledger, key, after.reservations[key])
  {
    hide Exceeds;
  }

  lemma SettleRowIsRebooking(ledger: Ledger, key: ReservationKey, usage: Usage)
    requires key in ledger.reservations && !ledger.reservations[key].state.Settled?
    ensures SettleRow(ledger, key, usage) == Rebooked(ledger, key, SettledRow(ledger.reservations[key], usage))
  {
    hide Actual, Share;
    var row := ledger.reservations[key];
    SettledWindow(row, WindowAt(ledger, row.window), usage);
  }

  /** The window after a settlement: the old share of the row taken out, the new one put in. */
  lemma SettledWindow(row: Reservation, window: Window, usage: Usage)
    requires !row.state.Settled?
    ensures var settled := SettledRow(row, usage);
            var charge := Actual(usage, row.reserved);
            var released := if row.state.Active? then window.(reserved := window.reserved.Minus(row.reserved))
                            else window.(settled := window.settled.Minus(row.reserved));
            released.(settled := released.settled.Plus(charge)) ==
            Window(
              window.settled.Minus(Share(row, row.window, Charged)).Plus(Share(settled, row.window, Charged)),
              window.reserved.Minus(Share(row, row.window, Held)).Plus(Share(settled, row.window, Held)))
  {
    hide Actual;
  }

  lemma SettleRowIsSound(ledger: Ledger, key: ReservationKey, usage: Usage)
    requires Sound(ledger)
    requires key in ledger.reservations
    ensures Sound(SettleRow(ledger, key, usage))
  {
    hide Conserved;
    var row := ledger.reservations[key];
    if !row.state.Settled? {
      RebookedIsSound(ledger, key, SettledRow(row, usage));
      SettleRowIsRebooking(ledger, key, usage);
    }
  }

  lemma ReapRowIsSound(ledger: Ledger, key: ReservationKey)
    requires Sound(ledger)
    requires key in ledger.reservations && ledger.reservations[key].state.Active?
    ensures Sound(ReapRow(ledger, key))
  {
    hide Counted;
    var row := ledger.reservations[key];
    RebookedIsSound(ledger, key, EstimatedRow(row));
    assert ReapRow(ledger, key) == Rebooked(ledger, key, EstimatedRow(row));
  }

  // ---------------------------------------------------------------- closed forms of the loops

  function Settlement(rows: Reservations, keys: set<ReservationKey>, usage: Usage): Reservations {
    map key | key in rows :: if key in keys then SettledRow(rows[key], usage) else rows[key]
  }

  function Estimation(rows: Reservations, keys: set<ReservationKey>): Reservations {
    map key | key in rows :: if key in keys then EstimatedRow(rows[key]) else rows[key]
  }

  function Elements<T(==)>(s: seq<T>): set<T> { set x | x in s }

  lemma SettleRowEffect(ledger: Ledger, key: ReservationKey, usage: Usage)
    requires Sound(ledger) && key in ledger.reservations
    ensures var after := SettleRow(ledger, key, usage);
            && Sound(after)
            && after.reservations == ledger.reservations[key := SettledRow(ledger.reservations[key], usage)]
            && after.windows.Keys == ledger.windows.Keys
  {
    hide Conserved, Actual;
    SettleRowIsSound(ledger, key, usage);
  }

  lemma ReapRowEffect(ledger: Ledger, key: ReservationKey)
    requires Sound(ledger)
    requires key in ledger.reservations && ledger.reservations[key].state.Active?
    ensures var after := ReapRow(ledger, key);
            && Sound(after)
            && after.reservations == ledger.reservations[key := EstimatedRow(ledger.reservations[key])]
            && after.windows.Keys == ledger.windows.Keys
  {
    hide Conserved;
    ReapRowIsSound(ledger, key);
  }

  /** Settling a list of rows rewrites exactly those rows, whatever their order, and stays sound. */
  lemma {:induction false} SettleRowsExactly(ledger: Ledger, keys: seq<ReservationKey>, usage: Usage)
    requires Sound(ledger)
    requires forall i :: 0 <= i < |keys| ==> keys[i] in ledger.reservations
    ensures Sound(SettleRows(ledger, keys, usage))
    ensures SettleRows(ledger, keys, usage).reservations ==
            Settlement(ledger.reservations, Elements(keys), usage)
    ensures SettleRows(ledger, keys, usage).windows.Keys == ledger.windows.Keys
    decreases |keys|
  {
    hide Sound, Actual, SettleRow;
    if keys != [] {
      SettleRowEffect(ledger, keys[0], usage);
      SettleRowsExactly(SettleRow(ledger, keys[0], usage), keys[1..], usage);
      assert Elements(keys) == {keys[0]} + Elements(keys[1..]);
    }
  }

  /** Reaping a list of distinct active rows estimates exactly those rows, and stays sound. */
  lemma {:induction false} ReapRowsExactly(ledger: Ledger, keys: seq<ReservationKey>)
    requires Sound(ledger)
    requires Distinct(keys)
    requires forall i :: 0 <= i < |keys| ==>
      keys[i] in ledger.reservations && ledger.reservations[keys[i]].state.Active?
    ensures Sound(ReapRows(ledger, keys))
    ensures ReapRows(ledger, keys).reservations == Estimation(ledger.reservations, Elements(keys))
    ensures ReapRows(ledger, keys).windows.Keys == ledger.windows.Keys
    decreases |keys|
  {
    hide Sound, ReapRow;
    if keys != [] {
      ReapRowEffect(ledger, keys[0]);
      assert forall i :: 0 <= i < |keys[1..]| ==> keys[1..][i] == keys[i + 1] && keys[1..][i] != keys[0];
      ReapRowsExactly(ReapRow(ledger, keys[0]), keys[1..]);
      assert Elements(keys) == {keys[0]} + Elements(keys[1..]);
    }
  }

  /** A policy that would not stop the request, judged on the ledger as it was before the transaction. */
  predicate Admits(ledger: Ledger, policy: Policy, request: Request) {
    var window := WindowAt(ledger, TargetWindow(policy, request));
    var incoming := Incoming(policy, request);
    && (policy.overage.Deny? ==>
        && (policy.budget.Some? ==> request.cost.Some?)
        && !Exceeds(policy, window, incoming))
    && Add(window.reserved.tokens, incoming.tokens).Some?
    && Add(window.reserved.cost, incoming.cost).Some?
  }

  ghost predicate Untouched(ledger: Ledger, after: Ledger, policy: PolicyId) {
    && (forall window: WindowKey :: window.policy == policy ==> WindowAt(after, window) == WindowAt(ledger, window))
    && (forall key: ReservationKey :: key.policy == policy ==>
        && (key in after.reservations <==> key in ledger.reservations)
        && (key in ledger.reservations ==> after.reservations[key] == ledger.reservations[key]))
  }

  /** The row and counters a policy gains when a request is admitted. */
  ghost predicate Booked(ledger: Ledger, after: Ledger, policy: Policy, request: Request) {
    var target := TargetWindow(policy, request);
    var key := ReservationKey(request.group, policy.id);
    var window := WindowAt(ledger, target);
    && WindowAt(after, target) == window.(reserved := window.reserved.Plus(Incoming(policy, request)))
    && key in after.reservations
    && after.reservations[key].window == target
    && after.reservations[key].reserved == Incoming(policy, request)
    && after.reservations[key].state == Active && after.reservations[key].actual == None
    && after.reservations[key].exceeded == Exceeds(policy, window, Incoming(policy, request))
    && after.reservations[key].expiresAt == request.now + request.ttl
  }

  lemma ReserveRowExactly(ledger: Ledger, policy: Policy, request: Request, decision: Decision)
    ensures var outcome := ReserveRow(ledger, policy, request, decision);
            && (outcome.Commit? <==> Admits(ledger, policy, request))
            && (outcome.Commit? ==>
                outcome.ledger == Book(ledger, policy, request) && outcome.decision.applied == decision.applied + 1)
  {
  }

  lemma BookTouchesOnePolicy(ledger: Ledger, policy: Policy, request: Request)
    ensures Booked(ledger, Book(ledger, policy, request), policy, request)
    ensures forall other :: other != policy.id ==> Untouched(ledger, Book(ledger, policy, request), other)
    ensures forall key :: key in Book(ledger, policy, request).reservations ==>
      key in ledger.reservations || key == ReservationKey(request.group, policy.id)
  {
  }

  lemma OwnRowsDecide(ledger: Ledger, next: Ledger, after: Ledger, policy: Policy, request: Request)
    requires Untouched(ledger, next, policy.id)
    ensures Admits(ledger, policy, request) == Admits(next, policy, request)
    ensures Booked(next, after, policy, request) ==> Booked(ledger, after, policy, request)
  {
    assert WindowAt(ledger, TargetWindow(policy, request)) == WindowAt(next, TargetWindow(policy, request));
  }

  lemma BookedStays(ledger: Ledger, next: Ledger, after: Ledger, policy: Policy, request: Request)
    requires Booked(ledger, next, policy, request)
    requires Untouched(next, after, policy.id)
    ensures Booked(ledger, after, policy, request)
  {
    assert WindowAt(next, TargetWindow(policy, request)) == WindowAt(after, TargetWindow(policy, request));
  }

  lemma UntouchedTwice(ledger: Ledger, next: Ledger, after: Ledger, policy: PolicyId)
    requires Untouched(ledger, next, policy) && Untouched(next, after, policy)
    ensures Untouched(ledger, after, policy)
  {
    forall window: WindowKey | window.policy == policy ensures WindowAt(after, window) == WindowAt(ledger, window) {
      assert WindowAt(next, window) == WindowAt(ledger, window);
    }
  }

  ghost predicate AllAdmit(ledger: Ledger, rows: seq<Policy>, request: Request) {
    forall i :: 0 <= i < |rows| ==> Admits(ledger, rows[i], request)
  }

  ghost predicate AllBooked(ledger: Ledger, after: Ledger, rows: seq<Policy>, request: Request) {
    && (forall i :: 0 <= i < |rows| ==> Booked(ledger, after, rows[i], request))
    && (forall policy :: (forall i :: 0 <= i < |rows| ==> rows[i].id != policy) ==> Untouched(ledger, after, policy))
  }

  lemma AllAdmitStep(ledger: Ledger, rows: seq<Policy>, request: Request)
    requires rows != [] && OrderedById(rows)
    requires Admits(ledger, rows[0], request)
    ensures AllAdmit(ledger, rows, request) <==> AllAdmit(Book(ledger, rows[0], request), rows[1..], request)
  {
    hide Admits, Book, Booked;
    var next := Book(ledger, rows[0], request);
    BookTouchesOnePolicy(ledger, rows[0], request);
    forall i | 0 < i < |rows| ensures Admits(ledger, rows[i], request) == Admits(next, rows[i], request) {
      OwnRowsDecide(ledger, next, next, rows[i], request);
    }
    assert forall i :: 0 < i < |rows| ==> rows[i] == rows[1..][i - 1];
  }

  lemma AllBookedStep(ledger: Ledger, after: Ledger, rows: seq<Policy>, request: Request)
    requires rows != [] && OrderedById(rows)
    requires AllBooked(Book(ledger, rows[0], request), after, rows[1..], request)
    ensures AllBooked(ledger, after, rows, request)
  {
    hide Book, Booked, Untouched;
    var next, rest := Book(ledger, rows[0], request), rows[1..];
    BookTouchesOnePolicy(ledger, rows[0], request);
    assert forall i :: 0 <= i < |rest| ==> rest[i] == rows[i + 1];
    forall i | 0 <= i < |rows| ensures Booked(ledger, after, rows[i], request) {
      if i == 0 {
        BookedStays(ledger, next, after, rows[0], request);
      } else {
        assert Booked(next, after, rest[i - 1], request);
        OwnRowsDecide(ledger, next, after, rows[i], request);
      }
    }
    forall other | forall i :: 0 <= i < |rows| ==> rows[i].id != other ensures Untouched(ledger, after, other) {
      assert rows[0].id != other;
      UntouchedTwice(ledger, next, after, other);
    }
  }

  /**
   The loop over policies sees changing windows, yet it commits exactly when every policy admits
   the request on the starting ledger; then each policy has gained its own booking and no other
   policy's rows have moved.
   */
  lemma {:induction false} ReserveRowsExactly(ledger: Ledger, rows: seq<Policy>, request: Request, decision: Decision)
    requires Sound(ledger)
    requires OrderedById(rows)
    requires forall i :: 0 <= i < |rows| ==> ReservationKey(request.group, rows[i].id) !in ledger.reservations
    ensures var outcome := ReserveRows(ledger, rows, request, decision);
            && (outcome.Commit? <==> AllAdmit(ledger, rows, request))
            && (outcome.Commit? ==>
                && Sound(outcome.ledger)
                && outcome.decision.applied == decision.applied + |rows|
                && AllBooked(ledger, outcome.ledger, rows, request))
    decreases |rows|
  {
    hide Sound, Admits, Book, Booked, ReserveRow, AllBooked;
    if rows == [] {
      NothingBooked(ledger, request);
    } else {
      var policy, rest := rows[0], rows[1..];
      ReserveRowExactly(ledger, policy, request, decision);
      if Admits(ledger, policy, request) {
        var next := Book(ledger, policy, request);
        BookIsSound(ledger, policy, request);
        BookTouchesOnePolicy(ledger, policy, request);
        ReserveRowsExactly(next, rest, request, ReserveRow(ledger, policy, request, decision).decision);
        AllAdmitStep(ledger, rows, request);
        var outcome := ReserveRows(next, rest, request, ReserveRow(ledger, policy, request, decision).decision);
        if outcome.Commit? {
          AllBookedStep(ledger, outcome.ledger, rows, request);
        }
      }
    }
  }

  /** What a policy reports on the ledger before the transaction. */
  function Notices(ledger: Ledger, policy: Policy, request: Request): seq<Notice> {
    (if policy.budget.Some? && request.cost.None? then [CostUnknownNotice(policy.id)] else []) +
    (if policy.overage.Alert? && Passed(ledger, policy, request) then [ExceededNotice(policy.id)] else [])
  }

  predicate Passed(ledger: Ledger, policy: Policy, request: Request) {
    Exceeds(policy, WindowAt(ledger, TargetWindow(policy, request)), Incoming(policy, request))
  }

  function AllNotices(ledger: Ledger, rows: seq<Policy>, request: Request): seq<Notice>
    decreases |rows|
  {
    if rows == [] then [] else Notices(ledger, rows[0], request) + AllNotices(ledger, rows[1..], request)
  }

  predicate SomePassed(ledger: Ledger, rows: seq<Policy>, request: Request) {
    exists i :: 0 <= i < |rows| && Passed(ledger, rows[i], request)
  }

  lemma ReserveRowDecides(ledger: Ledger, policy: Policy, request: Request, decision: Decision)
    requires Admits(ledger, policy, request)
    ensures ReserveRow(ledger, policy, request, decision).decision ==
            Decision(decision.exceeded || Passed(ledger, policy, request),
                     decision.alerts + Notices(ledger, policy, request), decision.applied + 1)
  {
    hide Exceeds;
    assert decision.alerts + [] + [] == decision.alerts;
  }

  lemma {:induction false} OtherRowsUnmoved(ledger: Ledger, booked: Policy, rows: seq<Policy>, request: Request)
    requires forall i :: 0 <= i < |rows| ==> rows[i].id != booked.id
    ensures AllNotices(Book(ledger, booked, request), rows, request) == AllNotices(ledger, rows, request)
    ensures forall i :: 0 <= i < |rows| ==>
      Passed(Book(ledger, booked, request), rows[i], request) == Passed(ledger, rows[i], request)
    decreases |rows|
  {
    hide Exceeds;
    if rows != [] {
      OtherRowsUnmoved(ledger, booked, rows[1..], request);
      assert forall i :: 0 < i < |rows| ==> rows[i] == rows[1..][i - 1];
    }
  }

  lemma SomePassedStep(ledger: Ledger, next: Ledger, rows: seq<Policy>, request: Request)
    requires rows != []
    requires forall i :: 0 <= i < |rows[1..]| ==>
      Passed(next, rows[1..][i], request) == Passed(ledger, rows[1..][i], request)
    ensures SomePassed(ledger, rows, request) <==>
            Passed(ledger, rows[0], request) || SomePassed(next, rows[1..], request)
  {
    hide Passed;
    var rest := rows[1..];
    assert forall i :: 0 < i < |rows| ==> rows[i] == rest[i - 1];
    if SomePassed(next, rest, request) {
      var i :| 0 <= i < |rest| && Passed(next, rest[i], request);
      assert Passed(ledger, rows[i + 1], request);
    }
  }

  /**
   What a committed reservation reports: whether any policy was passed on the ledger before the
   transaction, and every policy's notices in policy order.
   */
  lemma {:induction false} ReserveRowsDecide(ledger: Ledger, rows: seq<Policy>, request: Request, decision: Decision)
    requires OrderedById(rows)
    ensures var outcome := ReserveRows(ledger, rows, request, decision);
            outcome.Commit? ==>
              outcome.decision ==
              Decision(decision.exceeded || SomePassed(ledger, rows, request),
                       decision.alerts + AllNotices(ledger, rows, request), decision.applied + |rows|)
    decreases |rows|
  {
    if rows == [] {
      assert decision.alerts + [] == decision.alerts;
    } else {
      var policy, rest := rows[0], rows[1..];
      ReserveRowExactly(ledger, policy, request, decision);
      if Admits(ledger, policy, request) {
        ReserveRowDecides(ledger, policy, request, decision);
        OtherRowsUnmoved(ledger, policy, rest, request);
        SomePassedStep(ledger, Book(ledger, policy, request), rows, request);
        hide Admits, Book, ReserveRow, Passed, Notices, SomePassed, OrderedById;
        var next := Book(ledger, policy, request);
        ReserveRowsDecide(next, rest, request, ReserveRow(ledger, policy, request, decision).decision);
        assert decision.alerts + Notices(ledger, policy, request) + AllNotices(ledger, rest, request) ==
               decision.alerts + (Notices(ledger, policy, request) + AllNotices(ledger, rest, request));
      }
    }
  }

  /** Why a policy stops a request: an unknown cost comes before a limit, a limit before an overflow. */
  function Refusal(ledger: Ledger, policy: Policy, request: Request): Error {
    if policy.overage.Deny? && policy.budget.Some? && request.cost.None? then CostUnknown
    else if policy.overage.Deny? && Passed(ledger, policy, request) then Exceeded
    else CounterOverflow
  }

  /** A refused reservation fails for the first policy that does not admit it, judged on the starting ledger. */
  lemma {:induction false} ReserveRowsRefuse(ledger: Ledger, rows: seq<Policy>, request: Request, decision: Decision, first: nat)
    requires OrderedById(rows) && first < |rows|
    requires forall i :: 0 <= i < first ==> Admits(ledger, rows[i], request)
    requires !Admits(ledger, rows[first], request)
    ensures var outcome := ReserveRows(ledger, rows, request, decision);
            outcome.Rollback? && outcome.error == Refusal(ledger, rows[first], request)
    decreases |rows|
  {
    var policy, rest := rows[0], rows[1..];
    ReserveRowExactly(ledger, policy, request, decision);
    if first > 0 {
      var next := Book(ledger, policy, request);
      BookTouchesOnePolicy(ledger, policy, request);
      hide Exceeds, Book, ReserveRow, Booked;
      forall i | 0 < i <= first ensures Admits(ledger, rows[i], request) == Admits(next, rows[i], request) {
        OwnRowsDecide(ledger, next, next, rows[i], request);
      }
      OwnRowsDecide(ledger, next, next, rows[first], request);
      assert Refusal(ledger, rows[first], request) == Refusal(next, rows[first], request) by {
        assert Untouched(ledger, next, rows[first].id);
        assert WindowAt(ledger, TargetWindow(rows[first], request)) == WindowAt(next, TargetWindow(rows[first], request));
      }
      hide Admits;
      ReserveRowsRefuse(next, rest, request, ReserveRow(ledger, policy, request, decision).decision, first - 1);
    }
  }

  lemma NothingBooked(ledger: Ledger, request: Request)
    ensures AllBooked(ledger, ledger, [], request)
  {
  }

  // ---------------------------------------------------------------- runs

  datatype Op =
    | ReserveOp(request: Request, rows: seq<Policy>)
    | SettleOp(group: string, usage: Usage, keys: seq<ReservationKey>)
    | ReapOp(now: int, limit: nat, keys: seq<ReservationKey>)

  /** The rows an operation works on are what its query returns on this ledger. */
  ghost predicate Enabled(ledger: Ledger, op: Op) {
    match op
    case ReserveOp(request, rows) =>
      OrderedById(rows) && forall i :: 0 <= i < |rows| ==> Matches(rows[i], request.tenant, request.model)
    case SettleOp(group, _, keys) => IsGroupQuery(ledger.reservations, group, keys)
    case ReapOp(now, limit, keys) => IsReapQuery(ledger.reservations, now, limit, keys)
  }

  function Apply(ledger: Ledger, op: Op): Ledger
    requires Enabled(ledger, op)
  {
    match op
    case ReserveOp(request, rows) => Committed(ledger, ReserveGroup(ledger, rows, request))
    case SettleOp(_, usage, keys) => SettleRows(ledger, keys, usage)
    case ReapOp(_, _, keys) => ReapRows(ledger, keys)
  }

  ghost predicate Legal(ledger: Ledger, ops: seq<Op>)
    decreases |ops|
  {
    ops == [] || (Enabled(ledger, ops[0]) && Legal(Apply(ledger, ops[0]), ops[1..]))
  }

  ghost function After(ledger: Ledger, ops: seq<Op>): Ledger
    requires Legal(ledger, ops)
    decreases |ops|
  {
    if ops == [] then ledger else After(Apply(ledger, ops[0]), ops[1..])
  }

  lemma ApplyIsSound(ledger: Ledger, op: Op)
    requires Sound(ledger) && Enabled(ledger, op)
    ensures Sound(Apply(ledger, op))
  {
    hide Sound, ReserveRows;
    match op
    case ReserveOp(request, rows) =>
      if !HasGroup(ledger.reservations, request.group) {
        ReserveRowsExactly(ledger, rows, request, NO_DECISION);
      }
    case SettleOp(_, usage, keys) =>
      SettleRowsExactly(ledger, keys, usage);
    case ReapOp(_, _, keys) =>
      ReapRowsExactly(ledger, keys);
  }

  lemma EmptyIsSound()
    ensures Sound(EMPTY)
  {
    forall window ensures Counted(EMPTY, window) {
      assert Shares(EMPTY.reservations, window, Charged, Requests) == map[];
      assert Shares(EMPTY.reservations, window, Charged, Tokens) == map[];
      assert Shares(EMPTY.reservations, window, Charged, Cost) == map[];
      assert Shares(EMPTY.reservations, window, Held, Requests) == map[];
      assert Shares(EMPTY.reservations, window, Held, Tokens) == map[];
      assert Shares(EMPTY.reservations, window, Held, Cost) == map[];
    }
  }

  lemma {:induction false} RunIsSound(ledger: Ledger, ops: seq<Op>)
    requires Sound(ledger) && Legal(ledger, ops)
    ensures Sound(After(ledger, ops))
    decreases |ops|
  {
    hide Sound, Enabled;
    if ops != [] {
      ApplyIsSound(ledger, ops[0]);
      RunIsSound(Apply(ledger, ops[0]), ops[1..]);
    }
  }

  /** In every state any run reaches, each window's six counters are the sums over its reservations. */
  lemma ConservationAlways(ops: seq<Op>, window: WindowKey)
    requires Legal(EMPTY, ops)
    ensures var ledger := After(EMPTY, ops);
            && WindowAt(ledger, window).reserved == Total(ledger.reservations, window, Held)
            && WindowAt(ledger, window).settled == Total(ledger.reservations, window, Charged)
  {
    EmptyIsSound();
    RunIsSound(EMPTY, ops);
    assert Counted(After(EMPTY, ops), window);
  }

  // ---------------------------------------------------------------- limits of a deny policy

  /** Requests stay within their limit; tokens and cost pass theirs by at most the settled overruns. */
  ghost predicate WithinAt(ledger: Ledger, policy: Policy, window: WindowKey) {
    var use := WindowAt(ledger, window).settled.Plus(WindowAt(ledger, window).reserved);
    var overrun := Total(ledger.reservations, window, Overrun);
    && (policy.requestLimit.Some? ==> use.requests <= policy.requestLimit.value)
    && (policy.tokenLimit.Some? ==> use.tokens <= policy.tokenLimit.value + overrun.tokens)
    && (policy.budget.Some? ==> use.cost <= policy.budget.value + overrun.cost)
  }

  ghost predicate Within(ledger: Ledger, policy: Policy) {
    forall window: WindowKey :: window.policy == policy.id ==> WithinAt(ledger, policy, window)
  }

  function Load(row: Reservation): Amounts {
    Share(row, row.window, Held).Plus(Share(row, row.window, Charged))
  }

  /** A rewrite that adds no more load than overrun, and no request. */
  predicate Tame(before: Reservation, after: Reservation) {
    var oldOver, newOver := Share(before, before.window, Overrun), Share(after, after.window, Overrun);
    && before.window == after.window
    && Load(after).requests <= Load(before).requests
    && Load(after).tokens - Load(before).tokens <= newOver.tokens - oldOver.tokens
    && Load(after).cost - Load(before).cost <= newOver.cost - oldOver.cost
  }

  lemma TameRewriteInWindow(ledger: Ledger, key: ReservationKey, row: Reservation, policy: Policy)
    requires key in ledger.reservations && Tame(ledger.reservations[key], row)
    requires WithinAt(ledger, policy, row.window)
    ensures WithinAt(Rebooked(ledger, key, row), policy, row.window)
  {
    hide Total, Share;
    TotalWrite(ledger.reservations, key, row, row.window, Overrun);
    assert WindowAt(Rebooked(ledger, key, row), row.window) == Recounted(ledger, key, row);
  }

  lemma RewriteElsewhere(ledger: Ledger, key: ReservationKey, row: Reservation, after: Ledger, policy: Policy, window: WindowKey)
    requires key in ledger.reservations ==> ledger.reservations[key].window == row.window
    requires after.reservations == ledger.reservations[key := row]
    requires WindowAt(after, window) == WindowAt(ledger, window)
    requires window != row.window
    requires WithinAt(ledger, policy, window)
    ensures WithinAt(after, policy, window)
  {
    hide Total, Share;
    ForeignRowAddsNothing(ledger.reservations, key, row, window, Overrun);
  }

  lemma TameRewriteKeepsLimits(ledger: Ledger, key: ReservationKey, row: Reservation, policy: Policy)
    requires key in ledger.reservations && Tame(ledger.reservations[key], row)
    requires Within(ledger, policy)
    ensures Within(Rebooked(ledger, key, row), policy)
  {
    hide WithinAt, Load, Share, Recounted;
    forall window: WindowKey | window.policy == policy.id ensures WithinAt(Rebooked(ledger, key, row), policy, window) {
      if window == row.window {
        TameRewriteInWindow(ledger, key, row, policy);
      } else {
        RewriteElsewhere(ledger, key, row, Rebooked(ledger, key, row), policy, window);
      }
    }
  }

  lemma SettlementIsTame(row: Reservation, usage: Usage)
    requires row.reserved.requests == 1 && !row.state.Settled?
    ensures Tame(row, SettledRow(row, usage))
  {
  }

  lemma SettleRowKeepsLimits(ledger: Ledger, key: ReservationKey, usage: Usage, policy: Policy)
    requires WellFormed(ledger) && key in ledger.reservations
    requires Within(ledger, policy)
    ensures Within(SettleRow(ledger, key, usage), policy)
  {
    hide Within, Tame, Actual;
    var row := ledger.reservations[key];
    if !row.state.Settled? {
      SettlementIsTame(row, usage);
      TameRewriteKeepsLimits(ledger, key, SettledRow(row, usage), policy);
      SettleRowIsRebooking(ledger, key, usage);
    }
  }

  lemma ReapRowKeepsLimits(ledger: Ledger, key: ReservationKey, policy: Policy)
    requires key in ledger.reservations && ledger.reservations[key].state.Active?
    requires Within(ledger, policy)
    ensures Within(ReapRow(ledger, key), policy)
  {
    hide Within, Total;
    var row := ledger.reservations[key];
    assert Tame(row, EstimatedRow(row));
    TameRewriteKeepsLimits(ledger, key, EstimatedRow(row), policy);
    assert ReapRow(ledger, key) == Rebooked(ledger, key, EstimatedRow(row));
  }

  lemma BookKeepsLimits(ledger: Ledger, booking: Policy, request: Request, policy: Policy)
    requires ReservationKey(request.group, booking.id) !in ledger.reservations
    requires Admits(ledger, booking, request)
    requires booking.id == policy.id ==> booking == policy
    requires policy.overage.Deny?
    requires Within(ledger, policy)
    ensures Within(Book(ledger, booking, request), policy)
  {
    hide WithinAt, Exceeds;
    var key := ReservationKey(request.group, booking.id);
    var after := Book(ledger, booking, request);
    forall window: WindowKey | window.policy == policy.id ensures WithinAt(after, policy, window) {
      if window == TargetWindow(booking, request) {
        AdmittedBookingIsWithin(ledger, policy, request);
      } else {
        RewriteElsewhere(ledger, key, after.reservations[key], after, policy, window);
      }
    }
  }

  lemma AdmittedBookingIsWithin(ledger: Ledger, policy: Policy, request: Request)
    requires policy.overage.Deny? && Admits(ledger, policy, request)
    ensures WithinAt(Book(ledger, policy, request), policy, TargetWindow(policy, request))
  {
    hide Total;
    OverrunIsNonNegative(Book(ledger, policy, request).reservations, TargetWindow(policy, request));
  }

  /** Every occurrence of the policy's identifier in a run's queries is the policy itself. */
  ghost predicate PolicyIsFixed(ops: seq<Op>, policy: Policy) {
    forall i, j :: 0 <= i < |ops| && ops[i].ReserveOp? && 0 <= j < |ops[i].rows| && ops[i].rows[j].id == policy.id ==>
      ops[i].rows[j] == policy
  }

  lemma {:induction false} ReserveRowsKeepLimits(ledger: Ledger, rows: seq<Policy>, request: Request, decision: Decision, policy: Policy)
    requires OrderedById(rows)
    requires forall i :: 0 <= i < |rows| ==> ReservationKey(request.group, rows[i].id) !in ledger.reservations
    requires forall j :: 0 <= j < |rows| && rows[j].id == policy.id ==> rows[j] == policy
    requires policy.overage.Deny? && Within(ledger, policy)
    ensures var outcome := ReserveRows(ledger, rows, request, decision);
            outcome.Commit? ==> Within(outcome.ledger, policy)
    decreases |rows|
  {
    hide Within, Admits, Book, ReserveRow, Booked, Untouched;
    if rows != [] {
      ReserveRowExactly(ledger, rows[0], request, decision);
      if Admits(ledger, rows[0], request) {
        BookKeepsLimits(ledger, rows[0], request, policy);
        BookTouchesOnePolicy(ledger, rows[0], request);
        ReserveRowsKeepLimits(Book(ledger, rows[0], request), rows[1..], request,
                              ReserveRow(ledger, rows[0], request, decision).decision, policy);
      }
    }
  }

  lemma {:induction false} SettleRowsKeepLimits(ledger: Ledger, keys: seq<ReservationKey>, usage: Usage, policy: Policy)
    requires Sound(ledger) && Within(ledger, policy)
    requires forall i :: 0 <= i < |keys| ==> keys[i] in ledger.reservations
    ensures Within(SettleRows(ledger, keys, usage), policy)
    decreases |keys|
  {
    hide Conserved, Within, SettleRow;
    if keys != [] {
      SettleRowKeepsLimits(ledger, keys[0], usage, policy);
      SettleRowEffect(ledger, keys[0], usage);
      SettleRowsKeepLimits(SettleRow(ledger, keys[0], usage), keys[1..], usage, policy);
    }
  }

  lemma {:induction false} ReapRowsKeepLimits(ledger: Ledger, keys: seq<ReservationKey>, policy: Policy)
    requires Sound(ledger) && Within(ledger, policy)
    requires Distinct(keys)
    requires forall i :: 0 <= i < |keys| ==>
      keys[i] in ledger.reservations && ledger.reservations[keys[i]].state.Active?
    ensures Within(ReapRows(ledger, keys), policy)
    decreases |keys|
  {
    hide Sound, Within, ReapRow;
    if keys != [] {
      ReapRowKeepsLimits(ledger, keys[0], policy);
      ReapRowEffect(ledger, keys[0]);
      assert forall i :: 0 <= i < |keys[1..]| ==> keys[1..][i] == keys[i + 1] && keys[1..][i] != keys[0];
      ReapRowsKeepLimits(ReapRow(ledger, keys[0]), keys[1..], policy);
    }
  }

  lemma {:induction false} RunKeepsLimits(ledger: Ledger, ops: seq<Op>, policy: Policy)
    requires Sound(ledger) && Legal(ledger, ops)
    requires policy.overage.Deny? && PolicyIsFixed(ops, policy) && Within(ledger, policy)
    ensures Within(After(ledger, ops), policy)
    decreases |ops|
  {
    hide Sound, Within, ReserveRows;
    if ops != [] {
      var op := ops[0];
      ApplyIsSound(ledger, op);
      match op {
        case ReserveOp(request, rows) =>
          assert forall j :: 0 <= j < |rows| && ops[0].rows[j].id == policy.id ==> ops[0].rows[j] == policy;
          if !HasGroup(ledger.reservations, request.group) {
            ReserveRowsKeepLimits(ledger, rows, request, NO_DECISION, policy);
          }
        case SettleOp(_, usage, keys) => SettleRowsKeepLimits(ledger, keys, usage, policy);
        case ReapOp(_, _, keys) => ReapRowsKeepLimits(ledger, keys, policy);
      }
      RunKeepsLimits(Apply(ledger, op), ops[1..], policy);
    }
  }

  /**
   For a deny policy that stays as it is, no run ever takes a window past the request limit, and
   none takes its tokens or cost past the limit by more than the overruns that settlement measured.
   */
  lemma LimitsAlways(ops: seq<Op>, policy: Policy, window: WindowKey)
    requires Legal(EMPTY, ops) && PolicyIsFixed(ops, policy)
    requires policy.overage.Deny?
    requires policy.requestLimit.Some? ==> policy.requestLimit.value >= 0
    requires policy.tokenLimit.Some? ==> policy.tokenLimit.value >= 0
    requires policy.budget.Some? ==> policy.budget.value >= 0
    requires window.policy == policy.id
    ensures WithinAt(After(EMPTY, ops), policy, window)
  {
    EmptyIsSound();
    assert Within(EMPTY, policy) by {
      forall w: WindowKey ensures WithinAt(EMPTY, policy, w) {
        OverrunIsNonNegative(EMPTY.reservations, w);
      }
    }
    RunKeepsLimits(EMPTY, ops, policy);
  }

  // ---------------------------------------------------------------- confluence

  /** Conservation makes the windows a function of the reservations. */
  lemma SameRowsSameLedger(one: Ledger, two: Ledger)
    requires Sound(one) && Sound(two)
    requires one.reservations == two.reservations && one.windows.Keys == two.windows.Keys
    ensures one == two
  {
    hide Total;
    forall window | window in one.windows ensures one.windows[window] == two.windows[window] {
      assert Counted(one, window) && Counted(two, window);
    }
    assert one.windows == two.windows;
  }

  lemma EstimationThenSettlement(rows: Reservations, reaped: set<ReservationKey>, settled: set<ReservationKey>, usage: Usage)
    requires forall key :: key in reaped && key in rows ==> rows[key].state.Active?
    ensures Settlement(Estimation(rows, reaped), settled, usage) ==
            Estimation(Settlement(rows, settled, usage), reaped - settled)
  {
    hide Actual;
  }

  lemma DisjointSettlements(rows: Reservations, one: set<ReservationKey>, oneUsage: Usage,
                            two: set<ReservationKey>, twoUsage: Usage)
    requires one !! two
    ensures Settlement(Settlement(rows, one, oneUsage), two, twoUsage) ==
            Settlement(Settlement(rows, two, twoUsage), one, oneUsage)
  {
    hide Actual;
  }

  /**
   Settling a group and reaping expired rows can be swapped: the reaper then only meets the rows
   the settlement left alone. In particular an estimated row settles to the same amounts.
   */
  lemma SettleCommutesWithReap(ledger: Ledger, reaped: seq<ReservationKey>, now: int, limit: nat,
                               group: string, settled: seq<ReservationKey>, usage: Usage, rest: seq<ReservationKey>)
    requires Sound(ledger)
    requires IsReapQuery(ledger.reservations, now, limit, reaped)
    requires IsGroupQuery(ledger.reservations, group, settled)
    requires Distinct(rest) && Elements(rest) == Elements(reaped) - Elements(settled)
    ensures IsGroupQuery(ReapRows(ledger, reaped).reservations, group, settled)
    ensures forall i :: 0 <= i < |rest| ==> rest[i] in ledger.reservations
    ensures SettleRows(ReapRows(ledger, reaped), settled, usage) ==
            ReapRows(SettleRows(ledger, settled, usage), rest)
  {
    hide Sound, SettledRow, EstimatedRow;
    var estimated := ReapRows(ledger, reaped);
    ReapRowsExactly(ledger, reaped);
    SettleRowsExactly(estimated, settled, usage);
    var charged := SettleRows(ledger, settled, usage);
    SettleRowsExactly(ledger, settled, usage);
    forall i | 0 <= i < |rest| ensures rest[i] in reaped && rest[i] !in settled {
      assert rest[i] in Elements(rest);
    }
    ReapRowsExactly(charged, rest);
    EstimationThenSettlement(ledger.reservations, Elements(reaped), Elements(settled), usage);
    SameRowsSameLedger(SettleRows(estimated, settled, usage), ReapRows(charged, rest));
  }

  /** Estimating rows of a group before settling it leaves no trace in the final ledger. */
  lemma LateSettlementIsExact(ledger: Ledger, reaped: seq<ReservationKey>, now: int, limit: nat,
                              group: string, settled: seq<ReservationKey>, usage: Usage)
    requires Sound(ledger)
    requires IsReapQuery(ledger.reservations, now, limit, reaped)
    requires IsGroupQuery(ledger.reservations, group, settled)
    requires forall key :: key in reaped ==> key.group == group
    ensures IsGroupQuery(ReapRows(ledger, reaped).reservations, group, settled)
    ensures SettleRows(ReapRows(ledger, reaped), settled, usage) == SettleRows(ledger, settled, usage)
  {
    hide Sound;
    assert Elements(reaped) - Elements(settled) == {};
    SettleCommutesWithReap(ledger, reaped, now, limit, group, settled, usage, []);
  }

  lemma SettlementsCommute(ledger: Ledger, one: string, oneRows: seq<ReservationKey>, oneUsage: Usage,
                           two: string, twoRows: seq<ReservationKey>, twoUsage: Usage)
    requires Sound(ledger) && one != two
    requires IsGroupQuery(ledger.reservations, one, oneRows) && IsGroupQuery(ledger.reservations, two, twoRows)
    ensures SettleRows(SettleRows(ledger, oneRows, oneUsage), twoRows, twoUsage) ==
            SettleRows(SettleRows(ledger, twoRows, twoUsage), oneRows, oneUsage)
  {
    hide Sound, SettledRow;
    SettleRowsExactly(ledger, oneRows, oneUsage);
    SettleRowsExactly(ledger, twoRows, twoUsage);
    SettleRowsExactly(SettleRows(ledger, oneRows, oneUsage), twoRows, twoUsage);
    SettleRowsExactly(SettleRows(ledger, twoRows, twoUsage), oneRows, oneUsage);
    DisjointSettlements(ledger.reservations, Elements(oneRows), oneUsage, Elements(twoRows), twoUsage);
    SameRowsSameLedger(SettleRows(SettleRows(ledger, oneRows, oneUsage), twoRows, twoUsage),
                       SettleRows(SettleRows(ledger, twoRows, twoUsage), oneRows, oneUsage));
  }

  /** A group settles once: a repeated settlement, even with another measurement, changes nothing. */
  lemma SettlingTwiceChangesNothing(ledger: Ledger, keys: seq<ReservationKey>, usage: Usage, again: Usage)
    requires Sound(ledger)
    requires forall i :: 0 <= i < |keys| ==> keys[i] in ledger.reservations
    ensures SettleRows(SettleRows(ledger, keys, usage), keys, again) == SettleRows(ledger, keys, usage)
  {
    hide Sound, Actual;
    var once := SettleRows(ledger, keys, usage);
    SettleRowsExactly(ledger, keys, usage);
    SettleRowsExactly(once, keys, again);
    assert Settlement(once.reservations, Elements(keys), again) == once.reservations;
    SameRowsSameLedger(SettleRows(once, keys, again), once);
  }

  /**
   Reserve commits exactly when the group is known already or every policy admits it; a refusal
   leaves the ledger as it was, and once a group holds a row, reserving it again changes nothing.
   */
  lemma ReserveExactly(ledger: Ledger, rows: seq<Policy>, request: Request)
    requires Sound(ledger) && OrderedById(rows)
    ensures var outcome := ReserveGroup(ledger, rows, request);
            && (outcome.Commit? <==> HasGroup(ledger.reservations, request.group) || AllAdmit(ledger, rows, request))
            && (outcome.Rollback? ==> Committed(ledger, outcome) == ledger)
            && (HasGroup(ledger.reservations, request.group) ==> outcome.ledger == ledger)
            && (outcome.Commit? && rows != [] ==> HasGroup(outcome.ledger.reservations, request.group))
  {
    hide Sound, Admits;
    if !HasGroup(ledger.reservations, request.group) {
      ReserveRowsExactly(ledger, rows, request, NO_DECISION);
      var outcome := ReserveRows(ledger, rows, request, NO_DECISION);
      if outcome.Commit? && rows != [] {
        assert Booked(ledger, outcome.ledger, rows[0], request);
      }
    }
  }
}
