/**
 What Reserve, Settle and ReapExpired do, in plain integers over the tables before and after:
 when a request is admitted, what it is charged, and how the window counters move.
 */
module QuotaMeaning {
  import opened Wrappers
  import opened QuotaLedger
  import opened QuotaTheorems

  // ---------------------------------------------------------------- windows of time

  /** The length of a period, except for months, whose start the calendar gives. */
  function Length(period: Period): nat {
    match period
    case Minute => 60
    case Hour => 60 * 60
    case Day => 24 * 60 * 60
    case Month => 0
  }

  /** The window start is the only whole number of periods that is not later than now by a period or more. */
  lemma PeriodStartExactly(at: int, period: Period, monthStart: int, start: int)
    ensures period.Month? ==> PeriodStart(at, period, monthStart) == monthStart
    ensures !period.Month? ==>
              (start == PeriodStart(at, period, monthStart) <==>
               start % Length(period) == 0 && start <= at < start + Length(period))
  {
    if !period.Month? {
      OnlyMultiple(at, Length(period), start);
    }
  }

  lemma OnlyMultiple(at: int, length: nat, start: int)
    requires length > 0
    ensures start == at - at % length <==> start % length == 0 && start <= at < start + length
  {
    var q, k := at / length, start / length;
    assert at == q * length + at % length && start == k * length + start % length;
    assert (at - at % length) % length == 0 by {
      MultipleHasNoRemainder(q, length);
    }
    if start % length == 0 && start <= at < start + length {
      if k < q {
        assert (q - k) * length >= length by { OneOrMore(q - k, length); }
      } else if k > q {
        assert (k - q) * length >= length by { OneOrMore(k - q, length); }
      }
    }
  }

  lemma OneOrMore(factor: int, length: nat)
    requires factor >= 1
    ensures factor * length >= length
  {
  }

  lemma MultipleHasNoRemainder(factor: int, length: nat)
    requires length > 0
    ensures factor * length % length == 0
  {
    var x := factor * length;
    var q, r := x / length, x % length;
    assert x == q * length + r;
    assert (factor - q) * length == r;
    if factor - q >= 1 {
      OneOrMore(factor - q, length);
    } else if factor - q <= -1 {
      OneOrMore(q - factor, length);
    }
  }

  // ---------------------------------------------------------------- admission

  predicate Columns64(amounts: Amounts) {
    IsInt64(amounts.requests) && IsInt64(amounts.tokens) && IsInt64(amounts.cost)
  }

  predicate Window64(window: Window) {
    Columns64(window.settled) && Columns64(window.reserved)
  }

  predicate Request64(request: Request) {
    IsInt64(request.tokens) && (request.cost.Some? ==> IsInt64(request.cost.value))
  }

  /** What is settled and reserved, with the new amount, is within the limit and within 64 bits. */
  predicate Fits(limit: Option<int>, settled: int, reserved: int, incoming: int) {
    match limit
    case None => true
    case Some(cap) =>
      && MIN_INT64 <= settled + reserved <= MAX_INT64
      && MIN_INT64 <= settled + reserved + incoming <= MAX_INT64
      && settled + reserved + incoming <= cap
  }

  /** The cost a policy reserves: only a policy with a budget asks for it. */
  function CostFor(policy: Policy, request: Request): int {
    if policy.budget.Some? && request.cost.Some? then request.cost.value else 0
  }

  /** A window has room for a request under a policy. */
  predicate HasRoom(window: Window, policy: Policy, request: Request) {
    && Fits(policy.requestLimit, window.settled.requests, window.reserved.requests, 1)
    && Fits(policy.tokenLimit, window.settled.tokens, window.reserved.tokens, request.tokens)
    && Fits(policy.budget, window.settled.cost, window.reserved.cost, CostFor(policy, request))
  }

  lemma LimitExactly(limit: Option<int>, settled: int, reserved: int, incoming: int)
    requires IsInt64(settled) && IsInt64(reserved) && IsInt64(incoming)
    ensures ExceedsLimit(limit, settled, reserved, incoming) <==> !Fits(limit, settled, reserved, incoming)
  {
  }

  /** Limits are passed exactly when the window, whose counters are 64-bit columns, has no room. */
  lemma PassedExactly(ledger: Ledger, policy: Policy, request: Request)
    requires Window64(WindowAt(ledger, TargetWindow(policy, request))) && Request64(request)
    ensures Passed(ledger, policy, request) <==>
            !HasRoom(WindowAt(ledger, TargetWindow(policy, request)), policy, request)
  {
    var window := WindowAt(ledger, TargetWindow(policy, request));
    LimitExactly(policy.requestLimit, window.settled.requests, window.reserved.requests, 1);
    LimitExactly(policy.tokenLimit, window.settled.tokens, window.reserved.tokens, request.tokens);
    LimitExactly(policy.budget, window.settled.cost, window.reserved.cost, CostFor(policy, request));
    hide ExceedsLimit, Fits;
  }

  /**
   A policy lets a request through: under deny its cost must be known and the window must have
   room; under any policy the reserved counters must stay within 64 bits.
   */
  predicate LetsThrough(window: Window, policy: Policy, request: Request) {
    && (policy.overage.Deny? ==> (policy.budget.Some? ==> request.cost.Some?) && HasRoom(window, policy, request))
    && MIN_INT64 <= window.reserved.tokens + request.tokens <= MAX_INT64
    && MIN_INT64 <= window.reserved.cost + CostFor(policy, request) <= MAX_INT64
  }

  lemma AdmitsExactly(ledger: Ledger, policy: Policy, request: Request)
    requires Window64(WindowAt(ledger, TargetWindow(policy, request))) && Request64(request)
    ensures Admits(ledger, policy, request) <==>
            LetsThrough(WindowAt(ledger, TargetWindow(policy, request)), policy, request)
  {
    PassedExactly(ledger, policy, request);
    hide Exceeds, HasRoom;
  }

  /** The window a policy holds a request against. */
  ghost predicate IsWindowOf(key: WindowKey, policy: Policy, request: Request) {
    && key.policy == policy.id
    && (policy.period.Month? ==> key.start == request.monthStart)
    && (!policy.period.Month? ==>
          key.start % Length(policy.period) == 0 && key.start <= request.now < key.start + Length(policy.period))
  }

  lemma TargetExactly(policy: Policy, request: Request, key: WindowKey)
    ensures key == TargetWindow(policy, request) <==> IsWindowOf(key, policy, request)
  {
    PeriodStartExactly(request.now, policy.period, request.monthStart, key.start);
    hide PeriodStart;
  }

  ghost predicate AllLetThrough(ledger: Ledger, rows: seq<Policy>, request: Request) {
    forall i, key | 0 <= i < |rows| && IsWindowOf(key, rows[i], request) ::
      LetsThrough(WindowAt(ledger, key), rows[i], request)
  }

  ghost predicate Ledger64(ledger: Ledger) {
    forall key | key in ledger.windows :: Window64(ledger.windows[key])
  }

  /**
   Reserve commits a new group exactly when every policy lets it through; in particular a
   request that fits every limit of every policy is never turned away.
   */
  lemma ReserveAdmitsExactly(ledger: Ledger, rows: seq<Policy>, request: Request)
    requires Sound(ledger) && Ledger64(ledger) && Request64(request) && OrderedById(rows)
    requires !HasGroup(ledger.reservations, request.group)
    ensures ReserveGroup(ledger, rows, request).Commit? <==> AllLetThrough(ledger, rows, request)
  {
    hide Sound, Admits, LetsThrough;
    ReserveExactly(ledger, rows, request);
    hide ReserveGroup;
    forall i | 0 <= i < |rows|
      ensures Admits(ledger, rows[i], request) <==>
              forall key | IsWindowOf(key, rows[i], request) :: LetsThrough(WindowAt(ledger, key), rows[i], request)
    {
      var target := TargetWindow(rows[i], request);
      AdmitsExactly(ledger, rows[i], request);
      forall key ensures key == target <==> IsWindowOf(key, rows[i], request) {
        TargetExactly(rows[i], request, key);
      }
    }
  }

  /** A refusal for a limit means that the limit really is reached, and a committed row records whether it was. */
  lemma RefusedForALimitExactly(ledger: Ledger, policy: Policy, request: Request)
    requires Window64(WindowAt(ledger, TargetWindow(policy, request))) && Request64(request)
    ensures Refusal(ledger, policy, request) == Exceeded <==>
            policy.overage.Deny? && (policy.budget.Some? ==> request.cost.Some?) &&
            !HasRoom(WindowAt(ledger, TargetWindow(policy, request)), policy, request)
  {
    PassedExactly(ledger, policy, request);
    hide Passed, HasRoom;
  }

  // ---------------------------------------------------------------- bookings

  /** A committed reservation, in plain integers: one request, its tokens and its cost are now reserved. */
  lemma BookedPlainly(ledger: Ledger, after: Ledger, policy: Policy, request: Request)
    requires Booked(ledger, after, policy, request)
    ensures var key := ReservationKey(request.group, policy.id);
            var window := TargetWindow(policy, request);
            && key in after.reservations
            && var row := after.reservations[key];
               && row.window == window && row.state == Active && row.actual == None
               && row.reserved == Amounts(1, request.tokens, CostFor(policy, request))
               && row.expiresAt == request.now + request.ttl
               && var before, now := WindowAt(ledger, window), WindowAt(after, window);
                  && now.settled == before.settled
                  && now.reserved.requests == before.reserved.requests + 1
                  && now.reserved.tokens == before.reserved.tokens + request.tokens
                  && now.reserved.cost == before.reserved.cost + CostFor(policy, request)
  {
    hide Exceeds;
  }

  // ---------------------------------------------------------------- charges

  /** What was measured, else what was reserved if an upstream was tried, else nothing. */
  predicate Charge(measured: Option<int>, attempts: nat, reserved: int, charge: int) {
    match measured
    case Some(value) => charge == value
    case None => (attempts > 0 ==> charge == reserved) && (attempts == 0 ==> charge == 0)
  }

  /** A row before and after its group was settled. */
  predicate SettledPlainly(before: Reservation, after: Reservation, usage: Usage) {
    if before.state.Settled? then after == before
    else
      && after.window == before.window && after.reserved == before.reserved
      && after.exceeded == before.exceeded && after.expiresAt == before.expiresAt
      && after.state == Settled && after.actual.Some?
      && after.actual.value.requests == 1
      && Charge(usage.totalTokens, usage.attempts, before.reserved.tokens, after.actual.value.tokens)
      && Charge(usage.quote, usage.attempts, before.reserved.cost, after.actual.value.cost)
  }

  /** How a counter pair moves when a row is settled with a charge. */
  predicate CountersMove(
    state: ReservationState, reserved: int, charge: int,
    oldSettled: int, newSettled: int, oldReserved: int, newReserved: int)
  {
    match state
    case Active => newReserved == oldReserved - reserved && newSettled == oldSettled + charge
    case Estimated => newReserved == oldReserved && newSettled == oldSettled - reserved + charge
    case Settled => newReserved == oldReserved && newSettled == oldSettled
  }

  predicate WindowMoves(row: Reservation, charge: Amounts, before: Window, after: Window) {
    && CountersMove(row.state, row.reserved.requests, charge.requests,
                    before.settled.requests, after.settled.requests, before.reserved.requests, after.reserved.requests)
    && CountersMove(row.state, row.reserved.tokens, charge.tokens,
                    before.settled.tokens, after.settled.tokens, before.reserved.tokens, after.reserved.tokens)
    && CountersMove(row.state, row.reserved.cost, charge.cost,
                    before.settled.cost, after.settled.cost, before.reserved.cost, after.reserved.cost)
  }

  lemma RowSettlesPlainly(row: Reservation, usage: Usage)
    ensures SettledPlainly(row, SettledRow(row, usage), usage)
  {
  }

  /** Settling a list of rows charges exactly those that were not settled, with what was measured. */
  lemma SettleChargesPlainly(ledger: Ledger, keys: seq<ReservationKey>, usage: Usage)
    requires Sound(ledger)
    requires forall i :: 0 <= i < |keys| ==> keys[i] in ledger.reservations
    ensures var after := SettleRows(ledger, keys, usage).reservations;
            && after.Keys == ledger.reservations.Keys
            && (forall key | key in keys && key in after :: SettledPlainly(ledger.reservations[key], after[key], usage))
            && (forall key | key in after && key !in keys :: after[key] == ledger.reservations[key])
  {
    SettleRowsExactly(ledger, keys, usage);
    hide Sound, SettleRows, SettledRow, SettledPlainly;
    var after := SettleRows(ledger, keys, usage).reservations;
    forall key | key in keys && key in after ensures SettledPlainly(ledger.reservations[key], after[key], usage) {
      RowSettlesPlainly(ledger.reservations[key], usage);
      assert key in Elements(keys);
    }
  }

  /** The rows of one group lie in windows of different policies. */
  predicate OnePerPolicy(ledger: Ledger, keys: seq<ReservationKey>) {
    && (forall i | 0 <= i < |keys| :: keys[i] in ledger.reservations)
    && (forall i | 0 <= i < |keys| :: ledger.reservations[keys[i]].window.policy == keys[i].policy)
    && (forall i, j | 0 <= i < j < |keys| :: keys[i].policy != keys[j].policy)
  }

  /** The amounts a row counts for once it is settled. */
  function ChargeOf(row: Reservation, usage: Usage): Amounts {
    if SettledRow(row, usage).actual.Some? then SettledRow(row, usage).actual.value else ZERO
  }

  lemma OneRowMoves(ledger: Ledger, key: ReservationKey, usage: Usage)
    requires key in ledger.reservations
    ensures var row := ledger.reservations[key];
            var after := SettleRow(ledger, key, usage);
            && WindowMoves(row, ChargeOf(row, usage), WindowAt(ledger, row.window), WindowAt(after, row.window))
            && (forall window | window != row.window :: WindowAt(after, window) == WindowAt(ledger, window))
            && (forall other | other in ledger.reservations && other != key ::
                  other in after.reservations && after.reservations[other] == ledger.reservations[other])
  {
    hide Actual;
  }

  /** The window of one row moves by that row's charge. */
  predicate MovesAt(ledger: Ledger, after: Ledger, key: ReservationKey, usage: Usage) {
    key in ledger.reservations &&
    var row := ledger.reservations[key];
    WindowMoves(row, ChargeOf(row, usage), WindowAt(ledger, row.window), WindowAt(after, row.window))
  }

  ghost predicate Elsewhere(keys: seq<ReservationKey>, window: WindowKey) {
    forall i | 0 <= i < |keys| :: keys[i].policy != window.policy
  }

  ghost predicate AllMove(ledger: Ledger, after: Ledger, keys: seq<ReservationKey>, usage: Usage) {
    && (forall i | 0 <= i < |keys| :: MovesAt(ledger, after, keys[i], usage))
    && (forall window | Elsewhere(keys, window) :: WindowAt(after, window) == WindowAt(ledger, window))
  }

  lemma LaterRowMoves(ledger: Ledger, next: Ledger, after: Ledger, key: ReservationKey, usage: Usage)
    requires key in ledger.reservations && key in next.reservations && MovesAt(next, after, key, usage)
    requires next.reservations[key] == ledger.reservations[key]
    requires WindowAt(next, ledger.reservations[key].window) == WindowAt(ledger, ledger.reservations[key].window)
    ensures MovesAt(ledger, after, key, usage)
  {
  }

  lemma {:induction false} AllRowsMove(ledger: Ledger, keys: seq<ReservationKey>, usage: Usage)
    requires OnePerPolicy(ledger, keys)
    ensures AllMove(ledger, SettleRows(ledger, keys, usage), keys, usage)
    decreases |keys|
  {
    if keys != [] {
      var next, rest := SettleRow(ledger, keys[0], usage), keys[1..];
      OneRowMoves(ledger, keys[0], usage);
      hide SettleRow, WindowMoves, ChargeOf, WindowAt;
      assert OnePerPolicy(next, rest);
      AllRowsMove(next, rest, usage);
      var after := SettleRows(next, rest, usage);
      var first := ledger.reservations[keys[0]].window;
      assert Elsewhere(rest, first);
      forall i | 0 <= i < |keys| ensures MovesAt(ledger, after, keys[i], usage) {
        if i > 0 {
          assert rest[i - 1] == keys[i];
          hide MovesAt;
          LaterRowMoves(ledger, next, after, keys[i], usage);
        }
      }
      forall window | Elsewhere(keys, window) ensures WindowAt(after, window) == WindowAt(ledger, window) {
        assert Elsewhere(rest, window) && keys[0].policy != window.policy;
      }
    }
  }

  /**
   Settling a group: the window of every row moves by exactly that row's charge, an active row
   leaving the reserved counters and an estimated one its estimate, and all other windows stay.
   */
  lemma SettleMovesWindows(ledger: Ledger, group: string, keys: seq<ReservationKey>, usage: Usage)
    requires Sound(ledger) && IsGroupQuery(ledger.reservations, group, keys)
    ensures var after := SettleRows(ledger, keys, usage);
            && (forall i | 0 <= i < |keys| ::
                  keys[i] in ledger.reservations && keys[i] in after.reservations &&
                  var row, settled := ledger.reservations[keys[i]], after.reservations[keys[i]];
                  settled.actual.Some? &&
                  WindowMoves(row, settled.actual.value, WindowAt(ledger, row.window), WindowAt(after, row.window)))
            && (forall window | Elsewhere(keys, window) :: WindowAt(after, window) == WindowAt(ledger, window))
  {
    assert OnePerPolicy(ledger, keys) by {
      hide Conserved;
    }
    AllRowsMove(ledger, keys, usage);
    SettleRowsExactly(ledger, keys, usage);
    var after := SettleRows(ledger, keys, usage);
    forall i | 0 <= i < |keys|
      ensures keys[i] in after.reservations && after.reservations[keys[i]].actual == Some(ChargeOf(ledger.reservations[keys[i]], usage))
    {
      assert keys[i] in Elements(keys);
      assert WellFormedRow(keys[i], ledger.reservations[keys[i]]);
    }
    assert forall i | 0 <= i < |keys| :: MovesAt(ledger, after, keys[i], usage);
    hide Sound, SettleRows, WindowMoves, ChargeOf, WindowAt, IsGroupQuery;
  }

  /** A reaped row becomes an estimate of what it had reserved, which moves from reserved to settled. */
  lemma ReapPlainly(ledger: Ledger, key: ReservationKey)
    requires key in ledger.reservations && ledger.reservations[key].state.Active?
    ensures var row := ledger.reservations[key];
            var after := ReapRow(ledger, key);
            && after.reservations.Keys == ledger.reservations.Keys
            && (forall other | other in ledger.reservations && other != key ::
                  after.reservations[other] == ledger.reservations[other])
            && var reaped := after.reservations[key];
               && reaped.state == Estimated && reaped.actual == Some(row.reserved)
               && reaped.window == row.window && reaped.reserved == row.reserved
               && reaped.exceeded == row.exceeded && reaped.expiresAt == row.expiresAt
               && WindowMoves(row, row.reserved, WindowAt(ledger, row.window), WindowAt(after, row.window))
               && (forall window | window != row.window :: WindowAt(after, window) == WindowAt(ledger, window))
  {
  }
}
