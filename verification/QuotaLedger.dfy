/**
 The quota ledger: reservations against per-policy windows, later settled with actual
 amounts or turned into estimates by the reaper (internal/quota/manager.go).

 Rows live in two tables, windows and reservations. A transaction either commits the
 ledger it has built or leaves the old one in place.
 */
module QuotaLedger {
  import opened Wrappers

  const MAX_INT64: int := 0x7fff_ffff_ffff_ffff
  const MIN_INT64: int := -0x8000_0000_0000_0000

  /** Policy identifiers are UUIDs, which the database orders as 128-bit numbers. */
  type PolicyId = nat

  /** Requests, tokens and cost in nano-USD: the three counters every row carries. */
  datatype Amounts = Amounts(requests: int, tokens: int, cost: int) {
    function Plus(other: Amounts): Amounts {
      Amounts(requests + other.requests, tokens + other.tokens, cost + other.cost)
    }

    function Minus(other: Amounts): Amounts {
      Amounts(requests - other.requests, tokens - other.tokens, cost - other.cost)
    }
  }

  const ZERO := Amounts(0, 0, 0)

  datatype Period = Minute | Hour | Day | Month

  datatype Overage = Deny | Allow | Alert

  datatype Policy = Policy(
    id: PolicyId,
    tenant: string,
    model: string,
    period: Period,
    requestLimit: Option<int>,
    tokenLimit: Option<int>,
    budget: Option<int>,
    overage: Overage,
    enabled: bool)

  datatype WindowKey = WindowKey(policy: PolicyId, start: int)

  datatype Window = Window(settled: Amounts, reserved: Amounts)

  /** The unique index over group and policy identifies a reservation. */
  datatype ReservationKey = ReservationKey(group: string, policy: PolicyId)

  datatype ReservationState = Active | Settled | Estimated

  datatype Reservation = Reservation(
    window: WindowKey,
    reserved: Amounts,
    actual: Option<Amounts>,
    state: ReservationState,
    exceeded: bool,
    expiresAt: int)

  type Reservations = map<ReservationKey, Reservation>

  datatype Ledger = Ledger(windows: map<WindowKey, Window>, reservations: Reservations)

  const EMPTY := Ledger(map[], map[])

  /** One call of Reserve. `cost` is what estimateCost returned: a known maximum or nothing. */
  datatype Request = Request(
    group: string,
    tenant: string,
    model: string,
    tokens: int,
    cost: Option<int>,
    now: int,
    monthStart: int,
    ttl: int)

  /** The arguments of Reserve, identifiers trimmed; `quotes` are the prices of the route's candidates. */
  datatype ReserveInput = ReserveInput(
    group: string,
    tenant: string,
    model: string,
    inputTokens: int,
    outputTokens: int,
    quotes: seq<Option<int>>)

  /** What Settle learns about the finished request; `quote` is the price catalog's answer for it. */
  datatype Usage = Usage(totalTokens: Option<int>, attempts: nat, quote: Option<int>)

  datatype Error = InvalidInput | EstimateOverflow | Exceeded | CostUnknown | CounterOverflow

  datatype Notice = CostUnknownNotice(policy: PolicyId) | ExceededNotice(policy: PolicyId)

  datatype Decision = Decision(exceeded: bool, alerts: seq<Notice>, applied: nat)

  /** What the body of the Reserve transaction reached: a ledger to commit, or an error. */
  datatype Outcome =
    | Commit(ledger: Ledger, decision: Decision)
    | Rollback(error: Error, decision: Decision)

  // ---------------------------------------------------------------- arithmetic

  predicate IsInt64(x: int) { MIN_INT64 <= x <= MAX_INT64 }

  /** Checked 64-bit addition: the sum when it fits, nothing when it would wrap. */
  function Add(left: int, right: int): (r: Option<int>)
    ensures IsInt64(left) && IsInt64(right) ==> (r.Some? <==> IsInt64(left + right))
    ensures r.Some? ==> r.value == left + right
  {
    if right > 0 && left > MAX_INT64 - right then None
    else if right < 0 && left < MIN_INT64 - right then None
    else Some(left + right)
  }

  /** Whether `incoming` on top of what is settled and reserved passes the limit. */
  predicate ExceedsLimit(limit: Option<int>, settled: int, reserved: int, incoming: int) {
    match limit
    case None => false
    case Some(cap) =>
      var held := Add(settled, reserved);
      if held.None? then true
      else
        var total := Add(held.value, incoming);
        total.None? || total.value > cap
  }

  predicate Exceeds(policy: Policy, window: Window, incoming: Amounts) {
    || ExceedsLimit(policy.requestLimit, window.settled.requests, window.reserved.requests, incoming.requests)
    || ExceedsLimit(policy.tokenLimit, window.settled.tokens, window.reserved.tokens, incoming.tokens)
    || ExceedsLimit(policy.budget, window.settled.cost, window.reserved.cost, incoming.cost)
  }

  /** The start of the window that holds `at`; months are given by the calendar. */
  function PeriodStart(at: int, period: Period, monthStart: int): int {
    match period
    case Minute => at - at % 60
    case Hour => at - at % 3600
    case Day => at - at % 86400
    case Month => monthStart
  }

  // ---------------------------------------------------------------- transactions

  /** lockWindow creates a missing window with zero counters before locking it. */
  function WindowAt(ledger: Ledger, key: WindowKey): Window {
    if key in ledger.windows then ledger.windows[key] else Window(ZERO, ZERO)
  }

  predicate HasGroup(reservations: Reservations, group: string) {
    exists key :: key in reservations && key.group == group
  }

  function Incoming(policy: Policy, request: Request): Amounts {
    Amounts(1, request.tokens,
            if policy.budget.Some? && request.cost.Some? then request.cost.value else 0)
  }

  function TargetWindow(policy: Policy, request: Request): WindowKey {
    WindowKey(policy.id, PeriodStart(request.now, policy.period, request.monthStart))
  }

  /** The reservation and window rows that one policy adds. */
  function Book(ledger: Ledger, policy: Policy, request: Request): Ledger {
    var key := TargetWindow(policy, request);
    var window := WindowAt(ledger, key);
    var incoming := Incoming(policy, request);
    Ledger(
      ledger.windows[key := window.(reserved := window.reserved.Plus(incoming))],
      ledger.reservations[
        ReservationKey(request.group, policy.id) :=
          Reservation(key, incoming, None, Active, Exceeds(policy, window, incoming), request.now + request.ttl)])
  }

  function ReserveRow(ledger: Ledger, policy: Policy, request: Request, before: Decision): Outcome {
    var decision := before.(applied := before.applied + 1);
    var window := WindowAt(ledger, TargetWindow(policy, request));
    var incoming := Incoming(policy, request);
    var blind := policy.budget.Some? && request.cost.None?;
    if blind && policy.overage.Deny? then
      Rollback(CostUnknown, decision)
    else
      var noted := if blind then decision.(alerts := decision.alerts + [CostUnknownNotice(policy.id)]) else decision;
      var exceeded := Exceeds(policy, window, incoming);
      var judged :=
        if !exceeded then noted
        else if policy.overage.Alert? then
          noted.(exceeded := true, alerts := noted.alerts + [ExceededNotice(policy.id)])
        else noted.(exceeded := true);
      if exceeded && policy.overage.Deny? then
        Rollback(Exceeded, judged)
      else if Add(window.reserved.tokens, incoming.tokens).None? || Add(window.reserved.cost, incoming.cost).None? then
        Rollback(CounterOverflow, judged)
      else
        Commit(Book(ledger, policy, request), judged)
  }

  function ReserveRows(ledger: Ledger, rows: seq<Policy>, request: Request, decision: Decision): Outcome
    decreases |rows|
  {
    if rows == [] then Commit(ledger, decision)
    else
      match ReserveRow(ledger, rows[0], request, decision)
      case Rollback(error, reached) => Rollback(error, reached)
      case Commit(next, reached) => ReserveRows(next, rows[1..], request, reached)
  }

  const NO_DECISION := Decision(false, [], 0)

  /** The whole Reserve transaction: a group that already has rows is left alone. */
  function ReserveGroup(ledger: Ledger, rows: seq<Policy>, request: Request): Outcome {
    if HasGroup(ledger.reservations, request.group) then Commit(ledger, NO_DECISION)
    else ReserveRows(ledger, rows, request, NO_DECISION)
  }

  function Committed(ledger: Ledger, outcome: Outcome): Ledger {
    match outcome
    case Commit(next, _) => next
    case Rollback(_, _) => ledger
  }

  /** What a finished request is charged: measured values, or the reservation when nothing was measured. */
  function Actual(usage: Usage, reserved: Amounts): Amounts {
    Amounts(
      1,
      if usage.totalTokens.Some? then usage.totalTokens.value
      else if usage.attempts > 0 then reserved.tokens else 0,
      if usage.quote.Some? then usage.quote.value
      else if usage.attempts > 0 then reserved.cost else 0)
  }

  function SettledRow(row: Reservation, usage: Usage): Reservation {
    if row.state.Settled? then row
    else row.(state := Settled, actual := Some(Actual(usage, row.reserved)))
  }

  function SettleRow(ledger: Ledger, key: ReservationKey, usage: Usage): Ledger
    requires key in ledger.reservations
  {
    var row := ledger.reservations[key];
    if row.state.Settled? then ledger
    else
      var window := WindowAt(ledger, row.window);
      var released :=
        if row.state.Active? then window.(reserved := window.reserved.Minus(row.reserved))
        else window.(settled := window.settled.Minus(row.reserved));
      var charged := released.(settled := released.settled.Plus(Actual(usage, row.reserved)));
      Ledger(ledger.windows[row.window := charged], ledger.reservations[key := SettledRow(row, usage)])
  }

  function SettleRows(ledger: Ledger, keys: seq<ReservationKey>, usage: Usage): (r: Ledger)
    requires forall i :: 0 <= i < |keys| ==> keys[i] in ledger.reservations
    ensures r.reservations.Keys == ledger.reservations.Keys
    decreases |keys|
  {
    if keys == [] then ledger else SettleRows(SettleRow(ledger, keys[0], usage), keys[1..], usage)
  }

  function EstimatedRow(row: Reservation): Reservation {
    row.(state := Estimated, actual := Some(row.reserved))
  }

  function ReapRow(ledger: Ledger, key: ReservationKey): Ledger
    requires key in ledger.reservations
  {
    var row := ledger.reservations[key];
    var window := WindowAt(ledger, row.window);
    Ledger(
      ledger.windows[row.window :=
        Window(window.settled.Plus(row.reserved), window.reserved.Minus(row.reserved))],
      ledger.reservations[key := EstimatedRow(row)])
  }

  function ReapRows(ledger: Ledger, keys: seq<ReservationKey>): (r: Ledger)
    requires forall i :: 0 <= i < |keys| ==> keys[i] in ledger.reservations
    ensures r.reservations.Keys == ledger.reservations.Keys
    decreases |keys|
  {
    if keys == [] then ledger else ReapRows(ReapRow(ledger, keys[0]), keys[1..])
  }

  // ---------------------------------------------------------------- queries

  predicate Distinct<T(==)>(s: seq<T>) {
    forall i, j :: 0 <= i < j < |s| ==> s[i] != s[j]
  }

  /** The policies an incoming request is held to. */
  predicate Matches(policy: Policy, tenant: string, model: string) {
    policy.tenant == tenant && policy.enabled && (policy.model == "*" || policy.model == model)
  }

  /** Rows of the policy query come ordered by their primary key. */
  predicate OrderedById(rows: seq<Policy>) {
    forall i, j :: 0 <= i < j < |rows| ==> rows[i].id < rows[j].id
  }

  /** `keys` lists the reservations of a group, each once, in policy order. */
  ghost predicate IsGroupQuery(reservations: Reservations, group: string, keys: seq<ReservationKey>) {
    && (forall i, j :: 0 <= i < j < |keys| ==> keys[i].policy < keys[j].policy)
    && (forall key :: key in keys <==> key in reservations && key.group == group)
  }

  /** `keys` is a result the reaper's query may give: expired active rows, oldest first, others possibly locked. */
  ghost predicate IsReapQuery(reservations: Reservations, now: int, limit: nat, keys: seq<ReservationKey>) {
    && |keys| <= limit
    && Distinct(keys)
    && (forall i :: 0 <= i < |keys| ==>
        && keys[i] in reservations
        && reservations[keys[i]].state.Active?
        && reservations[keys[i]].expiresAt <= now)
    && (forall i, j :: 0 <= i < j < |keys| ==>
        reservations[keys[i]].expiresAt <= reservations[keys[j]].expiresAt)
  }

  // ---------------------------------------------------------------- the manager

  /** The manager over the two tables. Query results are handed in by the database. */
  class Manager {
    var windows: map<WindowKey, Window>
    var reservations: Reservations

    ghost function Contents(): Ledger
      reads this
    {
      Ledger(windows, reservations)
    }

    constructor ()
      ensures Contents() == EMPTY
    {
      windows, reservations := map[], map[];
    }

    /**
     Reserve in front of its transaction: invalid arguments are refused, a request no indexed policy
     holds passes at once, and the estimates are added with a check.
     */
    method Reserve(
      input: ReserveInput, indexed: bool, rows: seq<Policy>, now: int, monthStart: int, ttl: int)
      returns (decision: Decision, error: Option<Error>)
      requires OrderedById(rows)
      requires forall i :: 0 <= i < |rows| ==> Matches(rows[i], input.tenant, input.model)
      modifies this
      ensures !ValidInput(input) <==> error == Some(InvalidInput)
      ensures ValidInput(input) && !indexed ==> error == None
      ensures !ValidInput(input) || !indexed ==> decision == NO_DECISION && Contents() == old(Contents())
      ensures ValidInput(input) && indexed ==>
                var tokens := Add(input.inputTokens, input.outputTokens);
                if tokens.None? then
                  error == Some(EstimateOverflow) && decision == NO_DECISION && Contents() == old(Contents())
                else
                  exists cost :: IsEstimate(input.quotes, cost) &&
                    var request := Request(input.group, input.tenant, input.model, tokens.value, cost, now, monthStart, ttl);
                    var outcome := ReserveGroup(old(Contents()), rows, request);
                    && decision == outcome.decision
                    && error == (if outcome.Rollback? then Some(outcome.error) else None)
                    && Contents() == Committed(old(Contents()), outcome)
    {
      if input.group == "" || input.tenant == "" || input.model == "" || input.inputTokens < 0 || input.outputTokens < 0 {
        return NO_DECISION, Some(InvalidInput);
      }
      if !indexed {
        return NO_DECISION, None;
      }
      var tokens := Add(input.inputTokens, input.outputTokens);
      if tokens.None? {
        return NO_DECISION, Some(EstimateOverflow);
      }
      var cost, known := EstimateCost(input.quotes);
      ghost var estimate := if known then Some(cost) else None;
      assert IsEstimate(input.quotes, estimate);
      var request := Request(input.group, input.tenant, input.model, tokens.value,
                             if known then Some(cost) else None, now, monthStart, ttl);
      ReservesOrRefuses(Contents(), rows, request);
      decision, error := ReserveTransaction(request, rows);
    }

    method ReserveTransaction(request: Request, rows: seq<Policy>) returns (decision: Decision, error: Option<Error>)
      requires OrderedById(rows)
      requires forall i :: 0 <= i < |rows| ==> Matches(rows[i], request.tenant, request.model)
      modifies this
      ensures var outcome := ReserveGroup(old(Contents()), rows, request);
              && decision == outcome.decision
              && error == (if outcome.Rollback? then Some(outcome.error) else None)
              && Contents() == Committed(old(Contents()), outcome)
    {
      decision := NO_DECISION;
      if exists key :: key in reservations && key.group == request.group {
        return decision, None;
      }
      var work := Ledger(windows, reservations);
      var i := 0;
      while i < |rows|
        invariant 0 <= i <= |rows|
        invariant ReserveRows(work, rows[i..], request, decision) ==
                  ReserveRows(old(Contents()), rows, request, NO_DECISION)
        invariant Contents() == old(Contents())
      {
        assert rows[i..][0] == rows[i] && rows[i..][1..] == rows[i + 1..];
        match ReserveRow(work, rows[i], request, decision)
        case Rollback(failed, reached) =>
          return reached, Some(failed);
        case Commit(next, reached) =>
          work, decision := next, reached;
        i := i + 1;
      }
      windows, reservations := work.windows, work.reservations;
      error := None;
    }

    method Settle(group: string, usage: Usage, keys: seq<ReservationKey>)
      requires IsGroupQuery(reservations, group, keys)
      modifies this
      ensures forall i :: 0 <= i < |keys| ==> keys[i] in old(reservations)
      ensures Contents() == SettleRows(old(Contents()), keys, usage)
    {
      var work := Ledger(windows, reservations);
      var i := 0;
      while i < |keys|
        invariant 0 <= i <= |keys|
        invariant work.reservations.Keys == reservations.Keys
        invariant forall j :: 0 <= j < |keys| ==> keys[j] in reservations
        invariant SettleRows(work, keys[i..], usage) == SettleRows(old(Contents()), keys, usage)
      {
        assert keys[i..][0] == keys[i] && keys[i..][1..] == keys[i + 1..];
        work := SettleRow(work, keys[i], usage);
        i := i + 1;
      }
      windows, reservations := work.windows, work.reservations;
    }

    method ReapExpired(now: int, limit: nat, keys: seq<ReservationKey>) returns (processed: nat)
      requires IsReapQuery(reservations, now, limit, keys)
      modifies this
      ensures processed == |keys|
      ensures Contents() == ReapRows(old(Contents()), keys)
    {
      var work := Ledger(windows, reservations);
      processed := 0;
      while processed < |keys|
        invariant 0 <= processed <= |keys|
        invariant work.reservations.Keys == reservations.Keys
        invariant ReapRows(work, keys[processed..]) == ReapRows(old(Contents()), keys)
      {
        assert keys[processed..][0] == keys[processed] && keys[processed..][1..] == keys[processed + 1..];
        work := ReapRow(work, keys[processed]);
        processed := processed + 1;
      }
      windows, reservations := work.windows, work.reservations;
    }
  }

  predicate ValidInput(input: ReserveInput) {
    input.group != "" && input.tenant != "" && input.model != "" && input.inputTokens >= 0 && input.outputTokens >= 0
  }

  /** The transaction fails only for reasons of its own. */
  lemma {:induction false} ReservesOrRefuses(ledger: Ledger, rows: seq<Policy>, request: Request)
    ensures var outcome := ReserveGroup(ledger, rows, request);
            outcome.Rollback? ==> outcome.error in {Exceeded, CostUnknown, CounterOverflow}
  {
    RowsRefuse(ledger, rows, request, NO_DECISION);
  }

  lemma {:induction false} RowsRefuse(ledger: Ledger, rows: seq<Policy>, request: Request, decision: Decision)
    ensures var outcome := ReserveRows(ledger, rows, request, decision);
            outcome.Rollback? ==> outcome.error in {Exceeded, CostUnknown, CounterOverflow}
    decreases |rows|
  {
    if rows != [] {
      var first := ReserveRow(ledger, rows[0], request, decision);
      if first.Commit? {
        RowsRefuse(first.ledger, rows[1..], request, first.decision);
      }
    }
  }

  /** The estimated cost: known when there is a candidate and all have a quote, and then the dearest of zero and them. */
  predicate IsEstimate(quotes: seq<Option<int>>, cost: Option<int>) {
    && (cost.Some? <==> quotes != [] && forall i :: 0 <= i < |quotes| ==> quotes[i].Some?)
    && (cost.Some? ==>
        && cost.value >= 0 && (cost.value > 0 ==> cost in quotes)
        && forall i :: 0 <= i < |quotes| && quotes[i].Some? ==> quotes[i].value <= cost.value)
  }

  /** The dearest quote over the candidates, known only when every candidate has a quote. */
  method EstimateCost(quotes: seq<Option<int>>) returns (cost: int, known: bool)
    ensures known <==> quotes != [] && forall i :: 0 <= i < |quotes| ==> quotes[i].Some?
    ensures cost >= 0
    ensures forall i :: 0 <= i < |quotes| && quotes[i].Some? ==> quotes[i].value <= cost
    ensures cost > 0 ==> Some(cost) in quotes
  {
    cost, known := 0, |quotes| > 0;
    for i := 0 to |quotes|
      invariant known <==> quotes != [] && forall j :: 0 <= j < i ==> quotes[j].Some?
      invariant cost >= 0
      invariant forall j :: 0 <= j < i && quotes[j].Some? ==> quotes[j].value <= cost
      invariant cost > 0 ==> Some(cost) in quotes
    {
      if quotes[i].None? {
        known := false;
      } else if quotes[i].value > cost {
        cost := quotes[i].value;
      }
    }
  }
}
