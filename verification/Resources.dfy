/**
 Who holds a breaker permit and a queue slot while requests run (internal/reliability/attempt.go,
 stream_attempt.go): any number of unary and streaming requests to one provider, interleaved.
 */
module Resources {
  import opened Wrappers
  import opened Failure
  import B = Breaker
  import BT = BreakerTheorems

  /** What is left to do on the way out: the explicit report and the deferred calls, in order. */
  datatype Op = Complete(outcome: Option<Failure>) | Abandon | Release

  datatype Stage =
    | Asking
    | Admitted                     // has a permit
    | Leased                       // has a permit and a slot
    | Streaming                    // both handed over to the prepared stream
    | Cleaning(todo: seq<Op>)
    | Ended

  /** How a permit ends: its breaker is told an outcome, or it is dropped. */
  datatype Verdict = Told(outcome: Option<Failure>) | Dropped

  /**
   `reported` is the completed flag of the permit, `held` says that the lease is unreleased. As
   history: how the request came to its end, and what the breaker heard of it.
   */
  datatype Request = Request(
    stream: bool, stage: Stage, permit: Option<nat>, reported: bool, held: bool,
    due: Option<Verdict>, heard: Option<Verdict>)

  /**
   The breaker, the number of occupied slots and the requests; and as history which request
   each permit was issued to, how often each permit took effect, and how often each request
   was granted and gave back a slot.
   */
  datatype System = System(
    breaker: BT.World,
    slots: nat,
    requests: map<nat, Request>,
    owner: map<nat, nat>,
    ends: multiset<nat>,
    granted: multiset<nat>,
    released: multiset<nat>)

  datatype Config = Config(breaker: B.Config, maxInFlight: nat)

  datatype Step =
    | Arrive(stream: bool)
    | Ask(now: int)
    | QueueRefuses(failure: Failure)
    | QueueGrants
    | KeyRefuses(failure: Failure)
    | CallEnds(outcome: Option<Failure>)
    | Panic
    | FinishStream(outcome: Option<Failure>)
    | CleanUp(now: int)
    | Watch(now: int)

  /** A release of a held lease receives from the slot channel, which must not be empty. */
  predicate CanCleanUp(system: System, r: nat)
    requires r in system.requests
  {
    var request := system.requests[r];
    && request.stage.Cleaning? && request.stage.todo != [] && request.permit.Some?
    && (request.stage.todo[0] == Release && request.held ==> system.slots > 0)
  }

  predicate Enabled(system: System, config: Config, r: nat, step: Step) {
    if step.Arrive? then r !in system.requests
    else if step.Watch? then system.breaker.clock <= step.now
    else
      r in system.requests &&
      var stage := system.requests[r].stage;
      match step
      case Ask(now) => stage == Asking && system.breaker.clock <= now
      case QueueRefuses(_) => stage == Admitted
      case QueueGrants => stage == Admitted && system.slots < config.maxInFlight
      case KeyRefuses(_) | CallEnds(_) => stage == Leased
      case Panic => stage == Admitted || stage == Leased
      case FinishStream(_) => system.requests[r].stream
      case CleanUp(now) => system.breaker.clock <= now && CanCleanUp(system, r)
      case _ => false
  }

  function With(system: System, r: nat, request: Request): System {
    system.(requests := system.requests[r := request])
  }

  function Asked(system: System, config: Config, r: nat, now: int): System
    requires r in system.requests
  {
    var request := system.requests[r];
    var id := system.breaker.issued;
    var breaker := BT.Next(system.breaker, config.breaker, BT.Request(now));
    if B.Grant(system.breaker.state, config.breaker, now).Some? then
      With(system, r, request.(stage := Admitted, permit := Some(id)))
        .(breaker := breaker, owner := system.owner[id := r])
    else With(system, r, request.(stage := Ended)).(breaker := breaker)
  }

  /** The rest of the way out; nothing left means that the request has ended. */
  function Onward(todo: seq<Op>): Stage {
    if todo == [] then Ended else Cleaning(todo)
  }

  function VerdictOf(report: BT.Step): Verdict {
    if report.Finish? then Told(report.failure) else Dropped
  }

  /** Reporting a permit: only the first report reaches the breaker. */
  function Reported(system: System, config: Config, r: nat, report: BT.Step, rest: seq<Op>): System
    requires r in system.requests && system.requests[r].permit.Some?
  {
    var request := system.requests[r];
    if request.reported then With(system, r, request.(stage := Onward(rest)))
    else
      With(system, r, request.(stage := Onward(rest), reported := true, heard := Some(VerdictOf(report))))
        .(breaker := BT.Next(system.breaker, config.breaker, report),
          ends := system.ends + multiset{request.permit.value})
  }

  /** Releasing a lease: only the first release gives the slot back. */
  function Freed(system: System, r: nat, rest: seq<Op>): System
    requires r in system.requests && (system.requests[r].held ==> system.slots > 0)
  {
    var request := system.requests[r];
    if !request.held then With(system, r, request.(stage := Onward(rest)))
    else
      With(system, r, request.(stage := Onward(rest), held := false))
        .(slots := system.slots - 1, released := system.released + multiset{r})
  }

  function CleanedUp(system: System, config: Config, r: nat, now: int): System
    requires r in system.requests && CanCleanUp(system, r)
  {
    var todo := system.requests[r].stage.todo;
    var id := system.requests[r].permit.value;
    match todo[0]
    case Complete(failure) => Reported(system, config, r, BT.Finish(id, failure, now), todo[1..])
    case Abandon => Reported(system, config, r, BT.Drop(id, now), todo[1..])
    case Release => Freed(system, r, todo[1..])
  }

  /** The request has come to its end; what is left are these calls. */
  function Leaving(system: System, r: nat, verdict: Verdict, todo: seq<Op>): System
    requires r in system.requests
  {
    With(system, r, system.requests[r].(stage := Cleaning(todo), due := Some(verdict)))
  }

  function Next(system: System, config: Config, r: nat, step: Step): System
    requires Enabled(system, config, r, step)
  {
    match step
    case Arrive(stream) => With(system, r, Request(stream, Asking, None, false, false, None, None))
    case Ask(now) => Asked(system, config, r, now)
    case QueueRefuses(failure) =>
      Leaving(system, r, Told(Some(failure)), [Complete(Some(failure)), Abandon])
    case QueueGrants =>
      With(system, r, system.requests[r].(stage := Leased, held := true))
        .(slots := system.slots + 1, granted := system.granted + multiset{r})
    case KeyRefuses(failure) =>
      Leaving(system, r, Told(Some(failure)), [Complete(Some(failure)), Release, Abandon])
    case CallEnds(outcome) =>
      if system.requests[r].stream && outcome.None?
      then With(system, r, system.requests[r].(stage := Streaming))
      else Leaving(system, r, Told(outcome), [Complete(outcome), Release, Abandon])
    case Panic =>
      Leaving(system, r, Dropped, if system.requests[r].stage == Leased then [Release, Abandon] else [Abandon])
    case FinishStream(outcome) =>
      if system.requests[r].stage == Streaming
      then Leaving(system, r, Told(outcome), [Complete(outcome), Release])
      else system
    case CleanUp(now) => CleanedUp(system, config, r, now)
    case Watch(now) => system.(breaker := BT.Next(system.breaker, config.breaker, BT.Look(now)))
  }

  // ---------------------------------------------------------------- what always holds

  /** What the first of the calls that concerns the permit will tell the breaker. */
  function FirstReport(todo: seq<Op>): Option<Verdict> {
    if todo == [] then None
    else
      match todo[0]
      case Complete(outcome) => Some(Told(outcome))
      case Abandon => Some(Dropped)
      case Release => FirstReport(todo[1..])
  }

  predicate Sane(request: Request) {
    match request.stage
    case Asking => request.permit.None? && !request.reported && !request.held && request.heard.None?
    case Admitted => request.permit.Some? && !request.reported && !request.held && request.heard.None?
    case Leased | Streaming => request.permit.Some? && !request.reported && request.held && request.heard.None?
    case Cleaning(todo) =>
      && request.permit.Some? && request.due.Some?
      && (if request.reported then request.heard == request.due else FirstReport(todo) == request.due)
      && (request.held ==> Release in todo)
    case Ended =>
      (request.permit.Some? ==> request.reported && request.due.Some? && request.heard == request.due) && !request.held
  }

  predicate AllSane(requests: map<nat, Request>) {
    forall r | r in requests :: Sane(requests[r])
  }

  /** Permits 0 .. issued-1 and the requests they were issued to name each other. */
  ghost predicate Owned(owner: map<nat, nat>, requests: map<nat, Request>, issued: nat) {
    && (forall id: nat :: id in owner <==> id < issued)
    && (forall id | id in owner :: owner[id] in requests && requests[owner[id]].permit == Some(id))
    && (forall r | r in requests && requests[r].permit.Some? ::
          requests[r].permit.value in owner && owner[requests[r].permit.value] == r)
  }

  /** A permit is out until its request has reported it. */
  ghost predicate Outstanding(requests: map<nat, Request>, owner: map<nat, nat>, out: set<nat>) {
    && (forall id | id in out :: id in owner)
    && (forall r | r in requests && requests[r].permit.Some? ::
          requests[r].permit.value in out <==> !requests[r].reported)
  }

  /** A permit took effect once if it is no longer out, and not at all before. */
  ghost predicate EndedOnce(ends: multiset<nat>, issued: nat, out: set<nat>) {
    forall id: nat :: ends[id] == if id < issued && id !in out then 1 else 0
  }

  function Holders(requests: map<nat, Request>): set<nat> {
    set r | r in requests && requests[r].held
  }

  predicate Holds(requests: map<nat, Request>, r: nat) {
    r in requests && requests[r].held
  }

  /** A request that has not been through the queue yet. */
  predicate Early(requests: map<nat, Request>, r: nat) {
    r !in requests || requests[r].stage in {Asking, Admitted}
  }

  /** A request has given its slot back or still holds it, and never gets a second one. */
  ghost predicate SlotsAccounted(requests: map<nat, Request>, granted: multiset<nat>, released: multiset<nat>) {
    forall r: nat ::
      && granted[r] == released[r] + (if Holds(requests, r) then 1 else 0)
      && granted[r] <= (if Early(requests, r) then 0 else 1)
  }

  ghost predicate Invariant(system: System, config: Config) {
    && BT.Kept(system.breaker, config.breaker)
    && AllSane(system.requests)
    && Owned(system.owner, system.requests, system.breaker.issued)
    && Outstanding(system.requests, system.owner, system.breaker.permits.Keys)
    && EndedOnce(system.ends, system.breaker.issued, system.breaker.permits.Keys)
    && system.slots == |Holders(system.requests)| <= config.maxInFlight
    && SlotsAccounted(system.requests, system.granted, system.released)
  }

  // ---------------------------------------------------------------- replacing one request

  lemma SaneKept(requests: map<nat, Request>, r: nat, request: Request)
    requires AllSane(requests) && Sane(request)
    ensures AllSane(requests[r := request])
  {
    hide Sane;
  }

  lemma OwnedKept(owner: map<nat, nat>, requests: map<nat, Request>, issued: nat, r: nat, request: Request)
    requires Owned(owner, requests, issued)
    requires request.permit == if r in requests then requests[r].permit else None
    ensures Owned(owner, requests[r := request], issued)
  {
    var next := requests[r := request];
    forall id | id in owner
      ensures owner[id] in next && next[owner[id]].permit == Some(id)
    {
      assert owner[id] in requests;
    }
  }

  lemma OutstandingKept(requests: map<nat, Request>, owner: map<nat, nat>, out: set<nat>, r: nat, request: Request)
    requires Outstanding(requests, owner, out)
    requires if r in requests then request.permit == requests[r].permit && request.reported == requests[r].reported
             else request.permit.None?
    ensures Outstanding(requests[r := request], owner, out)
  {
  }

  lemma HoldersKept(requests: map<nat, Request>, r: nat, request: Request)
    requires request.held == Holds(requests, r)
    ensures Holders(requests[r := request]) == Holders(requests)
  {
  }

  lemma AccountedKept(
    requests: map<nat, Request>, granted: multiset<nat>, released: multiset<nat>, r: nat, request: Request)
    requires SlotsAccounted(requests, granted, released)
    requires request.held == Holds(requests, r)
    requires request.stage in {Asking, Admitted} ==> Early(requests, r)
    ensures SlotsAccounted(requests[r := request], granted, released)
  {
    var next := requests[r := request];
    forall q: nat
      ensures granted[q] == released[q] + (if Holds(next, q) then 1 else 0)
      ensures granted[q] <= (if Early(next, q) then 0 else 1)
    {
      assert Holds(next, q) == Holds(requests, q);
      assert Early(next, q) ==> Early(requests, q);
    }
  }

  // ---------------------------------------------------------------- one step

  /** A change of a request's stage, and of how it ends, alone. */
  lemma StageKeeps(system: System, config: Config, r: nat, stage: Stage, due: Option<Verdict>)
    requires Invariant(system, config) && r in system.requests
    requires Sane(system.requests[r].(stage := stage, due := due))
    requires stage !in {Asking, Admitted}
    ensures Invariant(With(system, r, system.requests[r].(stage := stage, due := due)), config)
  {
    hide BT.Kept, AllSane, Sane, Owned, Outstanding, EndedOnce, Holders, SlotsAccounted;
    var request := system.requests[r].(stage := stage, due := due);
    SaneKept(system.requests, r, request);
    OwnedKept(system.owner, system.requests, system.breaker.issued, r, request);
    OutstandingKept(system.requests, system.owner, system.breaker.permits.Keys, r, request);
    HoldersKept(system.requests, r, request);
    AccountedKept(system.requests, system.granted, system.released, r, request);
  }

  lemma ArriveKeeps(system: System, config: Config, r: nat, stream: bool)
    requires Invariant(system, config) && r !in system.requests
    ensures Invariant(Next(system, config, r, Arrive(stream)), config)
  {
    var request := Request(stream, Asking, None, false, false, None, None);
    assert Sane(request);
    hide BT.Kept, AllSane, Sane, Owned, Outstanding, EndedOnce, Holders, SlotsAccounted;
    SaneKept(system.requests, r, request);
    OwnedKept(system.owner, system.requests, system.breaker.issued, r, request);
    OutstandingKept(system.requests, system.owner, system.breaker.permits.Keys, r, request);
    HoldersKept(system.requests, r, request);
    AccountedKept(system.requests, system.granted, system.released, r, request);
  }

  lemma RequestIssues(breaker: BT.World, config: B.Config, now: int)
    requires config.Valid() && BT.Kept(breaker, config) && breaker.clock <= now
    ensures var next := BT.Next(breaker, config, BT.Request(now));
            && BT.Kept(next, config)
            && (if B.Grant(breaker.state, config, now).Some? then
                  next.issued == breaker.issued + 1 &&
                  next.permits.Keys == breaker.permits.Keys + {breaker.issued}
                else next.issued == breaker.issued && next.permits == breaker.permits)
  {
    BT.StepKeepsAll(breaker, config, BT.Request(now));
    hide B.Advanced, BT.Counters, BT.Timed, BT.Current;
  }

  lemma AskKeeps(system: System, config: Config, r: nat, now: int)
    requires config.breaker.Valid() && Invariant(system, config)
    requires Enabled(system, config, r, Ask(now))
    ensures Invariant(Asked(system, config, r, now), config)
  {
    hide BT.Kept, AllSane, Owned, Outstanding, EndedOnce, Holders, SlotsAccounted, BT.Next, B.Grant;
    RequestIssues(system.breaker, config.breaker, now);
    SaneAt(system, config, r);
    var next := Asked(system, config, r, now);
    var request := next.requests[r];
    assert Sane(request);
    hide Sane;
    SaneKept(system.requests, r, request);
    HoldersKept(system.requests, r, request);
    AccountedKept(system.requests, system.granted, system.released, r, request);
    var id, out := system.breaker.issued, system.breaker.permits.Keys;
    if B.Grant(system.breaker.state, config.breaker, now).Some? {
      IssuedOwned(system.owner, system.requests, id, r, request);
      IssuedOutstanding(system.owner, system.requests, id, out, r, request);
      IssuedNotEnded(system.ends, id, out);
    } else {
      OwnedKept(system.owner, system.requests, id, r, request);
      OutstandingKept(system.requests, system.owner, out, r, request);
    }
  }

  lemma IssuedOwned(owner: map<nat, nat>, requests: map<nat, Request>, id: nat, r: nat, request: Request)
    requires Owned(owner, requests, id) && r in requests && requests[r].permit.None?
    requires request.permit == Some(id)
    ensures Owned(owner[id := r], requests[r := request], id + 1)
  {
    var nextOwner, next := owner[id := r], requests[r := request];
    forall i | i in nextOwner
      ensures nextOwner[i] in next && next[nextOwner[i]].permit == Some(i)
    {
      assert i != id ==> i in owner && owner[i] != r;
    }
    forall q | q in next && next[q].permit.Some?
      ensures next[q].permit.value in nextOwner && nextOwner[next[q].permit.value] == q
    {
      assert q != r ==> q in requests && requests[q].permit.value in owner;
    }
  }

  lemma IssuedOutstanding(
    owner: map<nat, nat>, requests: map<nat, Request>, id: nat, out: set<nat>, r: nat, request: Request)
    requires Owned(owner, requests, id) && Outstanding(requests, owner, out)
    requires request.permit == Some(id) && !request.reported
    ensures Outstanding(requests[r := request], owner[id := r], out + {id})
  {
    var next := requests[r := request];
    forall q | q in next && next[q].permit.Some?
      ensures next[q].permit.value in out + {id} <==> !next[q].reported
    {
      assert q != r ==> q in requests && requests[q].permit.value in owner;
    }
  }

  lemma IssuedNotEnded(ends: multiset<nat>, id: nat, out: set<nat>)
    requires EndedOnce(ends, id, out)
    ensures EndedOnce(ends, id + 1, out + {id})
  {
    forall i: nat
      ensures ends[i] == if i < id + 1 && i !in out + {id} then 1 else 0
    {
      assert ends[i] == if i < id && i !in out then 1 else 0;
    }
  }

  lemma GrantKeeps(system: System, config: Config, r: nat)
    requires Invariant(system, config) && Enabled(system, config, r, QueueGrants)
    ensures Invariant(Next(system, config, r, QueueGrants), config)
  {
    assert Sane(system.requests[r]);
    var request := system.requests[r].(stage := Leased, held := true);
    assert Sane(request);
    hide BT.Kept, AllSane, Sane, Owned, Outstanding, EndedOnce, Holders, SlotsAccounted;
    SaneKept(system.requests, r, request);
    OwnedKept(system.owner, system.requests, system.breaker.issued, r, request);
    OutstandingKept(system.requests, system.owner, system.breaker.permits.Keys, r, request);
    HolderAdded(system.requests, r, request);
    GrantAccounted(system.requests, system.granted, system.released, r, request);
  }

  lemma HolderAdded(requests: map<nat, Request>, r: nat, request: Request)
    requires request.held && !Holds(requests, r)
    ensures |Holders(requests[r := request])| == |Holders(requests)| + 1
  {
    assert Holders(requests[r := request]) == Holders(requests) + {r};
  }

  lemma HolderRemoved(requests: map<nat, Request>, r: nat, request: Request)
    requires !request.held && Holds(requests, r)
    ensures |Holders(requests[r := request])| == |Holders(requests)| - 1
  {
    assert Holders(requests) == Holders(requests[r := request]) + {r};
  }

  lemma GrantAccounted(
    requests: map<nat, Request>, granted: multiset<nat>, released: multiset<nat>, r: nat, request: Request)
    requires SlotsAccounted(requests, granted, released) && Early(requests, r) && !Holds(requests, r)
    requires request.held && request.stage == Leased
    ensures SlotsAccounted(requests[r := request], granted + multiset{r}, released)
  {
    var next := requests[r := request];
    forall q: nat
      ensures (granted + multiset{r})[q] == released[q] + (if Holds(next, q) then 1 else 0)
      ensures (granted + multiset{r})[q] <= (if Early(next, q) then 0 else 1)
    {
      assert q != r ==> Holds(next, q) == Holds(requests, q) && Early(next, q) == Early(requests, q);
      assert granted[q] == released[q] + (if Holds(requests, q) then 1 else 0);
      assert granted[q] <= (if Early(requests, q) then 0 else 1);
    }
  }

  lemma ReportEnds(breaker: BT.World, config: B.Config, id: nat, report: BT.Step)
    requires config.Valid() && BT.Kept(breaker, config)
    requires (report.Finish? || report.Drop?) && report.id == id && breaker.clock <= report.now
    ensures var next := BT.Next(breaker, config, report);
            && BT.Kept(next, config)
            && next.issued == breaker.issued
            && next.permits.Keys == breaker.permits.Keys - {id}
  {
    BT.StepKeepsAll(breaker, config, report);
  }

  lemma ReportKeeps(system: System, config: Config, r: nat, report: BT.Step, rest: seq<Op>)
    requires config.breaker.Valid() && Invariant(system, config) && r in system.requests
    requires system.requests[r].permit.Some? && system.requests[r].stage.Cleaning?
    requires (report.Finish? || report.Drop?) && report.id == system.requests[r].permit.value
    requires system.breaker.clock <= report.now
    requires system.requests[r].held ==> Release in rest
    requires !system.requests[r].reported ==> system.requests[r].due == Some(VerdictOf(report))
    ensures Invariant(Reported(system, config, r, report, rest), config)
  {
    if system.requests[r].reported {
      SaneAt(system, config, r);
      StageKeeps(system, config, r, Onward(rest), system.requests[r].due);
    } else {
      FirstReportKeeps(system, config, r, report, rest);
    }
  }

  lemma FirstReportKeeps(system: System, config: Config, r: nat, report: BT.Step, rest: seq<Op>)
    requires config.breaker.Valid() && Invariant(system, config) && r in system.requests
    requires system.requests[r].permit.Some? && system.requests[r].stage.Cleaning? && !system.requests[r].reported
    requires (report.Finish? || report.Drop?) && report.id == system.requests[r].permit.value
    requires system.breaker.clock <= report.now
    requires system.requests[r].held ==> Release in rest
    requires !system.requests[r].reported ==> system.requests[r].due == Some(VerdictOf(report))
    ensures Invariant(Reported(system, config, r, report, rest), config)
  {
    hide BT.Kept, AllSane, Owned, Outstanding, EndedOnce, Holders, SlotsAccounted, BT.Next;
    var id, out := system.requests[r].permit.value, system.breaker.permits.Keys;
    ReportEnds(system.breaker, config.breaker, id, report);
    var request := system.requests[r].(stage := Onward(rest), reported := true, heard := Some(VerdictOf(report)));
    assert Sane(request);
    hide Sane;
    SaneKept(system.requests, r, request);
    OwnedKept(system.owner, system.requests, system.breaker.issued, r, request);
    ReportedOutstanding(system.owner, system.requests, system.breaker.issued, out, r, request);
    ReportCounted(system.owner, system.requests, system.ends, system.breaker.issued, out, r);
    HoldersKept(system.requests, r, request);
    AccountedKept(system.requests, system.granted, system.released, r, request);
  }

  lemma ReportedOutstanding(
    owner: map<nat, nat>, requests: map<nat, Request>, issued: nat, out: set<nat>, r: nat, request: Request)
    requires Owned(owner, requests, issued) && Outstanding(requests, owner, out) && r in requests
    requires request.permit == requests[r].permit && request.permit.Some? && request.reported
    ensures Outstanding(requests[r := request], owner, out - {request.permit.value})
  {
    var next := requests[r := request];
    forall q | q in next && next[q].permit.Some?
      ensures next[q].permit.value in out - {request.permit.value} <==> !next[q].reported
    {
      if q != r {
        assert owner[requests[q].permit.value] == q;
        assert owner[request.permit.value] == r;
      }
    }
  }

  lemma ReportCounted(
    owner: map<nat, nat>, requests: map<nat, Request>, ends: multiset<nat>, issued: nat, out: set<nat>, r: nat)
    requires Owned(owner, requests, issued) && Outstanding(requests, owner, out) && EndedOnce(ends, issued, out)
    requires r in requests && requests[r].permit.Some? && !requests[r].reported
    ensures EndedOnce(ends + multiset{requests[r].permit.value}, issued, out - {requests[r].permit.value})
  {
    var id := requests[r].permit.value;
    assert id in out && id < issued;
    forall i: nat
      ensures (ends + multiset{id})[i] == if i < issued && i !in out - {id} then 1 else 0
    {
      assert ends[i] == if i < issued && i !in out then 1 else 0;
    }
  }

  lemma ReleaseKeeps(system: System, config: Config, r: nat, rest: seq<Op>)
    requires Invariant(system, config) && r in system.requests && (system.requests[r].held ==> system.slots > 0)
    requires system.requests[r].permit.Some? && system.requests[r].stage.Cleaning?
    requires system.requests[r].due.Some?
    requires if system.requests[r].reported then system.requests[r].heard == system.requests[r].due
             else FirstReport(rest) == system.requests[r].due
    ensures Invariant(Freed(system, r, rest), config)
  {
    if !system.requests[r].held {
      StageKeeps(system, config, r, Onward(rest), system.requests[r].due);
    } else {
      var request := system.requests[r].(stage := Onward(rest), held := false);
      assert Sane(request);
      hide BT.Kept, AllSane, Sane, Owned, Outstanding, EndedOnce, Holders, SlotsAccounted;
      SaneKept(system.requests, r, request);
      OwnedKept(system.owner, system.requests, system.breaker.issued, r, request);
      OutstandingKept(system.requests, system.owner, system.breaker.permits.Keys, r, request);
      HolderRemoved(system.requests, r, request);
      ReleaseAccounted(system.requests, system.granted, system.released, r, request);
    }
  }

  lemma ReleaseAccounted(
    requests: map<nat, Request>, granted: multiset<nat>, released: multiset<nat>, r: nat, request: Request)
    requires SlotsAccounted(requests, granted, released) && Holds(requests, r) && !Early(requests, r)
    requires !request.held && request.stage !in {Asking, Admitted}
    ensures SlotsAccounted(requests[r := request], granted, released + multiset{r})
  {
    var next := requests[r := request];
    forall q: nat
      ensures granted[q] == (released + multiset{r})[q] + (if Holds(next, q) then 1 else 0)
      ensures granted[q] <= (if Early(next, q) then 0 else 1)
    {
      assert q != r ==> Holds(next, q) == Holds(requests, q) && Early(next, q) == Early(requests, q);
      assert granted[q] == released[q] + (if Holds(requests, q) then 1 else 0);
      assert granted[q] <= (if Early(requests, q) then 0 else 1);
    }
  }

  lemma CleanUpKeeps(system: System, config: Config, r: nat, now: int)
    requires config.breaker.Valid() && Invariant(system, config) && Enabled(system, config, r, CleanUp(now))
    ensures Invariant(CleanedUp(system, config, r, now), config)
  {
    var request := system.requests[r];
    var todo := request.stage.todo;
    assert Sane(request);
    var rest := todo[1..];
    assert todo == [todo[0]] + rest;
    hide Invariant, Reported, Freed;
    match todo[0]
    case Complete(failure) => ReportKeeps(system, config, r, BT.Finish(request.permit.value, failure, now), rest);
    case Abandon => ReportKeeps(system, config, r, BT.Drop(request.permit.value, now), rest);
    case Release => ReleaseKeeps(system, config, r, rest);
  }

  lemma WatchKeeps(system: System, config: Config, r: nat, now: int)
    requires config.breaker.Valid() && Invariant(system, config) && system.breaker.clock <= now
    ensures Invariant(Next(system, config, r, Watch(now)), config)
  {
    BT.StepKeepsAll(system.breaker, config.breaker, BT.Look(now));
    var next := Next(system, config, r, Watch(now));
    assert next.breaker.permits == system.breaker.permits && next.breaker.issued == system.breaker.issued;
    hide BT.Kept, BT.Next, B.Advanced, AllSane, Owned, Outstanding, EndedOnce, Holders, SlotsAccounted;
  }

  lemma StepKeeps(system: System, config: Config, r: nat, step: Step)
    requires config.breaker.Valid() && Invariant(system, config) && Enabled(system, config, r, step)
    ensures Invariant(Next(system, config, r, step), config)
  {
    match step
    case Arrive(stream) => ArriveKeeps(system, config, r, stream);
    case Ask(now) => AskKeeps(system, config, r, now);
    case QueueGrants => GrantKeeps(system, config, r);
    case CleanUp(now) => CleanUpKeeps(system, config, r, now);
    case Watch(now) => WatchKeeps(system, config, r, now);
    case _ => PlainStepKeeps(system, config, r, step);
  }

  /** The steps that only move a request on to its next stage. */
  lemma PlainStepKeeps(system: System, config: Config, r: nat, step: Step)
    requires Invariant(system, config) && Enabled(system, config, r, step)
    requires step.QueueRefuses? || step.KeyRefuses? || step.CallEnds? || step.Panic? || step.FinishStream?
    ensures Invariant(Next(system, config, r, step), config)
  {
    SaneAt(system, config, r);
    hide Invariant, FirstReport, Sane;
    match step
    case QueueRefuses(failure) =>
      FirstReports(Some(failure));
      WayOut(system, config, r, Told(Some(failure)), [Complete(Some(failure)), Abandon]);
    case KeyRefuses(failure) =>
      FirstReports(Some(failure));
      WayOut(system, config, r, Told(Some(failure)), [Complete(Some(failure)), Release, Abandon]);
    case CallEnds(outcome) =>
      if system.requests[r].stream && outcome.None? {
        HandOff(system, config, r);
      } else {
        FirstReports(outcome);
        WayOut(system, config, r, Told(outcome), [Complete(outcome), Release, Abandon]);
      }
    case Panic =>
      FirstReports(None);
      WayOut(system, config, r, Dropped,
             if system.requests[r].stage == Leased then [Release, Abandon] else [Abandon]);
    case FinishStream(outcome) =>
      if system.requests[r].stage == Streaming {
        FirstReports(outcome);
        WayOut(system, config, r, Told(outcome), [Complete(outcome), Release]);
      }
  }

  lemma SaneAt(system: System, config: Config, r: nat)
    requires Invariant(system, config) && r in system.requests
    ensures Sane(system.requests[r])
  {
    hide Sane, Owned, Outstanding, EndedOnce, Holders, SlotsAccounted, BT.Kept;
  }

  lemma HandOff(system: System, config: Config, r: nat)
    requires Invariant(system, config) && r in system.requests && system.requests[r].stage == Leased
    ensures Invariant(With(system, r, system.requests[r].(stage := Streaming)), config)
  {
    SaneAt(system, config, r);
    hide Invariant;
    StageKeeps(system, config, r, Streaming, system.requests[r].due);
  }

  /** Leaving with one of the lists of calls that the source leaves behind. */
  lemma WayOut(system: System, config: Config, r: nat, verdict: Verdict, todo: seq<Op>)
    requires Invariant(system, config) && r in system.requests
    requires system.requests[r].stage in {Admitted, Leased, Streaming}
    requires FirstReport(todo) == Some(verdict)
    requires system.requests[r].stage != Admitted ==> Release in todo
    ensures Invariant(Leaving(system, r, verdict, todo), config)
  {
    SaneAt(system, config, r);
    hide Invariant, FirstReport;
    StageKeeps(system, config, r, Cleaning(todo), Some(verdict));
  }

  lemma FirstReports(outcome: Option<Failure>)
    ensures FirstReport([Complete(outcome), Abandon]) == Some(Told(outcome))
    ensures FirstReport([Complete(outcome), Release, Abandon]) == Some(Told(outcome))
    ensures FirstReport([Complete(outcome), Release]) == Some(Told(outcome))
    ensures FirstReport([Release, Abandon]) == FirstReport([Abandon]) == Some(Dropped)
  {
    assert [Release, Abandon][1..] == [Abandon];
  }

  // ---------------------------------------------------------------- whole runs

  function Start(clock: int): System {
    System(BT.Start(clock), 0, map[], map[], multiset{}, multiset{}, multiset{})
  }

  datatype Move = Move(request: nat, step: Step)

  predicate Reaches(from: System, config: Config, moves: seq<Move>, to: System)
    decreases |moves|
  {
    if moves == [] then to == from
    else
      Enabled(from, config, moves[0].request, moves[0].step) &&
      Reaches(Next(from, config, moves[0].request, moves[0].step), config, moves[1..], to)
  }

  lemma {:induction false} RunKeeps(from: System, config: Config, moves: seq<Move>, to: System)
    requires config.breaker.Valid() && Invariant(from, config) && Reaches(from, config, moves, to)
    ensures Invariant(to, config)
    decreases |moves|
  {
    if moves != [] {
      StepKeeps(from, config, moves[0].request, moves[0].step);
      hide Invariant, Next, Enabled;
      RunKeeps(Next(from, config, moves[0].request, moves[0].step), config, moves[1..], to);
    }
  }

  lemma StartIsSound(clock: int, config: Config)
    requires config.breaker.Valid()
    ensures Invariant(Start(clock), config)
  {
    BT.NoProbes(map[], 0);
    assert Holders(map[]) == {};
  }

  /** No permit takes effect twice and no lease is released twice, in any run. */
  lemma AtMostOnce(config: Config, clock: int, moves: seq<Move>, to: System, id: nat, r: nat)
    requires config.breaker.Valid() && Reaches(Start(clock), config, moves, to)
    ensures to.ends[id] <= 1 && to.released[r] <= to.granted[r] <= 1
  {
    StartIsSound(clock, config);
    RunKeeps(Start(clock), config, moves, to);
    hide BT.Kept, AllSane, Owned, Outstanding, Holders;
    assert to.granted[r] == to.released[r] + if Holds(to.requests, r) then 1 else 0;
    assert to.granted[r] <= if Early(to.requests, r) then 0 else 1;
  }

  /**
   The breaker hears of every request exactly how it ended: the outcome of its call or its stream,
   or the refusal it met; only a request that panicked is dropped.
   */
  lemma BreakerHearsWhatHappened(config: Config, clock: int, moves: seq<Move>, to: System, r: nat)
    requires config.breaker.Valid() && Reaches(Start(clock), config, moves, to)
    requires r in to.requests && to.requests[r].stage == Ended && to.requests[r].permit.Some?
    ensures to.requests[r].due.Some? && to.requests[r].heard == to.requests[r].due
  {
    StartIsSound(clock, config);
    RunKeeps(Start(clock), config, moves, to);
    SaneAt(to, config, r);
  }

  /** What a step makes of a request's end, and what it passes on to the breaker. */
  lemma EndsAsItHappened(system: System, config: Config, r: nat, step: Step)
    requires Enabled(system, config, r, step) && r in system.requests && system.requests[r].permit.Some?
    ensures var before, after := system.requests[r], Next(system, config, r, step).requests[r];
            && (step.QueueRefuses? || step.KeyRefuses? ==> after.due == Some(Told(Some(step.failure))))
            && (step.CallEnds? && (step.outcome.Some? || !before.stream) ==> after.due == Some(Told(step.outcome)))
            && (step.FinishStream? && before.stage == Streaming ==> after.due == Some(Told(step.outcome)))
            && (step.Panic? ==> after.due == Some(Dropped))
            && (after.heard != before.heard ==>
                  && step.CleanUp? && !before.reported && before.stage.Cleaning? && before.stage.todo != []
                  && (before.stage.todo[0].Complete? ==> after.heard == Some(Told(before.stage.todo[0].outcome)))
                  && (before.stage.todo[0].Abandon? ==> after.heard == Some(Dropped)))
  {
    hide BT.Next, B.Grant;
  }

  /** Nothing blocks on the way out: a request that is cleaning up can always go on. */
  lemma CleaningNeverBlocks(system: System, config: Config, r: nat)
    requires Invariant(system, config) && r in system.requests
    requires system.requests[r].stage.Cleaning? && system.requests[r].stage.todo != []
    ensures Enabled(system, config, r, CleanUp(system.breaker.clock))
  {
    assert Sane(system.requests[r]);
    assert system.requests[r].held ==> r in Holders(system.requests);
    hide BT.Kept, Owned, Outstanding, AllSane, EndedOnce, SlotsAccounted;
  }

  /**
   Once all requests have ended: every permit issued took effect exactly once, every slot
   granted was given back, none is occupied, and no probe is out.
   */
  lemma NothingOutstanding(config: Config, clock: int, moves: seq<Move>, to: System)
    requires config.breaker.Valid() && Reaches(Start(clock), config, moves, to)
    requires forall r | r in to.requests :: to.requests[r].stage == Ended
    ensures to.slots == 0 && to.breaker.permits == map[] && to.breaker.state.halfOpenInFlight == 0
    ensures forall id: nat :: id < to.breaker.issued ==> to.ends[id] == 1
    ensures to.released == to.granted
  {
    StartIsSound(clock, config);
    RunKeeps(Start(clock), config, moves, to);
    assert forall r | r in to.requests :: Sane(to.requests[r]);
    assert Holders(to.requests) == {};
    EverythingReported(to);
    BT.NoProbes(map[], to.breaker.state.generation);
    hide AllSane, Owned, Outstanding, Holders;
    forall r: nat
      ensures to.released[r] == to.granted[r]
    {
      assert !Holds(to.requests, r);
    }
  }

  lemma EverythingReported(system: System)
    requires Owned(system.owner, system.requests, system.breaker.issued)
    requires Outstanding(system.requests, system.owner, system.breaker.permits.Keys)
    requires forall r | r in system.requests :: system.requests[r].permit.Some? ==> system.requests[r].reported
    ensures system.breaker.permits == map[]
  {
    assert forall id | id in system.breaker.permits.Keys :: id in system.owner;
    assert system.breaker.permits.Keys == {};
  }

  /** So the breaker lets the next request through as soon as its open time is over. */
  lemma NextRequestGetsThrough(config: Config, clock: int, moves: seq<Move>, to: System, now: int)
    requires config.breaker.Valid() && Reaches(Start(clock), config, moves, to)
    requires forall r | r in to.requests :: to.requests[r].stage == Ended
    requires to.breaker.state.phase == B.Open ==> BT.OpenTimeOver(to.breaker, config.breaker, now)
    ensures B.Grant(to.breaker.state, config.breaker, now).Some?
  {
    NothingOutstanding(config, clock, moves, to);
    StartIsSound(clock, config);
    RunKeeps(Start(clock), config, moves, to);
    hide BT.Kept, AllSane, Owned, Outstanding, Holders, EndedOnce, SlotsAccounted;
    BT.NoProbeLeaks(to.breaker, config.breaker, now);
  }
}
