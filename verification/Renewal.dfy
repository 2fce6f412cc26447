/**
 * Lease renewal across two clocks: the Host decides when to renew by its own clock
 * (`renew_if_due`), the Broker accepts or refuses by its own (`LeaseManager::renew`).
 */
module Renewal {
  import opened Wrappers
  import opened Bytes
  import opened Leases
  import opened BridgeFrames
  import opened BridgeRpc
  import opened BridgeWire
  import Broker

  /** How far the two clocks may drift apart over one renewal interval. */
  const DRIFT_MS := 250

  type Time = nat

  /** Two clocks read at moments of true time; neither runs backwards. */
  datatype Clocks = Clocks(client: Time -> U64, broker: Time -> U64) {
    ghost predicate NeverBack() {
      && (forall s, t | s <= t :: client(s) <= client(t))
      && (forall s, t | s <= t :: broker(s) <= broker(t))
    }
  }

  /**
   * `handledAt` and `doneAt` are when the Broker last accepted this lease and when the
   * Host's wire last noted it; `checkedAt` is when the Host last finished a check.
   */
  datatype System = System(wire: WireState, broker: Broker.BrokerState, handledAt: Time, doneAt: Time, checkedAt: Time)

  datatype Step =
    /** `renew_if_due`: begun at `sent`; if a request goes out, it is handled and answered later. */
    | Check(sent: Time, handled: Time, done: Time, ahead: seq<Incoming>, lost: bool)
    /** Whatever else the wire does between two checks. */
    | Traffic(wire: WireState)
    /** Whatever else the Broker does, at `now`; `due` is a moment by which the Host is not yet late. */
    | BrokerDoes(op: Broker.Op, due: Time, now: Time)

  predicate Due(sys: System, clocks: Clocks, sent: Time) {
    SaturatingSub(clocks.client(sent), sys.wire.lastRenewedAtMs) >= RENEW_ATTEMPT_INTERVAL_MS
  }

  /** The renewal request reaches the Broker. */
  predicate Sends(sys: System, clocks: Clocks, sent: Time) {
    && Due(sys, clocks, sent)
    && sys.wire.route.Some? && !sys.wire.failed && sys.wire.nextFrameSequence < U64_MAX
    && !sys.wire.rpc.failed && sys.wire.rpc.canSend
  }

  function RenewalRequest(wire: WireState): ClientFrame
    requires wire.route.Some?
  {
    ClientFrame(RequestId(wire.route.value, wire.nextFrameSequence), wire.nextFrameSequence, Some(RenewLease(RefOf(wire.route.value))))
  }

  function AtBroker(clocks: Clocks, handled: Time): Broker.Surroundings {
    Broker.Surroundings(clocks.broker(handled), None, None)
  }

  /** What the Host's link will yield: earlier traffic, then the Broker's answer unless the link breaks. */
  function Yielding(wire: WireState, ahead: seq<Incoming>, lost: bool, request: ClientFrame, reply: Broker.Reply): WireState {
    var answer :=
      if lost then Broken
      else if reply.Ok? then Frame(reply.value)
      else Frame(ServerFrame(request.requestId, request.sequence, Some(Error)));
    wire.(rpc := wire.rpc.(inbox := wire.rpc.inbox + ahead + [answer]))
  }

  function DoCheck(sys: System, clocks: Clocks, step: Step): System
    requires step.Check?
  {
    var reading := Reading(clocks.client(step.sent), clocks.client(step.done));
    if !Sends(sys, clocks, step.sent) then
      var (wire, error) := sys.wire.RenewIfDue(reading);
      sys.(wire := ClosedOnError(wire, error), checkedAt := step.sent)
    else
      var request := RenewalRequest(sys.wire);
      var (next, reply) := sys.broker.Handle(request, AtBroker(clocks, step.handled));
      var (wire, error) := Yielding(sys.wire, step.ahead, step.lost, request, reply).RenewIfDue(reading);
      if error.None? then System(wire, next, step.handled, step.done, step.done)
      else System(ClosedOnError(wire, error), next, sys.handledAt, sys.doneAt, step.done)
  }

  /** Any error of the wire makes the proxy close it. */
  function ClosedOnError(wire: WireState, error: Option<ProxyError>): WireState {
    if error.Some? then wire.FailClosed() else wire
  }

  function Next(sys: System, clocks: Clocks, step: Step): System {
    match step
    case Check(_, _, _, _, _) => DoCheck(sys, clocks, step)
    case Traffic(wire) => sys.(wire := wire)
    case BrokerDoes(op, _, _) => sys.(broker := Broker.Step(sys.broker, op))
  }

  function Run(sys: System, clocks: Clocks, steps: seq<Step>): System
    decreases |steps|
  {
    if steps == [] then sys else Next(Run(sys, clocks, steps[..|steps| - 1]), clocks, steps[|steps| - 1])
  }

  // ---- What the environment may do ----

  /** The wire's other operations touch neither the route nor the renewal time, and do not heal it. */
  predicate IsTraffic(before: WireState, after: WireState) {
    && after.route == before.route
    && after.lastRenewedAtMs == before.lastRenewedAtMs
    && (before.failed ==> after.failed)
  }

  lemma CallIsTraffic(wire: WireState, route: ProxyRoute, payload: ClientPayload)
    requires wire.route.Some?
    ensures IsTraffic(wire, wire.Call(route, payload).0)
  {
    hide RpcState.Call;
  }

  /** Every operation of the wire is a check, if it renews at all, followed by such traffic. */
  lemma PerformIsCheckThenTraffic(wire: WireState, request: BridgeRequest, op: WireOp, clock: Reading)
    requires wire.route.Some?
    ensures IsTraffic(if op.RenewsFirst() then wire.RenewIfDue(clock).0 else wire, wire.Perform(request, op, clock).0)
  {
    CheckDatesRenewal(wire, clock);
    var ready := if op.RenewsFirst() then wire.RenewIfDue(clock).0 else wire;
    var payload := PayloadOf(op, request.route, ready.displayName);
    CallIsTraffic(ready, request.route, payload);
    NameIsKept(wire, clock);
    var (sent, reply) := ready.Call(request.route, payload);
    if reply.Ok? {
      AcceptIsTraffic(sent, request, op, reply.value);
    }
    hide WireState.Accept;
    hide WireState.RenewIfDue;
    hide WireState.Call;
    hide PayloadOf;
  }

  lemma AcceptIsTraffic(wire: WireState, request: BridgeRequest, op: WireOp, response: ServerFrame)
    ensures IsTraffic(wire, wire.Accept(request, op, response).0)
  {
  }

  lemma NameIsKept(wire: WireState, clock: Reading)
    ensures wire.RenewIfDue(clock).0.displayName == wire.displayName
  {
    hide RpcState.Call;
  }

  lemma PollIsCheckThenTraffic(wire: WireState, clock: Reading)
    requires !wire.failed
    ensures IsTraffic(wire.RenewIfDue(clock).0, wire.TryEvent(clock).0)
  {
    hide WireState.RenewIfDue;
    hide RpcState.TryEvent;
  }

  /** Between two renewals nothing renews the lease, and no second lease is acquired. */
  predicate LeavesRenewalAlone(op: Broker.Op) {
    op.HandleOp? && op.request.payload.Some? ==> !op.request.payload.value.RenewLease? && !op.request.payload.value.AcquireLease?
  }

  /** Over the interval since the last renewal, the Broker's clock fell behind by at most 250 ms. */
  predicate BrokerKeepsUp(clocks: Clocks, since: Time, now: Time) {
    clocks.client(now) - clocks.client(since) <= clocks.broker(now) - clocks.broker(since) + DRIFT_MS
  }

  predicate ClientKeepsUp(clocks: Clocks, since: Time, now: Time) {
    clocks.broker(now) - clocks.broker(since) <= clocks.client(now) - clocks.client(since) + DRIFT_MS
  }

  predicate Plausible(sys: System, clocks: Clocks, step: Step) {
    match step
    case Check(sent, handled, done, _, _) => sys.checkedAt <= sent <= handled <= done && BrokerKeepsUp(clocks, sys.doneAt, sent)
    case Traffic(wire) => IsTraffic(sys.wire, wire)
    case BrokerDoes(op, _, _) => LeavesRenewalAlone(op)
  }

  predicate PlausibleRun(sys: System, clocks: Clocks, steps: seq<Step>)
    decreases |steps|
  {
    steps != [] ==>
      && PlausibleRun(sys, clocks, steps[..|steps| - 1])
      && Plausible(Run(sys, clocks, steps[..|steps| - 1]), clocks, steps[|steps| - 1])
  }

  /** The Broker grants a lease at `granted`; the Host builds its wire for it at `built`. */
  function Begin(broker: Broker.BrokerState, request: ClientFrame, random: Option<LeaseId>, clocks: Clocks,
                 rpc: RpcState, displayName: string, frameSequence: U64, granted: Time, built: Time): Option<System>
  {
    var (next, reply) := broker.Handle(request, Broker.Surroundings(clocks.broker(granted), random, None));
    match reply
    case Ok(ServerFrame(_, _, Some(LeaseGranted(lease, _)))) =>
      (match ParseRoute(RouteRef(lease.id, lease.generation))
       case None => None
       case Some(route) =>
         Some(System(WireState(rpc, displayName, Some(route), frameSequence, clocks.client(built), false), next, granted, built, built)))
    case _ => None
  }

  // ---- Never too soon ----

  /** As long as the wire has not failed, both ends date the last renewal from the same exchange. */
  ghost predicate InStep(sys: System, clocks: Clocks) {
    && sys.handledAt <= sys.doneAt <= sys.checkedAt
    && sys.wire.route.Some? && sys.wire.route.value.generation != 0
    && (!sys.wire.failed && sys.broker.leases.active.Some? ==>
          && sys.broker.leases.active.value.lastRenewedAtMs == clocks.broker(sys.handledAt)
          && sys.wire.lastRenewedAtMs == clocks.client(sys.doneAt)
          && sys.wire.route.value == ProxyRoute(sys.broker.leases.active.value.id, sys.broker.leases.active.value.generation))
  }

  lemma BeginsInStep(broker: Broker.BrokerState, request: ClientFrame, random: Option<LeaseId>, clocks: Clocks,
                     rpc: RpcState, displayName: string, frameSequence: U64, granted: Time, built: Time)
    requires granted <= built && request.payload.Some? && request.payload.value.AcquireLease?
    requires Begin(broker, request, random, clocks, rpc, displayName, frameSequence, granted, built).Some?
    ensures InStep(Begin(broker, request, random, clocks, rpc, displayName, frameSequence, granted, built).value, clocks)
  {
  }

  /** What the Broker may do to the lease without renewing it: count a command, or drop the lease. */
  predicate SameRenewal(before: LeaseState, after: LeaseState) {
    after.active.Some? ==>
      && before.active.Some?
      && after.active.value == before.active.value.(lastCommandSequence := after.active.value.lastCommandSequence)
  }

  lemma OtherOpsKeepRenewal(broker: Broker.BrokerState, op: Broker.Op)
    requires LeavesRenewalAlone(op)
    ensures SameRenewal(broker.leases, Broker.Step(broker, op).leases)
  {
    if op.HandleOp? {
      ForwardCounts(broker, op.request, op.env);
      if op.request.payload.Some? && op.request.payload.value.ReleaseLease? {
        ReleaseForwards(broker, op);
      }
    }
    hide Broker.BrokerState.ForwardAuthorized;
    hide Broker.BrokerState.Release;
  }

  /** A routed request counts a command of the lease, or leaves it alone; at most its expiry ends it. */
  lemma ForwardCounts(broker: Broker.BrokerState, request: ClientFrame, env: Broker.Surroundings)
    ensures var after := broker.ForwardAuthorized(request, env).0.leases;
            && SameRenewal(broker.leases, after)
            && (broker.leases.active.Some? && env.nowMs < broker.leases.active.value.expiresAtMs ==> after.active.Some?)
  {
    if Broker.RequestRoute(request).Some? && CheckedAdd(broker.operationSequence, 1).Some? {
      var route, number := Broker.RequestRoute(request).value, CheckedAdd(broker.operationSequence, 1).value;
      var leases := broker.leases.AuthorizeCommand(route.leaseId, route.generation, number, env.nowMs).0;
      Broker.ForwardEffect(broker.(operationSequence := number, leases := leases), request, route, number, env);
    }
    hide Broker.BrokerState.Forward;
  }

  lemma ReleaseForwards(broker: Broker.BrokerState, op: Broker.Op)
    requires op.HandleOp? && op.request.payload.Some? && op.request.payload.value.ReleaseLease?
    ensures ParseRoute(op.request.payload.value.ref).Some? ==>
              SameRenewal(broker.leases, broker.Release(op.request, ParseRoute(op.request.payload.value.ref).value, op.env).0.leases)
  {
    var ref := ParseRoute(op.request.payload.value.ref);
    if ref.Some? {
      Broker.ForwardEffect(broker, op.request, ref.value, 0, op.env);
    }
    hide Broker.BrokerState.Forward;
  }

  /** A renewal the wire accepted is dated by the answer; one it did not accept leaves it failed or undated. */
  lemma CheckDatesRenewal(wire: WireState, clock: Reading)
    requires wire.route.Some?
    ensures var (next, error) := wire.RenewIfDue(clock);
            && next.route == wire.route
            && (wire.failed ==> next.failed)
            && next.lastRenewedAtMs == (if error.None? && SaturatingSub(clock.before, wire.lastRenewedAtMs) >= RENEW_ATTEMPT_INTERVAL_MS
                                        then clock.after else wire.lastRenewedAtMs)
  {
    hide RpcState.Call;
  }

  /** The Broker's verdict on a renewal, and what it leaves: the lease renewed, untouched, or gone. */
  lemma BrokerRenews(broker: Broker.BrokerState, wire: WireState, clocks: Clocks, handled: Time)
    requires wire.route.Some? && wire.route.value.generation != 0
    ensures var (next, reply) := broker.Handle(RenewalRequest(wire), AtBroker(clocks, handled));
            var (leases, renewed) := broker.leases.Renew(wire.route.value.leaseId, wire.route.value.generation, clocks.broker(handled));
            && next == broker.(leases := leases)
            && reply == if renewed.Ok? then Ok(Broker.Granting(RenewalRequest(wire), renewed.value, broker.permissions)) else Err(Broker.LeaseRejected)
  {
  }

  /** The Broker's answer to the renewal a check sends. */
  function Verdict(sys: System, clocks: Clocks, handled: Time): Result<Lease, LeaseError>
    requires sys.wire.route.Some?
  {
    sys.broker.leases.Renew(sys.wire.route.value.leaseId, sys.wire.route.value.generation, clocks.broker(handled)).1
  }

  predicate NotTooSoon(verdict: Result<Lease, LeaseError>) {
    verdict.Ok? || verdict.error in {LeaseNotActive, LeaseExpired, TimestampOverflow}
  }

  lemma DueIsNotTooSoon(sys: System, clocks: Clocks, sent: Time, handled: Time)
    requires clocks.NeverBack() && InStep(sys, clocks) && Sends(sys, clocks, sent)
    requires sys.doneAt <= sent <= handled && BrokerKeepsUp(clocks, sys.doneAt, sent)
    ensures NotTooSoon(Verdict(sys, clocks, handled))
  {
    assert clocks.broker(sys.handledAt) <= clocks.broker(sys.doneAt);
    assert clocks.client(sys.doneAt) <= clocks.client(sent);
    assert clocks.broker(sent) <= clocks.broker(handled);
  }

  /** The lease a renewal leaves, if any, is dated from that renewal unless it was refused unchanged. */
  lemma RenewDates(leases: LeaseState, id: LeaseId, generation: U64, nowMs: U64)
    ensures var (next, verdict) := leases.Renew(id, generation, nowMs);
            && (next.active.Some? ==> leases.active.Some? && next.active.value.id == leases.active.value.id
                                      && next.active.value.generation == leases.active.value.generation)
            && (next.active.Some? && NotTooSoon(verdict) ==>
                  next.active.value.lastRenewedAtMs == nowMs || CheckedAdd(leases.active.value.lastRenewedAtMs, RENEW_INTERVAL_MS).None?)
  {
  }

  lemma CheckKeepsInStep(sys: System, clocks: Clocks, step: Step)
    requires clocks.NeverBack() && InStep(sys, clocks) && step.Check? && Plausible(sys, clocks, step)
    ensures InStep(DoCheck(sys, clocks, step), clocks)
  {
    var reading := Reading(clocks.client(step.sent), clocks.client(step.done));
    CheckDatesRenewal(sys.wire, reading);
    if Sends(sys, clocks, step.sent) {
      DueIsNotTooSoon(sys, clocks, step.sent, step.handled);
      var request := RenewalRequest(sys.wire);
      BrokerRenews(sys.broker, sys.wire, clocks, step.handled);
      var reply := sys.broker.Handle(request, AtBroker(clocks, step.handled)).1;
      var route := sys.wire.route.value;
      RenewDates(sys.broker.leases, route.leaseId, route.generation, clocks.broker(step.handled));
      CheckDatesRenewal(Yielding(sys.wire, step.ahead, step.lost, request, reply), reading);
    } else if Due(sys, clocks, step.sent) {
      UnsentCheckFails(sys.wire, reading);
    }
    hide Broker.BrokerState.Handle;
    hide LeaseState.Renew;
    hide WireState.RenewIfDue;
  }

  /** A due check that cannot send reports an error. */
  lemma UnsentCheckFails(wire: WireState, clock: Reading)
    requires SaturatingSub(clock.before, wire.lastRenewedAtMs) >= RENEW_ATTEMPT_INTERVAL_MS
    requires wire.route.None? || wire.failed || wire.nextFrameSequence == U64_MAX || wire.rpc.failed || !wire.rpc.canSend
    ensures wire.RenewIfDue(clock).1.Some?
  {
  }

  lemma {:induction false} RunKeepsInStep(sys: System, clocks: Clocks, steps: seq<Step>)
    requires clocks.NeverBack() && InStep(sys, clocks) && PlausibleRun(sys, clocks, steps)
    ensures InStep(Run(sys, clocks, steps), clocks)
    decreases |steps|
  {
    if steps != [] {
      var before, step := Run(sys, clocks, steps[..|steps| - 1]), steps[|steps| - 1];
      RunKeepsInStep(sys, clocks, steps[..|steps| - 1]);
      match step
      case Check(_, _, _, _, _) => CheckKeepsInStep(before, clocks, step);
      case Traffic(_) =>
      case BrokerDoes(op, _, _) =>
        OtherOpsKeepRenewal(before.broker, op);
        hide Broker.Step;
    }
    hide DoCheck;
  }

  /**
   * Never too soon: from the grant on, in runs of any length, whatever else happens, no
   * renewal sent by `renew_if_due` is answered RenewedTooSoon, as long as the Broker's
   * clock never falls more than 250 ms behind the Host's between one renewal and the next check.
   */
  lemma NeverTooSoon(broker: Broker.BrokerState, request: ClientFrame, random: Option<LeaseId>, clocks: Clocks,
                     rpc: RpcState, displayName: string, frameSequence: U64, granted: Time, built: Time,
                     steps: seq<Step>, check: Step)
    requires granted <= built && request.payload.Some? && request.payload.value.AcquireLease? && clocks.NeverBack()
    requires Begin(broker, request, random, clocks, rpc, displayName, frameSequence, granted, built).Some?
    requires var start := Begin(broker, request, random, clocks, rpc, displayName, frameSequence, granted, built).value;
             check.Check? && PlausibleRun(start, clocks, steps + [check])
    ensures var start := Begin(broker, request, random, clocks, rpc, displayName, frameSequence, granted, built).value;
            var sys := Run(start, clocks, steps);
            Sends(sys, clocks, check.sent) ==> NotTooSoon(Verdict(sys, clocks, check.handled))
  {
    var start := Begin(broker, request, random, clocks, rpc, displayName, frameSequence, granted, built).value;
    BeginsInStep(broker, request, random, clocks, rpc, displayName, frameSequence, granted, built);
    hide Begin;
    assert (steps + [check])[..|steps|] == steps;
    RunKeepsInStep(start, clocks, steps);
    var sys := Run(start, clocks, steps);
    assert Plausible(sys, clocks, check);
    hide Run;
    if Sends(sys, clocks, check.sent) {
      DueIsNotTooSoon(sys, clocks, check.sent, check.handled);
    }
  }

  /** Exactly when a renewal comes too soon: less than 5,000 ms after the last by the Broker's clock, with the lease still alive. */
  lemma TooSoonIff(sys: System, clocks: Clocks, handled: Time)
    requires InStep(sys, clocks) && !sys.wire.failed && sys.broker.leases.active.Some?
    ensures Verdict(sys, clocks, handled) == Err(RenewedTooSoon) <==>
            && clocks.broker(handled) as int - clocks.broker(sys.handledAt) < RENEW_INTERVAL_MS
            && clocks.broker(handled) < sys.broker.leases.active.value.expiresAtMs
            && clocks.broker(sys.handledAt) as int + RENEW_INTERVAL_MS <= U64_MAX
  {
  }

  /**
   * The margin is exact, and reached from the start of a run: after any grant whose wire is
   * built at once, a first renewal sent and handled just when it is due is refused as too soon
   * if and only if the Broker's clock lost more than 250 ms since the grant.
   */
  lemma MarginIsExact(broker: Broker.BrokerState, request: ClientFrame, random: Option<LeaseId>, clocks: Clocks,
                      rpc: RpcState, displayName: string, frameSequence: U64, granted: Time, sent: Time)
    requires granted <= sent && request.payload.Some? && request.payload.value.AcquireLease? && clocks.NeverBack()
    requires Begin(broker, request, random, clocks, rpc, displayName, frameSequence, granted, granted).Some?
    requires clocks.client(sent) == clocks.client(granted) as int + RENEW_ATTEMPT_INTERVAL_MS as int
    requires !rpc.failed && rpc.canSend && frameSequence < U64_MAX
    ensures var start := Begin(broker, request, random, clocks, rpc, displayName, frameSequence, granted, granted).value;
            && Sends(start, clocks, sent)
            && (Verdict(start, clocks, sent) == Err(RenewedTooSoon) <==> !BrokerKeepsUp(clocks, granted, sent))
  {
    var start := Begin(broker, request, random, clocks, rpc, displayName, frameSequence, granted, granted).value;
    BeginsInStep(broker, request, random, clocks, rpc, displayName, frameSequence, granted, granted);
    GrantLasts(broker, request, random, clocks, rpc, displayName, frameSequence, granted);
    TooSoonIff(start, clocks, sent);
    hide Begin;
    hide Verdict;
  }

  lemma GrantLasts(broker: Broker.BrokerState, request: ClientFrame, random: Option<LeaseId>, clocks: Clocks,
                   rpc: RpcState, displayName: string, frameSequence: U64, granted: Time)
    requires request.payload.Some? && request.payload.value.AcquireLease?
    requires Begin(broker, request, random, clocks, rpc, displayName, frameSequence, granted, granted).Some?
    ensures var start := Begin(broker, request, random, clocks, rpc, displayName, frameSequence, granted, granted).value;
            && start.broker.leases.active.Some?
            && start.broker.leases.active.value.expiresAtMs == clocks.broker(granted) as int + LEASE_DURATION_MS
            && start.wire == WireState(rpc, displayName, start.wire.route, frameSequence, clocks.client(granted), false)
            && start.handledAt == start.doneAt == granted
  {
  }

  // ---- Never too late ----

  /** Bounds on how late a check may come, and on how long one leg of an exchange may take. */
  datatype Punctuality = Punctuality(poll: nat, leg: nat) {
    predicate Sufficient() {
      RENEW_ATTEMPT_INTERVAL_MS as int + DRIFT_MS + poll + 2 * leg < LEASE_DURATION_MS as int
    }
  }

  predicate OnTime(sys: System, clocks: Clocks, p: Punctuality, sent: Time) {
    && sys.checkedAt <= sent
    && clocks.client(sent) - clocks.client(sys.checkedAt) <= p.poll
    && BrokerKeepsUp(clocks, sys.doneAt, sent) && ClientKeepsUp(clocks, sys.doneAt, sent)
  }

  /** An operation of the Broker that neither ends the lease nor fails the session. */
  predicate KeepsLease(op: Broker.Op) {
    && LeavesRenewalAlone(op)
    && !op.FailClosedOp?
    && (op.HandleOp? && op.request.payload.Some? ==> !op.request.payload.value.ReleaseLease?)
  }

  /** The moment at which a Broker operation reads its clock, if it does. */
  predicate ReadsAt(op: Broker.Op, nowMs: U64) {
    match op
    case HandleOp(_, env) => env.nowMs == nowMs
    case ExpireOp(now) => now == nowMs
    case _ => true
  }

  /** The answer the Broker gave is the one the Host's call returns. */
  predicate Delivers(sys: System, clocks: Clocks, step: Step)
    requires step.Check? && sys.wire.route.Some?
  {
    var request := RenewalRequest(sys.wire);
    var reply := sys.broker.Handle(request, AtBroker(clocks, step.handled)).1;
    reply.Ok? ==>
      Yielding(sys.wire, step.ahead, step.lost, request, reply).Call(sys.wire.route.value, request.payload.value).1 == Ok(reply.value)
  }

  /** Checks are on time and reach the Broker; each leg is short; nothing else fails or ends the lease. */
  predicate Punctual(sys: System, clocks: Clocks, p: Punctuality, step: Step) {
    match step
    case Check(sent, handled, done, _, _) =>
      && OnTime(sys, clocks, p, sent) && sent <= handled <= done
      && clocks.broker(handled) - clocks.broker(sent) <= p.leg && clocks.broker(done) - clocks.broker(handled) <= p.leg
      && (Due(sys, clocks, sent) && sys.wire.route.Some? ==> Sends(sys, clocks, sent) && Delivers(sys, clocks, step))
    case Traffic(wire) => IsTraffic(sys.wire, wire) && !wire.failed
    case BrokerDoes(op, due, now) =>
      && KeepsLease(op) && ReadsAt(op, clocks.broker(now))
      && OnTime(sys, clocks, p, due) && due <= now && clocks.broker(now) - clocks.broker(due) <= p.leg
  }

  predicate PunctualRun(sys: System, clocks: Clocks, p: Punctuality, steps: seq<Step>)
    decreases |steps|
  {
    steps != [] ==>
      && PunctualRun(sys, clocks, p, steps[..|steps| - 1])
      && Punctual(Run(sys, clocks, steps[..|steps| - 1]), clocks, p, steps[|steps| - 1])
  }

  ghost predicate Alive(sys: System, clocks: Clocks, p: Punctuality) {
    && InStep(sys, clocks) && !sys.wire.failed
    && sys.broker.leases.active.Some?
    && sys.broker.leases.active.value.expiresAtMs as int == clocks.broker(sys.handledAt) as int + LEASE_DURATION_MS as int
    && clocks.broker(sys.doneAt) - clocks.broker(sys.handledAt) <= p.leg
    && clocks.client(sys.checkedAt) - clocks.client(sys.doneAt) < RENEW_ATTEMPT_INTERVAL_MS as int
  }

  /** While checks are on time, the Broker's clock has not reached the lease's expiry. */
  lemma UnexpiredWhileOnTime(sys: System, clocks: Clocks, p: Punctuality, due: Time, now: Time)
    requires clocks.NeverBack() && p.Sufficient() && Alive(sys, clocks, p) && OnTime(sys, clocks, p, due)
    requires clocks.broker(now) - clocks.broker(due) <= p.leg
    ensures clocks.broker(now) < sys.broker.leases.active.value.expiresAtMs
  {
  }

  lemma OtherOpsKeepLease(broker: Broker.BrokerState, op: Broker.Op, nowMs: U64)
    requires KeepsLease(op) && ReadsAt(op, nowMs)
    requires broker.leases.active.Some? && nowMs < broker.leases.active.value.expiresAtMs
    ensures var after := Broker.Step(broker, op).leases;
            after.active.Some? && SameRenewal(broker.leases, after)
  {
    if op.HandleOp? {
      ForwardCounts(broker, op.request, op.env);
    }
    hide Broker.BrokerState.ForwardAuthorized;
    hide Broker.BrokerState.Release;
  }

  lemma DeliveredGrantRenews(wire: WireState, clock: Reading, reply: ServerFrame, lease: Lease, permissions: seq<int>)
    requires wire.route.Some? && SaturatingSub(clock.before, wire.lastRenewedAtMs) >= RENEW_ATTEMPT_INTERVAL_MS
    requires wire.Call(wire.route.value, RenewLease(RefOf(wire.route.value))).1 == Ok(reply)
    requires reply.payload == Some(LeaseGranted(lease, permissions)) && wire.route.value == ProxyRoute(lease.id, lease.generation)
    requires lease.generation != 0 && !wire.failed
    ensures var (next, error) := wire.RenewIfDue(clock);
            error.None? && !next.failed && next.lastRenewedAtMs == clock.after && next.route == wire.route
  {
    hide RpcState.Call;
  }

  /** A check that sends, on time and in step, renews the lease at both ends. */
  lemma CheckRenews(sys: System, clocks: Clocks, p: Punctuality, step: Step)
    requires clocks.NeverBack() && p.Sufficient() && Alive(sys, clocks, p)
    requires forall t :: clocks.broker(t) + LEASE_DURATION_MS <= U64_MAX
    requires step.Check? && Punctual(sys, clocks, p, step) && Due(sys, clocks, step.sent)
    ensures Verdict(sys, clocks, step.handled).Ok? && Alive(DoCheck(sys, clocks, step), clocks, p)
  {
    var reading := Reading(clocks.client(step.sent), clocks.client(step.done));
    DueIsNotTooSoon(sys, clocks, step.sent, step.handled);
    UnexpiredWhileOnTime(sys, clocks, p, step.sent, step.handled);
    var verdict := Verdict(sys, clocks, step.handled);
    assert clocks.broker(sys.handledAt) + LEASE_DURATION_MS <= U64_MAX && clocks.broker(step.handled) + LEASE_DURATION_MS <= U64_MAX;
    assert verdict.Ok?;
    var request := RenewalRequest(sys.wire);
    BrokerRenews(sys.broker, sys.wire, clocks, step.handled);
    var reply := sys.broker.Handle(request, AtBroker(clocks, step.handled)).1;
    DeliveredGrantRenews(Yielding(sys.wire, step.ahead, step.lost, request, reply), reading, reply.value, verdict.value, sys.broker.permissions);
    hide Broker.BrokerState.Handle;
    hide WireState.RenewIfDue;
    hide WireState.Call;
  }

  lemma StepKeepsAlive(sys: System, clocks: Clocks, p: Punctuality, step: Step)
    requires clocks.NeverBack() && p.Sufficient() && Alive(sys, clocks, p) && Punctual(sys, clocks, p, step)
    requires forall t :: clocks.broker(t) + LEASE_DURATION_MS <= U64_MAX
    ensures Alive(Next(sys, clocks, step), clocks, p)
  {
    match step
    case Check(sent, _, _, _, _) =>
      if Due(sys, clocks, sent) {
        CheckRenews(sys, clocks, p, step);
        hide DoCheck;
      }
    case Traffic(_) =>
    case BrokerDoes(op, due, now) =>
      UnexpiredWhileOnTime(sys, clocks, p, due, now);
      OtherOpsKeepLease(sys.broker, op, clocks.broker(now));
      hide Broker.Step;
  }

  lemma {:induction false} RunKeepsAlive(sys: System, clocks: Clocks, p: Punctuality, steps: seq<Step>)
    requires clocks.NeverBack() && p.Sufficient() && Alive(sys, clocks, p) && PunctualRun(sys, clocks, p, steps)
    requires forall t :: clocks.broker(t) + LEASE_DURATION_MS <= U64_MAX
    ensures Alive(Run(sys, clocks, steps), clocks, p)
    decreases |steps|
  {
    hide Alive;
    hide Next;
    if steps != [] {
      RunKeepsAlive(sys, clocks, p, steps[..|steps| - 1]);
      StepKeepsAlive(Run(sys, clocks, steps[..|steps| - 1]), clocks, p, steps[|steps| - 1]);
    }
  }

  lemma BeginsAlive(broker: Broker.BrokerState, request: ClientFrame, random: Option<LeaseId>, clocks: Clocks, p: Punctuality,
                    rpc: RpcState, displayName: string, frameSequence: U64, granted: Time, built: Time)
    requires granted <= built && request.payload.Some? && request.payload.value.AcquireLease?
    requires clocks.broker(built) - clocks.broker(granted) <= p.leg
    requires Begin(broker, request, random, clocks, rpc, displayName, frameSequence, granted, built).Some?
    ensures Alive(Begin(broker, request, random, clocks, rpc, displayName, frameSequence, granted, built).value, clocks, p)
  {
    BeginsInStep(broker, request, random, clocks, rpc, displayName, frameSequence, granted, built);
  }

  /**
   * Never too late: if checks come at most `poll` ms apart, each leg takes at most `leg` ms,
   * 5,500 + poll + 2 leg < 15,000, and the clocks drift by at most 250 ms per interval, then
   * in runs of any length the lease is active after every step, and every due check renews it.
   */
  lemma NeverExpires(broker: Broker.BrokerState, request: ClientFrame, random: Option<LeaseId>, clocks: Clocks, p: Punctuality,
                     rpc: RpcState, displayName: string, frameSequence: U64, granted: Time, built: Time,
                     steps: seq<Step>, check: Step)
    requires granted <= built && request.payload.Some? && request.payload.value.AcquireLease?
    requires clocks.NeverBack() && p.Sufficient() && forall t :: clocks.broker(t) + LEASE_DURATION_MS <= U64_MAX
    requires clocks.broker(built) - clocks.broker(granted) <= p.leg
    requires Begin(broker, request, random, clocks, rpc, displayName, frameSequence, granted, built).Some?
    requires var start := Begin(broker, request, random, clocks, rpc, displayName, frameSequence, granted, built).value;
             check.Check? && PunctualRun(start, clocks, p, steps + [check])
    ensures var start := Begin(broker, request, random, clocks, rpc, displayName, frameSequence, granted, built).value;
            var sys := Run(start, clocks, steps);
            && sys.broker.leases.active.Some? && sys.broker.leases.active.value.id == start.broker.leases.active.value.id
            && clocks.broker(check.handled) < sys.broker.leases.active.value.expiresAtMs
            && sys.wire.route.Some? && (Due(sys, clocks, check.sent) ==> Verdict(sys, clocks, check.handled).Ok?)
  {
    var start := Begin(broker, request, random, clocks, rpc, displayName, frameSequence, granted, built).value;
    BeginsAlive(broker, request, random, clocks, p, rpc, displayName, frameSequence, granted, built);
    hide Begin;
    assert (steps + [check])[..|steps|] == steps;
    RunKeepsAlive(start, clocks, p, steps);
    var sys := Run(start, clocks, steps);
    RouteIsKept(start, clocks, p, steps);
    UnexpiredWhileOnTime(sys, clocks, p, check.sent, check.handled);
    if Due(sys, clocks, check.sent) {
      CheckRenews(sys, clocks, p, check);
    }
    hide Run;
    hide DoCheck;
  }

  lemma {:induction false} RouteIsKept(sys: System, clocks: Clocks, p: Punctuality, steps: seq<Step>)
    requires PunctualRun(sys, clocks, p, steps) && sys.wire.route.Some?
    ensures Run(sys, clocks, steps).wire.route == sys.wire.route
    decreases |steps|
  {
    if steps != [] {
      RouteIsKept(sys, clocks, p, steps[..|steps| - 1]);
      var before, step := Run(sys, clocks, steps[..|steps| - 1]), steps[|steps| - 1];
      if step.Check? {
        var reading := Reading(clocks.client(step.sent), clocks.client(step.done));
        CheckDatesRenewal(before.wire, reading);
        var request := RenewalRequest(before.wire);
        var reply := before.broker.Handle(request, AtBroker(clocks, step.handled)).1;
        CheckDatesRenewal(Yielding(before.wire, step.ahead, step.lost, request, reply), reading);
      }
      hide WireState.RenewIfDue;
      hide Broker.BrokerState.Handle;
    }
  }
}
