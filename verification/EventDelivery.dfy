/**
 * Helper, Broker and Host together: what the Host's `ProxyEvents` hands out, against what
 * the Helper emitted, over every interleaving of requests, polls and failures.
 */
module EventDelivery {
  import opened Wrappers
  import opened Bytes
  import opened BridgeFrames
  import opened EventQueues
  import opened BridgeRpc
  import opened BridgeWire
  import opened Proxy
  import opened HelperProtocol
  import Broker
  import Leases

  /** An event of the native backend, and the route attached when it was raised. */
  datatype Raised = Raised(event: ProxyEvent, route: ProxyRoute)

  /** `emitted` is what the Helper sent, `raised` what its backend gave it to send, `delivered` what the Host was handed. */
  datatype System = System(
    helper: HelperState,
    brokerLink: RpcState,
    broker: Broker.BrokerState,
    proxy: ProxyState,
    emitted: seq<ServerFrame>,
    raised: seq<Raised>,
    delivered: seq<ProxyEvent>)

  datatype Step =
    /** The Helper executes a command; its response, if any, enters the Broker's link. */
    | HelperHandles(request: ClientFrame, outcome: BackendOutcome)
    /** The Helper polls its backend; an event is numbered and enters the Broker's link. */
    | HelperPolls(polled: Result<Option<ProxyEvent>, HelperError>)
    /** The Broker handles one Host request, exchanging with the Helper where it must. */
    | BrokerHandles(request: ClientFrame, nowMs: U64, random: Option<Leases.LeaseId>)
    | BrokerPolls
    | BrokerExpires(nowMs: U64)
    /** Anything that is not an event arrives on a link: responses, garbage, a broken connection. */
    | NoiseAtBroker(noise: Incoming)
    | NoiseAtHost(noise: Incoming)
    | LinkSends(atHost: bool, works: bool)
    | HostPerforms(op: WireOp, clock: Reading)
    | HostCloses(clock: Reading)
    | HostPolls(clock: Reading)

  predicate IsEvent(frame: ServerFrame) {
    frame.payload.Some? && frame.payload.value.Event?
  }

  predicate CarriesEvent(item: Incoming) {
    item.Frame? && IsEvent(item.frame)
  }

  function Arrive(link: RpcState, items: seq<Incoming>): RpcState {
    link.(inbox := link.inbox + items)
  }

  function HostLink(sys: System): RpcState {
    sys.proxy.wire.rpc
  }

  function ArriveAtHost(proxy: ProxyState, items: seq<Incoming>): ProxyState {
    proxy.(wire := proxy.wire.(rpc := Arrive(proxy.wire.rpc, items)))
  }

  /** The Broker tears the connection down: both ends see it broken. */
  function TearDown(sys: System, parting: seq<Incoming>): System {
    sys.(broker := sys.broker.FailClosed(),
         brokerLink := sys.brokerLink.FailClosed(),
         proxy := ArriveAtHost(sys.proxy, parting + [Broken]))
  }

  function BrokerHandle(sys: System, request: ClientFrame, nowMs: U64, random: Option<Leases.LeaseId>): System {
    var (used, answer) := sys.brokerLink.Call(request);
    var env := Broker.Surroundings(nowMs, random, if answer.Ok? then Some(answer.value) else None);
    var (next, reply) := sys.broker.Handle(request, env);
    var exchanged := |next.log| > |sys.broker.log| && next.log[|sys.broker.log|].Exchanged?;
    var after := sys.(broker := next, brokerLink := if exchanged then used else sys.brokerLink);
    match reply
    case Ok(frame) => after.(proxy := ArriveAtHost(sys.proxy, [Frame(frame)]))
    case Err(_) => TearDown(after, [Frame(Answering(request, Error))])
  }

  function BrokerPoll(sys: System): System {
    var (link, polled) := sys.brokerLink.TryEvent();
    var (next, event) := sys.broker.TryEvent(if polled.Ok? then Some(polled.value) else None);
    var after := sys.(broker := next, brokerLink := link);
    match event
    case Ok(Some(frame)) => after.(proxy := ArriveAtHost(sys.proxy, [Frame(frame)]))
    case Ok(None) => after
    case Err(_) => TearDown(after, [])
  }

  /** The backend has an event, and the Helper is in a position to number one. */
  predicate Raises(helper: HelperState, polled: Result<Option<ProxyEvent>, HelperError>) {
    polled.Ok? && polled.value.Some? && !helper.failed && helper.route.Some? && helper.nextEventSequence < U64_MAX
  }

  function Noting(sys: System, polled: Result<Option<ProxyEvent>, HelperError>): seq<Raised> {
    sys.raised + if Raises(sys.helper, polled) then [Raised(polled.value.value, sys.helper.route.value)] else []
  }

  function Next(sys: System, step: Step): System {
    match step
    case HelperHandles(request, outcome) =>
      var (next, reply) := sys.helper.Handle(request, outcome);
      sys.(helper := next, brokerLink := if reply.Ok? then Arrive(sys.brokerLink, [Frame(reply.value)]) else sys.brokerLink)
    case HelperPolls(polled) =>
      var (next, event) := sys.helper.TryEvent(polled);
      if event.Err? || event.value.None? then sys.(helper := next, raised := Noting(sys, polled))
      else
        sys.(helper := next,
             brokerLink := Arrive(sys.brokerLink, [Frame(event.value.value)]),
             emitted := sys.emitted + [event.value.value],
             raised := Noting(sys, polled))
    case BrokerHandles(request, nowMs, random) => BrokerHandle(sys, request, nowMs, random)
    case BrokerPolls => BrokerPoll(sys)
    case BrokerExpires(nowMs) =>
      var (next, expired) := sys.broker.Expire(nowMs);
      if expired then TearDown(sys.(broker := next), []) else sys
    case NoiseAtBroker(noise) => if CarriesEvent(noise) then sys else sys.(brokerLink := Arrive(sys.brokerLink, [noise]))
    case NoiseAtHost(noise) => if CarriesEvent(noise) then sys else sys.(proxy := ArriveAtHost(sys.proxy, [noise]))
    case LinkSends(atHost, works) =>
      if atHost then sys.(proxy := sys.proxy.(wire := sys.proxy.wire.(rpc := HostLink(sys).(canSend := works))))
      else sys.(brokerLink := sys.brokerLink.(canSend := works))
    case HostPerforms(op, clock) => sys.(proxy := sys.proxy.Perform(op, clock).0)
    case HostCloses(clock) => sys.(proxy := sys.proxy.Close(clock).0)
    case HostPolls(clock) =>
      var (next, event) := sys.proxy.TryRecv(clock);
      sys.(proxy := next,
           delivered := if event.Ok? && event.value.Some? then sys.delivered + [event.value.value] else sys.delivered)
  }

  const IDLE_LINK := RpcState([], true, Queue([], None, false), false, [])

  /** A fresh Helper, a Broker session in any state, and a proxy just created for one route. */
  function FreshSystem(broker: Broker.BrokerState, route: ProxyRoute, displayName: string, frameSequence: U64, nowMs: U64): System {
    var wire := WireState(IDLE_LINK, displayName, Some(route), frameSequence, nowMs, false);
    System(NEW_HELPER, IDLE_LINK, broker, ProxyState(route, 1, 0, wire, false, false), [], [], [])
  }

  function Run(sys: System, steps: seq<Step>): System
    decreases |steps|
  {
    if steps == [] then sys else Next(Run(sys, steps[..|steps| - 1]), steps[|steps| - 1])
  }

  // ---- Every event frame anywhere is one the Helper emitted, in its numbered place ----

  predicate Genuine(frame: ServerFrame, emitted: seq<ServerFrame>) {
    1 <= frame.sequence <= |emitted| && emitted[frame.sequence - 1] == frame
  }

  predicate QueueGenuine(queue: Queue<ServerFrame>, emitted: seq<ServerFrame>) {
    && (forall f <- queue.critical :: IsEvent(f) && Genuine(f, emitted))
    && (queue.fast.Some? ==> IsEvent(queue.fast.value) && Genuine(queue.fast.value, emitted))
  }

  predicate InboxGenuine(inbox: seq<Incoming>, emitted: seq<ServerFrame>) {
    forall item <- inbox :: CarriesEvent(item) ==> Genuine(item.frame, emitted)
  }

  predicate LinkGenuine(link: RpcState, emitted: seq<ServerFrame>) {
    InboxGenuine(link.inbox, emitted) && QueueGenuine(link.queue, emitted)
  }

  predicate Numbered(helper: HelperState, emitted: seq<ServerFrame>) {
    && helper.nextEventSequence == |emitted| + 1
    && forall i | 0 <= i < |emitted| :: emitted[i].sequence == i + 1 && IsEvent(emitted[i])
  }

  /** Every emitted frame carries the event raised in its turn, for the route then attached. */
  predicate CarriesRaised(emitted: seq<ServerFrame>, raised: seq<Raised>) {
    && |emitted| == |raised|
    && forall i | 0 <= i < |emitted| :: emitted[i].payload == Some(Event(RefOf(raised[i].route), raised[i].event))
  }

  predicate DeliveredPrefix(proxy: ProxyState, emitted: seq<ServerFrame>, delivered: seq<ProxyEvent>) {
    && |delivered| == proxy.lastEventSequence <= |emitted|
    && forall i | 0 <= i < |delivered| ::
         && IsEvent(emitted[i])
         && delivered[i] == emitted[i].payload.value.event
         && ParseRoute(emitted[i].payload.value.ref) == Some(proxy.route)
  }

  predicate Inv(sys: System) {
    && Numbered(sys.helper, sys.emitted)
    && CarriesRaised(sys.emitted, sys.raised)
    && LinkGenuine(sys.brokerLink, sys.emitted)
    && LinkGenuine(HostLink(sys), sys.emitted)
    && DeliveredPrefix(sys.proxy, sys.emitted, sys.delivered)
  }

  // ---- The links neither forge nor renumber ----

  lemma EnqueueKeepsGenuine(link: RpcState, frame: ServerFrame, emitted: seq<ServerFrame>)
    requires LinkGenuine(link, emitted) && (IsEvent(frame) ==> Genuine(frame, emitted))
    ensures var (next, outcome) := link.EnqueueEvent(frame);
            && LinkGenuine(next, emitted) && next.inbox == link.inbox
            && (outcome.Ok? && outcome.value.Some? ==> outcome.value.value == frame && !IsEvent(frame))
  {
  }

  lemma QueuedEventIsGenuine(link: RpcState, emitted: seq<ServerFrame>)
    requires LinkGenuine(link, emitted)
    ensures var (next, r) := link.QueuedEvent();
            && LinkGenuine(next, emitted) && next.inbox == link.inbox
            && (r.Ok? && r.value.Some? ==> IsEvent(r.value.value) && Genuine(r.value.value, emitted))
  {
  }

  lemma {:induction false} AwaitKeepsGenuine(link: RpcState, request: ClientFrame, emitted: seq<ServerFrame>)
    requires LinkGenuine(link, emitted)
    ensures var (next, reply) := link.AwaitResponse(request);
            LinkGenuine(next, emitted) && (reply.Ok? ==> !IsEvent(reply.value))
    decreases |link.inbox|
  {
    if link.inbox != [] && link.inbox[0].Frame? {
      var rest := link.(inbox := link.inbox[1..]);
      assert link.inbox[0] in link.inbox;
      EnqueueKeepsGenuine(rest, link.inbox[0].frame, emitted);
      var (queued, outcome) := rest.EnqueueEvent(link.inbox[0].frame);
      if outcome == Ok(None) {
        AwaitKeepsGenuine(queued, request, emitted);
      }
    }
  }

  lemma CallKeepsGenuine(link: RpcState, request: ClientFrame, emitted: seq<ServerFrame>)
    requires LinkGenuine(link, emitted)
    ensures var (next, reply) := link.Call(request);
            LinkGenuine(next, emitted) && (reply.Ok? ==> !IsEvent(reply.value))
  {
    AwaitKeepsGenuine(link, request, emitted);
  }

  lemma TryEventIsGenuine(link: RpcState, emitted: seq<ServerFrame>)
    requires LinkGenuine(link, emitted)
    ensures var (next, r) := link.TryEvent();
            && LinkGenuine(next, emitted)
            && (r.Ok? && r.value.Some? ==> IsEvent(r.value.value) && Genuine(r.value.value, emitted))
  {
    QueuedEventIsGenuine(link, emitted);
    var (polled, queued) := link.QueuedEvent();
    if polled.inbox != [] && polled.inbox[0].Frame? {
      var rest := polled.(inbox := polled.inbox[1..]);
      assert polled.inbox[0] in polled.inbox;
      EnqueueKeepsGenuine(rest, polled.inbox[0].frame, emitted);
      QueuedEventIsGenuine(rest.EnqueueEvent(polled.inbox[0].frame).0, emitted);
    }
  }

  lemma WireCallKeepsGenuine(wire: WireState, route: ProxyRoute, payload: ClientPayload, emitted: seq<ServerFrame>)
    requires LinkGenuine(wire.rpc, emitted)
    ensures LinkGenuine(wire.Call(route, payload).0.rpc, emitted)
  {
    CallKeepsGenuine(wire.rpc, ClientFrame(RequestId(route, wire.nextFrameSequence), wire.nextFrameSequence, Some(payload)), emitted);
  }

  lemma RenewKeepsGenuine(wire: WireState, clock: Reading, emitted: seq<ServerFrame>)
    requires LinkGenuine(wire.rpc, emitted)
    ensures LinkGenuine(wire.RenewIfDue(clock).0.rpc, emitted)
  {
    if wire.route.Some? {
      WireCallKeepsGenuine(wire, wire.route.value, RenewLease(RefOf(wire.route.value)), emitted);
    }
  }

  lemma WirePerformKeepsGenuine(wire: WireState, request: BridgeRequest, op: WireOp, clock: Reading, emitted: seq<ServerFrame>)
    requires LinkGenuine(wire.rpc, emitted)
    ensures LinkGenuine(wire.Perform(request, op, clock).0.rpc, emitted)
  {
    RenewKeepsGenuine(wire, clock, emitted);
    var ready := if op.RenewsFirst() then wire.RenewIfDue(clock).0 else wire;
    WireCallKeepsGenuine(ready, request.route, PayloadOf(op, request.route, wire.displayName), emitted);
    hide WireState.Call;
    DisplayNameIsFixed(wire, clock);
    hide WireState.RenewIfDue;
    hide LinkGenuine;
    FailClosedKeepsGenuine(ready.Call(request.route, PayloadOf(op, request.route, wire.displayName)).0, emitted);
  }

  lemma DisplayNameIsFixed(wire: WireState, clock: Reading)
    ensures wire.RenewIfDue(clock).0.displayName == wire.displayName
  {
  }

  lemma FailClosedKeepsGenuine(wire: WireState, emitted: seq<ServerFrame>)
    ensures LinkGenuine(wire.FailClosed().rpc, emitted) == LinkGenuine(wire.rpc, emitted)
  {
  }

  /** An event the wire reports is a genuine frame of the reported route and number. */
  lemma WireEventIsGenuine(wire: WireState, clock: Reading, emitted: seq<ServerFrame>)
    requires LinkGenuine(wire.rpc, emitted)
    ensures var (next, r) := wire.TryEvent(clock);
            && LinkGenuine(next.rpc, emitted)
            && (r.Ok? && r.value.Some? ==>
                  var response := r.value.value;
                  && 1 <= response.sequence <= |emitted|
                  && var frame := emitted[response.sequence - 1];
                     && IsEvent(frame)
                     && frame.payload.value.event == response.value
                     && ParseRoute(frame.payload.value.ref) == Some(response.route))
  {
    RenewKeepsGenuine(wire, clock, emitted);
    TryEventIsGenuine(wire.RenewIfDue(clock).0.rpc, emitted);
    hide WireState.RenewIfDue;
    hide RpcState.TryEvent;
  }

  lemma ProxyPerformKeeps(proxy: ProxyState, op: WireOp, clock: Reading, emitted: seq<ServerFrame>)
    requires LinkGenuine(proxy.wire.rpc, emitted)
    ensures var next := proxy.Perform(op, clock).0;
            LinkGenuine(next.wire.rpc, emitted) && next.route == proxy.route && next.lastEventSequence == proxy.lastEventSequence
  {
    var request := BridgeRequest(proxy.route, proxy.nextRequestSequence);
    WirePerformKeepsGenuine(proxy.wire, request, op, clock, emitted);
    FailClosedKeepsGenuine(proxy.wire.Perform(request, op, clock).0, emitted);
    hide WireState.Perform;
    hide LinkGenuine;
  }

  lemma ProxyCloseKeeps(proxy: ProxyState, clock: Reading, emitted: seq<ServerFrame>)
    requires LinkGenuine(proxy.wire.rpc, emitted)
    ensures var next := proxy.Close(clock).0;
            LinkGenuine(next.wire.rpc, emitted) && next.route == proxy.route && next.lastEventSequence == proxy.lastEventSequence
  {
    ProxyPerformKeeps(proxy, WireOp.Close, clock, emitted);
    ProxyPerformKeeps(proxy.Perform(WireOp.Close, clock).0, Release, clock, emitted);
    hide ProxyState.Perform;
    hide LinkGenuine;
  }

  lemma ProxyRecvKeeps(proxy: ProxyState, clock: Reading, emitted: seq<ServerFrame>, delivered: seq<ProxyEvent>)
    requires LinkGenuine(proxy.wire.rpc, emitted) && DeliveredPrefix(proxy, emitted, delivered)
    ensures var (next, r) := proxy.TryRecv(clock);
            && LinkGenuine(next.wire.rpc, emitted)
            && DeliveredPrefix(next, emitted, if r.Ok? && r.value.Some? then delivered + [r.value.value] else delivered)
  {
    WireEventIsGenuine(proxy.wire, clock, emitted);
    FailClosedKeepsGenuine(proxy.wire.TryEvent(clock).0, emitted);
    hide WireState.TryEvent;
    hide LinkGenuine;
  }

  lemma GenuineGrows(link: RpcState, emitted: seq<ServerFrame>, more: ServerFrame)
    requires LinkGenuine(link, emitted)
    ensures LinkGenuine(link, emitted + [more])
  {
  }

  lemma ArriveKeepsGenuine(link: RpcState, items: seq<Incoming>, emitted: seq<ServerFrame>)
    requires LinkGenuine(link, emitted) && InboxGenuine(items, emitted)
    ensures LinkGenuine(Arrive(link, items), emitted)
  {
  }

  /** What the Broker answers is a lease or the Helper's own response, never an event. */
  lemma BrokerAnswersNoEvent(broker: Broker.BrokerState, request: ClientFrame, env: Broker.Surroundings)
    requires env.answer.Some? ==> !IsEvent(env.answer.value)
    ensures var (_, reply) := broker.Handle(request, env); reply.Ok? ==> !IsEvent(reply.value)
  {
  }

  lemma BrokerPassesTheFrame(broker: Broker.BrokerState, polled: Option<Option<ServerFrame>>)
    ensures var (_, r) := broker.TryEvent(polled);
            && (r.Ok? && r.value.Some? ==> polled == Some(r.value))
            && (r == Ok(None) ==> polled == Some(None))
  {
  }

  predicate LinksGenuine(sys: System, emitted: seq<ServerFrame>) {
    LinkGenuine(sys.brokerLink, emitted) && LinkGenuine(HostLink(sys), emitted)
  }

  /** Neither the Helper nor what the Host was handed has moved. */
  predicate OnlyForwarded(sys: System, next: System) {
    && next.helper == sys.helper && next.emitted == sys.emitted && next.raised == sys.raised && next.delivered == sys.delivered
    && next.proxy.lastEventSequence == sys.proxy.lastEventSequence && next.proxy.route == sys.proxy.route
  }

  lemma BrokerHandleForwards(sys: System, request: ClientFrame, nowMs: U64, random: Option<Leases.LeaseId>, emitted: seq<ServerFrame>)
    requires LinksGenuine(sys, emitted)
    ensures var next := BrokerHandle(sys, request, nowMs, random); LinksGenuine(next, emitted) && OnlyForwarded(sys, next)
  {
    CallKeepsGenuine(sys.brokerLink, request, emitted);
    var answer := sys.brokerLink.Call(request).1;
    var env := Broker.Surroundings(nowMs, random, if answer.Ok? then Some(answer.value) else None);
    BrokerAnswersNoEvent(sys.broker, request, env);
    hide RpcState.Call;
    hide Broker.BrokerState.Handle;
    hide QueueGenuine;
  }

  lemma BrokerPollForwards(sys: System, emitted: seq<ServerFrame>)
    requires LinksGenuine(sys, emitted)
    ensures var next := BrokerPoll(sys); LinksGenuine(next, emitted) && OnlyForwarded(sys, next)
  {
    TryEventIsGenuine(sys.brokerLink, emitted);
    var (link, polled) := sys.brokerLink.TryEvent();
    BrokerPassesTheFrame(sys.broker, if polled.Ok? then Some(polled.value) else None);
    hide RpcState.TryEvent;
    hide Broker.BrokerState.TryEvent;
    hide QueueGenuine;
  }

  lemma HelperResponds(helper: HelperState, request: ClientFrame, outcome: BackendOutcome)
    ensures var (next, reply) := helper.Handle(request, outcome);
            next.nextEventSequence == helper.nextEventSequence && (reply.Ok? ==> !IsEvent(reply.value))
  {
  }

  lemma HelperNumbers(helper: HelperState, polled: Result<Option<ProxyEvent>, HelperError>)
    ensures var (next, r) := helper.TryEvent(polled);
            if r.Ok? && r.value.Some? then
              && Raises(helper, polled) && next.nextEventSequence == helper.nextEventSequence + 1
              && r.value.value.sequence == helper.nextEventSequence
              && r.value.value.payload == Some(Event(RefOf(helper.route.value), polled.value.value))
            else !Raises(helper, polled) && next.nextEventSequence == helper.nextEventSequence
  {
  }

  lemma HelperHandlesForwards(sys: System, request: ClientFrame, outcome: BackendOutcome, emitted: seq<ServerFrame>)
    requires LinksGenuine(sys, emitted)
    ensures var next := Next(sys, HelperHandles(request, outcome));
            && LinksGenuine(next, emitted) && OnlyForwarded(sys, next.(helper := sys.helper))
            && next.helper.nextEventSequence == sys.helper.nextEventSequence
  {
    HelperResponds(sys.helper, request, outcome);
    hide HelperState.Handle;
    hide QueueGenuine;
  }

  /** A new event is genuine for any account of the past it extends by its number. */
  lemma HelperPollsExtends(sys: System, polled: Result<Option<ProxyEvent>, HelperError>, past: seq<ServerFrame>)
    requires Numbered(sys.helper, sys.emitted) && LinksGenuine(sys, past) && |past| == |sys.emitted|
    ensures var next := Next(sys, HelperPolls(polled));
            && Numbered(next.helper, next.emitted)
            && (CarriesRaised(sys.emitted, sys.raised) ==> CarriesRaised(next.emitted, next.raised))
            && OnlyForwarded(sys, next.(helper := sys.helper, emitted := sys.emitted, raised := sys.raised))
            && sys.emitted <= next.emitted
            && LinksGenuine(next, past + next.emitted[|sys.emitted|..])
  {
    HelperNumbers(sys.helper, polled);
    var (next, r) := sys.helper.TryEvent(polled);
    hide HelperState.TryEvent;
    if r.Ok? && r.value.Some? {
      var frame := r.value.value;
      GenuineGrows(sys.brokerLink, past, frame);
      GenuineGrows(HostLink(sys), past, frame);
      ArriveKeepsGenuine(sys.brokerLink, [Frame(frame)], past + [frame]);
      assert (sys.emitted + [frame])[|sys.emitted|..] == [frame];
    } else {
      assert sys.emitted[|sys.emitted|..] == [] && past + [] == past;
    }
    hide LinkGenuine;
  }

  lemma LinkStepKeepsGenuine(sys: System, step: Step, emitted: seq<ServerFrame>)
    requires LinksGenuine(sys, emitted) && (step.BrokerExpires? || step.NoiseAtBroker? || step.NoiseAtHost? || step.LinkSends?)
    ensures LinksGenuine(Next(sys, step), emitted) && OnlyForwarded(sys, Next(sys, step))
  {
    hide QueueGenuine;
  }

  lemma NextKeepsInv(sys: System, step: Step)
    requires Inv(sys)
    ensures Inv(Next(sys, step))
  {
    match step
    case HelperHandles(request, outcome) =>
      HelperHandlesForwards(sys, request, outcome, sys.emitted);
      hide Next;
      hide LinkGenuine;
    case HelperPolls(polled) =>
      HelperPollsExtends(sys, polled, sys.emitted);
      var next := Next(sys, step);
      assert sys.emitted + next.emitted[|sys.emitted|..] == next.emitted;
      hide Next;
      hide LinkGenuine;
    case BrokerHandles(request, nowMs, random) =>
      BrokerHandleForwards(sys, request, nowMs, random, sys.emitted);
      hide BrokerHandle;
      hide LinkGenuine;
    case BrokerPolls =>
      BrokerPollForwards(sys, sys.emitted);
      hide BrokerPoll;
      hide LinkGenuine;
    case BrokerExpires(_) => LinkStepKeepsGenuine(sys, step, sys.emitted);
    case NoiseAtBroker(_) => LinkStepKeepsGenuine(sys, step, sys.emitted);
    case NoiseAtHost(_) => LinkStepKeepsGenuine(sys, step, sys.emitted);
    case LinkSends(_, _) => LinkStepKeepsGenuine(sys, step, sys.emitted);
    case HostPerforms(op, clock) =>
      ProxyPerformKeeps(sys.proxy, op, clock, sys.emitted);
      hide ProxyState.Perform;
      hide LinkGenuine;
    case HostCloses(clock) =>
      ProxyCloseKeeps(sys.proxy, clock, sys.emitted);
      hide ProxyState.Close;
      hide LinkGenuine;
    case HostPolls(clock) =>
      ProxyRecvKeeps(sys.proxy, clock, sys.emitted, sys.delivered);
      hide ProxyState.TryRecv;
      hide LinkGenuine;
  }

  lemma {:induction false} RunKeepsInv(sys: System, steps: seq<Step>)
    requires Inv(sys)
    ensures Inv(Run(sys, steps))
    decreases |steps|
  {
    if steps != [] {
      RunKeepsInv(sys, steps[..|steps| - 1]);
      NextKeepsInv(Run(sys, steps[..|steps| - 1]), steps[|steps| - 1]);
    }
  }

  function EventsOf(frames: seq<ServerFrame>): seq<ProxyEvent>
    requires forall frame <- frames :: IsEvent(frame)
  {
    if frames == [] then []
    else
      assert IsEvent(frames[|frames| - 1]);
      EventsOf(frames[..|frames| - 1]) + [frames[|frames| - 1].payload.value.event]
  }

  lemma {:induction false} EventsOfPointwise(frames: seq<ServerFrame>, events: seq<ProxyEvent>)
    requires |events| == |frames|
    requires forall i | 0 <= i < |frames| :: IsEvent(frames[i]) && events[i] == frames[i].payload.value.event
    ensures events == EventsOf(frames)
    decreases |frames|
  {
    if frames != [] {
      var n := |frames| - 1;
      EventsOfPointwise(frames[..n], events[..n]);
      assert events == events[..n] + [events[n]];
    }
  }

  /**
   * End-to-end delivery: in every run, the events the Host has been handed are exactly the
   * first n the Helper emitted, in order, none repeated or skipped, all of the proxy's route.
   */
  lemma DeliveryIsAPrefix(broker: Broker.BrokerState, route: ProxyRoute, displayName: string, frameSequence: U64, nowMs: U64, steps: seq<Step>)
    ensures var sys := Run(FreshSystem(broker, route, displayName, frameSequence, nowMs), steps);
            var n := |sys.delivered|;
            && n <= |sys.emitted|
            && (forall i | 0 <= i < n :: IsEvent(sys.emitted[i]) && ParseRoute(sys.emitted[i].payload.value.ref) == Some(route))
            && sys.delivered == EventsOf(sys.emitted[..n])
  {
    RunKeepsInv(FreshSystem(broker, route, displayName, frameSequence, nowMs), steps);
    RouteIsFixed(FreshSystem(broker, route, displayName, frameSequence, nowMs), steps);
    var sys := Run(FreshSystem(broker, route, displayName, frameSequence, nowMs), steps);
    EventsOfPointwise(sys.emitted[..|sys.delivered|], sys.delivered);
    hide LinkGenuine;
  }

  /**
   * What the backend raised is what the Host is handed: in every run the events delivered
   * are exactly the first n raised, unaltered and in order, each raised while the proxy's
   * route was attached.
   */
  lemma EventsArriveAsRaised(broker: Broker.BrokerState, route: ProxyRoute, displayName: string, frameSequence: U64, nowMs: U64, steps: seq<Step>)
    ensures var sys := Run(FreshSystem(broker, route, displayName, frameSequence, nowMs), steps);
            && |sys.delivered| <= |sys.raised| == |sys.emitted|
            && (forall i | 0 <= i < |sys.delivered| :: sys.delivered[i] == sys.raised[i].event && sys.raised[i].route == route)
            && (forall i | 0 <= i < |sys.emitted| ::
                  && sys.emitted[i].sequence == i + 1
                  && sys.emitted[i].payload == Some(Event(RefOf(sys.raised[i].route), sys.raised[i].event)))
  {
    RunKeepsInv(FreshSystem(broker, route, displayName, frameSequence, nowMs), steps);
    RouteIsFixed(FreshSystem(broker, route, displayName, frameSequence, nowMs), steps);
    hide LinkGenuine;
  }

  lemma NextKeepsRoute(sys: System, step: Step)
    ensures Next(sys, step).proxy.route == sys.proxy.route
    ensures sys.proxy.failed ==> Next(sys, step).proxy.failed && Next(sys, step).delivered == sys.delivered
  {
    if step.HostPerforms? {
      hide WireState.Perform;
    } else if step.HostPolls? {
      hide WireState.TryEvent;
    } else if step.HostCloses? {
      hide WireState.Perform;
    } else {
      hide RpcState.Call;
      hide RpcState.TryEvent;
      hide Broker.BrokerState.Handle;
    }
  }

  lemma {:induction false} RouteIsFixed(sys: System, steps: seq<Step>)
    ensures Run(sys, steps).proxy.route == sys.proxy.route
    ensures sys.proxy.failed ==> Run(sys, steps).proxy.failed && Run(sys, steps).delivered == sys.delivered
    decreases |steps|
  {
    if steps != [] {
      RouteIsFixed(sys, steps[..|steps| - 1]);
      NextKeepsRoute(Run(sys, steps[..|steps| - 1]), steps[|steps| - 1]);
      hide Next;
    }
  }

  /** A proxy that has failed closed stays so and hands out nothing more, whatever still arrives. */
  lemma {:induction false} FailedProxyDeliversNothing(sys: System, steps: seq<Step>)
    requires sys.proxy.failed
    ensures Run(sys, steps).proxy.failed && Run(sys, steps).delivered == sys.delivered
  {
    RouteIsFixed(sys, steps);
  }

  /** A poll hands out nothing only because nothing was available, or it closes the proxy for good. */
  lemma PollDeliversOrFails(sys: System, clock: Reading)
    requires sys.proxy.lastEventSequence < U64_MAX
    ensures var next := Next(sys, HostPolls(clock));
            || next.proxy.failed
            || (sys.proxy.wire.TryEvent(clock).1 == Ok(None) && next.delivered == sys.delivered)
            || (|next.delivered| == |sys.delivered| + 1 && next.delivered[..|sys.delivered|] == sys.delivered)
  {
    hide WireState.TryEvent;
  }

  // ---- An event that is lost ends delivery ----

  /** A stand-in for an emitted event that no link holds any more. */
  const HOLE := ServerFrame("", 0, None)

  /** Event number `n` was emitted, has not been delivered, and is on neither link. */
  predicate IsLost(sys: System, n: nat) {
    |sys.delivered| < n <= |sys.emitted| && LinksGenuine(sys, sys.emitted[n - 1 := HOLE])
  }

  predicate Holds(link: RpcState, sequence: nat) {
    || (exists item <- link.inbox :: CarriesEvent(item) && item.frame.sequence == sequence)
    || (exists f <- link.queue.critical :: f.sequence == sequence)
    || (link.queue.fast.Some? && link.queue.fast.value.sequence == sequence)
  }

  /** On neither link is what it says. */
  lemma LostMeansOnNeitherLink(sys: System, n: nat)
    requires Inv(sys) && |sys.delivered| < n <= |sys.emitted|
    ensures IsLost(sys, n) <==> !Holds(sys.brokerLink, n) && !Holds(HostLink(sys), n)
  {
    LinkLacks(sys.brokerLink, sys.emitted, n);
    LinkLacks(HostLink(sys), sys.emitted, n);
    hide LinkGenuine;
    hide Holds;
  }

  lemma LinkLacks(link: RpcState, emitted: seq<ServerFrame>, n: nat)
    requires LinkGenuine(link, emitted) && 1 <= n <= |emitted|
    ensures LinkGenuine(link, emitted[n - 1 := HOLE]) <==> !Holds(link, n)
  {
    var holed := emitted[n - 1 := HOLE];
    assert forall f | Genuine(f, emitted) :: Genuine(f, holed) <==> f.sequence != n;
  }

  /** A poll over links without event `n` never hands it out. */
  lemma ProxyRecvStopsAtHole(proxy: ProxyState, clock: Reading, holed: seq<ServerFrame>, n: nat)
    requires LinkGenuine(proxy.wire.rpc, holed) && proxy.lastEventSequence < n <= |holed| && holed[n - 1] == HOLE
    ensures var (next, r) := proxy.TryRecv(clock);
            && LinkGenuine(next.wire.rpc, holed) && next.lastEventSequence < n
            && next.lastEventSequence == proxy.lastEventSequence as int + if r.Ok? && r.value.Some? then 1 else 0
  {
    WireEventIsGenuine(proxy.wire, clock, holed);
    FailClosedKeepsGenuine(proxy.wire.TryEvent(clock).0, holed);
    hide WireState.TryEvent;
    hide LinkGenuine;
  }

  lemma NextStaysLost(sys: System, step: Step, n: nat)
    requires Inv(sys) && IsLost(sys, n)
    ensures IsLost(Next(sys, step), n)
  {
    var holed := sys.emitted[n - 1 := HOLE];
    match step
    case HelperHandles(request, outcome) =>
      HelperHandlesForwards(sys, request, outcome, holed);
      hide Next;
      hide LinkGenuine;
    case HelperPolls(polled) =>
      HelperPollsExtends(sys, polled, holed);
      var next := Next(sys, step);
      assert holed + next.emitted[|sys.emitted|..] == next.emitted[n - 1 := HOLE];
      hide Next;
      hide LinkGenuine;
    case BrokerHandles(request, nowMs, random) =>
      BrokerHandleForwards(sys, request, nowMs, random, holed);
      hide BrokerHandle;
      hide LinkGenuine;
    case BrokerPolls =>
      BrokerPollForwards(sys, holed);
      hide BrokerPoll;
      hide LinkGenuine;
    case BrokerExpires(_) => LinkStepKeepsGenuine(sys, step, holed);
    case NoiseAtBroker(_) => LinkStepKeepsGenuine(sys, step, holed);
    case NoiseAtHost(_) => LinkStepKeepsGenuine(sys, step, holed);
    case LinkSends(_, _) => LinkStepKeepsGenuine(sys, step, holed);
    case HostPerforms(op, clock) =>
      ProxyPerformKeeps(sys.proxy, op, clock, holed);
      hide ProxyState.Perform;
      hide LinkGenuine;
    case HostCloses(clock) =>
      ProxyCloseKeeps(sys.proxy, clock, holed);
      hide ProxyState.Close;
      hide LinkGenuine;
    case HostPolls(clock) =>
      ProxyRecvStopsAtHole(sys.proxy, clock, holed, n);
      hide ProxyState.TryRecv;
      hide LinkGenuine;
  }

  /**
   * Once any event not yet delivered is on neither link, it stays lost: no continuation
   * hands the Host that event or any after it, whatever else happens.
   */
  lemma {:induction false} LostEventEndsDelivery(sys: System, steps: seq<Step>, n: nat)
    requires Inv(sys) && IsLost(sys, n)
    ensures IsLost(Run(sys, steps), n) && |Run(sys, steps).delivered| < n
    decreases |steps|
  {
    hide Next;
    hide Inv;
    if steps != [] {
      LostEventEndsDelivery(sys, steps[..|steps| - 1], n);
      hide IsLost;
      RunKeepsInv(sys, steps[..|steps| - 1]);
      NextStaysLost(Run(sys, steps[..|steps| - 1]), steps[|steps| - 1], n);
    }
    assert IsLost(Run(sys, steps), n) ==> |Run(sys, steps).delivered| < n by {
      LostIsUndelivered(Run(sys, steps), n);
    }
    hide LinksGenuine;
  }

  lemma LostIsUndelivered(sys: System, n: nat)
    ensures IsLost(sys, n) ==> |sys.delivered| < n
  {
  }

  // ---- An overwritten fast pointer is lost ----

  predicate IsFast(frame: ServerFrame) {
    IsEvent(frame) && frame.payload.value.event.FastPointer?
  }

  /** Taking the frame at the head of the inbox replaces the waiting pointer `n`, which is nowhere else. */
  predicate Replaces(link: RpcState, n: nat)
    requires link.inbox != [] && link.inbox[0].Frame?
  {
    && link.queue.fast.Some? && link.queue.fast.value.sequence == n && IsFast(link.inbox[0].frame)
    && !Holds(link.(inbox := link.inbox[1..]).EnqueueEvent(link.inbox[0].frame).0, n)
  }

  /** Somewhere before its response, the loop of `call` replaces the waiting pointer `n`. */
  predicate Overwrites(link: RpcState, n: nat)
    decreases |link.inbox|
  {
    && link.inbox != [] && link.inbox[0].Frame?
    && var (queued, outcome) := link.(inbox := link.inbox[1..]).EnqueueEvent(link.inbox[0].frame);
       outcome == Ok(None) && (Replaces(link, n) || Overwrites(queued, n))
  }

  lemma {:induction false} AwaitLosesOverwritten(link: RpcState, request: ClientFrame, emitted: seq<ServerFrame>, n: nat)
    requires LinkGenuine(link, emitted) && 1 <= n <= |emitted| && Overwrites(link, n)
    ensures LinkGenuine(link.AwaitResponse(request).0, emitted[n - 1 := HOLE])
    decreases |link.inbox|
  {
    var rest := link.(inbox := link.inbox[1..]);
    var queued := rest.EnqueueEvent(link.inbox[0].frame).0;
    assert link.inbox[0] in link.inbox;
    EnqueueKeepsGenuine(rest, link.inbox[0].frame, emitted);
    if Replaces(link, n) {
      LinkLacks(queued, emitted, n);
      AwaitKeepsGenuine(queued, request, emitted[n - 1 := HOLE]);
    } else {
      AwaitLosesOverwritten(queued, request, emitted, n);
    }
    hide LinkGenuine;
    hide Holds;
    hide RpcState.EnqueueEvent;
  }

  lemma CallLosesOverwritten(link: RpcState, request: ClientFrame, emitted: seq<ServerFrame>, n: nat)
    requires LinkGenuine(link, emitted) && 1 <= n <= |emitted| && Overwrites(link, n) && !link.failed && link.canSend
    ensures LinkGenuine(link.Call(request).0, emitted[n - 1 := HOLE])
  {
    AwaitLosesOverwritten(link, request, emitted, n);
    hide LinkGenuine;
    hide Overwrites;
  }

  /**
   * On the Helper's link: a Broker request that makes an exchange while the waiting pointer
   * is overwritten loses that event for good.
   */
  lemma OverwriteAtBrokerIsLost(sys: System, request: ClientFrame, nowMs: U64, random: Option<Leases.LeaseId>, n: nat)
    requires Inv(sys) && |sys.delivered| < n <= |sys.emitted|
    requires !sys.brokerLink.failed && sys.brokerLink.canSend && Overwrites(sys.brokerLink, n) && !Holds(HostLink(sys), n)
    requires |BrokerHandle(sys, request, nowMs, random).broker.log| == |sys.broker.log| + 1
    requires BrokerHandle(sys, request, nowMs, random).broker.log[|sys.broker.log|].Exchanged?
    ensures IsLost(BrokerHandle(sys, request, nowMs, random), n)
  {
    var holed := sys.emitted[n - 1 := HOLE];
    CallLosesOverwritten(sys.brokerLink, request, sys.emitted, n);
    CallKeepsGenuine(sys.brokerLink, request, sys.emitted);
    LinkLacks(HostLink(sys), sys.emitted, n);
    var answer := sys.brokerLink.Call(request).1;
    var env := Broker.Surroundings(nowMs, random, if answer.Ok? then Some(answer.value) else None);
    BrokerAnswersNoEvent(sys.broker, request, env);
    BrokerLogGrows(sys.broker, request, env);
    hide RpcState.Call;
    hide Broker.BrokerState.Handle;
    hide QueueGenuine;
    hide Overwrites;
    hide Holds;
  }

  lemma BrokerLogGrows(broker: Broker.BrokerState, request: ClientFrame, env: Broker.Surroundings)
    ensures broker.log <= broker.Handle(request, env).0.log
  {
  }

  /** A call of the wire that gets as far as its link. */
  predicate Reaches(wire: WireState, route: ProxyRoute) {
    !wire.failed && wire.route == Some(route) && wire.nextFrameSequence < U64_MAX && !wire.rpc.failed && wire.rpc.canSend
  }

  lemma WireCallLosesOverwritten(wire: WireState, route: ProxyRoute, payload: ClientPayload, emitted: seq<ServerFrame>, n: nat)
    requires LinkGenuine(wire.rpc, emitted) && 1 <= n <= |emitted| && Overwrites(wire.rpc, n) && Reaches(wire, route)
    ensures LinkGenuine(wire.Call(route, payload).0.rpc, emitted[n - 1 := HOLE])
  {
    CallLosesOverwritten(wire.rpc, ClientFrame(RequestId(route, wire.nextFrameSequence), wire.nextFrameSequence, Some(payload)), emitted, n);
    hide RpcState.Call;
    hide LinkGenuine;
    hide Overwrites;
    FailureKeepsLink(wire, route, payload, emitted[n - 1 := HOLE]);
  }

  lemma FailureKeepsLink(wire: WireState, route: ProxyRoute, payload: ClientPayload, emitted: seq<ServerFrame>)
    requires Reaches(wire, route)
    requires LinkGenuine(wire.rpc.Call(ClientFrame(RequestId(route, wire.nextFrameSequence), wire.nextFrameSequence, Some(payload))).0, emitted)
    ensures LinkGenuine(wire.Call(route, payload).0.rpc, emitted)
  {
    hide RpcState.Call;
  }

  /** A renewal that is due makes a call; one that is not leaves the link alone. */
  lemma RenewLosesOverwritten(wire: WireState, clock: Reading, route: ProxyRoute, emitted: seq<ServerFrame>, n: nat)
    requires LinkGenuine(wire.rpc, emitted) && 1 <= n <= |emitted| && Overwrites(wire.rpc, n) && Reaches(wire, route)
    ensures var (next, error) := wire.RenewIfDue(clock);
            LinkGenuine(next.rpc, emitted[n - 1 := HOLE]) || (next == wire && error.None?)
  {
    var payload := RenewLease(RefOf(route));
    WireCallLosesOverwritten(wire, route, payload, emitted, n);
    FailClosedKeepsGenuine(wire.Call(route, payload).0, emitted[n - 1 := HOLE]);
    hide WireState.Call;
    hide LinkGenuine;
    hide Overwrites;
  }

  predicate SameContents(a: RpcState, b: RpcState) {
    a.inbox == b.inbox && a.queue == b.queue
  }

  /** An operation leaves the link as its renewal left it, if that failed, and otherwise as its call did. */
  lemma PerformEndsAt(wire: WireState, request: BridgeRequest, op: WireOp, clock: Reading)
    requires op.ExpectsAnswer() ==> op.wellFormed
    ensures var (ready, error) := if op.RenewsFirst() then wire.RenewIfDue(clock) else (wire, None);
            var sent := ready.Call(request.route, PayloadOf(op, request.route, wire.displayName)).0;
            SameContents(wire.Perform(request, op, clock).0.rpc, if error.Some? then ready.rpc else sent.rpc)
  {
    DisplayNameIsFixed(wire, clock);
    hide WireState.RenewIfDue;
    hide WireState.Call;
    hide PayloadOf;
  }

  lemma PerformLosesOverwritten(wire: WireState, request: BridgeRequest, op: WireOp, clock: Reading, emitted: seq<ServerFrame>, n: nat)
    requires LinkGenuine(wire.rpc, emitted) && 1 <= n <= |emitted| && Overwrites(wire.rpc, n) && Reaches(wire, request.route)
    requires op.ExpectsAnswer() ==> op.wellFormed
    ensures LinkGenuine(wire.Perform(request, op, clock).0.rpc, emitted[n - 1 := HOLE])
  {
    PerformEndsAt(wire, request, op, clock);
    RenewLosesOverwritten(wire, clock, request.route, emitted, n);
    var payload := PayloadOf(op, request.route, wire.displayName);
    var ready := if op.RenewsFirst() then wire.RenewIfDue(clock).0 else wire;
    if ready == wire {
      WireCallLosesOverwritten(wire, request.route, payload, emitted, n);
    } else {
      WireCallKeepsGenuine(ready, request.route, payload, emitted[n - 1 := HOLE]);
    }
    hide WireState.Perform;
    hide WireState.RenewIfDue;
    hide WireState.Call;
    hide PayloadOf;
    hide InboxGenuine;
    hide QueueGenuine;
    hide Overwrites;
    hide Reaches;
  }

  lemma ProxyPerformLoses(proxy: ProxyState, op: WireOp, clock: Reading, emitted: seq<ServerFrame>, n: nat)
    requires LinkGenuine(proxy.wire.rpc, emitted) && 1 <= n <= |emitted| && Overwrites(proxy.wire.rpc, n)
    requires !proxy.failed && proxy.nextRequestSequence < U64_MAX && Reaches(proxy.wire, proxy.route)
    requires op.ExpectsAnswer() ==> op.wellFormed
    ensures LinkGenuine(proxy.Perform(op, clock).0.wire.rpc, emitted[n - 1 := HOLE])
  {
    var request := BridgeRequest(proxy.route, proxy.nextRequestSequence);
    PerformLosesOverwritten(proxy.wire, request, op, clock, emitted, n);
    FailClosedKeepsGenuine(proxy.wire.Perform(request, op, clock).0, emitted[n - 1 := HOLE]);
    hide WireState.Perform;
    hide LinkGenuine;
    hide Overwrites;
    hide Reaches;
  }

  /**
   * On the Host's link: any operation of the proxy that reaches its link while the waiting
   * pointer is overwritten loses that event for good.
   */
  lemma OverwriteAtHostIsLost(sys: System, op: WireOp, clock: Reading, n: nat)
    requires Inv(sys) && |sys.delivered| < n <= |sys.emitted|
    requires !sys.proxy.failed && sys.proxy.nextRequestSequence < U64_MAX && Reaches(sys.proxy.wire, sys.proxy.route)
    requires op.ExpectsAnswer() ==> op.wellFormed
    requires Overwrites(HostLink(sys), n) && !Holds(sys.brokerLink, n)
    ensures IsLost(Next(sys, HostPerforms(op, clock)), n)
  {
    assert Next(sys, HostPerforms(op, clock)) == sys.(proxy := sys.proxy.Perform(op, clock).0);
    hide Next;
    LinkLacks(sys.brokerLink, sys.emitted, n);
    ProxyPerformLoses(sys.proxy, op, clock, sys.emitted, n);
    hide ProxyState.Perform;
    hide DeliveredPrefix;
    hide LinkGenuine;
    hide Overwrites;
    hide Holds;
    hide Reaches;
  }

  /** Two pointers that arrive one after the other, the first numbered `n` and on the link only once, are such a case. */
  lemma TwoPointersOverwrite(link: RpcState, older: ServerFrame, newer: ServerFrame, rest: seq<Incoming>)
    requires IsFast(older) && IsFast(newer) && older.sequence != newer.sequence && !link.queue.failed
    requires link.inbox == [Frame(older), Frame(newer)] + rest
    requires !Holds(link.(inbox := rest, queue := link.queue.(fast := None)), older.sequence)
    ensures Overwrites(link, older.sequence)
  {
    var first := link.(inbox := link.inbox[1..]).EnqueueEvent(older).0;
    assert link.inbox[1..] == [Frame(newer)] + rest;
    assert first.inbox[1..] == rest;
    assert Replaces(first, older.sequence);
    assert Overwrites(first, older.sequence);
  }
}
