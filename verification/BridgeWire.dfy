/** The Host's typed wire over the framed link (crates/privileged-bridge/src/client.rs). */
module BridgeWire {
  import opened Wrappers
  import opened Bytes
  import opened Leases
  import opened BridgeFrames
  import opened BridgeRpc
  import opened EventQueues

  const RENEW_SAFETY_MARGIN_MS: U64 := 250
  const RENEW_ATTEMPT_INTERVAL_MS: U64 := RENEW_INTERVAL_MS as int + RENEW_SAFETY_MARGIN_MS as int

  datatype BridgeRequest = BridgeRequest(route: ProxyRoute, sequence: U64)

  datatype BridgeResponse<T> = BridgeResponse(route: ProxyRoute, sequence: U64, value: T)

  /** The clock as one operation reads it: on entry, and again once a renewal was accepted. */
  datatype Reading = Reading(before: U64, after: U64)

  /** The operations of `BridgeWire`; an offer whose fingerprint cannot be parsed is not `wellFormed`. */
  datatype WireOp =
    | Start(wellFormed: bool)
    | Restart(wellFormed: bool)
    | AddCandidate
    | Input(input: Octets)
    | Close
    | Release
  {
    /** Closing and releasing never renew first. */
    predicate RenewsFirst() {
      !Close? && !Release?
    }

    predicate ExpectsAnswer() {
      Start? || Restart?
    }
  }

  /** What an operation returns: an SDP answer for a start or restart, nothing otherwise. */
  type OpValue = Option<Octets>

  function Digit(n: nat): char
    requires n < 10
  {
    ['0', '1', '2', '3', '4', '5', '6', '7', '8', '9'][n]
  }

  function Decimal(n: nat): string {
    if n < 10 then [Digit(n)] else Decimal(n / 10) + [Digit(n % 10)]
  }

  function RequestId(route: ProxyRoute, frameSequence: U64): string {
    "session-" + Decimal(route.generation) + "-" + Decimal(frameSequence)
  }

  function PayloadOf(op: WireOp, route: ProxyRoute, displayName: string): ClientPayload {
    match op
    case Start(_) => StartPeer(RefOf(route), displayName)
    case Restart(_) => RestartPeer(RefOf(route), displayName)
    case AddCandidate => AddIceCandidate(RefOf(route))
    case Input(input) => InputCommand(RefOf(route), input)
    case Close => ClosePeer(RefOf(route))
    case Release => ReleaseLease(RefOf(route))
  }

  datatype WireState = WireState(
    rpc: RpcState,
    displayName: string,
    route: Option<ProxyRoute>,
    nextFrameSequence: U64,
    lastRenewedAtMs: U64,
    failed: bool)
  {
    function FailClosed(): WireState {
      if failed then this else this.(failed := true, rpc := rpc.FailClosed())
    }

    function Call(route: ProxyRoute, payload: ClientPayload): (WireState, Reply) {
      if failed then (this, Err(FailedClosed))
      else if this.route.Some? && this.route.value != route then (FailClosed(), Err(StaleRoute))
      else
        var bound := this.(route := Some(route));
        match CheckedAdd(nextFrameSequence, 1)
        case None => (bound.FailClosed(), Err(FailedClosed))
        case Some(next) =>
          var id := RequestId(route, nextFrameSequence);
          var (link, reply) := rpc.Call(ClientFrame(id, nextFrameSequence, Some(payload)));
          var sent := bound.(nextFrameSequence := next, rpc := link);
          match reply
          case Err(error) => (sent.FailClosed(), Err(error))
          case Ok(response) =>
            if response.requestId != id || response.sequence != nextFrameSequence
            then (sent.FailClosed(), Err(ProxyError.StaleResponse))
            else (sent, reply)
    }

    function RenewIfDue(clock: Reading): (WireState, Option<ProxyError>) {
      if SaturatingSub(clock.before, lastRenewedAtMs) < RENEW_ATTEMPT_INTERVAL_MS then (this, None)
      else if route.None? then (this, Some(InvalidMessage))
      else
        var (sent, reply) := Call(route.value, RenewLease(RefOf(route.value)));
        match reply
        case Err(error) => (sent, Some(error))
        case Ok(response) =>
          match response.payload
          case Some(LeaseGranted(lease, _)) =>
            (match ParseRoute(RouteRef(lease.id, lease.generation))
             case None => (sent, Some(InvalidMessage))
             case Some(granted) =>
               if granted != route.value then (sent.FailClosed(), Some(StaleRoute))
               else (sent.(lastRenewedAtMs := clock.after), None))
          case _ => (sent.FailClosed(), Some(Rejected))
    }

    /** A response with the wrong payload closes the wire; one whose route cannot be parsed does not by itself. */
    function Accept(request: BridgeRequest, op: WireOp, response: ServerFrame): (WireState, Result<BridgeResponse<OpValue>, ProxyError>) {
      match response.payload
      case Some(CommandAccepted(ref)) =>
        if op.ExpectsAnswer() then (FailClosed(), Err(ProxyError.StaleResponse))
        else if ParseRoute(ref).None? then (this, Err(InvalidMessage))
        else (this, Ok(BridgeResponse(ParseRoute(ref).value, request.sequence, None)))
      case Some(PeerAnswer(ref, answer)) =>
        if !op.ExpectsAnswer() then (FailClosed(), Err(ProxyError.StaleResponse))
        else if answer == [] then (FailClosed(), Err(InvalidMessage))
        else if ParseRoute(ref).None? then (this, Err(InvalidMessage))
        else (this, Ok(BridgeResponse(ParseRoute(ref).value, request.sequence, Some(answer))))
      case Some(Error) => (FailClosed(), Err(Rejected))
      case _ => (FailClosed(), Err(ProxyError.StaleResponse))
    }

    function Perform(request: BridgeRequest, op: WireOp, clock: Reading): (WireState, Result<BridgeResponse<OpValue>, ProxyError>) {
      var (ready, error) := if op.RenewsFirst() then RenewIfDue(clock) else (this, None);
      if error.Some? then (ready, Err(error.value))
      else if op.ExpectsAnswer() && !op.wellFormed then (ready, Err(InvalidMessage))
      else
        var (sent, reply) := ready.Call(request.route, PayloadOf(op, request.route, displayName));
        if reply.Err? then (sent, Err(reply.error)) else sent.Accept(request, op, reply.value)
    }

    function TryEvent(clock: Reading): (WireState, Result<Option<BridgeResponse<ProxyEvent>>, ProxyError>) {
      if failed then (this, Err(FailedClosed))
      else
        var (ready, error) := RenewIfDue(clock);
        if error.Some? then (ready, Err(error.value))
        else
          var (link, polled) := ready.rpc.TryEvent();
          var after := ready.(rpc := link);
          match polled
          case Err(e) => (after.FailClosed(), Err(e))
          case Ok(None) => (after, Ok(None))
          case Ok(Some(frame)) =>
            if frame.sequence == 0 then (after.FailClosed(), Err(ProxyError.StaleResponse))
            else
              match frame.payload
              case Some(Event(ref, event)) =>
                if EmptyEnvelope(event) || ParseRoute(ref).None? then (after, Err(InvalidMessage))
                else (after, Ok(Some(BridgeResponse(ParseRoute(ref).value, frame.sequence, event))))
              case Some(Error) => (after.FailClosed(), Err(Rejected))
              case _ => (after.FailClosed(), Err(ProxyError.StaleResponse))
    }
  }

  predicate EmptyEnvelope(event: ProxyEvent) {
    (event.ReliableInput? || event.FastPointer?) && event.envelope == []
  }

  class ProtobufBridgeWire {
    const rpc: FramedBridgeRpc
    const displayName: string
    var route: Option<ProxyRoute>
    var nextFrameSequence: U64
    var lastRenewedAtMs: U64
    var failed: bool

    function View(): WireState
      reads this, rpc, rpc.transport, rpc.events
    {
      WireState(rpc.View(), displayName, route, nextFrameSequence, lastRenewedAtMs, failed)
    }

    /** `with_clock`, its arguments already checked: the route generation and frame sequence are not zero. */
    constructor (rpc: FramedBridgeRpc, displayName: string, route: ProxyRoute, nextFrameSequence: U64, nowMs: U64)
      ensures this.rpc == rpc && View() == WireState(rpc.View(), displayName, Some(route), nextFrameSequence, nowMs, false)
    {
      this.rpc, this.displayName, this.route := rpc, displayName, Some(route);
      this.nextFrameSequence, lastRenewedAtMs, failed := nextFrameSequence, nowMs, false;
    }

    method FailClosed()
      modifies this`failed, rpc`failed
      ensures View() == old(View()).FailClosed()
    {
      if !failed {
        failed := true;
        rpc.failed := true;
      }
    }

    method Call(route: ProxyRoute, payload: ClientPayload) returns (r: Reply)
      modifies this`route, this`nextFrameSequence, this`failed, rpc, rpc.transport, rpc.events
      ensures (View(), r) == old(View()).Call(route, payload)
    {
      if failed {
        return Err(FailedClosed);
      }
      if this.route.Some? {
        if this.route.value != route {
          FailClosed();
          return Err(StaleRoute);
        }
      } else {
        this.route := Some(route);
      }
      var frameSequence := nextFrameSequence;
      var next := CheckedAdd(frameSequence, 1);
      if next.None? {
        FailClosed();
        return Err(FailedClosed);
      }
      nextFrameSequence := next.value;
      var id := RequestId(route, frameSequence);
      r := rpc.Call(ClientFrame(id, frameSequence, Some(payload)));
      if r.Err? {
        FailClosed();
        return;
      }
      if r.value.requestId != id || r.value.sequence != frameSequence {
        FailClosed();
        return Err(ProxyError.StaleResponse);
      }
    }

    method RenewIfDue(clock: Reading) returns (r: Option<ProxyError>)
      modifies this, rpc, rpc.transport, rpc.events
      ensures (View(), r) == old(View()).RenewIfDue(clock)
    {
      if SaturatingSub(clock.before, lastRenewedAtMs) < RENEW_ATTEMPT_INTERVAL_MS {
        return None;
      }
      if route.None? {
        return Some(InvalidMessage);
      }
      var bound := route.value;
      var reply := Call(bound, RenewLease(RefOf(bound)));
      if reply.Err? {
        return Some(reply.error);
      }
      if reply.value.payload.None? || !reply.value.payload.value.LeaseGranted? {
        FailClosed();
        return Some(Rejected);
      }
      var lease := reply.value.payload.value.lease;
      var granted := ParseRoute(RouteRef(lease.id, lease.generation));
      if granted.None? {
        return Some(InvalidMessage);
      }
      if granted.value != bound {
        FailClosed();
        return Some(StaleRoute);
      }
      lastRenewedAtMs := clock.after;
      r := None;
    }

    method Perform(request: BridgeRequest, op: WireOp, clock: Reading) returns (r: Result<BridgeResponse<OpValue>, ProxyError>)
      modifies this, rpc, rpc.transport, rpc.events
      ensures (View(), r) == old(View()).Perform(request, op, clock)
    {
      if op.RenewsFirst() {
        var error := RenewIfDue(clock);
        if error.Some? {
          return Err(error.value);
        }
      }
      if op.ExpectsAnswer() && !op.wellFormed {
        return Err(InvalidMessage);
      }
      var reply := Call(request.route, PayloadOf(op, request.route, displayName));
      if reply.Err? {
        return Err(reply.error);
      }
      r := Accept(request, op, reply.value);
    }

    method Accept(request: BridgeRequest, op: WireOp, response: ServerFrame) returns (r: Result<BridgeResponse<OpValue>, ProxyError>)
      modifies this`failed, rpc`failed
      ensures (View(), r) == old(View()).Accept(request, op, response)
    {
      if response.payload == Some(Error) {
        FailClosed();
        return Err(Rejected);
      }
      if op.ExpectsAnswer() {
        if response.payload.None? || !response.payload.value.PeerAnswer? {
          FailClosed();
          return Err(ProxyError.StaleResponse);
        }
        var answer := response.payload.value.answer;
        if answer == [] {
          FailClosed();
          return Err(InvalidMessage);
        }
        var route := ParseRoute(response.payload.value.ref);
        return if route.None? then Err(InvalidMessage) else Ok(BridgeResponse(route.value, request.sequence, Some(answer)));
      }
      if response.payload.None? || !response.payload.value.CommandAccepted? {
        FailClosed();
        return Err(ProxyError.StaleResponse);
      }
      var route := ParseRoute(response.payload.value.ref);
      r := if route.None? then Err(InvalidMessage) else Ok(BridgeResponse(route.value, request.sequence, None));
    }

    method TryEvent(clock: Reading) returns (r: Result<Option<BridgeResponse<ProxyEvent>>, ProxyError>)
      modifies this, rpc, rpc.transport, rpc.events
      ensures (View(), r) == old(View()).TryEvent(clock)
    {
      if failed {
        return Err(FailedClosed);
      }
      var error := RenewIfDue(clock);
      if error.Some? {
        return Err(error.value);
      }
      var polled := rpc.TryEvent();
      if polled.Err? {
        FailClosed();
        return Err(polled.error);
      }
      if polled.value.None? {
        return Ok(None);
      }
      var frame := polled.value.value;
      if frame.sequence == 0 {
        FailClosed();
        return Err(ProxyError.StaleResponse);
      }
      if frame.payload == Some(Error) {
        FailClosed();
        return Err(Rejected);
      }
      if frame.payload.None? || !frame.payload.value.Event? {
        FailClosed();
        return Err(ProxyError.StaleResponse);
      }
      var event := frame.payload.value.event;
      var route := ParseRoute(frame.payload.value.ref);
      if EmptyEnvelope(event) || route.None? {
        return Err(InvalidMessage);
      }
      r := Ok(Some(BridgeResponse(route.value, frame.sequence, event)));
    }
  }

  // ---- What one call means ----

  /** The wire can still send, for the route it is bound to. */
  predicate CanCall(wire: WireState, route: ProxyRoute) {
    && !wire.failed && (wire.route.None? || wire.route == Some(route)) && wire.nextFrameSequence < U64_MAX
    && !wire.rpc.failed && wire.rpc.canSend
  }

  function NumberedFrame(wire: WireState, route: ProxyRoute, payload: ClientPayload): ClientFrame {
    ClientFrame("session-" + Decimal(route.generation) + "-" + Decimal(wire.nextFrameSequence), wire.nextFrameSequence, Some(payload))
  }

  /**
   * A call sends one frame, with its payload, the next number and an identifier of its own,
   * if and only if the wire can still send for that route; it is answered if and only if
   * the link answers, and every error fails the wire.
   */
  lemma WireCallIff(wire: WireState, route: ProxyRoute, payload: ClientPayload)
    requires |wire.rpc.queue.critical| <= MAX_CRITICAL_EVENTS
    ensures var (next, reply) := wire.Call(route, payload); var frame := NumberedFrame(wire, route, payload);
            && next.rpc.sent == wire.rpc.sent + (if CanCall(wire, route) then [frame] else [])
            && (reply.Ok? <==> CanCall(wire, route) && wire.rpc.Call(frame).1.Ok?)
            && (reply.Ok? ==>
                  && reply == wire.rpc.Call(frame).1
                  && next == wire.(rpc := wire.rpc.Call(frame).0, route := Some(route), nextFrameSequence := wire.nextFrameSequence as int + 1))
            && (reply.Err? ==> next.failed && next.lastRenewedAtMs == wire.lastRenewedAtMs && (!wire.failed ==> next.rpc.failed))
            && (!wire.failed && wire.route.Some? && wire.route != Some(route) ==> reply == Err(StaleRoute))
  {
    CallIff(wire.rpc, NumberedFrame(wire, route, payload));
    if wire.rpc.Call(NumberedFrame(wire, route, payload)).1.Ok? {
      CallIsCorrelated(wire.rpc, NumberedFrame(wire, route, payload));
    }
    hide RpcState.Call;
    hide AnsweredAt;
    hide After;
    hide Decimal;
  }

  lemma CallIsCorrelated(link: RpcState, request: ClientFrame)
    ensures var reply := link.Call(request).1;
            reply.Ok? ==>
              && reply.value.requestId == request.requestId && reply.value.sequence == request.sequence
              && reply.value.payload.Some? && !reply.value.payload.value.Event?
  {
    ResponseIsCorrelated(link, request);
  }

  predicate IsDue(wire: WireState, nowMs: U64) {
    nowMs as int - wire.lastRenewedAtMs >= 5_250
  }

  /**
   * A renewal is attempted if and only if 5,250 ms have passed; it sends one RenewLease for
   * the bound route, and succeeds if and only if the answer grants a lease of that very
   * route, from when the second reading of the clock counts.
   */
  lemma RenewIfDueIff(wire: WireState, clock: Reading)
    requires wire.route.Some? && |wire.rpc.queue.critical| <= MAX_CRITICAL_EVENTS
    ensures var route := wire.route.value;
            var (next, error) := wire.RenewIfDue(clock);
            var (sent, reply) := wire.Call(route, RenewLease(RouteRef(route.leaseId, route.generation)));
            && (!IsDue(wire, clock.before) ==> next == wire && error.None?)
            && (IsDue(wire, clock.before) ==>
                  && next.rpc.sent == sent.rpc.sent
                  && (error.None? <==>
                        && reply.Ok? && reply.value.payload.Some? && reply.value.payload.value.LeaseGranted? && route.generation != 0
                        && reply.value.payload.value.lease.id == route.leaseId && reply.value.payload.value.lease.generation == route.generation)
                  && (error.None? ==> next == sent.(lastRenewedAtMs := clock.after))
                  && (error.Some? ==> next.lastRenewedAtMs == wire.lastRenewedAtMs))
  {
    WireCallIff(wire, wire.route.value, RenewLease(RefOf(wire.route.value)));
    hide WireState.Call;
  }

  /** The payload of each operation. */
  predicate Asks(op: WireOp, route: ProxyRoute, displayName: string, payload: ClientPayload) {
    match op
    case Start(_) => payload == StartPeer(RouteRef(route.leaseId, route.generation), displayName)
    case Restart(_) => payload == RestartPeer(RouteRef(route.leaseId, route.generation), displayName)
    case AddCandidate => payload == AddIceCandidate(RouteRef(route.leaseId, route.generation))
    case Input(input) => payload == InputCommand(RouteRef(route.leaseId, route.generation), input)
    case Close => payload == ClosePeer(RouteRef(route.leaseId, route.generation))
    case Release => payload == ReleaseLease(RouteRef(route.leaseId, route.generation))
  }

  /** The answer to an operation is of its kind: an answer for a start or restart, an acceptance for any other. */
  predicate AnswersOp(op: WireOp, response: ServerFrame, value: BridgeResponse<OpValue>) {
    && response.payload.Some?
    && (if op.Start? || op.Restart? then
          && response.payload.value.PeerAnswer? && response.payload.value.answer != []
          && value.value == Some(response.payload.value.answer)
        else response.payload.value.CommandAccepted? && value.value.None?)
    && RouteRef(value.route.leaseId, value.route.generation) == response.payload.value.ref && value.route.generation != 0
  }

  /**
   * An operation first renews, unless it closes or releases; then it sends exactly its own
   * request; and it succeeds exactly on an answer of its own kind.
   */
  lemma PerformIff(wire: WireState, request: BridgeRequest, op: WireOp, clock: Reading)
    requires |wire.rpc.queue.critical| <= MAX_CRITICAL_EVENTS
    ensures var (next, r) := wire.Perform(request, op, clock);
            var (ready, error) := if op.Close? || op.Release? then (wire, None) else wire.RenewIfDue(clock);
            && (error.Some? ==> next == ready && r == Err(error.value))
            && ((op == Start(false) || op == Restart(false)) && error.None? ==> next == ready && r == Err(InvalidMessage))
            && (error.None? && op != Start(false) && op != Restart(false) ==>
                  exists payload :: Asks(op, request.route, wire.displayName, payload)
                                    && var (sent, reply) := ready.Call(request.route, payload);
                                       && next.rpc.sent == sent.rpc.sent
                                       && (r.Ok? <==> reply.Ok? && exists value :: AnswersOp(op, reply.value, value))
                                       && (r.Ok? ==> AnswersOp(op, reply.value, r.value) && next == sent && r.value.sequence == request.sequence)
                                       && (r.Err? && reply.Ok? && r.error != InvalidMessage ==> next.failed))
  {
    var (ready, error) := if op.Close? || op.Release? then (wire, None) else wire.RenewIfDue(clock);
    var payload := PayloadOf(op, request.route, wire.displayName);
    assert Asks(op, request.route, wire.displayName, payload);
    var (sent, reply) := ready.Call(request.route, payload);
    if reply.Ok? {
      AcceptIff(sent, request, op, reply.value);
    }
    hide Asks;
    hide AnswersOp;
    hide PayloadOf;
    hide WireState.RenewIfDue;
    hide WireState.Call;
    hide WireState.Accept;
  }

  lemma AcceptIff(wire: WireState, request: BridgeRequest, op: WireOp, response: ServerFrame)
    ensures var (next, r) := wire.Accept(request, op, response);
            && next.rpc.sent == wire.rpc.sent
            && (r.Ok? <==> exists value :: AnswersOp(op, response, value))
            && (r.Ok? ==> AnswersOp(op, response, r.value) && next == wire && r.value.sequence == request.sequence)
            && (r.Err? && r.error != InvalidMessage ==> next.failed)
            && (response.payload == Some(Error) ==> r == Err(Rejected))
  {
    if response.payload.Some? && (response.payload.value.PeerAnswer? || response.payload.value.CommandAccepted?) {
      var ref := response.payload.value.ref;
      if ParseRoute(ref).Some? {
        var answer := if response.payload.value.PeerAnswer? then Some(response.payload.value.answer) else None;
        assert AnswersOp(op, response, BridgeResponse(ParseRoute(ref).value, 0, answer))
            <==> (op.ExpectsAnswer() <==> response.payload.value.PeerAnswer?) && answer != Some([]);
      }
    }
  }

  /** What an event frame says to the proxy: its own number and route, and an event that is not empty. */
  predicate Reports(frame: ServerFrame, value: BridgeResponse<ProxyEvent>) {
    && frame.sequence == value.sequence != 0
    && frame.payload == Some(Event(RouteRef(value.route.leaseId, value.route.generation), value.value)) && value.route.generation != 0
    && value.value != ReliableInput([]) && value.value != FastPointer([])
  }

  /** A poll renews if due, and reports an event of the link with the route and number it carries. */
  lemma PollIff(wire: WireState, clock: Reading)
    ensures var (next, r) := wire.TryEvent(clock);
            var (ready, error) := wire.RenewIfDue(clock);
            var (link, polled) := ready.rpc.TryEvent();
            && (wire.failed ==> next == wire && r == Err(FailedClosed))
            && (!wire.failed && error.Some? ==> next == ready && r == Err(error.value))
            && (!wire.failed && error.None? ==>
                  && (r == Ok(None) <==> polled == Ok(None))
                  && (r.Ok? ==> next == ready.(rpc := link))
                  && (r.Ok? && r.value.Some? <==> polled.Ok? && polled.value.Some? && exists value :: Reports(polled.value.value, value))
                  && (r.Ok? && r.value.Some? ==> Reports(polled.value.value, r.value.value))
                  && (r.Err? && r.error != InvalidMessage ==> next.failed))
  {
    var (next, r) := wire.TryEvent(clock);
    var (ready, error) := wire.RenewIfDue(clock);
    var (link, polled) := ready.rpc.TryEvent();
    if !wire.failed && error.None? && polled.Ok? && polled.value.Some? {
      var frame := polled.value.value;
      if r.Ok? && r.value.Some? {
        assert Reports(frame, r.value.value);
      }
      assert forall value | Reports(frame, value) :: ParseRoute(RefOf(value.route)) == Some(value.route);
    }
    hide WireState.RenewIfDue;
    hide RpcState.TryEvent;
  }

  // ---- Request identifiers ----

  lemma {:induction false} DecimalIsDigits(n: nat)
    ensures Decimal(n) != [] && forall c <- Decimal(n) :: '0' <= c <= '9'
    decreases n
  {
    if n >= 10 {
      DecimalIsDigits(n / 10);
    }
  }

  lemma DecimalSplits(n: nat)
    ensures Decimal(n) == (if n < 10 then [] else Decimal(n / 10)) + [Digit(n % 10)]
    ensures |Decimal(n)| == 1 <==> n < 10
  {
    DecimalIsDigits(n / 10);
  }

  lemma DigitIsInjective(m: nat, n: nat)
    requires m < 10 && n < 10 && Digit(m) == Digit(n)
    ensures m == n
  {
  }

  lemma {:induction false} DecimalIsInjective(m: nat, n: nat)
    requires Decimal(m) == Decimal(n)
    ensures m == n
    decreases m + n
  {
    DecimalSplits(m);
    DecimalSplits(n);
    hide Decimal;
    hide Digit;
    var a, b := Decimal(m), Decimal(n);
    assert Digit(m % 10) == a[|a| - 1] == b[|b| - 1] == Digit(n % 10);
    DigitIsInjective(m % 10, n % 10);
    if m >= 10 {
      assert Decimal(m / 10) == a[..|a| - 1] == b[..|b| - 1] == Decimal(n / 10);
      DecimalIsInjective(m / 10, n / 10);
    }
  }

  /** Two strings of digits, each followed by a dash and more digits, are equal only part by part. */
  lemma {:induction false} DashedIsInjective(a: string, b: string, x: string, y: string)
    requires a + "-" + b == x + "-" + y
    requires (forall c <- a :: c != '-') && (forall c <- x :: c != '-')
    ensures a == x && b == y
  {
    var s, t := a + "-" + b, x + "-" + y;
    assert s == a + ("-" + b) && t == x + ("-" + y);
    assert s[|a|] == '-' && t[|x|] == '-';
    DashInLonger(a, "-" + b, x, "-" + y);
    DashInLonger(x, "-" + y, a, "-" + b);
    assert s[..|a|] == a && t[..|x|] == x && s[|a| + 1..] == b && t[|x| + 1..] == y;
  }

  lemma DashInLonger(a: string, b: string, x: string, y: string)
    requires a + b == x + y && b != [] && b[0] == '-'
    ensures |a| < |x| ==> '-' in x
  {
    assert (a + b)[|a|] == '-';
    if |a| < |x| {
      assert (x + y)[|a|] == x[|a|];
    }
  }

  /** No two frames share a request identifier, within a route or across generations. */
  lemma RequestIdsAreDistinct(r1: ProxyRoute, f1: U64, r2: ProxyRoute, f2: U64)
    requires RequestId(r1, f1) == RequestId(r2, f2)
    ensures r1.generation == r2.generation && f1 == f2
  {
    var prefix := "session-";
    var a, b, x, y := Decimal(r1.generation), Decimal(f1), Decimal(r2.generation), Decimal(f2);
    DecimalIsDigits(r1.generation);
    DecimalIsDigits(r2.generation);
    assert RequestId(r1, f1)[|prefix|..] == a + "-" + b;
    assert RequestId(r2, f2)[|prefix|..] == x + "-" + y;
    DashedIsInjective(a, b, x, y);
    DecimalIsInjective(r1.generation, r2.generation);
    DecimalIsInjective(f1, f2);
  }
}
