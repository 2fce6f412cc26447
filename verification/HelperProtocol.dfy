/** The session Helper's side of the bridge (crates/privileged-bridge/src/helper.rs). */
module HelperProtocol {
  import opened Wrappers
  import opened Bytes
  import opened BridgeFrames
  import opened BridgeWire

  datatype HelperError = InvalidMessage | StaleRoute | Backend | SequenceOverflow

  /** What the native backend does with one command, and whether the command carried its parts. */
  datatype BackendOutcome = BackendOutcome(complete: bool, error: Option<HelperError>, answer: Octets)

  type Reply = Result<ServerFrame, HelperError>

  datatype HelperState = HelperState(route: Option<ProxyRoute>, nextEventSequence: U64, failed: bool) {

    function FailClosed(): HelperState {
      if failed then this else this.(failed := true, route := None)
    }

    /** `attach`: a route must be strictly newer than the one attached. */
    function Attach(next: ProxyRoute): (HelperState, bool) {
      if next.generation == 0 || (route.Some? && next.generation <= route.value.generation) then (this, false)
      else (this.(route := Some(next)), true)
    }

    function AttachOrAuthorize(next: ProxyRoute): (HelperState, bool) {
      if route == Some(next) then (this, true) else Attach(next)
    }

    /** `authorize`: exactly the attached route. */
    predicate Authorizes(next: ProxyRoute) {
      route == Some(next)
    }

    function HandleInner(request: ClientFrame, outcome: BackendOutcome): (HelperState, Reply) {
      match request.payload
      case None => (this, Err(InvalidMessage))
      case Some(payload) =>
        if !payload.IsRouted() && !payload.ReleaseLease? then (this, Err(InvalidMessage))
        else
          match ParseRoute(payload.ref)
          case None => (this, Err(InvalidMessage))
          case Some(target) =>
            if payload.StartPeer? || payload.RestartPeer? then
              var (attached, accepted) := AttachOrAuthorize(target);
              if !accepted then (this, Err(StaleRoute))
              else if !outcome.complete then (attached, Err(InvalidMessage))
              else if outcome.error.Some? then (attached, Err(outcome.error.value))
              else (attached, Ok(Answering(request, PeerAnswer(RefOf(target), outcome.answer))))
            else if !Authorizes(target) then (this, Err(StaleRoute))
            else if payload.AddIceCandidate? && !outcome.complete then (this, Err(InvalidMessage))
            else if outcome.error.Some? then (this, Err(outcome.error.value))
            else
              (if payload.ReleaseLease? then this.(route := None) else this,
               Ok(Answering(request, CommandAccepted(RefOf(target)))))
    }

    function Handle(request: ClientFrame, outcome: BackendOutcome): (HelperState, Reply) {
      if failed then (this, Err(Backend))
      else
        var (next, reply) := HandleInner(request, outcome);
        (if reply == Err(Backend) then next.FailClosed() else next, reply)
    }

    /** `try_event`: `polled` is the backend's answer.  Numbers are never reused, not even across routes. */
    function TryEvent(polled: Result<Option<ProxyEvent>, HelperError>): (HelperState, Result<Option<ServerFrame>, HelperError>) {
      if failed then (this, Err(Backend))
      else
        match polled
        case Err(error) => (FailClosed(), Err(error))
        case Ok(None) => (this, Ok(None))
        case Ok(Some(event)) =>
          if route.None? then (this, Err(StaleRoute))
          else
            match CheckedAdd(nextEventSequence, 1)
            case None => (this, Err(SequenceOverflow))
            case Some(next) =>
              (this.(nextEventSequence := next), Ok(Some(EventFrame(route.value, nextEventSequence, event))))
    }
  }

  const NEW_HELPER := HelperState(None, 1, false)

  function Answering(request: ClientFrame, payload: ServerPayload): ServerFrame {
    ServerFrame(request.requestId, request.sequence, Some(payload))
  }

  function EventFrame(route: ProxyRoute, sequence: U64, event: ProxyEvent): ServerFrame {
    ServerFrame("event-" + Decimal(sequence), sequence, Some(Event(RefOf(route), event)))
  }

  class Helper {
    var route: Option<ProxyRoute>
    var nextEventSequence: U64
    var failed: bool

    function View(): HelperState
      reads this
    {
      HelperState(route, nextEventSequence, failed)
    }

    constructor ()
      ensures View() == NEW_HELPER
    {
      route, nextEventSequence, failed := None, 1, false;
    }

    method FailClosed()
      modifies this
      ensures View() == old(View()).FailClosed()
    {
      if !failed {
        failed := true;
        route := None;
      }
    }

    method AttachOrAuthorize(next: ProxyRoute) returns (ok: bool)
      modifies this`route
      ensures (View(), ok) == old(View()).AttachOrAuthorize(next)
    {
      if route == Some(next) {
        return true;
      }
      if next.generation == 0 || (route.Some? && next.generation <= route.value.generation) {
        return false;
      }
      route := Some(next);
      ok := true;
    }

    method Handle(request: ClientFrame, outcome: BackendOutcome) returns (r: Reply)
      modifies this
      ensures (View(), r) == old(View()).Handle(request, outcome)
    {
      if failed {
        return Err(Backend);
      }
      r := HandleInner(request, outcome);
      if r == Err(Backend) {
        FailClosed();
      }
    }

    method HandleInner(request: ClientFrame, outcome: BackendOutcome) returns (r: Reply)
      modifies this`route
      ensures (View(), r) == old(View()).HandleInner(request, outcome)
    {
      if request.payload.None? {
        return Err(InvalidMessage);
      }
      var payload := request.payload.value;
      if !payload.IsRouted() && !payload.ReleaseLease? {
        return Err(InvalidMessage);
      }
      var target := ParseRoute(payload.ref);
      if target.None? {
        return Err(InvalidMessage);
      }
      if payload.StartPeer? || payload.RestartPeer? {
        var attached := AttachOrAuthorize(target.value);
        if !attached {
          return Err(StaleRoute);
        }
        if !outcome.complete {
          return Err(InvalidMessage);
        }
        if outcome.error.Some? {
          return Err(outcome.error.value);
        }
        return Ok(Answering(request, PeerAnswer(RefOf(target.value), outcome.answer)));
      }
      if route != target {
        return Err(StaleRoute);
      }
      if payload.AddIceCandidate? && !outcome.complete {
        return Err(InvalidMessage);
      }
      if outcome.error.Some? {
        return Err(outcome.error.value);
      }
      if payload.ReleaseLease? {
        route := None;
      }
      r := Ok(Answering(request, CommandAccepted(RefOf(target.value))));
    }

    method TryEvent(polled: Result<Option<ProxyEvent>, HelperError>) returns (r: Result<Option<ServerFrame>, HelperError>)
      modifies this
      ensures (View(), r) == old(View()).TryEvent(polled)
    {
      if failed {
        return Err(Backend);
      }
      if polled.Err? {
        FailClosed();
        return Err(polled.error);
      }
      if polled.value.None? {
        return Ok(None);
      }
      if route.None? {
        return Err(StaleRoute);
      }
      var sequence := nextEventSequence;
      var next := CheckedAdd(sequence, 1);
      if next.None? {
        return Err(SequenceOverflow);
      }
      nextEventSequence := next.value;
      r := Ok(Some(EventFrame(route.value, sequence, polled.value.value)));
    }
  }

  // ---- The lease gate ----

  /** The route a routed or releasing request names, if it parses. */
  function Named(request: ClientFrame): Option<ProxyRoute> {
    if request.payload.Some? && (request.payload.value.IsRouted() || request.payload.value.ReleaseLease?)
    then ParseRoute(request.payload.value.ref) else None
  }

  /**
   * The gate: only a start or a restart changes the attached route, and only to a strictly
   * newer generation; a handled release or a backend failure detaches it; every request
   * that succeeds names the route attached when it is carried out.
   */
  lemma OnlyTheAttachedRouteIsServed(st: HelperState, request: ClientFrame, outcome: BackendOutcome)
    ensures var (next, reply) := st.Handle(request, outcome);
            var starts := request.payload.Some? && (request.payload.value.StartPeer? || request.payload.value.RestartPeer?);
            && (reply.Ok? ==> !st.failed && Named(request).Some? && (if starts then next.route else st.route) == Named(request))
            && (next.route.Some? && next.route != st.route ==>
                  starts && next.route == Named(request) && (st.route.Some? ==> st.route.value.generation < next.route.value.generation))
            && (next.route.None? && st.route.Some? ==> next.failed || (reply.Ok? && request.payload.value.ReleaseLease?))
            && (st.failed ==> next == st && reply.Err?)
  {
  }

  // ---- What one call means ----

  predicate Starts(request: ClientFrame) {
    request.payload.Some? && (request.payload.value.StartPeer? || request.payload.value.RestartPeer?)
  }

  /** The request names the attached route, or is a start on a strictly newer one. */
  predicate Admitted(st: HelperState, request: ClientFrame) {
    && Named(request).Some?
    && (|| st.route == Named(request)
        || (Starts(request) && (st.route.Some? ==> st.route.value.generation < Named(request).value.generation)))
  }

  /** What the backend must have been given and have done for the request to succeed. */
  predicate CarriedOut(request: ClientFrame, outcome: BackendOutcome) {
    outcome.error.None? && (Starts(request) || (request.payload.Some? && request.payload.value.AddIceCandidate?) ==> outcome.complete)
  }

  /**
   * A request succeeds if and only if the Helper has not failed, the request is admitted
   * and the backend carries it out; the answer echoes it and names its route.
   */
  lemma HandleIff(st: HelperState, request: ClientFrame, outcome: BackendOutcome)
    ensures var (next, reply) := st.Handle(request, outcome);
            && (reply.Ok? <==> !st.failed && Admitted(st, request) && CarriedOut(request, outcome))
            && (reply.Ok? ==>
                  && reply.value.requestId == request.requestId && reply.value.sequence == request.sequence
                  && reply.value.payload == Some(if Starts(request) then PeerAnswer(request.payload.value.ref, outcome.answer)
                                                 else CommandAccepted(request.payload.value.ref))
                  && next == st.(route := if request.payload.value.ReleaseLease? then None else Named(request)))
            && (reply == Err(StaleRoute) && !(outcome.error == Some(StaleRoute)) ==> Named(request).Some? && !Admitted(st, request))
            && (!st.failed && Named(request).None? ==> reply == Err(InvalidMessage))
            && (!st.failed && Admitted(st, request) && !CarriedOut(request, outcome) ==>
                  reply.error == InvalidMessage || Some(reply.error) == outcome.error)
  {
  }

  /** A failure of the backend, and nothing else, fails the Helper for good and detaches its route. */
  lemma OnlyTheBackendFails(st: HelperState, request: ClientFrame, outcome: BackendOutcome)
    ensures var (next, reply) := st.Handle(request, outcome);
            && (next.failed <==> st.failed || reply == Err(Backend))
            && (next.failed && !st.failed ==> next.route.None?)
            && next.nextEventSequence == st.nextEventSequence
            && (!st.failed && reply.Err? && reply.error != Backend ==>
                  next == st || (Starts(request) && Admitted(st, request) && next == st.(route := Named(request))))
  {
  }

  /** An event is passed on if and only if a route is attached and a number is left; it then takes the next number. */
  lemma EventIff(st: HelperState, polled: Result<Option<ProxyEvent>, HelperError>)
    ensures var (next, r) := st.TryEvent(polled);
            && (r.Ok? && r.value.Some? <==>
                  !st.failed && polled.Ok? && polled.value.Some? && st.route.Some? && st.nextEventSequence < U64_MAX)
            && (r.Ok? && r.value.Some? ==>
                  && r.value.value.requestId == "event-" + Decimal(st.nextEventSequence)
                  && r.value.value.sequence == st.nextEventSequence
                  && r.value.value.payload == Some(Event(RouteRef(st.route.value.leaseId, st.route.value.generation), polled.value.value))
                  && next == st.(nextEventSequence := st.nextEventSequence as int + 1))
            && (r == Ok(None) <==> !st.failed && polled == Ok(None))
            && (st.failed ==> r == Err(Backend) && next == st)
            && (!st.failed && polled.Err? ==> r == Err(polled.error) && next == st.(failed := true, route := None))
            && (!st.failed && polled.Ok? && !(r.Ok? && r.value.Some?) ==> next == st)
  {
  }

  // ---- Runs ----

  datatype Op = HandleOp(request: ClientFrame, outcome: BackendOutcome) | PollOp(polled: Result<Option<ProxyEvent>, HelperError>)

  function Step(st: HelperState, op: Op): HelperState {
    match op
    case HandleOp(request, outcome) => st.Handle(request, outcome).0
    case PollOp(polled) => st.TryEvent(polled).0
  }

  function RunFrom(st: HelperState, ops: seq<Op>): HelperState
    decreases |ops|
  {
    if ops == [] then st else Step(RunFrom(st, ops[..|ops| - 1]), ops[|ops| - 1])
  }

  predicate Succeeds(st: HelperState, op: Op) {
    op.HandleOp? && st.Handle(op.request, op.outcome).1.Ok?
  }

  predicate IsRelease(op: Op) {
    op.HandleOp? && op.request.payload.Some? && op.request.payload.value.ReleaseLease?
  }

  /** No release succeeds during the run. */
  predicate NothingReleased(st: HelperState, ops: seq<Op>) {
    forall i | 0 <= i < |ops| && IsRelease(ops[i]) :: !Succeeds(RunFrom(st, ops[..i]), ops[i])
  }

  /** A route at least as new as `generation` is attached, or the Helper has failed. */
  predicate AtLeast(st: HelperState, generation: U64) {
    st.failed || (st.route.Some? && generation <= st.route.value.generation)
  }

  lemma StepKeepsNewest(st: HelperState, op: Op, generation: U64)
    requires AtLeast(st, generation) && (IsRelease(op) ==> !Succeeds(st, op))
    ensures AtLeast(Step(st, op), generation)
  {
    if op.HandleOp? {
      OnlyTheAttachedRouteIsServed(st, op.request, op.outcome);
      hide HelperState.Handle;
    }
  }

  lemma {:induction false} RunKeepsNewest(st: HelperState, ops: seq<Op>, generation: U64)
    requires AtLeast(st, generation) && NothingReleased(st, ops)
    ensures AtLeast(RunFrom(st, ops), generation)
    decreases |ops|
  {
    hide AtLeast;
    hide Step;
    if ops != [] {
      var n := |ops| - 1;
      forall i | 0 <= i < n && IsRelease(ops[..n][i])
        ensures !Succeeds(RunFrom(st, ops[..n][..i]), ops[..n][i])
      {
        assert ops[..n][..i] == ops[..i];
      }
      RunKeepsNewest(st, ops[..n], generation);
      StepKeepsNewest(RunFrom(st, ops[..n]), ops[n], generation);
    }
    hide Succeeds;
  }

  /**
   * Until a release succeeds, the Helper never serves an older route again: of two requests
   * that succeed in one run, the later names a generation at least as new as the earlier.
   */
  lemma GenerationsNeverFallBack(st: HelperState, first: Op, ops: seq<Op>, last: Op)
    requires Succeeds(st, first) && !IsRelease(first) && NothingReleased(Step(st, first), ops)
    requires Succeeds(RunFrom(Step(st, first), ops), last)
    ensures Named(first.request).Some? && Named(last.request).Some?
    ensures Named(first.request).value.generation <= Named(last.request).value.generation
  {
    var after, late := Step(st, first), RunFrom(Step(st, first), ops);
    OnlyTheAttachedRouteIsServed(st, first.request, first.outcome);
    SuccessKeepsServing(st, first);
    RunKeepsNewest(after, ops, Named(first.request).value.generation);
    OnlyTheAttachedRouteIsServed(late, last.request, last.outcome);
    StartIsNoOlder(late, last);
    hide HelperState.Handle;
  }

  lemma SuccessKeepsServing(st: HelperState, op: Op)
    requires Succeeds(st, op) && !IsRelease(op)
    ensures Named(op.request).Some? && AtLeast(Step(st, op), Named(op.request).value.generation)
  {
  }

  lemma StartIsNoOlder(st: HelperState, op: Op)
    requires Succeeds(st, op) && st.route.Some?
    ensures Named(op.request).Some? && st.route.value.generation <= Named(op.request).value.generation
  {
  }
}
