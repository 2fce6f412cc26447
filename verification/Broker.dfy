/** One Host's session with the privileged broker (crates/privileged-bridge/src/broker.rs). */
module Broker {
  import opened Wrappers
  import opened Bytes
  import opened Leases
  import opened BridgeFrames
  import opened Permissions
  import SessionRoutes

  const SESSION_ID_BYTES := 16

  datatype BrokerError = InvalidMessage | LeaseRejected | PermissionDenied | HelperFailed | StaleResponse

  type Reply = Result<ServerFrame, BrokerError>

  /** What the environment supplies to one request: fresh randomness and the Helper's answer, if any. */
  datatype Surroundings = Surroundings(nowMs: U64, random: Option<LeaseId>, answer: Option<ServerFrame>)

  /** The history a session leaves: leases granted, and requests handed to the Helper with their operation number. */
  datatype Entry =
    | Granted(lease: Lease, permissions: seq<int>)
    | Exchanged(request: ClientFrame, nowMs: U64, number: U64)

  datatype BrokerState = BrokerState(
    leases: LeaseState,
    routes: SessionRoutes.SessionState,
    permissions: seq<int>,
    operationSequence: U64,
    secureAttentionAllowed: bool,
    helperFailed: bool,
    log: seq<Entry>)
  {
    /** `handle`. */
    function Handle(request: ClientFrame, env: Surroundings): (BrokerState, Reply) {
      match request.payload
      case None => (this, Err(InvalidMessage))
      case Some(AcquireLease(sessionId, generation, permissions, displayName)) =>
        Acquire(request, sessionId, generation, permissions, displayName, env)
      case Some(RenewLease(ref)) =>
        (match ParseRoute(ref)
         case None => (this, Err(InvalidMessage))
         case Some(route) =>
           var (next, renewed) := leases.Renew(route.leaseId, route.generation, env.nowMs);
           (this.(leases := next), if renewed.Ok? then Ok(Granting(request, renewed.value, permissions)) else Err(LeaseRejected)))
      case Some(ReleaseLease(ref)) =>
        (match ParseRoute(ref)
         case None => (this, Err(InvalidMessage))
         case Some(route) => Release(request, route, env))
      case Some(InputCommand(_, _)) =>
        if CONTROL_INPUT !in permissions then (this, Err(PermissionDenied)) else ForwardAuthorized(request, env)
      case Some(SendSecureAttention(_)) =>
        if !secureAttentionAllowed || CONTROL_INPUT !in permissions then (this, Err(PermissionDenied))
        else ForwardAuthorized(request, env)
      case Some(Authenticate) => (this, Err(InvalidMessage))
      case Some(RegisterHelper) => (this, Err(InvalidMessage))
      case Some(_) => ForwardAuthorized(request, env)
    }

    function Acquire(request: ClientFrame, sessionId: Octets, generation: U64, wanted: seq<int>, displayName: string, env: Surroundings)
      : (BrokerState, Reply)
    {
      if |sessionId| != SESSION_ID_BYTES then (this, Err(InvalidMessage))
      else
        var (next, acquired) :=
          leases.Acquire(Leases.AcquireLease(sessionId, generation, displayName, CONTROL_INPUT in wanted), env.nowMs, env.random);
        match acquired
        case Err(_) => (this.(leases := next), Err(LeaseRejected))
        case Ok(lease) =>
          var (controlled, refused) := routes.BeginControl(lease.generation);
          if refused.Some? then (this.(leases := next, routes := controlled), Err(LeaseRejected))
          else
            (this.(leases := next, routes := controlled, permissions := wanted, operationSequence := 0,
                   log := log + [Granted(lease, wanted)]),
             Ok(Granting(request, lease, wanted)))
    }

    function Release(request: ClientFrame, route: ProxyRoute, env: Surroundings): (BrokerState, Reply) {
      var (sent, reply) := Forward(request, route, 0, env);
      if reply.Err? then (sent, reply)
      else
        var (next, released) := leases.ReleaseOrClose(route.leaseId, route.generation);
        if released.Err? then (sent.(leases := next), Err(LeaseRejected))
        else (sent.(leases := next, permissions := []), reply)
    }

    function ForwardAuthorized(request: ClientFrame, env: Surroundings): (BrokerState, Reply) {
      var name := RequestDisplayName(request);
      if name.Some? && leases.active.None? then (this, Err(LeaseRejected))
      else if name.Some? && name.value != leases.active.value.controllerDisplayName then (this, Err(InvalidMessage))
      else
        match RequestRoute(request)
        case None => (this, Err(InvalidMessage))
        case Some(route) =>
          match CheckedAdd(operationSequence, 1)
          case None => (this, Err(LeaseRejected))
          case Some(number) =>
            var (next, refused) := leases.AuthorizeCommand(route.leaseId, route.generation, number, env.nowMs);
            var counted := this.(operationSequence := number, leases := next);
            if refused.Some? then (counted, Err(LeaseRejected)) else counted.Forward(request, route, number, env)
    }

    /** A failed Helper link answers without sending; a link that yields no answer has failed. */
    function Forward(request: ClientFrame, route: ProxyRoute, number: U64, env: Surroundings): (BrokerState, Reply) {
      if helperFailed then (this, Err(HelperFailed))
      else
        var sent := this.(log := log + [Exchanged(request, env.nowMs, number)]);
        match env.answer
        case None => (sent.(helperFailed := true), Err(HelperFailed))
        case Some(response) =>
          if response.requestId != request.requestId || response.sequence != request.sequence
          then (sent.(helperFailed := true), Err(StaleResponse))
          else
            match ResponseRoute(response)
            case None => (sent, Err(InvalidMessage))
            case Some(answered) =>
              if answered != route then (sent.(helperFailed := true), Err(StaleResponse)) else (sent, Ok(response))
    }

    /** `try_event`: `polled` is what the Helper link yields, `None` when the link fails. */
    function TryEvent(polled: Option<Option<ServerFrame>>): (BrokerState, Result<Option<ServerFrame>, BrokerError>) {
      if helperFailed || polled.None? then (this.(helperFailed := true), Err(HelperFailed))
      else
        match polled.value
        case None => (this, Ok(None))
        case Some(response) =>
          if leases.active.None? then (this, Err(LeaseRejected))
          else
            match ResponseRoute(response)
            case None => (this, Err(InvalidMessage))
            case Some(route) =>
              if route != ProxyRoute(leases.active.value.id, leases.active.value.generation)
              then (this.(helperFailed := true), Err(StaleResponse))
              else (this, Ok(Some(response)))
    }

    function Expire(nowMs: U64): (BrokerState, bool) {
      var (next, expired) := leases.Expire(nowMs);
      if expired.Some? then (this.(leases := next, helperFailed := true, permissions := []), true) else (this, false)
    }

    function FailClosed(): BrokerState {
      this.(helperFailed := true, leases := leases.DisconnectHost(), permissions := [])
    }
  }

  function RequestDisplayName(request: ClientFrame): Option<string> {
    match request.payload
    case Some(StartPeer(_, name)) => Some(name)
    case Some(RestartPeer(_, name)) => Some(name)
    case _ => None
  }

  /** `request_route`. */
  function RequestRoute(request: ClientFrame): Option<ProxyRoute> {
    if request.payload.Some? && request.payload.value.IsRouted() then ParseRoute(request.payload.value.ref) else None
  }

  function Granting(request: ClientFrame, lease: Lease, permissions: seq<int>): ServerFrame {
    ServerFrame(request.requestId, request.sequence, Some(LeaseGranted(lease, permissions)))
  }

  class HostBrokerSession {
    const leases: LeaseManager
    const routes: SessionRoutes.SessionStateMachine
    var permissions: seq<int>
    var operationSequence: U64
    const secureAttentionAllowed: bool
    var helperFailed: bool
    ghost var log: seq<Entry>

    ghost function View(): BrokerState
      reads this, leases, routes
    {
      BrokerState(leases.View(), routes.View(), permissions, operationSequence, secureAttentionAllowed, helperFailed, log)
    }

    constructor (leases: LeaseManager, routes: SessionRoutes.SessionStateMachine, secureAttentionAllowed: bool)
      ensures this.leases == leases && this.routes == routes
      ensures View() == BrokerState(leases.View(), routes.View(), [], 0, secureAttentionAllowed, false, [])
    {
      this.leases, this.routes, this.secureAttentionAllowed := leases, routes, secureAttentionAllowed;
      permissions, operationSequence, helperFailed, log := [], 0, false, [];
    }

    method Handle(request: ClientFrame, env: Surroundings) returns (r: Reply)
      modifies this, leases, routes
      ensures (View(), r) == old(View()).Handle(request, env)
    {
      if request.payload.None? {
        return Err(InvalidMessage);
      }
      match request.payload.value
      case AcquireLease(sessionId, generation, wanted, displayName) =>
        r := Acquire(request, sessionId, generation, wanted, displayName, env);
      case RenewLease(ref) =>
        var route := ParseRoute(ref);
        if route.None? {
          return Err(InvalidMessage);
        }
        var renewed := leases.Renew(route.value.leaseId, route.value.generation, env.nowMs);
        if renewed.Err? {
          return Err(LeaseRejected);
        }
        r := Ok(Granting(request, renewed.value, permissions));
      case ReleaseLease(ref) =>
        var route := ParseRoute(ref);
        if route.None? {
          return Err(InvalidMessage);
        }
        r := Forward(request, route.value, 0, env);
        if r.Err? {
          return;
        }
        var released := leases.ReleaseOrClose(route.value.leaseId, route.value.generation);
        if released.Err? {
          return Err(LeaseRejected);
        }
        permissions := [];
      case InputCommand(_, _) =>
        if CONTROL_INPUT !in permissions {
          return Err(PermissionDenied);
        }
        r := ForwardAuthorized(request, env);
      case SendSecureAttention(_) =>
        if !secureAttentionAllowed || CONTROL_INPUT !in permissions {
          return Err(PermissionDenied);
        }
        r := ForwardAuthorized(request, env);
      case StartPeer(_, _) => r := ForwardAuthorized(request, env);
      case RestartPeer(_, _) => r := ForwardAuthorized(request, env);
      case AddIceCandidate(_) => r := ForwardAuthorized(request, env);
      case ClosePeer(_) => r := ForwardAuthorized(request, env);
      case Authenticate => r := Err(InvalidMessage);
      case RegisterHelper => r := Err(InvalidMessage);
    }

    method Acquire(request: ClientFrame, sessionId: Octets, generation: U64, wanted: seq<int>, displayName: string, env: Surroundings)
      returns (r: Reply)
      modifies this, leases, routes
      ensures (View(), r) == old(View()).Acquire(request, sessionId, generation, wanted, displayName, env)
    {
      if |sessionId| != SESSION_ID_BYTES {
        return Err(InvalidMessage);
      }
      var mayControlInput := CONTROL_INPUT in wanted;
      var acquired := leases.Acquire(Leases.AcquireLease(sessionId, generation, displayName, mayControlInput), env.nowMs, env.random);
      if acquired.Err? {
        return Err(LeaseRejected);
      }
      var lease := acquired.value;
      var refused := routes.BeginControl(lease.generation);
      if refused.Some? {
        return Err(LeaseRejected);
      }
      permissions := wanted;
      operationSequence := 0;
      log := log + [Granted(lease, wanted)];
      r := Ok(Granting(request, lease, permissions));
    }

    method ForwardAuthorized(request: ClientFrame, env: Surroundings) returns (r: Reply)
      modifies this, leases
      ensures (View(), r) == old(View()).ForwardAuthorized(request, env)
    {
      var name := RequestDisplayName(request);
      if name.Some? {
        if leases.active.None? {
          return Err(LeaseRejected);
        }
        if name.value != leases.active.value.controllerDisplayName {
          return Err(InvalidMessage);
        }
      }
      var route := RequestRoute(request);
      if route.None? {
        return Err(InvalidMessage);
      }
      var number := CheckedAdd(operationSequence, 1);
      if number.None? {
        return Err(LeaseRejected);
      }
      operationSequence := number.value;
      var refused := leases.AuthorizeCommand(route.value.leaseId, route.value.generation, operationSequence, env.nowMs);
      if refused.Some? {
        return Err(LeaseRejected);
      }
      r := Forward(request, route.value, operationSequence, env);
    }

    method Forward(request: ClientFrame, route: ProxyRoute, ghost number: U64, env: Surroundings) returns (r: Reply)
      modifies this`helperFailed, this`log
      ensures (View(), r) == old(View()).Forward(request, route, number, env)
    {
      if helperFailed {
        return Err(HelperFailed);
      }
      log := log + [Exchanged(request, env.nowMs, number)];
      if env.answer.None? {
        helperFailed := true;
        return Err(HelperFailed);
      }
      var response := env.answer.value;
      if response.requestId != request.requestId || response.sequence != request.sequence {
        helperFailed := true;
        return Err(StaleResponse);
      }
      var answered := ResponseRoute(response);
      if answered.None? {
        return Err(InvalidMessage);
      }
      if answered.value != route {
        helperFailed := true;
        return Err(StaleResponse);
      }
      r := Ok(response);
    }

    method TryEvent(polled: Option<Option<ServerFrame>>) returns (r: Result<Option<ServerFrame>, BrokerError>)
      modifies this`helperFailed
      ensures (View(), r) == old(View()).TryEvent(polled)
    {
      if helperFailed || polled.None? {
        helperFailed := true;
        return Err(HelperFailed);
      }
      if polled.value.None? {
        return Ok(None);
      }
      var response := polled.value.value;
      if leases.active.None? {
        return Err(LeaseRejected);
      }
      var expected := ProxyRoute(leases.active.value.id, leases.active.value.generation);
      var route := ResponseRoute(response);
      if route.None? {
        return Err(InvalidMessage);
      }
      if route.value != expected {
        helperFailed := true;
        return Err(StaleResponse);
      }
      r := Ok(Some(response));
    }

    method Expire(nowMs: U64) returns (expired: bool)
      modifies this, leases
      ensures (View(), expired) == old(View()).Expire(nowMs)
    {
      var id := leases.Expire(nowMs);
      if id.Some? {
        helperFailed := true;
        permissions := [];
        return true;
      }
      expired := false;
    }

    method FailClosed()
      modifies this, leases
      ensures View() == old(View()).FailClosed()
    {
      helperFailed := true;
      var _ := leases.DisconnectHost();
      permissions := [];
    }
  }

  // ---- What one call means ----

  /** The request names the active lease, which has not expired. */
  predicate NamesLiveLease(st: BrokerState, ref: RouteRef, nowMs: U64) {
    && st.leases.active.Some? && ref == RouteRef(st.leases.active.value.id, st.leases.active.value.generation) && ref.generation != 0
    && nowMs < st.leases.active.value.expiresAtMs
  }

  /** What the caller's permissions allow it to ask for. */
  predicate Allowed(st: BrokerState, payload: ClientPayload) {
    && (payload.InputCommand? ==> CONTROL_INPUT in st.permissions)
    && (payload.SendSecureAttention? ==> st.secureAttentionAllowed && CONTROL_INPUT in st.permissions)
  }

  predicate NamesController(st: BrokerState, request: ClientFrame) {
    RequestDisplayName(request).Some? ==>
      st.leases.active.Some? && RequestDisplayName(request).value == st.leases.active.value.controllerDisplayName
  }

  /** The Helper answered this request, for the route it names. */
  predicate AnswersWell(request: ClientFrame, ref: RouteRef, answer: Option<ServerFrame>) {
    && answer.Some? && answer.value.requestId == request.requestId && answer.value.sequence == request.sequence
    && ResponseRoute(answer.value).Some? && RefOf(ResponseRoute(answer.value).value) == ref
  }

  /** A routed request reaches the Helper: allowed, under the live lease it names, with the next number, over a working link. */
  predicate MayReach(st: BrokerState, request: ClientFrame, nowMs: U64)
    requires request.payload.Some? && request.payload.value.IsRouted()
  {
    && Allowed(st, request.payload.value) && NamesController(st, request)
    && NamesLiveLease(st, request.payload.value.ref, nowMs)
    && st.operationSequence < U64_MAX && st.operationSequence == st.leases.active.value.lastCommandSequence
    && !st.helperFailed
  }

  function Counted(st: BrokerState): BrokerState
    requires st.leases.active.Some? && st.operationSequence < U64_MAX
  {
    var number := st.operationSequence as int + 1;
    st.(operationSequence := number, leases := st.leases.(active := Some(st.leases.active.value.(lastCommandSequence := number))))
  }

  /** A request that does not reach the Helper is counted, if it gets as far as the lease; finding the lease expired ends it. */
  predicate OnlyCounted(st: BrokerState, next: BrokerState, request: ClientFrame, nowMs: U64)
    requires request.payload.Some? && request.payload.value.IsRouted()
  {
    var ref := request.payload.value.ref;
    var counts := Allowed(st, request.payload.value) && NamesController(st, request) && ParseRoute(ref).Some? && st.operationSequence < U64_MAX;
    var expired := counts && Names(st.leases, ref.leaseId, ref.generation) && st.leases.active.value.expiresAtMs <= nowMs;
    && next.operationSequence as int == st.operationSequence as int + (if counts then 1 else 0)
    && (expired ==> Ended(st.leases, next.leases))
    && (counts && st.helperFailed && NamesLiveLease(st, ref, nowMs) ==>
          (st.operationSequence == st.leases.active.value.lastCommandSequence ==> next.leases == Counted(st).leases))
    && (!expired && next.leases != st.leases ==> counts && NamesLiveLease(st, ref, nowMs) && next.leases == Counted(st).leases)
    && next == st.(operationSequence := next.operationSequence, leases := next.leases)
  }

  /**
   * Both halves of authority for one request: a routed request is handed to the Helper if
   * and only if it may reach it, under the next number; and it is answered if and only if
   * the Helper then answers it well, with the Helper's own answer.
   */
  lemma RoutedIff(st: BrokerState, request: ClientFrame, env: Surroundings)
    requires request.payload.Some? && request.payload.value.IsRouted()
    ensures var (next, reply) := st.Handle(request, env);
            && (next.log != st.log <==> MayReach(st, request, env.nowMs))
            && (MayReach(st, request, env.nowMs) ==>
                  next == Counted(st).(log := st.log + [Exchanged(request, env.nowMs, st.operationSequence as int + 1)], helperFailed := next.helperFailed))
            && (reply.Ok? <==> MayReach(st, request, env.nowMs) && AnswersWell(request, request.payload.value.ref, env.answer))
            && (reply.Ok? ==> Some(reply.value) == env.answer && !next.helperFailed)
            && (!MayReach(st, request, env.nowMs) ==> OnlyCounted(st, next, request, env.nowMs) && reply.Err?)
            && (!Allowed(st, request.payload.value) <==> reply == Err(PermissionDenied))
            && (reply == Err(PermissionDenied) ==> next == st)
  {
    var ref := request.payload.value.ref;
    if Allowed(st, request.payload.value) {
      ForwardAuthorizedIff(st, request, env);
      if !MayReach(st, request, env.nowMs) {
        RefusalOnlyCounts(st, request, env);
      }
    }
    hide BrokerState.ForwardAuthorized;
    hide MayReach;
    hide AnswersWell;
    hide Counted;
    hide NamesController;
    hide NamesLiveLease;
  }

  lemma RefusalOnlyCounts(st: BrokerState, request: ClientFrame, env: Surroundings)
    requires request.payload.Some? && request.payload.value.IsRouted() && Allowed(st, request.payload.value)
    requires !MayReach(st, request, env.nowMs)
    ensures OnlyCounted(st, st.ForwardAuthorized(request, env).0, request, env.nowMs)
  {
    var route := ParseRoute(request.payload.value.ref);
    if route.Some? && st.operationSequence < U64_MAX {
      var number := st.operationSequence as int + 1;
      AuthorizeIff(st.leases, route.value.leaseId, route.value.generation, number, env.nowMs);
      var leases := st.leases.AuthorizeCommand(route.value.leaseId, route.value.generation, number, env.nowMs).0;
      ForwardIff(st.(operationSequence := number, leases := leases), request, route.value, number, env);
    }
    hide LeaseState.AuthorizeCommand;
    hide BrokerState.Forward;
    hide AnswersWell;
    hide Allowed;
    hide NamesController;
  }

  lemma ForwardAuthorizedIff(st: BrokerState, request: ClientFrame, env: Surroundings)
    requires request.payload.Some? && request.payload.value.IsRouted() && Allowed(st, request.payload.value)
    ensures var (next, reply) := st.ForwardAuthorized(request, env);
            && (next.log != st.log <==> MayReach(st, request, env.nowMs))
            && (MayReach(st, request, env.nowMs) ==>
                  next == Counted(st).(log := st.log + [Exchanged(request, env.nowMs, st.operationSequence as int + 1)], helperFailed := next.helperFailed))
            && (reply.Ok? <==> MayReach(st, request, env.nowMs) && AnswersWell(request, request.payload.value.ref, env.answer))
            && (reply.Ok? ==> Some(reply.value) == env.answer && !next.helperFailed)
            && (!MayReach(st, request, env.nowMs) ==> reply.Err?)
            && reply != Err(PermissionDenied)
  {
    var route := ParseRoute(request.payload.value.ref);
    if route.Some? && st.operationSequence < U64_MAX {
      var number := st.operationSequence as int + 1;
      AuthorizeIff(st.leases, route.value.leaseId, route.value.generation, number, env.nowMs);
      var leases := st.leases.AuthorizeCommand(route.value.leaseId, route.value.generation, number, env.nowMs).0;
      ForwardIff(st.(operationSequence := number, leases := leases), request, route.value, number, env);
    }
    hide LeaseState.AuthorizeCommand;
    hide BrokerState.Forward;
    hide AnswersWell;
    hide Allowed;
    hide NamesController;
  }

  /** One exchange: anything but an answer to this request for this route is an error, and a foreign one fails the link. */
  lemma ForwardIff(st: BrokerState, request: ClientFrame, route: ProxyRoute, number: U64, env: Surroundings)
    ensures var (next, reply) := st.Forward(request, route, number, env);
            && (st.helperFailed ==> next == st && reply == Err(HelperFailed))
            && (!st.helperFailed ==>
                  && next == st.(log := st.log + [Exchanged(request, env.nowMs, number)], helperFailed := next.helperFailed)
                  && (reply.Ok? <==> AnswersWell(request, RefOf(route), env.answer))
                  && (reply.Ok? ==> Some(reply.value) == env.answer)
                  && (next.helperFailed <==> reply.Err? && (env.answer.None? || reply.error == StaleResponse))
                  && (env.answer.None? <==> reply == Err(HelperFailed))
                  && (reply == Err(InvalidMessage) ==> env.answer.Some? && ResponseRoute(env.answer.value).None?))
            && (reply.Err? ==> reply.error in {HelperFailed, StaleResponse, InvalidMessage})
  {
  }

  /** Every refusal of a routed request names something that is wrong. */
  predicate FaultNamed(st: BrokerState, request: ClientFrame, env: Surroundings, error: BrokerError)
    requires request.payload.Some? && request.payload.value.IsRouted()
  {
    var ref := request.payload.value.ref;
    match error
    case PermissionDenied => !Allowed(st, request.payload.value)
    case LeaseRejected =>
      || !NamesLiveLease(st, ref, env.nowMs)
      || st.operationSequence == U64_MAX || st.operationSequence != st.leases.active.value.lastCommandSequence
    case InvalidMessage =>
      || !NamesController(st, request) || ParseRoute(ref).None?
      || (env.answer.Some? && ResponseRoute(env.answer.value).None?)
    case HelperFailed => st.helperFailed || env.answer.None?
    case StaleResponse => env.answer.Some? && !AnswersWell(request, ref, env.answer)
  }

  lemma RefusalNamesItsFault(st: BrokerState, request: ClientFrame, env: Surroundings)
    requires request.payload.Some? && request.payload.value.IsRouted()
    ensures var reply := st.Handle(request, env).1; reply.Err? ==> FaultNamed(st, request, env, reply.error)
  {
    var route := ParseRoute(request.payload.value.ref);
    if Allowed(st, request.payload.value) && route.Some? && st.operationSequence < U64_MAX {
      var number := st.operationSequence as int + 1;
      AuthorizeIff(st.leases, route.value.leaseId, route.value.generation, number, env.nowMs);
      var leases := st.leases.AuthorizeCommand(route.value.leaseId, route.value.generation, number, env.nowMs).0;
      ForwardIff(st.(operationSequence := number, leases := leases), request, route.value, number, env);
    }
    hide LeaseState.AuthorizeCommand;
    hide BrokerState.Forward;
    hide AnswersWell;
  }

  /** A renewal goes to the lease alone, and its answer carries the renewed lease and what was granted with it. */
  lemma RenewalIff(st: BrokerState, request: ClientFrame, env: Surroundings)
    requires request.payload.Some? && request.payload.value.RenewLease?
    ensures var ref := request.payload.value.ref;
            var (next, reply) := st.Handle(request, env);
            && (reply.Ok? <==>
                  && NamesLiveLease(st, ref, env.nowMs) && st.leases.active.value.lastRenewedAtMs as int + 5_000 <= env.nowMs
                  && env.nowMs as int + 15_000 <= U64_MAX)
            && next == st.(leases := next.leases)
            && (reply.Ok? ==>
                  && next.leases.active == Some(st.leases.active.value.(lastRenewedAtMs := env.nowMs, expiresAtMs := env.nowMs as int + 15_000))
                  && reply.value == ServerFrame(request.requestId, request.sequence, Some(LeaseGranted(next.leases.active.value, st.permissions))))
            && (reply.Err? ==> reply.error == if ParseRoute(ref).None? then InvalidMessage else LeaseRejected)
  {
    var route := ParseRoute(request.payload.value.ref);
    if route.Some? {
      RenewIff(st.leases, route.value.leaseId, route.value.generation, env.nowMs);
    }
    hide LeaseState.Renew;
  }

  /** A release ends the lease it names, but only once the Helper has acknowledged it. */
  lemma ReleaseRequestIff(st: BrokerState, request: ClientFrame, env: Surroundings)
    requires request.payload.Some? && request.payload.value.ReleaseLease?
    ensures var ref := request.payload.value.ref;
            var (next, reply) := st.Handle(request, env);
            && (reply.Ok? <==>
                  && ParseRoute(ref).Some? && !st.helperFailed && AnswersWell(request, ref, env.answer)
                  && (Names(st.leases, ref.leaseId, ref.generation)
                      || (st.leases.active.None? && st.leases.lastReleased == Some((ref.leaseId, ref.generation)))))
            && (reply.Ok? ==> Some(reply.value) == env.answer && next.permissions == [] && next.leases.active.None? && !next.helperFailed)
            && (reply.Err? ==> next.permissions == st.permissions && next.leases == st.leases)
            && next.operationSequence == st.operationSequence && next.routes == st.routes
  {
    var route := ParseRoute(request.payload.value.ref);
    if route.Some? {
      ForwardIff(st, request, route.value, 0, env);
      ReleaseIff(st.leases, route.value.leaseId, route.value.generation);
    }
    hide BrokerState.Forward;
    hide LeaseState.ReleaseOrClose;
    hide AnswersWell;
  }

  /** A lease is granted exactly when the lease manager grants one and the route can be controlled; it starts the count anew. */
  lemma AcquisitionIff(st: BrokerState, request: ClientFrame, env: Surroundings)
    requires request.payload.Some? && request.payload.value.AcquireLease?
    ensures var asked := request.payload.value;
            var (next, reply) := st.Handle(request, env);
            var (leases, granted) := st.leases.Acquire(
              Leases.AcquireLease(asked.sessionId, asked.generation, asked.displayName, CONTROL_INPUT in asked.permissions), env.nowMs, env.random);
            && (reply.Ok? <==>
                  |asked.sessionId| == 16 && granted.Ok? && st.routes.current.Some?
                  && st.routes.current.value.generation == st.routes.generation == asked.generation)
            && (reply.Ok? ==>
                  && next.leases == leases && next.permissions == asked.permissions && next.operationSequence == 0
                  && next.routes == st.routes.(controlledLease := true, inputEnabled := true)
                  && next.log == st.log + [Granted(granted.value, asked.permissions)]
                  && reply.value == ServerFrame(request.requestId, request.sequence, Some(LeaseGranted(granted.value, asked.permissions))))
            && (reply.Err? ==> next.permissions == st.permissions && next.operationSequence == st.operationSequence && next.log == st.log)
            && (reply.Err? && (|asked.sessionId| != 16 || granted.Err?) ==> next == st)
            && (reply.Err? && |asked.sessionId| == 16 && granted.Ok? ==> next == st.(leases := leases))
            && next.helperFailed == st.helperFailed
  {
    var asked := request.payload.value;
    var random, mayControl := env.random, CONTROL_INPUT in asked.permissions;
    AcquireIff(st.leases, Leases.AcquireLease(asked.sessionId, asked.generation, asked.displayName, mayControl), env.nowMs, random);
    SessionRoutes.BeginIff(st.routes, asked.generation);
    hide LeaseState.Acquire;
    hide SessionRoutes.SessionState.BeginControl;
  }

  /** Anything that is no request of a Host changes nothing. */
  lemma OthersAreRefused(st: BrokerState, request: ClientFrame, env: Surroundings)
    requires request.payload.None? || request.payload.value.Authenticate? || request.payload.value.RegisterHelper?
    ensures st.Handle(request, env) == (st, Err(InvalidMessage))
  {
  }

  /** Polls, expiries and shutdowns, each with its whole effect. */
  lemma PollIff(st: BrokerState, polled: Option<Option<ServerFrame>>)
    ensures var (next, r) := st.TryEvent(polled);
            && (r.Ok? && r.value.Some? <==>
                  && !st.helperFailed && polled.Some? && polled.value.Some? && st.leases.active.Some?
                  && ResponseRoute(polled.value.value) == Some(ProxyRoute(st.leases.active.value.id, st.leases.active.value.generation)))
            && (r.Ok? && r.value.Some? ==> Some(r.value) == polled)
            && (r == Ok(None) <==> !st.helperFailed && polled == Some(None))
            && next == st.(helperFailed := st.helperFailed || polled.None? || r == Err(StaleResponse))
            && (r == Err(StaleResponse) <==>
                  && !st.helperFailed && polled.Some? && polled.value.Some? && st.leases.active.Some?
                  && ResponseRoute(polled.value.value).Some?
                  && ResponseRoute(polled.value.value) != Some(ProxyRoute(st.leases.active.value.id, st.leases.active.value.generation)))
  {
  }

  lemma EndingsIff(st: BrokerState, nowMs: U64)
    ensures var (next, expired) := st.Expire(nowMs);
            && (expired <==> st.leases.active.Some? && st.leases.active.value.expiresAtMs <= nowMs)
            && (if expired then Ended(st.leases, next.leases) && next == st.(leases := next.leases, helperFailed := true, permissions := [])
                else next == st)
    ensures var next := st.FailClosed();
            && next == st.(leases := next.leases, helperFailed := true, permissions := [])
            && next.leases.active.None? && next.leases.hostGeneration.None?
  {
  }

  // ---- Runs from the setup of `run_host_connection` ----

  /** Only the login and secure desktops of Windows take a secure attention sequence. */
  predicate TakesSecureAttention(route: SessionRoutes.RouteSession) {
    route.platform.Windows? && (route.desktop.LockedLogin? || route.desktop.Secure?)
  }

  /** The state `run_host_connection` builds before the first request. */
  function Setup(route: SessionRoutes.RouteSession): Option<BrokerState> {
    var (routes, observed) := SessionRoutes.INITIAL.Apply(SessionRoutes.SessionAvailable(route));
    var (leases, refused) := NO_LEASE.ConnectHost(route.generation);
    if observed.Err? || refused.Some? then None
    else Some(BrokerState(leases, routes, [], 0, TakesSecureAttention(route), false, []))
  }

  /** The objects `run_host_connection` builds before the first request. */
  method NewSession(route: SessionRoutes.RouteSession) returns (r: Option<HostBrokerSession>)
    ensures r.Some? <==> Setup(route).Some?
    ensures r.Some? ==> fresh(r.value) && fresh(r.value.leases) && fresh(r.value.routes)
    ensures r.Some? ==> Some(r.value.View()) == Setup(route)
  {
    var leases := new LeaseManager();
    var routes := new SessionRoutes.SessionStateMachine();
    var observed := routes.Apply(SessionRoutes.SessionAvailable(route));
    var refused := leases.ConnectHost(route.generation);
    if observed.Err? || refused.Some? {
      return None;
    }
    var session := new HostBrokerSession(leases, routes, TakesSecureAttention(route));
    r := Some(session);
  }

  datatype Op =
    | HandleOp(request: ClientFrame, env: Surroundings)
    | TryEventOp(polled: Option<Option<ServerFrame>>)
    | ExpireOp(nowMs: U64)
    | FailClosedOp

  function Step(st: BrokerState, op: Op): BrokerState {
    match op
    case HandleOp(request, env) => st.Handle(request, env).0
    case TryEventOp(polled) => st.TryEvent(polled).0
    case ExpireOp(now) => st.Expire(now).0
    case FailClosedOp => st.FailClosed()
  }

  function RunFrom(st: BrokerState, ops: seq<Op>): BrokerState
    decreases |ops|
  {
    if ops == [] then st else Step(RunFrom(st, ops[..|ops| - 1]), ops[|ops| - 1])
  }

  /** The last grant in a history. */
  function LastGrant(log: seq<Entry>): (r: Option<Entry>)
    ensures r.Some? ==> r.value.Granted? && r.value in log
  {
    if log == [] then None
    else if log[|log| - 1].Granted? then Some(log[|log| - 1])
    else LastGrant(log[..|log| - 1])
  }

  /** The numbers of the operations handed to the Helper since the last grant, releases aside. */
  function NumbersSinceGrant(log: seq<Entry>): seq<int> {
    if log == [] || log[|log| - 1].Granted? then []
    else
      NumbersSinceGrant(log[..|log| - 1]) + (if IsRelease(log[|log| - 1].request) then [] else [log[|log| - 1].number])
  }

  predicate IsRelease(request: ClientFrame) {
    request.payload.Some? && request.payload.value.ReleaseLease?
  }

  /** The sequence 1, 2, ..., k. */
  function UpTo(k: nat): (s: seq<int>)
    ensures |s| == k && forall i | 0 <= i < k :: s[i] == i + 1
  {
    seq(k, i requires 0 <= i < k => i + 1)
  }

  ghost predicate Inv(st: BrokerState) {
    && st.routes.current.Some?
    && st.routes.generation == st.routes.current.value.generation
    && (st.leases.hostGeneration.Some? ==> st.leases.hostGeneration.value == st.routes.generation)
    && (st.leases.hostGeneration.None? ==> st.leases.active.None?)
    && (st.leases.active.Some? ==> LeaseAgrees(st, st.leases.active.value))
  }

  /** An active lease, the session's permission list, the counters and the history tell one story. */
  ghost predicate LeaseAgrees(st: BrokerState, lease: Lease) {
    && lease.mayControlInput == (CONTROL_INPUT in st.permissions)
    && lease.lastCommandSequence <= st.operationSequence
    && LastGrant(st.log).Some?
    && LastGrant(st.log).value.permissions == st.permissions
    && SameLease(LastGrant(st.log).value.lease, lease)
    && |NumbersSinceGrant(st.log)| <= lease.lastCommandSequence
    && NumbersSinceGrant(st.log) == UpTo(|NumbersSinceGrant(st.log)|)
    && (!st.helperFailed ==> |NumbersSinceGrant(st.log)| == lease.lastCommandSequence)
  }

  ghost predicate SameLease(a: Lease, b: Lease) {
    && a.id == b.id && a.sessionId == b.sessionId && a.generation == b.generation
    && a.issuedAtMs == b.issuedAtMs && a.controllerDisplayName == b.controllerDisplayName
    && a.mayControlInput == b.mayControlInput
  }

  lemma SetupIsConsistent(route: SessionRoutes.RouteSession)
    requires Setup(route).Some?
    ensures Inv(Setup(route).value)
  {
  }

  lemma UpToNext(k: nat)
    ensures UpTo(k) + [k + 1] == UpTo(k + 1)
  {
  }

  /** `begin_control` cannot refuse a lease the manager has just granted. */
  lemma GrantedLeaseBeginsControl(st: BrokerState, request: Leases.AcquireLease, nowMs: U64, random: Option<LeaseId>)
    requires Inv(st) && st.leases.Acquire(request, nowMs, random).1.Ok?
    ensures st.routes.BeginControl(st.leases.Acquire(request, nowMs, random).1.value.generation).1.None?
  {
  }

  lemma LogExchange(log: seq<Entry>, request: ClientFrame, nowMs: U64, number: U64)
    ensures var after := log + [Exchanged(request, nowMs, number)];
            && LastGrant(after) == LastGrant(log)
            && NumbersSinceGrant(after) == NumbersSinceGrant(log) + (if IsRelease(request) then [] else [number])
  {
    var after := log + [Exchanged(request, nowMs, number)];
    assert after[..|after| - 1] == log;
  }

  lemma LogGrant(log: seq<Entry>, lease: Lease, permissions: seq<int>)
    ensures var after := log + [Granted(lease, permissions)];
            LastGrant(after) == Some(Granted(lease, permissions)) && NumbersSinceGrant(after) == []
  {
  }

  /** Forwarding touches the history, by at most one exchange, and the Helper link; nothing else. */
  lemma ForwardEffect(st: BrokerState, request: ClientFrame, route: ProxyRoute, number: U64, env: Surroundings)
    ensures var next := st.Forward(request, route, number, env).0;
            && next == st.(log := next.log, helperFailed := next.helperFailed)
            && (st.helperFailed ==> next == st)
            && (!st.helperFailed ==> next.log == st.log + [Exchanged(request, env.nowMs, number)])
  {
  }

  lemma ForwardKeepsAgreement(st: BrokerState, request: ClientFrame, route: ProxyRoute, number: U64, env: Surroundings, before: Lease, lease: Lease)
    requires LeaseAgrees(st, before) && lease == before.(lastCommandSequence := lease.lastCommandSequence)
    requires lease.lastCommandSequence == if IsRelease(request) then before.lastCommandSequence else number
    requires !IsRelease(request) ==> number == before.lastCommandSequence + 1 == st.operationSequence
    ensures LeaseAgrees(st.Forward(request, route, number, env).0, lease)
  {
    ForwardEffect(st, request, route, number, env);
    hide BrokerState.Forward;
    hide NumbersSinceGrant;
    hide LastGrant;
    LogExchange(st.log, request, env.nowMs, number);
    UpToNext(|NumbersSinceGrant(st.log)|);
    var numbers := NumbersSinceGrant(st.log);
    assert numbers + [] == numbers;
  }

  lemma AcquireKeepsInv(st: BrokerState, request: ClientFrame, sessionId: Octets, generation: U64, wanted: seq<int>, displayName: string, env: Surroundings)
    requires Inv(st)
    ensures Inv(st.Acquire(request, sessionId, generation, wanted, displayName, env).0)
  {
    var next := st.Acquire(request, sessionId, generation, wanted, displayName, env).0;
    if next.log != st.log {
      LogGrant(st.log, next.leases.active.value, wanted);
    }
  }

  lemma ReleaseKeepsInv(st: BrokerState, request: ClientFrame, route: ProxyRoute, env: Surroundings)
    requires Inv(st) && IsRelease(request)
    ensures Inv(st.Release(request, route, env).0)
  {
    ForwardEffect(st, request, route, 0, env);
    if st.leases.active.Some? {
      ForwardKeepsAgreement(st, request, route, 0, env, st.leases.active.value, st.leases.active.value);
    }
    hide BrokerState.Forward;
    hide LeaseAgrees;
    LeaseAgreesIgnoresLeases(st.Forward(request, route, 0, env).0);
  }

  lemma LeaseAgreesIgnoresLeases(st: BrokerState)
    ensures forall l, lease :: LeaseAgrees(st.(leases := l), lease) == LeaseAgrees(st, lease)
  {
  }

  lemma ForwardAuthorizedKeepsInv(st: BrokerState, request: ClientFrame, env: Surroundings)
    requires Inv(st) && !IsRelease(request)
    ensures Inv(st.ForwardAuthorized(request, env).0)
  {
    var next := st.ForwardAuthorized(request, env).0;
    if RequestRoute(request).Some? && CheckedAdd(st.operationSequence, 1).Some? {
      var route, number := RequestRoute(request).value, CheckedAdd(st.operationSequence, 1).value;
      var (leases, refused) := st.leases.AuthorizeCommand(route.leaseId, route.generation, number, env.nowMs);
      var counted := st.(operationSequence := number, leases := leases);
      ForwardEffect(counted, request, route, number, env);
      if refused.None? {
        ForwardKeepsAgreement(counted, request, route, number, env, st.leases.active.value, leases.active.value);
      }
      hide BrokerState.Forward;
    }
  }

  lemma HandleKeepsInv(st: BrokerState, request: ClientFrame, env: Surroundings)
    requires Inv(st)
    ensures Inv(st.Handle(request, env).0)
  {
    hide BrokerState.Acquire;
    hide BrokerState.Release;
    hide BrokerState.ForwardAuthorized;
    if request.payload.Some? {
      match request.payload.value
      case AcquireLease(sessionId, generation, wanted, name) => AcquireKeepsInv(st, request, sessionId, generation, wanted, name, env);
      case ReleaseLease(ref) =>
        if ParseRoute(ref).Some? {
          ReleaseKeepsInv(st, request, ParseRoute(ref).value, env);
        }
      case RenewLease(_) =>
      case _ => ForwardAuthorizedKeepsInv(st, request, env);
    }
  }

  lemma StepKeepsInv(st: BrokerState, op: Op)
    requires Inv(st)
    ensures Inv(Step(st, op))
  {
    if op.HandleOp? {
      HandleKeepsInv(st, op.request, op.env);
    }
  }

  lemma {:induction false} RunKeepsInv(st: BrokerState, ops: seq<Op>)
    requires Inv(st)
    ensures Inv(RunFrom(st, ops))
    decreases |ops|
  {
    if ops != [] {
      RunKeepsInv(st, ops[..|ops| - 1]);
      StepKeepsInv(RunFrom(st, ops[..|ops| - 1]), ops[|ops| - 1]);
    }
  }

  /** What is true of the state and the clock whenever an input reaches the Helper. */
  ghost predicate InputIsAuthorized(st: BrokerState, request: ClientFrame, nowMs: U64, number: U64) {
    && st.leases.active.Some?
    && var lease := st.leases.active.value;
      && RequestRoute(request) == Some(ProxyRoute(lease.id, lease.generation))
      && nowMs < lease.expiresAtMs
      && lease.mayControlInput
      && LastGrant(st.log).Some?
      && SameLease(LastGrant(st.log).value.lease, lease)
      && CONTROL_INPUT in LastGrant(st.log).value.permissions
      && number == lease.lastCommandSequence + 1
  }

  /** What a step may append to the history, and under which lease. */
  ghost predicate LogsOnlyAuthorized(st: BrokerState, op: Op, appended: seq<Entry>) {
    || appended == st.log
    || (&& |appended| == |st.log| + 1
        && appended[..|st.log|] == st.log
        && var e := appended[|st.log|];
           && op.HandleOp?
           && (e.Exchanged? ==>
             && e.request == op.request && e.nowMs == op.env.nowMs && e.request.payload.Some?
             && (e.request.payload.value.InputCommand? ==> InputIsAuthorized(st, e.request, e.nowMs, e.number))
             && (e.request.payload.value.SendSecureAttention? ==>
               st.secureAttentionAllowed && InputIsAuthorized(st, e.request, e.nowMs, e.number))))
  }

  lemma ForwardAuthorizedLogs(st: BrokerState, request: ClientFrame, env: Surroundings)
    requires Inv(st) && request.payload.Some?
    ensures var appended := st.ForwardAuthorized(request, env).0.log;
            || appended == st.log
            || (exists number ::
                  && appended == st.log + [Exchanged(request, env.nowMs, number)]
                  && (CONTROL_INPUT in st.permissions ==> InputIsAuthorized(st, request, env.nowMs, number)))
  {
    var next := st.ForwardAuthorized(request, env).0;
    if RequestRoute(request).Some? && CheckedAdd(st.operationSequence, 1).Some? {
      var route, number := RequestRoute(request).value, CheckedAdd(st.operationSequence, 1).value;
      var (leases, refused) := st.leases.AuthorizeCommand(route.leaseId, route.generation, number, env.nowMs);
      ForwardEffect(st.(operationSequence := number, leases := leases), request, route, number, env);
      hide BrokerState.Forward;
      if next.log != st.log {
        assert next.log == st.log + [Exchanged(request, env.nowMs, number)];
        if CONTROL_INPUT in st.permissions {
          assert InputIsAuthorized(st, request, env.nowMs, number);
        }
      }
    }
  }

  lemma HandleLogsOnlyAuthorized(st: BrokerState, request: ClientFrame, env: Surroundings)
    requires Inv(st)
    ensures LogsOnlyAuthorized(st, HandleOp(request, env), st.Handle(request, env).0.log)
  {
    if request.payload.Some? {
      ForwardAuthorizedLogs(st, request, env);
      hide BrokerState.ForwardAuthorized;
      hide InputIsAuthorized;
      if request.payload.value.ReleaseLease? && ParseRoute(request.payload.value.ref).Some? {
        ForwardEffect(st, request, ParseRoute(request.payload.value.ref).value, 0, env);
      }
      hide BrokerState.Forward;
    }
  }

  /**
   * Broker authority: in every run from the setup, whatever the Helper answers and in
   * whatever order requests, polls, expiries and shutdowns come, an input (or a secure
   * attention) is handed to the Helper only under a lease that is active and unexpired at
   * that moment, that the request names exactly, and that was granted with input control; a
   * secure attention moreover only on a Windows route at a login or secure desktop.
   */
  lemma BrokerAuthority(route: SessionRoutes.RouteSession, ops: seq<Op>, op: Op)
    requires Setup(route).Some?
    ensures var st := RunFrom(Setup(route).value, ops);
            st.secureAttentionAllowed == TakesSecureAttention(route) && LogsOnlyAuthorized(st, op, Step(st, op).log)
  {
    var start := Setup(route).value;
    SetupIsConsistent(route);
    RunKeepsInv(start, ops);
    SecureAttentionIsFixed(start, ops);
    if op.HandleOp? {
      HandleLogsOnlyAuthorized(RunFrom(start, ops), op.request, op.env);
      hide BrokerState.Handle;
    }
  }

  lemma {:induction false} SecureAttentionIsFixed(st: BrokerState, ops: seq<Op>)
    ensures RunFrom(st, ops).secureAttentionAllowed == st.secureAttentionAllowed
    decreases |ops|
  {
    if ops != [] {
      SecureAttentionIsFixed(st, ops[..|ops| - 1]);
      StepKeepsFlag(RunFrom(st, ops[..|ops| - 1]), ops[|ops| - 1]);
    }
    hide Step;
  }

  lemma StepKeepsFlag(st: BrokerState, op: Op)
    ensures Step(st, op).secureAttentionAllowed == st.secureAttentionAllowed
  {
  }

  /** In every run, the operations handed over since the current lease was granted are numbered 1..k. */
  lemma OperationsAreNumbered(route: SessionRoutes.RouteSession, ops: seq<Op>)
    requires Setup(route).Some?
    ensures var st := RunFrom(Setup(route).value, ops);
            st.leases.active.Some? ==>
              var numbers := NumbersSinceGrant(st.log);
              numbers == UpTo(|numbers|) && (!st.helperFailed ==> |numbers| == st.leases.active.value.lastCommandSequence)
  {
    SetupIsConsistent(route);
    RunKeepsInv(Setup(route).value, ops);
  }

  // ---- One rejection poisons the lease ----

  /** The session's operation counter has run ahead of the lease's, or the lease is gone. */
  predicate Poisoned(st: BrokerState) {
    st.leases.active.None? || st.operationSequence > st.leases.active.value.lastCommandSequence
  }

  /** The lease manager refused a routed operation. */
  predicate RefusedByLease(st: BrokerState, request: ClientFrame, env: Surroundings) {
    && RequestRoute(request).Some?
    && CheckedAdd(st.operationSequence, 1).Some?
    && st.Handle(request, env).0.operationSequence == CheckedAdd(st.operationSequence, 1).value
    && var route := RequestRoute(request).value;
       st.leases.AuthorizeCommand(route.leaseId, route.generation, CheckedAdd(st.operationSequence, 1).value, env.nowMs).1.Some?
  }

  predicate Grants(st: BrokerState, op: Op) {
    Step(st, op).log != st.log && Step(st, op).log[|Step(st, op).log| - 1].Granted?
  }

  lemma RefusalPoisons(st: BrokerState, request: ClientFrame, env: Surroundings)
    requires Inv(st) && RefusedByLease(st, request, env)
    ensures Poisoned(st.Handle(request, env).0) && st.Handle(request, env).1 == Err(LeaseRejected)
  {
  }

  lemma PoisonedStep(st: BrokerState, op: Op)
    requires Inv(st) && Poisoned(st) && !Grants(st, op)
    ensures Poisoned(Step(st, op))
  {
    if op.HandleOp? {
      PoisonedHandle(st, op.request, op.env);
      hide BrokerState.Handle;
    }
  }

  lemma PoisonedHandle(st: BrokerState, request: ClientFrame, env: Surroundings)
    requires Inv(st) && Poisoned(st) && !Grants(st, HandleOp(request, env))
    ensures Poisoned(st.Handle(request, env).0)
  {
    if request.payload.Some? {
      PoisonedForward(st, request, env);
      hide BrokerState.ForwardAuthorized;
      if request.payload.value.ReleaseLease? && ParseRoute(request.payload.value.ref).Some? {
        ForwardEffect(st, request, ParseRoute(request.payload.value.ref).value, 0, env);
      }
    }
    hide BrokerState.Forward;
  }

  lemma PoisonedForward(st: BrokerState, request: ClientFrame, env: Surroundings)
    requires Inv(st) && Poisoned(st)
    ensures Poisoned(st.ForwardAuthorized(request, env).0)
  {
    if RequestRoute(request).Some? && CheckedAdd(st.operationSequence, 1).Some? {
      var route, number := RequestRoute(request).value, CheckedAdd(st.operationSequence, 1).value;
      var leases := st.leases.AuthorizeCommand(route.leaseId, route.generation, number, env.nowMs).0;
      ForwardEffect(st.(operationSequence := number, leases := leases), request, route, number, env);
    }
    hide BrokerState.Forward;
  }

  /**
   * Once the lease manager refuses a routed operation, every routed operation of any
   * continuation is refused, until another lease is granted.
   */
  lemma {:induction false} RejectionIsFinalForTheLease(st: BrokerState, request: ClientFrame, env: Surroundings, ops: seq<Op>, op: Op)
    requires Inv(st) && RefusedByLease(st, request, env)
    requires var after := st.Handle(request, env).0;
             forall i | 0 <= i < |ops| :: !Grants(RunFrom(after, ops[..i]), ops[i])
    requires op.HandleOp? && op.request.payload.Some? && op.request.payload.value.IsRouted()
    ensures var late := RunFrom(st.Handle(request, env).0, ops);
            Step(late, op).log == late.log && late.Handle(op.request, op.env).1.Err?
  {
    hide BrokerState.Handle;
    hide Step;
    hide Inv;
    var after := st.Handle(request, env).0;
    HandleKeepsInv(st, request, env);
    RefusalPoisons(st, request, env);
    PoisonedRun(after, ops);
    RunKeepsInv(after, ops);
    RefusedWhenPoisoned(RunFrom(after, ops), op);
  }

  lemma RefusedWhenPoisoned(st: BrokerState, op: Op)
    requires Inv(st) && Poisoned(st)
    requires op.HandleOp? && op.request.payload.Some? && op.request.payload.value.IsRouted()
    ensures Step(st, op).log == st.log && st.Handle(op.request, op.env).1.Err?
  {
    PoisonedForwardRefuses(st, op.request, op.env);
    hide BrokerState.ForwardAuthorized;
  }

  lemma PoisonedForwardRefuses(st: BrokerState, request: ClientFrame, env: Surroundings)
    requires Inv(st) && Poisoned(st)
    ensures var (next, reply) := st.ForwardAuthorized(request, env); next.log == st.log && reply.Err?
  {
    hide BrokerState.Forward;
  }

  lemma {:induction false} PoisonedRun(st: BrokerState, ops: seq<Op>)
    requires Inv(st) && Poisoned(st)
    requires forall i | 0 <= i < |ops| :: !Grants(RunFrom(st, ops[..i]), ops[i])
    ensures Poisoned(RunFrom(st, ops))
    decreases |ops|
  {
    if ops != [] {
      var n := |ops| - 1;
      forall i | 0 <= i < n
        ensures !Grants(RunFrom(st, ops[..n][..i]), ops[..n][i])
      {
        assert ops[..n][..i] == ops[..i];
      }
      PoisonedRun(st, ops[..n]);
      RunKeepsInv(st, ops[..n]);
      PoisonedStep(RunFrom(st, ops[..n]), ops[n]);
    }
  }
}
