/**
 * The Host's single authenticated remote session and its bounded reconnect window
 * (crates/host-agent/src/remote_session.rs, remote_reconnect.rs, remote_session_state.rs).
 */
module RemoteSession {
  import opened Wrappers
  import opened Bytes
  import InputSink
  import HostSession

  const MAX_PENDING_ICE_CANDIDATES := 64
  const MAX_PENDING_ICE_BYTES := 65_536
  const PENDING_SESSION_LIFETIME_MS := 30_000
  const ACTIVE_RECONNECT_LIFETIME_MS: U64 := 45_000
  const MAX_EVENTS := 64
  const U32_MAX: U32 := 0xFFFF_FFFF

  datatype RemoteError =
    | InvalidEnvelope | DeviceBusy | Authentication | Authorization | Replay | PendingIceLimit
    | Peer | Input | InputPermission | Service | Closed

  datatype ErrorCode =
    | Busy | AuthInvalid | AuthRevoked | SessionReplayed | InvalidRequest | InputInjectionFailed
    | InputPermissionRequired | CaptureFailed | ServerUnavailable | IceFailed | LocalEmergencyStop | OtherCode

  /** An ICE candidate, known by the bytes of its line and media id. */
  datatype Candidate = Candidate(bytes: nat)

  datatype Offer = Offer(controllerDeviceId: Octets, sessionId: Octets)

  datatype Description = Description(isOffer: bool, sdpBytes: nat)

  datatype NegotiationBody = SessionDescription(description: Description) | IceCandidate(candidate: Candidate) | EndOfCandidates

  /** A decoded envelope's payload; an authentication that is no offer carries `None`. */
  datatype Payload =
    | SessionAuthentication(offer: Option<Offer>)
    | Negotiation(sessionId: Octets, body: Option<NegotiationBody>)
    | SessionStatus(statusSessionId: Octets, closing: bool)
    | OtherPayload

  datatype Envelope = Envelope(sender: Octets, recipient: Octets, requestId: string, payload: Option<Payload>)

  datatype Message =
    | AnswerAuthentication | AnswerDescription
    | ReconnectAuthentication(generation: U32) | ReconnectDescription
    | LocalIce | ClosingStatus | ErrorMessage(code: ErrorCode)

  datatype Outbound = Outbound(recipient: Octets, requestId: string, message: Message)

  type Reply = Result<seq<Outbound>, RemoteError>

  datatype PeerEvent =
    | Connected | Disconnected | Failed | LocalStop | LocalIceCandidate
    | ReliableInput(reliable: Option<HostSession.Envelope<HostSession.ReliableEvent>>)
    | FastPointer(fast: Option<HostSession.Envelope<HostSession.FastEvent>>)

  datatype Verified = Verified(controllerDeviceId: Octets, sessionId: Octets, inputAllowed: bool)

  function MapPeerError(error: InputSink.HostError): RemoteError {
    match error
    case InputPermissionDenied => InputPermission
    case InputFailure => Input
    case _ => Peer
  }

  function ProtocolErrorFor(error: RemoteError): ErrorCode {
    match error
    case DeviceBusy => Busy
    case Authentication => AuthInvalid
    case Authorization => AuthRevoked
    case Replay => SessionReplayed
    case PendingIceLimit => InvalidRequest
    case InvalidEnvelope => InvalidRequest
    case Input => InputInjectionFailed
    case InputPermission => InputPermissionRequired
    case Peer => CaptureFailed
    case Service => ServerUnavailable
    case Closed => ServerUnavailable
  }

  /** What the Host service and the native session factory are asked to do. */
  datatype Task =
    | Encode
    | CreateParts
    | SignAnswer
    | SignReconnect(generation: U32)
    | Register(sessionId: Octets, controllerDeviceId: Octets)
    | Unregister(sessionId: Octets)
    | Record(controllerDeviceId: Octets)
    | Publish(status: PublicStatus)

  datatype PublicStatus =
    | ShowAuthenticating | ShowConnecting | ShowConnected | ShowReconnecting | ShowClosing | ShowFailed(code: ErrorCode) | ShowIdle

  datatype Call = Verifies(offer: Offer, description: Description, result: Result<Verified, RemoteError>) | Did(task: Task, ok: bool)

  /** The Host service and the native session factory: any call may fail.  `calls` is everything asked of them, with the outcome. */
  class HostService {
    const deviceId: Octets
    ghost var calls: seq<Call>

    constructor (deviceId: Octets)
      ensures this.deviceId == deviceId && calls == []
    {
      this.deviceId := deviceId;
      calls := [];
    }

    method Attempt(ghost task: Task) returns (ok: bool)
      modifies this
      ensures calls == old(calls) + [Did(task, ok)]
    {
      ok := *;
      calls := calls + [Did(task, ok)];
    }

    /** Authentication, replay or authorization refused, or the service itself failed. */
    method Refusal() returns (e: RemoteError)
      ensures e in {Replay, Authorization, Authentication, Service}
    {
      var kind: nat := *;
      e := if kind == 0 then Replay else if kind == 1 then Authorization else if kind == 2 then Authentication else Service;
    }

    method VerifyRemoteOffer(ghost offer: Offer, ghost description: Description) returns (r: Result<Verified, RemoteError>)
      modifies this
      ensures r.Err? ==> r.error in {Replay, Authorization, Authentication, Service}
      ensures calls == old(calls) + [Verifies(offer, description, r)]
    {
      var ok: bool := *;
      if ok {
        var verified: Verified := *;
        r := Ok(verified);
      } else {
        var e := Refusal();
        r := Err(e);
      }
      calls := calls + [Verifies(offer, description, r)];
    }

    /** Builds one outbound envelope, unless it encodes to more than the limit. */
    method Send(recipient: Octets, requestId: string, message: Message) returns (r: Result<Outbound, RemoteError>)
      modifies this
      ensures r in {Ok(Outbound(recipient, requestId, message)), Err(InvalidEnvelope)}
      ensures calls == old(calls) + [Did(Encode, r.Ok?)]
    {
      var fits: bool := *;
      calls := calls + [Did(Encode, fits)];
      r := if fits then Ok(Outbound(recipient, requestId, message)) else Err(InvalidEnvelope);
    }
  }

  predicate Failing(call: Call) {
    match call
    case Verifies(_, _, result) => result.Err?
    case Did(_, ok) => !ok
  }

  predicate LastFailed(calls: seq<Call>) {
    calls != [] && Failing(calls[|calls| - 1])
  }

  /** One of the calls made since `before` failed. */
  predicate SomeFailed(before: seq<Call>, after: seq<Call>) {
    exists i | |before| <= i < |after| :: Failing(after[i])
  }

  /** The last thing asked of the native peer failed. */
  predicate PeerFailed(calls: seq<HostSession.PeerCall>) {
    calls != [] && Refusing(calls[|calls| - 1])
  }

  predicate Refusing(call: HostSession.PeerCall) {
    match call
    case Negotiated(answer) => answer.None? || !HostSession.WellFormed(answer.value)
    case CandidateAdded(taken) => !taken
    case PeerClosed(done) => !done
  }

  /** The peer took this many candidates, and was asked nothing else. */
  predicate TookAll(before: seq<HostSession.PeerCall>, after: seq<HostSession.PeerCall>, count: nat) {
    && |after| == |before| + count && before <= after
    && forall i | |before| <= i < |after| :: after[i] == HostSession.CandidateAdded(true)
  }

  datatype PendingSession = PendingSession(
    controllerDeviceId: Octets,
    sessionId: Octets,
    requestId: string,
    createdAtMs: U64,
    authentication: Option<Offer>,
    description: Option<Description>,
    candidates: seq<Candidate>,
    candidateBytes: nat)
  {
    predicate Valid() {
      && |candidates| <= MAX_PENDING_ICE_CANDIDATES
      && candidateBytes == TotalBytes(candidates) <= MAX_PENDING_ICE_BYTES
    }

    /** Full or over the byte limit: nothing is kept. */
    function PushCandidate(candidate: Candidate): (r: Result<PendingSession, RemoteError>)
      requires Valid()
      ensures r.Ok? <==> |candidates| < MAX_PENDING_ICE_CANDIDATES && TotalBytes(candidates) + candidate.bytes <= MAX_PENDING_ICE_BYTES
      ensures r.Ok? ==> r.value.Valid() && r.value.candidates == candidates + [candidate]
      ensures r.Err? ==> r.error == PendingIceLimit
    {
      var bytes := candidate.bytes + candidateBytes;
      if |candidates| >= MAX_PENDING_ICE_CANDIDATES || bytes > MAX_PENDING_ICE_BYTES then Err(PendingIceLimit)
      else
        assert (candidates + [candidate])[..|candidates|] == candidates;
        Ok(this.(candidates := candidates + [candidate], candidateBytes := bytes))
    }

    predicate IsReady() {
      authentication.Some? && description.Some?
    }
  }

  function TotalBytes(candidates: seq<Candidate>): nat {
    if candidates == [] then 0 else TotalBytes(candidates[..|candidates| - 1]) + candidates[|candidates| - 1].bytes
  }

  function NewPending(controllerDeviceId: Octets, sessionId: Octets, requestId: string, nowMs: U64): (p: PendingSession)
    ensures p.Valid()
  {
    PendingSession(controllerDeviceId, sessionId, requestId, nowMs, None, None, [], 0)
  }

  /** The attempt an envelope adds to: the one under way, or a new one, under the envelope's request id. */
  function Prepared(under: Option<PendingSession>, controllerDeviceId: Octets, sessionId: Octets, requestId: string, nowMs: U64): PendingSession {
    (if under.Some? then under.value else NewPending(controllerDeviceId, sessionId, requestId, nowMs)).(requestId := requestId)
  }

  datatype Absorbed = Refused(error: RemoteError) | TurnedAway | Noted

  /** A second offer or description is kept although it is refused. */
  function AbsorbOffer(attempt: PendingSession, offer: Offer): (PendingSession, Absorbed) {
    (attempt.(authentication := Some(offer)), if attempt.authentication.Some? then Refused(InvalidEnvelope) else Noted)
  }

  function AbsorbBody(attempt: PendingSession, body: Option<NegotiationBody>): (PendingSession, Absorbed)
    requires attempt.Valid()
  {
    match body
    case None => (attempt, Refused(InvalidEnvelope))
    case Some(EndOfCandidates) => (attempt, Noted)
    case Some(IceCandidate(candidate)) =>
      (match attempt.PushCandidate(candidate)
       case Ok(next) => (next, Noted)
       case Err(error) => (attempt, Refused(error)))
    case Some(SessionDescription(description)) =>
      if !description.isOffer then (attempt, Refused(InvalidEnvelope))
      else (attempt.(description := Some(description)), if attempt.description.Some? then Refused(InvalidEnvelope) else Noted)
  }

  /** What one envelope makes of the pending attempt, before a complete one is started. */
  function Absorb(pending: Option<PendingSession>, sender: Octets, payload: Option<Payload>, requestId: string, nowMs: U64)
    : (Option<PendingSession>, Absorbed)
    requires pending.Some? ==> pending.value.Valid()
  {
    match payload
    case Some(SessionStatus(sessionId, true)) =>
      (if pending.Some? && pending.value.controllerDeviceId == sender && pending.value.sessionId == sessionId then None else pending, Noted)
    case Some(SessionAuthentication(Some(offer))) =>
      if !Matches(pending, sender, offer.sessionId) then (pending, TurnedAway)
      else
        var (next, outcome) := AbsorbOffer(Prepared(pending, sender, offer.sessionId, requestId, nowMs), offer);
        (Some(next), outcome)
    case Some(Negotiation(sessionId, body)) =>
      if !Matches(pending, sender, sessionId) then (pending, TurnedAway)
      else
        var (next, outcome) := AbsorbBody(Prepared(pending, sender, sessionId, requestId, nowMs), body);
        (Some(next), outcome)
    case _ => (pending, Refused(InvalidEnvelope))
  }

  predicate Matches(pending: Option<PendingSession>, controllerDeviceId: Octets, sessionId: Octets) {
    pending.None? || (pending.value.controllerDeviceId == controllerDeviceId && pending.value.sessionId == sessionId)
  }

  datatype FailedAttempt = FailedAttempt(controllerDeviceId: Octets, sessionId: Octets, failedAtMs: U64)

  /**
   * From `at` on, the service was asked for everything a session needs, in order, and did
   * it: the offer verified for this controller, session and permission, the native parts
   * created, the answer signed, the session registered and recorded, its status published.
   */
  ghost predicate SetUpAt(calls: seq<Call>, at: nat, controllerDeviceId: Octets, sessionId: Octets, inputAllowed: bool) {
    && at + 6 <= |calls|
    && calls[at].Verifies? && calls[at].result == Ok(Verified(controllerDeviceId, sessionId, inputAllowed))
    && calls[at + 1] == Did(CreateParts, true) && calls[at + 2] == Did(SignAnswer, true)
    && calls[at + 3] == Did(Register(sessionId, controllerDeviceId), true) && calls[at + 4] == Did(Record(controllerDeviceId), true)
    && calls[at + 5] == Did(Publish(ShowConnecting), true)
  }

  class ActiveSession {
    /** Where, among the calls of the service, this session was set up. */
    ghost const setUpAt: nat
    const controllerDeviceId: Octets
    const sessionId: Octets
    const session: HostSession.HostPeerSession
    var reconnect: Option<PendingSession>
    var reconnectGeneration: U32
    var reconnectDeadline: Option<U64>

    constructor (ghost setUpAt: nat, controllerDeviceId: Octets, sessionId: Octets, session: HostSession.HostPeerSession)
      ensures this.setUpAt == setUpAt
      ensures this.controllerDeviceId == controllerDeviceId && this.sessionId == sessionId && this.session == session
      ensures reconnect.None? && reconnectGeneration == 0 && reconnectDeadline.None?
    {
      this.setUpAt := setUpAt;
      this.controllerDeviceId, this.sessionId, this.session := controllerDeviceId, sessionId, session;
      reconnect, reconnectGeneration, reconnectDeadline := None, 0, None;
    }

    ghost function Parts(): set<object> {
      {this, session, session.peer, session.input, session.input.backend}
    }

    /** A live session; never connected while its reconnect window is open. */
    ghost predicate Valid()
      reads this, session, session.peer, session.input, session.input.backend
    {
      && session.Valid()
      && session.state in {HostSession.Negotiating, HostSession.Connected, HostSession.Reconnecting}
      && (reconnectDeadline.Some? ==> !session.state.Connected?)
      && (reconnect.Some? ==> reconnect.value.Valid() && reconnect.value.controllerDeviceId == controllerDeviceId
                              && reconnect.value.sessionId == sessionId)
    }
  }

  class RemoteSessionCoordinator {
    const service: HostService
    var pending: Option<PendingSession>
    var failedAttempt: Option<FailedAttempt>
    var active: ActiveSession?
    var closed: bool

    ghost function Footprint(): set<object>
      reads this
    {
      {this, service} + (if active == null then {} else active.Parts())
    }

    /** The active session, if any, was set up by the service. */
    ghost predicate Authenticated()
      reads this, service, active, if active == null then {} else {active.session}
    {
      active != null ==>
        SetUpAt(service.calls, active.setUpAt, active.controllerDeviceId, active.sessionId, active.session.inputAllowed)
    }

    ghost predicate Valid()
      reads this, Footprint()
    {
      && Authenticated() && (active != null ==> active.Valid() && pending.None?)
      && (pending.Some? ==> pending.value.Valid())
      && (closed ==> active == null && pending.None?)
    }

    /** As valid, but the session itself may have ended. */
    ghost predicate Closable()
      reads this, Footprint()
    {
      && Authenticated() && (active != null ==> active.session.Valid() && pending.None?)
      && (pending.Some? ==> pending.value.Valid())
      && (closed ==> active == null && pending.None?)
    }

    constructor (service: HostService)
      ensures Valid() && active == null && pending.None? && !closed && this.service == service
      ensures fresh(Footprint() - {service})
    {
      this.service := service;
      pending, failedAttempt, active, closed := None, None, null, false;
    }

    // ---- What one call may do to the session it found ----

    ghost predicate InWindow()
      reads this, active
    {
      active != null && active.reconnectDeadline.Some?
    }

    /** The reconnect window is open and over. */
    ghost predicate Overdue(nowMs: U64)
      reads this, active
    {
      InWindow() && nowMs >= active.reconnectDeadline.value
    }

    /** The session found is kept or removed; one that is new starts without a window. */
    twostate predicate KeepsOrReplaces()
      reads this, active
    {
      active == null || active == old(active) || (fresh(active) && active.reconnectDeadline.None?)
    }

    /** An open window keeps its deadline; a window opened now ends 45,000 ms from now. */
    twostate predicate DeadlineStands(nowMs: U64)
      reads this, active
    {
      && KeepsOrReplaces()
      && (active != null && active == old(active) && old(InWindow()) ==> active.reconnectDeadline == old(active.reconnectDeadline))
      && DatedFrom(nowMs)
    }

    /** An open window was open before with this deadline, or ends 45,000 ms from now. */
    twostate predicate DatedFrom(nowMs: U64)
      reads this, active
    {
      InWindow() ==>
        || (active == old(active) && old(InWindow()) && active.reconnectDeadline == old(active.reconnectDeadline))
        || active.reconnectDeadline == Some(SaturatingAdd(nowMs, ACTIVE_RECONNECT_LIFETIME_MS))
    }

    /** No input was applied to the session kept; at most, pressed input was released. */
    twostate predicate NoInput()
      reads this, Footprint()
    {
      active != null && active == old(active) ==>
        var session := active.session;
        && session.lastReliableSequence == old(session.lastReliableSequence)
        && session.lastPointerSequence == old(session.lastPointerSequence)
        && session.input.pressedKeys <= old(session.input.pressedKeys)
        && session.input.pressedButtons <= old(session.input.pressedButtons)
    }

    /** A session that was active and no longer is has been closed. */
    ghost predicate Retired(was: ActiveSession?)
      reads this, if was == null then {} else {was.session}
    {
      was != null && was != active ==> was.session.state.Closed?
    }

    // ---- Ending the active session ----

    /** The end of a session as the service saw it: announced, unregistered and published, the last two without failure if nothing is reported. */
    predicate ClosedDown(before: seq<Call>, after: seq<Call>, sessionId: Octets, final: Option<ErrorCode>, r: Option<RemoteError>) {
      && |after| == |before| + 3 && before <= after && after[|before|].Did? && after[|before|].task == Publish(ShowClosing)
      && after[|before| + 1].Did? && after[|before| + 1].task == Unregister(sessionId)
      && after[|before| + 2].Did? && after[|before| + 2].task == Publish(if final.Some? then ShowFailed(final.value) else ShowIdle)
      && (r.None? ==> after[|before| + 1].ok && after[|before| + 2].ok)
      && (r == Some(Service) ==> !after[|before| + 1].ok || !after[|before| + 2].ok)
    }

    /** The session was ended, and the answer names what failed, if anything did. */
    ghost predicate Ended(was: ActiveSession, before: seq<Call>, after: seq<Call>, final: Option<ErrorCode>, r: Option<RemoteError>)
      reads was, was.session, was.session.peer
    {
      && ClosedDown(before, after, was.sessionId, final, r)
      && (r == Some(Input) <==> was.session.inputCleanupPending) && (r == Some(Peer) ==> PeerFailed(was.session.peer.calls))
    }

    method CloseActive(final: Option<ErrorCode>) returns (r: Option<RemoteError>)
      requires Closable()
      modifies Footprint()
      ensures Valid() && active == null && Retired(old(active))
      ensures pending == old(pending) && failedAttempt == old(failedAttempt) && closed == old(closed)
      ensures r in {None, Some(Peer), Some(Input), Some(Service)}
      ensures old(active) != null ==>
                && Ended(old(active), old(service.calls), service.calls, final, r)
                && old(active.session.input.backend.log) <= old(active).session.input.backend.log
      ensures old(active) == null && final.None? ==> service.calls == old(service.calls) + [Did(Publish(ShowIdle), r.None?)]
      ensures old(active) == null && final.Some? ==> r.None? && service.calls == old(service.calls)
    {
      if active == null {
        r := None;
        if final.None? {
          var updated := service.Attempt(Publish(ShowIdle));
          r := if updated then None else Some(Service);
        }
        return;
      }
      var ending := active;
      active := null;
      r := EndSession(ending, final);
    }

    /** Every step of the end is attempted; the first failure is the one reported, the peer's before the service's. */
    method EndSession(ending: ActiveSession, final: Option<ErrorCode>) returns (r: Option<RemoteError>)
      requires ending.session.Valid()
      modifies service, ending.session, ending.session.input, ending.session.input.backend, ending.session.peer
      ensures ending.session.state.Closed? && r in {None, Some(Peer), Some(Input), Some(Service)}
      ensures Ended(ending, old(service.calls), service.calls, final, r)
      ensures old(ending.session.input.backend.log) <= ending.session.input.backend.log
    {
      var _ := service.Attempt(Publish(ShowClosing));
      var closing := ending.session.Close();
      var unregistered := service.Attempt(Unregister(ending.sessionId));
      var updated := service.Attempt(Publish(if final.Some? then ShowFailed(final.value) else ShowIdle));
      r := if closing.Some? then Some(MapPeerError(closing.value))
           else if !unregistered || !updated then Some(Service)
           else None;
    }

    method CloseActiveNotifying(final: Option<ErrorCode>) returns (r: Reply)
      requires Valid()
      modifies Footprint()
      ensures Valid() && Retired(old(active)) && (active == null || active == old(active))
      ensures closed == old(closed) && NoInput() && (active != null ==> active.reconnectDeadline == old(active.reconnectDeadline))
      ensures r.Ok? ==> active == null
      ensures old(active) == null ==> r == Ok([])
      ensures old(active) != null && r.Ok? ==> r.value == [Outbound(old(active).controllerDeviceId, "host-termination", ClosingStatus)]
      ensures active != null ==> r == Err(InvalidEnvelope) && active.session.state == old(active.session.state)
    {
      if active == null {
        return Ok([]);
      }
      var notice := service.Send(active.controllerDeviceId, "host-termination", ClosingStatus);
      if notice.Err? {
        return Err(notice.error);
      }
      var error := CloseActive(final);
      r := if error.Some? then Err(error.value) else Ok([notice.value]);
    }

    // ---- The reconnect window ----

    /** The first loss opens the window; later ones leave its deadline alone. */
    method BeginActiveReconnect(nowMs: U64) returns (r: Option<RemoteError>)
      requires Valid()
      modifies Footprint()
      ensures Valid() && active == old(active) && Footprint() == old(Footprint())
      ensures pending == old(pending) && failedAttempt == old(failedAttempt) && closed == old(closed)
      ensures DeadlineStands(nowMs) && NoInput()
      ensures active == null ==> r == Some(Peer)
      ensures active != null ==> active.reconnectGeneration == old(active.reconnectGeneration)
      ensures active != null ==> active.reconnect == old(active.reconnect) && r in {None, Some(Input), Some(Service)}
      ensures active != null && r == Some(Input) ==> active.session.inputCleanupPending
      ensures active != null && (r.None? || r == Some(Service)) ==>
                && active.session.state.Reconnecting?
                && active.reconnectDeadline == Some(if old(active.reconnectDeadline).Some? then old(active.reconnectDeadline).value
                                                    else SaturatingAdd(nowMs, ACTIVE_RECONNECT_LIFETIME_MS))
      ensures active != null && r.Some? && r != Some(Service) ==> active.reconnectDeadline == old(active.reconnectDeadline)
      ensures active != null && (r.None? || r == Some(Service)) ==>
                service.calls == old(service.calls) + [Did(Publish(ShowReconnecting), r.None?)]
    {
      if active == null {
        return Some(Peer);
      }
      var begun := active.session.BeginReconnect();
      if begun.Some? {
        return Some(MapPeerError(begun.value));
      }
      if active.reconnectDeadline.None? {
        active.reconnectDeadline := Some(SaturatingAdd(nowMs, ACTIVE_RECONNECT_LIFETIME_MS));
      }
      var updated := service.Attempt(Publish(ShowReconnecting));
      r := if updated then None else Some(Service);
    }

    method ExpireActiveReconnect(nowMs: U64) returns (r: Result<bool, RemoteError>)
      requires Valid()
      modifies Footprint()
      ensures Valid() && Retired(old(active))
      ensures pending == old(pending) && failedAttempt == old(failedAttempt) && closed == old(closed)
      ensures old(Overdue(nowMs)) ==>
                && active == null && r != Ok(false)
                && Ended(old(active), old(service.calls), service.calls, Some(IceFailed), if r.Err? then Some(r.error) else None)
      ensures !old(Overdue(nowMs)) ==> r == Ok(false) && active == old(active) && unchanged(service) && (active != null ==> forall o <- active.Parts() :: unchanged(o))
    {
      if active == null || active.reconnectDeadline.None? || nowMs < active.reconnectDeadline.value {
        return Ok(false);
      }
      var error := CloseActive(Some(IceFailed));
      r := if error.Some? then Err(error.value) else Ok(true);
    }

    // ---- Envelopes for the active session ----

    /** The same session goes on: nothing outside it moved, no input reached it. */
    twostate predicate SameSession()
      reads this, Footprint()
    {
      && active == old(active) && pending == old(pending) && failedAttempt == old(failedAttempt) && closed == old(closed)
      && NoInput()
    }

    method PrepareActiveReconnect(requestId: string, nowMs: U64) returns (prepared: PendingSession)
      requires Valid() && active != null
      modifies active`reconnect
      ensures Valid() && active.reconnect == Some(prepared)
      ensures prepared == Prepared(old(active.reconnect), active.controllerDeviceId, active.sessionId, requestId, nowMs)
    {
      if active.reconnect.None? {
        active.reconnect := Some(NewPending(active.controllerDeviceId, active.sessionId, requestId, nowMs));
      }
      prepared := active.reconnect.value.(requestId := requestId);
      active.reconnect := Some(prepared);
    }

    /** A candidate reaches a live peer directly, and waits for the restart otherwise. */
    method AddActiveCandidate(candidate: Candidate, requestId: string, nowMs: U64) returns (r: Option<RemoteError>)
      requires Valid() && active != null
      modifies active`reconnect, active.session.peer`calls
      ensures Valid()
      ensures var prepared := Prepared(old(active.reconnect), active.controllerDeviceId, active.sessionId, requestId, nowMs);
              if old(active.reconnect).None? && active.session.state in {HostSession.Negotiating, HostSession.Connected} then
                r in {None, Some(Peer)} && active.reconnect.None?
                && active.session.peer.calls == old(active.session.peer.calls) + [HostSession.CandidateAdded(r.None?)]
              else
                match prepared.PushCandidate(candidate)
                case Ok(next) => active.reconnect == Some(next) && r.None?
                case Err(error) => active.reconnect == Some(prepared) && r == Some(error)
    {
      if active.reconnect.None? && active.session.state in {HostSession.Negotiating, HostSession.Connected} {
        var added := active.session.AddRemoteIceCandidate();
        return if added.Some? then Some(Peer) else None;
      }
      var prepared := PrepareActiveReconnect(requestId, nowMs);
      var pushed := prepared.PushCandidate(candidate);
      if pushed.Err? {
        return Some(pushed.error);
      }
      active.reconnect := Some(pushed.value);
      r := None;
    }

    /** An offer opens the window and joins the restart, once. */
    method AddActiveDescription(description: Description, requestId: string, nowMs: U64) returns (r: Option<RemoteError>)
      requires Valid() && active != null
      modifies Footprint()
      ensures Valid() && SameSession() && DeadlineStands(nowMs) && active.reconnectGeneration == old(active.reconnectGeneration)
      ensures !description.isOffer ==> r == Some(InvalidEnvelope) && active.reconnect == old(active.reconnect)
      ensures var prepared := Prepared(old(active.reconnect), active.controllerDeviceId, active.sessionId, requestId, nowMs);
              description.isOffer ==>
                || (active.reconnect == Some(prepared.(description := Some(description)))
                    && r == if prepared.description.Some? then Some(InvalidEnvelope) else None)
                || (active.reconnect == old(active.reconnect)
                    && ((r == Some(Input) && active.session.inputCleanupPending)
                        || (r == Some(Service) && LastFailed(service.calls))))
      ensures r.None? ==> InWindow() && active.session.state.Reconnecting?
    {
      if !description.isOffer {
        return Some(InvalidEnvelope);
      }
      r := BeginActiveReconnect(nowMs);
      if r.Some? {
        return;
      }
      var prepared := PrepareActiveReconnect(requestId, nowMs);
      active.reconnect := Some(prepared.(description := Some(description)));
      r := if prepared.description.Some? then Some(InvalidEnvelope) else None;
    }

    /** The first offer of a restart has joined what was waiting before. */
    predicate Joins(was: Option<PendingSession>, description: Description, requestId: string, nowMs: U64)
      requires active != null
      reads this, active
    {
      var prepared := Prepared(was, active.controllerDeviceId, active.sessionId, requestId, nowMs);
      description.isOffer && prepared.description.None? && active.reconnect == Some(prepared.(description := Some(description)))
    }

    /** A candidate waits for the restart with those before it, as long as there is room. */
    predicate Waits(was: Option<PendingSession>, candidate: Candidate, requestId: string, nowMs: U64, r: Option<RemoteError>)
      requires active != null && (was.Some? ==> was.value.Valid())
      reads this, active
    {
      var prepared := Prepared(was, active.controllerDeviceId, active.sessionId, requestId, nowMs);
      if |prepared.candidates| < MAX_PENDING_ICE_CANDIDATES && TotalBytes(prepared.candidates) + candidate.bytes <= MAX_PENDING_ICE_BYTES then
        && r.None? && active.reconnect.Some? && active.reconnect.value.candidates == prepared.candidates + [candidate]
        && active.reconnect.value.(candidates := prepared.candidates, candidateBytes := prepared.candidateBytes) == prepared
      else r == Some(PendingIceLimit) && active.reconnect == Some(prepared)
    }

    method HandleActiveNegotiation(sessionId: Octets, body: Option<NegotiationBody>, requestId: string, nowMs: U64)
      returns (r: Option<RemoteError>)
      requires Valid() && active != null
      modifies Footprint()
      ensures Valid() && SameSession() && DeadlineStands(nowMs) && active.reconnectGeneration == old(active.reconnectGeneration)
      ensures sessionId != active.sessionId || body.None? ==> r == Some(InvalidEnvelope)
      ensures sessionId != active.sessionId || body.None? || body.value.EndOfCandidates? ==>
                active.reconnect == old(active.reconnect) && active.reconnectDeadline == old(active.reconnectDeadline)
      ensures sessionId == active.sessionId && body.Some? ==>
                && (body.value.EndOfCandidates? ==> r.None?)
                && (body.value.SessionDescription? && !body.value.description.isOffer ==> r == Some(InvalidEnvelope))
                && (body.value.SessionDescription? && r.None? ==> Joins(old(active.reconnect), body.value.description, requestId, nowMs))
                && (body.value.IceCandidate? && (old(active.reconnect).Some? || old(active.session.state).Reconnecting?) ==>
                      Waits(old(active.reconnect), body.value.candidate, requestId, nowMs, r))
    {
      if sessionId != active.sessionId || body.None? {
        return Some(InvalidEnvelope);
      }
      match body.value
      case IceCandidate(candidate) =>
        r := AddActiveCandidate(candidate, requestId, nowMs);
        hide PendingSession.PushCandidate;
      case SessionDescription(description) => r := AddActiveDescription(description, requestId, nowMs);
      case EndOfCandidates => r := None;
    }

    /** The offer of a restart is verified anew, and must be of this controller and session. */
    method VerifyRestart(restart: PendingSession) returns (r: Option<RemoteError>)
      requires active != null && restart.IsReady()
      modifies service
      ensures |service.calls| == |old(service.calls)| + 1 && old(service.calls) <= service.calls
      ensures var call := service.calls[|old(service.calls)|];
              && call.Verifies? && call.offer == restart.authentication.value && call.description == restart.description.value
              && r == if call.result.Err? then Some(call.result.error)
                      else if call.result.value.controllerDeviceId == active.controllerDeviceId && call.result.value.sessionId == active.sessionId
                      then None else Some(Authentication)
      ensures r.None? ==> VerifiedAgain(restart, old(service.calls), service.calls)
    {
      var verified := service.VerifyRemoteOffer(restart.authentication.value, restart.description.value);
      if verified.Err? {
        return Some(verified.error);
      }
      if verified.value.controllerDeviceId != active.controllerDeviceId || verified.value.sessionId != active.sessionId {
        return Some(Authentication);
      }
      r := None;
    }

    ghost predicate VerifiedAgain(restart: PendingSession, before: seq<Call>, after: seq<Call>)
      requires active != null && restart.IsReady()
      reads this
    {
      && |after| == |before| + 1 && before <= after && after[|before|].Verifies? && after[|before|].result.Ok?
      && after[|before|].offer == restart.authentication.value && after[|before|].description == restart.description.value
      && after[|before|].result.value.controllerDeviceId == active.controllerDeviceId
      && after[|before|].result.value.sessionId == active.sessionId
    }

    /** The peer renegotiates only once input is suspended, and only an offer of an allowed length. */
    predicate Restartable(restart: PendingSession, state: HostSession.State)
      requires restart.IsReady()
    {
      state in {HostSession.Negotiating, HostSession.Reconnecting} && 0 < restart.description.value.sdpBytes <= HostSession.MAXIMUM_SDP_BYTES
    }

    /** The peer answers the restart, the answer is signed for its generation, and the waiting candidates are taken. */
    method AnswerRestart(restart: PendingSession, generation: U32) returns (r: Option<RemoteError>)
      requires Valid() && active != null && restart.IsReady()
      requires active.session.state in {HostSession.Negotiating, HostSession.Connected, HostSession.Reconnecting}
      modifies service, active.session`state, active.session.peer`calls
      ensures Valid()
      ensures old(service.calls) <= service.calls
      ensures r.None? ==> active.session.state.Negotiating? && service.calls == old(service.calls) + [Did(SignReconnect(generation), true)]
      ensures r.Some? ==>
                || !Restartable(restart, old(active.session.state))
                || (r == Some(Peer) && PeerFailed(active.session.peer.calls))
                || service.calls == old(service.calls) + [Did(SignReconnect(generation), false)]
    {
      var answer := active.session.AcceptReconnectOffer(restart.description.value.sdpBytes);
      if answer.Err? {
        return Some(Peer);
      }
      var signed := service.Attempt(SignReconnect(generation));
      if !signed {
        var refusal := service.Refusal();
        return Some(refusal);
      }
      var added := AddCandidates(active.session, restart.candidates);
      r := if added then None else Some(Peer);
    }

    /** Why a ready restart did not succeed. */
    ghost predicate RestartFault(restart: PendingSession, before: seq<Call>, after: seq<Call>, generation: U32, state: HostSession.State)
      requires active != null && restart.IsReady()
      reads this, active, active.session, active.session.peer
    {
      && |before| < |after| && before <= after && after[|before|].Verifies?
      && (|| !VerifiedAgain(restart, before, after[..|before| + 1])
          || generation == U32_MAX
          || !Restartable(restart, state)
          || PeerFailed(active.session.peer.calls) || LastFailed(after))
    }

    /** The generation rises by one exactly when the whole restart succeeds. */
    method RestartActive(restart: PendingSession) returns (r: Result<U32, RemoteError>)
      requires Valid() && active != null && active.session.state in {HostSession.Negotiating, HostSession.Connected, HostSession.Reconnecting}
      modifies Footprint()
      ensures Valid() && SameSession() && active.reconnect == old(active.reconnect) && active.reconnectDeadline == old(active.reconnectDeadline)
      ensures old(service.calls) <= service.calls
      ensures r.Ok? ==> active.reconnectGeneration == r.value == old(active.reconnectGeneration) as int + 1
      ensures r.Err? ==> active.reconnectGeneration == old(active.reconnectGeneration)
      ensures r.Ok? ==> restart.IsReady() && active.session.state.Negotiating?
      ensures r.Ok? ==>
                && |service.calls| == |old(service.calls)| + 2 && service.calls[|old(service.calls)| + 1] == Did(SignReconnect(r.value), true)
                && VerifiedAgain(restart, old(service.calls), service.calls[..|old(service.calls)| + 1])
      ensures r.Err? && restart.IsReady() ==> RestartFault(restart, old(service.calls), service.calls, active.reconnectGeneration, old(active.session.state))
    {
      if !restart.IsReady() {
        return Err(InvalidEnvelope);
      }
      var refused := VerifyRestart(restart);
      if refused.Some? {
        return Err(refused.value);
      }
      ghost var verified := service.calls;
      if active.reconnectGeneration == U32_MAX {
        return Err(Service);
      }
      var generation: U32 := active.reconnectGeneration as int + 1;
      var failed := AnswerRestart(restart, generation);
      if failed.Some? {
        return Err(failed.value);
      }
      assert service.calls[..|verified|] == verified;
      active.reconnectGeneration := generation;
      r := Ok(generation);
    }

    /** The peer takes the candidates one by one, or refuses one. */
    method AddCandidates(session: HostSession.HostPeerSession, candidates: seq<Candidate>) returns (ok: bool)
      requires session.state in {HostSession.Negotiating, HostSession.Connected}
      modifies session.peer`calls
      ensures ok ==> TookAll(old(session.peer.calls), session.peer.calls, |candidates|)
      ensures !ok ==> PeerFailed(session.peer.calls)
    {
      var added := 0;
      while added < |candidates|
        invariant added <= |candidates| && TookAll(old(session.peer.calls), session.peer.calls, added)
      {
        var error := session.AddRemoteIceCandidate();
        if error.Some? {
          return false;
        }
        added := added + 1;
      }
      ok := true;
    }

    /** A ready restart is attempted once; its failure is reported to the controller, not to the caller. */
    method TryRestartActive() returns (r: Reply)
      requires Valid() && active != null
      modifies Footprint()
      ensures Valid() && SameSession() && active.reconnectDeadline == old(active.reconnectDeadline)
      ensures var ready := old(active.reconnect.Some? && active.reconnect.value.IsReady());
              && (!ready ==> r == Ok([]) && active.reconnect == old(active.reconnect)
                             && active.reconnectGeneration == old(active.reconnectGeneration))
              && (ready ==> active.reconnect.None?)
              && (ready && r.Ok? ==>
                    || (|r.value| == 1 && r.value[0].message.ErrorMessage? && active.reconnectGeneration == old(active.reconnectGeneration)
                        && service.calls != []
                        && RestartFault(old(active.reconnect.value), old(service.calls), service.calls[..|service.calls| - 1],
                                        active.reconnectGeneration, old(active.session.state)))
                    || (|r.value| == 2 && active.reconnectGeneration == old(active.reconnectGeneration) as int + 1
                        && r.value[0].message == ReconnectAuthentication(active.reconnectGeneration)
                        && r.value[1].message == ReconnectDescription))
              && (r.Ok? ==> forall o <- r.value :: o.recipient == active.controllerDeviceId)
      ensures old(service.calls) <= service.calls
      ensures r.Err? ==> r == Err(InvalidEnvelope) && LastFailed(service.calls)
    {
      hide RestartFault, VerifiedAgain;
      if active.reconnect.None? || !active.reconnect.value.IsReady() {
        return Ok([]);
      }
      var restart := active.reconnect.value;
      active.reconnect := None;
      var restarted := RestartActive(restart);
      r := AnnounceRestart(active.controllerDeviceId, restart.requestId, restarted);
    }

    /** The new generation's answer, or why there is none: a peer that failed is reported as lost connectivity. */
    method AnnounceRestart(recipient: Octets, requestId: string, restarted: Result<U32, RemoteError>) returns (r: Reply)
      modifies service
      ensures old(service.calls) <= service.calls && service.calls != []
      ensures restarted.Err? ==> service.calls[..|service.calls| - 1] == old(service.calls)
      ensures r.Err? ==> r == Err(InvalidEnvelope) && LastFailed(service.calls)
      ensures r.Ok? ==>
                r.value == match restarted
                           case Ok(generation) => [Outbound(recipient, requestId, ReconnectAuthentication(generation)),
                                                   Outbound(recipient, requestId, ReconnectDescription)]
                           case Err(Peer) => [Outbound(recipient, requestId, ErrorMessage(IceFailed))]
                           case Err(error) => [Outbound(recipient, requestId, ErrorMessage(ProtocolErrorFor(error)))]
    {
      if restarted.Ok? {
        r := SendBoth(recipient, requestId, ReconnectAuthentication(restarted.value), ReconnectDescription);
        return;
      }
      var code := if restarted.error == Peer then IceFailed else ProtocolErrorFor(restarted.error);
      var failure := service.Send(recipient, requestId, ErrorMessage(code));
      r := if failure.Err? then Err(failure.error) else Ok([failure.value]);
    }

    /** Both envelopes of an answer, or neither. */
    method SendBoth(recipient: Octets, requestId: string, authentication: Message, description: Message) returns (r: Reply)
      modifies service
      ensures old(service.calls) <= service.calls && |service.calls| > |old(service.calls)|
      ensures r == Ok([Outbound(recipient, requestId, authentication), Outbound(recipient, requestId, description)])
              || (r == Err(InvalidEnvelope) && LastFailed(service.calls))
    {
      var first := service.Send(recipient, requestId, authentication);
      if first.Err? {
        return Err(first.error);
      }
      var second := service.Send(recipient, requestId, description);
      r := if second.Err? then Err(second.error) else Ok([first.value, second.value]);
    }

    /** An offer opens the window and joins the restart, once, if it is of this controller and session. */
    method HandleActiveOffer(offer: Offer, requestId: string, nowMs: U64) returns (r: Reply)
      requires Valid() && active != null
      modifies Footprint()
      ensures Valid() && SameSession() && DeadlineStands(nowMs)
      ensures var prepared := Prepared(old(active.reconnect), active.controllerDeviceId, active.sessionId, requestId, nowMs);
              var joins := offer.controllerDeviceId == active.controllerDeviceId && offer.sessionId == active.sessionId
                           && prepared.authentication.None?;
              && (r.Ok? ==>
                    && joins && |service.calls| > |old(service.calls)|
                    && service.calls[|old(service.calls)|] == Did(Publish(ShowReconnecting), true)
                    && active.reconnect == if prepared.description.Some? then None else Some(prepared.(authentication := Some(offer))))
              && (r.Err? && joins ==> LastFailed(service.calls) || (r == Err(Input) && active.session.inputCleanupPending))
    {
      hide RestartFault;
      var lost := BeginActiveReconnect(nowMs);
      if lost.Some? {
        return Err(lost.value);
      }
      var prepared := PrepareActiveReconnect(requestId, nowMs);
      if offer.controllerDeviceId != prepared.controllerDeviceId || offer.sessionId != prepared.sessionId {
        return Err(InvalidEnvelope);
      }
      active.reconnect := Some(prepared.(authentication := Some(offer)));
      if prepared.authentication.Some? {
        return Err(InvalidEnvelope);
      }
      r := TryRestartActive();
    }

    method HandleActiveReconnectEnvelope(payload: Payload, requestId: string, nowMs: U64) returns (r: Reply)
      requires Valid() && active != null
      modifies Footprint()
      ensures Valid() && SameSession() && DeadlineStands(nowMs)
      ensures payload.SessionAuthentication? && r.Ok? ==>
                var prepared := Prepared(old(active.reconnect), active.controllerDeviceId, active.sessionId, requestId, nowMs);
                && payload.offer.Some? && payload.offer.value.controllerDeviceId == active.controllerDeviceId
                && payload.offer.value.sessionId == active.sessionId && prepared.authentication.None?
                && active.reconnect == if prepared.description.Some? then None else Some(prepared.(authentication := payload.offer))
      ensures payload.SessionAuthentication? && payload.offer.Some? && r.Err? ==>
                var prepared := Prepared(old(active.reconnect), active.controllerDeviceId, active.sessionId, requestId, nowMs);
                || payload.offer.value.controllerDeviceId != active.controllerDeviceId || payload.offer.value.sessionId != active.sessionId
                || prepared.authentication.Some?
                || LastFailed(service.calls) || (r == Err(Input) && active.session.inputCleanupPending)
      ensures payload.SessionAuthentication? && payload.offer.None? ==> r == Err(InvalidEnvelope) && active.reconnect == old(active.reconnect)
      ensures payload.Negotiation? && r.Ok? ==>
                && payload.sessionId == active.sessionId && payload.body.Some?
                && (payload.body.value.SessionDescription? ==>
                      payload.body.value.description.isOffer && (old(active.reconnect).None? || old(active.reconnect).value.description.None?))
                && (payload.body.value.IceCandidate? && old(active.reconnect).Some? ==>
                      |old(active.reconnect).value.candidates| < MAX_PENDING_ICE_CANDIDATES)
      ensures payload.SessionStatus? || payload.OtherPayload? ==> r == Err(InvalidEnvelope) && active.reconnect == old(active.reconnect)
    {
      hide RestartFault;
      match payload
      case SessionAuthentication(offer) =>
        if offer.None? {
          return Err(InvalidEnvelope);
        }
        r := HandleActiveOffer(offer.value, requestId, nowMs);
      case Negotiation(sessionId, body) =>
        var error := HandleActiveNegotiation(sessionId, body, requestId, nowMs);
        if error.Some? {
          return Err(error.value);
        }
        r := TryRestartActive();
      case SessionStatus(_, _) => r := Err(InvalidEnvelope);
      case OtherPayload => r := Err(InvalidEnvelope);
    }

    method HandleActiveEnvelope(payload: Option<Payload>, requestId: string, nowMs: U64) returns (r: Reply)
      requires Valid() && active != null
      modifies Footprint()
      ensures Valid() && Retired(old(active)) && (active == null || active == old(active))
      ensures pending == old(pending) && failedAttempt == old(failedAttempt) && closed == old(closed)
      ensures DeadlineStands(nowMs) && NoInput()
      ensures payload == Some(SessionStatus(old(active).sessionId, true)) <==> active == null
      ensures active != null && NamedSession(payload).None? ==> r == Err(InvalidEnvelope)
    {
      if payload.None? {
        return Err(InvalidEnvelope);
      }
      match payload.value
      case SessionAuthentication(_) => r := HandleActiveReconnectEnvelope(payload.value, requestId, nowMs);
      case Negotiation(_, _) => r := HandleActiveReconnectEnvelope(payload.value, requestId, nowMs);
      case SessionStatus(sessionId, closing) =>
        if !closing || sessionId != active.sessionId {
          return Err(InvalidEnvelope);
        }
        var error := CloseActive(None);
        r := if error.Some? then Err(error.value) else Ok([]);
      case OtherPayload => r := Err(InvalidEnvelope);
    }

    // ---- Starting a session ----

    /** Both the controller and the session must match what is already pending. */
    method PreparePending(controllerDeviceId: Octets, sessionId: Octets, requestId: string, nowMs: U64) returns (ok: bool)
      requires Valid() && active == null && !closed
      modifies this`pending
      ensures Valid()
      ensures ok <==> Matches(old(pending), controllerDeviceId, sessionId)
      ensures ok ==> pending == Some(Prepared(old(pending), controllerDeviceId, sessionId, requestId, nowMs))
      ensures !ok ==> pending == old(pending)
    {
      if pending.None? {
        pending := Some(NewPending(controllerDeviceId, sessionId, requestId, nowMs));
        return true;
      }
      if pending.value.controllerDeviceId != controllerDeviceId || pending.value.sessionId != sessionId {
        return false;
      }
      pending := Some(pending.value.(requestId := requestId));
      ok := true;
    }

    /** The offer is of no allowed length, the service or the factory failed, or the new peer refused something. */
    predicate SetUpFault(sdpBytes: nat, before: seq<Call>, after: seq<Call>, asked: seq<HostSession.PeerCall>) {
      || !(0 < sdpBytes <= HostSession.MAXIMUM_SDP_BYTES)
      || SomeFailed(before, after)
      || exists i | 0 <= i < |asked| :: Refusing(asked[i])
    }

    /** The session's own parts, created for it and negotiated. */
    method OpenSession(verified: Verified, sdpBytes: nat)
      returns (r: Result<HostSession.HostPeerSession, RemoteError>, ghost asked: seq<HostSession.PeerCall>)
      modifies service
      ensures old(service.calls) <= service.calls
      ensures r.Err? ==> SetUpFault(sdpBytes, old(service.calls), service.calls, asked)
      ensures r.Ok? ==>
                && service.calls == old(service.calls) + [Did(CreateParts, true)]
                && fresh(r.value) && fresh(r.value.peer) && fresh(r.value.input) && fresh(r.value.input.backend)
                && r.value.Valid() && r.value.state.Negotiating? && r.value.inputAllowed == verified.inputAllowed
    {
      var created := service.Attempt(CreateParts);
      asked := [];
      if !created {
        assert Failing(service.calls[|old(service.calls)|]);
        return Err(Peer), [];
      }
      var backend := new InputSink.InputBackend();
      var width: nat, height: nat := *, *;
      var sink := new InputSink.PlatformInputSink(backend, width + 1, height + 1);
      var peer := new HostSession.PeerBackend();
      var session := new HostSession.HostPeerSession(verified.sessionId, verified.inputAllowed, peer, sink);
      var answer := session.AcceptOffer(sdpBytes);
      if answer.Err? {
        asked := peer.calls;
        var _ := session.Close();
        return Err(MapPeerError(answer.error)), asked;
      }
      r := Ok(session);
    }

    /** Signing, registration, the grant's last use, the waiting candidates and the public status, in that order. */
    method SetUpSession(verified: Verified, session: HostSession.HostPeerSession, candidates: seq<Candidate>) returns (error: Option<RemoteError>)
      requires session.Valid() && session.state.Negotiating?
      modifies service, session.peer`calls
      ensures old(service.calls) <= service.calls
      ensures error.None? ==> TookAll(old(session.peer.calls), session.peer.calls, |candidates|)
      ensures error.Some? ==> SomeFailed(old(service.calls), service.calls) || PeerFailed(session.peer.calls)
      ensures error.None? ==>
                service.calls == old(service.calls) + [Did(SignAnswer, true), Did(Register(verified.sessionId, verified.controllerDeviceId), true),
                                                       Did(Record(verified.controllerDeviceId), true), Did(Publish(ShowConnecting), true)]
    {
      var signed := service.Attempt(SignAnswer);
      if !signed {
        assert Failing(service.calls[|old(service.calls)|]);
        var refusal := service.Refusal();
        return Some(refusal);
      }
      var registered := service.Attempt(Register(verified.sessionId, verified.controllerDeviceId));
      if !registered {
        assert Failing(service.calls[|old(service.calls)| + 1]);
        return Some(Service);
      }
      var recorded := service.Attempt(Record(verified.controllerDeviceId));
      if !recorded {
        var _ := service.Attempt(Unregister(verified.sessionId));
        assert Failing(service.calls[|old(service.calls)| + 2]);
        var refusal := service.Refusal();
        return Some(refusal);
      }
      var added := AddCandidates(session, candidates);
      if !added {
        var _ := service.Attempt(Unregister(verified.sessionId));
        return Some(Peer);
      }
      var updated := service.Attempt(Publish(ShowConnecting));
      error := None;
      if !updated {
        var _ := service.Attempt(Unregister(verified.sessionId));
        assert Failing(service.calls[|old(service.calls)| + 3]);
        error := Some(Service);
      }
    }

    /** A session that cannot be fully set up is closed and never becomes active. */
    method ActivateVerifiedSession(attempt: PendingSession, verified: Verified)
      returns (error: Option<RemoteError>, ghost asked: seq<HostSession.PeerCall>)
      requires Valid() && active == null && pending.None? && !closed && attempt.IsReady()
      requires service.calls != [] && service.calls[|service.calls| - 1].Verifies?
      requires service.calls[|service.calls| - 1].result == Ok(verified)
      modifies this`active, service
      ensures Valid()
      ensures old(service.calls) <= service.calls
      ensures error.Some? ==> active == null && SetUpFault(attempt.description.value.sdpBytes, old(service.calls), service.calls, asked)
      ensures error.None? ==>
                && active != null && fresh(active.Parts())
                && active.controllerDeviceId == verified.controllerDeviceId && active.sessionId == verified.sessionId
                && active.session.inputAllowed == verified.inputAllowed
                && active.session.state.Negotiating? && active.reconnectDeadline.None? && active.reconnectGeneration == 0
    {
      var opening;
      opening, asked := OpenSession(verified, attempt.description.value.sdpBytes);
      if opening.Err? {
        return Some(opening.error), asked;
      }
      error := SetUpSession(verified, opening.value, attempt.candidates);
      if error.Some? {
        asked := opening.value.peer.calls;
        var _ := opening.value.Close();
        return;
      }
      active := new ActiveSession(old(|service.calls|) - 1, verified.controllerDeviceId, verified.sessionId, opening.value);
    }

    /** Why a ready attempt did not start. */
    predicate StartFault(attempt: PendingSession, before: seq<Call>, after: seq<Call>, asked: seq<HostSession.PeerCall>)
      requires attempt.IsReady()
    {
      || SetUpFault(attempt.description.value.sdpBytes, before, after, asked)
      || (|after| > |before| + 1 && Unwanted(attempt, after[|before| + 1]))
    }

    /** The offer was verified for another controller or session. */
    predicate Unwanted(attempt: PendingSession, call: Call) {
      call.Verifies? && call.result.Ok?
      && (call.result.value.controllerDeviceId != attempt.controllerDeviceId || call.result.value.sessionId != attempt.sessionId)
    }

    method StartPending(attempt: PendingSession) returns (r: Reply, ghost asked: seq<HostSession.PeerCall>)
      requires Valid() && active == null && pending.None? && !closed
      modifies this`active, service
      ensures Valid() && (active != null ==> fresh(active.Parts()) && active.reconnectDeadline.None?)
      ensures active != null ==>
                && attempt.IsReady()
                && active.controllerDeviceId == attempt.controllerDeviceId && active.sessionId == attempt.sessionId
      ensures old(service.calls) <= service.calls
      ensures r.Err? && attempt.IsReady() ==> StartFault(attempt, old(service.calls), service.calls, asked)
      ensures active != null ==>
                |service.calls| > |old(service.calls)| && service.calls[|old(service.calls)|] == Did(Publish(ShowAuthenticating), true)
      ensures r.Ok? ==>
                && active != null
                && r.value == [Outbound(attempt.controllerDeviceId, attempt.requestId, AnswerAuthentication),
                               Outbound(attempt.controllerDeviceId, attempt.requestId, AnswerDescription)]
    {
      if !attempt.IsReady() {
        return Err(InvalidEnvelope), [];
      }
      var updated := service.Attempt(Publish(ShowAuthenticating));
      if !updated {
        assert Failing(service.calls[|old(service.calls)|]);
        return Err(Service), [];
      }
      var verified := service.VerifyRemoteOffer(attempt.authentication.value, attempt.description.value);
      if verified.Err? {
        assert Failing(service.calls[|old(service.calls)| + 1]);
        return Err(verified.error), [];
      }
      if verified.value.controllerDeviceId != attempt.controllerDeviceId || verified.value.sessionId != attempt.sessionId {
        return Err(Authentication), [];
      }
      var error;
      error, asked := ActivateVerifiedSession(attempt, verified.value);
      if error.Some? {
        return Err(error.value), asked;
      }
      r := SendBoth(attempt.controllerDeviceId, attempt.requestId, AnswerAuthentication, AnswerDescription);
    }

    method TryStartPending(nowMs: U64) returns (r: Reply, ghost asked: seq<HostSession.PeerCall>)
      requires Valid() && active == null && !closed
      modifies this`active, this`pending, this`failedAttempt, service
      ensures Valid() && (active != null ==> fresh(active.Parts()) && active.reconnectDeadline.None?)
      ensures old(pending).None? || !old(pending).value.IsReady() ==> r == Ok([]) && active == null && pending == old(pending)
      ensures old(pending).Some? && old(pending).value.IsReady() ==>
                && pending.None?
                && (active == null ==> failedAttempt == Some(FailedAttempt(old(pending).value.controllerDeviceId, old(pending).value.sessionId, nowMs)))
                && (active == null && r.Ok? ==>
                      && |r.value| == 1 && r.value[0].message.ErrorMessage? && |service.calls| > 1
                      && var shown := service.calls[|service.calls| - 2]; shown.Did? && shown.task == Publish(ShowFailed(r.value[0].message.code)))
                && (r.Ok? ==> r.value != [])
                && (r.Err? ==> r == Err(InvalidEnvelope) && LastFailed(service.calls))
                && (active == null ==>
                      |service.calls| > |old(service.calls)| + 1
                      && StartFault(old(pending).value, old(service.calls), service.calls[..|service.calls| - 2], asked))
                && (r.Ok? ==> forall o <- r.value :: o.recipient == old(pending).value.controllerDeviceId && o.requestId == old(pending).value.requestId)
      ensures active != null ==> active.controllerDeviceId == old(pending).value.controllerDeviceId && active.sessionId == old(pending).value.sessionId
    {
      if pending.None? || !pending.value.IsReady() {
        return Ok([]), [];
      }
      var attempt := pending.value;
      pending := None;
      r, asked := StartPending(attempt);
      if r.Err? {
        ghost var tried := service.calls;
        failedAttempt := Some(FailedAttempt(attempt.controllerDeviceId, attempt.sessionId, nowMs));
        var _ := service.Attempt(Publish(ShowFailed(ProtocolErrorFor(r.error))));
        var failure := service.Send(attempt.controllerDeviceId, attempt.requestId, ErrorMessage(ProtocolErrorFor(r.error)));
        assert service.calls[..|service.calls| - 2] == tried;
        r := if failure.Err? then Err(failure.error) else Ok([failure.value]);
      }
    }

    /** One envelope adds one part; a session starts only from an envelope that completes a pending one. */
    method HandlePendingEnvelope(sender: Octets, payload: Option<Payload>, requestId: string, nowMs: U64) returns (r: Reply)
      requires Valid() && active == null && !closed
      modifies this`active, this`pending, this`failedAttempt, service
      ensures Valid() && (active != null ==> fresh(active.Parts()) && active.reconnectDeadline.None?)
      ensures active != null ==>
                && old(pending).Some? && old(pending).value.controllerDeviceId == sender == active.controllerDeviceId
                && old(pending).value.sessionId == active.sessionId
                && (old(pending).value.authentication.Some? || old(pending).value.description.Some?)
      ensures var (next, outcome) := Absorb(old(pending), sender, payload, requestId, nowMs);
              match outcome
              case Refused(error) => r == Err(error) && pending == next && active == null
              case TurnedAway =>
                r in {Ok([Outbound(sender, requestId, ErrorMessage(Busy))]), Err(InvalidEnvelope)} && pending == next && active == null
              case Noted =>
                if next.Some? && next.value.IsReady() && !(payload.value.SessionStatus?) then
                  && pending.None? && (r.Ok? ==> r.value != [])
                  && (active == null ==> failedAttempt == Some(FailedAttempt(next.value.controllerDeviceId, next.value.sessionId, nowMs)))
                else r == Ok([]) && pending == next && active == null
    {
      hide StartFault;
      if payload.None? {
        return Err(InvalidEnvelope);
      }
      match payload.value
      case SessionStatus(sessionId, closing) =>
        if !closing {
          return Err(InvalidEnvelope);
        }
        if pending.Some? && pending.value.controllerDeviceId == sender && pending.value.sessionId == sessionId {
          pending := None;
        }
        r := Ok([]);
      case SessionAuthentication(offer) =>
        if offer.None? {
          return Err(InvalidEnvelope);
        }
        var ok := PreparePending(sender, offer.value.sessionId, requestId, nowMs);
        if !ok {
          r := RefuseBusy(sender, requestId);
          return;
        }
        var prepared := pending.value;
        pending := Some(prepared.(authentication := offer));
        if prepared.authentication.Some? {
          return Err(InvalidEnvelope);
        }
        ghost var asked;
        r, asked := TryStartPending(nowMs);
      case Negotiation(sessionId, body) =>
        var ok := PreparePending(sender, sessionId, requestId, nowMs);
        if !ok {
          r := RefuseBusy(sender, requestId);
          return;
        }
        if body.None? {
          return Err(InvalidEnvelope);
        }
        var prepared := pending.value;
        match body.value {
          case SessionDescription(description) =>
            if !description.isOffer {
              return Err(InvalidEnvelope);
            }
            pending := Some(prepared.(description := Some(description)));
            if prepared.description.Some? {
              return Err(InvalidEnvelope);
            }
          case IceCandidate(candidate) =>
            var pushed := prepared.PushCandidate(candidate);
            if pushed.Err? {
              return Err(pushed.error);
            }
            pending := Some(pushed.value);
          case EndOfCandidates =>
        }
        ghost var asked;
        r, asked := TryStartPending(nowMs);
      case OtherPayload => r := Err(InvalidEnvelope);
    }

    method RefuseBusy(sender: Octets, requestId: string) returns (r: Reply)
      modifies service
      ensures service.calls == old(service.calls) + [Did(Encode, r.Ok?)]
      ensures r in {Ok([Outbound(sender, requestId, ErrorMessage(Busy))]), Err(InvalidEnvelope)}
    {
      var refusal := service.Send(sender, requestId, ErrorMessage(Busy));
      r := if refusal.Err? then Err(refusal.error) else Ok([refusal.value]);
    }

    // ---- What the runtime calls ----

    /** An envelope that decodes, from the device that routed it, to this Host. */
    predicate WellRouted(sender: Octets, envelope: Option<Envelope>) {
      envelope.Some? && envelope.value.sender == sender && envelope.value.recipient == service.deviceId
    }

    /** The session an envelope is about, where its payload names one for the failed-attempt filter. */
    function NamedSession(payload: Option<Payload>): Option<Octets> {
      match payload
      case Some(SessionAuthentication(Some(offer))) => Some(offer.sessionId)
      case Some(Negotiation(sessionId, _)) => Some(sessionId)
      case _ => None
    }

    method ExpirePending(nowMs: U64)
      requires Valid()
      modifies this`pending, this`failedAttempt
      ensures Valid()
      ensures pending == if old(pending).Some? && SaturatingSub(nowMs, old(pending).value.createdAtMs) > PENDING_SESSION_LIFETIME_MS
                         then None else old(pending)
      ensures failedAttempt == if old(failedAttempt).Some? && SaturatingSub(nowMs, old(failedAttempt).value.failedAtMs) > PENDING_SESSION_LIFETIME_MS
                               then None else old(failedAttempt)
    {
      if pending.Some? && SaturatingSub(nowMs, pending.value.createdAtMs) > PENDING_SESSION_LIFETIME_MS {
        pending := None;
      }
      if failedAttempt.Some? && SaturatingSub(nowMs, failedAttempt.value.failedAtMs) > PENDING_SESSION_LIFETIME_MS {
        failedAttempt := None;
      }
    }

    function Unlapsed(was: Option<PendingSession>, nowMs: U64): Option<PendingSession> {
      if was.Some? && nowMs as int - was.value.createdAtMs > 30_000 then None else was
    }

    function Lapsed(was: Option<FailedAttempt>, nowMs: U64): Option<FailedAttempt> {
      if was.Some? && nowMs as int - was.value.failedAtMs > 30_000 then None else was
    }

    /** The envelope is about an attempt of this sender that has just failed. */
    predicate Filtered(failed: Option<FailedAttempt>, sender: Octets, payload: Option<Payload>) {
      failed.Some? && failed.value.controllerDeviceId == sender && NamedSession(payload) == Some(failed.value.sessionId)
    }

    /** The pending attempt, and the answer, are what this envelope makes of it. */
    predicate Absorbs(was: Option<PendingSession>, sender: Octets, payload: Option<Payload>, requestId: string, nowMs: U64, r: Reply)
      requires was.Some? ==> was.value.Valid()
      reads this
    {
      var (next, outcome) := Absorb(was, sender, payload, requestId, nowMs);
      match outcome
      case Refused(error) => r == Err(error) && pending == next && active == null
      case TurnedAway =>
        r in {Ok([Outbound(sender, requestId, ErrorMessage(Busy))]), Err(InvalidEnvelope)} && pending == next && active == null
      case Noted =>
        if next.Some? && next.value.IsReady() && !(payload.value.SessionStatus?) then pending.None? && (r.Ok? ==> r.value != [])
        else r == Ok([]) && pending == next && active == null
    }

    /** A well-routed envelope at or after the deadline leaves no active session, whatever it says. */
    method HandleRouted(sender: Octets, envelope: Option<Envelope>, nowMs: U64) returns (r: Reply)
      requires Valid()
      modifies Footprint()
      ensures Valid() && fresh(Footprint() - old(Footprint())) && Retired(old(active))
      ensures closed == old(closed) && (old(closed) ==> r == Err(Closed) && active == null)
      ensures DeadlineStands(nowMs) && NoInput()
      ensures !old(closed) && !WellRouted(sender, envelope) ==>
                r == Err(InvalidEnvelope) && active == old(active) && forall o <- old(Footprint()) :: unchanged(o)
      ensures !old(closed) && WellRouted(sender, envelope) && old(Overdue(nowMs)) ==>
                active == null && (r.Ok? ==> !old(active).session.inputCleanupPending)
      ensures old(active) != null && !old(Overdue(nowMs)) && WellRouted(sender, envelope) && old(active).controllerDeviceId != sender ==>
                active == old(active) && r in {Ok([]), Ok([Outbound(sender, envelope.value.requestId, ErrorMessage(Busy))]), Err(InvalidEnvelope)}
      ensures old(active) != null && !old(Overdue(nowMs)) && WellRouted(sender, envelope) && old(active).controllerDeviceId == sender
              && NamedSession(envelope.value.payload).None? ==>
                && (active == null <==> envelope.value.payload == Some(SessionStatus(old(active).sessionId, true)))
                && (active != null ==> r == Err(InvalidEnvelope))
      ensures old(active) == null && !old(closed) && WellRouted(sender, envelope) ==>
                if Filtered(Lapsed(old(failedAttempt), nowMs), sender, envelope.value.payload) then
                  r == Ok([]) && active == null && pending == Unlapsed(old(pending), nowMs)
                else Absorbs(Unlapsed(old(pending), nowMs), sender, envelope.value.payload, envelope.value.requestId, nowMs, r)
    {
      if closed {
        return Err(Closed);
      }
      if envelope.None? || envelope.value.sender != sender || envelope.value.recipient != service.deviceId {
        return Err(InvalidEnvelope);
      }
      ExpirePending(nowMs);
      var expired := ExpireActiveReconnect(nowMs);
      if expired.Err? {
        return Err(expired.error);
      }
      var named := NamedSession(envelope.value.payload);
      if named.Some? && failedAttempt.Some? && failedAttempt.value.controllerDeviceId == sender && failedAttempt.value.sessionId == named.value {
        return Ok([]);
      }
      if active != null {
        if active.controllerDeviceId != sender {
          r := RefuseBusy(sender, envelope.value.requestId);
          return;
        }
        r := HandleActiveEnvelope(envelope.value.payload, envelope.value.requestId, nowMs);
        return;
      }
      r := HandlePendingEnvelope(sender, envelope.value.payload, envelope.value.requestId, nowMs);
    }

    /** A native peer event at or after the deadline leaves no active session; input inside the window goes nowhere. */
    method HandlePeerEvent(event: PeerEvent, nowMs: U64) returns (r: Reply)
      requires Valid()
      modifies Footprint()
      ensures Valid() && Retired(old(active)) && (active == null || active == old(active))
      ensures closed == old(closed) && (closed ==> r == Err(Closed) && active == null)
      ensures !old(closed) && old(Overdue(nowMs)) ==>
                && active == null && (r.Ok? ==> r == Ok([]))
                && Ended(old(active), old(service.calls), service.calls, Some(IceFailed), if r.Err? then Some(r.error) else None)
      ensures DatedFrom(nowMs) && (!event.Connected? ==> DeadlineStands(nowMs))
      ensures InWindow() && old(InWindow()) ==> active.reconnectDeadline == old(active.reconnectDeadline)
      ensures old(InWindow()) ==> NoInput()
      ensures old(InWindow()) && !old(Overdue(nowMs)) && !old(closed) && (event.ReliableInput? || event.FastPointer?) ==>
                r == Ok([]) && active == old(active) && pending == old(pending) && forall o <- active.Parts() :: unchanged(o)
      ensures event.Connected? && old(active) != null && !old(Overdue(nowMs)) ==>
                && active == old(active) && active.reconnectDeadline.None? && active.reconnect.None? && active.session.state.Connected?
                && r in {Ok([]), Err(Service)} && service.calls == old(service.calls) + [Did(Publish(ShowConnected), r.Ok?)]
      ensures (event.Disconnected? || event.Failed?) && r.Ok? && active != null && !old(InWindow()) ==>
                active.reconnectDeadline == Some(SaturatingAdd(nowMs, ACTIVE_RECONNECT_LIFETIME_MS))
      ensures (event.ReliableInput? || event.FastPointer?) && r.Err? ==> active == null
      ensures event.LocalStop? && old(active) != null && !old(Overdue(nowMs)) ==>
                || (active == null
                    && (r.Ok? ==> r.value == [Outbound(old(active).controllerDeviceId, "host-termination", ClosingStatus)]))
                || (active == old(active) && r == Err(InvalidEnvelope) && active.session.state == old(active.session.state) && NoInput()
                    && active.reconnectDeadline == old(active.reconnectDeadline))
      ensures event.LocalStop? && r.Ok? ==> active == null
      ensures event.LocalIceCandidate? && old(active) != null && !old(Overdue(nowMs)) ==>
                && active == old(active) && (forall o <- active.Parts() :: unchanged(o))
                && r in {Ok([Outbound(active.controllerDeviceId, "host-ice", LocalIce)]), Err(InvalidEnvelope)}
      ensures (event.Disconnected? || event.Failed?) && r.Ok? && active != null ==>
                active.session.state.Reconnecting? && service.calls == old(service.calls) + [Did(Publish(ShowReconnecting), true)]
      ensures event.ReliableInput? && old(active) != null && !old(InWindow()) ==>
                var refused := old(active.session.RefusesReliable(event.reliable));
                && (refused.Some? ==> r.Err? && active == null)
                && (refused.None? && active != null ==> r == Ok([]) && active.session.lastReliableSequence == event.reliable.value.sequence)
                && (refused.None? && active == null ==>
                      var input := event.reliable.value.event.value;
                      || input.SessionControl? || input.ReleaseAllInput? || old(active.session.Unplayable(input))
                      || InputFailed(old(active.session.input.backend.log), old(active).session.input.backend.log))
      ensures event.FastPointer? && old(active) != null && !old(InWindow()) ==>
                var refused := old(active.session.RefusesFast(event.fast));
                && (refused.Some? ==> r.Err? && active == null)
                && (refused.None? && active != null ==>
                      && r == Ok([])
                      && (event.fast.value.sequence <= old(active.session.lastPointerSequence) ==>
                            active.session.lastPointerSequence == old(active.session.lastPointerSequence))
                      && (event.fast.value.sequence > old(active.session.lastPointerSequence) ==>
                            active.session.lastPointerSequence == event.fast.value.sequence))
                && (refused.None? && active == null ==>
                      || event.fast.value.event.None? || HostSession.CheckFast(event.fast.value.event.value).Some?
                      || InputFailed(old(active.session.input.backend.log), old(active).session.input.backend.log))
      ensures old(active) == null && !closed ==>
                match event
                case ReliableInput(_) => r == Err(Input)
                case FastPointer(_) => r == Err(Input)
                case LocalStop => r == Ok([])
                case _ => r == Err(Peer)
    {
      hide Ended, InputFailed;
      if closed {
        return Err(Closed);
      }
      var expired := ExpireActiveReconnect(nowMs);
      if expired.Err? {
        return Err(expired.error);
      }
      if expired.value {
        return Ok([]);
      }
      match event
      case Connected => r := PeerConnected();
      case LocalIceCandidate =>
        if active == null {
          return Err(Peer);
        }
        var sent := service.Send(active.controllerDeviceId, "host-ice", LocalIce);
        r := if sent.Err? then Err(sent.error) else Ok([sent.value]);
      case ReliableInput(envelope) =>
        if active == null {
          return Err(Input);
        }
        if active.reconnectDeadline.Some? {
          return Ok([]);
        }
        r := ApplyReliable(envelope);
      case FastPointer(envelope) =>
        if active == null {
          return Err(Input);
        }
        if active.reconnectDeadline.Some? {
          return Ok([]);
        }
        r := ApplyFast(envelope);
      case Disconnected =>
        var error := BeginActiveReconnect(nowMs);
        r := if error.Some? then Err(error.value) else Ok([]);
      case Failed =>
        var error := BeginActiveReconnect(nowMs);
        r := if error.Some? then Err(error.value) else Ok([]);
      case LocalStop => r := CloseActiveNotifying(None);
    }

    /** Only this clears the reconnect window of a session that stays. */
    method PeerConnected() returns (r: Reply)
      requires Valid()
      modifies Footprint()
      ensures Valid() && active == old(active) && closed == old(closed) && NoInput()
      ensures active == null ==> r == Err(Peer)
      ensures active != null ==>
                && active.reconnectDeadline.None? && active.reconnect.None? && active.session.state.Connected?
                && r in {Ok([]), Err(Service)} && service.calls == old(service.calls) + [Did(Publish(ShowConnected), r.Ok?)]
    {
      if active == null {
        return Err(Peer);
      }
      var refused := active.session.MarkConnected();
      if refused.Some? {
        return Err(Peer);
      }
      active.reconnect := None;
      active.reconnectDeadline := None;
      var updated := service.Attempt(Publish(ShowConnected));
      r := if updated then Ok([]) else Err(Service);
    }

    method FailInput() returns (r: Reply)
      requires Closable()
      modifies Footprint()
      ensures Valid() && active == null && Retired(old(active)) && closed == old(closed) && r.Err?
      ensures old(active) != null ==> old(active.session.input.backend.log) <= old(active).session.input.backend.log
    {
      var error := CloseActive(Some(InputInjectionFailed));
      r := Err(if error.Some? then error.value else Input);
    }

    /** Some native input call made since `before` failed. */
    predicate InputFailed(before: seq<InputSink.Injection>, after: seq<InputSink.Injection>) {
      exists i | |before| <= i < |after| :: !after[i].ok
    }

    /** An envelope the session refuses, or that ends it, also ends it here. */
    method ApplyReliable(envelope: Option<HostSession.Envelope<HostSession.ReliableEvent>>) returns (r: Reply)
      requires Valid() && active != null && active.reconnectDeadline.None?
      modifies Footprint()
      ensures Valid() && Retired(old(active)) && (active == null || active == old(active))
      ensures closed == old(closed) && (r.Err? ==> active == null) && (active != null ==> active.reconnectDeadline.None?)
      ensures var refused := old(active.session.RefusesReliable(envelope));
              && (refused.Some? ==> r.Err? && active == null)
              && (refused.None? && active != null ==> r == Ok([]) && active.session.lastReliableSequence == envelope.value.sequence)
              && (refused.None? && active == null ==>
                    var event := envelope.value.event.value;
                    || event.SessionControl? || event.ReleaseAllInput? || old(active.session.Unplayable(event))
                    || InputFailed(old(active.session.input.backend.log), old(active).session.input.backend.log))
    {
      var session := active.session;
      var error := session.HandleReliable(envelope);
      if error.Some? {
        ghost var injected := session.input.backend.log;
        r := FailInput();
        assert forall i | 0 <= i < |injected| :: session.input.backend.log[i] == injected[i];
        return;
      }
      if session.state == HostSession.Closed {
        var closing := CloseActive(None);
        r := if closing.Some? then Err(closing.value) else Ok([]);
        return;
      }
      r := Ok([]);
    }

    method ApplyFast(envelope: Option<HostSession.Envelope<HostSession.FastEvent>>) returns (r: Reply)
      requires Valid() && active != null && active.reconnectDeadline.None?
      modifies Footprint()
      ensures Valid() && Retired(old(active)) && (active == null || active == old(active))
      ensures closed == old(closed) && (r.Err? ==> active == null) && (active != null ==> active.reconnectDeadline.None?)
      ensures var refused := old(active.session.RefusesFast(envelope));
              && (refused.Some? ==> r.Err? && active == null)
              && (refused.None? && active != null ==>
                    && r == Ok([])
                    && (envelope.value.sequence <= old(active.session.lastPointerSequence) ==>
                          active.session.lastPointerSequence == old(active.session.lastPointerSequence))
                    && (envelope.value.sequence > old(active.session.lastPointerSequence) ==>
                          active.session.lastPointerSequence == envelope.value.sequence))
              && (refused.None? && active == null ==>
                    || envelope.value.event.None? || HostSession.CheckFast(envelope.value.event.value).Some?
                    || InputFailed(old(active.session.input.backend.log), old(active).session.input.backend.log))
    {
      var session := active.session;
      var applied := session.HandlePointerFast(envelope);
      if applied.Err? {
        ghost var injected := session.input.backend.log;
        r := FailInput();
        assert forall i | 0 <= i < |injected| :: session.input.backend.log[i] == injected[i];
        return;
      }
      assert applied.value.Applied? || applied.value.DroppedStale?;
      r := Ok([]);
    }

    /** What the peer's event queue offers, if there is a peer; a failed queue ends the session. */
    method NextPeerEvent(offered: Result<Option<PeerEvent>, RemoteError>) returns (r: Result<Option<PeerEvent>, RemoteError>)
      requires Valid()
      modifies Footprint()
      ensures Valid() && Retired(old(active)) && closed == old(closed)
      ensures old(active) != null && offered.Err? ==> r.Err? && active == null
      ensures old(active) == null ==> r == Ok(None) && active == null
      ensures old(active) != null && offered.Ok? ==>
                r == offered && active == old(active) && pending == old(pending) && forall o <- active.Parts() :: unchanged(o)
    {
      if active == null {
        return Ok(None);
      }
      if offered.Err? {
        var error := CloseActive(Some(ProtocolErrorFor(offered.error)));
        return Err(if error.Some? then error.value else offered.error);
      }
      r := offered;
    }

    predicate IsLoss(offered: Result<Option<PeerEvent>, RemoteError>) {
      offered == Ok(Some(Disconnected)) || offered == Ok(Some(Failed))
    }

    /** One event taken off the queue and handled; `None` if there is none. */
    method TakeEvent(offered: Result<Option<PeerEvent>, RemoteError>, nowMs: U64) returns (r: Result<Option<seq<Outbound>>, RemoteError>)
      requires Valid()
      modifies Footprint()
      ensures Valid() && Retired(old(active)) && (active == null || active == old(active)) && closed == old(closed)
      ensures old(Overdue(nowMs)) && offered != Ok(None) ==> active == null
      ensures DatedFrom(nowMs) && (offered != Ok(Some(Connected)) ==> DeadlineStands(nowMs))
      ensures InWindow() && old(InWindow()) ==> active.reconnectDeadline == old(active.reconnectDeadline)
      ensures old(InWindow()) ==> NoInput()
      ensures old(active) != null && offered.Err? ==> r.Err? && active == null
      ensures offered == Ok(Some(LocalStop)) && r.Ok? ==> active == null
      ensures offered == Ok(Some(LocalStop)) && r.Err? && active != null ==> r == Err(InvalidEnvelope) && active.session.state == old(active.session.state)
      ensures offered.Ok? && offered.value.Some? && offered.value.value.ReliableInput? && old(active) != null && !old(InWindow()) && active != null ==>
                old(active.session.RefusesReliable(offered.value.value.reliable)).None?
                && active.session.lastReliableSequence == offered.value.value.reliable.value.sequence
      ensures old(active) != null && !old(Overdue(nowMs)) && r.Ok? ==>
                && (offered == Ok(Some(LocalStop)) ==> r.value == Some([Outbound(old(active).controllerDeviceId, "host-termination", ClosingStatus)]))
                && (offered == Ok(Some(LocalIceCandidate)) ==> r.value == Some([Outbound(old(active).controllerDeviceId, "host-ice", LocalIce)]))
      ensures IsLoss(offered) && r.Ok? && active != null ==> InWindow()
      ensures old(active) == null || offered == Ok(None) ==>
                r == Ok(None) && active == old(active) && (active != null ==> forall o <- active.Parts() :: unchanged(o))
      ensures r == Ok(None) ==> old(active) == null || offered == Ok(None)
    {
      var next := NextPeerEvent(offered);
      if next.Err? {
        return Err(next.error);
      }
      if next.value.None? {
        return Ok(None);
      }
      var handled := HandlePeerEvent(next.value.value, nowMs);
      r := if handled.Err? then Err(handled.error) else Ok(Some(handled.value));
    }

    method PollPeerEvent(offered: Result<Option<PeerEvent>, RemoteError>, nowMs: U64) returns (r: Reply)
      requires Valid()
      modifies Footprint()
      ensures Valid() && Retired(old(active)) && (active == null || active == old(active)) && closed == old(closed)
      ensures old(Overdue(nowMs)) ==>
                && active == null && (r.Ok? ==> r == Ok([]))
                && Ended(old(active), old(service.calls), service.calls, Some(IceFailed), if r.Err? then Some(r.error) else None)
      ensures DatedFrom(nowMs) && (offered != Ok(Some(Connected)) ==> DeadlineStands(nowMs))
      ensures InWindow() && old(InWindow()) ==> active.reconnectDeadline == old(active.reconnectDeadline)
      ensures old(InWindow()) ==> NoInput()
      ensures old(active) != null && !old(Overdue(nowMs)) && offered.Err? ==> r.Err? && active == null
      ensures offered == Ok(Some(LocalStop)) && r.Ok? ==> active == null
      ensures offered == Ok(Some(LocalStop)) && r.Err? && active != null ==> r == Err(InvalidEnvelope) && active.session.state == old(active.session.state)
      ensures offered.Ok? && offered.value.Some? && offered.value.value.ReliableInput? && old(active) != null && !old(InWindow()) && active != null ==>
                old(active.session.RefusesReliable(offered.value.value.reliable)).None?
                && active.session.lastReliableSequence == offered.value.value.reliable.value.sequence
      ensures old(active) != null && !old(Overdue(nowMs)) && r.Ok? ==>
                && (offered == Ok(Some(LocalStop)) ==> r.value == [Outbound(old(active).controllerDeviceId, "host-termination", ClosingStatus)])
                && (offered == Ok(Some(LocalIceCandidate)) ==> r.value == [Outbound(old(active).controllerDeviceId, "host-ice", LocalIce)])
      ensures IsLoss(offered) && r.Ok? && active != null ==> InWindow()
    {
      var expired := ExpireActiveReconnect(nowMs);
      if expired.Err? {
        return Err(expired.error);
      }
      if expired.value {
        return Ok([]);
      }
      var taken := TakeEvent(offered, nowMs);
      r := if taken.Err? then Err(taken.error) else if taken.value.None? then Ok([]) else Ok(taken.value.value);
    }

    /** Up to 64 events, fewer once something is to be sent or the time is up. */
    method PollPeerEvents(offered: seq<Result<Option<PeerEvent>, RemoteError>>, nowMs: U64) returns (r: Reply)
      requires Valid()
      modifies Footprint()
      ensures Valid() && Retired(old(active)) && (active == null || active == old(active)) && closed == old(closed)
      ensures old(Overdue(nowMs)) ==>
                && active == null && (r.Ok? ==> r == Ok([]))
                && Ended(old(active), old(service.calls), service.calls, Some(IceFailed), if r.Err? then Some(r.error) else None)
      ensures DatedFrom(nowMs) && (Ok(Some(Connected)) !in offered ==> DeadlineStands(nowMs))
      ensures old(InWindow()) && Ok(Some(Connected)) !in offered ==> NoInput()
      ensures offered != [] && old(active) != null && !old(Overdue(nowMs)) && offered[0].Err? ==> r.Err? && active == null
      ensures offered != [] && offered[0] == Ok(Some(LocalStop)) && r.Ok? ==> active == null
      ensures offered != [] && old(active) != null && !old(Overdue(nowMs)) && r.Ok? ==>
                && (offered[0] == Ok(Some(LocalStop)) ==> r.value == [Outbound(old(active).controllerDeviceId, "host-termination", ClosingStatus)])
                && (offered[0] == Ok(Some(LocalIceCandidate)) ==> r.value == [Outbound(old(active).controllerDeviceId, "host-ice", LocalIce)])
      ensures offered != [] && IsLoss(offered[0]) && Ok(Some(Connected)) !in offered && r.Ok? && active != null ==> InWindow()
    {
      var expired := ExpireActiveReconnect(nowMs);
      if expired.Err? {
        return Err(expired.error);
      }
      if expired.value {
        return Ok([]);
      }
      var outbound: seq<Outbound> := [];
      var done := 0;
      while done < MAX_EVENTS && done < |offered|
        invariant Valid() && Retired(old(active)) && (active == null || active == old(active)) && closed == old(closed)
        invariant old(Overdue(nowMs)) ==> active == null
        invariant DatedFrom(nowMs)
        invariant done <= |offered|
        invariant outbound == []
        invariant done > 0 && old(active) != null && !old(Overdue(nowMs)) ==> offered[0] !in {Ok(Some(LocalStop)), Ok(Some(LocalIceCandidate))}
        invariant done == 0 ==> active == old(active) && (active != null ==> forall o <- active.Parts() :: unchanged(o))
        invariant done > 0 && offered[0] == Ok(Some(LocalStop)) ==> active == null
        invariant done > 0 && IsLoss(offered[0]) && Ok(Some(Connected)) !in offered && active != null ==> InWindow()
        invariant done > 0 && old(active) != null && !old(Overdue(nowMs)) ==> offered[0].Ok?
        invariant Ok(Some(Connected)) !in offered && old(InWindow()) && active != null ==> InWindow() && DeadlineStands(nowMs) && NoInput()
      {
        var taken := TakeEvent(offered[done], nowMs);
        if taken.Err? {
          return Err(taken.error);
        }
        if taken.value.None? {
          break;
        }
        outbound := outbound + taken.value.value;
        var timeIsUp: bool := *;
        if outbound != [] || timeIsUp {
          break;
        }
        done := done + 1;
      }
      r := Ok(outbound);
    }

    method HandleTermination(sessionId: Octets, controllerDeviceId: Octets, reason: ErrorCode, nowMs: U64) returns (r: Reply)
      requires Valid()
      modifies Footprint()
      ensures Valid() && Retired(old(active)) && (active == null || active == old(active)) && closed == old(closed)
      ensures DeadlineStands(nowMs) && NoInput()
      ensures active != null ==> r in {Ok([]), Err(InvalidEnvelope)}
      ensures active != null && r.Ok? ==> active.sessionId != sessionId || active.controllerDeviceId != controllerDeviceId
      ensures old(active) == null || old(active).sessionId != sessionId || old(active).controllerDeviceId != controllerDeviceId ==>
                r == Ok([]) && active == old(active) && forall o <- old(Footprint()) :: unchanged(o)
      ensures old(active) != null && active == null && r.Ok? ==>
                r.value == [Outbound(old(active).controllerDeviceId, "host-termination", ClosingStatus)]
    {
      if active == null || active.sessionId != sessionId || active.controllerDeviceId != controllerDeviceId {
        return Ok([]);
      }
      r := CloseActiveNotifying(if reason == LocalEmergencyStop then None else Some(reason));
    }

    /** The session is kept for the window, unless its input cannot be released. */
    method SignalingLost(nowMs: U64) returns (r: Option<RemoteError>)
      requires Valid()
      modifies Footprint()
      ensures Valid() && Retired(old(active)) && (active == null || active == old(active)) && closed == old(closed)
      ensures pending.None? && DeadlineStands(nowMs) && NoInput()
      ensures active != null ==> r.None? && InWindow() && active.session.state.Reconnecting?
      ensures old(active) != null ==> (active == null <==> r.Some?)
      ensures old(active) == null ==> r.None?
      ensures old(active) != null && active == null && old(active).session.inputCleanupPending ==> r == Some(Input)
    {
      pending := None;
      r := None;
      if active != null {
        r := BeginActiveReconnect(nowMs);
        if r.Some? {
          var error := CloseActive(Some(IceFailed));
          if error.Some? {
            r := error;
          }
        }
      }
    }

    method PrivilegedRouteChanged(nowMs: U64) returns (r: Option<RemoteError>)
      requires Valid()
      modifies Footprint()
      ensures Valid() && active == old(active) && closed == old(closed)
      ensures DeadlineStands(nowMs) && NoInput()
      ensures active != null && r.None? ==> InWindow() && active.session.state.Reconnecting?
      ensures active == null ==> r.None?
      ensures active != null && r.Some? ==>
                (r == Some(Input) && active.session.inputCleanupPending) || (r == Some(Service) && LastFailed(service.calls))
    {
      r := None;
      if active != null {
        r := BeginActiveReconnect(nowMs);
      }
    }

    /** The session is gone either way; the coordinator counts as closed only if its cleanup succeeded. */
    method Shutdown() returns (r: Option<RemoteError>)
      requires Valid()
      modifies Footprint()
      ensures Valid() && Retired(old(active)) && active == null && pending.None? && failedAttempt.None?
      ensures closed == (old(closed) || r.None?)
    {
      pending := None;
      failedAttempt := None;
      r := CloseActive(None);
      if r.None? {
        closed := true;
      }
    }
  }

  // ---- Whole runs ----

  datatype Op =
    | Routed(sender: Octets, envelope: Option<Envelope>)
    | Event(event: PeerEvent)
    | Poll(offered: Result<Option<PeerEvent>, RemoteError>)
    | PollMany(offers: seq<Result<Option<PeerEvent>, RemoteError>>)
    | Terminate(sessionId: Octets, controllerDeviceId: Octets, reason: ErrorCode)
    | LoseSignaling
    | ChangeRoute
    | ShutDown

  /** The operations that enforce the deadline: any peer event or poll, and a well-routed envelope. */
  predicate Enforces(deviceId: Octets, op: Op) {
    || op.Event? || op.Poll? || op.PollMany?
    || (op.Routed? && op.envelope.Some? && op.envelope.value.sender == op.sender && op.envelope.value.recipient == deviceId)
  }

  /** A batch of events may close a window and open another. */
  predicate MayReopen(op: Op) {
    op.PollMany? && Ok(Some(Connected)) in op.offers
  }

  /** What any call does, seen on the coordinator; `was` is the session it found. */
  twostate predicate Performed(c: RemoteSessionCoordinator, was: ActiveSession?, op: Op, nowMs: U64, new r: Reply)
    requires old(c.Valid()) && c.Valid()
    reads c, c.Footprint(), if was == null then {} else {was.session}
  {
    && c.Retired(was) && c.DatedFrom(nowMs)
    && (c.InWindow() && old(c.InWindow()) && c.active == old(c.active) && !MayReopen(op) ==>
          c.active.reconnectDeadline == old(c.active.reconnectDeadline))
    && (old(c.InWindow()) && !MayReopen(op) ==> c.NoInput())
    && (old(c.Overdue(nowMs)) && Enforces(c.service.deviceId, op) ==> c.active == null)
    && (Stops(op) && r.Ok? ==> c.active == null)
    && (op == Event(LocalStop) && c.active != null ==> r == Err(InvalidEnvelope) && c.active == old(c.active))
    && Owes(op, r, Observe(c))
    && (op.Routed? && !old(c.closed) ==> RoutedWell(c, was, op, nowMs, r))
    && (op.LoseSignaling? ==> c.pending.None?)
    && (op.Terminate? && (was == null || was.sessionId != op.sessionId || was.controllerDeviceId != op.controllerDeviceId) ==>
          r == Ok([]) && c.active == was)
    && (InputOf(op).Some? && was != null && !old(c.InWindow()) && c.active != null ==>
          && old(was.session.RefusesReliable(InputOf(op).value)).None?
          && c.active.session.lastReliableSequence == InputOf(op).value.value.sequence)
  }

  /** The reliable input a call brings, as an event or polled. */
  function InputOf(op: Op): Option<Option<HostSession.Envelope<HostSession.ReliableEvent>>> {
    match op
    case Event(ReliableInput(envelope)) => Some(envelope)
    case Poll(Ok(Some(ReliableInput(envelope)))) => Some(envelope)
    case _ => None
  }

  /** A misrouted envelope is refused, a closing status ends its session, and any other adds to what is pending. */
  twostate predicate RoutedWell(c: RemoteSessionCoordinator, was: ActiveSession?, op: Op, nowMs: U64, new r: Reply)
    requires op.Routed? && old(c.Valid())
    reads c, c.Footprint()
  {
    if !c.WellRouted(op.sender, op.envelope) then r == Err(InvalidEnvelope) && c.active == was
    else
      var payload, requestId := op.envelope.value.payload, op.envelope.value.requestId;
      && (was != null && !old(c.Overdue(nowMs)) && op.sender == was.controllerDeviceId && payload == Some(SessionStatus(was.sessionId, true)) ==>
            c.active == null)
      && (old(c.active) == null && !c.Filtered(c.Lapsed(old(c.failedAttempt), nowMs), op.sender, payload) ==>
            c.Absorbs(c.Unlapsed(old(c.pending), nowMs), op.sender, payload, requestId, nowMs, r))
  }

  method PerformRouted(c: RemoteSessionCoordinator, op: Op, nowMs: U64) returns (r: Reply)
    requires c.Valid() && op.Routed?
    modifies c.Footprint()
    ensures c.Valid() && fresh(c.Footprint() - old(c.Footprint())) && Performed(c, old(c.active), op, nowMs, r)
  {
    r := c.HandleRouted(op.sender, op.envelope, nowMs);
    hide SetUpAt;
    hide Absorb;
    hide RemoteSessionCoordinator.Absorbs;
  }

  method PerformEvents(c: RemoteSessionCoordinator, op: Op, nowMs: U64) returns (r: Reply)
    requires c.Valid() && (op.Event? || op.Poll? || op.PollMany?)
    modifies c.Footprint()
    ensures c.Valid() && fresh(c.Footprint() - old(c.Footprint())) && Performed(c, old(c.active), op, nowMs, r)
  {
    hide SetUpAt;
    hide RoutedWell;
    match op
    case Event(event) => r := c.HandlePeerEvent(event, nowMs);
    case Poll(offered) => r := c.PollPeerEvent(offered, nowMs);
    case PollMany(offers) => r := c.PollPeerEvents(offers, nowMs);
  }

  method Perform(c: RemoteSessionCoordinator, op: Op, nowMs: U64) returns (r: Reply)
    requires c.Valid()
    modifies c.Footprint()
    ensures c.Valid() && fresh(c.Footprint() - old(c.Footprint())) && Performed(c, old(c.active), op, nowMs, r)
  {
    hide SetUpAt;
    hide RoutedWell;
    match op
    case Routed(_, _) => r := PerformRouted(c, op, nowMs);
    case Event(_) => r := PerformEvents(c, op, nowMs);
    case Poll(_) => r := PerformEvents(c, op, nowMs);
    case PollMany(_) => r := PerformEvents(c, op, nowMs);
    case Terminate(sessionId, controller, reason) => r := c.HandleTermination(sessionId, controller, reason, nowMs);
    case LoseSignaling =>
      var error := c.SignalingLost(nowMs);
      r := Answer(error);
    case ChangeRoute =>
      var error := c.PrivilegedRouteChanged(nowMs);
      r := Answer(error);
    case ShutDown =>
      var error := c.Shutdown();
      r := Answer(error);
  }

  /** The local emergency stop, as an event, polled, or first of a batch; and a shutdown. */
  predicate Stops(op: Op) {
    || op == Event(LocalStop) || op == Poll(Ok(Some(LocalStop))) || op.ShutDown?
    || (op.PollMany? && op.offers != [] && op.offers[0] == Ok(Some(LocalStop)))
  }

  /** What a call that succeeds leaves of a session that stays. */
  ghost predicate Owes(op: Op, r: Reply, after: Moment) {
    after.session != null ==>
      match op
      case LoseSignaling => after.deadline.Some?
      case ChangeRoute => r.Ok? ==> after.deadline.Some?
      case Terminate(sessionId, controller, _) => r.Ok? ==> after.session.sessionId != sessionId || after.session.controllerDeviceId != controller
      case Event(Disconnected) => r.Ok? ==> after.deadline.Some?
      case Event(Failed) => r.Ok? ==> after.deadline.Some?
      case Event(Connected) => r.Ok? ==> after.connected
      case Poll(Err(_)) => false
      case Poll(Ok(Some(Disconnected))) => r.Ok? ==> after.deadline.Some?
      case Poll(Ok(Some(Failed))) => r.Ok? ==> after.deadline.Some?
      case _ => true
  }

  function Answer(error: Option<RemoteError>): Reply {
    if error.Some? then Err(error.value) else Ok([])
  }

  /** What an observer sees between two calls: the session, its window, and how far its input has come. */
  datatype Moment = Moment(
    calls: seq<Call>,
    session: ActiveSession?,
    deadline: Option<U64>,
    connected: bool,
    reliableSequence: U64,
    pointerSequence: U64,
    pressedKeys: set<U32>,
    pressedButtons: set<InputSink.NativeButton>)

  const NO_SESSION := Moment([], null, None, false, 0, 0, {}, {})

  ghost function Observe(c: RemoteSessionCoordinator): Moment
    reads c, c.Footprint()
  {
    if c.active == null then NO_SESSION.(calls := c.service.calls)
    else
      var session := c.active.session;
      Moment(c.service.calls, c.active, c.active.reconnectDeadline, session.state.Connected?, session.lastReliableSequence,
             session.lastPointerSequence, session.input.pressedKeys, session.input.pressedButtons)
  }

  /**
   * One call seen from outside.  An enforcing call at or after the deadline leaves no
   * session, and neither does a local stop that succeeds; no call applies input to the session inside its window or moves its deadline,
   * unless a batch of events connects in between.
   */
  ghost predicate Governed(deviceId: Octets, op: Op, nowMs: U64, r: Reply, before: Moment, after: Moment) {
    && (Stops(op) && r.Ok? ==> after.session == null) && Owes(op, r, after)
    && (op == Event(LocalStop) && after.session != null ==> r == Err(InvalidEnvelope) && after.session == before.session)
    && (before.deadline.Some? && nowMs >= before.deadline.value && Enforces(deviceId, op) ==> after.session == null)
    && (before.deadline.Some? && after.session == before.session && !MayReopen(op) ==>
          && after.reliableSequence == before.reliableSequence && after.pointerSequence == before.pointerSequence
          && after.pressedKeys <= before.pressedKeys && after.pressedButtons <= before.pressedButtons
          && (after.deadline.Some? ==> after.deadline == before.deadline))
  }

  /**
   * The window open at moment `i` was opened by call `k`: it ends 45,000 ms after it, has
   * stood unmoved since, and was not open before it.
   */
  ghost predicate OpenedBy(ops: seq<(Op, U64)>, moments: seq<Moment>, i: nat, k: nat)
    requires i < |moments| <= |ops| + 1
  {
    && k < i
    && moments[i].deadline == Some(SaturatingAdd(ops[k].1, ACTIVE_RECONNECT_LIFETIME_MS))
    && (forall m | k < m <= i :: moments[m].session == moments[i].session && moments[m].deadline == moments[i].deadline)
    && (moments[k].session != moments[i].session || moments[k].deadline.None? || MayReopen(ops[k].0))
  }

  /** The session seen was set up by the service: verified, signed for, registered and recorded. */
  ghost predicate SetUp(m: Moment) {
    m.session != null ==>
      SetUpAt(m.calls, m.session.setUpAt, m.session.controllerDeviceId, m.session.sessionId, m.session.session.inputAllowed)
  }

  ghost predicate AllBounded(deviceId: Octets, ops: seq<(Op, U64)>, replies: seq<Reply>, moments: seq<Moment>, openings: seq<nat>) {
    && |moments| == |openings| == |replies| + 1 <= |ops| + 1
    && (forall m <- moments :: SetUp(m))
    && (forall i | 0 <= i < |moments| && moments[i].deadline.Some? ::
          !moments[i].connected && OpenedBy(ops, moments, i, openings[i]))
    && (forall i | 0 <= i < |moments| - 1 :: Governed(deviceId, ops[i].0, ops[i].1, replies[i], moments[i], moments[i + 1]))
  }

  lemma OneMoreMoment(deviceId: Octets, ops: seq<(Op, U64)>, replies: seq<Reply>, moments: seq<Moment>, openings: seq<nat>, r: Reply, next: Moment)
    requires AllBounded(deviceId, ops, replies, moments, openings) && 1 <= |moments| <= |ops|
    requires var n := |moments| - 1;
             && Governed(deviceId, ops[n].0, ops[n].1, r, moments[n], next) && SetUp(next)
             && Dated(ops[n].0, ops[n].1, moments[n], next)
    ensures var n := |moments| - 1;
            var kept := next.session == moments[n].session && next.deadline == moments[n].deadline;
            AllBounded(deviceId, ops, replies + [r], moments + [next], openings + [if kept then openings[n] else n])
  {
    hide Governed;
    hide MayReopen;
    hide SetUp;
    var n := |moments| - 1;
    var kept := next.session == moments[n].session && next.deadline == moments[n].deadline;
    var after := moments + [next];
    assert forall i | 0 <= i < |moments| :: after[i] == moments[i];
    forall i | 0 <= i < |moments| && moments[i].deadline.Some?
      ensures OpenedBy(ops, after, i, openings[i])
    {
      OpenedStays(ops, moments, i, openings[i], next);
    }
    if next.deadline.Some? {
      if kept {
        OpenedKeeps(ops, moments, openings[n], next);
      } else {
        assert OpenedBy(ops, after, n + 1, n);
      }
    }
  }

  /** A window that merely stays open was opened by the same call. */
  lemma OpenedKeeps(ops: seq<(Op, U64)>, moments: seq<Moment>, k: nat, next: Moment)
    requires 1 <= |moments| <= |ops| && OpenedBy(ops, moments, |moments| - 1, k)
    requires next.session == moments[|moments| - 1].session && next.deadline == moments[|moments| - 1].deadline
    ensures OpenedBy(ops, moments + [next], |moments|, k)
  {
    hide MayReopen;
  }

  lemma OpenedStays(ops: seq<(Op, U64)>, moments: seq<Moment>, i: nat, k: nat, next: Moment)
    requires i < |moments| <= |ops| && OpenedBy(ops, moments, i, k)
    ensures OpenedBy(ops, moments + [next], i, k)
  {
    hide MayReopen;
  }

  /** A window seen after a call was open before it, or was dated by it. */
  ghost predicate Dated(op: Op, nowMs: U64, before: Moment, after: Moment) {
    after.deadline.Some? ==>
      && !after.connected
      && (|| (after.session == before.session && after.deadline == before.deadline)
          || (after.deadline == Some(SaturatingAdd(nowMs, ACTIVE_RECONNECT_LIFETIME_MS))
              && (after.session != before.session || before.deadline.None? || MayReopen(op))))
  }

  method PerformObserved(c: RemoteSessionCoordinator, op: Op, nowMs: U64) returns (r: Reply, ghost next: Moment)
    requires c.Valid()
    modifies c.Footprint()
    ensures c.Valid() && fresh(c.Footprint() - old(c.Footprint())) && next == Observe(c)
    ensures Governed(c.service.deviceId, op, nowMs, r, old(Observe(c)), next) && Dated(op, nowMs, old(Observe(c)), next) && SetUp(next)
  {
    r := Perform(c, op, nowMs);
    next := Observe(c);
    hide MayReopen;
    hide Stops;
    hide Enforces;
    hide RoutedWell;
    hide Owes;
  }

  lemma NothingIsBounded(deviceId: Octets, ops: seq<(Op, U64)>)
    ensures AllBounded(deviceId, ops, [], [NO_SESSION], [0])
  {
  }

  /**
   * Bounded reconnect, over any run, whatever is called and whatever fails.  `moments` is
   * what an observer sees before the first call and after each; `openings` names, for each
   * open window, the call that opened it.  At every moment an open window ends 45,000 ms
   * after that one call and the session in it is not connected; every call is governed.
   */
  method Drive(deviceId: Octets, ops: seq<(Op, U64)>)
    returns (c: RemoteSessionCoordinator, replies: seq<Reply>, ghost moments: seq<Moment>, ghost openings: seq<nat>)
    ensures c.Valid() && |moments| == |ops| + 1 && moments[0] == NO_SESSION && moments[|ops|] == Observe(c)
    ensures AllBounded(deviceId, ops, replies, moments, openings)
  {
    NothingIsBounded(deviceId, ops);
    hide AllBounded;
    hide Governed;
    hide Dated;
    hide SetUp;
    hide RemoteSessionCoordinator.Valid;
    var service := new HostService(deviceId);
    c := new RemoteSessionCoordinator(service);
    replies, moments, openings := [], [NO_SESSION], [0];
    var done := 0;
    while done < |ops|
      invariant c.Valid() && fresh(c.Footprint()) && c.service.deviceId == deviceId
      invariant |moments| == done + 1 <= |ops| + 1 && moments[0] == NO_SESSION && moments[done] == Observe(c)
      invariant |openings| == |replies| + 1 == done + 1
      invariant AllBounded(deviceId, ops, replies, moments, openings)
    {
      var (op, nowMs) := ops[done];
      var r, next := PerformObserved(c, op, nowMs);
      OneMoreMoment(deviceId, ops, replies, moments, openings, r, next);
      ghost var kept := next.session == moments[done].session && next.deadline == moments[done].deadline;
      openings := openings + [if kept then openings[done] else done];
      replies, moments := replies + [r], moments + [next];
      done := done + 1;
    }
  }
}
