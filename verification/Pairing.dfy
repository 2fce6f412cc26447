/**
 * The Host side of pairing (crates/host-agent/src/pairing.rs): from an invitation to an
 * authenticated local decision.
 */
module Pairing {
  import opened Wrappers
  import opened Bytes

  const RENDEZVOUS_LIFETIME_MS: U64 := 120_000

  datatype Kind = Qr | DesktopCode | Unspecified

  datatype Phase = Creating | Inviting | WaitingHello | WaitingReady | WaitingDecision

  datatype Status =
    | Idle | Creating | Inviting | VerifyingController | WaitingLocalDecision
    | Accepted | Rejected | Cancelled | Expired | Failed

  datatype Completion = Succeeded | Rejected | Expired | Disconnected | Unspecified

  datatype PairingError = InvalidState | InvalidInput | Expired | Authentication | Authorization | Random

  datatype Device = Device(deviceId: Octets, publicKey: Octets)

  datatype Keys = Keys(controllerToHost: Octets, hostToController: Octets)

  datatype Invitation = Invitation(
    kind: Kind,
    rendezvousId: Octets,
    ephemeralPublicKey: Octets,
    endpoint: string,
    pairingCode: string,
    issuedAtMs: U64,
    expiresAtMs: U64)

  datatype ActivePairing = ActivePairing(
    phase: Phase,
    invitation: Invitation,
    serverExpiresAtMs: U64,
    privateKey: Octets,
    peerDeviceId: Option<Octets>,
    controller: Option<Device>,
    transcriptDigest: Octets,
    keys: Option<Keys>,
    sasWords: seq<string>)

  datatype Snapshot = Snapshot(
    state: Status,
    revision: U64,
    invitation: Option<Invitation>,
    pendingController: Option<Device>,
    sasWords: seq<string>,
    expiresAtMs: U64,
    failed: bool)

  type Grant = nat

  datatype Plaintext =
    | HostProof(digest: Octets, signature: Octets, expiresAtMs: U64)
    | FinalDecision(accepted: bool, digest: Octets, grant: Option<Grant>)

  /** A relayed envelope: the invitation in clear, or a plaintext sealed under a key and a sequence number. */
  datatype Envelope = HostInvitation(invitation: Invitation) | Sealed(key: Octets, sequence: nat, plaintext: Plaintext)

  datatype Outbound =
    | Create(rendezvousId: Octets, kind: Kind, pairingCode: string)
    | Relay(rendezvousId: Octets, envelope: Envelope)
    | Complete(rendezvousId: Octets, completion: Completion)

  datatype SignalingEvent =
    | PairingCreated(rendezvousId: Octets, kind: Kind, expiresAtMs: U64)
    | PairingJoined(rendezvousId: Octets, peerDeviceId: Octets, expiresAtMs: U64)
    | RoutedPairing(rendezvousId: Octets, sender: Octets, envelope: Octets)
    | PairingClosed(rendezvousId: Octets, completion: Completion)
    | RemoteError
    | OtherEvent

  datatype VerifiedHello = VerifiedHello(controller: Device, transcript: Octets, digest: Octets, keys: Keys)

  /** The cryptography of pairing, opaque: what each primitive yields, if anything. */
  datatype Crypto = Crypto(
    publicKey: Octets -> Option<Octets>,
    /** Envelope, sender, rendezvous, the Host's ephemeral private and public key. */
    verifyHello: (Octets, Octets, Octets, Octets, Octets) -> Option<VerifiedHello>,
    sign: Octets -> Option<Octets>,
    seals: (Octets, nat, Plaintext) -> bool,
    /** Key, rendezvous, controller, envelope; yields the digest of a well-formed ready message. */
    openReady: (Octets, Octets, Octets, Octets) -> Option<Octets>,
    sasWords: Octets -> Option<seq<string>>)
  {
    /** A hello verifies only for the device that sent it. */
    ghost predicate Sound() {
      forall envelope, sender, rendezvous, secret, public ::
        verifyHello(envelope, sender, rendezvous, secret, public).Some? ==>
          verifyHello(envelope, sender, rendezvous, secret, public).value.controller.deviceId == sender
    }
  }

  /** What the system's random source yields during one `start`. */
  datatype Draw = Draw(rendezvousId: Option<Octets>, privateKey: Option<Octets>, pairingCode: Option<string>)

  function IdleSnapshot(revision: U64): Snapshot {
    Snapshot(Status.Idle, revision, None, None, [], 0, false)
  }

  /** `handle_closed`: the public state a completion leads to. */
  function StateAfter(completion: Completion): Status {
    match completion
    case Rejected => Status.Rejected
    case Expired => Status.Expired
    case _ => Status.Failed
  }

  /** `queued` is everything ever put into `outbound`. */
  datatype PairingState = PairingState(
    hostDeviceId: Octets,
    signalingConnected: bool,
    revision: U64,
    status: Snapshot,
    active: Option<ActivePairing>,
    terminalRendezvousId: Option<Octets>,
    pendingCancelledCreate: Option<Octets>,
    outbound: seq<Outbound>,
    queued: seq<Outbound>)
  {
    function Push(out: Outbound): PairingState {
      this.(outbound := outbound + [out], queued := queued + [out])
    }

    function PublishActive(state: Status): PairingState
      requires active.Some?
    {
      var next := SaturatingAdd(revision, 1);
      var waiting := state.WaitingLocalDecision?;
      this.(revision := next,
            status := Snapshot(state, next, Some(active.value.invitation),
                               if waiting then active.value.controller else None,
                               if waiting then active.value.sasWords else [],
                               active.value.invitation.expiresAtMs, false))
    }

    function Finish(state: Status, failed: bool): PairingState {
      var next := SaturatingAdd(revision, 1);
      this.(active := None,
            terminalRendezvousId := if active.Some? then Some(active.value.invitation.rendezvousId) else terminalRendezvousId,
            revision := next,
            status := Snapshot(state, next, None, None, [], 0, failed))
    }

    /** Give the rendezvous up: a creation not yet confirmed is remembered, any other is completed. */
    function Abandon(): PairingState
      requires active.Some?
    {
      var id := active.value.invitation.rendezvousId;
      if active.value.phase == Phase.Creating then this.(pendingCancelledCreate := Some(id))
      else Push(Complete(id, Completion.Rejected))
    }

    function FailActive(): PairingState {
      (if active.Some? && active.value.phase != Phase.Creating
       then Push(Complete(active.value.invitation.rendezvousId, Completion.Rejected))
       else this).Finish(Status.Failed, true)
    }

    function Tick(nowMs: U64): PairingState {
      if active.None? || nowMs < active.value.invitation.expiresAtMs then this
      else Abandon().Finish(Status.Expired, false)
    }

    function ReturnToIdle(): (PairingState, Option<PairingError>) {
      if active.Some? || status.state in {Status.Idle, Status.Creating, Status.Inviting, VerifyingController, WaitingLocalDecision}
      then (this, Some(InvalidState))
      else
        var next := SaturatingAdd(revision, 1);
        (this.(terminalRendezvousId := None, revision := next, status := IdleSnapshot(next)), None)
    }

    function Start(crypto: Crypto, kind: Kind, endpoint: string, endpointValid: bool, nowMs: U64, draw: Draw)
      : (PairingState, Option<PairingError>)
    {
      if !signalingConnected || active.Some? then (this, Some(InvalidState))
      else
        var (idle, refused) := if status.state != Status.Idle then ReturnToIdle() else (this, None);
        if refused.Some? then (idle, refused)
        else if kind == Kind.Unspecified || !endpointValid then (idle, Some(InvalidInput))
        else
          match CheckedAdd(nowMs, RENDEZVOUS_LIFETIME_MS)
          case None => (idle, Some(InvalidInput))
          case Some(expiresAt) =>
            if draw.rendezvousId.None? || draw.privateKey.None? then (idle, Some(Random))
            else
              match crypto.publicKey(draw.privateKey.value)
              case None => (idle, Some(Authentication))
              case Some(public) =>
                if kind == DesktopCode && draw.pairingCode.None? then (idle, Some(Random))
                else
                  var id, code := draw.rendezvousId.value, if kind == DesktopCode then draw.pairingCode.value else "";
                  var invitation := Invitation(kind, id, public, endpoint, code, nowMs, expiresAt);
                  (idle.(active := Some(ActivePairing(Phase.Creating, invitation, 0, draw.privateKey.value, None, None, [], None, [])),
                         terminalRendezvousId := None)
                       .Push(Create(id, kind, code))
                       .PublishActive(Status.Creating),
                   None)
    }

    function HandleCreated(id: Octets, kind: Kind, serverExpiresAtMs: U64, nowMs: U64): (PairingState, Option<PairingError>) {
      if active.None? && pendingCancelledCreate == Some(id) then
        (this.(pendingCancelledCreate := None).Push(Complete(id, Completion.Rejected)), None)
      else if active.None? then (this, Some(InvalidState))
      else
        var a := active.value;
        if a.phase != Phase.Creating || a.invitation.rendezvousId != id || a.invitation.kind != kind || serverExpiresAtMs <= nowMs
        then (this, Some(InvalidState))
        else
          var expiresAt := if serverExpiresAtMs < a.invitation.expiresAtMs then serverExpiresAtMs else a.invitation.expiresAtMs;
          (this.(active := Some(a.(serverExpiresAtMs := serverExpiresAtMs, phase := Phase.Inviting,
                                   invitation := a.invitation.(expiresAtMs := expiresAt)))).PublishActive(Status.Inviting),
           None)
    }

    function HandleJoined(id: Octets, peer: Octets, serverExpiresAtMs: U64, nowMs: U64): (PairingState, Option<PairingError>) {
      if active.None? then (this, Some(InvalidState))
      else
        var a := active.value;
        if a.phase != Phase.Inviting || a.invitation.rendezvousId != id || a.serverExpiresAtMs != serverExpiresAtMs
           || a.invitation.expiresAtMs <= nowMs || peer == hostDeviceId
        then (this, Some(InvalidState))
        else
          var joined := this.(active := Some(a.(peerDeviceId := Some(peer), phase := WaitingHello)));
          ((if a.invitation.kind == DesktopCode then joined.Push(Relay(id, HostInvitation(a.invitation))) else joined)
             .PublishActive(VerifyingController),
           None)
    }

    function HandleHello(crypto: Crypto, sender: Octets, envelope: Octets): (PairingState, Option<PairingError>)
      requires active.Some?
    {
      var a := active.value;
      match crypto.verifyHello(envelope, sender, a.invitation.rendezvousId, a.privateKey, a.invitation.ephemeralPublicKey)
      case None => (this, Some(Authentication))
      case Some(hello) =>
        match crypto.sign(hello.transcript)
        case None => (this, Some(Authentication))
        case Some(signature) =>
          var proof := HostProof(hello.digest, signature, a.invitation.expiresAtMs);
          var words := if a.invitation.kind == DesktopCode then crypto.sasWords(hello.digest) else Some([]);
          if !crypto.seals(hello.keys.hostToController, 1, proof) || words.None? then (this, Some(Authentication))
          else
            (this.(active := Some(a.(controller := Some(hello.controller), transcriptDigest := hello.digest,
                                     keys := Some(hello.keys), sasWords := words.value, phase := WaitingReady)))
                 .Push(Relay(a.invitation.rendezvousId, Sealed(hello.keys.hostToController, 1, proof))),
             None)
    }

    function HandleReady(crypto: Crypto, envelope: Octets): (PairingState, Option<PairingError>)
      requires active.Some?
    {
      var a := active.value;
      if a.controller.None? || a.keys.None? then (this, Some(Authentication))
      else
        var digest := crypto.openReady(a.keys.value.controllerToHost, a.invitation.rendezvousId, a.controller.value.deviceId, envelope);
        if digest != Some(a.transcriptDigest) then (this, Some(Authentication))
        else (this.(active := Some(a.(phase := WaitingDecision))).PublishActive(WaitingLocalDecision), None)
    }

    function HandleRoutedInner(crypto: Crypto, id: Octets, sender: Octets, envelope: Octets): (PairingState, Option<PairingError>) {
      if active.None? then (this, Some(InvalidState))
      else if active.value.invitation.rendezvousId != id || active.value.peerDeviceId != Some(sender)
      then (this, Some(Authentication))
      else
        match active.value.phase
        case WaitingHello => HandleHello(crypto, sender, envelope)
        case WaitingReady => HandleReady(crypto, envelope)
        case _ => (this, Some(Authentication))
    }

    function HandleRouted(crypto: Crypto, id: Octets, sender: Octets, envelope: Octets): (PairingState, Option<PairingError>) {
      var (next, error) := HandleRoutedInner(crypto, id, sender, envelope);
      (if error.Some? && next.active.Some? then next.FailActive() else next, error)
    }

    function HandleClosed(id: Octets, completion: Completion): (PairingState, Option<PairingError>) {
      if terminalRendezvousId == Some(id) then (this, None)
      else if active.None? || active.value.invitation.rendezvousId != id then (this, Some(InvalidState))
      else (Finish(StateAfter(completion), StateAfter(completion).Failed?), None)
    }

    function HandleEvent(crypto: Crypto, event: SignalingEvent, nowMs: U64): (PairingState, Option<PairingError>) {
      var st := Tick(nowMs);
      match event
      case PairingCreated(id, kind, expiresAt) => st.HandleCreated(id, kind, expiresAt, nowMs)
      case PairingJoined(id, peer, expiresAt) => st.HandleJoined(id, peer, expiresAt, nowMs)
      case RoutedPairing(id, sender, envelope) => st.HandleRouted(crypto, id, sender, envelope)
      case PairingClosed(id, completion) => st.HandleClosed(id, completion)
      case RemoteError => if st.active.Some? then (st.FailActive(), None) else (st, Some(InvalidState))
      case OtherEvent => (st, Some(InvalidState))
    }

    function EnsureWaitingDecision(id: Octets, controllerId: Octets, nowMs: U64): (PairingState, Option<PairingError>) {
      var st := Tick(nowMs);
      if st.active.None? then (st, Some(if st.status.state == Status.Expired then PairingError.Expired else InvalidState))
      else
        var a := st.active.value;
        if a.phase != WaitingDecision || a.invitation.rendezvousId != id || a.controller.None? || a.controller.value.deviceId != controllerId
        then (st, Some(InvalidState))
        else (st, None)
    }

    /** The controller `accept` asks the registry to grant, if it gets that far. */
    function Asks(id: Octets, controllerId: Octets, nowMs: U64): Option<Device> {
      var (st, error) := EnsureWaitingDecision(id, controllerId, nowMs);
      if error.Some? then None else st.active.value.controller
    }

    function Decide(crypto: Crypto, accepted: bool, grant: Option<Grant>): (PairingState, Option<PairingError>)
      requires active.Some?
    {
      var a := active.value;
      if a.controller.None? || a.keys.None? then (this, Some(InvalidState))
      else
        var key, id := a.keys.value.hostToController, a.invitation.rendezvousId;
        var decision := FinalDecision(accepted, a.transcriptDigest, grant);
        if !crypto.seals(key, 2, decision) then (this, Some(Authentication))
        else
          (Push(Relay(id, Sealed(key, 2, decision)))
             .Push(Complete(id, if accepted then Succeeded else Completion.Rejected))
             .Finish(if accepted then Accepted else Status.Rejected, false),
           None)
    }

    /** `answer` is the registry's: the grant, or nothing if it refused.  A grant stays even if sealing then fails. */
    function Accept(crypto: Crypto, id: Octets, controllerId: Octets, answer: Option<Grant>, nowMs: U64): (PairingState, Option<PairingError>) {
      var (st, error) := EnsureWaitingDecision(id, controllerId, nowMs);
      if error.Some? then (st, error)
      else if answer.None? then (st.FailActive(), Some(Authorization))
      else st.Decide(crypto, true, answer)
    }

    function Reject(crypto: Crypto, id: Octets, controllerId: Octets, nowMs: U64): (PairingState, Option<PairingError>) {
      var (st, error) := EnsureWaitingDecision(id, controllerId, nowMs);
      if error.Some? then (st, error) else st.Decide(crypto, false, None)
    }

    function Cancel(id: Octets): (PairingState, Option<PairingError>) {
      if active.None? || active.value.invitation.rendezvousId != id then (this, Some(InvalidState))
      else (Abandon().Finish(Status.Cancelled, false), None)
    }

    function SignalingConnected(): PairingState {
      this.(signalingConnected := true)
    }

    function SignalingLost(): PairingState {
      var st := this.(signalingConnected := false, pendingCancelledCreate := None);
      if active.Some? then st.Finish(Status.Failed, true) else st
    }

    function Shutdown(): PairingState {
      var st := this.(signalingConnected := false, pendingCancelledCreate := None, outbound := []);
      if active.Some? then st.Finish(Status.Cancelled, false) else st
    }

    function TakeOutbound(): PairingState {
      this.(outbound := [])
    }
  }

  function Initial(hostDeviceId: Octets): PairingState {
    PairingState(hostDeviceId, false, 0, IdleSnapshot(0), None, None, None, [], [])
  }

  class HostPairingCoordinator {
    const hostDeviceId: Octets
    const crypto: Crypto
    var signalingConnected: bool
    var revision: U64
    var status: Snapshot
    var active: Option<ActivePairing>
    var terminalRendezvousId: Option<Octets>
    var pendingCancelledCreate: Option<Octets>
    var outbound: seq<Outbound>
    ghost var queued: seq<Outbound>

    ghost function View(): PairingState
      reads this
    {
      PairingState(hostDeviceId, signalingConnected, revision, status, active, terminalRendezvousId, pendingCancelledCreate, outbound, queued)
    }

    /** The Host identity is already validated. */
    constructor (hostDeviceId: Octets, crypto: Crypto)
      ensures this.crypto == crypto && View() == Initial(hostDeviceId)
    {
      this.hostDeviceId, this.crypto := hostDeviceId, crypto;
      signalingConnected, revision, status := false, 0, IdleSnapshot(0);
      active, terminalRendezvousId, pendingCancelledCreate, outbound, queued := None, None, None, [], [];
    }

    method SignalingConnected()
      modifies this`signalingConnected
      ensures View() == old(View()).SignalingConnected()
    {
      signalingConnected := true;
    }

    method Push(out: Outbound)
      modifies this`outbound, this`queued
      ensures View() == old(View()).Push(out)
    {
      outbound := outbound + [out];
      queued := queued + [out];
    }

    method PublishActive(state: Status)
      requires active.Some?
      modifies this`revision, this`status
      ensures View() == old(View()).PublishActive(state)
    {
      revision := SaturatingAdd(revision, 1);
      var waiting := state == WaitingLocalDecision;
      status := Snapshot(state, revision, Some(active.value.invitation),
                         if waiting then active.value.controller else None,
                         if waiting then active.value.sasWords else [],
                         active.value.invitation.expiresAtMs, false);
    }

    method Finish(state: Status, failed: bool)
      modifies this`active, this`terminalRendezvousId, this`revision, this`status
      ensures View() == old(View()).Finish(state, failed)
    {
      if active.Some? {
        terminalRendezvousId := Some(active.value.invitation.rendezvousId);
      }
      active := None;
      revision := SaturatingAdd(revision, 1);
      status := Snapshot(state, revision, None, None, [], 0, failed);
    }

    method Abandon()
      requires active.Some?
      modifies this`pendingCancelledCreate, this`outbound, this`queued
      ensures View() == old(View()).Abandon()
    {
      var id := active.value.invitation.rendezvousId;
      if active.value.phase == Phase.Creating {
        pendingCancelledCreate := Some(id);
      } else {
        Push(Complete(id, Completion.Rejected));
      }
    }

    method FailActive()
      modifies this
      ensures View() == old(View()).FailActive()
    {
      if active.Some? && active.value.phase != Phase.Creating {
        Push(Complete(active.value.invitation.rendezvousId, Completion.Rejected));
      }
      Finish(Status.Failed, true);
    }

    method Tick(nowMs: U64)
      modifies this
      ensures View() == old(View()).Tick(nowMs)
    {
      if active.None? {
        return;
      }
      if nowMs < active.value.invitation.expiresAtMs {
        return;
      }
      Abandon();
      Finish(Status.Expired, false);
    }

    method ReturnToIdle() returns (r: Option<PairingError>)
      modifies this`terminalRendezvousId, this`revision, this`status
      ensures (View(), r) == old(View()).ReturnToIdle()
    {
      if active.Some? || status.state in {Status.Idle, Status.Creating, Status.Inviting, VerifyingController, WaitingLocalDecision} {
        return Some(InvalidState);
      }
      terminalRendezvousId := None;
      revision := SaturatingAdd(revision, 1);
      status := IdleSnapshot(revision);
      r := None;
    }

    method Start(kind: Kind, endpoint: string, endpointValid: bool, nowMs: U64, draw: Draw) returns (r: Option<PairingError>)
      modifies this
      ensures (View(), r) == old(View()).Start(crypto, kind, endpoint, endpointValid, nowMs, draw)
    {
      if !signalingConnected || active.Some? {
        return Some(InvalidState);
      }
      if status.state != Status.Idle {
        r := ReturnToIdle();
        if r.Some? {
          return;
        }
      }
      if kind == Kind.Unspecified || !endpointValid {
        return Some(InvalidInput);
      }
      var expiresAtMs := CheckedAdd(nowMs, RENDEZVOUS_LIFETIME_MS);
      if expiresAtMs.None? {
        return Some(InvalidInput);
      }
      if draw.rendezvousId.None? || draw.privateKey.None? {
        return Some(Random);
      }
      var public := crypto.publicKey(draw.privateKey.value);
      if public.None? {
        return Some(Authentication);
      }
      var code := "";
      if kind == DesktopCode {
        if draw.pairingCode.None? {
          return Some(Random);
        }
        code := draw.pairingCode.value;
      }
      var id := draw.rendezvousId.value;
      var invitation := Invitation(kind, id, public.value, endpoint, code, nowMs, expiresAtMs.value);
      active := Some(ActivePairing(Phase.Creating, invitation, 0, draw.privateKey.value, None, None, [], None, []));
      terminalRendezvousId := None;
      Push(Create(id, kind, code));
      PublishActive(Status.Creating);
      r := None;
    }

    method HandleEvent(event: SignalingEvent, nowMs: U64) returns (r: Option<PairingError>)
      modifies this
      ensures (View(), r) == old(View()).HandleEvent(crypto, event, nowMs)
    {
      Tick(nowMs);
      match event
      case PairingCreated(id, kind, expiresAt) => r := HandleCreated(id, kind, expiresAt, nowMs);
      case PairingJoined(id, peer, expiresAt) => r := HandleJoined(id, peer, expiresAt, nowMs);
      case RoutedPairing(id, sender, envelope) => r := HandleRouted(id, sender, envelope);
      case PairingClosed(id, completion) => r := HandleClosed(id, completion);
      case RemoteError =>
        if active.None? {
          return Some(InvalidState);
        }
        FailActive();
        r := None;
      case OtherEvent => r := Some(InvalidState);
    }

    method HandleCreated(id: Octets, kind: Kind, serverExpiresAtMs: U64, nowMs: U64) returns (r: Option<PairingError>)
      modifies this
      ensures (View(), r) == old(View()).HandleCreated(id, kind, serverExpiresAtMs, nowMs)
    {
      if active.None? {
        if pendingCancelledCreate == Some(id) {
          pendingCancelledCreate := None;
          Push(Complete(id, Completion.Rejected));
          return None;
        }
        return Some(InvalidState);
      }
      var a := active.value;
      if a.phase != Phase.Creating || a.invitation.rendezvousId != id || a.invitation.kind != kind || serverExpiresAtMs <= nowMs {
        return Some(InvalidState);
      }
      var expiresAtMs := a.invitation.expiresAtMs;
      if serverExpiresAtMs < expiresAtMs {
        expiresAtMs := serverExpiresAtMs;
      }
      active := Some(a.(serverExpiresAtMs := serverExpiresAtMs, phase := Phase.Inviting,
                        invitation := a.invitation.(expiresAtMs := expiresAtMs)));
      PublishActive(Status.Inviting);
      r := None;
    }

    method HandleJoined(id: Octets, peer: Octets, serverExpiresAtMs: U64, nowMs: U64) returns (r: Option<PairingError>)
      modifies this
      ensures (View(), r) == old(View()).HandleJoined(id, peer, serverExpiresAtMs, nowMs)
    {
      if active.None? {
        return Some(InvalidState);
      }
      var a := active.value;
      if a.phase != Phase.Inviting || a.invitation.rendezvousId != id || a.serverExpiresAtMs != serverExpiresAtMs
         || a.invitation.expiresAtMs <= nowMs || peer == hostDeviceId {
        return Some(InvalidState);
      }
      active := Some(a.(peerDeviceId := Some(peer), phase := WaitingHello));
      if a.invitation.kind == DesktopCode {
        Push(Relay(id, HostInvitation(a.invitation)));
      }
      PublishActive(VerifyingController);
      r := None;
    }

    method HandleRouted(id: Octets, sender: Octets, envelope: Octets) returns (r: Option<PairingError>)
      modifies this
      ensures (View(), r) == old(View()).HandleRouted(crypto, id, sender, envelope)
    {
      r := HandleRoutedInner(id, sender, envelope);
      if r.Some? && active.Some? {
        FailActive();
      }
    }

    method HandleRoutedInner(id: Octets, sender: Octets, envelope: Octets) returns (r: Option<PairingError>)
      modifies this
      ensures (View(), r) == old(View()).HandleRoutedInner(crypto, id, sender, envelope)
    {
      if active.None? {
        return Some(InvalidState);
      }
      if active.value.invitation.rendezvousId != id || active.value.peerDeviceId != Some(sender) {
        return Some(Authentication);
      }
      match active.value.phase
      case WaitingHello => r := HandleHello(sender, envelope);
      case WaitingReady => r := HandleReady(envelope);
      case Creating => r := Some(Authentication);
      case Inviting => r := Some(Authentication);
      case WaitingDecision => r := Some(Authentication);
    }

    method HandleHello(sender: Octets, envelope: Octets) returns (r: Option<PairingError>)
      requires active.Some?
      modifies this
      ensures (View(), r) == old(View()).HandleHello(crypto, sender, envelope)
    {
      var a := active.value;
      var verified := crypto.verifyHello(envelope, sender, a.invitation.rendezvousId, a.privateKey, a.invitation.ephemeralPublicKey);
      if verified.None? {
        return Some(Authentication);
      }
      var hello := verified.value;
      var signature := crypto.sign(hello.transcript);
      if signature.None? {
        return Some(Authentication);
      }
      var proof := HostProof(hello.digest, signature.value, a.invitation.expiresAtMs);
      if !crypto.seals(hello.keys.hostToController, 1, proof) {
        return Some(Authentication);
      }
      var words: seq<string> := [];
      if a.invitation.kind == DesktopCode {
        var derived := crypto.sasWords(hello.digest);
        if derived.None? {
          return Some(Authentication);
        }
        words := derived.value;
      }
      active := Some(a.(controller := Some(hello.controller), transcriptDigest := hello.digest,
                        keys := Some(hello.keys), sasWords := words, phase := WaitingReady));
      Push(Relay(a.invitation.rendezvousId, Sealed(hello.keys.hostToController, 1, proof)));
      r := None;
    }

    method HandleReady(envelope: Octets) returns (r: Option<PairingError>)
      requires active.Some?
      modifies this
      ensures (View(), r) == old(View()).HandleReady(crypto, envelope)
    {
      var a := active.value;
      if a.controller.None? || a.keys.None? {
        return Some(Authentication);
      }
      var digest := crypto.openReady(a.keys.value.controllerToHost, a.invitation.rendezvousId, a.controller.value.deviceId, envelope);
      if digest != Some(a.transcriptDigest) {
        return Some(Authentication);
      }
      active := Some(a.(phase := WaitingDecision));
      PublishActive(WaitingLocalDecision);
      r := None;
    }

    method HandleClosed(id: Octets, completion: Completion) returns (r: Option<PairingError>)
      modifies this
      ensures (View(), r) == old(View()).HandleClosed(id, completion)
    {
      if terminalRendezvousId == Some(id) {
        return None;
      }
      if active.None? || active.value.invitation.rendezvousId != id {
        return Some(InvalidState);
      }
      var state := StateAfter(completion);
      Finish(state, state == Status.Failed);
      r := None;
    }

    method EnsureWaitingDecision(id: Octets, controllerId: Octets, nowMs: U64) returns (r: Option<PairingError>)
      modifies this
      ensures (View(), r) == old(View()).EnsureWaitingDecision(id, controllerId, nowMs)
    {
      Tick(nowMs);
      if active.None? {
        return Some(if status.state == Status.Expired then PairingError.Expired else InvalidState);
      }
      var a := active.value;
      if a.phase != WaitingDecision || a.invitation.rendezvousId != id || a.controller.None? || a.controller.value.deviceId != controllerId {
        return Some(InvalidState);
      }
      r := None;
    }

    method Decide(accepted: bool, grant: Option<Grant>) returns (r: Option<PairingError>)
      requires active.Some?
      modifies this
      ensures (View(), r) == old(View()).Decide(crypto, accepted, grant)
    {
      var a := active.value;
      if a.controller.None? || a.keys.None? {
        return Some(InvalidState);
      }
      var key, id := a.keys.value.hostToController, a.invitation.rendezvousId;
      var decision := FinalDecision(accepted, a.transcriptDigest, grant);
      if !crypto.seals(key, 2, decision) {
        return Some(Authentication);
      }
      Push(Relay(id, Sealed(key, 2, decision)));
      Push(Complete(id, if accepted then Succeeded else Completion.Rejected));
      Finish(if accepted then Accepted else Status.Rejected, false);
      r := None;
    }

    /** `asked` is the controller the registry was asked to grant, `answer` what it answered. */
    method Accept(id: Octets, controllerId: Octets, answer: Option<Grant>, nowMs: U64)
      returns (r: Option<PairingError>, asked: Option<Device>)
      modifies this
      ensures (View(), r) == old(View()).Accept(crypto, id, controllerId, answer, nowMs)
      ensures asked == old(View()).Asks(id, controllerId, nowMs)
    {
      asked := None;
      r := EnsureWaitingDecision(id, controllerId, nowMs);
      if r.Some? {
        return;
      }
      asked := active.value.controller;
      if answer.None? {
        FailActive();
        return Some(Authorization), asked;
      }
      r := Decide(true, answer);
    }

    method Reject(id: Octets, controllerId: Octets, nowMs: U64) returns (r: Option<PairingError>)
      modifies this
      ensures (View(), r) == old(View()).Reject(crypto, id, controllerId, nowMs)
    {
      r := EnsureWaitingDecision(id, controllerId, nowMs);
      if r.None? {
        r := Decide(false, None);
      }
    }

    method Cancel(id: Octets) returns (r: Option<PairingError>)
      modifies this
      ensures (View(), r) == old(View()).Cancel(id)
    {
      if active.None? || active.value.invitation.rendezvousId != id {
        return Some(InvalidState);
      }
      Abandon();
      Finish(Status.Cancelled, false);
      r := None;
    }

    method SignalingLost()
      modifies this
      ensures View() == old(View()).SignalingLost()
    {
      signalingConnected := false;
      pendingCancelledCreate := None;
      if active.Some? {
        Finish(Status.Failed, true);
      }
    }

    method Shutdown()
      modifies this
      ensures View() == old(View()).Shutdown()
    {
      signalingConnected := false;
      pendingCancelledCreate := None;
      outbound := [];
      if active.Some? {
        Finish(Status.Cancelled, false);
      }
    }

    method TakeOutbound() returns (taken: seq<Outbound>)
      modifies this`outbound
      ensures taken == old(outbound) && View() == old(View()).TakeOutbound()
    {
      taken := outbound;
      outbound := [];
    }
  }
}
