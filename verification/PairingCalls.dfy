/** What each call of the pairing coordinator means, on any state it can be made in. */
module PairingCalls {
  import opened Wrappers
  import opened Bytes
  import opened Pairing

  /** The pairing is over: it is remembered as the terminal one, and its end is published. */
  predicate EndsAs(before: PairingState, after: PairingState, state: Status) {
    && before.active.Some? && after.active.None?
    && after.terminalRendezvousId == Some(before.active.value.invitation.rendezvousId)
    && after.status == Snapshot(state, SaturatingAdd(before.revision, 1), None, None, [], 0, state == Status.Failed)
    && after.revision == SaturatingAdd(before.revision, 1)
    && after.hostDeviceId == before.hostDeviceId
  }

  /** The outputs queued by one call, which are also waiting to be taken. */
  predicate Queues(before: PairingState, after: PairingState, out: seq<Outbound>) {
    after.queued == before.queued + out && after.outbound == before.outbound + out
  }

  /** Giving a pairing up: a confirmed one is completed as rejected, an unconfirmed creation is remembered. */
  predicate GivesUp(before: PairingState, after: PairingState, state: Status) {
    && EndsAs(before, after, state)
    && var id := before.active.value.invitation.rendezvousId;
       if before.active.value.phase.Creating? then Queues(before, after, []) && after.pendingCancelledCreate == Some(id)
       else Queues(before, after, [Complete(id, Completion.Rejected)]) && after.pendingCancelledCreate == before.pendingCancelledCreate
  }

  predicate Overdue(st: PairingState, nowMs: U64) {
    st.active.Some? && st.active.value.invitation.expiresAtMs <= nowMs
  }

  lemma TickIff(st: PairingState, nowMs: U64)
    ensures var next := st.Tick(nowMs);
            if Overdue(st, nowMs) then GivesUp(st, next, Status.Expired) && next.signalingConnected == st.signalingConnected else next == st
  {
  }

  /** A pairing starts exactly when signaling is up, none is active, the request is good and randomness is at hand. */
  lemma StartIff(st: PairingState, crypto: Crypto, kind: Kind, endpoint: string, endpointValid: bool, nowMs: U64, draw: Draw)
    requires st.active.None? ==> st.status.state !in {Status.Creating, Status.Inviting, VerifyingController, WaitingLocalDecision}
    ensures var (next, error) := st.Start(crypto, kind, endpoint, endpointValid, nowMs, draw);
            && (error.None? <==>
                  && st.signalingConnected && st.active.None? && kind != Kind.Unspecified && endpointValid
                  && nowMs as int + 120_000 <= U64_MAX && draw.rendezvousId.Some? && draw.privateKey.Some?
                  && crypto.publicKey(draw.privateKey.value).Some? && (kind == DesktopCode ==> draw.pairingCode.Some?))
            && (error.None? ==>
                  && next.active.Some?
                  && var a := next.active.value;
                     && a.invitation == Invitation(kind, draw.rendezvousId.value, crypto.publicKey(draw.privateKey.value).value, endpoint,
                                                   if kind == DesktopCode then draw.pairingCode.value else "", nowMs, nowMs as int + 120_000)
                     && a == ActivePairing(Phase.Creating, a.invitation, 0, draw.privateKey.value, None, None, [], None, [])
                     && Queues(st, next, [Create(a.invitation.rendezvousId, kind, a.invitation.pairingCode)])
                     && next.terminalRendezvousId.None? && next.pendingCancelledCreate == st.pendingCancelledCreate
                     && next.status.state == Status.Creating && next.status.invitation == Some(a.invitation))
            && (error.Some? ==> next.active == st.active && Queues(st, next, []))
            && (error == Some(InvalidState) <==> !st.signalingConnected || st.active.Some?)
            && (error == Some(InvalidInput) ==> kind == Kind.Unspecified || !endpointValid || nowMs as int + 120_000 > U64_MAX)
            && (error == Some(Random) ==> draw.rendezvousId.None? || draw.privateKey.None? || (kind == DesktopCode && draw.pairingCode.None?))
            && (error == Some(Authentication) ==> draw.privateKey.Some? && crypto.publicKey(draw.privateKey.value).None?)
            && (error.Some? ==> error.value in {InvalidState, InvalidInput, Random, Authentication})
            && (error == Some(InvalidState) || (error.Some? && st.status.state.Idle?) ==> next == st)
            && (error.Some? && error != Some(InvalidState) && !st.status.state.Idle? ==> next == st.ReturnToIdle().0 && next.status.state.Idle?)
            && (error.None? ==> next.revision == SaturatingAdd(if st.status.state.Idle? then st.revision else SaturatingAdd(st.revision, 1), 1))
  {
  }

  /** A confirmation counts exactly when it names the creation under way, or one cancelled before it. */
  lemma CreatedIff(st: PairingState, id: Octets, kind: Kind, serverExpiresAtMs: U64, nowMs: U64)
    ensures var (next, error) := st.HandleCreated(id, kind, serverExpiresAtMs, nowMs);
            var late := st.active.None? && st.pendingCancelledCreate == Some(id);
            var confirms := st.active.Some? && st.active.value.phase.Creating? && st.active.value.invitation.rendezvousId == id
                            && st.active.value.invitation.kind == kind && nowMs < serverExpiresAtMs;
            && (error.None? <==> late || confirms)
            && (error.Some? ==> next == st && error == Some(InvalidState))
            && (late ==> next.active.None? && next.pendingCancelledCreate.None? && Queues(st, next, [Complete(id, Completion.Rejected)])
                         && next.status == st.status)
            && (confirms ==>
                  && next.active.Some? && Queues(st, next, []) && next.status.state == Status.Inviting
                  && var a, b := st.active.value, next.active.value;
                     && b == a.(phase := Phase.Inviting, serverExpiresAtMs := serverExpiresAtMs, invitation := b.invitation)
                     && b.invitation == a.invitation.(expiresAtMs := b.invitation.expiresAtMs)
                     && b.invitation.expiresAtMs <= serverExpiresAtMs && b.invitation.expiresAtMs <= a.invitation.expiresAtMs
                     && b.invitation.expiresAtMs in {serverExpiresAtMs, a.invitation.expiresAtMs})
  {
  }

  /** One other device joins, a confirmed invitation, before its deadline; a desktop code is then sent its invitation. */
  lemma JoinedIff(st: PairingState, id: Octets, peer: Octets, serverExpiresAtMs: U64, nowMs: U64)
    ensures var (next, error) := st.HandleJoined(id, peer, serverExpiresAtMs, nowMs);
            && (error.None? <==>
                  && st.active.Some? && st.active.value.phase.Inviting? && st.active.value.invitation.rendezvousId == id
                  && st.active.value.serverExpiresAtMs == serverExpiresAtMs && nowMs < st.active.value.invitation.expiresAtMs
                  && peer != st.hostDeviceId)
            && (error.Some? ==> next == st && error == Some(InvalidState))
            && (error.None? ==>
                  && next.active == Some(st.active.value.(peerDeviceId := Some(peer), phase := WaitingHello))
                  && Queues(st, next, if st.active.value.invitation.kind == DesktopCode
                                      then [Relay(id, HostInvitation(st.active.value.invitation))] else [])
                  && next.status.state == VerifyingController)
  {
  }

  /** A hello from the joined peer that verifies, can be answered, and whose words can be derived. */
  predicate GoodHello(st: PairingState, crypto: Crypto, sender: Octets, envelope: Octets)
    requires st.active.Some?
  {
    var a := st.active.value;
    var hello := crypto.verifyHello(envelope, sender, a.invitation.rendezvousId, a.privateKey, a.invitation.ephemeralPublicKey);
    && a.phase.WaitingHello? && hello.Some? && crypto.sign(hello.value.transcript).Some?
    && crypto.seals(hello.value.keys.hostToController, 1,
                    HostProof(hello.value.digest, crypto.sign(hello.value.transcript).value, a.invitation.expiresAtMs))
    && (a.invitation.kind == DesktopCode ==> crypto.sasWords(hello.value.digest).Some?)
  }

  /** A ready message that opens, under the hello's key, to the hello's digest. */
  predicate GoodReady(st: PairingState, crypto: Crypto, envelope: Octets)
    requires st.active.Some?
  {
    var a := st.active.value;
    && a.phase.WaitingReady? && a.controller.Some? && a.keys.Some?
    && crypto.openReady(a.keys.value.controllerToHost, a.invitation.rendezvousId, a.controller.value.deviceId, envelope) == Some(a.transcriptDigest)
  }

  /** A relayed message is taken exactly from the joined peer, for this rendezvous, in its turn; any other ends the pairing. */
  lemma RoutedIff(st: PairingState, crypto: Crypto, id: Octets, sender: Octets, envelope: Octets)
    ensures var (next, error) := st.HandleRouted(crypto, id, sender, envelope);
            && (st.active.None? ==> next == st && error == Some(InvalidState))
            && (st.active.Some? ==>
                  var named := st.active.value.invitation.rendezvousId == id && st.active.value.peerDeviceId == Some(sender);
                  && (error.None? <==> named && (GoodHello(st, crypto, sender, envelope) || GoodReady(st, crypto, envelope)))
                  && (error.Some? ==>
                        && error == Some(Authentication) && EndsAs(st, next, Status.Failed)
                        && Queues(st, next, if st.active.value.phase.Creating? then [] else [Complete(st.active.value.invitation.rendezvousId, Completion.Rejected)]))
                  && (error.None? && st.active.value.phase.WaitingReady? ==>
                        && next.active == Some(st.active.value.(phase := WaitingDecision)) && Queues(st, next, [])
                        && next.status.state == WaitingLocalDecision)
                  && (error.None? && st.active.value.phase.WaitingHello? ==>
                        && next.active.Some? && next.active.value.phase.WaitingReady? && next.status == st.status
                        && |next.queued| == |st.queued| + 1))
  {
  }

  /** The server's end of a rendezvous ends the pairing on it; a second one is ignored, any other refused. */
  lemma ClosedIff(st: PairingState, id: Octets, completion: Completion)
    ensures var (next, error) := st.HandleClosed(id, completion);
            && (st.terminalRendezvousId == Some(id) ==> next == st && error.None?)
            && (st.terminalRendezvousId != Some(id) ==>
                  && (error.None? <==> st.active.Some? && st.active.value.invitation.rendezvousId == id)
                  && (error.Some? ==> next == st && error == Some(InvalidState))
                  && (error.None? ==>
                        && Queues(st, next, [])
                        && EndsAs(st, next, if completion.Rejected? then Status.Rejected else if completion.Expired? then Status.Expired else Status.Failed)))
  {
  }

  /** A decision can be taken, by `accept` and `reject` alike: in time, on the controller that is waiting for it. */
  predicate Decidable(st: PairingState, id: Octets, controllerId: Octets, nowMs: U64) {
    && st.active.Some? && nowMs < st.active.value.invitation.expiresAtMs && st.active.value.phase.WaitingDecision?
    && st.active.value.invitation.rendezvousId == id
    && st.active.value.controller.Some? && st.active.value.controller.value.deviceId == controllerId
  }

  predicate Sealable(st: PairingState, crypto: Crypto, accepted: bool, grant: Option<Grant>)
    requires st.active.Some?
  {
    st.active.value.keys.Some?
    && crypto.seals(st.active.value.keys.value.hostToController, 2, FinalDecision(accepted, st.active.value.transcriptDigest, grant))
  }

  /** The sealed decision and the completion it comes with. */
  predicate Announces(st: PairingState, next: PairingState, accepted: bool, grant: Option<Grant>)
    requires st.active.Some? && st.active.value.keys.Some?
  {
    var a := st.active.value;
    Queues(st, next, [Relay(a.invitation.rendezvousId,
                            Sealed(a.keys.value.hostToController, 2, FinalDecision(accepted, a.transcriptDigest, grant))),
                      Complete(a.invitation.rendezvousId, if accepted then Succeeded else Completion.Rejected)])
  }

  /**
   * An acceptance succeeds exactly when it can be decided, the registry grants and the
   * decision can be sealed; it then announces the grant.  A refusal of the registry fails
   * the pairing; what cannot be decided changes nothing, unless it is overdue.
   */
  lemma AcceptIff(st: PairingState, crypto: Crypto, id: Octets, controllerId: Octets, answer: Option<Grant>, nowMs: U64)
    ensures var (next, error) := st.Accept(crypto, id, controllerId, answer, nowMs);
            && (error.None? <==> Decidable(st, id, controllerId, nowMs) && answer.Some? && Sealable(st, crypto, true, answer))
            && (error.None? ==> EndsAs(st, next, Accepted) && Announces(st, next, true, answer))
            && (Decidable(st, id, controllerId, nowMs) && answer.None? ==>
                  error == Some(Authorization) && EndsAs(st, next, Status.Failed) && Queues(st, next, [Complete(id, Completion.Rejected)]))
            && (Decidable(st, id, controllerId, nowMs) && answer.Some? && error.Some? ==> next == st)
            && (!Decidable(st, id, controllerId, nowMs) ==>
                  && next == st.Tick(nowMs)
                  && error == Some(if next.active.None? && next.status.state.Expired? then PairingError.Expired else InvalidState))
            && (st.Asks(id, controllerId, nowMs).Some? <==> Decidable(st, id, controllerId, nowMs))
            && (st.Asks(id, controllerId, nowMs).Some? ==> st.Asks(id, controllerId, nowMs) == st.active.value.controller)
  {
  }

  lemma RejectIff(st: PairingState, crypto: Crypto, id: Octets, controllerId: Octets, nowMs: U64)
    ensures var (next, error) := st.Reject(crypto, id, controllerId, nowMs);
            && (error.None? <==> Decidable(st, id, controllerId, nowMs) && Sealable(st, crypto, false, None))
            && (error.None? ==> EndsAs(st, next, Status.Rejected) && Announces(st, next, false, None))
            && (Decidable(st, id, controllerId, nowMs) && error.Some? ==> next == st)
            && (!Decidable(st, id, controllerId, nowMs) ==>
                  && next == st.Tick(nowMs)
                  && error == Some(if next.active.None? && next.status.state.Expired? then PairingError.Expired else InvalidState))
  {
  }

  /** Every way to give up or to lose the connection, with its whole effect. */
  lemma EndingsIff(st: PairingState, id: Octets)
    ensures var (next, error) := st.Cancel(id);
            && (error.None? <==> st.active.Some? && st.active.value.invitation.rendezvousId == id)
            && (if error.None? then GivesUp(st, next, Status.Cancelled) && next.signalingConnected == st.signalingConnected else next == st)
    ensures var next := st.SignalingLost();
            && !next.signalingConnected && next.pendingCancelledCreate.None? && Queues(st, next, [])
            && (if st.active.Some? then EndsAs(st, next, Status.Failed) else next.status == st.status && next.active.None?)
    ensures var next := st.Shutdown();
            && !next.signalingConnected && next.pendingCancelledCreate.None? && next.outbound == [] && next.queued == st.queued
            && (if st.active.Some? then EndsAs(st, next, Status.Cancelled) else next.status == st.status && next.active.None?)
    ensures st.SignalingConnected() == st.(signalingConnected := true) && st.TakeOutbound() == st.(outbound := [])
  {
  }

  /** Only a finished pairing returns to idle. */
  lemma ReturnIff(st: PairingState)
    ensures var (next, error) := st.ReturnToIdle();
            && (error.None? <==> st.active.None? && IsFinal(st.status.state))
            && (error.Some? ==> next == st)
            && (error.None? ==>
                  && next == st.(terminalRendezvousId := None, revision := SaturatingAdd(st.revision, 1), status := next.status)
                  && next.status == Snapshot(Status.Idle, next.revision, None, None, [], 0, false))
  {
  }

  predicate IsFinal(state: Status) {
    state.Accepted? || state.Rejected? || state.Cancelled? || state.Expired? || state.Failed?
  }

  /** An event first ends an overdue pairing, and then is handled by its kind; an error message ends the pairing. */
  lemma EventIff(st: PairingState, crypto: Crypto, event: SignalingEvent, nowMs: U64)
    ensures var ticked := st.Tick(nowMs);
            var handled := st.HandleEvent(crypto, event, nowMs);
            match event
            case PairingCreated(id, kind, expiresAt) => handled == ticked.HandleCreated(id, kind, expiresAt, nowMs)
            case PairingJoined(id, peer, expiresAt) => handled == ticked.HandleJoined(id, peer, expiresAt, nowMs)
            case RoutedPairing(id, sender, envelope) => handled == ticked.HandleRouted(crypto, id, sender, envelope)
            case PairingClosed(id, completion) => handled == ticked.HandleClosed(id, completion)
            case RemoteError =>
              if ticked.active.Some? then
                && handled.1.None? && EndsAs(ticked, handled.0, Status.Failed)
                && Queues(ticked, handled.0, if ticked.active.value.phase.Creating? then []
                                             else [Complete(ticked.active.value.invitation.rendezvousId, Completion.Rejected)])
              else handled == (ticked, Some(InvalidState))
            case OtherEvent => handled == (ticked, Some(InvalidState))
  {
    hide PairingState.Tick;
    hide PairingState.HandleCreated;
    hide PairingState.HandleJoined;
    hide PairingState.HandleRouted;
  }
}
