/** Whole runs of the pairing coordinator: where grants come from, and what is ever sent. */
module PairingRuns {
  import opened Wrappers
  import opened Bytes
  import opened Pairing

  datatype Op =
    | Connect
    | Begin(kind: Kind, endpoint: string, endpointValid: bool, nowMs: U64, draw: Draw)
    | Observe(event: SignalingEvent, nowMs: U64)
    | AcceptOp(id: Octets, controllerId: Octets, answer: Option<Grant>, nowMs: U64)
    | RejectOp(id: Octets, controllerId: Octets, nowMs: U64)
    | CancelOp(id: Octets)
    | TickOp(nowMs: U64)
    | LoseSignaling
    | ShutdownOp
    | GoIdle
    | TakeOutboundOp

  function Step(crypto: Crypto, st: PairingState, op: Op): (PairingState, Option<PairingError>) {
    match op
    case Connect => (st.SignalingConnected(), None)
    case Begin(kind, endpoint, valid, nowMs, draw) => st.Start(crypto, kind, endpoint, valid, nowMs, draw)
    case Observe(event, nowMs) => st.HandleEvent(crypto, event, nowMs)
    case AcceptOp(id, controllerId, answer, nowMs) => st.Accept(crypto, id, controllerId, answer, nowMs)
    case RejectOp(id, controllerId, nowMs) => st.Reject(crypto, id, controllerId, nowMs)
    case CancelOp(id) => st.Cancel(id)
    case TickOp(nowMs) => (st.Tick(nowMs), None)
    case LoseSignaling => (st.SignalingLost(), None)
    case ShutdownOp => (st.Shutdown(), None)
    case GoIdle => st.ReturnToIdle()
    case TakeOutboundOp => (st.TakeOutbound(), None)
  }

  // ---- Where grants come from ----

  /** What an observer of the calls and their results writes down: operations that succeeded, and grants created. */
  datatype Milestone =
    | Started(id: Octets, kind: Kind, secret: Octets, public: Octets, nowMs: U64)
    | Created(id: Octets, serverExpiresAtMs: U64)
    | Joined(id: Octets, peer: Octets)
    | Routed(id: Octets, sender: Octets, envelope: Octets)
    | Granted(id: Octets, controller: Device, nowMs: U64)

  function Milestones(crypto: Crypto, st: PairingState, op: Op): seq<Milestone> {
    var error := Step(crypto, st, op).1;
    match op
    case Begin(kind, _, _, nowMs, Draw(Some(id), Some(secret), _)) =>
      if error.None? && crypto.publicKey(secret).Some? then [Started(id, kind, secret, crypto.publicKey(secret).value, nowMs)] else []
    case Observe(PairingCreated(id, _, expiresAt), _) => if error.None? then [Created(id, expiresAt)] else []
    case Observe(PairingJoined(id, peer, _), _) => if error.None? then [Joined(id, peer)] else []
    case Observe(RoutedPairing(id, sender, envelope), _) => if error.None? then [Routed(id, sender, envelope)] else []
    case AcceptOp(id, controllerId, Some(_), nowMs) =>
      (match st.Asks(id, controllerId, nowMs)
       case Some(controller) => [Granted(id, controller, nowMs)]
       case None => [])
    case _ => []
  }

  datatype Run = Run(st: PairingState, log: seq<Milestone>)

  function RunOf(crypto: Crypto, hostDeviceId: Octets, ops: seq<Op>): Run
    decreases |ops|
  {
    if ops == [] then Run(Initial(hostDeviceId), [])
    else
      var before, op := RunOf(crypto, hostDeviceId, ops[..|ops| - 1]), ops[|ops| - 1];
      Run(Step(crypto, before.st, op).0, before.log + Milestones(crypto, before.st, op))
  }

  /** Positions of the milestones behind one pairing. */
  datatype Trail = Trail(start: nat, created: nat, joined: nat, hello: nat, ready: nat)

  predicate IsStart(log: seq<Milestone>, at: nat, a: ActivePairing) {
    && at < |log|
    && log[at].Started?
    && log[at].id == a.invitation.rendezvousId && log[at].kind == a.invitation.kind
    && log[at].secret == a.privateKey && log[at].public == a.invitation.ephemeralPublicKey
    && forall k | at < k < |log| :: !log[k].Started?
  }

  predicate IsCreated(log: seq<Milestone>, at: nat, a: ActivePairing) {
    at < |log| && log[at] == Created(a.invitation.rendezvousId, a.serverExpiresAtMs)
  }

  predicate IsJoined(log: seq<Milestone>, at: nat, a: ActivePairing) {
    at < |log| && a.peerDeviceId.Some? && log[at] == Joined(a.invitation.rendezvousId, a.peerDeviceId.value)
  }

  /** The words both people compare: derived from the digest for a desktop code, none for a QR code. */
  predicate AreWords(crypto: Crypto, kind: Kind, digest: Octets, words: seq<string>) {
    if kind == DesktopCode then crypto.sasWords(digest) == Some(words) else words == []
  }

  predicate IsHello(crypto: Crypto, log: seq<Milestone>, at: nat, a: ActivePairing) {
    && at < |log| && log[at].Routed? && log[at].id == a.invitation.rendezvousId && Some(log[at].sender) == a.peerDeviceId
    && a.controller.Some? && a.keys.Some?
    && var verified := crypto.verifyHello(log[at].envelope, log[at].sender, a.invitation.rendezvousId, a.privateKey, a.invitation.ephemeralPublicKey);
       && verified.Some?
       && verified.value.controller == a.controller.value
       && verified.value.digest == a.transcriptDigest
       && verified.value.keys == a.keys.value
       && AreWords(crypto, a.invitation.kind, verified.value.digest, a.sasWords)
  }

  predicate IsReady(crypto: Crypto, log: seq<Milestone>, at: nat, a: ActivePairing) {
    && at < |log| && log[at].Routed? && log[at].id == a.invitation.rendezvousId && Some(log[at].sender) == a.peerDeviceId
    && a.controller.Some? && a.keys.Some?
    && crypto.openReady(a.keys.value.controllerToHost, a.invitation.rendezvousId, a.controller.value.deviceId, log[at].envelope)
       == Some(a.transcriptDigest)
  }

  function Deadline(startedAtMs: U64, serverExpiresAtMs: Option<U64>): int {
    var own := startedAtMs as int + RENDEZVOUS_LIFETIME_MS;
    if serverExpiresAtMs.Some? && serverExpiresAtMs.value < own then serverExpiresAtMs.value else own
  }

  function Rank(phase: Phase): nat {
    match phase
    case Creating => 0
    case Inviting => 1
    case WaitingHello => 2
    case WaitingReady => 3
    case WaitingDecision => 4
  }

  /** The active pairing rests on milestones in order, as far as its phase has come. */
  predicate Backed(crypto: Crypto, log: seq<Milestone>, a: ActivePairing, t: Trail) {
    var reached := Rank(a.phase);
    && IsStart(log, t.start, a)
    && a.invitation.expiresAtMs == Deadline(log[t.start].nowMs, if reached >= 1 then Some(a.serverExpiresAtMs) else None)
    && (reached >= 1 ==> t.start < t.created && IsCreated(log, t.created, a))
    && (reached >= 2 ==> t.created < t.joined && IsJoined(log, t.joined, a))
    && (reached >= 3 ==> t.joined < t.hello && IsHello(crypto, log, t.hello, a))
    && (reached >= 4 ==> t.hello < t.ready && IsReady(crypto, log, t.ready, a))
  }

  /** The Host's proof of the hello: its digest and the signature of its transcript, sealed first under the hello's key. */
  predicate Proves(crypto: Crypto, hello: VerifiedHello, invitation: Invitation, out: Outbound) {
    && crypto.sign(hello.transcript).Some?
    && out == Relay(invitation.rendezvousId,
                    Sealed(hello.keys.hostToController, 1,
                           HostProof(hello.digest, crypto.sign(hello.transcript).value, invitation.expiresAtMs)))
  }

  /** Once a hello was handled, its proof has been sent. */
  predicate ProofSent(crypto: Crypto, log: seq<Milestone>, a: ActivePairing, t: Trail, queued: seq<Outbound>) {
    Rank(a.phase) >= 3 ==>
      && t.hello < |log| && log[t.hello].Routed?
      && var hello := crypto.verifyHello(log[t.hello].envelope, log[t.hello].sender, a.invitation.rendezvousId, a.privateKey,
                                         a.invitation.ephemeralPublicKey);
         hello.Some? && exists out <- queued :: Proves(crypto, hello.value, a.invitation, out)
  }

  ghost predicate Grounded(crypto: Crypto, log: seq<Milestone>, st: PairingState) {
    st.active.Some? ==> exists t :: Backed(crypto, log, st.active.value, t) && ProofSent(crypto, log, st.active.value, t, st.queued)
  }

  lemma BackedStays(crypto: Crypto, log: seq<Milestone>, a: ActivePairing, t: Trail, more: seq<Milestone>)
    requires Backed(crypto, log, a, t) && forall m <- more :: !m.Started?
    ensures Backed(crypto, log + more, a, t)
  {
  }

  lemma ProofStays(crypto: Crypto, log: seq<Milestone>, a: ActivePairing, t: Trail, queued: seq<Outbound>, more: seq<Milestone>, later: seq<Outbound>)
    requires ProofSent(crypto, log, a, t, queued) && queued <= later
    ensures ProofSent(crypto, log + more, a, t, later)
  {
    hide Proves;
    assert forall out <- queued :: out in later;
  }

  lemma QueueGrows(crypto: Crypto, st: PairingState, op: Op)
    ensures st.queued <= Step(crypto, st, op).0.queued
  {
    if op.Observe? {
      EventQueueGrows(crypto, st, op.event, op.nowMs);
      hide PairingState.HandleEvent;
    }
  }

  lemma EventQueueGrows(crypto: Crypto, st: PairingState, event: SignalingEvent, nowMs: U64)
    ensures st.queued <= st.HandleEvent(crypto, event, nowMs).0.queued
  {
  }

  lemma StartGrounds(crypto: Crypto, st: PairingState, log: seq<Milestone>, op: Op)
    requires Grounded(crypto, log, st) && op.Begin?
    ensures Grounded(crypto, log + Milestones(crypto, st, op), Step(crypto, st, op).0)
  {
    var next, more := Step(crypto, st, op).0, Milestones(crypto, st, op);
    if more != [] {
      var t := Trail(|log|, 0, 0, 0, 0);
      assert Backed(crypto, log + more, next.active.value, t) && ProofSent(crypto, log + more, next.active.value, t, next.queued);
    } else {
      assert log + more == log;
    }
  }

  /** How one handled event moves the active pairing to its next phase. */
  predicate Follows(crypto: Crypto, a: ActivePairing, m: Milestone, next: ActivePairing) {
    match m
    case Created(id, serverExpiresAtMs) =>
      && a.phase.Creating? && a.invitation.rendezvousId == id
      && next == a.(phase := Phase.Inviting, serverExpiresAtMs := serverExpiresAtMs,
                    invitation := a.invitation.(expiresAtMs := if serverExpiresAtMs < a.invitation.expiresAtMs then serverExpiresAtMs
                                                               else a.invitation.expiresAtMs))
    case Joined(id, peer) =>
      a.phase.Inviting? && a.invitation.rendezvousId == id && next == a.(phase := WaitingHello, peerDeviceId := Some(peer))
    case Routed(id, sender, envelope) =>
      && a.invitation.rendezvousId == id && a.peerDeviceId == Some(sender)
      && if a.phase.WaitingHello? then
           var v := crypto.verifyHello(envelope, sender, id, a.privateKey, a.invitation.ephemeralPublicKey);
           && v.Some? && AreWords(crypto, a.invitation.kind, v.value.digest, next.sasWords)
           && next == a.(phase := WaitingReady, controller := Some(v.value.controller), transcriptDigest := v.value.digest,
                                 keys := Some(v.value.keys), sasWords := next.sasWords)
         else
           && a.phase.WaitingReady? && a.controller.Some? && a.keys.Some? && next == a.(phase := WaitingDecision)
           && crypto.openReady(a.keys.value.controllerToHost, id, a.controller.value.deviceId, envelope) == Some(a.transcriptDigest)
    case _ => false
  }

  lemma FollowingIsBacked(crypto: Crypto, log: seq<Milestone>, a: ActivePairing, t: Trail, m: Milestone, next: ActivePairing)
    requires Backed(crypto, log, a, t) && Follows(crypto, a, m, next)
    ensures var here := |log|;
            Backed(crypto, log + [m], next,
                   if m.Created? then t.(created := here) else if m.Joined? then t.(joined := here)
                   else if next.phase.WaitingReady? then t.(hello := here) else t.(ready := here))
  {
  }

  /** The hello that has just been handled was answered with its proof. */
  predicate AnswersHello(crypto: Crypto, a: ActivePairing, m: Milestone, queued: seq<Outbound>) {
    m.Routed? && a.phase.WaitingHello? ==>
      var hello := crypto.verifyHello(m.envelope, m.sender, m.id, a.privateKey, a.invitation.ephemeralPublicKey);
      hello.Some? && exists out <- queued :: Proves(crypto, hello.value, a.invitation, out)
  }

  lemma RoutedFollows(crypto: Crypto, st: PairingState, id: Octets, sender: Octets, envelope: Octets)
    ensures var (next, error) := st.HandleRouted(crypto, id, sender, envelope);
            var m := Routed(id, sender, envelope);
            next.active.Some? ==>
              && st.active.Some? && error.None?
              && Follows(crypto, st.active.value, m, next.active.value) && AnswersHello(crypto, st.active.value, m, next.queued)
  {
    var next := st.HandleRouted(crypto, id, sender, envelope).0;
    if next.active.Some? && st.active.value.phase.WaitingHello? {
      assert next.queued[|next.queued| - 1] in next.queued;
    }
  }

  lemma FollowingIsProved(crypto: Crypto, log: seq<Milestone>, a: ActivePairing, t: Trail, m: Milestone, next: ActivePairing,
                          queued: seq<Outbound>, later: seq<Outbound>)
    requires Follows(crypto, a, m, next) && AnswersHello(crypto, a, m, later)
    requires ProofSent(crypto, log, a, t, queued) && queued <= later
    ensures var here := |log|;
            ProofSent(crypto, log + [m], next,
                      if m.Created? then t.(created := here) else if m.Joined? then t.(joined := here)
                      else if next.phase.WaitingReady? then t.(hello := here) else t.(ready := here), later)
  {
    hide Proves;
    hide AreWords;
    assert forall out <- queued :: out in later;
  }

  /** An event ends the active pairing, leaves it alone, or moves it on with the milestone noted. */
  lemma EventFollows(crypto: Crypto, st: PairingState, op: Op)
    requires op.Observe?
    ensures var next, more := Step(crypto, st, op).0.active, Milestones(crypto, st, op);
            next.Some? ==>
              && st.active.Some?
              && (|| next == st.active
                  || (|more| == 1 && Follows(crypto, st.active.value, more[0], next.value)
                      && AnswersHello(crypto, st.active.value, more[0], Step(crypto, st, op).0.queued)))
  {
    var ticked := st.Tick(op.nowMs);
    assert ticked.active.Some? ==> ticked == st;
    if op.event.RoutedPairing? {
      RoutedFollows(crypto, ticked, op.event.rendezvousId, op.event.sender, op.event.envelope);
      hide PairingState.HandleRouted;
    }
    hide PairingState.Tick;
  }

  lemma EventGrounds(crypto: Crypto, st: PairingState, log: seq<Milestone>, op: Op)
    requires Grounded(crypto, log, st) && op.Observe?
    ensures Grounded(crypto, log + Milestones(crypto, st, op), Step(crypto, st, op).0)
  {
    var after, more := Step(crypto, st, op).0, Milestones(crypto, st, op);
    var next := after.active;
    EventFollows(crypto, st, op);
    QueueGrows(crypto, st, op);
    assert forall m <- more :: !m.Started?;
    hide Step;
    hide Milestones;
    hide Follows;
    hide AnswersHello;
    if next.Some? {
      var t :| Backed(crypto, log, st.active.value, t) && ProofSent(crypto, log, st.active.value, t, st.queued);
      if next == st.active {
        BackedStays(crypto, log, st.active.value, t, more);
        ProofStays(crypto, log, st.active.value, t, st.queued, more, after.queued);
      } else {
        assert more == [more[0]];
        FollowingIsBacked(crypto, log, st.active.value, t, more[0], next.value);
        FollowingIsProved(crypto, log, st.active.value, t, more[0], next.value, st.queued, after.queued);
      }
    }
    hide Backed;
    hide ProofSent;
  }

  lemma OtherGrounds(crypto: Crypto, st: PairingState, log: seq<Milestone>, op: Op)
    requires Grounded(crypto, log, st) && !op.Begin? && !op.Observe?
    ensures Grounded(crypto, log + Milestones(crypto, st, op), Step(crypto, st, op).0)
  {
    var next, more := Step(crypto, st, op).0, Milestones(crypto, st, op);
    QueueGrows(crypto, st, op);
    if next.active.Some? {
      assert next.active == st.active;
      assert forall m <- more :: !m.Started?;
      hide Step;
      hide Milestones;
      var t :| Backed(crypto, log, st.active.value, t) && ProofSent(crypto, log, st.active.value, t, st.queued);
      BackedStays(crypto, log, st.active.value, t, more);
      ProofStays(crypto, log, st.active.value, t, st.queued, more, next.queued);
    }
    hide Backed;
    hide ProofSent;
  }

  /** The grant at `at` follows the whole exchange, for one rendezvous and one controller, within its deadline. */
  predicate Traced(crypto: Crypto, log: seq<Milestone>, at: nat, t: Trail)
    requires at < |log| && log[at].Granted?
  {
    var id, controller := log[at].id, log[at].controller;
    && t.start < t.created < t.joined < t.hello < t.ready < at
    && log[t.start].Started? && log[t.start].id == id
    && (forall k | t.start < k < at :: !log[k].Started?)
    && log[t.created].Created? && log[t.created].id == id
    && log[t.joined] == Joined(id, controller.deviceId)
    && log[t.hello].Routed? && log[t.hello].id == id && log[t.hello].sender == controller.deviceId
    && log[t.ready].Routed? && log[t.ready].id == id && log[t.ready].sender == controller.deviceId
    && (var hello := crypto.verifyHello(log[t.hello].envelope, controller.deviceId, id, log[t.start].secret, log[t.start].public);
        && hello.Some? && hello.value.controller == controller
        && (log[t.start].kind == DesktopCode ==> crypto.sasWords(hello.value.digest).Some?)
        && crypto.openReady(hello.value.keys.controllerToHost, id, controller.deviceId, log[t.ready].envelope) == Some(hello.value.digest))
    && log[at].nowMs as int < log[t.start].nowMs as int + RENDEZVOUS_LIFETIME_MS
    && log[at].nowMs < log[t.created].serverExpiresAtMs
  }

  ghost predicate AllTraced(crypto: Crypto, log: seq<Milestone>) {
    forall at | 0 <= at < |log| && log[at].Granted? :: exists t :: Traced(crypto, log, at, t)
  }

  /** Appending keeps every trace; an appended grant needs its own. */
  lemma TracedGrows(crypto: Crypto, log: seq<Milestone>, more: seq<Milestone>)
    requires AllTraced(crypto, log) && |more| <= 1
    requires more != [] && more[0].Granted? ==> exists t :: Traced(crypto, log + more, |log|, t)
    ensures AllTraced(crypto, log + more)
  {
    var after := log + more;
    forall at | 0 <= at < |after| && after[at].Granted?
      ensures exists t :: Traced(crypto, after, at, t)
    {
      if at < |log| {
        var t :| Traced(crypto, log, at, t);
        TracedStays(crypto, log, at, t, more);
      }
    }
    hide Traced;
  }

  lemma TracedStays(crypto: Crypto, log: seq<Milestone>, at: nat, t: Trail, more: seq<Milestone>)
    requires at < |log| && log[at].Granted? && Traced(crypto, log, at, t)
    ensures Traced(crypto, log + more, at, t)
  {
  }

  lemma DecisionIsTraced(crypto: Crypto, log: seq<Milestone>, a: ActivePairing, t: Trail, nowMs: U64)
    requires crypto.Sound() && Backed(crypto, log, a, t) && a.phase.WaitingDecision? && a.controller.Some?
    requires nowMs < a.invitation.expiresAtMs
    ensures Traced(crypto, log + [Granted(a.invitation.rendezvousId, a.controller.value, nowMs)], |log|, t)
  {
  }

  lemma AcceptIsTraced(crypto: Crypto, st: PairingState, log: seq<Milestone>, op: Op)
    requires crypto.Sound() && Grounded(crypto, log, st) && op.AcceptOp?
    ensures var more := Milestones(crypto, st, op);
            |more| <= 1 && (more != [] && more[0].Granted? ==> exists t :: Traced(crypto, log + more, |log|, t))
  {
    var more := Milestones(crypto, st, op);
    hide Step;
    if more != [] {
      var a := st.active.value;
      assert st.Tick(op.nowMs) == st && more == [Granted(a.invitation.rendezvousId, a.controller.value, op.nowMs)];
      hide Milestones;
      var t :| Backed(crypto, log, a, t) && ProofSent(crypto, log, a, t, st.queued);
      DecisionIsTraced(crypto, log, a, t, op.nowMs);
    }
    hide Traced;
    hide Backed;
    hide ProofSent;
  }

  lemma {:induction false} RunIsTraced(crypto: Crypto, hostDeviceId: Octets, ops: seq<Op>)
    requires crypto.Sound()
    ensures var run := RunOf(crypto, hostDeviceId, ops);
            Grounded(crypto, run.log, run.st) && AllTraced(crypto, run.log)
    decreases |ops|
  {
    if ops != [] {
      var before, op := RunOf(crypto, hostDeviceId, ops[..|ops| - 1]), ops[|ops| - 1];
      RunIsTraced(crypto, hostDeviceId, ops[..|ops| - 1]);
      if op.AcceptOp? {
        AcceptIsTraced(crypto, before.st, before.log, op);
      }
      TracedGrows(crypto, before.log, Milestones(crypto, before.st, op));
      hide AllTraced;
      if op.Begin? {
        StartGrounds(crypto, before.st, before.log, op);
      } else if op.Observe? {
        EventGrounds(crypto, before.st, before.log, op);
      } else {
        OtherGrounds(crypto, before.st, before.log, op);
      }
      hide Grounded;
      hide Step;
      hide Milestones;
    }
  }

  /**
   * In every run, whatever is called in whatever order, a grant is created for a controller
   * only after, for the same rendezvous and in this order: it was created, the controller
   * joined it, a hello from that controller verified against this invitation's keys, and a
   * ready message from it opened to the hello's transcript digest; and only before both the
   * invitation's own 120,000 ms and the server's expiry are over.
   */
  lemma GrantProvenance(crypto: Crypto, hostDeviceId: Octets, ops: seq<Op>, at: nat)
    requires crypto.Sound()
    requires var log := RunOf(crypto, hostDeviceId, ops).log; at < |log| && log[at].Granted?
    ensures exists t :: Traced(crypto, RunOf(crypto, hostDeviceId, ops).log, at, t)
  {
    RunIsTraced(crypto, hostDeviceId, ops);
  }

  // ---- What the person at the Host is shown ----

  function Shown(phase: Phase): Status {
    match phase
    case Creating => Status.Creating
    case Inviting => Status.Inviting
    case WaitingHello => VerifyingController
    case WaitingReady => VerifyingController
    case WaitingDecision => WaitingLocalDecision
  }

  /** The published status tells the phase, the invitation and its deadline, and, to be decided on, the controller and the words. */
  predicate StatusTells(st: PairingState) {
    && st.status.revision == st.revision
    && match st.active
       case Some(a) =>
         && st.status.state == Shown(a.phase) && !st.status.failed
         && st.status.invitation == Some(a.invitation) && st.status.expiresAtMs == a.invitation.expiresAtMs
         && st.status.pendingController == (if a.phase.WaitingDecision? then a.controller else None)
         && st.status.sasWords == (if a.phase.WaitingDecision? then a.sasWords else [])
       case None =>
         && st.status.state in {Status.Idle, Accepted, Status.Rejected, Status.Cancelled, Status.Expired, Status.Failed}
         && st.status.failed == (st.status.state == Status.Failed)
         && st.status.invitation.None? && st.status.pendingController.None? && st.status.sasWords == [] && st.status.expiresAtMs == 0
  }

  lemma EventTells(crypto: Crypto, st: PairingState, event: SignalingEvent, nowMs: U64)
    requires StatusTells(st)
    ensures StatusTells(st.HandleEvent(crypto, event, nowMs).0)
  {
    var ticked := st.Tick(nowMs);
    assert StatusTells(ticked);
    if event.RoutedPairing? {
      RoutedTells(crypto, ticked, event.rendezvousId, event.sender, event.envelope);
      hide PairingState.HandleRouted;
    }
    hide PairingState.Tick;
  }

  lemma RoutedTells(crypto: Crypto, st: PairingState, id: Octets, sender: Octets, envelope: Octets)
    requires StatusTells(st)
    ensures StatusTells(st.HandleRouted(crypto, id, sender, envelope).0)
  {
  }

  lemma StepTells(crypto: Crypto, st: PairingState, op: Op)
    requires StatusTells(st)
    ensures StatusTells(Step(crypto, st, op).0)
  {
    if op.Observe? {
      EventTells(crypto, st, op.event, op.nowMs);
      hide PairingState.HandleEvent;
    }
  }

  lemma {:induction false} RunTells(crypto: Crypto, hostDeviceId: Octets, ops: seq<Op>)
    ensures StatusTells(RunOf(crypto, hostDeviceId, ops).st)
    decreases |ops|
  {
    if ops != [] {
      RunTells(crypto, hostDeviceId, ops[..|ops| - 1]);
      StepTells(crypto, RunOf(crypto, hostDeviceId, ops[..|ops| - 1]).st, ops[|ops| - 1]);
    }
    hide Step;
    hide StatusTells;
    hide Milestones;
  }

  /**
   * Informed decision: in every run, whenever a local decision is asked for, the controller
   * and the words shown are those of the verified hello the pairing rests on, the words
   * being derived from its digest for a desktop code, and the hello's proof has been sent.
   */
  lemma DecisionIsInformed(crypto: Crypto, hostDeviceId: Octets, ops: seq<Op>)
    requires crypto.Sound()
    requires RunOf(crypto, hostDeviceId, ops).st.status.state == WaitingLocalDecision
    ensures var run := RunOf(crypto, hostDeviceId, ops);
            && run.st.active.Some?
            && exists t ::
                 && Backed(crypto, run.log, run.st.active.value, t)
                 && t.start < |run.log| && run.log[t.start].Started? && t.hello < |run.log| && run.log[t.hello].Routed?
                 && var invitation := run.st.active.value.invitation;
                    var hello := crypto.verifyHello(run.log[t.hello].envelope, run.log[t.hello].sender, invitation.rendezvousId,
                                                    run.log[t.start].secret, run.log[t.start].public);
                    && hello.Some? && run.st.status.pendingController == Some(hello.value.controller)
                    && AreWords(crypto, run.log[t.start].kind, hello.value.digest, run.st.status.sasWords)
                    && exists out <- run.st.queued :: Proves(crypto, hello.value, invitation, out)
  {
    RunIsTraced(crypto, hostDeviceId, ops);
    RunTells(crypto, hostDeviceId, ops);
    var run := RunOf(crypto, hostDeviceId, ops);
    hide RunOf;
    hide AllTraced;
    var t :| Backed(crypto, run.log, run.st.active.value, t) && ProofSent(crypto, run.log, run.st.active.value, t, run.st.queued);
    hide Proves;
    hide AreWords;
  }
}
