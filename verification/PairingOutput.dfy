/** What the pairing coordinator ever sends for one rendezvous, over whole runs. */
module PairingOutput {
  import opened Wrappers
  import opened Bytes
  import opened Pairing
  import opened PairingRuns

  /** How far the outputs for one rendezvous have come. */
  datatype Stage = Nothing | Announced(kind: Kind) | Invited | Proved(key: Octets) | Decided(key: Octets, accepted: bool) | Closed

  /** The only orders in which outputs may follow one another. */
  function Advance(stage: Stage, out: Outbound): Option<Stage> {
    match out
    case Create(_, kind, _) => if stage.Nothing? && kind != Kind.Unspecified then Some(Announced(kind)) else None
    case Relay(_, HostInvitation(_)) => if stage == Announced(DesktopCode) then Some(Invited) else None
    case Relay(_, Sealed(key, sequence, plaintext)) =>
      if sequence == 1 && plaintext.HostProof? && (stage == Announced(Qr) || stage.Invited?) then Some(Proved(key))
      else if sequence == 2 && plaintext.FinalDecision? && stage == Proved(key) then Some(Decided(key, plaintext.accepted))
      else None
    case Complete(_, completion) =>
      if stage.Decided? then (if completion == (if stage.accepted then Succeeded else Completion.Rejected) then Some(Closed) else None)
      else if completion == Completion.Rejected && !stage.Nothing? && !stage.Closed? then Some(Closed)
      else None
  }

  function StageOf(queued: seq<Outbound>, id: Octets): Option<Stage> {
    if queued == [] then Some(Nothing)
    else
      var last, before := queued[|queued| - 1], StageOf(queued[..|queued| - 1], id);
      if last.rendezvousId != id || before.None? then before else Advance(before.value, last)
  }

  ghost predicate Legal(queued: seq<Outbound>) {
    forall id :: StageOf(queued, id).Some?
  }

  lemma PushStage(queued: seq<Outbound>, out: Outbound, id: Octets)
    ensures var before := StageOf(queued, id);
            StageOf(queued + [out], id) == if out.rendezvousId != id || before.None? then before else Advance(before.value, out)
  {
    assert (queued + [out])[..|queued + [out]| - 1] == queued;
  }

  lemma PushKeepsLegal(queued: seq<Outbound>, out: Outbound)
    requires Legal(queued) && Advance(StageOf(queued, out.rendezvousId).value, out).Some?
    ensures Legal(queued + [out])
    ensures StageOf(queued + [out], out.rendezvousId) == Advance(StageOf(queued, out.rendezvousId).value, out)
    ensures forall id :: id != out.rendezvousId ==> StageOf(queued + [out], id) == StageOf(queued, id)
  {
    forall id
      ensures id != out.rendezvousId ==> StageOf(queued + [out], id) == StageOf(queued, id)
      ensures StageOf(queued + [out], id).Some?
    {
      PushStage(queued, out, id);
    }
    PushStage(queued, out, out.rendezvousId);
    hide Advance;
  }

  lemma {:induction false} UnseenIsNothing(queued: seq<Outbound>, id: Octets)
    requires forall out <- queued :: out.rendezvousId != id
    ensures StageOf(queued, id) == Some(Nothing)
    decreases |queued|
  {
    if queued != [] {
      UnseenIsNothing(queued[..|queued| - 1], id);
    }
  }

  /** The stage an active pairing must be at, given its phase. */
  function Expected(a: ActivePairing): Stage
    requires a.phase.WaitingReady? || a.phase.WaitingDecision? ==> a.keys.Some?
  {
    match a.phase
    case Creating => Announced(a.invitation.kind)
    case Inviting => Announced(a.invitation.kind)
    case WaitingHello => if a.invitation.kind == DesktopCode then Invited else Announced(a.invitation.kind)
    case _ => Proved(a.keys.value.hostToController)
  }

  predicate ActiveAgrees(queued: seq<Outbound>, a: ActivePairing) {
    && a.invitation.kind != Kind.Unspecified
    && (a.phase.WaitingReady? || a.phase.WaitingDecision? ==> a.keys.Some?)
    && StageOf(queued, a.invitation.rendezvousId) == Some(Expected(a))
  }

  /** A cancelled creation awaits its confirmation: announced, nothing more. */
  predicate PendingAgrees(queued: seq<Outbound>, pending: Octets, active: Option<ActivePairing>) {
    && StageOf(queued, pending).Some? && StageOf(queued, pending).value.Announced?
    && (active.Some? ==> active.value.invitation.rendezvousId != pending)
  }

  ghost predicate Inv(st: PairingState) {
    && Legal(st.queued)
    && (st.active.Some? ==> ActiveAgrees(st.queued, st.active.value))
    && (st.pendingCancelledCreate.Some? ==> PendingAgrees(st.queued, st.pendingCancelledCreate.value, st.active))
  }

  /** Ending a pairing, with or without a completion, keeps the invariant. */
  lemma AbandonKeeps(st: PairingState, state: Status, failed: bool)
    requires Inv(st) && st.active.Some?
    ensures Inv(st.Abandon().Finish(state, failed)) && Inv(st.FailActive()) && Inv(st.Finish(state, failed))
  {
    GiveUpKeeps(st, state, failed);
    FailActiveKeeps(st);
    hide Inv;
  }

  lemma GiveUpKeeps(st: PairingState, state: Status, failed: bool)
    requires Inv(st) && st.active.Some?
    ensures Inv(st.Abandon().Finish(state, failed)) && Inv(st.Finish(state, failed))
  {
    if !st.active.value.phase.Creating? {
      PushKeepsLegal(st.queued, Complete(st.active.value.invitation.rendezvousId, Completion.Rejected));
    }
    hide StageOf;
    hide Legal;
  }

  lemma FailActiveKeeps(st: PairingState)
    requires Inv(st) && st.active.Some?
    ensures Inv(st.FailActive())
  {
    if !st.active.value.phase.Creating? {
      PushKeepsLegal(st.queued, Complete(st.active.value.invitation.rendezvousId, Completion.Rejected));
    }
    hide StageOf;
    hide Legal;
  }

  lemma TickKeeps(st: PairingState, nowMs: U64)
    requires Inv(st)
    ensures Inv(st.Tick(nowMs))
  {
    if st.active.Some? {
      AbandonKeeps(st, Status.Expired, false);
    }
    hide Inv;
  }

  /** The rendezvous drawn by a start has never been used. */
  predicate Fresh(st: PairingState, op: Op) {
    op.Begin? && op.draw.rendezvousId.Some? ==> forall out <- st.queued :: out.rendezvousId != op.draw.rendezvousId.value
  }

  lemma StartKeeps(crypto: Crypto, st: PairingState, op: Op)
    requires Inv(st) && op.Begin? && Fresh(st, op)
    ensures Inv(Step(crypto, st, op).0)
  {
    var next := Step(crypto, st, op).0;
    if next.queued != st.queued {
      var out := next.queued[|st.queued|];
      UnseenIsNothing(st.queued, out.rendezvousId);
      PushKeepsLegal(st.queued, out);
    }
    hide StageOf;
    hide Legal;
  }

  lemma CreatedKeeps(st: PairingState, id: Octets, kind: Kind, expiresAtMs: U64, nowMs: U64)
    requires Inv(st)
    ensures Inv(st.HandleCreated(id, kind, expiresAtMs, nowMs).0)
  {
    if st.active.None? && st.pendingCancelledCreate == Some(id) {
      PushKeepsLegal(st.queued, Complete(id, Completion.Rejected));
    }
    hide StageOf;
    hide Legal;
  }

  lemma JoinedKeeps(st: PairingState, id: Octets, peer: Octets, expiresAtMs: U64, nowMs: U64)
    requires Inv(st)
    ensures Inv(st.HandleJoined(id, peer, expiresAtMs, nowMs).0)
  {
    var next := st.HandleJoined(id, peer, expiresAtMs, nowMs).0;
    if next.queued != st.queued {
      PushKeepsLegal(st.queued, Relay(id, HostInvitation(st.active.value.invitation)));
    }
    hide StageOf;
    hide Legal;
  }

  lemma HelloKeeps(crypto: Crypto, st: PairingState, sender: Octets, envelope: Octets)
    requires Inv(st) && st.active.Some? && st.active.value.phase.WaitingHello?
    ensures var (next, error) := st.HandleHello(crypto, sender, envelope); Inv(next)
  {
    var next := st.HandleHello(crypto, sender, envelope).0;
    if next.queued != st.queued {
      PushKeepsLegal(st.queued, next.queued[|st.queued|]);
    }
    hide StageOf;
    hide Legal;
  }

  lemma RoutedKeeps(crypto: Crypto, st: PairingState, id: Octets, sender: Octets, envelope: Octets)
    requires Inv(st)
    ensures Inv(st.HandleRouted(crypto, id, sender, envelope).0)
  {
    if st.active.Some? && st.active.value.phase.WaitingHello? {
      HelloKeeps(crypto, st, sender, envelope);
    }
    hide PairingState.HandleHello;
    hide StageOf;
    hide Legal;
    var next := st.HandleRoutedInner(crypto, id, sender, envelope).0;
    assert Inv(next);
    if next.active.Some? {
      AbandonKeeps(next, Status.Failed, true);
    }
  }

  lemma EventKeeps(crypto: Crypto, st: PairingState, event: SignalingEvent, nowMs: U64)
    requires Inv(st)
    ensures Inv(st.HandleEvent(crypto, event, nowMs).0)
  {
    TickKeeps(st, nowMs);
    var ticked := st.Tick(nowMs);
    hide Inv;
    match event
    case PairingCreated(id, kind, expiresAt) => CreatedKeeps(ticked, id, kind, expiresAt, nowMs);
    case PairingJoined(id, peer, expiresAt) => JoinedKeeps(ticked, id, peer, expiresAt, nowMs);
    case RoutedPairing(id, sender, envelope) => RoutedKeeps(crypto, ticked, id, sender, envelope);
    case PairingClosed(id, completion) =>
      if ticked.active.Some? {
        AbandonKeeps(ticked, StateAfter(completion), StateAfter(completion).Failed?);
      }
    case RemoteError =>
      if ticked.active.Some? {
        AbandonKeeps(ticked, Status.Failed, true);
      }
    case OtherEvent =>
  }

  lemma DecideKeeps(crypto: Crypto, st: PairingState, accepted: bool, grant: Option<Grant>)
    requires Inv(st) && st.active.Some? && st.active.value.phase.WaitingDecision?
    ensures Inv(st.Decide(crypto, accepted, grant).0)
  {
    var a := st.active.value;
    if a.keys.Some? {
      var sealed := Relay(a.invitation.rendezvousId, Sealed(a.keys.value.hostToController, 2, FinalDecision(accepted, a.transcriptDigest, grant)));
      PushKeepsLegal(st.queued, sealed);
      PushKeepsLegal(st.queued + [sealed], Complete(a.invitation.rendezvousId, if accepted then Succeeded else Completion.Rejected));
    }
    hide StageOf;
    hide Legal;
  }

  lemma DecisionKeeps(crypto: Crypto, st: PairingState, op: Op)
    requires Inv(st) && (op.AcceptOp? || op.RejectOp?)
    ensures Inv(Step(crypto, st, op).0)
  {
    TickKeeps(st, op.nowMs);
    var (ready, error) := st.EnsureWaitingDecision(op.id, op.controllerId, op.nowMs);
    assert ready == st.Tick(op.nowMs);
    hide Inv;
    if error.None? {
      AbandonKeeps(ready, Status.Failed, true);
      DecideKeeps(crypto, ready, op.AcceptOp?, if op.AcceptOp? then op.answer else None);
    }
    hide PairingState.Decide;
  }

  lemma StepKeeps(crypto: Crypto, st: PairingState, op: Op)
    requires Inv(st) && Fresh(st, op)
    ensures Inv(Step(crypto, st, op).0)
  {
    match op
    case Begin(_, _, _, _, _) => StartKeeps(crypto, st, op); hide Step;
    case Observe(event, nowMs) => EventKeeps(crypto, st, event, nowMs);
    case AcceptOp(_, _, _, _) => DecisionKeeps(crypto, st, op); hide Step;
    case RejectOp(_, _, _) => DecisionKeeps(crypto, st, op); hide Step;
    case TickOp(nowMs) => TickKeeps(st, nowMs);
    case CancelOp(_) =>
      if st.active.Some? {
        AbandonKeeps(st, Status.Cancelled, false);
      }
    case LoseSignaling =>
    case ShutdownOp =>
    case _ =>
  }

  /** Every start of the run draws a rendezvous no earlier output used. */
  predicate FreshDraws(crypto: Crypto, hostDeviceId: Octets, ops: seq<Op>)
    decreases |ops|
  {
    ops != [] ==>
      && FreshDraws(crypto, hostDeviceId, ops[..|ops| - 1])
      && Fresh(RunOf(crypto, hostDeviceId, ops[..|ops| - 1]).st, ops[|ops| - 1])
  }

  lemma {:induction false} RunKeeps(crypto: Crypto, hostDeviceId: Octets, ops: seq<Op>)
    requires FreshDraws(crypto, hostDeviceId, ops)
    ensures Inv(RunOf(crypto, hostDeviceId, ops).st)
    decreases |ops|
  {
    if ops != [] {
      RunKeeps(crypto, hostDeviceId, ops[..|ops| - 1]);
      StepKeeps(crypto, RunOf(crypto, hostDeviceId, ops[..|ops| - 1]).st, ops[|ops| - 1]);
      hide Step;
      hide Inv;
      hide Fresh;
    }
  }

  // ---- What the stages mean for the outputs themselves ----

  function SentFor(queued: seq<Outbound>, id: Octets): seq<Outbound> {
    if queued == [] then []
    else
      var last := queued[|queued| - 1];
      SentFor(queued[..|queued| - 1], id) + (if last.rendezvousId == id then [last] else [])
  }

  predicate IsSealed(out: Outbound) {
    out.Relay? && out.envelope.Sealed?
  }

  /**
   * One rendezvous' outputs: a creation first and only there, a completion last if at all,
   * sealed messages under one key with strictly rising sequence numbers, success only
   * directly after a sealed acceptance.
   */
  predicate Disciplined(sent: seq<Outbound>) {
    CreatedFirst(sent) && CompletedLast(sent) && SealedInOrder(sent) && SuccessIsAccepted(sent)
  }

  predicate CreatedFirst(sent: seq<Outbound>) {
    forall i | 0 <= i < |sent| :: sent[i].Create? <==> i == 0
  }

  predicate CompletedLast(sent: seq<Outbound>) {
    forall i | 0 <= i < |sent| && sent[i].Complete? :: i == |sent| - 1
  }

  predicate SealedInOrder(sent: seq<Outbound>) {
    forall i, j | 0 <= i < j < |sent| && IsSealed(sent[i]) && IsSealed(sent[j]) ::
      sent[i].envelope.key == sent[j].envelope.key && sent[i].envelope.sequence < sent[j].envelope.sequence
  }

  predicate SuccessIsAccepted(sent: seq<Outbound>) {
    forall i | 0 <= i < |sent| && sent[i].Complete? && sent[i].completion == Succeeded ::
      i > 0 && IsSealed(sent[i - 1]) && sent[i - 1].envelope.plaintext.FinalDecision? && sent[i - 1].envelope.plaintext.accepted
  }

  predicate StageFits(sent: seq<Outbound>, stage: Stage) {
    && (stage.Nothing? <==> sent == [])
    && (stage.Closed? <==> sent != [] && sent[|sent| - 1].Complete?)
    && (stage.Announced? || stage.Invited? ==> forall i | 0 <= i < |sent| :: !IsSealed(sent[i]))
    && (stage.Proved? ==> forall i | 0 <= i < |sent| && IsSealed(sent[i]) :: sent[i].envelope.key == stage.key && sent[i].envelope.sequence == 1)
    && (stage.Decided? ==>
          && sent != [] && IsSealed(sent[|sent| - 1])
          && sent[|sent| - 1].envelope.plaintext.FinalDecision?
          && sent[|sent| - 1].envelope.plaintext.accepted == stage.accepted)
  }

  lemma AdvanceIsDisciplined(sent: seq<Outbound>, stage: Stage, out: Outbound)
    requires Disciplined(sent) && StageFits(sent, stage) && Advance(stage, out).Some?
    ensures Disciplined(sent + [out]) && StageFits(sent + [out], Advance(stage, out).value)
  {
    AdvanceKeepsEnds(sent, stage, out);
    AdvanceKeepsSealed(sent, stage, out);
    AdvanceKeepsSuccess(sent, stage, out);
    AdvanceFits(sent, stage, out);
    hide CreatedFirst;
    hide CompletedLast;
    hide SealedInOrder;
    hide SuccessIsAccepted;
    hide StageFits;
    hide Advance;
  }

  lemma AdvanceKeepsEnds(sent: seq<Outbound>, stage: Stage, out: Outbound)
    requires CreatedFirst(sent) && CompletedLast(sent) && StageFits(sent, stage) && Advance(stage, out).Some?
    ensures CreatedFirst(sent + [out]) && CompletedLast(sent + [out])
  {
  }

  lemma AdvanceKeepsSealed(sent: seq<Outbound>, stage: Stage, out: Outbound)
    requires SealedInOrder(sent) && StageFits(sent, stage) && Advance(stage, out).Some?
    ensures SealedInOrder(sent + [out])
  {
  }

  lemma AdvanceKeepsSuccess(sent: seq<Outbound>, stage: Stage, out: Outbound)
    requires SuccessIsAccepted(sent) && StageFits(sent, stage) && Advance(stage, out).Some?
    ensures SuccessIsAccepted(sent + [out])
  {
  }

  lemma AdvanceFits(sent: seq<Outbound>, stage: Stage, out: Outbound)
    requires StageFits(sent, stage) && Advance(stage, out).Some?
    ensures StageFits(sent + [out], Advance(stage, out).value)
  {
  }

  lemma {:induction false} LegalIsDisciplined(queued: seq<Outbound>, id: Octets)
    requires StageOf(queued, id).Some?
    ensures Disciplined(SentFor(queued, id)) && StageFits(SentFor(queued, id), StageOf(queued, id).value)
    decreases |queued|
  {
    hide Disciplined;
    hide StageFits;
    hide Advance;
    if queued == [] {
      NothingIsDisciplined();
    } else {
      var before, last := queued[..|queued| - 1], queued[|queued| - 1];
      LegalIsDisciplined(before, id);
      if last.rendezvousId == id {
        AdvanceIsDisciplined(SentFor(before, id), StageOf(before, id).value, last);
      } else {
        assert SentFor(before, id) + [] == SentFor(before, id);
      }
    }
  }

  lemma NothingIsDisciplined()
    ensures Disciplined([]) && StageFits([], Nothing)
  {
  }

  /**
   * Output discipline: with fresh rendezvous, in every run everything ever queued for one
   * rendezvous is a Create, then Relays, then at most one Complete with nothing after it,
   * also when the pairing is cancelled or expires before the server confirms it; and the
   * sealed messages of that rendezvous share one key and have rising sequence numbers.
   */
  lemma OutputDiscipline(crypto: Crypto, hostDeviceId: Octets, ops: seq<Op>, id: Octets)
    requires FreshDraws(crypto, hostDeviceId, ops)
    ensures Disciplined(SentFor(RunOf(crypto, hostDeviceId, ops).st.queued, id))
  {
    RunKeeps(crypto, hostDeviceId, ops);
    var queued := RunOf(crypto, hostDeviceId, ops).st.queued;
    hide RunOf;
    assert StageOf(queued, id).Some?;
    LegalIsDisciplined(queued, id);
  }
}
