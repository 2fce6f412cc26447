/** The broker's sole bridge lease (crates/privileged-bridge/src/lease.rs). */
module Leases {
  import opened Wrappers
  import opened Bytes

  const RENEW_INTERVAL_MS: U64 := 5_000
  const LEASE_DURATION_MS: U64 := 15_000
  const MAX_CONTROLLER_NAME_BYTES := 128
  const LEASE_ID_BYTES := 16

  type LeaseId = id: Octets | |id| == LEASE_ID_BYTES witness [0, 0, 0, 0, 0, 0, 0, 0, 0, 0, 0, 0, 0, 0, 0, 0]

  const ZERO_ID: LeaseId := [0, 0, 0, 0, 0, 0, 0, 0, 0, 0, 0, 0, 0, 0, 0, 0]

  datatype AcquireLease = AcquireLease(sessionId: Octets, generation: U64, controllerDisplayName: string, mayControlInput: bool)

  datatype Lease = Lease(
    id: LeaseId,
    sessionId: Octets,
    generation: U64,
    issuedAtMs: U64,
    expiresAtMs: U64,
    lastRenewedAtMs: U64,
    lastCommandSequence: U64,
    controllerDisplayName: string,
    mayControlInput: bool)

  datatype LeaseError =
    | HostDisconnected | HostAlreadyConnected | LeaseAlreadyActive | LeaseNotActive | LeaseExpired | StaleGeneration
    | LeaseIdMismatch | InvalidLeaseId | RandomUnavailable | RenewedTooSoon | InvalidSequence | InvalidControllerName
    | TimestampOverflow

  function Utf8Length(text: string): nat {
    if text == "" then 0
    else
      var code := text[0] as int;
      (if code < 0x80 then 1 else if code < 0x800 then 2 else if code < 0x1_0000 then 3 else 4) + Utf8Length(text[1..])
  }

  predicate IsControl(c: char) {
    c as int <= 0x1F || 0x7F <= c as int <= 0x9F
  }

  predicate ValidControllerName(name: string) {
    && name != ""
    && Utf8Length(name) <= MAX_CONTROLLER_NAME_BYTES
    && forall c <- name :: !IsControl(c)
  }

  function ValidateActiveRef(lease: Lease, id: LeaseId, generation: U64): Option<LeaseError> {
    if generation != lease.generation then Some(StaleGeneration)
    else if id != lease.id then Some(LeaseIdMismatch)
    else None
  }

  datatype LeaseState = LeaseState(hostGeneration: Option<U64>, active: Option<Lease>, lastReleased: Option<(LeaseId, U64)>) {

    function ConnectHost(generation: U64): (LeaseState, Option<LeaseError>) {
      if hostGeneration.Some? then (this, Some(HostAlreadyConnected))
      else if generation == 0 then (this, Some(StaleGeneration))
      else (this.(hostGeneration := Some(generation)), None)
    }

    function FreezeActive(): LeaseState {
      if active.None? then this
      else this.(active := None, lastReleased := Some((active.value.id, active.value.generation)))
    }

    function DisconnectHost(): LeaseState {
      this.(hostGeneration := None).FreezeActive()
    }

    /** `random` is what the operating system's random source yields, if anything. */
    function Acquire(request: AcquireLease, nowMs: U64, random: Option<LeaseId>): (LeaseState, Result<Lease, LeaseError>) {
      if hostGeneration.None? then (this, Err(HostDisconnected))
      else if active.Some? then (this, Err(LeaseAlreadyActive))
      else if request.generation != hostGeneration.value then (this, Err(StaleGeneration))
      else if !ValidControllerName(request.controllerDisplayName) then (this, Err(InvalidControllerName))
      else if random.None? then (this, Err(RandomUnavailable))
      else if random.value == ZERO_ID then (this, Err(InvalidLeaseId))
      else
        match CheckedAdd(nowMs, LEASE_DURATION_MS)
        case None => (this, Err(TimestampOverflow))
        case Some(expiresAt) =>
          var lease := Lease(random.value, request.sessionId, request.generation, nowMs, expiresAt, nowMs, 0,
                             request.controllerDisplayName, request.mayControlInput);
          (this.(active := Some(lease), lastReleased := None), Ok(lease))
    }

    /** The active lease, if `id` and `generation` name it and it has not expired; an expired one is frozen. */
    function Live(id: LeaseId, generation: U64, nowMs: U64): (LeaseState, Result<Lease, LeaseError>) {
      if active.None? then (this, Err(LeaseNotActive))
      else
        match ValidateActiveRef(active.value, id, generation)
        case Some(error) => (this, Err(error))
        case None =>
          if nowMs >= active.value.expiresAtMs then (FreezeActive(), Err(LeaseExpired))
          else (this, Ok(active.value))
    }

    /** An expiry that cannot be represented is reported after the renewal time was already written. */
    function Renew(id: LeaseId, generation: U64, nowMs: U64): (LeaseState, Result<Lease, LeaseError>) {
      var (st, live) := Live(id, generation, nowMs);
      match live
      case Err(error) => (st, Err(error))
      case Ok(lease) =>
        match CheckedAdd(lease.lastRenewedAtMs, RENEW_INTERVAL_MS)
        case None => (this, Err(TimestampOverflow))
        case Some(nextRenewal) =>
          if nowMs < nextRenewal then (this, Err(RenewedTooSoon))
          else
            match CheckedAdd(nowMs, LEASE_DURATION_MS)
            case None => (this.(active := Some(lease.(lastRenewedAtMs := nowMs))), Err(TimestampOverflow))
            case Some(expiresAt) =>
              var renewed := lease.(lastRenewedAtMs := nowMs, expiresAtMs := expiresAt);
              (this.(active := Some(renewed)), Ok(renewed))
    }

    function AuthorizeCommand(id: LeaseId, generation: U64, sequence: U64, nowMs: U64): (LeaseState, Option<LeaseError>) {
      var (st, live) := Live(id, generation, nowMs);
      match live
      case Err(error) => (st, Some(error))
      case Ok(lease) =>
        if CheckedAdd(lease.lastCommandSequence, 1) != Some(sequence) then (this, Some(InvalidSequence))
        else (this.(active := Some(lease.(lastCommandSequence := sequence))), None)
    }

    function ReleaseOrClose(id: LeaseId, generation: U64): (LeaseState, Result<bool, LeaseError>) {
      if active.Some? then
        match ValidateActiveRef(active.value, id, generation)
        case Some(error) => (this, Err(error))
        case None => (FreezeActive(), Ok(true))
      else if lastReleased == Some((id, generation)) then (this, Ok(false))
      else (this, Err(LeaseNotActive))
    }

    function Expire(nowMs: U64): (LeaseState, Option<LeaseId>) {
      if active.Some? && nowMs >= active.value.expiresAtMs then (FreezeActive(), Some(active.value.id))
      else (this, None)
    }
  }

  const NO_LEASE := LeaseState(None, None, None)

  class LeaseManager {
    var hostGeneration: Option<U64>
    var active: Option<Lease>
    var lastReleased: Option<(LeaseId, U64)>

    function View(): LeaseState
      reads this
    {
      LeaseState(hostGeneration, active, lastReleased)
    }

    constructor ()
      ensures View() == NO_LEASE
    {
      hostGeneration, active, lastReleased := None, None, None;
    }

    method ConnectHost(generation: U64) returns (r: Option<LeaseError>)
      modifies this
      ensures (View(), r) == old(View()).ConnectHost(generation)
    {
      if hostGeneration.Some? {
        return Some(HostAlreadyConnected);
      }
      if generation == 0 {
        return Some(StaleGeneration);
      }
      hostGeneration := Some(generation);
      r := None;
    }

    method DisconnectHost() returns (frozen: bool)
      modifies this
      ensures View() == old(View()).DisconnectHost() && frozen == old(active).Some?
    {
      hostGeneration := None;
      frozen := FreezeActive();
    }

    method Acquire(request: AcquireLease, nowMs: U64, random: Option<LeaseId>) returns (r: Result<Lease, LeaseError>)
      modifies this
      ensures (View(), r) == old(View()).Acquire(request, nowMs, random)
    {
      if hostGeneration.None? {
        return Err(HostDisconnected);
      }
      if active.Some? {
        return Err(LeaseAlreadyActive);
      }
      if request.generation != hostGeneration.value {
        return Err(StaleGeneration);
      }
      if !ValidControllerName(request.controllerDisplayName) {
        return Err(InvalidControllerName);
      }
      if random.None? {
        return Err(RandomUnavailable);
      }
      if random.value == ZERO_ID {
        return Err(InvalidLeaseId);
      }
      var expiresAtMs := CheckedAdd(nowMs, LEASE_DURATION_MS);
      if expiresAtMs.None? {
        return Err(TimestampOverflow);
      }
      var lease := Lease(random.value, request.sessionId, request.generation, nowMs, expiresAtMs.value, nowMs, 0,
                         request.controllerDisplayName, request.mayControlInput);
      active := Some(lease);
      lastReleased := None;
      r := Ok(lease);
    }

    method Renew(id: LeaseId, generation: U64, nowMs: U64) returns (r: Result<Lease, LeaseError>)
      modifies this
      ensures (View(), r) == old(View()).Renew(id, generation, nowMs)
    {
      if active.None? {
        return Err(LeaseNotActive);
      }
      var lease := active.value;
      var mismatch := ValidateActiveRef(lease, id, generation);
      if mismatch.Some? {
        return Err(mismatch.value);
      }
      if nowMs >= lease.expiresAtMs {
        var _ := FreezeActive();
        return Err(LeaseExpired);
      }
      var nextRenewal := CheckedAdd(lease.lastRenewedAtMs, RENEW_INTERVAL_MS);
      if nextRenewal.None? {
        return Err(TimestampOverflow);
      }
      if nowMs < nextRenewal.value {
        return Err(RenewedTooSoon);
      }
      active := Some(lease.(lastRenewedAtMs := nowMs));
      var expiresAtMs := CheckedAdd(nowMs, LEASE_DURATION_MS);
      if expiresAtMs.None? {
        return Err(TimestampOverflow);
      }
      active := Some(active.value.(expiresAtMs := expiresAtMs.value));
      r := Ok(active.value);
    }

    method AuthorizeCommand(id: LeaseId, generation: U64, sequence: U64, nowMs: U64) returns (r: Option<LeaseError>)
      modifies this
      ensures (View(), r) == old(View()).AuthorizeCommand(id, generation, sequence, nowMs)
    {
      if active.None? {
        return Some(LeaseNotActive);
      }
      var lease := active.value;
      var mismatch := ValidateActiveRef(lease, id, generation);
      if mismatch.Some? {
        return mismatch;
      }
      if nowMs >= lease.expiresAtMs {
        var _ := FreezeActive();
        return Some(LeaseExpired);
      }
      var expected := CheckedAdd(lease.lastCommandSequence, 1);
      if expected.None? || sequence != expected.value {
        return Some(InvalidSequence);
      }
      active := Some(lease.(lastCommandSequence := sequence));
      r := None;
    }

    /** `release` and `close`. */
    method ReleaseOrClose(id: LeaseId, generation: U64) returns (r: Result<bool, LeaseError>)
      modifies this
      ensures (View(), r) == old(View()).ReleaseOrClose(id, generation)
    {
      if active.Some? {
        var mismatch := ValidateActiveRef(active.value, id, generation);
        if mismatch.Some? {
          return Err(mismatch.value);
        }
        var _ := FreezeActive();
        return Ok(true);
      }
      if lastReleased == Some((id, generation)) {
        return Ok(false);
      }
      r := Err(LeaseNotActive);
    }

    method Expire(nowMs: U64) returns (expired: Option<LeaseId>)
      modifies this
      ensures (View(), expired) == old(View()).Expire(nowMs)
    {
      if active.None? || nowMs < active.value.expiresAtMs {
        return None;
      }
      expired := Some(active.value.id);
      var _ := FreezeActive();
    }

    method FreezeActive() returns (frozen: bool)
      modifies this`active, this`lastReleased
      ensures View() == old(View()).FreezeActive() && frozen == old(active).Some?
    {
      if active.None? {
        return false;
      }
      lastReleased := Some((active.value.id, active.value.generation));
      active := None;
      frozen := true;
    }
  }

  // ---- What one call means ----

  predicate Names(st: LeaseState, id: LeaseId, generation: U64) {
    st.active.Some? && st.active.value.id == id && st.active.value.generation == generation
  }

  /** The lease ended, and the reference to it kept. */
  predicate Ended(before: LeaseState, after: LeaseState) {
    && before.active.Some? && after.active.None? && after.hostGeneration == before.hostGeneration
    && after.lastReleased == Some((before.active.value.id, before.active.value.generation))
  }

  /** The refusals of a call that names a lease, each for its one reason. */
  predicate NamingFault(st: LeaseState, id: LeaseId, generation: U64, nowMs: U64, error: LeaseError) {
    match error
    case LeaseNotActive => st.active.None?
    case StaleGeneration => st.active.Some? && st.active.value.generation != generation
    case LeaseIdMismatch => st.active.Some? && st.active.value.generation == generation && st.active.value.id != id
    case LeaseExpired => Names(st, id, generation) && st.active.value.expiresAtMs <= nowMs
    case _ => false
  }

  /** A lease is granted exactly to the connected Host, while there is none, and runs 15,000 ms from now. */
  lemma AcquireIff(st: LeaseState, request: AcquireLease, nowMs: U64, random: Option<LeaseId>)
    ensures var (next, r) := st.Acquire(request, nowMs, random);
            && (r.Ok? <==>
                  && st.hostGeneration == Some(request.generation) && st.active.None? && ValidControllerName(request.controllerDisplayName)
                  && random.Some? && (exists b <- random.value :: b != 0) && nowMs as int + 15_000 <= U64_MAX)
            && (r.Err? ==> next == st)
            && (r.Ok? ==>
                  && next == LeaseState(st.hostGeneration, Some(r.value), None)
                  && r.value == Lease(random.value, request.sessionId, request.generation, nowMs, nowMs as int + 15_000, nowMs, 0,
                                      request.controllerDisplayName, request.mayControlInput))
            && (r == Err(HostDisconnected) <==> st.hostGeneration.None?)
            && (r == Err(LeaseAlreadyActive) <==> st.hostGeneration.Some? && st.active.Some?)
            && (r == Err(StaleGeneration) ==> st.hostGeneration.Some? && st.hostGeneration.value != request.generation)
            && (r == Err(InvalidControllerName) ==> !ValidControllerName(request.controllerDisplayName))
            && (r == Err(RandomUnavailable) ==> random.None?)
            && (r == Err(InvalidLeaseId) ==> random.Some? && forall b <- random.value :: b == 0)
            && (r == Err(TimestampOverflow) ==> nowMs as int + 15_000 > U64_MAX)
  {
    assert random.Some? && (forall b <- random.value :: b == 0) ==> random.value == ZERO_ID by {
      if random.Some? && forall b <- random.value :: b == 0 {
        assert forall i | 0 <= i < 16 :: random.value[i] in random.value;
      }
    }
    hide ValidControllerName;
  }

  /**
   * A renewal succeeds if and only if it names the active lease, which has not expired and
   * was last renewed at least 5,000 ms ago; it then runs 15,000 ms from now.  A lease that
   * has expired ends, and is not renewed.
   */
  lemma RenewIff(st: LeaseState, id: LeaseId, generation: U64, nowMs: U64)
    ensures var (next, r) := st.Renew(id, generation, nowMs);
            && (r.Ok? <==>
                  && Names(st, id, generation) && st.active.value.lastRenewedAtMs as int + 5_000 <= nowMs < st.active.value.expiresAtMs
                  && nowMs as int + 15_000 <= U64_MAX)
            && (r.Ok? ==>
                  && r.value == st.active.value.(lastRenewedAtMs := nowMs, expiresAtMs := nowMs as int + 15_000)
                  && next == st.(active := Some(r.value)))
            && (r == Err(LeaseExpired) <==> Names(st, id, generation) && st.active.value.expiresAtMs <= nowMs)
            && (r == Err(LeaseExpired) ==> Ended(st, next))
            && (r == Err(RenewedTooSoon) <==>
                  && Names(st, id, generation) && nowMs < st.active.value.expiresAtMs
                  && nowMs as int < st.active.value.lastRenewedAtMs as int + 5_000 <= U64_MAX)
            && (r == Err(TimestampOverflow) ==>
                  && Names(st, id, generation)
                  && next == (if st.active.value.lastRenewedAtMs as int + 5_000 > U64_MAX then st
                              else st.(active := Some(st.active.value.(lastRenewedAtMs := nowMs)))))
            && (r.Err? && r.error !in {LeaseExpired, TimestampOverflow} ==> next == st)
            && (r.Err? && r.error !in {RenewedTooSoon, TimestampOverflow} ==> NamingFault(st, id, generation, nowMs, r.error))
  {
  }

  /** A command is authorized if and only if it names the live lease and carries the next number. */
  lemma AuthorizeIff(st: LeaseState, id: LeaseId, generation: U64, sequence: U64, nowMs: U64)
    ensures var (next, r) := st.AuthorizeCommand(id, generation, sequence, nowMs);
            && (r.None? <==>
                  && Names(st, id, generation) && nowMs < st.active.value.expiresAtMs
                  && sequence as int == st.active.value.lastCommandSequence as int + 1)
            && (r.None? ==> next == st.(active := Some(st.active.value.(lastCommandSequence := sequence))))
            && (r == Some(LeaseExpired) <==> Names(st, id, generation) && st.active.value.expiresAtMs <= nowMs)
            && (r == Some(LeaseExpired) ==> Ended(st, next))
            && (r.Some? && r != Some(LeaseExpired) ==> next == st)
            && (r == Some(InvalidSequence) ==>
                  && Names(st, id, generation) && nowMs < st.active.value.expiresAtMs
                  && sequence as int != st.active.value.lastCommandSequence as int + 1)
            && (r.Some? && r != Some(InvalidSequence) ==> NamingFault(st, id, generation, nowMs, r.value))
  {
  }

  /** A release ends the lease it names, once. */
  lemma ReleaseIff(st: LeaseState, id: LeaseId, generation: U64)
    ensures var (next, r) := st.ReleaseOrClose(id, generation);
            && (r == Ok(true) <==> Names(st, id, generation))
            && (r == Ok(true) ==> Ended(st, next))
            && (r == Ok(false) <==> st.active.None? && st.lastReleased == Some((id, generation)))
            && (r != Ok(true) ==> next == st)
            && (r.Err? ==> NamingFault(st, id, generation, 0, r.error))
  {
  }

  /** An expiry, a disconnection or a connection, each with its whole effect. */
  lemma OtherCallsIff(st: LeaseState, nowMs: U64, generation: U64)
    ensures var (next, r) := st.Expire(nowMs);
            && (r.Some? <==> st.active.Some? && st.active.value.expiresAtMs <= nowMs)
            && (if r.Some? then Ended(st, next) && r.value == st.active.value.id else next == st)
    ensures var next := st.DisconnectHost();
            && next.hostGeneration.None? && next.active.None?
            && (if st.active.Some? then Ended(st.(hostGeneration := None), next) else next.lastReleased == st.lastReleased)
    ensures var (next, r) := st.ConnectHost(generation);
            && (r.None? <==> st.hostGeneration.None? && generation != 0)
            && next == (if r.None? then st.(hostGeneration := Some(generation)) else st)
            && (r == Some(HostAlreadyConnected) <==> st.hostGeneration.Some?)
  {
  }

  // ---- Runs of the lease machine ----

  datatype Op =
    | ConnectOp(generation: U64)
    | DisconnectOp
    | AcquireOp(request: AcquireLease, nowMs: U64, random: Option<LeaseId>)
    | RenewOp(id: LeaseId, generation: U64, nowMs: U64)
    | AuthorizeOp(id: LeaseId, generation: U64, sequence: U64, nowMs: U64)
    | ReleaseOp(id: LeaseId, generation: U64)
    | ExpireOp(nowMs: U64)

  function Step(st: LeaseState, op: Op): LeaseState {
    match op
    case ConnectOp(generation) => st.ConnectHost(generation).0
    case DisconnectOp => st.DisconnectHost()
    case AcquireOp(request, nowMs, random) => st.Acquire(request, nowMs, random).0
    case RenewOp(id, generation, nowMs) => st.Renew(id, generation, nowMs).0
    case AuthorizeOp(id, generation, sequence, nowMs) => st.AuthorizeCommand(id, generation, sequence, nowMs).0
    case ReleaseOp(id, generation) => st.ReleaseOrClose(id, generation).0
    case ExpireOp(nowMs) => st.Expire(nowMs).0
  }

  function RunFrom(st: LeaseState, ops: seq<Op>): LeaseState
    decreases |ops|
  {
    if ops == [] then st else Step(RunFrom(st, ops[..|ops| - 1]), ops[|ops| - 1])
  }

  predicate Grants(st: LeaseState, op: Op) {
    op.AcquireOp? && st.Acquire(op.request, op.nowMs, op.random).1.Ok?
  }

  /** No operation of the run grants a lease. */
  predicate NothingGranted(st: LeaseState, ops: seq<Op>) {
    forall i | 0 <= i < |ops| :: !Grants(RunFrom(st, ops[..i]), ops[i])
  }

  lemma {:induction false} GoneStaysGone(st: LeaseState, ops: seq<Op>)
    requires st.active.None? && NothingGranted(st, ops)
    ensures var late := RunFrom(st, ops); late.active.None? && late.lastReleased == st.lastReleased
    decreases |ops|
  {
    if ops != [] {
      var n := |ops| - 1;
      forall i | 0 <= i < n
        ensures !Grants(RunFrom(st, ops[..n][..i]), ops[..n][i])
      {
        assert ops[..n][..i] == ops[..i];
      }
      GoneStaysGone(st, ops[..n]);
      assert !Grants(RunFrom(st, ops[..n]), ops[n]);
    }
  }

  /**
   * A released lease is gone for good: until another is granted, whatever happens, releasing
   * it again answers `false` and changes nothing, and no renewal or command of it succeeds.
   */
  lemma {:induction false} ReleaseIsFinal(st: LeaseState, id: LeaseId, generation: U64, ops: seq<Op>, sequence: U64, nowMs: U64)
    requires st.ReleaseOrClose(id, generation).1.Ok? && NothingGranted(st.ReleaseOrClose(id, generation).0, ops)
    ensures var late := RunFrom(st.ReleaseOrClose(id, generation).0, ops);
            && late.ReleaseOrClose(id, generation) == (late, Ok(false))
            && late.Renew(id, generation, nowMs) == (late, Err(LeaseNotActive))
            && late.AuthorizeCommand(id, generation, sequence, nowMs) == (late, Some(LeaseNotActive))
  {
    GoneStaysGone(st.ReleaseOrClose(id, generation).0, ops);
  }

  /** The operation reads the clock at or past the expiry of the lease it names. */
  predicate FindsExpired(st: LeaseState, op: Op) {
    match op
    case RenewOp(id, generation, nowMs) => Names(st, id, generation) && st.active.value.expiresAtMs <= nowMs
    case AuthorizeOp(id, generation, _, nowMs) => Names(st, id, generation) && st.active.value.expiresAtMs <= nowMs
    case ExpireOp(nowMs) => st.active.Some? && st.active.value.expiresAtMs <= nowMs
    case _ => false
  }

  /**
   * An expired lease stays expired: once an operation reads a clock at or past its expiry,
   * then until another lease is granted, whatever happens and whatever the clock does, no
   * lease is active and no renewal or command of any lease succeeds.
   */
  lemma ExpiryIsFinal(st: LeaseState, op: Op, ops: seq<Op>, id: LeaseId, generation: U64, sequence: U64, nowMs: U64)
    requires FindsExpired(st, op) && NothingGranted(Step(st, op), ops)
    ensures var late := RunFrom(Step(st, op), ops);
            && late.active.None?
            && late.Renew(id, generation, nowMs) == (late, Err(LeaseNotActive))
            && late.AuthorizeCommand(id, generation, sequence, nowMs) == (late, Some(LeaseNotActive))
  {
    GoneStaysGone(Step(st, op), ops);
    hide RunFrom;
  }

  /** The clocks read by the grant of the lease now active and by each renewal it was answered since. */
  function Dates(st: LeaseState, ops: seq<Op>): seq<U64>
    decreases |ops|
  {
    if ops == [] then []
    else
      var before, op := RunFrom(st, ops[..|ops| - 1]), ops[|ops| - 1];
      if Grants(before, op) then [op.nowMs]
      else if op.RenewOp? && before.Renew(op.id, op.generation, op.nowMs).1.Ok? then Dates(st, ops[..|ops| - 1]) + [op.nowMs]
      else Dates(st, ops[..|ops| - 1])
  }

  /** From the grant on, each renewal came at least 5,000 ms after the one before it, and before 15,000 ms were over. */
  predicate Unbroken(dates: seq<U64>) {
    forall i | 0 <= i < |dates| - 1 :: dates[i] as int + 5_000 <= dates[i + 1] < dates[i] as int + 15_000
  }

  predicate DatedBy(lease: Lease, dates: seq<U64>) {
    && dates != [] && Unbroken(dates)
    && lease.issuedAtMs == dates[0]
    && lease.expiresAtMs as int == dates[|dates| - 1] as int + 15_000
    && dates[|dates| - 1] <= lease.lastRenewedAtMs
  }

  /**
   * No lease outlives its renewals: in every run, with clocks that move in any way, a lease
   * that is active was granted and then renewed in an unbroken chain, and expires 15,000 ms
   * after the last link of it.
   */
  lemma {:induction false} ActiveLeaseIsUnbroken(ops: seq<Op>)
    ensures var st := RunFrom(NO_LEASE, ops); st.active.Some? ==> DatedBy(st.active.value, Dates(NO_LEASE, ops))
    decreases |ops|
  {
    if ops != [] {
      var before, op := RunFrom(NO_LEASE, ops[..|ops| - 1]), ops[|ops| - 1];
      ActiveLeaseIsUnbroken(ops[..|ops| - 1]);
      StepKeepsDated(before, op, Dates(NO_LEASE, ops[..|ops| - 1]));
    }
    hide Step;
    hide Grants;
    hide DatedBy;
    hide LeaseState.Renew;
  }

  lemma StepKeepsDated(st: LeaseState, op: Op, dates: seq<U64>)
    requires st.active.Some? ==> DatedBy(st.active.value, dates)
    ensures var next := Step(st, op);
            next.active.Some? ==>
              DatedBy(next.active.value,
                      if Grants(st, op) then [op.nowMs]
                      else if op.RenewOp? && st.Renew(op.id, op.generation, op.nowMs).1.Ok? then dates + [op.nowMs]
                      else dates)
  {
    match op
    case AcquireOp(request, nowMs, random) => AcquireIff(st, request, nowMs, random);
    case RenewOp(id, generation, nowMs) => RenewIff(st, id, generation, nowMs);
    case AuthorizeOp(id, generation, sequence, nowMs) => AuthorizeIff(st, id, generation, sequence, nowMs);
    case _ =>
    hide LeaseState.Acquire;
    hide LeaseState.Renew;
    hide LeaseState.AuthorizeCommand;
  }
}
