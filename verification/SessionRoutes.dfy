/** The graphical-session route machine of crates/privileged-bridge/src/session.rs. */
module SessionRoutes {
  import opened Wrappers
  import opened Bytes

  datatype Platform = Windows | Macos

  datatype DesktopKind = Normal | LockedLogin | Secure

  datatype RouteSession = RouteSession(platform: Platform, osSessionId: U64, desktop: DesktopKind, generation: U64)

  datatype RouteEvent =
    | SessionAvailable(next: RouteSession)
    | RouteLost(generation: U64)
    | HelperCrashed(generation: U64)
    | BrokerRestarted(generation: U64)
    | HostDisconnected(generation: U64)
    | LoggedOut(generation: U64)

  datatype SessionAction = FreezeInput | ReleaseAllInput | PeerDisconnected | ClearRoute | PublishRoute(route: RouteSession)

  datatype SessionError = StaleGeneration | GenerationGap | ConflictingDuplicate | UnexpectedOsSession | RouteUnavailable

  type Applied = Result<seq<SessionAction>, SessionError>

  datatype SessionState = SessionState(generation: U64, current: Option<RouteSession>, controlledLease: bool, inputEnabled: bool) {

    function FreezeActions(clearRoute: bool): seq<SessionAction> {
      (if controlledLease || inputEnabled then [FreezeInput, ReleaseAllInput, PeerDisconnected] else [])
      + (if clearRoute && current.Some? then [ClearRoute] else [])
    }

    /** The checks on a new generation number shared by both kinds of event. */
    function CheckGeneration(next: U64, isDuplicate: bool): Option<Applied> {
      if next < generation then Some(Err(StaleGeneration))
      else if next == generation then Some(if isDuplicate then Ok([]) else Err(ConflictingDuplicate))
      else if generation != 0 && next != generation as int + 1 then Some(Err(GenerationGap))
      else None
    }

    function ApplyAvailable(next: RouteSession): (SessionState, Applied) {
      if next.osSessionId == 0 then (this, Err(UnexpectedOsSession))
      else
        match CheckGeneration(next.generation, current == Some(next))
        case Some(early) => (this, early)
        case None =>
          if current.Some? && next.osSessionId != current.value.osSessionId then (this, Err(UnexpectedOsSession))
          else (SessionState(next.generation, Some(next), false, false), Ok(FreezeActions(false) + [PublishRoute(next)]))
    }

    function ApplyUnavailable(next: U64): (SessionState, Applied) {
      match CheckGeneration(next, current.None?)
      case Some(early) => (this, early)
      case None => (SessionState(next, None, false, false), Ok(FreezeActions(true)))
    }

    function Apply(event: RouteEvent): (SessionState, Applied) {
      match event
      case SessionAvailable(next) => ApplyAvailable(next)
      case RouteLost(g) => ApplyUnavailable(g)
      case HelperCrashed(g) => ApplyUnavailable(g)
      case BrokerRestarted(g) => ApplyUnavailable(g)
      case HostDisconnected(g) => ApplyUnavailable(g)
      case LoggedOut(g) => ApplyUnavailable(g)
    }

    function BeginControl(next: U64): (SessionState, Option<SessionError>) {
      if current.None? || next != generation || next != current.value.generation
      then (this, Some(RouteUnavailable))
      else (this.(controlledLease := true, inputEnabled := true), None)
    }
  }

  const INITIAL := SessionState(0, None, false, false)

  class SessionStateMachine {
    var generation: U64
    var current: Option<RouteSession>
    var controlledLease: bool
    var inputEnabled: bool

    function View(): SessionState
      reads this
    {
      SessionState(generation, current, controlledLease, inputEnabled)
    }

    constructor ()
      ensures View() == INITIAL
    {
      generation, current, controlledLease, inputEnabled := 0, None, false, false;
    }

    method Apply(event: RouteEvent) returns (r: Applied)
      modifies this
      ensures (View(), r) == old(View()).Apply(event)
    {
      match event
      case SessionAvailable(next) => r := ApplyAvailable(next);
      case RouteLost(g) => r := ApplyUnavailable(g);
      case HelperCrashed(g) => r := ApplyUnavailable(g);
      case BrokerRestarted(g) => r := ApplyUnavailable(g);
      case HostDisconnected(g) => r := ApplyUnavailable(g);
      case LoggedOut(g) => r := ApplyUnavailable(g);
    }

    method BeginControl(generation: U64) returns (r: Option<SessionError>)
      modifies this
      ensures (View(), r) == old(View()).BeginControl(generation)
    {
      if current.None? {
        return Some(RouteUnavailable);
      }
      if generation != this.generation || generation != current.value.generation {
        return Some(RouteUnavailable);
      }
      controlledLease := true;
      inputEnabled := true;
      r := None;
    }

    method ApplyAvailable(next: RouteSession) returns (r: Applied)
      modifies this
      ensures (View(), r) == old(View()).ApplyAvailable(next)
    {
      if next.osSessionId == 0 {
        return Err(UnexpectedOsSession);
      }
      if next.generation < generation {
        return Err(StaleGeneration);
      }
      if next.generation == generation {
        if current == Some(next) {
          return Ok([]);
        }
        return Err(ConflictingDuplicate);
      }
      if generation != 0 && next.generation != generation as int + 1 {
        return Err(GenerationGap);
      }
      if current.Some? && next.osSessionId != current.value.osSessionId {
        return Err(UnexpectedOsSession);
      }
      var actions := FreezeActions(false);
      generation := next.generation;
      current := Some(next);
      actions := actions + [PublishRoute(next)];
      r := Ok(actions);
    }

    method ApplyUnavailable(generation: U64) returns (r: Applied)
      modifies this
      ensures (View(), r) == old(View()).ApplyUnavailable(generation)
    {
      if generation < this.generation {
        return Err(StaleGeneration);
      }
      if generation == this.generation {
        if current.None? {
          return Ok([]);
        }
        return Err(ConflictingDuplicate);
      }
      if this.generation != 0 && generation != this.generation as int + 1 {
        return Err(GenerationGap);
      }
      var actions := FreezeActions(true);
      this.generation := generation;
      current := None;
      r := Ok(actions);
    }

    method FreezeActions(clearRoute: bool) returns (actions: seq<SessionAction>)
      modifies this`inputEnabled, this`controlledLease
      ensures actions == old(View()).FreezeActions(clearRoute)
      ensures !inputEnabled && !controlledLease
    {
      actions := [];
      if controlledLease || inputEnabled {
        actions := actions + [FreezeInput, ReleaseAllInput, PeerDisconnected];
      }
      inputEnabled := false;
      controlledLease := false;
      if clearRoute && current.Some? {
        actions := actions + [ClearRoute];
      }
    }
  }

  // ---- What one call means ----

  /** The generation the machine expects next: any greater one the first time, exactly one more ever after. */
  predicate NextGeneration(st: SessionState, generation: U64) {
    if st.generation == 0 then generation > 0 else generation as int == st.generation as int + 1
  }

  function GenerationOf(event: RouteEvent): U64 {
    if event.SessionAvailable? then event.next.generation else event.generation
  }

  /** What freezing emits: a controlled or enabled route is frozen, released and disconnected first. */
  predicate FreezesFirst(st: SessionState, actions: seq<SessionAction>, rest: seq<SessionAction>) {
    actions == (if st.controlledLease || st.inputEnabled then [FreezeInput, ReleaseAllInput, PeerDisconnected] else []) + rest
  }

  /**
   * An available session is taken up if and only if it is of the next generation, has an OS
   * session and does not change that of the current route; it is then published, not
   * controlled, after whatever was controlled has been frozen.
   */
  lemma AvailableIff(st: SessionState, next: RouteSession)
    ensures var (after, r) := st.Apply(SessionAvailable(next));
            && (r.Ok? && after != st ==>
                  && NextGeneration(st, next.generation) && after == SessionState(next.generation, Some(next), false, false)
                  && FreezesFirst(st, r.value, [PublishRoute(next)]))
            && (NextGeneration(st, next.generation) && next.osSessionId != 0
                && (st.current.Some? ==> st.current.value.osSessionId == next.osSessionId) ==>
                  r.Ok? && after == SessionState(next.generation, Some(next), false, false))
            && (r.Ok? && after == st <==> next.osSessionId != 0 && next.generation == st.generation && st.current == Some(next))
            && (r.Ok? && after == st ==> r.value == [])
            && (r.Err? ==> after == st)
            && (r == Err(UnexpectedOsSession) ==>
                  next.osSessionId == 0 || (st.current.Some? && st.current.value.osSessionId != next.osSessionId))
            && (next.osSessionId != 0 ==> RefusedAs(st, next.generation, r))
  {
  }

  predicate RefusedAs(st: SessionState, generation: U64, r: Applied) {
    && (r == Err(StaleGeneration) <==> generation < st.generation)
    && (r == Err(GenerationGap) <==> st.generation < generation && !NextGeneration(st, generation))
    && (r == Err(ConflictingDuplicate) ==> generation == st.generation)
    && r != Err(RouteUnavailable)
  }

  /**
   * An event that makes the route unavailable is carried out if and only if it is of the
   * next generation: no route, no control and no input are left, what was controlled is
   * frozen first, and a published route is cleared.
   */
  lemma UnavailableIff(st: SessionState, event: RouteEvent)
    requires !event.SessionAvailable?
    ensures var (after, r) := st.Apply(event);
            && (NextGeneration(st, event.generation) ==>
                  && r.Ok? && after == SessionState(event.generation, None, false, false)
                  && FreezesFirst(st, r.value, if st.current.Some? then [ClearRoute] else []))
            && (!NextGeneration(st, event.generation) ==> after == st)
            && (!NextGeneration(st, event.generation) && r.Ok? <==> event.generation == st.generation && st.current.None?)
            && (!NextGeneration(st, event.generation) && r.Ok? ==> r.value == [])
            && RefusedAs(st, event.generation, r) && r != Err(UnexpectedOsSession)
  {
  }

  /** Control begins if and only if a route is published and the caller names its generation. */
  lemma BeginIff(st: SessionState, generation: U64)
    ensures var (after, r) := st.BeginControl(generation);
            && (r.None? <==> st.current.Some? && st.current.value.generation == st.generation == generation)
            && after == (if r.None? then st.(controlledLease := true, inputEnabled := true) else st)
            && (r.Some? ==> r == Some(RouteUnavailable))
  {
  }

  // ---- Runs and their action log ----

  datatype Op = Observe(event: RouteEvent) | Begin(generation: U64)

  /** What an observer outside the machine sees: emitted actions and successful `begin_control` calls. */
  datatype Entry = Did(action: SessionAction) | Began(generation: U64)

  datatype Run = Run(st: SessionState, log: seq<Entry>)

  function Entries(actions: seq<SessionAction>): (s: seq<Entry>)
    ensures |s| == |actions| && forall i | 0 <= i < |s| :: s[i] == Did(actions[i])
  {
    seq(|actions|, i requires 0 <= i < |actions| => Did(actions[i]))
  }

  /** One step; the second component is what it appended to the log. */
  function Step(st: SessionState, op: Op): (SessionState, seq<Entry>) {
    match op
    case Observe(event) =>
      var (next, r) := st.Apply(event);
      (next, if r.Ok? then Entries(r.value) else [])
    case Begin(generation) =>
      var (next, r) := st.BeginControl(generation);
      (next, if r.None? then [Began(generation)] else [])
  }

  function RunOf(ops: seq<Op>): Run {
    if ops == [] then Run(INITIAL, [])
    else
      var before := RunOf(ops[..|ops| - 1]);
      var (st, entries) := Step(before.st, ops[|ops| - 1]);
      Run(st, before.log + entries)
  }

  datatype Replayed = Replayed(current: Option<RouteSession>, inputEnabled: bool)

  /** The route and input switch an observer reconstructs from one log entry. */
  function ReplayEntry(v: Replayed, e: Entry): Replayed {
    match e
    case Began(_) => v.(inputEnabled := true)
    case Did(FreezeInput) => v.(inputEnabled := false)
    case Did(ClearRoute) => v.(current := None)
    case Did(PublishRoute(route)) => v.(current := Some(route))
    case Did(_) => v
  }

  function Replay(v: Replayed, log: seq<Entry>): Replayed
    decreases |log|
  {
    if log == [] then v else ReplayEntry(Replay(v, log[..|log| - 1]), log[|log| - 1])
  }

  lemma {:induction false} ReplayConcat(v: Replayed, a: seq<Entry>, b: seq<Entry>)
    ensures Replay(v, a + b) == Replay(Replay(v, a), b)
    decreases |b|
  {
    if b == [] {
      assert a + b == a;
    } else {
      ReplayConcat(v, a, b[..|b| - 1]);
      assert (a + b)[..|a + b| - 1] == a + b[..|b| - 1];
    }
  }

  ghost predicate Consistent(st: SessionState) {
    && st.controlledLease == st.inputEnabled
    && (st.current.Some? ==> st.current.value.generation == st.generation != 0 && st.current.value.osSessionId != 0)
    && (st.inputEnabled ==> st.current.Some?)
  }

  function Visible(st: SessionState): Replayed {
    Replayed(st.current, st.inputEnabled)
  }

  /** The entries of one step, in the few shapes they can take, replay to the next state. */
  lemma StepReplays(st: SessionState, op: Op)
    requires Consistent(st)
    ensures var (next, entries) := Step(st, op);
            Consistent(next) && Replay(Visible(st), entries) == Visible(next)
  {
    var (next, entries) := Step(st, op);
    var v := Visible(st);
    if |entries| >= 1 {
      ReplayFirst(v, entries);
      if |entries| >= 2 {
        ReplayFirst(ReplayEntry(v, entries[0]), entries[1..]);
        if |entries| >= 3 {
          ReplayFirst(ReplayEntry(ReplayEntry(v, entries[0]), entries[1]), entries[2..]);
          assert entries[1..][1..] == entries[2..];
        }
      }
    }
  }

  lemma ReplayFirst(v: Replayed, log: seq<Entry>)
    requires log != []
    ensures Replay(v, log) == Replay(ReplayEntry(v, log[0]), log[1..])
  {
    ReplayConcat(v, log[..1], log[1..]);
    assert log == log[..1] + log[1..];
    assert Replay(v, log[..1]) == ReplayEntry(Replay(v, log[..1][..0]), log[0]);
  }

  /**
   * After any sequence of observations and control attempts, replaying the log alone
   * gives back the current route and the input switch.
   */
  lemma {:induction false} LogReconstructsState(ops: seq<Op>)
    ensures var run := RunOf(ops); Consistent(run.st) && Replay(Visible(INITIAL), run.log) == Visible(run.st)
    decreases |ops|
  {
    if ops != [] {
      var before := RunOf(ops[..|ops| - 1]);
      LogReconstructsState(ops[..|ops| - 1]);
      StepReplays(before.st, ops[|ops| - 1]);
      ReplayConcat(Visible(INITIAL), before.log, Step(before.st, ops[|ops| - 1]).1);
    }
  }

  /**
   * A failed operation changes and emits nothing; a successful one either repeats the
   * current observation, or begins control, or raises the generation: to anything the
   * first time, by exactly one ever after.
   */
  lemma GenerationsRiseByOne(st: SessionState, op: Op)
    requires Consistent(st)
    ensures var (next, entries) := Step(st, op);
            && (op.Observe? && st.Apply(op.event).1.Err? ==> next == st && entries == [])
            && (op.Begin? && st.BeginControl(op.generation).1.Some? ==> next == st && entries == [])
            && (next.generation != st.generation ==> st.generation < next.generation && (st.generation == 0 || next.generation == st.generation as int + 1))
            && (next.generation == st.generation ==> next.current == st.current && (next == st || entries == [Began(st.generation)]))
            && (next.generation != st.generation ==> !next.inputEnabled && (st.inputEnabled ==> Did(FreezeInput) in entries && Did(ReleaseAllInput) in entries))
  {
    var (next, entries) := Step(st, op);
    if next.generation != st.generation && st.inputEnabled {
      assert entries[0] == Did(FreezeInput) && entries[1] == Did(ReleaseAllInput);
    }
  }

  // ---- Routes of different OS sessions never abut ----

  ghost predicate ClearedBetween(log: seq<Entry>, i: nat, j: nat)
    requires i <= j <= |log|
  {
    exists k | i < k < j :: log[k] == Did(ClearRoute)
  }

  /** Every published route not yet cleared belongs to the OS session now published. */
  ghost predicate OpenRoutesMatch(log: seq<Entry>, current: Option<RouteSession>) {
    forall i | 0 <= i < |log| && log[i].Did? && log[i].action.PublishRoute? && !ClearedBetween(log, i, |log|) ::
      current.Some? && current.value.osSessionId == log[i].action.route.osSessionId
  }

  ghost predicate SeparatedSessions(log: seq<Entry>) {
    forall i, j | 0 <= i < j < |log| && log[i].Did? && log[i].action.PublishRoute? && log[j].Did? && log[j].action.PublishRoute?
                  && log[i].action.route.osSessionId != log[j].action.route.osSessionId ::
      ClearedBetween(log, i, j)
  }

  /** Appending one entry keeps both facts, if a publication agrees with the route still open. */
  lemma AppendEntry(log: seq<Entry>, e: Entry, current: Option<RouteSession>)
    requires OpenRoutesMatch(log, current) && SeparatedSessions(log)
    requires e.Did? && e.action.PublishRoute? && current.Some? ==> current.value.osSessionId == e.action.route.osSessionId
    ensures var next := ReplayEntry(Replayed(current, false), e).current;
            OpenRoutesMatch(log + [e], next) && SeparatedSessions(log + [e])
  {
    var after := log + [e];
    forall i | 0 <= i < |log|
      ensures ClearedBetween(log, i, |log|) ==> ClearedBetween(after, i, |log|) && ClearedBetween(after, i, |after|)
      ensures e == Did(ClearRoute) ==> ClearedBetween(after, i, |after|)
    {
      if ClearedBetween(log, i, |log|) {
        var k :| i < k < |log| && log[k] == Did(ClearRoute);
        assert after[k] == Did(ClearRoute);
      }
      if e == Did(ClearRoute) {
        assert after[|log|] == Did(ClearRoute);
      }
    }
    forall i, j | 0 <= i < j < |log| && ClearedBetween(log, i, j)
      ensures ClearedBetween(after, i, j)
    {
      var k :| i < k < j && log[k] == Did(ClearRoute);
      assert after[k] == Did(ClearRoute);
    }
  }

  /** Entries that publish only at the end, and only a route of the session still open. */
  ghost predicate PublishesLast(entries: seq<Entry>, current: Option<RouteSession>) {
    && (forall k | 0 <= k < |entries| && entries[k].Did? && entries[k].action.PublishRoute? && current.Some? ::
      current.value.osSessionId == entries[k].action.route.osSessionId)
    && (forall k | 0 <= k < |entries| - 1 :: !(entries[k].Did? && entries[k].action.PublishRoute?))
  }

  lemma StepPublishesLast(st: SessionState, op: Op)
    requires Consistent(st)
    ensures PublishesLast(Step(st, op).1, st.current)
  {
  }

  lemma {:induction false} AppendEntries(log: seq<Entry>, entries: seq<Entry>, current: Option<RouteSession>, enabled: bool)
    requires OpenRoutesMatch(log, current) && SeparatedSessions(log) && PublishesLast(entries, current)
    ensures OpenRoutesMatch(log + entries, Replay(Replayed(current, enabled), entries).current) && SeparatedSessions(log + entries)
    decreases |entries|
  {
    hide OpenRoutesMatch;
    hide SeparatedSessions;
    if entries == [] {
      assert log + entries == log;
    } else {
      var n := |entries| - 1;
      AppendEntries(log, entries[..n], current, enabled);
      NoPublicationKeepsOrClears(Replayed(current, enabled), entries[..n]);
      AppendEntry(log + entries[..n], entries[n], Replay(Replayed(current, enabled), entries[..n]).current);
      assert log + entries[..n] + [entries[n]] == log + entries;
    }
  }

  lemma {:induction false} NoPublicationKeepsOrClears(v: Replayed, entries: seq<Entry>)
    requires forall k | 0 <= k < |entries| :: !(entries[k].Did? && entries[k].action.PublishRoute?)
    ensures Replay(v, entries).current == v.current || Replay(v, entries).current.None?
    decreases |entries|
  {
    if entries != [] {
      NoPublicationKeepsOrClears(v, entries[..|entries| - 1]);
    }
  }

  /** Two published routes with different OS sessions always have a ClearRoute between them. */
  lemma {:induction false} SessionsAreSeparated(ops: seq<Op>)
    ensures var run := RunOf(ops); OpenRoutesMatch(run.log, run.st.current) && SeparatedSessions(run.log)
    decreases |ops|
  {
    hide Step;
    hide ReplayEntry;
    if ops != [] {
      var before := RunOf(ops[..|ops| - 1]);
      var op := ops[|ops| - 1];
      StepPublishesLast(before.st, op) by {
        LogReconstructsState(ops[..|ops| - 1]);
      }
      SessionsAreSeparated(ops[..|ops| - 1]);
      LogReconstructsState(ops[..|ops| - 1]);
      StepReplays(before.st, op);
      AppendEntries(before.log, Step(before.st, op).1, before.st.current, before.st.inputEnabled);
    }
  }
}
