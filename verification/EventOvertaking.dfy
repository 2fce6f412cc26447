/** What becomes of a waiting fast pointer once a newer critical event has gone past it. */
module EventOvertaking {
  import opened Wrappers
  import opened Bytes
  import opened BridgeFrames
  import opened EventQueues
  import opened BridgeRpc
  import opened BridgeWire
  import opened Proxy
  import opened HelperProtocol
  import opened EventDelivery
  import opened EventConservation
  import Broker
  import Leases

  // ---- A pointer that is overtaken ends delivery too ----

  /** Event `m` is sure to leave the link before pointer `n` does, or without it. */
  lemma AheadGives(link: RpcState, m: nat, n: nat)
    requires Sorted(link) && Ahead(link, m, n)
    ensures var (next, r) := link.TryEvent();
            r.Ok? ==>
              && r.value.Some? && r.value.value.sequence != n
              && ((r.value.value.sequence == m && !IsFast(r.value.value)) || Ahead(next, m, n))
  {
    var (polled, queued) := link.QueuedEvent();
    QueuedEventCarries(link);
    if queued.Ok? && queued.value.Some? {
      AheadQueued(link, m, n);
    } else if !link.failed && link.inbox != [] && link.inbox[0].Frame? {
      EnqueueCarries(link);
      EnqueuedIsQueued(link);
      var (next, outcome) := link.(inbox := link.inbox[1..]).EnqueueEvent(link.inbox[0].frame);
      if outcome == Ok(None) {
        AheadQueued(next, m, n);
      }
    }
    hide RpcState.EnqueueEvent;
    hide RpcState.QueuedEvent;
    hide CriticalsOn;
    hide PointersOn;
    hide ReplacedAhead;
  }

  lemma AheadQueued(link: RpcState, m: nat, n: nat)
    requires Sorted(link) && Ahead(link, m, n) && link.QueuedEvent().1.Ok? && link.QueuedEvent().1.value.Some?
    ensures var (next, r) := link.QueuedEvent();
            r.value.value.sequence != n && ((r.value.value.sequence == m && !IsFast(r.value.value)) || Ahead(next, m, n))
  {
    hide Select;
    hide EventFrames;
    hide InFront;
    if link.queue.critical != [] {
      var head, rest := link.queue.critical[0], Select(EventFrames(link.inbox), false);
      assert link.queue.critical + rest == [head] + (link.queue.critical[1..] + rest);
      assert head in CriticalsOn(link) && forall f <- link.queue.critical[1..] + rest :: f in CriticalsOn(link);
      assert forall f <- link.queue.critical :: f == head || f in link.queue.critical[1..];
    }
  }

  lemma {:induction false} InFrontStays(inbox: seq<Incoming>, more: seq<Incoming>, m: nat, n: nat)
    requires InFront(inbox, m, n)
    ensures InFront(inbox + more, m, n)
    decreases |inbox|
  {
    hide IsFast;
    hide IsEvent;
    assert (inbox + more)[0] == inbox[0] && (inbox + more)[1..] == inbox[1..] + more;
    if InFront(inbox[1..], m, n) {
      InFrontStays(inbox[1..], more, m, n);
    }
  }

  lemma {:induction false} LastInFront(inbox: seq<Incoming>, frame: ServerFrame, n: nat)
    requires IsEvent(frame) && !IsFast(frame)
    requires forall item <- inbox :: CarriesEvent(item) ==> item.frame.sequence != n
    ensures InFront(inbox + [Frame(frame)], frame.sequence, n)
    decreases |inbox|
  {
    hide IsFast;
    hide IsEvent;
    var all := inbox + [Frame(frame)];
    if inbox == [] {
      assert all == [Frame(frame)];
    } else {
      assert all[0] == inbox[0] && all[1..] == inbox[1..] + [Frame(frame)];
      LastInFront(inbox[1..], frame, n);
    }
  }

  lemma AheadArrives(link: RpcState, items: seq<Incoming>, m: nat, n: nat)
    requires Ahead(link, m, n) && forall f <- Select(EventFrames(items), false) :: f.sequence != n
    ensures Ahead(Arrive(link, items), m, n)
  {
    ArriveCarries(link, items);
    if InFront(link.inbox, m, n) {
      InFrontStays(link.inbox, items, m, n);
    }
    hide CriticalsOn;
    hide PointersOn;
    hide InFront;
    hide Select;
    hide EventFrames;
  }

  /** `m` has overtaken `n`: on the Host's link, or on the Helper's with `n` not past it. */
  predicate Overtaken(sys: System, m: nat, n: nat) {
    && |sys.delivered| < n < m && n <= |sys.emitted| && IsFast(sys.emitted[n - 1])
    && (|| sys.proxy.failed
        || (Sorted(HostLink(sys))
            && (|| Ahead(HostLink(sys), m, n)
                || (!Holds(HostLink(sys), n) && (sys.broker.helperFailed || (Sorted(sys.brokerLink) && Ahead(sys.brokerLink, m, n)))))))
  }

  predicate Quiet(items: seq<Incoming>) {
    forall item <- items :: !CarriesEvent(item)
  }

  lemma {:induction false} QuietHasNoEvents(items: seq<Incoming>)
    requires Quiet(items)
    ensures EventFrames(items) == []
    decreases |items|
  {
    hide IsEvent;
    if items != [] {
      assert items[0] in items;
      QuietHasNoEvents(items[1..]);
    }
  }

  lemma QuietArrives(link: RpcState, items: seq<Incoming>, m: nat, n: nat)
    requires Quiet(items)
    ensures var next := Arrive(link, items);
            Sorted(next) == Sorted(link) && (Ahead(link, m, n) ==> Ahead(next, m, n)) && (Holds(next, n) ==> Holds(link, n))
  {
    QuietHasNoEvents(items);
    if Ahead(link, m, n) {
      AheadArrives(link, items, m, n);
    }
    hide Ahead;
    hide IsEvent;
  }

  lemma LacksKeeps(before: RpcState, after: RpcState, emitted: seq<ServerFrame>, n: nat)
    requires Sorted(before) && Keeps(before, after) && LinkGenuine(after, emitted) && 1 <= n <= |emitted|
    requires emitted[n - 1].sequence == n && !Holds(before, n)
    ensures !Holds(after, n)
  {
    if Holds(after, n) {
      HoldsMeans(after, emitted, n);
      HeldIsHeld(before, emitted[n - 1]);
    }
    hide Holds;
    hide Ahead;
    hide ReplacedAhead;
    hide PointersOn;
    hide CriticalsOn;
    hide LinkGenuine;
    hide Sorted;
    hide IsFast;
  }

  lemma OvertakenAtHost(sys: System, step: Step, m: nat, n: nat)
    requires Inv(sys) && Overtaken(sys, m, n) && (step.HostPerforms? || step.HostCloses?)
    ensures Overtaken(Next(sys, step), m, n)
  {
    hide Keeps;
    hide Sorted;
    hide LinkGenuine;
    NextKeepsRoute(sys, step);
    var next := Next(sys, step);
    if !next.proxy.failed {
      if step.HostPerforms? {
        ProxyPerformCarries(sys.proxy, step.op, step.clock);
        ProxyPerformKeeps(sys.proxy, step.op, step.clock, sys.emitted);
      } else {
        ProxyCloseCarries(sys.proxy, step.clock);
        ProxyCloseKeeps(sys.proxy, step.clock, sys.emitted);
      }
      hide ProxyState.Perform;
      hide ProxyState.Close;
      OvertakenKeeps(sys, next.proxy, m, n);
    }
    hide Ahead;
    hide Holds;
    hide IsFast;
  }

  lemma OvertakenKeeps(sys: System, proxy: ProxyState, m: nat, n: nat)
    requires Inv(sys) && Overtaken(sys, m, n) && !sys.proxy.failed
    requires Keeps(HostLink(sys), proxy.wire.rpc) && LinkGenuine(proxy.wire.rpc, sys.emitted)
    ensures Overtaken(sys.(proxy := proxy), m, n)
  {
    hide Keeps;
    hide Ahead;
    hide Holds;
    hide Sorted;
    hide IsFast;
    hide LinkGenuine;
    KeepsSorted(HostLink(sys), proxy.wire.rpc);
    if Ahead(HostLink(sys), m, n) {
      KeepsAhead(HostLink(sys), proxy.wire.rpc, m, n);
    } else {
      LacksKeeps(HostLink(sys), proxy.wire.rpc, sys.emitted, n);
    }
  }

  lemma KeepsAhead(before: RpcState, after: RpcState, m: nat, n: nat)
    requires Keeps(before, after) && Ahead(before, m, n)
    ensures Ahead(after, m, n)
  {
  }

  lemma LacksGives(before: RpcState, frame: ServerFrame, after: RpcState, emitted: seq<ServerFrame>, n: nat)
    requires Sorted(before) && Gives(before, frame, after) && LinkGenuine(after, emitted) && 1 <= n <= |emitted|
    requires emitted[n - 1].sequence == n && !Holds(before, n)
    ensures frame.sequence != n && !Holds(after, n)
  {
    HeldIsHeld(before, frame);
    if Holds(after, n) {
      HoldsMeans(after, emitted, n);
      HeldIsHeld(before, emitted[n - 1]);
    }
    hide Holds;
    hide PointersOn;
    hide CriticalsOn;
    hide LinkGenuine;
    hide Sorted;
    hide IsFast;
  }

  lemma RecvFailsWithError(proxy: ProxyState, clock: Reading)
    ensures proxy.TryRecv(clock).0.failed ==> proxy.TryRecv(clock).1.Err?
  {
    hide WireState.TryEvent;
  }

  lemma OvertakenAtPoll(sys: System, clock: Reading, m: nat, n: nat)
    requires Inv(sys) && Overtaken(sys, m, n)
    ensures Overtaken(Next(sys, HostPolls(clock)), m, n)
  {
    hide ProxyState.TryRecv;
    hide Keeps;
    hide Gives;
    hide Ahead;
    hide Holds;
    hide Sorted;
    hide IsFast;
    hide LinkGenuine;
    hide RpcState.TryEvent;
    hide WireState.RenewIfDue;
    NextKeepsInv(sys, HostPolls(clock));
    NextKeepsRoute(sys, HostPolls(clock));
    RecvFailsWithError(sys.proxy, clock);
    var (next, r) := sys.proxy.TryRecv(clock);
    if !next.failed {
      var ready := sys.proxy.wire.RenewIfDue(clock).0.rpc;
      ProxyRecvCarries(sys.proxy, clock);
      KeepsSorted(HostLink(sys), ready);
      RenewKeepsGenuine(sys.proxy.wire, clock, sys.emitted);
      if Ahead(HostLink(sys), m, n) {
        KeepsAhead(HostLink(sys), ready, m, n);
        AheadGives(ready, m, n);
        GivesSorted(ready, ready.TryEvent().1.value.value, next.wire.rpc);
      } else {
        LacksKeeps(HostLink(sys), ready, sys.emitted, n);
        if r.value.Some? {
          var frame := ready.TryEvent().1.value.value;
          LacksGives(ready, frame, next.wire.rpc, sys.emitted, n);
          GivesSorted(ready, frame, next.wire.rpc);
        }
      }
    }
  }

  lemma GivesSorted(before: RpcState, frame: ServerFrame, after: RpcState)
    requires Gives(before, frame, after)
    ensures Sorted(after) && IsEvent(frame)
  {
  }

  lemma BrokerHandleAnswers(sys: System, request: ClientFrame, nowMs: U64, random: Option<Leases.LeaseId>)
    requires LinkGenuine(sys.brokerLink, sys.emitted)
    ensures exists items :: Quiet(items) && HostLink(BrokerHandle(sys, request, nowMs, random)) == Arrive(HostLink(sys), items)
  {
    var answer := sys.brokerLink.Call(request).1;
    var env := Broker.Surroundings(nowMs, random, if answer.Ok? then Some(answer.value) else None);
    CallKeepsGenuine(sys.brokerLink, request, sys.emitted);
    BrokerAnswersNoEvent(sys.broker, request, env);
    var reply := sys.broker.Handle(request, env).1;
    var items := if reply.Ok? then [Frame(reply.value)] else [Frame(Answering(request, Error)), Broken];
    assert Quiet(items) && HostLink(BrokerHandle(sys, request, nowMs, random)) == Arrive(HostLink(sys), items);
    hide Broker.BrokerState.Handle;
    hide RpcState.Call;
    hide LinkGenuine;
  }

  lemma OvertakenAtBroker(sys: System, step: Step, m: nat, n: nat)
    requires Inv(sys) && Overtaken(sys, m, n) && step.BrokerHandles?
    ensures Overtaken(Next(sys, step), m, n)
  {
    hide LinkGenuine;
    hide Keeps;
    hide Ahead;
    hide Holds;
    hide Sorted;
    hide IsFast;
    hide Quiet;
    var next := BrokerHandle(sys, step.request, step.nowMs, step.random);
    BrokerHandleForwards(sys, step.request, step.nowMs, step.random, sys.emitted);
    BrokerHandleKeepsProxy(sys, step.request, step.nowMs, step.random);
    BrokerHandleMoves(sys, step.request, step.nowMs, step.random);
    BrokerHandleAnswers(sys, step.request, step.nowMs, step.random);
    var items :| Quiet(items) && HostLink(next) == Arrive(HostLink(sys), items);
    QuietArrives(HostLink(sys), items, m, n);
    if !next.broker.helperFailed && next.brokerLink != sys.brokerLink && Sorted(sys.brokerLink) && Ahead(sys.brokerLink, m, n) {
      CallCarries(sys.brokerLink, step.request);
      KeepsSorted(sys.brokerLink, next.brokerLink);
      KeepsAhead(sys.brokerLink, next.brokerLink, m, n);
    }
    hide BrokerHandle;
    hide Arrive;
    hide RpcState.Call;
  }

  lemma BrokerHandleKeepsProxy(sys: System, request: ClientFrame, nowMs: U64, random: Option<Leases.LeaseId>)
    ensures BrokerHandle(sys, request, nowMs, random).proxy.failed == sys.proxy.failed
  {
    hide Broker.BrokerState.Handle;
    hide RpcState.Call;
  }

  /** What a poll of the Broker brings the Host: nothing, a broken connection, or the event polled. */
  lemma BrokerPollArrives(sys: System)
    ensures var (link, polled) := sys.brokerLink.TryEvent(); var next := BrokerPoll(sys);
            && next.proxy.failed == sys.proxy.failed
            && (|| (polled.Ok? && polled.value.Some? && !next.broker.helperFailed && !sys.broker.helperFailed && next.brokerLink == link
                    && HostLink(next) == Arrive(HostLink(sys), [Frame(polled.value.value)]))
                || (polled == Ok(None) && next.brokerLink == link && next.proxy == sys.proxy && next.broker == sys.broker)
                || (next.broker.helperFailed && HostLink(next) == Arrive(HostLink(sys), [] + [Broken])))
  {
    var polled := sys.brokerLink.TryEvent().1;
    var offered := if polled.Ok? then Some(polled.value) else None;
    BrokerPassesTheFrame(sys.broker, offered);
    FailedLinkFailsPoll(sys.broker, offered);
    PassedMeansUnfailed(sys.broker, offered);
    hide RpcState.TryEvent;
    hide Broker.BrokerState.TryEvent;
  }

  lemma PassedMeansUnfailed(broker: Broker.BrokerState, polled: Option<Option<ServerFrame>>)
    ensures broker.TryEvent(polled).1.Ok? ==> !broker.TryEvent(polled).0.helperFailed
  {
  }

  lemma OvertakenAtRelay(sys: System, m: nat, n: nat)
    requires Inv(sys) && Overtaken(sys, m, n)
    ensures Overtaken(BrokerPoll(sys), m, n)
  {
    hide LinkGenuine;
    hide Gives;
    hide Ahead;
    hide Holds;
    hide Sorted;
    hide IsFast;
    var next := BrokerPoll(sys);
    var (link, polled) := sys.brokerLink.TryEvent();
    BrokerPollForwards(sys, sys.emitted);
    BrokerPollArrives(sys);
    hide BrokerPoll;
    TryEventIsGenuine(sys.brokerLink, sys.emitted);
    hide RpcState.TryEvent;
    if next.broker.helperFailed {
      assert Quiet([] + [Broken]);
      QuietArrives(HostLink(sys), [] + [Broken], m, n);
      hide Arrive;
    } else if polled.Ok? && polled.value.Some? {
      hide Arrive;
      var frame := polled.value.value;
      if Sorted(HostLink(sys)) && Ahead(HostLink(sys), m, n) {
        RelayStaysBehind(HostLink(sys), frame, sys.emitted, m, n);
      } else if !sys.proxy.failed {
        TryEventCarries(sys.brokerLink);
        GivesSorted(sys.brokerLink, frame, link);
        AheadGives(sys.brokerLink, m, n);
        RelayOvertakes(HostLink(sys), frame, sys.emitted, n);
      }
    }
  }

  lemma RelayStaysBehind(link: RpcState, frame: ServerFrame, emitted: seq<ServerFrame>, m: nat, n: nat)
    requires Sorted(link) && Ahead(link, m, n) && IsEvent(frame) && Genuine(frame, emitted) && 1 <= n <= |emitted| && IsFast(emitted[n - 1])
    ensures Sorted(Arrive(link, [Frame(frame)])) && Ahead(Arrive(link, [Frame(frame)]), m, n)
  {
    OneArrives(link, frame);
    assert EventFrames([Frame(frame)]) == [frame];
    SelectOne(frame);
    AheadArrives(link, [Frame(frame)], m, n);
    hide Ahead;
    hide Sorted;
    hide IsFast;
  }

  /** An event relayed to a link without pointer `n` is not `n`'s to overtake; a critical one is ahead of it. */
  lemma RelayOvertakes(link: RpcState, frame: ServerFrame, emitted: seq<ServerFrame>, n: nat)
    requires Sorted(link) && LinkGenuine(link, emitted) && IsEvent(frame) && frame.sequence != n && 1 <= n <= |emitted|
    requires emitted[n - 1].sequence == n && !Holds(link, n)
    ensures var next := Arrive(link, [Frame(frame)]);
            Sorted(next) && !Holds(next, n) && (!IsFast(frame) ==> Ahead(next, frame.sequence, n))
  {
    OneArrives(link, frame);
    var next := Arrive(link, [Frame(frame)]);
    if !IsFast(frame) {
      LastInFront(link.inbox, frame, n);
      forall f | f in CriticalsOn(next)
        ensures f.sequence != n
      {
        if f != frame {
          HeldIsHeld(link, f);
        }
      }
    }
    hide CriticalsOn;
    hide PointersOn;
    hide IsFast;
    hide IsEvent;
    hide InFront;
  }

  lemma OvertakenAtHelper(sys: System, step: Step, m: nat, n: nat)
    requires Inv(sys) && Overtaken(sys, m, n) && (step.HelperHandles? || step.HelperPolls?)
    ensures Overtaken(Next(sys, step), m, n)
  {
    hide Ahead;
    hide Holds;
    hide Sorted;
    hide IsFast;
    hide LinkGenuine;
    match step
    case HelperHandles(request, outcome) =>
      HelperResponds(sys.helper, request, outcome);
      var reply := sys.helper.Handle(request, outcome).1;
      if reply.Ok? {
        QuietArrives(sys.brokerLink, [Frame(reply.value)], m, n);
      }
      hide HelperState.Handle;
    case HelperPolls(polled) =>
      HelperNumbers(sys.helper, polled);
      var r := sys.helper.TryEvent(polled).1;
      if r.Ok? && r.value.Some? {
        var frame := r.value.value;
        assert (sys.emitted + [frame])[n - 1] == sys.emitted[n - 1] && (sys.emitted + [frame])[|sys.emitted|] == frame;
        if Sorted(sys.brokerLink) && Ahead(sys.brokerLink, m, n) {
          RelayStaysBehind(sys.brokerLink, frame, sys.emitted + [frame], m, n);
        }
      }
      hide HelperState.TryEvent;
    hide Arrive;
  }

  lemma NextStaysOvertaken(sys: System, step: Step, m: nat, n: nat)
    requires Inv(sys) && Overtaken(sys, m, n)
    ensures Overtaken(Next(sys, step), m, n)
  {
    match step
    case HelperHandles(_, _) => OvertakenAtHelper(sys, step, m, n);
    case HelperPolls(_) => OvertakenAtHelper(sys, step, m, n);
    case BrokerHandles(_, _, _) => OvertakenAtBroker(sys, step, m, n);
    case BrokerPolls => OvertakenAtRelay(sys, m, n);
    case BrokerExpires(_) => OvertakenQuietly(sys, step, m, n);
    case NoiseAtBroker(_) => OvertakenQuietly(sys, step, m, n);
    case NoiseAtHost(_) => OvertakenQuietly(sys, step, m, n);
    case LinkSends(_, _) => OvertakenQuietly(sys, step, m, n);
    case HostPerforms(_, _) => OvertakenAtHost(sys, step, m, n);
    case HostCloses(_) => OvertakenAtHost(sys, step, m, n);
    case HostPolls(clock) => OvertakenAtPoll(sys, clock, m, n);
    hide BrokerHandle;
    hide ProxyState.Perform;
    hide ProxyState.Close;
    hide ProxyState.TryRecv;
    hide Overtaken;
    hide LinkGenuine;
  }

  lemma OvertakenQuietly(sys: System, step: Step, m: nat, n: nat)
    requires Overtaken(sys, m, n) && (step.BrokerExpires? || step.NoiseAtBroker? || step.NoiseAtHost? || step.LinkSends?)
    ensures Overtaken(Next(sys, step), m, n)
  {
    match step
    case BrokerExpires(nowMs) => QuietArrives(HostLink(sys), [] + [Broken], m, n);
    case NoiseAtBroker(noise) =>
      if !CarriesEvent(noise) {
        QuietArrives(sys.brokerLink, [noise], m, n);
      }
    case NoiseAtHost(noise) =>
      if !CarriesEvent(noise) {
        QuietArrives(HostLink(sys), [noise], m, n);
      }
    case LinkSends(_, _) =>
    hide InFront;
    hide Select;
    hide EventFrames;
    hide IsFast;
  }

  lemma {:induction false} OvertakenRun(sys: System, steps: seq<Step>, m: nat, n: nat)
    requires Inv(sys) && Overtaken(sys, m, n)
    ensures Overtaken(Run(sys, steps), m, n)
    decreases |steps|
  {
    hide Next;
    hide Inv;
    hide Overtaken;
    if steps != [] {
      OvertakenRun(sys, steps[..|steps| - 1], m, n);
      RunKeepsInv(sys, steps[..|steps| - 1]);
      NextStaysOvertaken(Run(sys, steps[..|steps| - 1]), steps[|steps| - 1], m, n);
    }
  }

  predicate WaitsOn(link: RpcState, n: nat) {
    link.queue.fast.Some? && link.queue.fast.value.sequence == n
  }

  predicate QueuesCritical(link: RpcState, m: nat) {
    exists f <- link.queue.critical :: f.sequence == m
  }

  lemma WaitingIsPending(sys: System, link: RpcState, n: nat)
    requires Conserved(sys) && (link == HostLink(sys) || link == sys.brokerLink) && WaitsOn(link, n)
    ensures |sys.delivered| < n <= |sys.emitted| && IsFast(sys.emitted[n - 1])
    ensures PointersOn(link) != [] && PointersOn(link)[0] == sys.emitted[n - 1]
  {
    var pointer := link.queue.fast.value;
    assert pointer == PointersOn(link)[0];
    assert pointer in Pointers(sys);
    hide PointersOn;
    hide CriticalsOn;
    hide IsFast;
    hide Select;
    hide InOrder;
    hide HaveNewest;
  }

  lemma QueuedIsAhead(link: RpcState, emitted: seq<ServerFrame>, m: nat, n: nat)
    requires Sorted(link) && LinkGenuine(link, emitted) && 1 <= n <= |emitted| && IsFast(emitted[n - 1]) && QueuesCritical(link, m)
    ensures Ahead(link, m, n)
  {
    forall f | f in CriticalsOn(link)
      ensures f.sequence != n
    {
      CriticalIsGenuine(link, emitted, f);
    }
    hide CriticalsOn;
    hide InFront;
    hide LinkGenuine;
    hide IsFast;
  }

  lemma WaitingIsOvertaken(sys: System, atHost: bool, m: nat, n: nat)
    requires Inv(sys) && Conserved(sys) && n < m
    requires var link := if atHost then HostLink(sys) else sys.brokerLink; WaitsOn(link, n) && QueuesCritical(link, m)
    ensures Overtaken(sys, m, n)
  {
    var link := if atHost then HostLink(sys) else sys.brokerLink;
    WaitingIsPending(sys, link, n);
    QueuedIsAhead(link, sys.emitted, m, n);
    if !atHost {
      OnOneLink(PointersOn(HostLink(sys)), PointersOn(sys.brokerLink));
      if Holds(HostLink(sys), n) {
        HoldsMeans(HostLink(sys), sys.emitted, n);
      }
    }
    hide PointersOn;
    hide CriticalsOn;
    hide LinkGenuine;
    hide Holds;
    hide Ahead;
    hide Sorted;
    hide Select;
    hide IsFast;
    hide ArePending;
    hide HaveNewest;
    hide WaitsOn;
    hide QueuesCritical;
  }

  lemma OnOneLink(front: seq<ServerFrame>, back: seq<ServerFrame>)
    requires InOrder(front + back) && back != []
    ensures back[0] !in front
  {
    var all := front + back;
    forall i | 0 <= i < |front|
      ensures front[i] != back[0]
    {
      assert all[i] == front[i] && all[|front|] == back[0];
    }
  }

  lemma CriticalIsGenuine(link: RpcState, emitted: seq<ServerFrame>, frame: ServerFrame)
    requires Sorted(link) && LinkGenuine(link, emitted) && frame in CriticalsOn(link)
    ensures Genuine(frame, emitted) && !IsFast(frame)
  {
    SelectMembers(EventFrames(link.inbox), false, frame);
    EventFramesMembers(link.inbox, frame);
    hide Select;
    hide EventFrames;
    hide IsFast;
  }

  /**
   * A pointer that waits while a newer critical event is queued on the same link is
   * overtaken: critical events leave first, so the Host meets a number it does not expect.
   * From such a moment on no continuation hands it that pointer or any event after it.
   */
  lemma OvertakenPointerEndsDelivery(broker: Broker.BrokerState, route: ProxyRoute, displayName: string, frameSequence: U64, nowMs: U64,
                                     steps: seq<Step>, later: seq<Step>, atHost: bool, m: nat, n: nat)
    requires Unfailed(Run(FreshSystem(broker, route, displayName, frameSequence, nowMs), steps)) && n < m
    requires var sys := Run(FreshSystem(broker, route, displayName, frameSequence, nowMs), steps);
             var link := if atHost then HostLink(sys) else sys.brokerLink;
             WaitsOn(link, n) && QueuesCritical(link, m)
    ensures var sys := Run(FreshSystem(broker, route, displayName, frameSequence, nowMs), steps);
            |Run(sys, later).delivered| < n
  {
    var start := FreshSystem(broker, route, displayName, frameSequence, nowMs);
    StartConserves(broker, route, displayName, frameSequence, nowMs);
    RunKeepsInv(start, steps);
    RunConserves(start, steps);
    hide FreshSystem;
    hide Run;
    hide Inv;
    hide Conserved;
    hide Unfailed;
    hide WaitsOn;
    hide QueuesCritical;
    var sys := Run(start, steps);
    WaitingIsOvertaken(sys, atHost, m, n);
    OvertakenRun(sys, later, m, n);
    OvertakenIsUndelivered(Run(sys, later), m, n);
    hide Overtaken;
  }

  lemma OvertakenIsUndelivered(sys: System, m: nat, n: nat)
    requires Overtaken(sys, m, n)
    ensures |sys.delivered| < n
  {
  }
}
