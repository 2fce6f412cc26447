/**
 * What of the Helper's events is kept while neither end has failed: every critical event,
 * in order, and every fast pointer that no newer one replaced.
 */
module EventConservation {
  import opened Wrappers
  import opened Bytes
  import opened BridgeFrames
  import opened EventQueues
  import opened BridgeRpc
  import opened BridgeWire
  import opened Proxy
  import opened HelperProtocol
  import opened EventDelivery
  import Broker
  import Leases

  // ---- What the links hold while neither end has failed ----

  /** The event frames of an inbox, in order of arrival. */
  function EventFrames(inbox: seq<Incoming>): seq<ServerFrame> {
    if inbox == [] then []
    else (if CarriesEvent(inbox[0]) then [inbox[0].frame] else []) + EventFrames(inbox[1..])
  }

  /** The fast pointers among some events, or all the others, in order. */
  function Select(events: seq<ServerFrame>, fast: bool): seq<ServerFrame> {
    if events == [] then []
    else (if IsFast(events[0]) == fast then [events[0]] else []) + Select(events[1..], fast)
  }

  /** The critical events a link holds, oldest first. */
  function CriticalsOn(link: RpcState): seq<ServerFrame> {
    link.queue.critical + Select(EventFrames(link.inbox), false)
  }

  /** The fast pointers a link holds, oldest first: the waiting one, then those still to be received. */
  function PointersOn(link: RpcState): seq<ServerFrame> {
    (if link.queue.fast.Some? then [link.queue.fast.value] else []) + Select(EventFrames(link.inbox), true)
  }

  predicate Sorted(link: RpcState) {
    && !link.queue.failed
    && (forall f <- link.queue.critical :: IsEvent(f) && !IsFast(f))
    && (link.queue.fast.Some? ==> IsFast(link.queue.fast.value))
  }

  lemma Regroup(a: seq<ServerFrame>, b: seq<ServerFrame>, c: seq<ServerFrame>)
    ensures (a + b) + c == a + (b + c)
  {
  }

  lemma {:induction false} EventFramesConcat(a: seq<Incoming>, b: seq<Incoming>)
    ensures EventFrames(a + b) == EventFrames(a) + EventFrames(b)
    decreases |a|
  {
    if a == [] {
      assert a + b == b && [] + EventFrames(b) == EventFrames(b);
    } else {
      EventFramesConcat(a[1..], b);
      assert (a + b)[0] == a[0] && (a + b)[1..] == a[1..] + b;
      Regroup(if CarriesEvent(a[0]) then [a[0].frame] else [], EventFrames(a[1..]), EventFrames(b));
    }
    hide CarriesEvent;
  }

  lemma {:induction false} SelectConcat(a: seq<ServerFrame>, b: seq<ServerFrame>, fast: bool)
    ensures Select(a + b, fast) == Select(a, fast) + Select(b, fast)
    decreases |a|
  {
    if a == [] {
      assert a + b == b && [] + Select(b, fast) == Select(b, fast);
    } else {
      SelectConcat(a[1..], b, fast);
      assert (a + b)[0] == a[0] && (a + b)[1..] == a[1..] + b;
      Regroup(if IsFast(a[0]) == fast then [a[0]] else [], Select(a[1..], fast), Select(b, fast));
    }
    hide IsFast;
  }

  lemma {:induction false} SelectMembers(events: seq<ServerFrame>, fast: bool, frame: ServerFrame)
    ensures frame in Select(events, fast) <==> frame in events && IsFast(frame) == fast
    decreases |events|
  {
    hide IsFast;
    if events != [] {
      SelectMembers(events[1..], fast, frame);
      assert events == [events[0]] + events[1..];
    }
  }

  lemma {:induction false} EventFramesMembers(inbox: seq<Incoming>, frame: ServerFrame)
    ensures frame in EventFrames(inbox) <==> Frame(frame) in inbox && IsEvent(frame)
    decreases |inbox|
  {
    hide IsEvent;
    if inbox != [] {
      EventFramesMembers(inbox[1..], frame);
      assert inbox == [inbox[0]] + inbox[1..];
    }
  }

  lemma ArriveCarries(link: RpcState, items: seq<Incoming>)
    ensures Sorted(Arrive(link, items)) == Sorted(link)
    ensures CriticalsOn(Arrive(link, items)) == CriticalsOn(link) + Select(EventFrames(items), false)
    ensures PointersOn(Arrive(link, items)) == PointersOn(link) + Select(EventFrames(items), true)
  {
    EventFramesConcat(link.inbox, items);
    SelectConcat(EventFrames(link.inbox), EventFrames(items), false);
    SelectConcat(EventFrames(link.inbox), EventFrames(items), true);
    Regroup(link.queue.critical, Select(EventFrames(link.inbox), false), Select(EventFrames(items), false));
    Regroup(if link.queue.fast.Some? then [link.queue.fast.value] else [], Select(EventFrames(link.inbox), true), Select(EventFrames(items), true));
    hide Select;
    hide EventFrames;
    hide IsFast;
    hide IsEvent;
  }

  lemma OneArrives(link: RpcState, frame: ServerFrame)
    requires IsEvent(frame)
    ensures var next := Arrive(link, [Frame(frame)]);
            && Sorted(next) == Sorted(link)
            && CriticalsOn(next) == CriticalsOn(link) + (if IsFast(frame) then [] else [frame])
            && PointersOn(next) == PointersOn(link) + (if IsFast(frame) then [frame] else [])
  {
    ArriveCarries(link, [Frame(frame)]);
    assert EventFrames([Frame(frame)]) == [frame];
    SelectOne(frame);
  }

  lemma NoiseArrives(link: RpcState, noise: Incoming)
    requires !CarriesEvent(noise)
    ensures var next := Arrive(link, [noise]);
            Sorted(next) == Sorted(link) && CriticalsOn(next) == CriticalsOn(link) && PointersOn(next) == PointersOn(link)
  {
    ArriveCarries(link, [noise]);
    assert EventFrames([noise]) == [];
  }

  /** All but some of the oldest; the last is never among those dropped. */
  predicate IsTail(tail: seq<ServerFrame>, all: seq<ServerFrame>) {
    |tail| <= |all| && tail == all[|all| - |tail|..] && (tail == [] ==> all == [])
  }

  /** As the link goes through its inbox, a newer pointer arrives while pointer `n` is waiting. */
  predicate ReplacedAhead(link: RpcState, n: nat)
    decreases |link.inbox|
  {
    && link.inbox != [] && link.inbox[0].Frame?
    && var (queued, outcome) := link.(inbox := link.inbox[1..]).EnqueueEvent(link.inbox[0].frame);
       && outcome.Ok?
       && (|| (link.queue.fast.Some? && link.queue.fast.value.sequence == n && IsFast(link.inbox[0].frame))
           || ReplacedAhead(queued, n))
  }

  /** Critical event `m` arrives before pointer `n` does. */
  predicate InFront(inbox: seq<Incoming>, m: nat, n: nat) {
    && inbox != []
    && (|| (CarriesEvent(inbox[0]) && inbox[0].frame.sequence == m && !IsFast(inbox[0].frame))
        || (!(CarriesEvent(inbox[0]) && inbox[0].frame.sequence == n) && InFront(inbox[1..], m, n)))
  }

  /** Critical event `m` will leave the link before pointer `n`: critical events go first. */
  predicate Ahead(link: RpcState, m: nat, n: nat) {
    && (forall f <- CriticalsOn(link) :: f.sequence != n)
    && (|| (exists f <- link.queue.critical :: f.sequence == m)
        || ((link.queue.fast.Some? ==> link.queue.fast.value.sequence != n) && InFront(link.inbox, m, n)))
  }

  /** What calls do to a link: critical events all stay in order, only replaced pointers go. */
  ghost predicate Keeps(before: RpcState, after: RpcState) {
    && Sorted(after)
    && CriticalsOn(after) == CriticalsOn(before)
    && IsTail(PointersOn(after), PointersOn(before))
    && (forall n: nat | ReplacedAhead(after, n) :: ReplacedAhead(before, n))
    && (forall m: nat, n: nat | Ahead(before, m, n) :: Ahead(after, m, n))
    && (forall p <- PointersOn(before) :: p in PointersOn(after) || ReplacedAhead(before, p.sequence))
  }

  lemma KeepsItself(link: RpcState)
    requires Sorted(link)
    ensures Keeps(link, link)
  {
  }

  lemma KeepsTrans(first: RpcState, second: RpcState, third: RpcState)
    requires Keeps(first, second) && Keeps(second, third)
    ensures Keeps(first, third)
  {
    hide ReplacedAhead;
    hide Ahead;
    hide PointersOn;
    hide CriticalsOn;
    hide Sorted;
  }

  /** Taking one frame off the inbox moves an event to its queue, or hands a response over. */
  lemma EnqueueCarries(link: RpcState)
    requires Sorted(link) && link.inbox != [] && link.inbox[0].Frame?
    ensures var (next, outcome) := link.(inbox := link.inbox[1..]).EnqueueEvent(link.inbox[0].frame);
            outcome.Ok? ==>
              && Keeps(link, next) && next.inbox == link.inbox[1..]
              && (link.queue.fast.None? ==> PointersOn(next) == PointersOn(link))
  {
    var frame := link.inbox[0].frame;
    var (next, outcome) := link.(inbox := link.inbox[1..]).EnqueueEvent(frame);
    if outcome.Ok? {
      EnqueueMoves(link);
      assert forall n: nat | ReplacedAhead(next, n) :: ReplacedAhead(link, n);
      assert IsFast(frame) && link.queue.fast.Some? ==> ReplacedAhead(link, link.queue.fast.value.sequence);
      forall m: nat, n: nat | Ahead(link, m, n)
        ensures Ahead(next, m, n)
      {
        EnqueueKeepsAhead(link, m, n);
      }
    }
    hide Ahead;
    hide RpcState.EnqueueEvent;
    hide Sorted;
  }

  lemma EnqueueKeepsAhead(link: RpcState, m: nat, n: nat)
    requires Sorted(link) && link.inbox != [] && link.inbox[0].Frame? && Ahead(link, m, n)
    ensures var (next, outcome) := link.(inbox := link.inbox[1..]).EnqueueEvent(link.inbox[0].frame);
            outcome.Ok? ==> Ahead(next, m, n)
  {
    EnqueueMoves(link);
    EnqueueQueues(link);
    hide CriticalsOn;
    hide PointersOn;
    hide RpcState.EnqueueEvent;
    hide IsFast;
    hide Sorted;
  }

  lemma EnqueueQueues(link: RpcState)
    requires link.inbox != [] && link.inbox[0].Frame?
    ensures var frame := link.inbox[0].frame;
            var (next, outcome) := link.(inbox := link.inbox[1..]).EnqueueEvent(frame);
            outcome.Ok? ==>
              && next.queue.critical == link.queue.critical + (if IsEvent(frame) && !IsFast(frame) then [frame] else [])
              && next.queue.fast == if IsFast(frame) then Some(frame) else link.queue.fast
  {
  }

  lemma EnqueueMoves(link: RpcState)
    requires Sorted(link) && link.inbox != [] && link.inbox[0].Frame?
    ensures var frame := link.inbox[0].frame;
            var (next, outcome) := link.(inbox := link.inbox[1..]).EnqueueEvent(frame);
            outcome.Ok? ==>
              && Sorted(next) && next.inbox == link.inbox[1..] && CriticalsOn(next) == CriticalsOn(link)
              && PointersOn(next) == (if IsFast(frame) && link.queue.fast.Some? then PointersOn(link)[1..] else PointersOn(link))
              && (IsFast(frame) ==> PointersOn(next) != [])
  {
    InboxHead(link.inbox, false);
    InboxHead(link.inbox, true);
    hide EventFrames;
    hide Select;
    var frame := link.inbox[0].frame;
    var criticals, pointers := Select(EventFrames(link.inbox[1..]), false), Select(EventFrames(link.inbox[1..]), true);
    if IsFast(frame) {
      assert [] + criticals == criticals;
      if link.queue.fast.Some? {
        var older := link.queue.fast.value;
        assert ([older] + ([frame] + pointers))[1..] == [frame] + pointers;
      } else {
        assert [] + ([frame] + pointers) == [frame] + pointers;
      }
    } else if IsEvent(frame) {
      Regroup(link.queue.critical, [frame], criticals);
      assert [] + pointers == pointers;
    } else {
      assert [] + criticals == criticals && [] + pointers == pointers;
    }
  }

  lemma InboxHead(inbox: seq<Incoming>, fast: bool)
    requires inbox != []
    ensures Select(EventFrames(inbox), fast)
         == (if CarriesEvent(inbox[0]) && IsFast(inbox[0].frame) == fast then [inbox[0].frame] else []) + Select(EventFrames(inbox[1..]), fast)
  {
    hide IsFast;
    hide IsEvent;
    if CarriesEvent(inbox[0]) {
      var frame, rest := inbox[0].frame, EventFrames(inbox[1..]);
      assert ([frame] + rest)[0] == frame && ([frame] + rest)[1..] == rest;
    } else {
      assert EventFrames(inbox) == EventFrames(inbox[1..]);
      assert Select(EventFrames(inbox), fast) == [] + Select(EventFrames(inbox[1..]), fast);
    }
  }

  lemma {:induction false} AwaitCarries(link: RpcState, request: ClientFrame)
    requires Sorted(link)
    ensures var (next, reply) := link.AwaitResponse(request); reply.Ok? ==> Keeps(link, next)
    decreases |link.inbox|
  {
    hide Keeps;
    hide Sorted;
    if link.inbox != [] && link.inbox[0].Frame? {
      EnqueueCarries(link);
      var (queued, outcome) := link.(inbox := link.inbox[1..]).EnqueueEvent(link.inbox[0].frame);
      hide RpcState.EnqueueEvent;
      if outcome == Ok(None) {
        KeepsSorted(link, queued);
        AwaitCarries(queued, request);
        if queued.AwaitResponse(request).1.Ok? {
          KeepsTrans(link, queued, queued.AwaitResponse(request).0);
        }
      }
    }
  }

  lemma KeepsSorted(before: RpcState, after: RpcState)
    requires Keeps(before, after)
    ensures Sorted(after)
  {
  }

  /** A poll hands over the oldest held event of its kind. */
  predicate Gives(before: RpcState, frame: ServerFrame, after: RpcState) {
    && IsEvent(frame) && Sorted(after)
    && CriticalsOn(before) == (if IsFast(frame) then [] else [frame]) + CriticalsOn(after)
    && PointersOn(before) == (if IsFast(frame) then [frame] else []) + PointersOn(after)
  }

  lemma QueuedEventCarries(link: RpcState)
    requires Sorted(link)
    ensures var (next, r) := link.QueuedEvent();
            && r.Ok?
            && (r.value.Some? ==> Gives(link, r.value.value, next))
            && (r.value.None? ==> next == link && link.queue.critical == [] && link.queue.fast.None?)
  {
  }

  lemma TryEventCarries(link: RpcState)
    requires Sorted(link)
    ensures var (next, r) := link.TryEvent();
            r.Ok? ==> if r.value.Some? then Gives(link, r.value.value, next) else next == link
  {
    QueuedEventCarries(link);
    hide Gives;
    if !link.failed && link.QueuedEvent().1 == Ok(None) && link.inbox != [] && link.inbox[0].Frame? {
      EnqueueCarries(link);
      var (next, outcome) := link.(inbox := link.inbox[1..]).EnqueueEvent(link.inbox[0].frame);
      if outcome == Ok(None) {
        KeepsSorted(link, next);
        QueuedEventCarries(next);
        EnqueuedIsQueued(link);
        GivesAfter(link, next, next.QueuedEvent().1.value.value, next.QueuedEvent().0);
      }
    }
    hide RpcState.EnqueueEvent;
    hide RpcState.QueuedEvent;
    hide Sorted;
    hide Keeps;
  }

  lemma EnqueuedIsQueued(link: RpcState)
    requires link.inbox != [] && link.inbox[0].Frame?
    ensures var (next, outcome) := link.(inbox := link.inbox[1..]).EnqueueEvent(link.inbox[0].frame);
            outcome == Ok(None) ==> next.QueuedEvent().1.Ok? && next.QueuedEvent().1.value.Some?
  {
  }

  lemma GivesAfter(link: RpcState, next: RpcState, frame: ServerFrame, last: RpcState)
    requires Keeps(link, next) && PointersOn(next) == PointersOn(link) && Gives(next, frame, last)
    ensures Gives(link, frame, last)
  {
    hide ReplacedAhead;
    hide Ahead;
    hide PointersOn;
    hide CriticalsOn;
    hide Sorted;
  }

  lemma WireCallCarries(wire: WireState, route: ProxyRoute, payload: ClientPayload)
    requires Sorted(wire.rpc)
    ensures var (next, reply) := wire.Call(route, payload); reply.Ok? ==> Keeps(wire.rpc, next.rpc)
  {
    var request := ClientFrame(RequestId(route, wire.nextFrameSequence), wire.nextFrameSequence, Some(payload));
    if wire.rpc.Call(request).1.Ok? {
      CallCarries(wire.rpc, request);
    }
    hide RpcState.Call;
    hide Keeps;
    hide Sorted;
  }

  lemma RenewCarries(wire: WireState, clock: Reading)
    requires Sorted(wire.rpc)
    ensures var (next, error) := wire.RenewIfDue(clock); error.None? ==> Keeps(wire.rpc, next.rpc)
  {
    KeepsItself(wire.rpc);
    if wire.route.Some? {
      WireCallCarries(wire, wire.route.value, RenewLease(RefOf(wire.route.value)));
    }
    hide WireState.Call;
    hide Keeps;
    hide Sorted;
  }

  lemma WirePerformCarries(wire: WireState, request: BridgeRequest, op: WireOp, clock: Reading)
    requires Sorted(wire.rpc)
    ensures var (next, r) := wire.Perform(request, op, clock); r.Ok? ==> Keeps(wire.rpc, next.rpc)
  {
    PerformMakesCalls(wire, request, op, clock);
    if wire.Perform(request, op, clock).1.Ok? {
      KeepsItself(wire.rpc);
      RenewCarries(wire, clock);
      var ready := if op.RenewsFirst() then wire.RenewIfDue(clock).0 else wire;
      KeepsSorted(wire.rpc, ready.rpc);
      var payload := PayloadOf(op, request.route, wire.displayName);
      WireCallCarries(ready, request.route, payload);
      KeepsTrans(wire.rpc, ready.rpc, ready.Call(request.route, payload).0.rpc);
    }
    hide WireState.Perform;
    hide WireState.RenewIfDue;
    hide WireState.Call;
    hide PayloadOf;
    hide Keeps;
    hide Sorted;
  }

  /** An operation that succeeds is a renewal check, if it renews, and one call. */
  lemma PerformMakesCalls(wire: WireState, request: BridgeRequest, op: WireOp, clock: Reading)
    ensures var (next, r) := wire.Perform(request, op, clock);
            var (ready, error) := if op.RenewsFirst() then wire.RenewIfDue(clock) else (wire, None);
            var (sent, reply) := ready.Call(request.route, PayloadOf(op, request.route, wire.displayName));
            r.Ok? ==> error.None? && reply.Ok? && next.rpc == sent.rpc
  {
    DisplayNameIsFixed(wire, clock);
    var (ready, error) := if op.RenewsFirst() then wire.RenewIfDue(clock) else (wire, None);
    hide WireState.RenewIfDue;
    var (sent, reply) := ready.Call(request.route, PayloadOf(op, request.route, wire.displayName));
    hide PayloadOf;
    hide WireState.Call;
    if reply.Ok? {
      AcceptKeepsLink(sent, request, op, reply.value);
    }
    hide WireState.Accept;
  }

  lemma AcceptKeepsLink(wire: WireState, request: BridgeRequest, op: WireOp, response: ServerFrame)
    ensures var (next, r) := wire.Accept(request, op, response); r.Ok? ==> next.rpc == wire.rpc
  {
  }

  lemma ProxyPerformCarries(proxy: ProxyState, op: WireOp, clock: Reading)
    requires Sorted(proxy.wire.rpc) && !proxy.Perform(op, clock).0.failed
    ensures Keeps(proxy.wire.rpc, proxy.Perform(op, clock).0.wire.rpc)
  {
    KeepsItself(proxy.wire.rpc);
    WirePerformCarries(proxy.wire, BridgeRequest(proxy.route, proxy.nextRequestSequence), op, clock);
    hide WireState.Perform;
    hide Keeps;
    hide Sorted;
  }

  lemma PerformFailureSticks(proxy: ProxyState, op: WireOp, clock: Reading)
    requires proxy.failed
    ensures proxy.Perform(op, clock).0.failed
  {
  }

  lemma ProxyCloseCarries(proxy: ProxyState, clock: Reading)
    requires Sorted(proxy.wire.rpc) && !proxy.Close(clock).0.failed
    ensures Keeps(proxy.wire.rpc, proxy.Close(clock).0.wire.rpc)
  {
    KeepsItself(proxy.wire.rpc);
    if !proxy.closed {
      var first := proxy.Perform(WireOp.Close, clock).0;
      if first.failed {
        PerformFailureSticks(first, Release, clock);
      } else {
        ProxyPerformCarries(proxy, WireOp.Close, clock);
        KeepsSorted(proxy.wire.rpc, first.wire.rpc);
        ProxyPerformCarries(first, Release, clock);
        KeepsTrans(proxy.wire.rpc, first.wire.rpc, first.Perform(Release, clock).0.wire.rpc);
      }
    }
    hide ProxyState.Perform;
    hide Keeps;
    hide Sorted;
  }

  /** A poll that leaves the proxy open renews if due, and then hands over an event numbered next or finds none. */
  lemma ProxyRecvCarries(proxy: ProxyState, clock: Reading)
    requires Sorted(proxy.wire.rpc) && !proxy.TryRecv(clock).0.failed && proxy.lastEventSequence < U64_MAX
    ensures var (next, r) := proxy.TryRecv(clock);
            var ready := proxy.wire.RenewIfDue(clock).0.rpc;
            && r.Ok? && Keeps(proxy.wire.rpc, ready) && ready.TryEvent().1.Ok? && next.wire.rpc == ready.TryEvent().0
            && r.value.Some? == ready.TryEvent().1.value.Some?
            && (r.value.None? ==> next.wire.rpc == ready)
            && (r.value.Some? ==>
                  var frame := ready.TryEvent().1.value.value;
                  Gives(ready, frame, next.wire.rpc) && frame.sequence == proxy.lastEventSequence as int + 1)
  {
    RenewCarries(proxy.wire, clock);
    RecvReadsTheLink(proxy, clock);
    var (renewed, error) := proxy.wire.RenewIfDue(clock);
    KeepsSorted(proxy.wire.rpc, renewed.rpc);
    TryEventCarries(renewed.rpc);
    hide ProxyState.TryRecv;
    hide WireState.RenewIfDue;
    hide RpcState.TryEvent;
    hide Sorted;
    hide Keeps;
    hide Gives;
  }

  lemma RecvReadsTheLink(proxy: ProxyState, clock: Reading)
    requires !proxy.TryRecv(clock).0.failed && proxy.lastEventSequence < U64_MAX
    ensures var (next, r) := proxy.TryRecv(clock);
            var (ready, error) := proxy.wire.RenewIfDue(clock);
            && r.Ok? && error.None? && ready.rpc.TryEvent().1.Ok? && next.wire.rpc == ready.rpc.TryEvent().0
            && r.value.Some? == ready.rpc.TryEvent().1.value.Some?
            && (r.value.Some? ==> ready.rpc.TryEvent().1.value.value.sequence == proxy.lastEventSequence as int + 1)
  {
    WirePollReadsTheLink(proxy.wire, clock);
    var (next, r) := proxy.TryRecv(clock);
    assert proxy.wire.TryEvent(clock).1.Ok?;
    assert r.Ok?;
    assert next.wire == proxy.wire.TryEvent(clock).0;
    hide WireState.TryEvent;
    hide WireState.RenewIfDue;
    hide RpcState.TryEvent;
  }

  lemma WirePollReadsTheLink(wire: WireState, clock: Reading)
    ensures var (next, r) := wire.TryEvent(clock);
            var (ready, error) := wire.RenewIfDue(clock);
            r.Ok? ==>
              && error.None? && ready.rpc.TryEvent().1.Ok? && next.rpc == ready.rpc.TryEvent().0
              && r.value.Some? == ready.rpc.TryEvent().1.value.Some?
              && (r.value.Some? ==> ready.rpc.TryEvent().1.value.value.sequence == r.value.value.sequence)
  {
    var (ready, error) := wire.RenewIfDue(clock);
    var (link, polled) := ready.rpc.TryEvent();
    var (next, r) := wire.TryEvent(clock);
    if r.Ok? {
      assert error.None?;
      assert polled.Ok?;
      assert next.rpc == link;
    }
    hide WireState.RenewIfDue;
    hide RpcState.TryEvent;
  }

  // ---- Conservation ----

  predicate InOrder(pointers: seq<ServerFrame>) {
    forall i, j | 0 <= i < j < |pointers| :: pointers[i].sequence < pointers[j].sequence
  }

  predicate ArePending(pointers: seq<ServerFrame>, emitted: seq<ServerFrame>, delivered: nat) {
    forall i | 0 <= i < |pointers| :: IsFast(pointers[i]) && Genuine(pointers[i], emitted) && delivered < pointers[i].sequence
  }

  predicate HaveNewest(pointers: seq<ServerFrame>, emitted: seq<ServerFrame>, delivered: nat) {
    forall i | delivered <= i < |emitted| && IsFast(emitted[i]) :: pointers != [] && i < pointers[|pointers| - 1].sequence
  }

  /** `pointers` are undelivered fast pointers, each once and in order, and the newest of all is among them. */
  predicate Waiting(pointers: seq<ServerFrame>, emitted: seq<ServerFrame>, delivered: nat) {
    InOrder(pointers) && ArePending(pointers, emitted, delivered) && HaveNewest(pointers, emitted, delivered)
  }

  predicate Balanced(emitted: seq<ServerFrame>, delivered: nat, host: RpcState, broker: RpcState) {
    && delivered <= |emitted| && Sorted(host) && Sorted(broker)
    && Select(emitted[delivered..], false) == CriticalsOn(host) + CriticalsOn(broker)
    && Waiting(PointersOn(host) + PointersOn(broker), emitted, delivered)
  }

  predicate Conserved(sys: System) {
    Balanced(sys.emitted, |sys.delivered|, HostLink(sys), sys.brokerLink)
  }

  predicate Unfailed(sys: System) {
    !sys.proxy.failed && !sys.broker.helperFailed
  }

  lemma HostKeepsBalance(emitted: seq<ServerFrame>, delivered: nat, host: RpcState, next: RpcState, broker: RpcState)
    requires Balanced(emitted, delivered, host, broker) && Keeps(host, next)
    ensures Balanced(emitted, delivered, next, broker)
  {
    hide ReplacedAhead;
    hide Ahead;
    hide PointersOn;
    hide CriticalsOn;
    hide Sorted;
    var none: seq<ServerFrame> := [];
    assert none + PointersOn(host) == PointersOn(host) && none + PointersOn(next) == PointersOn(next);
    WaitingDrops(none, PointersOn(host), PointersOn(next), PointersOn(broker), emitted, delivered);
    hide Waiting;
    hide IsTail;
  }

  lemma BrokerKeepsBalance(emitted: seq<ServerFrame>, delivered: nat, host: RpcState, broker: RpcState, next: RpcState)
    requires Balanced(emitted, delivered, host, broker) && Keeps(broker, next)
    ensures Balanced(emitted, delivered, host, next)
  {
    hide ReplacedAhead;
    hide Ahead;
    hide PointersOn;
    hide CriticalsOn;
    hide Sorted;
    var none: seq<ServerFrame> := [];
    assert PointersOn(host) + PointersOn(broker) + none == PointersOn(host) + PointersOn(broker);
    assert PointersOn(host) + PointersOn(next) + none == PointersOn(host) + PointersOn(next);
    WaitingDrops(PointersOn(host), PointersOn(broker), PointersOn(next), none, emitted, delivered);
    hide Waiting;
    hide IsTail;
  }

  /** `left` is `all` without the `cut` elements that follow the first `from`. */
  predicate IsCut(left: seq<ServerFrame>, all: seq<ServerFrame>, from: nat, cut: nat) {
    && |all| == |left| + cut
    && forall i | 0 <= i < |left| :: left[i] == all[if i < from then i else i + cut]
  }

  lemma CutInOrder(left: seq<ServerFrame>, all: seq<ServerFrame>, from: nat, cut: nat)
    requires IsCut(left, all, from, cut) && InOrder(all)
    ensures InOrder(left)
  {
    forall i, j | 0 <= i < j < |left|
      ensures left[i].sequence < left[j].sequence
    {
      var k, l := if i < from then i else i + cut, if j < from then j else j + cut;
      assert left[i] == all[k] && left[j] == all[l] && k < l;
    }
  }

  lemma CutArePending(left: seq<ServerFrame>, all: seq<ServerFrame>, from: nat, cut: nat, emitted: seq<ServerFrame>, delivered: nat)
    requires IsCut(left, all, from, cut) && ArePending(all, emitted, delivered)
    ensures ArePending(left, emitted, delivered)
  {
    hide IsFast;
    hide Genuine;
    forall i | 0 <= i < |left|
      ensures IsFast(left[i]) && Genuine(left[i], emitted) && delivered < left[i].sequence
    {
      var k := if i < from then i else i + cut;
      assert left[i] == all[k];
    }
  }

  lemma SameLast(left: seq<ServerFrame>, all: seq<ServerFrame>, emitted: seq<ServerFrame>, delivered: nat)
    requires HaveNewest(all, emitted, delivered) && (all != [] ==> left != [] && left[|left| - 1] == all[|all| - 1])
    ensures HaveNewest(left, emitted, delivered)
  {
    hide IsFast;
  }

  lemma WaitingDrops(front: seq<ServerFrame>, before: seq<ServerFrame>, after: seq<ServerFrame>, back: seq<ServerFrame>,
                     emitted: seq<ServerFrame>, delivered: nat)
    requires Waiting(front + before + back, emitted, delivered) && IsTail(after, before)
    ensures Waiting(front + after + back, emitted, delivered)
  {
    var all, left, cut := front + before + back, front + after + back, |before| - |after|;
    assert IsCut(left, all, |front|, cut);
    hide InOrder;
    hide ArePending;
    hide HaveNewest;
    assert all != [] ==> left != [] && left[|left| - 1] == all[|all| - 1];
    hide IsTail;
    CutInOrder(left, all, |front|, cut);
    CutArePending(left, all, |front|, cut, emitted, delivered);
    SameLast(left, all, emitted, delivered);
    hide IsCut;
  }

  lemma DeliveryKeepsBalance(emitted: seq<ServerFrame>, delivered: nat, host: RpcState, frame: ServerFrame, next: RpcState, broker: RpcState)
    requires Balanced(emitted, delivered, host, broker) && Gives(host, frame, next)
    requires frame.sequence == delivered + 1 && Genuine(frame, emitted)
    ensures Balanced(emitted, delivered + 1, next, broker)
  {
    hide PointersOn;
    hide CriticalsOn;
    hide Sorted;
    hide Waiting;
    hide IsFast;
    SelectRest(emitted, delivered, frame);
    hide Select;
    Regroup(if IsFast(frame) then [frame] else [], PointersOn(next), PointersOn(broker));
    WaitingDelivers(PointersOn(next) + PointersOn(broker), frame, emitted, delivered);
    var head, rest := if IsFast(frame) then [] else [frame], Select(emitted[delivered + 1..], false);
    Regroup(head, CriticalsOn(next), CriticalsOn(broker));
    SameRest(head, rest, CriticalsOn(next) + CriticalsOn(broker));
  }

  lemma SelectRest(emitted: seq<ServerFrame>, delivered: nat, frame: ServerFrame)
    requires frame.sequence == delivered + 1 && Genuine(frame, emitted)
    ensures Select(emitted[delivered..], false) == (if IsFast(frame) then [] else [frame]) + Select(emitted[delivered + 1..], false)
  {
    hide IsFast;
    assert emitted[delivered..][0] == frame && emitted[delivered..][1..] == emitted[delivered + 1..];
  }

  lemma SameRest(head: seq<ServerFrame>, a: seq<ServerFrame>, b: seq<ServerFrame>)
    requires head + a == head + b
    ensures a == b
  {
    assert (head + a)[|head|..] == a && (head + b)[|head|..] == b;
  }

  lemma WaitingDelivers(left: seq<ServerFrame>, frame: ServerFrame, emitted: seq<ServerFrame>, delivered: nat)
    requires Waiting((if IsFast(frame) then [frame] else []) + left, emitted, delivered)
    requires frame.sequence == delivered + 1 && Genuine(frame, emitted)
    ensures Waiting(left, emitted, delivered + 1)
  {
    if IsFast(frame) {
      FirstDelivers(left, frame, emitted, delivered);
    } else {
      assert [] + left == left;
      OtherDelivers(left, frame, emitted, delivered);
    }
    hide Waiting;
    hide IsFast;
    hide Genuine;
  }

  lemma FirstDelivers(left: seq<ServerFrame>, frame: ServerFrame, emitted: seq<ServerFrame>, delivered: nat)
    requires Waiting([frame] + left, emitted, delivered) && frame.sequence == delivered + 1
    ensures Waiting(left, emitted, delivered + 1)
  {
    var all := [frame] + left;
    hide IsFast;
    hide Genuine;
    assert all[0] == frame && forall i | 0 <= i < |left| :: left[i] == all[i + 1];
    forall i | 0 <= i < |left|
      ensures IsFast(left[i]) && Genuine(left[i], emitted) && delivered + 1 < left[i].sequence
    {
      assert left[i] == all[i + 1];
    }
    assert left != [] ==> left[|left| - 1] == all[|all| - 1];
  }

  lemma OtherDelivers(left: seq<ServerFrame>, frame: ServerFrame, emitted: seq<ServerFrame>, delivered: nat)
    requires Waiting(left, emitted, delivered)
    requires !IsFast(frame) && frame.sequence == delivered + 1 && Genuine(frame, emitted)
    ensures Waiting(left, emitted, delivered + 1)
  {
    hide IsFast;
  }

  lemma RelayKeepsBalance(emitted: seq<ServerFrame>, delivered: nat, host: RpcState, broker: RpcState, frame: ServerFrame, next: RpcState)
    requires Balanced(emitted, delivered, host, broker) && Gives(broker, frame, next)
    ensures Balanced(emitted, delivered, Arrive(host, [Frame(frame)]), next)
  {
    OneArrives(host, frame);
    hide PointersOn;
    hide CriticalsOn;
    hide Sorted;
    hide Waiting;
    hide Select;
    hide IsFast;
    var after := Arrive(host, [Frame(frame)]);
    hide Arrive;
    Regroup(CriticalsOn(host), if IsFast(frame) then [] else [frame], CriticalsOn(next));
    Regroup(PointersOn(host), if IsFast(frame) then [frame] else [], PointersOn(next));
  }

  lemma EmissionKeepsBalance(emitted: seq<ServerFrame>, delivered: nat, host: RpcState, broker: RpcState, frame: ServerFrame)
    requires Balanced(emitted, delivered, host, broker) && IsEvent(frame) && frame.sequence == |emitted| + 1
    ensures Balanced(emitted + [frame], delivered, host, Arrive(broker, [Frame(frame)]))
  {
    hide PointersOn;
    hide CriticalsOn;
    hide Sorted;
    hide Waiting;
    OneArrives(broker, frame);
    hide Arrive;
    assert (emitted + [frame])[delivered..] == emitted[delivered..] + [frame];
    SelectConcat(emitted[delivered..], [frame], false);
    SelectOne(frame);
    hide Select;
    Regroup(CriticalsOn(host), CriticalsOn(broker), if IsFast(frame) then [] else [frame]);
    Regroup(PointersOn(host), PointersOn(broker), if IsFast(frame) then [frame] else []);
    WaitingGrows(PointersOn(host) + PointersOn(broker), emitted, delivered, frame);
    hide IsFast;
  }

  lemma SelectOne(frame: ServerFrame)
    ensures Select([frame], true) == if IsFast(frame) then [frame] else []
    ensures Select([frame], false) == if IsFast(frame) then [] else [frame]
  {
  }

  lemma WaitingGrows(pointers: seq<ServerFrame>, emitted: seq<ServerFrame>, delivered: nat, frame: ServerFrame)
    requires Waiting(pointers, emitted, delivered) && delivered <= |emitted| && frame.sequence == |emitted| + 1
    ensures Waiting(pointers + (if IsFast(frame) then [frame] else []), emitted + [frame], delivered)
  {
    var after := pointers + if IsFast(frame) then [frame] else [];
    forall i | 0 <= i < |after|
      ensures after[i] == (if i < |pointers| then pointers[i] else frame) && (i >= |pointers| ==> IsFast(frame))
    {
    }
    hide IsFast;
    assert InOrder(after) by {
      forall i, j | 0 <= i < j < |after|
        ensures after[i].sequence < after[j].sequence
      {
        assert after[i] == pointers[i];
        assert Genuine(pointers[i], emitted);
      }
    }
    NewestGrows(pointers, emitted, delivered, frame);
    hide HaveNewest;
    hide InOrder;
  }

  lemma NewestGrows(pointers: seq<ServerFrame>, emitted: seq<ServerFrame>, delivered: nat, frame: ServerFrame)
    requires HaveNewest(pointers, emitted, delivered) && frame.sequence == |emitted| + 1
    ensures HaveNewest(pointers + (if IsFast(frame) then [frame] else []), emitted + [frame], delivered)
  {
    var after, all := pointers + (if IsFast(frame) then [frame] else []), emitted + [frame];
    hide IsFast;
    if IsFast(frame) {
      assert after[|after| - 1] == frame;
    } else {
      assert after == pointers;
    }
    forall i | delivered <= i < |all| && IsFast(all[i])
      ensures after != [] && i < after[|after| - 1].sequence
    {
      if i < |emitted| {
        assert all[i] == emitted[i];
      }
    }
  }

  function Pointers(sys: System): seq<ServerFrame> {
    PointersOn(HostLink(sys)) + PointersOn(sys.brokerLink)
  }

  /** The step takes a link through its inbox, and a newer pointer replaces pointer `n` on the way. */
  predicate ReplacedBy(sys: System, step: Step, n: nat) {
    || (step.BrokerHandles? && ReplacedAhead(sys.brokerLink, n))
    || ((step.HostPerforms? || step.HostCloses? || step.HostPolls?) && ReplacedAhead(HostLink(sys), n))
  }

  /** No pointer leaves the links unless it is handed out or replaced. */
  predicate Accounted(sys: System, step: Step) {
    forall p <- Pointers(sys) ::
      p in Pointers(Next(sys, step)) || p.sequence <= |Next(sys, step).delivered| || ReplacedBy(sys, step, p.sequence)
  }

  lemma HelperFailureSticks(broker: Broker.BrokerState, request: ClientFrame, env: Broker.Surroundings)
    requires broker.helperFailed
    ensures broker.Handle(request, env).0.helperFailed
  {
  }

  /** A request answered `Ok` either never reached the Helper link or was answered over it. */
  lemma AnsweredOverTheLink(broker: Broker.BrokerState, request: ClientFrame, env: Broker.Surroundings)
    ensures var (next, reply) := broker.Handle(request, env);
            reply.Ok? && |next.log| > |broker.log| && next.log[|broker.log|].Exchanged? ==> env.answer.Some?
  {
  }

  lemma FailedLinkFailsPoll(broker: Broker.BrokerState, polled: Option<Option<ServerFrame>>)
    ensures var (next, r) := broker.TryEvent(polled);
            && (broker.helperFailed || polled.None? ==> next.helperFailed && r.Err?)
            && (!broker.helperFailed && polled == Some(None) ==> r == Ok(None) && next == broker)
  {
  }

  /** What a request does to the two links: at most one answer for the Host, and one call to the Helper. */
  lemma BrokerHandleMoves(sys: System, request: ClientFrame, nowMs: U64, random: Option<Leases.LeaseId>)
    requires LinkGenuine(sys.brokerLink, sys.emitted)
    ensures var next := BrokerHandle(sys, request, nowMs, random);
            || next.broker.helperFailed
            || (exists answer: ServerFrame :: !IsEvent(answer) && HostLink(next) == Arrive(HostLink(sys), [Frame(answer)]))
    ensures var next := BrokerHandle(sys, request, nowMs, random);
            || next.broker.helperFailed || next.brokerLink == sys.brokerLink
            || (sys.brokerLink.Call(request).1.Ok? && next.brokerLink == sys.brokerLink.Call(request).0)
    ensures sys.broker.helperFailed ==> BrokerHandle(sys, request, nowMs, random).broker.helperFailed
  {
    var answer := sys.brokerLink.Call(request).1;
    var env := Broker.Surroundings(nowMs, random, if answer.Ok? then Some(answer.value) else None);
    CallKeepsGenuine(sys.brokerLink, request, sys.emitted);
    BrokerAnswersNoEvent(sys.broker, request, env);
    AnsweredOverTheLink(sys.broker, request, env);
    if sys.broker.helperFailed {
      HelperFailureSticks(sys.broker, request, env);
    }
    hide Broker.BrokerState.Handle;
    hide RpcState.Call;
    hide LinkGenuine;
  }

  lemma CallCarries(link: RpcState, request: ClientFrame)
    requires Sorted(link) && link.Call(request).1.Ok?
    ensures Keeps(link, link.Call(request).0)
  {
    AwaitCarries(link, request);
    var next := link.AwaitResponse(request).0;
    KeepsUnsent(link, next, next.sent + [request]);
    hide Keeps;
  }

  lemma KeepsUnsent(before: RpcState, after: RpcState, sent: seq<ClientFrame>)
    requires Keeps(before, after)
    ensures Keeps(before, after.(sent := sent))
  {
    forall n: nat | ReplacedAhead(after.(sent := sent), n)
      ensures ReplacedAhead(before, n)
    {
      SentIsIrrelevant(after, sent, n);
    }
    SameHolding(after, sent);
    hide ReplacedAhead;
    hide Ahead;
    hide Sorted;
    hide CriticalsOn;
    hide PointersOn;
  }

  lemma SameHolding(link: RpcState, sent: seq<ClientFrame>)
    ensures var later := link.(sent := sent);
            && Sorted(later) == Sorted(link) && CriticalsOn(later) == CriticalsOn(link) && PointersOn(later) == PointersOn(link)
            && forall m: nat, n: nat :: Ahead(later, m, n) == Ahead(link, m, n)
  {
    hide Select;
    hide EventFrames;
    hide InFront;
    hide IsFast;
  }

  lemma {:induction false} SentIsIrrelevant(link: RpcState, sent: seq<ClientFrame>, n: nat)
    ensures ReplacedAhead(link.(sent := sent), n) == ReplacedAhead(link, n)
    decreases |link.inbox|
  {
    if link.inbox != [] && link.inbox[0].Frame? {
      var queued := link.(inbox := link.inbox[1..]).EnqueueEvent(link.inbox[0].frame).0;
      SentIsIrrelevant(queued, sent, n);
    }
  }

  lemma BrokerHandleConserves(sys: System, step: Step)
    requires Inv(sys) && Conserved(sys) && step.BrokerHandles? && Unfailed(Next(sys, step))
    ensures Conserved(Next(sys, step)) && Accounted(sys, step)
  {
    hide LinkGenuine;
    hide Sorted;
    hide PointersOn;
    hide CriticalsOn;
    var next := BrokerHandle(sys, step.request, step.nowMs, step.random);
    BrokerHandleForwards(sys, step.request, step.nowMs, step.random, sys.emitted);
    BrokerHandleMoves(sys, step.request, step.nowMs, step.random);
    hide BrokerHandle;
    if next.brokerLink != sys.brokerLink {
      CallCarries(sys.brokerLink, step.request);
      BrokerKeepsBalance(sys.emitted, |sys.delivered|, HostLink(sys), sys.brokerLink, next.brokerLink);
    }
    var answer: ServerFrame :| !IsEvent(answer) && HostLink(next) == Arrive(HostLink(sys), [Frame(answer)]);
    NoiseArrives(HostLink(sys), Frame(answer));
    hide Waiting;
    hide ReplacedAhead;
  }

  /** What a poll does to the two links: nothing, or one event moves from one to the other. */
  lemma BrokerPollMoves(sys: System)
    ensures var (link, polled) := sys.brokerLink.TryEvent(); var next := BrokerPoll(sys);
            || next.broker.helperFailed
            || (polled == Ok(None) && next.brokerLink == link && next.proxy == sys.proxy)
            || (polled.Ok? && polled.value.Some? && next.brokerLink == link
                && HostLink(next) == Arrive(HostLink(sys), [Frame(polled.value.value)]))
    ensures sys.broker.helperFailed ==> BrokerPoll(sys).broker.helperFailed
  {
    var polled := sys.brokerLink.TryEvent().1;
    var offered := if polled.Ok? then Some(polled.value) else None;
    BrokerPassesTheFrame(sys.broker, offered);
    FailedLinkFailsPoll(sys.broker, offered);
    hide RpcState.TryEvent;
    hide Broker.BrokerState.TryEvent;
  }

  lemma BrokerPollConserves(sys: System)
    requires Conserved(sys) && LinksGenuine(sys, sys.emitted) && Unfailed(BrokerPoll(sys))
    ensures Conserved(BrokerPoll(sys)) && Accounted(sys, BrokerPolls)
  {
    hide Sorted;
    hide PointersOn;
    hide CriticalsOn;
    BrokerPollForwards(sys, sys.emitted);
    BrokerPollMoves(sys);
    TryEventCarries(sys.brokerLink);
    var (link, polled) := sys.brokerLink.TryEvent();
    hide BrokerPoll;
    hide RpcState.TryEvent;
    hide LinkGenuine;
    if polled.value.Some? {
      RelayKeepsBalance(sys.emitted, |sys.delivered|, HostLink(sys), sys.brokerLink, polled.value.value, link);
      OneArrives(HostLink(sys), polled.value.value);
    }
    hide Waiting;
  }

  lemma MorePointersAccount(sys: System, step: Step, more: seq<ServerFrame>)
    requires Pointers(Next(sys, step)) == Pointers(sys) + more
    ensures Accounted(sys, step)
  {
    hide Next;
    hide Pointers;
    hide ReplacedBy;
  }

  lemma HelperPollConserves(sys: System, polled: Result<Option<ProxyEvent>, HelperError>)
    requires Inv(sys) && Conserved(sys)
    ensures Conserved(Next(sys, HelperPolls(polled))) && Accounted(sys, HelperPolls(polled))
  {
    hide LinkGenuine;
    hide Balanced;
    hide Accounted;
    hide PointersOn;
    hide Arrive;
    HelperNumbers(sys.helper, polled);
    var (next, r) := sys.helper.TryEvent(polled);
    hide HelperState.TryEvent;
    if r.Ok? && r.value.Some? {
      var frame := r.value.value;
      EmissionKeepsBalance(sys.emitted, |sys.delivered|, HostLink(sys), sys.brokerLink, frame);
      OneArrives(sys.brokerLink, frame);
      var more := if IsFast(frame) then [frame] else [];
      Regroup(PointersOn(HostLink(sys)), PointersOn(sys.brokerLink), more);
      MorePointersAccount(sys, HelperPolls(polled), more);
    } else {
      assert Pointers(sys) + [] == Pointers(sys);
      MorePointersAccount(sys, HelperPolls(polled), []);
    }
    hide IsFast;
    hide CriticalsOn;
    hide Sorted;
  }

  lemma HelperHandleConserves(sys: System, request: ClientFrame, outcome: BackendOutcome)
    requires Conserved(sys)
    ensures Conserved(Next(sys, HelperHandles(request, outcome))) && Accounted(sys, HelperHandles(request, outcome))
  {
    HelperResponds(sys.helper, request, outcome);
    var reply := sys.helper.Handle(request, outcome).1;
    if reply.Ok? {
      NoiseArrives(sys.brokerLink, Frame(reply.value));
    }
    hide HelperState.Handle;
    hide Sorted;
    hide PointersOn;
    hide CriticalsOn;
    hide Waiting;
  }

  lemma HostCallConserves(sys: System, step: Step)
    requires Conserved(sys) && (step.HostPerforms? || step.HostCloses?) && Unfailed(Next(sys, step))
    ensures Conserved(Next(sys, step)) && Accounted(sys, step)
  {
    hide Sorted;
    hide PointersOn;
    hide CriticalsOn;
    if step.HostPerforms? {
      ProxyPerformCarries(sys.proxy, step.op, step.clock);
    } else {
      ProxyCloseCarries(sys.proxy, step.clock);
    }
    HostKeepsBalance(sys.emitted, |sys.delivered|, HostLink(sys), HostLink(Next(sys, step)), sys.brokerLink);
    hide ProxyState.Perform;
    hide ProxyState.Close;
    hide Waiting;
    hide ReplacedAhead;
  }

  lemma HostPollConserves(sys: System, clock: Reading)
    requires Inv(sys) && Conserved(sys) && Unfailed(Next(sys, HostPolls(clock)))
    ensures Conserved(Next(sys, HostPolls(clock))) && Accounted(sys, HostPolls(clock))
  {
    hide ProxyState.TryRecv;
    hide LinkGenuine;
    hide Balanced;
    hide Gives;
    hide Keeps;
    hide PointersOn;
    hide Accounted;
    assert sys.proxy.lastEventSequence < U64_MAX;
    BalancedIsSorted(sys.emitted, |sys.delivered|, HostLink(sys), sys.brokerLink);
    ProxyRecvCarries(sys.proxy, clock);
    var (next, r) := sys.proxy.TryRecv(clock);
    var ready := sys.proxy.wire.RenewIfDue(clock).0.rpc;
    HostKeepsBalance(sys.emitted, |sys.delivered|, HostLink(sys), ready, sys.brokerLink);
    hide Sorted;
    if r.value.Some? {
      var frame := ready.TryEvent().1.value.value;
      RenewKeepsGenuine(sys.proxy.wire, clock, sys.emitted);
      TryEventIsGenuine(ready, sys.emitted);
      DeliveryKeepsBalance(sys.emitted, |sys.delivered|, ready, frame, next.wire.rpc, sys.brokerLink);
    }
    PollAccounts(sys, clock);
    hide RpcState.TryEvent;
    hide WireState.RenewIfDue;
    hide Numbered;
    hide DeliveredPrefix;
  }

  lemma BalancedIsSorted(emitted: seq<ServerFrame>, delivered: nat, host: RpcState, broker: RpcState)
    requires Balanced(emitted, delivered, host, broker)
    ensures Sorted(host) && Sorted(broker)
  {
  }

  lemma PollAccounts(sys: System, clock: Reading)
    requires Sorted(HostLink(sys)) && sys.proxy.lastEventSequence == |sys.delivered| < U64_MAX
    requires Unfailed(Next(sys, HostPolls(clock)))
    ensures Accounted(sys, HostPolls(clock))
  {
    ProxyRecvCarries(sys.proxy, clock);
    hide ProxyState.TryRecv;
    hide RpcState.TryEvent;
    hide WireState.RenewIfDue;
    hide ReplacedAhead;
    hide Ahead;
    hide PointersOn;
    hide CriticalsOn;
    hide Sorted;
    hide IsFast;
  }

  lemma SameHoldings(sys: System, step: Step)
    requires var next := Next(sys, step);
             && next.emitted == sys.emitted && next.delivered == sys.delivered
             && Sorted(HostLink(next)) == Sorted(HostLink(sys)) && Sorted(next.brokerLink) == Sorted(sys.brokerLink)
             && CriticalsOn(HostLink(next)) == CriticalsOn(HostLink(sys)) && CriticalsOn(next.brokerLink) == CriticalsOn(sys.brokerLink)
             && PointersOn(HostLink(next)) == PointersOn(HostLink(sys)) && PointersOn(next.brokerLink) == PointersOn(sys.brokerLink)
    requires Conserved(sys)
    ensures Conserved(Next(sys, step)) && Accounted(sys, step)
  {
    hide Next;
    hide Sorted;
    hide CriticalsOn;
    hide PointersOn;
    hide Waiting;
    hide Select;
    hide ReplacedBy;
  }

  lemma LinkStepConserves(sys: System, step: Step)
    requires Conserved(sys) && (step.NoiseAtBroker? || step.NoiseAtHost? || step.LinkSends?)
    ensures Conserved(Next(sys, step)) && Accounted(sys, step)
  {
    hide Conserved;
    hide Accounted;
    hide Select;
    hide EventFrames;
    hide IsFast;
    match step
    case NoiseAtBroker(noise) =>
      if !CarriesEvent(noise) {
        NoiseArrives(sys.brokerLink, noise);
      }
      SameHoldings(sys, step);
    case NoiseAtHost(noise) =>
      if !CarriesEvent(noise) {
        NoiseArrives(HostLink(sys), noise);
      }
      SameHoldings(sys, step);
    case LinkSends(_, _) => SameHoldings(sys, step);
  }

  lemma ExpiryConserves(sys: System, nowMs: U64)
    requires Conserved(sys) && Unfailed(Next(sys, BrokerExpires(nowMs)))
    ensures Conserved(Next(sys, BrokerExpires(nowMs))) && Accounted(sys, BrokerExpires(nowMs))
  {
    hide Conserved;
    hide Accounted;
    SameHoldings(sys, BrokerExpires(nowMs));
  }

  lemma NextConserves(sys: System, step: Step)
    requires Inv(sys) && Conserved(sys) && Unfailed(Next(sys, step))
    ensures Conserved(Next(sys, step)) && Accounted(sys, step)
  {
    match step
    case HelperHandles(request, outcome) => HelperHandleConserves(sys, request, outcome);
    case HelperPolls(polled) => HelperPollConserves(sys, polled);
    case BrokerHandles(_, _, _) => BrokerHandleConserves(sys, step);
    case BrokerPolls => BrokerPollConserves(sys);
    case BrokerExpires(nowMs) => ExpiryConserves(sys, nowMs);
    case NoiseAtBroker(_) => LinkStepConserves(sys, step);
    case NoiseAtHost(_) => LinkStepConserves(sys, step);
    case LinkSends(_, _) => LinkStepConserves(sys, step);
    case HostPerforms(_, _) => HostCallConserves(sys, step);
    case HostCloses(_) => HostCallConserves(sys, step);
    case HostPolls(clock) => HostPollConserves(sys, clock);
    hide BrokerHandle;
    hide BrokerPoll;
    hide Conserved;
    hide Accounted;
    hide LinkGenuine;
    hide ProxyState.Perform;
    hide ProxyState.Close;
    hide ProxyState.TryRecv;
  }

  /** Failures last. */
  lemma UnfailedBefore(sys: System, step: Step)
    requires LinkGenuine(sys.brokerLink, sys.emitted) && Unfailed(Next(sys, step))
    ensures Unfailed(sys)
  {
    NextKeepsRoute(sys, step);
    if step.BrokerHandles? {
      BrokerHandleMoves(sys, step.request, step.nowMs, step.random);
    }
    BrokerPollMoves(sys);
    hide BrokerHandle;
    hide BrokerPoll;
    hide LinkGenuine;
  }

  lemma {:induction false} RunConserves(sys: System, steps: seq<Step>)
    requires Inv(sys) && Conserved(sys)
    ensures Unfailed(Run(sys, steps)) ==> Conserved(Run(sys, steps))
    decreases |steps|
  {
    hide Next;
    hide Conserved;
    if steps != [] {
      RunKeepsInv(sys, steps[..|steps| - 1]);
      RunConserves(sys, steps[..|steps| - 1]);
      var before := Run(sys, steps[..|steps| - 1]);
      if Unfailed(Run(sys, steps)) {
        UnfailedBefore(before, steps[|steps| - 1]);
        NextConserves(before, steps[|steps| - 1]);
      }
      hide LinkGenuine;
    }
  }

  lemma StartConserves(broker: Broker.BrokerState, route: ProxyRoute, displayName: string, frameSequence: U64, nowMs: U64)
    ensures var sys := FreshSystem(broker, route, displayName, frameSequence, nowMs); Inv(sys) && Conserved(sys)
  {
  }

  /**
   * Conservation, in every run in which neither end has failed closed: the critical events
   * emitted and not yet delivered are on the two links, each once and in order; the fast
   * pointers there are undelivered, each once and in order, and if any is undelivered the
   * newest of them is among them.
   */
  lemma NothingCriticalIsLost(broker: Broker.BrokerState, route: ProxyRoute, displayName: string, frameSequence: U64, nowMs: U64, steps: seq<Step>)
    ensures var sys := Run(FreshSystem(broker, route, displayName, frameSequence, nowMs), steps);
            Unfailed(sys) ==>
              && |sys.delivered| <= |sys.emitted|
              && Select(sys.emitted[|sys.delivered|..], false) == CriticalsOn(HostLink(sys)) + CriticalsOn(sys.brokerLink)
              && Waiting(Pointers(sys), sys.emitted, |sys.delivered|)
  {
    StartConserves(broker, route, displayName, frameSequence, nowMs);
    RunConserves(FreshSystem(broker, route, displayName, frameSequence, nowMs), steps);
  }

  lemma {:induction false} SelectAll(events: seq<ServerFrame>)
    requires forall f <- events :: !IsFast(f)
    ensures Select(events, false) == events
    decreases |events|
  {
    hide IsFast;
    if events != [] {
      assert events == [events[0]] + events[1..] && events[0] in events;
      SelectAll(events[1..]);
    }
  }

  /** While no fast pointer has been sent either, every event not yet delivered is on a link, once and in order. */
  lemma NothingIsLost(broker: Broker.BrokerState, route: ProxyRoute, displayName: string, frameSequence: U64, nowMs: U64, steps: seq<Step>)
    ensures var sys := Run(FreshSystem(broker, route, displayName, frameSequence, nowMs), steps);
            Unfailed(sys) && (forall f <- sys.emitted :: !IsFast(f)) ==>
              && |sys.delivered| <= |sys.emitted|
              && sys.emitted[|sys.delivered|..] == CriticalsOn(HostLink(sys)) + CriticalsOn(sys.brokerLink)
              && (CriticalsOn(HostLink(sys)) + CriticalsOn(sys.brokerLink) == [] ==> |sys.delivered| == |sys.emitted|)
  {
    NothingCriticalIsLost(broker, route, displayName, frameSequence, nowMs, steps);
    var sys := Run(FreshSystem(broker, route, displayName, frameSequence, nowMs), steps);
    if Unfailed(sys) && (forall f <- sys.emitted :: !IsFast(f)) {
      SelectAll(sys.emitted[|sys.delivered|..]);
    }
    hide Run;
    hide FreshSystem;
    hide Select;
    hide IsFast;
    hide Waiting;
  }

  // ---- Only replaced pointers are lost ----

  lemma HeldIsHeld(link: RpcState, frame: ServerFrame)
    requires frame in CriticalsOn(link) || frame in PointersOn(link)
    requires Sorted(link)
    ensures Holds(link, frame.sequence)
  {
    SelectMembers(EventFrames(link.inbox), true, frame);
    SelectMembers(EventFrames(link.inbox), false, frame);
    EventFramesMembers(link.inbox, frame);
    hide Select;
    hide EventFrames;
    hide IsFast;
    if frame in EventFrames(link.inbox) {
      assert Frame(frame) in link.inbox && CarriesEvent(Frame(frame));
    }
  }

  lemma HoldsMeans(link: RpcState, emitted: seq<ServerFrame>, n: nat)
    requires Sorted(link) && LinkGenuine(link, emitted) && 1 <= n <= |emitted| && Holds(link, n)
    ensures emitted[n - 1] in if IsFast(emitted[n - 1]) then PointersOn(link) else CriticalsOn(link)
  {
    var frame := emitted[n - 1];
    SelectMembers(EventFrames(link.inbox), IsFast(frame), frame);
    EventFramesMembers(link.inbox, frame);
    HeldIsEmitted(link, emitted, n);
    hide Select;
    hide EventFrames;
    hide IsFast;
    hide Holds;
    hide LinkGenuine;
    hide IsEvent;
  }

  lemma HeldIsEmitted(link: RpcState, emitted: seq<ServerFrame>, n: nat)
    requires LinkGenuine(link, emitted) && 1 <= n <= |emitted| && Holds(link, n)
    ensures var frame := emitted[n - 1];
            (Frame(frame) in link.inbox && IsEvent(frame)) || frame in link.queue.critical || link.queue.fast == Some(frame)
  {
    hide IsEvent;
  }

  /** While neither end has failed, an event on neither link is a fast pointer, and a newer one is on a link. */
  lemma LostIsAnOlderPointer(sys: System, n: nat)
    requires Inv(sys) && Conserved(sys) && IsLost(sys, n)
    ensures IsFast(sys.emitted[n - 1]) && exists p <- Pointers(sys) :: n < p.sequence
  {
    hide LinkGenuine;
    hide PointersOn;
    hide CriticalsOn;
    hide IsFast;
    LostMeansOnNeitherLink(sys, n);
    var frame, d := sys.emitted[n - 1], |sys.delivered|;
    if !IsFast(frame) {
      assert sys.emitted[d..][n - 1 - d] == frame;
      SelectMembers(sys.emitted[d..], false, frame);
      HeldIsHeld(if frame in CriticalsOn(HostLink(sys)) then HostLink(sys) else sys.brokerLink, frame);
    } else {
      var newest := Pointers(sys)[|Pointers(sys)| - 1];
      assert newest in Pointers(sys) && n <= newest.sequence;
      HeldIsHeld(if newest in PointersOn(HostLink(sys)) then HostLink(sys) else sys.brokerLink, newest);
    }
    hide Sorted;
    hide Holds;
    hide Select;
  }

  lemma NextGrows(sys: System, step: Step)
    requires Inv(sys)
    ensures var next := Next(sys, step);
            sys.emitted <= next.emitted && |next.emitted| <= |sys.emitted| + 1 && |sys.delivered| <= |next.delivered|
  {
    if step.BrokerHandles? {
      BrokerHandleForwards(sys, step.request, step.nowMs, step.random, sys.emitted);
    }
    BrokerPollForwards(sys, sys.emitted);
    hide BrokerHandle;
    hide BrokerPoll;
    hide ProxyState.Perform;
    hide ProxyState.Close;
    hide ProxyState.TryRecv;
    hide LinkGenuine;
  }

  /** A step that loses an event takes the link that held it past the arrival of a newer pointer. */
  lemma LosingStepReplaces(sys: System, step: Step, n: nat)
    requires Inv(sys) && Conserved(sys) && Unfailed(Next(sys, step)) && !IsLost(sys, n) && IsLost(Next(sys, step), n)
    ensures ReplacedBy(sys, step, n)
  {
    var next := Next(sys, step);
    NextKeepsInv(sys, step);
    NextConserves(sys, step);
    NextGrows(sys, step);
    LostIsAnOlderPointer(next, n);
    PointersAreEmitted(next);
    hide Next;
    var frame := next.emitted[n - 1];
    assert n <= |sys.emitted| && sys.emitted[n - 1] == frame;
    LostMeansOnNeitherLink(sys, n);
    LostMeansOnNeitherLink(next, n);
    HoldsMeans(if Holds(HostLink(sys), n) then HostLink(sys) else sys.brokerLink, sys.emitted, n);
    assert frame in Pointers(sys);
    if frame in Pointers(next) {
      HeldIsHeld(if frame in PointersOn(HostLink(next)) then HostLink(next) else next.brokerLink, frame);
    }
    hide LinkGenuine;
    hide IsFast;
    hide PointersOn;
    hide CriticalsOn;
    hide Sorted;
    hide Holds;
    hide ReplacedBy;
    hide Waiting;
    hide Select;
  }

  lemma PointersAreEmitted(sys: System)
    requires Conserved(sys)
    ensures forall p <- Pointers(sys) :: p.sequence <= |sys.emitted|
  {
    hide PointersOn;
    hide CriticalsOn;
    hide IsFast;
  }

  lemma {:induction false} LostWasReplaced(sys: System, steps: seq<Step>, n: nat)
    requires Inv(sys) && Conserved(sys) && !IsLost(sys, n) && Unfailed(Run(sys, steps)) && IsLost(Run(sys, steps), n)
    ensures exists k | 0 <= k < |steps| :: ReplacedBy(Run(sys, steps[..k]), steps[k], n)
    decreases |steps|
  {
    hide Next;
    hide Inv;
    hide Conserved;
    hide IsLost;
    hide ReplacedBy;
    var last := |steps| - 1;
    var before := Run(sys, steps[..last]);
    RunKeepsInv(sys, steps[..last]);
    InvMeansGenuine(before);
    UnfailedBefore(before, steps[last]);
    if IsLost(before, n) {
      LostWasReplaced(sys, steps[..last], n);
      var k :| 0 <= k < last && ReplacedBy(Run(sys, steps[..last][..k]), steps[..last][k], n);
      assert steps[..last][..k] == steps[..k];
    } else {
      RunConserves(sys, steps[..last]);
      LosingStepReplaces(before, steps[last], n);
    }
  }

  lemma InvMeansGenuine(sys: System)
    requires Inv(sys)
    ensures LinkGenuine(sys.brokerLink, sys.emitted)
  {
  }

  /**
   * What can be lost, in every run in which neither end has failed closed: an event that is
   * undelivered and on neither link is a fast pointer; a newer one is still on a link; and
   * at some step of the run a newer one arrived while it was waiting.
   */
  lemma OnlyReplacedPointersAreLost(broker: Broker.BrokerState, route: ProxyRoute, displayName: string, frameSequence: U64, nowMs: U64,
                                    steps: seq<Step>, n: nat)
    ensures var start := FreshSystem(broker, route, displayName, frameSequence, nowMs);
            var sys := Run(start, steps);
            Unfailed(sys) && IsLost(sys, n) ==>
              && IsFast(sys.emitted[n - 1])
              && (exists p <- Pointers(sys) :: n < p.sequence)
              && (exists k | 0 <= k < |steps| :: ReplacedBy(Run(start, steps[..k]), steps[k], n))
  {
    var start := FreshSystem(broker, route, displayName, frameSequence, nowMs);
    StartConserves(broker, route, displayName, frameSequence, nowMs);
    assert !IsLost(start, n);
    hide FreshSystem;
    RunKeepsInv(start, steps);
    RunConserves(start, steps);
    hide Conserved;
    hide Inv;
    hide Run;
    if Unfailed(Run(start, steps)) && IsLost(Run(start, steps), n) {
      LostIsAnOlderPointer(Run(start, steps), n);
      LostWasReplaced(start, steps, n);
    }
    hide ReplacedBy;
    hide IsFast;
    hide Unfailed;
    hide Pointers;
    hide LinksGenuine;
  }
}
