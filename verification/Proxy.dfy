/** The Host's fail-closed proxy of the Helper's peer (crates/privileged-bridge/src/proxy.rs). */
module Proxy {
  import opened Wrappers
  import opened Bytes
  import opened BridgeFrames
  import opened BridgeRpc
  import opened BridgeWire

  datatype ProxyState = ProxyState(
    route: ProxyRoute,
    nextRequestSequence: U64,
    lastEventSequence: U64,
    wire: WireState,
    failed: bool,
    closed: bool)
  {
    function FailClosed(): ProxyState {
      if failed then this else this.(failed := true, wire := wire.FailClosed())
    }

    function Perform(op: WireOp, clock: Reading): (ProxyState, Result<OpValue, ProxyError>) {
      if failed then (this, Err(FailedClosed))
      else
        var request := BridgeRequest(route, nextRequestSequence);
        match CheckedAdd(nextRequestSequence, 1)
        case None => (this, Err(FailedClosed))
        case Some(next) =>
          var (after, reply) := wire.Perform(request, op, clock);
          var sent := this.(nextRequestSequence := next, wire := after);
          match reply
          case Err(error) => (sent.FailClosed(), Err(error))
          case Ok(response) =>
            if response.route != request.route then (sent.FailClosed(), Err(StaleRoute))
            else if response.sequence != request.sequence then (sent.FailClosed(), Err(ProxyError.StaleResponse))
            else (sent, Ok(response.value))
    }

    /** `ProxyPeer::close`: both halves are attempted, once. */
    function Close(clock: Reading): (ProxyState, bool) {
      if closed then (this, true)
      else
        var (afterClose, closing) := Perform(WireOp.Close, clock);
        var (afterRelease, releasing) := afterClose.Perform(Release, clock);
        (afterRelease.(closed := true), closing.Ok? && releasing.Ok?)
    }

    /** `ProxyEvents::try_recv`: only the next event of the right route gets through. */
    function TryRecv(clock: Reading): (ProxyState, Result<Option<ProxyEvent>, ProxyError>) {
      if failed then (this, Err(FailedClosed))
      else
        var (after, polled) := wire.TryEvent(clock);
        var next := this.(wire := after);
        match polled
        case Err(error) => (next.FailClosed(), Err(error))
        case Ok(None) => (next, Ok(None))
        case Ok(Some(response)) =>
          if response.route != route then (next.FailClosed(), Err(StaleRoute))
          else
            match CheckedAdd(lastEventSequence, 1)
            case None => (next, Err(ProxyError.StaleResponse))
            case Some(expected) =>
              if response.sequence != expected then (next.FailClosed(), Err(ProxyError.StaleResponse))
              else (next.(lastEventSequence := response.sequence), Ok(Some(response.value)))
    }
  }

  /** The state behind `ProxyPeer`, `ProxyInputSink` and `ProxyEvents`, which share it under one lock. */
  class ProxyShared {
    const route: ProxyRoute
    var nextRequestSequence: U64
    var lastEventSequence: U64
    const wire: ProtobufBridgeWire
    var failed: bool
    var closed: bool

    function View(): ProxyState
      reads this, wire, wire.rpc, wire.rpc.transport, wire.rpc.events
    {
      ProxyState(route, nextRequestSequence, lastEventSequence, wire.View(), failed, closed)
    }

    constructor (route: ProxyRoute, wire: ProtobufBridgeWire)
      ensures this.wire == wire && View() == ProxyState(route, 1, 0, wire.View(), false, false)
    {
      this.route, this.wire := route, wire;
      nextRequestSequence, lastEventSequence, failed, closed := 1, 0, false, false;
    }

    method FailClosed()
      modifies this`failed, wire`failed, wire.rpc`failed
      ensures View() == old(View()).FailClosed()
    {
      if !failed {
        failed := true;
        wire.FailClosed();
      }
    }

    method Perform(op: WireOp, clock: Reading) returns (r: Result<OpValue, ProxyError>)
      modifies this`failed, this`nextRequestSequence, wire, wire.rpc, wire.rpc.transport, wire.rpc.events
      ensures (View(), r) == old(View()).Perform(op, clock)
    {
      if failed {
        return Err(FailedClosed);
      }
      var request := BridgeRequest(route, nextRequestSequence);
      var next := CheckedAdd(nextRequestSequence, 1);
      if next.None? {
        return Err(FailedClosed);
      }
      nextRequestSequence := next.value;
      var reply := wire.Perform(request, op, clock);
      if reply.Err? {
        FailClosed();
        return Err(reply.error);
      }
      var response := reply.value;
      if response.route != request.route {
        FailClosed();
        return Err(StaleRoute);
      }
      if response.sequence != request.sequence {
        FailClosed();
        return Err(ProxyError.StaleResponse);
      }
      r := Ok(response.value);
    }

    method Close(clock: Reading) returns (ok: bool)
      modifies this, wire, wire.rpc, wire.rpc.transport, wire.rpc.events
      ensures (View(), ok) == old(View()).Close(clock)
    {
      if closed {
        return true;
      }
      var closing := Perform(WireOp.Close, clock);
      var releasing := Perform(Release, clock);
      closed := true;
      ok := closing.Ok? && releasing.Ok?;
    }

    method TryRecv(clock: Reading) returns (r: Result<Option<ProxyEvent>, ProxyError>)
      modifies this`failed, this`lastEventSequence, wire, wire.rpc, wire.rpc.transport, wire.rpc.events
      ensures (View(), r) == old(View()).TryRecv(clock)
    {
      if failed {
        return Err(FailedClosed);
      }
      var polled := wire.TryEvent(clock);
      if polled.Err? {
        FailClosed();
        return Err(polled.error);
      }
      if polled.value.None? {
        return Ok(None);
      }
      var response := polled.value.value;
      if response.route != route {
        FailClosed();
        return Err(StaleRoute);
      }
      var expected := CheckedAdd(lastEventSequence, 1);
      if expected.None? {
        return Err(ProxyError.StaleResponse);
      }
      if response.sequence != expected.value {
        FailClosed();
        return Err(ProxyError.StaleResponse);
      }
      lastEventSequence := response.sequence;
      r := Ok(Some(response.value));
    }
  }

  // ---- What one call means ----

  /** An operation succeeds exactly when the wire answers it for the proxy's own route and number; any other end closes the proxy. */
  lemma ProxyPerformIff(proxy: ProxyState, op: WireOp, clock: Reading)
    ensures var (next, r) := proxy.Perform(op, clock);
            var (wire, reply) := proxy.wire.Perform(BridgeRequest(proxy.route, proxy.nextRequestSequence), op, clock);
            && (proxy.failed ==> next == proxy && r == Err(FailedClosed))
            && (!proxy.failed && proxy.nextRequestSequence == U64_MAX ==> next == proxy && r == Err(FailedClosed))
            && (!proxy.failed && proxy.nextRequestSequence < U64_MAX ==>
                  && next.nextRequestSequence == proxy.nextRequestSequence as int + 1 && next.wire.rpc.sent == wire.rpc.sent
                  && (r.Ok? <==> reply.Ok? && reply.value.route == proxy.route && reply.value.sequence == proxy.nextRequestSequence)
                  && (r.Ok? ==>
                        && r.value == reply.value.value
                        && next == proxy.(nextRequestSequence := next.nextRequestSequence, wire := wire))
                  && (r.Err? ==> next.failed && next.wire.failed)
                  && (reply.Err? ==> r == Err(reply.error)))
  {
    hide WireState.Perform;
  }

  /** The proxy hands out exactly the event of its route numbered next. */
  lemma ProxyRecvIff(proxy: ProxyState, clock: Reading)
    ensures var (next, r) := proxy.TryRecv(clock);
            var (wire, polled) := proxy.wire.TryEvent(clock);
            && (proxy.failed ==> next == proxy && r == Err(FailedClosed))
            && (!proxy.failed ==>
                  && (r.Ok? && r.value.Some? <==>
                        && polled.Ok? && polled.value.Some? && polled.value.value.route == proxy.route
                        && polled.value.value.sequence as int == proxy.lastEventSequence as int + 1)
                  && (r.Ok? && r.value.Some? ==>
                        && r.value.value == polled.value.value.value
                        && next == proxy.(wire := wire, lastEventSequence := proxy.lastEventSequence as int + 1))
                  && (r == Ok(None) <==> polled == Ok(None))
                  && (r == Ok(None) ==> next == proxy.(wire := wire))
                  && (r.Err? ==> next.lastEventSequence == proxy.lastEventSequence && (next.failed || proxy.lastEventSequence == U64_MAX)))
  {
    var (next, r) := proxy.TryRecv(clock);
    var (wire, polled) := proxy.wire.TryEvent(clock);
    if !proxy.failed && polled.Ok? && polled.value.Some? && proxy.lastEventSequence < U64_MAX {
      assert r.Ok? <==> polled.value.value.route == proxy.route && polled.value.value.sequence as int == proxy.lastEventSequence as int + 1;
    }
    if !proxy.failed && (polled.Err? || polled.value.None?) {
      assert !(r.Ok? && r.value.Some?);
    }
    hide WireState.TryEvent;
  }

  /** Closing sends a close and a release, once, whatever becomes of the first. */
  lemma ProxyCloseIff(proxy: ProxyState, clock: Reading)
    ensures var (next, ok) := proxy.Close(clock);
            var (first, closing) := proxy.Perform(WireOp.Close, clock);
            var (second, releasing) := first.Perform(Release, clock);
            && next.closed && (proxy.closed ==> next == proxy && ok)
            && (!proxy.closed ==> next == second.(closed := true) && (ok <==> closing.Ok? && releasing.Ok?))
  {
    hide ProxyState.Perform;
  }

  // ---- The latch ----

  /** Any error of an operation or a poll closes the proxy, unless its numbers ran out or no next event number exists. */
  lemma ErrorsCloseTheProxy(proxy: ProxyState, op: WireOp, clock: Reading)
    ensures var (next, r) := proxy.Perform(op, clock);
            r.Err? ==> next.failed || (proxy.nextRequestSequence == U64_MAX && next == proxy)
    ensures var (next, r) := proxy.TryRecv(clock);
            r.Err? ==> next.failed || (proxy.lastEventSequence == U64_MAX && next.lastEventSequence == U64_MAX)
  {
    hide WireState.Perform;
    hide WireState.TryEvent;
  }

  datatype Op = PerformOp(op: WireOp, clock: Reading) | RecvOp(clock: Reading) | CloseOp(clock: Reading)

  function Step(proxy: ProxyState, op: Op): ProxyState {
    match op
    case PerformOp(wireOp, clock) => proxy.Perform(wireOp, clock).0
    case RecvOp(clock) => proxy.TryRecv(clock).0
    case CloseOp(clock) => proxy.Close(clock).0
  }

  function RunFrom(proxy: ProxyState, ops: seq<Op>): ProxyState
    decreases |ops|
  {
    if ops == [] then proxy else Step(RunFrom(proxy, ops[..|ops| - 1]), ops[|ops| - 1])
  }

  /** The operation reports an error; a close reports one when either half fails. */
  predicate Errs(proxy: ProxyState, op: Op) {
    match op
    case PerformOp(wireOp, clock) => proxy.Perform(wireOp, clock).1.Err?
    case RecvOp(clock) => proxy.TryRecv(clock).1.Err?
    case CloseOp(clock) => !proxy.Close(clock).1
  }

  lemma FailureSticks(proxy: ProxyState, wireOp: WireOp, clock: Reading)
    requires proxy.failed
    ensures proxy.Perform(wireOp, clock) == (proxy, Err(FailedClosed)) && proxy.TryRecv(clock) == (proxy, Err(FailedClosed))
  {
  }

  lemma ErrorClosesTheProxy(proxy: ProxyState, op: Op)
    requires Errs(proxy, op) && proxy.nextRequestSequence < U64_MAX - 1 && proxy.lastEventSequence < U64_MAX
    ensures Step(proxy, op).failed
  {
    match op
    case PerformOp(wireOp, clock) => ErrorsCloseTheProxy(proxy, wireOp, clock);
    case RecvOp(clock) => ErrorsCloseTheProxy(proxy, Release, clock);
    case CloseOp(clock) =>
      var first := proxy.Perform(WireOp.Close, clock).0;
      ErrorsCloseTheProxy(proxy, WireOp.Close, clock);
      ErrorsCloseTheProxy(first, Release, clock);
      if first.failed {
        FailureSticks(first, Release, clock);
      }
      NumbersRiseByOne(proxy, WireOp.Close, clock);
    hide ProxyState.Perform;
    hide ProxyState.TryRecv;
  }

  lemma NumbersRiseByOne(proxy: ProxyState, wireOp: WireOp, clock: Reading)
    requires proxy.nextRequestSequence < U64_MAX
    ensures var next := proxy.Perform(wireOp, clock).0;
            next.nextRequestSequence == if proxy.failed then proxy.nextRequestSequence else proxy.nextRequestSequence as int + 1
  {
    hide WireState.Perform;
  }

  lemma {:induction false} FailedRunIsInert(proxy: ProxyState, ops: seq<Op>)
    requires proxy.failed
    ensures RunFrom(proxy, ops) == proxy.(closed := RunFrom(proxy, ops).closed)
    decreases |ops|
  {
    if ops != [] {
      FailedRunIsInert(proxy, ops[..|ops| - 1]);
      var before, op := RunFrom(proxy, ops[..|ops| - 1]), ops[|ops| - 1];
      FailureSticks(before, WireOp.Close, op.clock);
      FailureSticks(before, Release, op.clock);
      if op.PerformOp? {
        FailureSticks(before, op.op, op.clock);
      }
    }
    hide ProxyState.Perform;
    hide ProxyState.TryRecv;
  }

  /**
   * One error is the end: after any operation that reports an error (numbers not about to
   * run out), every continuation leaves the wire exactly as it is, sends nothing, and every
   * later operation or poll reports FailedClosed.
   */
  lemma {:induction false} OneErrorIsTheEnd(proxy: ProxyState, op: Op, ops: seq<Op>, wireOp: WireOp, clock: Reading)
    requires Errs(proxy, op) && proxy.nextRequestSequence < U64_MAX - 1 && proxy.lastEventSequence < U64_MAX
    ensures var late := RunFrom(Step(proxy, op), ops);
            && late.failed && late.wire == Step(proxy, op).wire && late.lastEventSequence == Step(proxy, op).lastEventSequence
            && late.Perform(wireOp, clock) == (late, Err(FailedClosed)) && late.TryRecv(clock) == (late, Err(FailedClosed))
  {
    ErrorClosesTheProxy(proxy, op);
    FailedRunIsInert(Step(proxy, op), ops);
    FailureSticks(RunFrom(Step(proxy, op), ops), wireOp, clock);
    hide Step;
    hide RunFrom;
    hide ProxyState.Perform;
    hide ProxyState.TryRecv;
  }
}
